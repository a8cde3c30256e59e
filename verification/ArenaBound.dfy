/**
 The other side of the reset policy: garbage is bounded.  Thresholds are no higher than twice what
 is recorded when they are set, and the counter that is compared with them is exact.
 */
module ArenaBound {
  import opened ArenaModel
  import opened ArenaIndex
  import opened ArenaSettling
  import opened ArenaHeap
  import opened ArenaInvariant
  import opened ArenaRuns
  import opened ArenaTiming
  import opened ArenaCost
  import opened ArenaLaws

  /** One mebibyte, or twice what the last reset and its hooks left. */
  function Ceiling(l: Ledger): nat { Max(0x10_0000, 2 * (l.survived + l.hooked)) }

  ghost predicate Lean(l: Ledger) {
    && Balanced(l) && l.view.tracing && l.view.bytes == Capped(0, l.since)
    && 0x10_0000 <= l.threshold <= Ceiling(l) && l.threshold <= U64_MAX && l.hooked <= l.since
  }

  lemma ThresholdIsLow(h: Tables, v: View, recorded: nat)
    requires Consistent(h, v) && SumSizes(v.index) <= recorded
    ensures 0x10_0000 <= Threshold(SumSizes(h.table)) <= Max(0x10_0000, 2 * recorded)
    ensures Threshold(SumSizes(h.table)) <= U64_MAX
  {
    SumFresh(h.table, h.pending, |v.retained|);
    hide SumSizes, Fold;
  }

  lemma PayKeepsLean(l: Ledger, op: CostOp)
    requires Lean(l) && Payable(l, op)
    ensures Lean(Pay(l, op))
  {
    if op.Mutate? {
      PayKeepsBalance(l, op);
      MutateIsLean(l, op);
    } else if Fires(l) {
      ResetIsLean(l, op.read, op.scripts);
    }
  }

  lemma MutateIsLean(l: Ledger, op: CostOp)
    requires Lean(l) && op.Mutate? && Balanced(Pay(l, op))
    ensures Lean(Pay(l, op))
  {
    hide Lean, Balanced, BaseStep, TablesStep, Bytes;
    LeanBytes(l);
    MicroBytes(l.view, Do(op.op));
    KeepsTracing(l.view, op.op);
    StaysLean(l, Pay(l, op), Bytes(Do(op.op)));
  }

  lemma LeanBytes(l: Ledger)
    requires Lean(l)
    ensures l.view.tracing && l.view.bytes <= U64_MAX
  {
    hide Balanced;
  }

  lemma StaysLean(l: Ledger, next: Ledger, n: nat)
    requires Lean(l) && Balanced(next) && next.view.tracing
    requires next.view.bytes == Capped(l.view.bytes, n) && next.since == l.since + n
    requires next.threshold == l.threshold && next.survived == l.survived && next.hooked == l.hooked
    ensures Lean(next)
  {
    hide Balanced;
  }

  lemma ResetIsLean(l: Ledger, read: Memory, scripts: Scripts)
    requires Lean(l) && Fires(l) && Payable(l, Grown(read, scripts))
    ensures Lean(PayReset(l, read, scripts))
  {
    GrownKeepsBalance(l, read, scripts);
    hide ResetCore, HookTrace, SumSizes, Trace, Invariant, AllocBytes, Threshold, ResetTables, ResetStep, EnabledTrace,
         Consistent;
    var v, core, hooks := l.view, ResetCore(l.view, read), HookTrace(l.view, read, scripts);
    ResetIsCoreThenHooks(v, read, scripts);
    CoreSum(v, read);
    HooksHaveNoCore(v, read, scripts);
    BytesAddUp(core, hooks);
    var next := PayReset(l, read, scripts);
    ThresholdIsLow(next.tables, next.view, next.survived + next.hooked);
  }

  lemma {:induction false} LeanKept(l: Ledger, ops: seq<CostOp>)
    requires Lean(l) && AllPayable(l, ops)
    ensures Lean(PayAll(l, ops))
  {
    hide Lean, Payable, Pay;
    if ops != [] {
      var front := ops[..|ops| - 1];
      FrontPayable(l, ops);
      assert Payable(PayAll(l, ops[..|front|]), ops[|front|]);
      LeanKept(l, front);
      PayKeepsLean(PayAll(l, front), ops[|ops| - 1]);
    }
  }

  lemma OpeningIsLean()
    ensures Lean(Opening())
  {
  }

  /** After every check, what is recorded is at most what the last reset left and, beside it, one
      mebibyte or twice what that reset and its hooks left. */
  lemma GarbageIsBounded(ops: seq<CostOp>)
    requires AllPayable(Opening(), ops) && ops != [] && ops[|ops| - 1].Grown?
    ensures var l := PayAll(Opening(), ops);
            SumSizes(l.view.index) <= l.survived + Max(0x10_0000, 2 * (l.survived + l.hooked))
  {
    hide SumSizes, Opening, Payable, Invariant, Consistent, Lean, Pay, AllPayable;
    var front, last := ops[..|ops| - 1], ops[|ops| - 1];
    OpeningIsLean();
    FrontPayable(Opening(), ops);
    LeanKept(Opening(), front);
    LeanKept(Opening(), ops);
    var before, after := PayAll(Opening(), front), PayAll(Opening(), ops);
    hide PayAll;
    CheckedIsLow(before, last);
    RecordedIsLow(after);
  }

  /** No check resets before one mebibyte was handed out since the last reset. */
  lemma NoEarlyReset(ops: seq<CostOp>)
    requires AllPayable(Opening(), ops) && Fires(PayAll(Opening(), ops))
    ensures PayAll(Opening(), ops).since >= 0x10_0000
  {
    hide AllPayable, Balanced;
    OpeningIsLean();
    LeanKept(Opening(), ops);
    hide Opening, PayAll;
  }

  lemma RecordedIsLow(l: Ledger)
    requires Lean(l)
    ensures SumSizes(l.view.index) <= l.survived + l.since
  {
    hide SumSizes, Invariant, Consistent;
  }

  lemma CheckedIsLow(l: Ledger, op: CostOp)
    requires Lean(l) && Lean(Pay(l, op)) && op.Grown?
    ensures Pay(l, op).since <= Ceiling(Pay(l, op))
  {
    hide Balanced, PayReset;
    if Fires(l) {
      SinceIsHooked(l, op);
    }
  }

  lemma SinceIsHooked(l: Ledger, op: CostOp)
    requires op.Grown? && Fires(l)
    ensures Pay(l, op).since == Pay(l, op).hooked
  {
    hide ResetCore, HookTrace, SumSizes, AllocBytes, Threshold, ResetTables, ResetStep;
  }
}
