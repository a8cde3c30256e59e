/**
 The growth-triggered reset policy.  A ledger follows a run in which only `reset_if_grown`
 resets, and counts the bytes allocated and the bytes marked: marking stays linear in
 allocation because each threshold is at least twice the bytes that survived.
 */
module ArenaCost {
  import opened ArenaModel
  import opened ArenaSettling
  import opened ArenaHeap
  import opened ArenaInvariant
  import opened ArenaRuns
  import opened ArenaTiming

  // ---- bytes allocated along a trace --------------------------------------------------

  function Bytes(m: Micro): nat {
    if m.Do? && m.op.Alloc? && m.op.answer.Some? then m.op.size else 0
  }

  function AllocBytes(ms: seq<Micro>): nat {
    if ms == [] then 0 else AllocBytes(ms[..|ms| - 1]) + Bytes(ms[|ms| - 1])
  }

  lemma MicroSum(v: View, m: Micro)
    requires Invariant(v) && (m.Do? ==> Enabled(v, m.op))
    ensures SumSizes(MicroStep(v, m).index) <= SumSizes(v.index) + Bytes(m)
    ensures MicroStep(v, m).bytes <= v.bytes + Bytes(m)
    ensures v.tracing ==> MicroStep(v, m).tracing
  {
    hide Invariant, Extent, SumSizes;
    match m
    case Do(op) =>
      IndexChange(v, op);
      BytesChange(v, op);
      if op.Alloc? && op.answer.Some? && v.tracing {
        AllocIsNew(v, op.answer.value, op.size);
        SumPut(v.index, op.answer.value, AllocRecord(Max(op.size, 1), |v.retained|, NextSerial(v.nextId)));
      }
    case Core(read) =>
      CoreSum(v, read);
    case Activate(_) =>
  }

  lemma BytesChange(v: View, op: BaseOp)
    ensures BaseStep(v, op).bytes <= v.bytes + Bytes(Do(op))
    ensures v.tracing ==> BaseStep(v, op).tracing
  {
  }

  lemma CoreSum(v: View, read: Memory)
    ensures SumSizes(ResetCore(v, read).index) <= SumSizes(v.index)
    ensures ResetCore(v, read).bytes == 0 && ResetCore(v, read).tracing == v.tracing
  {
    var w := ResetCore(v, read);
    forall b | b in w.index ensures b in v.index && v.index[b].size == w.index[b].size {
      CoreIndex(v, read, b);
    }
    SumCovers(w.index, v.index);
  }

  lemma {:induction false} TraceSum(v: View, ms: seq<Micro>)
    requires Invariant(v) && EnabledTrace(v, ms)
    ensures SumSizes(Trace(v, ms).index) <= SumSizes(v.index) + AllocBytes(ms)
    ensures Trace(v, ms).bytes <= v.bytes + AllocBytes(ms)
    ensures v.tracing ==> Trace(v, ms).tracing
  {
    hide Invariant, Enabled, SumSizes, MicroStep;
    if ms != [] {
      EnabledPrefix(v, ms);
      TraceSum(v, ms[..|ms| - 1]);
      TraceKeepsInvariant(v, ms[..|ms| - 1]);
      MicroSum(Trace(v, ms[..|ms| - 1]), ms[|ms| - 1]);
    }
  }

  // ---- the ledger ---------------------------------------------------------------------

  /** `since` counts the bytes handed out since the last reset, `survived` what it left and
      `hooked` what its hooks handed out; the threshold is computed from the ordered table,
          as it stands after the hooks. */
  datatype Ledger = Ledger(view: View, tables: Tables, threshold: nat, handedOut: nat, marked: nat, since: nat,
                           survived: nat, hooked: nat)

  datatype CostOp = Mutate(op: BaseOp) | Grown(read: Memory, scripts: Scripts)

  ghost predicate Fires(l: Ledger) { l.view.tracing && l.view.bytes >= l.threshold }

  ghost function Pay(l: Ledger, op: CostOp): Ledger {
    match op
    case Mutate(o) =>
      l.(view := BaseStep(l.view, o), tables := TablesStep(l.tables, l.view, o),
         handedOut := l.handedOut + Bytes(Do(o)), since := l.since + Bytes(Do(o)))
    case Grown(read, scripts) => if Fires(l) then PayReset(l, read, scripts) else l
  }

  ghost function PayReset(l: Ledger, read: Memory, scripts: Scripts): Ledger {
    var survived := SumSizes(ResetCore(l.view, read).index);
    var hookBytes := AllocBytes(HookTrace(l.view, read, scripts));
    var tables := ResetTables(l.tables, l.view, read, scripts);
    Ledger(ResetStep(l.view, read, scripts), tables, Threshold(SumSizes(tables.table)),
           l.handedOut + hookBytes, l.marked + survived, hookBytes, survived, hookBytes)
  }

  /** The allocator keeps its contract, in hooks too, and recorded sizes fit the counters. */
  ghost predicate Payable(l: Ledger, op: CostOp) {
    match op
    case Mutate(o) => Enabled(l.view, o)
    case Grown(read, scripts) =>
      && EnabledTrace(ResetCore(l.view, read), HookTrace(l.view, read, scripts))
      && SumSizes(ResetCore(l.view, read).index) <= U64_MAX
  }

  ghost function PayAll(l: Ledger, ops: seq<CostOp>): Ledger {
    if ops == [] then l else Pay(PayAll(l, ops[..|ops| - 1]), ops[|ops| - 1])
  }

  ghost predicate AllPayable(l: Ledger, ops: seq<CostOp>) {
    forall i :: 0 <= i < |ops| ==> Payable(PayAll(l, ops[..i]), ops[i])
  }

  ghost predicate Balanced(l: Ledger) {
    && Invariant(l.view) && Consistent(l.tables, l.view) && l.view.tracing && !l.view.active
    && l.view.bytes <= l.since
    && SumSizes(l.view.index) <= l.survived + l.since
    && (2 * l.survived <= l.threshold || l.threshold == U64_MAX)
    && 2 * l.marked + 3 * l.since <= 3 * l.handedOut
  }

  lemma ThresholdCovers(survivors: Table, table: Table)
    requires Covers(survivors, table)
    ensures 2 * SumSizes(survivors) <= Threshold(SumSizes(table)) || Threshold(SumSizes(table)) == U64_MAX
  {
    SumCovers(survivors, table);
  }

  lemma PayKeepsBalance(l: Ledger, op: CostOp)
    requires Balanced(l) && Payable(l, op)
    ensures Balanced(Pay(l, op))
  {
    hide Invariant, Consistent, Enabled, SumSizes, TablesStep, PayReset;
    match op
    case Mutate(o) =>
      MicroSum(l.view, Do(o));
      MicroKeeps(l.view, Do(o));
      StepConsistent(l.tables, l.view, o);
      BaseKeepsActive(l.view, Perform(o));
      hide BaseStep;
    case Grown(read, scripts) =>
      if Fires(l) {
        GrownKeepsBalance(l, read, scripts);
      }
  }

  lemma GrownKeepsBalance(l: Ledger, read: Memory, scripts: Scripts)
    requires Balanced(l) && Fires(l) && Payable(l, Grown(read, scripts))
    ensures Balanced(PayReset(l, read, scripts))
  {
    hide ResetCore, HookTrace, SumSizes, Trace, Invariant, Consistent, Covers, AllocBytes, Threshold, ResetTables,
         ResetStep, EnabledTrace;
    var v, core, hooks := l.view, ResetCore(l.view, read), HookTrace(l.view, read, scripts);
    ResetIsCoreThenHooks(v, read, scripts);
    CoreKeeps(v, read);
    CoreSum(v, read);
    TraceSum(core, hooks);
    TraceKeepsInvariant(core, hooks);
    ResetCovers(l.tables, v, read, scripts);
    ResetStopsActive(v, read, scripts);
    ThresholdCovers(core.index, ResetTables(l.tables, v, read, scripts).table);
  }

  lemma ResetStopsActive(v: View, read: Memory, scripts: Scripts)
    requires !v.active
    ensures !ResetStep(v, read, scripts).active
  {
  }

  lemma FrontPayable(l: Ledger, ops: seq<CostOp>)
    requires AllPayable(l, ops) && ops != []
    ensures AllPayable(l, ops[..|ops| - 1]) && PayAll(l, ops) == Pay(PayAll(l, ops[..|ops| - 1]), ops[|ops| - 1])
  {
    hide Payable, Pay;
    var front := ops[..|ops| - 1];
    forall i | 0 <= i < |front| ensures Payable(PayAll(l, front[..i]), front[i]) {
      assert front[..i] == ops[..i] && front[i] == ops[i];
    }
  }

  lemma {:induction false} BalanceKept(l: Ledger, ops: seq<CostOp>)
    requires Balanced(l) && AllPayable(l, ops)
    ensures Balanced(PayAll(l, ops))
  {
    hide Balanced, Payable, Pay;
    if ops != [] {
      var front := ops[..|ops| - 1];
      FrontPayable(l, ops);
      assert Payable(PayAll(l, ops[..|front|]), ops[|front|]);
      BalanceKept(l, front);
      PayKeepsBalance(PayAll(l, front), ops[|ops| - 1]);
    }
  }

  /** A fresh arena with tracing on. */
  ghost function Opening(): Ledger {
    Ledger(EMPTY.(tracing := true), Tables(map[], []), AUTO_RESET_FLOOR, 0, 0, 0, 0, 0)
  }

  /** Over any run in which only `reset_if_grown` resets, twice the bytes marked is at most
      three times the bytes allocated. */
  lemma MarkingIsAmortised(ops: seq<CostOp>)
    requires AllPayable(Opening(), ops)
    ensures 2 * PayAll(Opening(), ops).marked <= 3 * PayAll(Opening(), ops).handedOut
  {
    assert Balanced(Opening());
    BalanceKept(Opening(), ops);
  }

  /** The ledger is the arena's own: driving one through the run gives the ledger's value, tables
      and threshold, resets firing in the same places, and so the bound holds of it. */
  method Drive(ops: seq<CostOp>) returns (a: Arena, ghost l: Ledger)
    requires AllPayable(Opening(), ops)
    ensures fresh(a) && a.Valid() && l == PayAll(Opening(), ops)
    ensures a.Value() == l.view && a.Index() == l.tables && a.nextAutoReset == l.threshold
    ensures 2 * l.marked <= 3 * l.handedOut
  {
    hide Pay, Balanced, AllPayable, Payable;
    a := new Arena();
    a.Perform(EnableTracing);
    l := Opening();
    for i := 0 to |ops|
      invariant a.Valid() && fresh(a) && l == PayAll(Opening(), ops[..i]) && Matches(a, l)
    {
      hide Matches, Opening;
      PayNext(Opening(), ops, i);
      Charge(a, l, ops[i]);
      l := Pay(l, ops[i]);
    }
    assert ops[..|ops|] == ops;
    MarkingIsAmortised(ops);
  }

  ghost predicate Matches(a: Arena, l: Ledger)
    reads a
  {
    a.Value() == l.view && a.Index() == l.tables && a.nextAutoReset == l.threshold
  }

  lemma PayNext(l: Ledger, ops: seq<CostOp>, i: nat)
    requires i < |ops|
    ensures PayAll(l, ops[..i + 1]) == Pay(PayAll(l, ops[..i]), ops[i])
  {
    assert ops[..i + 1][..i] == ops[..i];
  }

  method Charge(a: Arena, ghost l: Ledger, op: CostOp)
    requires a.Valid() && Matches(a, l)
    modifies a
    ensures a.Valid() && Matches(a, Pay(l, op))
  {
    hide BaseStep, TablesStep, ResetStep, ResetTables, ResetCore, SumSizes, AllocBytes, HookTrace;
    match op
    case Mutate(o) => a.Perform(o);
    case Grown(read, scripts) => var _, _ := a.ResetIfGrown(read, scripts);
  }
}
