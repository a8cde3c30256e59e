/**
 Safety of whole runs.  A run is a list of client operations, resets with arbitrary hooks among
 them; it unfolds into a trace of elementary steps, and the theorems are about every trace whose
 allocations respect the allocator's contract.
 */
module ArenaRuns {
  import opened Wrappers
  import opened ArenaModel
  import opened ArenaHeap
  import opened ArenaInvariant

  datatype Micro = Do(op: BaseOp) | Core(read: Memory) | Activate(on: bool)

  ghost function MicroStep(v: View, m: Micro): View {
    match m
    case Do(op) => BaseStep(v, op)
    case Core(read) => ResetCore(v, read)
    case Activate(on) => v.(active := on)
  }

  ghost function Trace(v: View, ms: seq<Micro>): View {
    if ms == [] then v else MicroStep(Trace(v, ms[..|ms| - 1]), ms[|ms| - 1])
  }

  ghost predicate EnabledTrace(v: View, ms: seq<Micro>) {
    forall i :: 0 <= i < |ms| && ms[i].Do? ==> Enabled(Trace(v, ms[..i]), ms[i].op)
  }

  // ---- client runs unfold into traces -------------------------------------------------

  function ScriptTrace(ops: seq<HookOp>): seq<Micro> {
    if ops == [] then []
    else
      var last := ops[|ops| - 1];
      ScriptTrace(ops[..|ops| - 1]) + if last.Perform? then [Do(last.op)] else []
  }

  function CallsTrace(calls: seq<Call>, scripts: Scripts): seq<Micro> {
    if calls == [] then []
    else CallsTrace(calls[..|calls| - 1], scripts) + ScriptTrace(scripts(calls[|calls| - 1]))
  }

  ghost function ResetTrace(v: View, read: Memory, scripts: Scripts): seq<Micro> {
    if v.active then [] else
    [Core(read), Activate(true)]
    + CallsTrace(MetadataList(v.metadataHooks), scripts)
    + CallsTrace(ReleaseList(AfterMetadata(v, read, scripts).hooks), scripts)
    + [Activate(false)]
  }

  datatype ClientOp = Client(op: BaseOp) | Collect(read: Memory, scripts: Scripts)

  ghost function Step(v: View, op: ClientOp): View {
    match op
    case Client(o) => BaseStep(v, o)
    case Collect(read, scripts) => ResetStep(v, read, scripts)
  }

  ghost function Run(v: View, ops: seq<ClientOp>): View {
    if ops == [] then v else Step(Run(v, ops[..|ops| - 1]), ops[|ops| - 1])
  }

  ghost function RunTrace(v: View, ops: seq<ClientOp>): seq<Micro> {
    if ops == [] then []
    else
      var front, last := ops[..|ops| - 1], ops[|ops| - 1];
      RunTrace(v, front) + match last
        case Client(o) => [Do(o)]
        case Collect(read, scripts) => ResetTrace(Run(v, front), read, scripts)
  }

  lemma {:induction false} TraceAppend(v: View, a: seq<Micro>, b: seq<Micro>)
    ensures Trace(v, a + b) == Trace(Trace(v, a), b)
  {
    if b == [] {
      assert a + b == a;
    } else {
      TraceAppend(v, a, b[..|b| - 1]);
      assert (a + b)[..|a + b| - 1] == a + b[..|b| - 1];
    }
  }

  lemma TraceOne(v: View, m: Micro)
    ensures Trace(v, [m]) == MicroStep(v, m)
  {
    assert [m][..0] == [];
  }

  lemma {:induction false} ScriptIsTrace(v: View, ops: seq<HookOp>)
    ensures RunScript(v, ops) == Trace(v, ScriptTrace(ops))
  {
    if ops != [] {
      var front, last := ops[..|ops| - 1], ops[|ops| - 1];
      ScriptIsTrace(v, front);
      var tail := if last.Perform? then [Do(last.op)] else [];
      TraceAppend(v, ScriptTrace(front), tail);
      if last.Perform? {
        TraceOne(RunScript(v, front), Do(last.op));
      }
    }
  }

  lemma {:induction false} CallsAreTrace(v: View, calls: seq<Call>, scripts: Scripts)
    ensures RunCalls(v, calls, scripts) == Trace(v, CallsTrace(calls, scripts))
  {
    if calls != [] {
      var front, last := calls[..|calls| - 1], calls[|calls| - 1];
      CallsAreTrace(v, front, scripts);
      ScriptIsTrace(RunCalls(v, front, scripts), scripts(last));
      TraceAppend(v, CallsTrace(front, scripts), ScriptTrace(scripts(last)));
    }
  }

  lemma ResetIsTrace(v: View, read: Memory, scripts: Scripts)
    ensures ResetStep(v, read, scripts) == Trace(v, ResetTrace(v, read, scripts))
  {
    if !v.active {
      CoreKeepsHooks(v, read);
      var w := ResetCore(v, read).(active := true);
      var first := [Core(read), Activate(true)];
      assert first == [Core(read)] + [Activate(true)];
      TraceAppend(v, [Core(read)], [Activate(true)]);
      TraceOne(v, Core(read));
      TraceOne(ResetCore(v, read), Activate(true));
      var metadata := CallsTrace(MetadataList(v.metadataHooks), scripts);
      CallsAreTrace(w, MetadataList(v.metadataHooks), scripts);
      TraceAppend(v, first, metadata);
      var m := AfterMetadata(v, read, scripts);
      var release := CallsTrace(ReleaseList(m.hooks), scripts);
      CallsAreTrace(m, ReleaseList(m.hooks), scripts);
      TraceAppend(v, first + metadata, release);
      TraceAppend(v, first + metadata + release, [Activate(false)]);
      TraceOne(Trace(m, release), Activate(false));
    }
  }

  /** Every client run is a trace of elementary steps. */
  lemma {:induction false} RunIsTrace(v: View, ops: seq<ClientOp>)
    ensures Run(v, ops) == Trace(v, RunTrace(v, ops))
  {
    if ops != [] {
      var front, last := ops[..|ops| - 1], ops[|ops| - 1];
      RunIsTrace(v, front);
      match last
      case Client(o) =>
        TraceAppend(v, RunTrace(v, front), [Do(o)]);
        TraceOne(Run(v, front), Do(o));
      case Collect(read, scripts) =>
        ResetIsTrace(Run(v, front), read, scripts);
        TraceAppend(v, RunTrace(v, front), ResetTrace(Run(v, front), read, scripts));
    }
  }

  // ---- the invariant over every run ---------------------------------------------------

  lemma EnabledPrefix(v: View, ms: seq<Micro>)
    requires EnabledTrace(v, ms) && ms != []
    ensures EnabledTrace(v, ms[..|ms| - 1])
    ensures ms[|ms| - 1].Do? ==> Enabled(Trace(v, ms[..|ms| - 1]), ms[|ms| - 1].op)
  {
    var front := ms[..|ms| - 1];
    forall i | 0 <= i < |front| && front[i].Do? ensures Enabled(Trace(v, front[..i]), front[i].op) {
      assert front[..i] == ms[..i];
    }
  }

  lemma MicroKeeps(v: View, m: Micro)
    requires Invariant(v) && (m.Do? ==> Enabled(v, m.op))
    ensures Invariant(MicroStep(v, m))
  {
    match m
    case Do(op) => BaseKeeps(v, op);
    case Core(read) => CoreKeeps(v, read);
    case Activate(on) => Framed(v, v.(active := on));
  }

  lemma {:induction false} TraceKeepsInvariant(v: View, ms: seq<Micro>)
    requires Invariant(v) && EnabledTrace(v, ms)
    ensures Invariant(Trace(v, ms))
  {
    if ms != [] {
      EnabledPrefix(v, ms);
      TraceKeepsInvariant(v, ms[..|ms| - 1]);
      MicroKeeps(Trace(v, ms[..|ms| - 1]), ms[|ms| - 1]);
    }
  }

  /** Recorded extents stay disjoint, inside their bumps, under unique serials, in every run. */
  lemma RunKeepsInvariant(v: View, ops: seq<ClientOp>)
    requires Invariant(v) && EnabledTrace(v, RunTrace(v, ops))
    ensures Invariant(Run(v, ops))
  {
    RunIsTrace(v, ops);
    TraceKeepsInvariant(v, RunTrace(v, ops));
  }

  // ---- reachable allocations are never disturbed --------------------------------------

  ghost predicate Holds(v: View, b: nat, size: nat, serial: nat) {
    b in v.index && v.index[b].size == size && v.index[b].serial == serial
  }

  /** At every reset of the trace the allocation at `b` is reachable. */
  ghost predicate ReachableAtResets(v: View, ms: seq<Micro>, b: nat) {
    forall i :: 0 <= i < |ms| && ms[i].Core? ==> b in Live(Trace(v, ms[..i]), ms[i].read)
  }

  /** No allocation of the trace hands out one of these bytes. */
  ghost predicate NeverHandedOut(ms: seq<Micro>, bytes: set<nat>) {
    forall i :: 0 <= i < |ms| && ms[i].Do? && ms[i].op.Alloc? && ms[i].op.answer.Some? ==>
      Extent(ms[i].op.answer.value, ms[i].op.size) !! bytes
  }

  lemma MicroHolds(v: View, m: Micro, b: nat, size: nat, serial: nat)
    requires Invariant(v) && (m.Do? ==> Enabled(v, m.op)) && Holds(v, b, size, serial)
    requires m.Core? ==> b in Live(v, m.read)
    ensures Holds(MicroStep(v, m), b, size, serial)
    ensures m.Do? && m.op.Alloc? && m.op.answer.Some? ==>
              Extent(m.op.answer.value, m.op.size) !! Extent(b, size)
  {
    match m
    case Do(op) =>
      hide BaseStep, Extent, Invariant;
      IndexChange(v, op);
      if op.Alloc? && op.answer.Some? {
        AllocApart(v, op.answer.value, op.size, b);
      }
    case Core(read) => CoreIndex(v, read, b);
    case Activate(_) =>
  }

  lemma AllocApart(v: View, base: nat, size: nat, b: nat)
    requires Invariant(v) && size >= 1 && Fits(v, base, size) && b in v.index
    ensures base != b && Extent(base, size) !! Extent(b, v.index[b].size)
  {
    RecordBytesUsed(v, b, base, size);
    FreshRecordApart(v, base, size);
  }

  /** Only a traced allocation changes the index, and only a reset removes from it. */
  lemma IndexChange(v: View, op: BaseOp)
    ensures var w := BaseStep(v, op);
            if op.Alloc? && op.answer.Some? && v.tracing
            then w.index == v.index[op.answer.value := AllocRecord(Max(op.size, 1), |v.retained|, NextSerial(v.nextId))]
                 && w.nextId == (if v.nextId < U64_MAX then v.nextId + 1 else v.nextId)
            else w.index == v.index && w.nextId == v.nextId
  {
  }

  lemma CoreIndex(v: View, read: Memory, b: nat)
    ensures var w := ResetCore(v, read);
            && w.nextId == v.nextId
            && (b in w.index ==>
                  b in v.index && w.index[b].serial == v.index[b].serial && w.index[b].size == v.index[b].size)
            && (b in Live(v, read) ==> b in w.index)
  {
  }

  /** An allocation reachable at every reset keeps its record, and its bytes are never handed
      out again. */
  lemma {:induction false} ReachableSurvives(v: View, ms: seq<Micro>, b: nat, size: nat, serial: nat)
    requires Invariant(v) && EnabledTrace(v, ms) && Holds(v, b, size, serial)
    requires ReachableAtResets(v, ms, b)
    ensures Holds(Trace(v, ms), b, size, serial)
    ensures NeverHandedOut(ms, Extent(b, size))
  {
    hide Invariant, Extent, Live, MicroStep, Enabled;
    if ms != [] {
      var front := ms[..|ms| - 1];
      EnabledPrefix(v, ms);
      forall i | 0 <= i < |front| && front[i].Core? ensures b in Live(Trace(v, front[..i]), front[i].read) {
        assert front[..i] == ms[..i] && ms[i] == front[i];
      }
      ReachableSurvives(v, front, b, size, serial);
      TraceKeepsInvariant(v, front);
      MicroHolds(Trace(v, front), ms[|ms| - 1], b, size, serial);
      assert forall i :: 0 <= i < |front| ==> front[i] == ms[i];
    }
  }

  lemma RunKeepsReachable(v: View, ops: seq<ClientOp>, b: nat, size: nat, serial: nat)
    requires Invariant(v) && EnabledTrace(v, RunTrace(v, ops)) && Holds(v, b, size, serial)
    requires ReachableAtResets(v, RunTrace(v, ops), b)
    ensures Holds(Run(v, ops), b, size, serial)
    ensures NeverHandedOut(RunTrace(v, ops), Extent(b, size))
  {
    RunIsTrace(v, ops);
    ReachableSurvives(v, RunTrace(v, ops), b, size, serial);
  }

  // ---- zero-size allocations ----------------------------------------------------------

  /** A traced allocation leaves every record in place if its base is not recorded yet, and
      takes over the record otherwise; only a zero-size one can meet a recorded base. */
  lemma AllocDisturbsOnlyItsBase(v: View, base: nat, size: nat)
    requires Invariant(v) && v.tracing && Fits(v, base, size)
    ensures var w := AllocStep(v, size, Some(base));
            && Holds(w, base, Max(size, 1), NextSerial(v.nextId))
            && (forall b :: b in v.index && b != base ==> Holds(w, b, v.index[b].size, v.index[b].serial))
            && (base in v.index ==> size == 0)
  {
    if size >= 1 {
      FreshRecordApart(v, base, size);
    }
  }

  /** A zero-size allocation may repeat a base: it takes over the record of a pinned allocation. */
  lemma ZeroSizeTakesOver()
    ensures var v := View([], Extent(8, 16), map[8 := AllocRecord(16, 0, 1)], 1, Some(1), {}, {}, map[], map[],
                          true, map[8 := 1], [], [], false, 16);
            && Invariant(v) && Fits(v, 8, 0)
            && AllocStep(v, 0, Some(8)).index == map[8 := AllocRecord(1, 0, 2)]
  {
    var v := View([], Extent(8, 16), map[8 := AllocRecord(16, 0, 1)], 1, Some(1), {}, {}, map[], map[],
                  true, map[8 := 1], [], [], false, 16);
    assert Bumps(v) == [Extent(8, 16)];
  }

  // ---- incarnations -------------------------------------------------------------------

  /** An identity that was issued and is no longer recorded. */
  ghost predicate Stale(v: View, id: AllocationId) {
    0 < id.serial <= v.nextId && !IsIncarnation(v.index, id)
  }

  lemma MicroStale(v: View, m: Micro, id: AllocationId)
    requires Stale(v, id)
    ensures Stale(MicroStep(v, m), id) && v.nextId <= MicroStep(v, m).nextId
  {
    match m
    case Do(op) =>
      hide BaseStep;
      IndexChange(v, op);
    case Core(read) =>
      hide ResetCore;
      CoreIndex(v, read, id.base);
    case Activate(_) =>
  }

  lemma {:induction false} TraceStale(v: View, ms: seq<Micro>, id: AllocationId)
    requires Stale(v, id)
    ensures Stale(Trace(v, ms), id)
  {
    if ms != [] {
      TraceStale(v, ms[..|ms| - 1], id);
      MicroStale(Trace(v, ms[..|ms| - 1]), ms[|ms| - 1], id);
    }
  }

  /** A dead incarnation stays dead in every run, whatever address reuse happens: no lookup
      answers it, its edges can be neither replaced nor followed. */
  lemma StaleForever(v: View, ops: seq<ClientOp>, id: AllocationId)
    requires Stale(v, id)
    ensures var w := Run(v, ops);
            && (forall p :: Identity(w, p) != Some(id))
            && (forall o, x, y :: ReplaceEdgeStep(w, id, o, x, y) == w)
            && (forall p, es :: EdgeChildren(w.(edges := es), p) ==
                                EdgeChildren(w.(edges := WithoutOwner(es, id)), p))
  {
    RunIsTrace(v, ops);
    TraceStale(v, RunTrace(v, ops), id);
  }

  /** Side edges with every key of one incarnation removed. */
  ghost function WithoutOwner(es: map<EdgeKey, seq<nat>>, id: AllocationId): map<EdgeKey, seq<nat>> {
    map k | k in es && k.0 != id :: es[k]
  }
}
