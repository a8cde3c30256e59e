/**
 What one traced reset means: every record either survives unchanged or is reported reclaimed,
 nothing is lost or counted twice, generations are renumbered exactly, and hooks run once each
 without disturbing the classification.
 */
module ArenaTheorems {
  import opened Wrappers
  import opened ArenaModel
  import opened ArenaSweep
  import opened ArenaHeap
  import opened ArenaInvariant
  import opened ArenaRuns
  import opened ArenaTiming

  // ---- lookups among disjoint records -------------------------------------------------

  /** With disjoint records a lookup finds exactly the record whose extent holds the pointer. */
  lemma FindIsMembership(t: Table, p: nat, b: nat)
    requires RecordsApart(t)
    ensures Find(t, p) == Some(b) <==> b in t && b <= p < b + t[b].size
  {
  }

  lemma SurvivorLookup(v: View, read: Memory, p: nat)
    requires RecordsApart(v.index)
    requires Find(v.index, p).Some? ==> Find(v.index, p).value in Live(v, read)
    ensures Find(TracedReset(v, read).index, p) == Find(v.index, p)
  {
    var t, w := v.index, TracedReset(v, read).index;
    assert RecordsApart(w);
    forall b: nat ensures Find(w, p) == Some(b) <==> Find(t, p) == Some(b) {
      FindIsMembership(t, p, b);
      FindIsMembership(w, p, b);
    }
  }

  // ---- classification -----------------------------------------------------------------

  /** `was_reclaimed` answers whether the pointer lay in a dead allocation. */
  lemma ReclaimedExactly(v: View, read: Memory, ranges: seq<(nat, nat)>, p: nat)
    requires Invariant(v) && v.tracing
    requires RangesAscend(ranges) && RangeSet(ranges) == ResetCore(v, read).reclaimed
    ensures LastRangeHolds(ranges, p) <==>
            Find(v.index, p).Some? && Find(v.index, p).value !in Live(v, read)
  {
    DeadLookup(v.index, Live(v, read), ranges, p);
  }

  lemma DeadLookup(t: Table, live: set<nat>, ranges: seq<(nat, nat)>, p: nat)
    requires RecordsApart(t) && RangesAscend(ranges) && RangeSet(ranges) == DeadRanges(t, live)
    ensures LastRangeHolds(ranges, p) <==> Find(t, p).Some? && Find(t, p).value !in live
  {
    DeadRangesApart(t, live, ranges);
    LastRangeDecides(ranges, p);
    hide RangesApart, RangesAscend, LastRangeHolds, RecordsApart;
    if i :| 0 <= i < |ranges| && ranges[i].0 <= p < ranges[i].1 {
      assert ranges[i] in RangeSet(ranges);
      FindIsMembership(t, p, ranges[i].0);
    }
    if Find(t, p).Some? && Find(t, p).value !in live {
      var b := Find(t, p).value;
      var r := (b, b + t[b].size);
      assert r in RangeSet(ranges);
      var i :| 0 <= i < |ranges| && ranges[i] == r;
    }
  }

  lemma DeadRangesApart(t: Table, live: set<nat>, ranges: seq<(nat, nat)>)
    requires RecordsApart(t) && RangesAscend(ranges) && RangeSet(ranges) == DeadRanges(t, live)
    ensures RangesApart(ranges)
  {
    forall i, j | 0 <= i < j < |ranges| ensures ranges[i].1 <= ranges[j].0 {
      assert ranges[i] in RangeSet(ranges) && ranges[j] in RangeSet(ranges);
    }
  }

  // ---- conservation -------------------------------------------------------------------

  function Width(r: (nat, nat)): int { r.1 as int - r.0 as int }

  function RangeBytes(ranges: seq<(nat, nat)>): int {
    if ranges == [] then 0
    else RangeBytes(ranges[..|ranges| - 1]) + Width(ranges[|ranges| - 1])
  }

  /** Records and bytes are conserved when dead records turn into ranges. */
  lemma {:induction false} DeadConserved(t: Table, live: set<nat>, ranges: seq<(nat, nat)>)
    requires RangesAscend(ranges) && RangeSet(ranges) == DeadRanges(t, live)
    ensures |LiveRecords(t, live)| + |ranges| == |t|
    ensures SumSizes(LiveRecords(t, live)) + RangeBytes(ranges) == SumSizes(t)
    decreases |ranges|
  {
    hide SumSizes;
    if ranges == [] {
      assert forall b :: b in t && b !in live ==> (b, b + t[b].size) in DeadRanges(t, live);
      assert LiveRecords(t, live) == t;
    } else {
      var front, r := ranges[..|ranges| - 1], ranges[|ranges| - 1];
      assert r in RangeSet(ranges);
      var b := r.0;
      FrontRanges(t, live, ranges);
      DeadConserved(t - {b}, live, front);
      SumPick(t, b);
      assert LiveRecords(t - {b}, live) == LiveRecords(t, live);
      assert (t - {b}).Keys == t.Keys - {b};
    }
  }

  lemma FrontRanges(t: Table, live: set<nat>, ranges: seq<(nat, nat)>)
    requires ranges != [] && RangesAscend(ranges) && RangeSet(ranges) == DeadRanges(t, live)
    ensures var front, b := ranges[..|ranges| - 1], ranges[|ranges| - 1].0;
            RangesAscend(front) && RangeSet(front) == DeadRanges(t - {b}, live)
  {
    var front, last := ranges[..|ranges| - 1], ranges[|ranges| - 1];
    assert last in RangeSet(ranges);
    forall r | r in RangeSet(front) ensures r in DeadRanges(t - {last.0}, live) {
      assert r in RangeSet(ranges);
      var i :| 0 <= i < |front| && front[i] == r;
      assert ranges[i].0 < last.0;
    }
    forall r | r in DeadRanges(t - {last.0}, live) ensures r in RangeSet(front) {
      assert r in DeadRanges(t, live);
      var i :| 0 <= i < |ranges| && ranges[i] == r;
      assert front[i] == r;
    }
  }

  lemma SurvivorsConserved(v: View, live: set<nat>)
    requires live <= v.index.Keys
    ensures |Survivors(v, live)| == |LiveRecords(v.index, live)|
    ensures SumSizes(Survivors(v, live)) == SumSizes(LiveRecords(v.index, live))
  {
    hide SumSizes, Rank;
    var s, l := Survivors(v, live), LiveRecords(v.index, live);
    assert s.Keys == l.Keys == live;
    SumCovers(s, l);
    SumCovers(l, s);
  }

  /** A traced reset is an exact partition.  Every pointer into a recorded allocation is afterwards
      either found in the same allocation, size and serial unchanged, or reported as reclaimed,
      never both and never anything else; and records and bytes add up. */
  lemma ResetPartitions(v: View, read: Memory, ranges: seq<(nat, nat)>, p: nat)
    requires Invariant(v) && v.tracing
    requires RangesAscend(ranges) && RangeSet(ranges) == ResetCore(v, read).reclaimed
    ensures var w := ResetCore(v, read);
            && (Find(v.index, p).Some? <==> Find(w.index, p).Some? || LastRangeHolds(ranges, p))
            && !(Find(w.index, p).Some? && LastRangeHolds(ranges, p))
            && (Find(w.index, p).Some? ==>
                  && Find(w.index, p) == Find(v.index, p)
                  && var b := Find(v.index, p).value;
                     Holds(w, b, v.index[b].size, v.index[b].serial))
            && |w.index| + |ranges| == |v.index|
            && SumSizes(w.index) + RangeBytes(ranges) == SumSizes(v.index)
  {
    var live := Live(v, read);
    CoreParts(v, read);
    hide SumSizes, RangesAscend, RangeSet, LastRangeHolds, Live, ResetCore, Find, Survivors, DeadRanges, LiveRecords,
         RecordsApart;
    ReclaimedExactly(v, read, ranges, p);
    DeadConserved(v.index, live, ranges);
    SurvivorsConserved(v, live);
    PointerPartition(v, live, p);
  }

  lemma CoreParts(v: View, read: Memory)
    requires v.tracing
    ensures Live(v, read) <= v.index.Keys
    ensures ResetCore(v, read).index == Survivors(v, Live(v, read))
    ensures ResetCore(v, read).reclaimed == DeadRanges(v.index, Live(v, read))
  {
  }

  lemma PointerPartition(v: View, live: set<nat>, p: nat)
    requires RecordsApart(v.index) && live <= v.index.Keys
    ensures var s := Survivors(v, live);
            && (Find(s, p).Some? <==> Find(v.index, p).Some? && Find(v.index, p).value in live)
            && (Find(s, p).Some? ==>
                  && Find(s, p) == Find(v.index, p)
                  && s[Find(s, p).value].size == v.index[Find(s, p).value].size
                  && s[Find(s, p).value].serial == v.index[Find(s, p).value].serial)
  {
    hide Rank, Generations;
    var s := Survivors(v, live);
    assert RecordsApart(s);
    if Find(s, p).Some? {
      FindIsMembership(s, p, Find(s, p).value);
      FindIsMembership(v.index, p, Find(s, p).value);
    }
    if Find(v.index, p).Some? {
      FindIsMembership(v.index, p, Find(v.index, p).value);
      FindIsMembership(s, p, Find(v.index, p).value);
    }
  }

  /** Hooks can allocate, pin, edit edges and call reset again: the classification they ask
      about stays that of the reset they run in. */
  lemma HooksKeepClassification(v: View, read: Memory, scripts: Scripts)
    requires !v.active
    ensures ResetStep(v, read, scripts).reclaimed == ResetCore(v, read).reclaimed
    ensures AfterMetadata(v, read, scripts).reclaimed == ResetCore(v, read).reclaimed
    ensures !ResetStep(v, read, scripts).active
  {
    var w := ResetCore(v, read).(active := true);
    CallsKeepClassification(w, MetadataList(w.metadataHooks), scripts);
    var m := AfterMetadata(v, read, scripts);
    CallsKeepClassification(m, ReleaseList(m.hooks), scripts);
  }

  /** A hook operation never touches the classification or the re-entrancy flag, and only ever
      adds hooks that are not registered yet. */
  lemma HookFields(v: View, op: HookOp)
    ensures HookStep(v, op).reclaimed == v.reclaimed && HookStep(v, op).active == v.active
    ensures HookStep(v, op).hooks ==
            if op.Perform? && op.op.RegisterHook? then AddHook(v.hooks, op.op.hook) else v.hooks
  {
    BaseFields(v, if op.Perform? then op.op else EnableTracing);
    BaseHooks(v, if op.Perform? then op.op else EnableTracing);
    hide BaseStep, AddHook;
  }

  lemma BaseFields(v: View, op: BaseOp)
    ensures BaseStep(v, op).reclaimed == v.reclaimed && BaseStep(v, op).active == v.active
  {
  }

  lemma BaseHooks(v: View, op: BaseOp)
    ensures BaseStep(v, op).hooks == if op.RegisterHook? then AddHook(v.hooks, op.hook) else v.hooks
  {
  }

  lemma {:induction false} ScriptKeepsClassification(v: View, ops: seq<HookOp>)
    ensures RunScript(v, ops).reclaimed == v.reclaimed && RunScript(v, ops).active == v.active
    ensures v.hooks <= RunScript(v, ops).hooks
  {
    hide HookStep;
    if ops != [] {
      ScriptKeepsClassification(v, ops[..|ops| - 1]);
      HookFields(RunScript(v, ops[..|ops| - 1]), ops[|ops| - 1]);
    }
  }

  lemma {:induction false} CallsKeepClassification(v: View, calls: seq<Call>, scripts: Scripts)
    ensures RunCalls(v, calls, scripts).reclaimed == v.reclaimed && RunCalls(v, calls, scripts).active == v.active
    ensures v.hooks <= RunCalls(v, calls, scripts).hooks
  {
    if calls != [] {
      var front := calls[..|calls| - 1];
      CallsKeepClassification(v, front, scripts);
      ScriptKeepsClassification(RunCalls(v, front, scripts), scripts(calls[|calls| - 1]));
    }
  }

  lemma {:induction false} ScriptKeepsHooksDistinct(v: View, ops: seq<HookOp>)
    requires Distinct(v.hooks)
    ensures Distinct(RunScript(v, ops).hooks)
  {
    hide HookStep;
    if ops != [] {
      ScriptKeepsHooksDistinct(v, ops[..|ops| - 1]);
      HookFields(RunScript(v, ops[..|ops| - 1]), ops[|ops| - 1]);
    }
  }

  lemma {:induction false} CallsKeepHooksDistinct(v: View, calls: seq<Call>, scripts: Scripts)
    requires Distinct(v.hooks)
    ensures Distinct(RunCalls(v, calls, scripts).hooks)
  {
    if calls != [] {
      CallsKeepHooksDistinct(v, calls[..|calls| - 1], scripts);
      ScriptKeepsHooksDistinct(RunCalls(v, calls[..|calls| - 1], scripts), scripts(calls[|calls| - 1]));
    }
  }

  /** Metadata hooks run first; every hook registered when its list is read runs exactly once,
      and all hooks registered before the reset are among them. */
  lemma HooksRunOnceInOrder(v: View, read: Memory, scripts: Scripts)
    requires !v.active && Distinct(v.hooks) && Distinct(v.metadataHooks)
    ensures var events := ResetEvents(v, read, scripts);
            && Distinct(events)
            && (forall h :: h in v.metadataHooks <==> MetadataCall(h) in events)
            && (forall h :: h in v.hooks ==> ReleaseCall(h) in events)
            && (forall i, j :: 0 <= i < j < |events| && events[j].MetadataCall? ==> events[i].MetadataCall?)
  {
    var w := ResetCore(v, read).(active := true);
    CoreKeepsHooks(v, read);
    CallsKeepClassification(w, MetadataList(w.metadataHooks), scripts);
    CallsKeepHooksDistinct(w, MetadataList(w.metadataHooks), scripts);
    var late := AfterMetadata(v, read, scripts).hooks;
    var a, b := MetadataList(v.metadataHooks), ReleaseList(late);
    assert ResetEvents(v, read, scripts) == a + b;
    forall h | h in v.metadataHooks ensures MetadataCall(h) in a {
      var i :| 0 <= i < |v.metadataHooks| && v.metadataHooks[i] == h;
      assert a[i] == MetadataCall(h);
    }
    forall h | h in v.hooks ensures ReleaseCall(h) in b {
      var i :| 0 <= i < |v.hooks| && v.hooks[i] == h;
      assert b[i] == ReleaseCall(h);
    }
  }

  // ---- generations --------------------------------------------------------------------

  ghost predicate HasRecord(t: Table, generation: nat) {
    exists b :: b in t && t[b].generation == generation
  }

  /** Renumbering is total on survivors, strictly increasing and onto the kept bumps; every
      retained bump holds a live allocation. */
  lemma CompactionIsExact(v: View, read: Memory)
    requires Invariant(v) && v.tracing
    ensures var w, live := ResetCore(v, read), Live(v, read);
            var keep := Generations(v, live);
            && (forall b :: b in live ==> w.index[b].generation == Rank(keep, v.index[b].generation) < |w.retained|
                                          && w.retained[w.index[b].generation] == Bumps(v)[v.index[b].generation])
            && (forall g, h :: g in keep && h in keep && g < h ==> Rank(keep, g) < Rank(keep, h))
            && (forall i :: 0 <= i < |w.retained| ==> HasRecord(w.index, i))
            && w.current == {}
  {
    var w, live := ResetCore(v, read), Live(v, read);
    var keep := Generations(v, live);
    CompactionKeeps(v, live);
    forall g, h | g in keep && h in keep && g < h ensures Rank(keep, g) < Rank(keep, h) {
      RankGrows(keep, g, h);
    }
    forall i | 0 <= i < |w.retained| ensures HasRecord(w.index, i) {
      var g := KeptFrom(Bumps(v), keep, |Bumps(v)|, i);
      var b :| b in live && v.index[b].generation == g;
      assert b in w.index;
    }
  }
}
