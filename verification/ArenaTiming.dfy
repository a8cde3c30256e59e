/**
 What flush timing can and cannot change.  Along every run the ordered table and the pending
 list together hold exactly the records of the view, so no operation's answer depends on when
 records settle.  The one place where it shows is the threshold for the next automatic reset,
 which sums the ordered table alone; here is exactly when.
 */
module ArenaTiming {
  import opened Wrappers
  import opened Ordering
  import opened Closure
  import opened ArenaModel
  import opened ArenaIndex
  import opened ArenaSettling
  import opened ArenaHeap
  import opened ArenaInvariant
  import opened ArenaRuns

  // ---- sums of recorded sizes ---------------------------------------------------------

  lemma {:induction false} SumPick(t: Table, b: nat)
    requires b in t
    ensures SumSizes(t) == t[b].size + SumSizes(t - {b})
    decreases |t|
  {
    var m := Least(t.Keys);
    if m != b {
      SumPick(t - {m}, b);
      SumPick(t - {b}, m);
      assert (t - {m}) - {b} == (t - {b}) - {m};
    }
  }

  lemma SumPut(t: Table, b: nat, r: AllocRecord)
    requires b !in t
    ensures SumSizes(t[b := r]) == SumSizes(t) + r.size
  {
    SumPick(t[b := r], b);
    assert t[b := r] - {b} == t;
  }

  /** `s` is part of `t`, sizes included. */
  ghost predicate Covers(s: Table, t: Table) {
    forall b :: b in s ==> b in t && t[b].size == s[b].size
  }

  lemma {:induction false} SumCovers(s: Table, t: Table)
    requires Covers(s, t)
    ensures SumSizes(s) <= SumSizes(t)
    decreases |s|
  {
    if |s| > 0 {
      assert s.Keys != {};
      var b := Least(s.Keys);
      SumPick(s, b);
      SumPick(t, b);
      SumCovers(s - {b}, t - {b});
    }
  }

  // ---- the tables along a trace -------------------------------------------------------

  ghost function MicroTables(h: Tables, v: View, m: Micro): Tables {
    match m
    case Do(op) => TablesStep(h, v, op)
    case Core(read) => CoreTables(h, v, read)
    case Activate(_) => h
  }

  ghost function TraceTables(h: Tables, v: View, ms: seq<Micro>): Tables {
    if ms == [] then h
    else MicroTables(TraceTables(h, v, ms[..|ms| - 1]), Trace(v, ms[..|ms| - 1]), ms[|ms| - 1])
  }

  lemma {:induction false} TablesAppend(h: Tables, v: View, a: seq<Micro>, b: seq<Micro>)
    ensures TraceTables(h, v, a + b) == TraceTables(TraceTables(h, v, a), Trace(v, a), b)
  {
    hide MicroTables, MicroStep;
    if b == [] {
      assert a + b == a;
    } else {
      TablesAppend(h, v, a, b[..|b| - 1]);
      TraceAppend(v, a, b[..|b| - 1]);
      assert (a + b)[..|a + b| - 1] == a + b[..|b| - 1];
    }
  }

  lemma TablesOne(h: Tables, v: View, m: Micro)
    ensures TraceTables(h, v, [m]) == MicroTables(h, v, m)
  {
    assert [m][..0] == [];
  }

  lemma {:induction false} ScriptTablesAreTrace(h: Tables, v: View, ops: seq<HookOp>)
    ensures ScriptTables(h, v, ops) == TraceTables(h, v, ScriptTrace(ops))
  {
    hide TablesStep, BaseStep;
    if ops != [] {
      var front, last := ops[..|ops| - 1], ops[|ops| - 1];
      ScriptTablesAreTrace(h, v, front);
      ScriptIsTrace(v, front);
      var tail := if last.Perform? then [Do(last.op)] else [];
      TablesAppend(h, v, ScriptTrace(front), tail);
      if last.Perform? {
        TablesOne(ScriptTables(h, v, front), RunScript(v, front), Do(last.op));
      }
    }
  }

  lemma {:induction false} CallsTablesAreTrace(h: Tables, v: View, calls: seq<Call>, scripts: Scripts)
    ensures CallsTables(h, v, calls, scripts) == TraceTables(h, v, CallsTrace(calls, scripts))
  {
    hide ScriptTables, RunScript, ScriptTrace;
    if calls != [] {
      var front, last := calls[..|calls| - 1], calls[|calls| - 1];
      CallsTablesAreTrace(h, v, front, scripts);
      CallsAreTrace(v, front, scripts);
      ScriptTablesAreTrace(CallsTables(h, v, front, scripts), RunCalls(v, front, scripts), scripts(last));
      TablesAppend(h, v, CallsTrace(front, scripts), ScriptTrace(scripts(last)));
    }
  }

  /** What the hooks of a reset do, after its core. */
  ghost function HookTrace(v: View, read: Memory, scripts: Scripts): seq<Micro> {
    [Activate(true)]
    + CallsTrace(MetadataList(v.metadataHooks), scripts)
    + CallsTrace(ReleaseList(AfterMetadata(v, read, scripts).hooks), scripts)
    + [Activate(false)]
  }

  lemma Regroup(x: Micro, y: Micro, a: seq<Micro>, b: seq<Micro>, z: seq<Micro>)
    ensures [x, y] + a + b + z == [x] + ([y] + a + b + z)
  {
  }

  lemma ResetTraceIs(v: View, read: Memory, scripts: Scripts)
    requires !v.active
    ensures ResetTrace(v, read, scripts) == [Core(read)] + HookTrace(v, read, scripts)
  {
    hide CallsTrace, AfterMetadata, MetadataList, ReleaseList;
    Regroup(Core(read), Activate(true), CallsTrace(MetadataList(v.metadataHooks), scripts),
            CallsTrace(ReleaseList(AfterMetadata(v, read, scripts).hooks), scripts), [Activate(false)]);
  }

  lemma ResetIsCoreThenHooks(v: View, read: Memory, scripts: Scripts)
    requires !v.active
    ensures ResetStep(v, read, scripts) == Trace(ResetCore(v, read), HookTrace(v, read, scripts))
  {
    hide ResetTrace, HookTrace, ResetStep, ResetCore, Trace;
    ResetIsTrace(v, read, scripts);
    ResetTraceIs(v, read, scripts);
    TraceAppend(v, [Core(read)], HookTrace(v, read, scripts));
    TraceOne(v, Core(read));
  }

  lemma ResetTablesAreTrace(h: Tables, v: View, read: Memory, scripts: Scripts)
    requires !v.active
    ensures ResetTables(h, v, read, scripts)
         == TraceTables(CoreTables(h, v, read), ResetCore(v, read), HookTrace(v, read, scripts))
  {
    hide ResetCore, CallsTables, RunCalls, CallsTrace, MicroTables, MicroStep, CoreTables;
    var core, k := ResetCore(v, read), CoreTables(h, v, read);
    var w, m := core.(active := true), AfterMetadata(v, read, scripts);
    CoreKeepsHooks(v, read);
    var metadata := CallsTrace(MetadataList(v.metadataHooks), scripts);
    var release := CallsTrace(ReleaseList(m.hooks), scripts);
    HooksTablesParts(k, core, metadata, release);
    CallsTablesAreTrace(k, w, MetadataList(v.metadataHooks), scripts);
    CallsAreTrace(w, MetadataList(v.metadataHooks), scripts);
    CallsTablesAreTrace(TraceTables(k, w, metadata), m, ReleaseList(m.hooks), scripts);
  }

  lemma HooksTablesParts(k: Tables, core: View, a: seq<Micro>, b: seq<Micro>)
    ensures TraceTables(k, core, [Activate(true)] + a + b + [Activate(false)])
         == TraceTables(TraceTables(k, core.(active := true), a), Trace(core.(active := true), a), b)
  {
    var on, off := [Activate(true)], [Activate(false)];
    TablesOne(k, core, Activate(true));
    TraceOne(core, Activate(true));
    TablesAppend(k, core, on, a);
    TraceAppend(core, on, a);
    TablesAppend(k, core, on + a, b);
    TablesAppend(k, core, on + a + b, off);
    TablesOne(TraceTables(k, core, on + a + b), Trace(core, on + a + b), Activate(false));
  }

  // ---- the tables always hold the records of the view ---------------------------------

  /** Pending records are of distinct bases that are not settled yet, and not empty. */
  ghost predicate Fresh(h: Tables) {
    && (forall i :: 0 <= i < |h.pending| ==> h.pending[i].base !in h.table && h.pending[i].size >= 1)
    && (forall i, j :: 0 <= i < j < |h.pending| ==> h.pending[i].base != h.pending[j].base)
  }

  ghost predicate Consistent(h: Tables, v: View) {
    Records(h, |v.retained|) == v.index && Fresh(h)
  }

  lemma {:induction false} FoldKeys(t: Table, ps: seq<Pending>, g: nat)
    ensures forall b :: b in t ==> b in Fold(t, ps, g)
    ensures forall i :: 0 <= i < |ps| ==> ps[i].base in Fold(t, ps, g)
  {
    if ps != [] {
      FoldKeys(t, ps[..|ps| - 1], g);
    }
  }

  lemma FlushedConsistent(h: Tables, v: View)
    requires Consistent(h, v)
    ensures Flushed(h, |v.retained|) == Tables(v.index, []) && Consistent(Flushed(h, |v.retained|), v)
  {
    FoldNothing(v.index, |v.retained|);
  }

  lemma AllocConsistent(h: Tables, v: View, size: nat, base: nat)
    requires Invariant(v) && Consistent(h, v) && v.tracing && size >= 1 && Fits(v, base, size)
    ensures Consistent(TablesStep(h, v, BaseOp.Alloc(size, Some(base))), AllocStep(v, size, Some(base)))
  {
    hide Extent, Invariant, Fits;
    AllocIsNew(v, base, size);
    FoldKeys(h.table, h.pending, |v.retained|);
    FoldPush(h.table, h.pending, Pending(base, Max(size, 1), NextSerial(v.nextId)), |v.retained|);
  }

  lemma AllocIsNew(v: View, base: nat, size: nat)
    requires Invariant(v) && size >= 1 && Fits(v, base, size)
    ensures base !in v.index
  {
    FreshRecordApart(v, base, size);
  }

  /** Operations other than traced allocations leave index and generations alone. */
  lemma StepKeepsIndex(v: View, op: BaseOp)
    requires !(op.Alloc? && op.answer.Some? && v.tracing)
    ensures BaseStep(v, op).index == v.index && BaseStep(v, op).retained == v.retained
  {
    IndexChange(v, op);
    StepKeepsRetained(v, op);
    hide BaseStep;
  }

  lemma StepKeepsRetained(v: View, op: BaseOp)
    ensures BaseStep(v, op).retained == v.retained
  {
    hide Extent, Identity, PutOrDrop, ReplaceChild, RemoveFirst;
  }

  lemma StepConsistent(h: Tables, v: View, op: BaseOp)
    requires Invariant(v) && Enabled(v, op) && Consistent(h, v)
    ensures Consistent(TablesStep(h, v, op), BaseStep(v, op))
  {
    hide Invariant, Extent, Fits, AllocStep, Fresh;
    if op.Alloc? && op.answer.Some? && v.tracing {
      AllocConsistent(h, v, op.size, op.answer.value);
    } else {
      FlushedConsistent(h, v);
      StepKeepsIndex(v, op);
      hide BaseStep;
    }
  }

  lemma MicroConsistent(h: Tables, v: View, m: Micro)
    requires Invariant(v) && (m.Do? ==> Enabled(v, m.op)) && Consistent(h, v)
    ensures Consistent(MicroTables(h, v, m), MicroStep(v, m))
  {
    match m
    case Do(op) => StepConsistent(h, v, op);
    case Core(read) => CoreConsistent(h, v, read);
    case Activate(_) =>
  }

  lemma CoreConsistent(h: Tables, v: View, read: Memory)
    requires Consistent(h, v)
    ensures Consistent(CoreTables(h, v, read), ResetCore(v, read))
  {
    hide TracedReset;
    if v.tracing {
      FoldNothing(ResetCore(v, read).index, |ResetCore(v, read).retained|);
    }
  }

  /** Over every trace the two tables hold exactly the view's records, however often and whenever
      they were flushed. */
  lemma {:induction false} TraceConsistent(h: Tables, v: View, ms: seq<Micro>)
    requires Invariant(v) && EnabledTrace(v, ms) && Consistent(h, v)
    ensures Consistent(TraceTables(h, v, ms), Trace(v, ms))
  {
    hide Invariant, Enabled, MicroTables, MicroStep, Consistent;
    if ms != [] {
      EnabledPrefix(v, ms);
      TraceConsistent(h, v, ms[..|ms| - 1]);
      TraceKeepsInvariant(v, ms[..|ms| - 1]);
      MicroConsistent(TraceTables(h, v, ms[..|ms| - 1]), Trace(v, ms[..|ms| - 1]), ms[|ms| - 1]);
    }
  }

  // ---- survivors stay settled through the hooks ---------------------------------------

  lemma MicroCovers(s: Table, h: Tables, v: View, m: Micro)
    requires Invariant(v) && (m.Do? ==> Enabled(v, m.op)) && !m.Core? && Consistent(h, v)
    requires Covers(s, h.table) && Covers(s, v.index)
    ensures Covers(s, MicroTables(h, v, m).table) && Covers(s, MicroStep(v, m).index)
  {
    hide Invariant, Extent, Fits, AllocStep, Fresh;
    if m.Do? {
      var op := m.op;
      FlushedConsistent(h, v);
      IndexChange(v, op);
      if op.Alloc? && op.answer.Some? && v.tracing {
        AllocIsNew(v, op.answer.value, op.size);
      }
      hide BaseStep;
    }
  }

  /** What a reset settled stays in the ordered table while hooks run. */
  lemma {:induction false} HooksCover(s: Table, h: Tables, v: View, ms: seq<Micro>)
    requires Invariant(v) && EnabledTrace(v, ms) && Consistent(h, v) && (forall i :: 0 <= i < |ms| ==> !ms[i].Core?)
    requires Covers(s, h.table) && Covers(s, v.index)
    ensures Covers(s, TraceTables(h, v, ms).table) && Covers(s, Trace(v, ms).index)
  {
    hide Invariant, Enabled, MicroTables, MicroStep, Consistent, Covers;
    if ms != [] {
      var front := ms[..|ms| - 1];
      EnabledPrefix(v, ms);
      HooksCover(s, h, v, front);
      TraceConsistent(h, v, front);
      TraceKeepsInvariant(v, front);
      MicroCovers(s, TraceTables(h, v, front), Trace(v, front), ms[|ms| - 1]);
    }
  }

  lemma {:induction false} ScriptsHaveNoCore(ops: seq<HookOp>)
    ensures forall i :: 0 <= i < |ScriptTrace(ops)| ==> !ScriptTrace(ops)[i].Core?
  {
    if ops != [] {
      ScriptsHaveNoCore(ops[..|ops| - 1]);
    }
  }

  lemma {:induction false} CallsHaveNoCore(calls: seq<Call>, scripts: Scripts)
    ensures forall i :: 0 <= i < |CallsTrace(calls, scripts)| ==> !CallsTrace(calls, scripts)[i].Core?
  {
    if calls != [] {
      CallsHaveNoCore(calls[..|calls| - 1], scripts);
      ScriptsHaveNoCore(scripts(calls[|calls| - 1]));
    }
  }

  lemma HooksHaveNoCore(v: View, read: Memory, scripts: Scripts)
    ensures forall i :: 0 <= i < |HookTrace(v, read, scripts)| ==> !HookTrace(v, read, scripts)[i].Core?
  {
    hide CallsTrace;
    CallsHaveNoCore(MetadataList(v.metadataHooks), scripts);
    CallsHaveNoCore(ReleaseList(AfterMetadata(v, read, scripts).hooks), scripts);
  }

  /** The ordered table after a traced reset and its hooks covers what survived the reset, and
      with the pending list holds all records. */
  lemma ResetCovers(h: Tables, v: View, read: Memory, scripts: Scripts)
    requires Invariant(v) && Consistent(h, v) && v.tracing && !v.active
    requires EnabledTrace(ResetCore(v, read), HookTrace(v, read, scripts))
    ensures Covers(ResetCore(v, read).index, ResetTables(h, v, read, scripts).table)
    ensures Consistent(ResetTables(h, v, read, scripts), ResetStep(v, read, scripts))
  {
    hide ResetCore, Trace, TraceTables, EnabledTrace, Invariant, Consistent, HookTrace;
    var core, hooks := ResetCore(v, read), HookTrace(v, read, scripts);
    CoreKeeps(v, read);
    CoreConsistent(h, v, read);
    ResetIsCoreThenHooks(v, read, scripts);
    ResetTablesAreTrace(h, v, read, scripts);
    HooksHaveNoCore(v, read, scripts);
    HooksCover(core.index, CoreTables(h, v, read), core, hooks);
    TraceConsistent(CoreTables(h, v, read), core, hooks);
  }

  // ---- the threshold for the next automatic reset -------------------------------------

  function PendingBytes(ps: seq<Pending>): nat {
    if ps == [] then 0 else PendingBytes(ps[..|ps| - 1]) + ps[|ps| - 1].size
  }

  lemma {:induction false} SumFresh(t: Table, ps: seq<Pending>, g: nat)
    requires Fresh(Tables(t, ps))
    ensures SumSizes(Fold(t, ps, g)) == SumSizes(t) + PendingBytes(ps) && PendingBytes(ps) >= |ps|
    ensures forall b :: b in Fold(t, ps, g) ==> b in t || exists i :: 0 <= i < |ps| && ps[i].base == b
  {
    hide SumSizes;
    if ps != [] {
      var front, last := ps[..|ps| - 1], ps[|ps| - 1];
      assert forall i :: 0 <= i < |front| ==> front[i] == ps[i];
      SumFresh(t, front, g);
      SumPut(Fold(t, front, g), last.base, last.IntoRecord(g));
    }
  }

  /** The threshold, which sums the ordered table alone, is the one all records would give if and
      only if nothing is pending, all records together stay within half the floor, or the settled
      ones alone already saturate it. */
  lemma ThresholdsAgree(h: Tables, g: nat)
    requires Fresh(h)
    ensures Threshold(SumSizes(h.table)) == Threshold(SumSizes(Records(h, g))) <==>
            h.pending == [] || 2 * SumSizes(Records(h, g)) <= AUTO_RESET_FLOOR || 2 * SumSizes(h.table) >= U64_MAX
  {
    SumFresh(h.table, h.pending, g);
    hide SumSizes, Fold;
  }

  /** The same of every reset with hooks: flush timing shows in the threshold exactly then. */
  lemma TimingShowsExactly(h: Tables, v: View, read: Memory, scripts: Scripts)
    requires Invariant(v) && Consistent(h, v) && v.tracing && !v.active
    requires EnabledTrace(ResetCore(v, read), HookTrace(v, read, scripts))
    ensures var w, k := ResetStep(v, read, scripts), ResetTables(h, v, read, scripts);
            Threshold(SumSizes(k.table)) == Threshold(SumSizes(w.index)) <==>
            k.pending == [] || 2 * SumSizes(w.index) <= AUTO_RESET_FLOOR || 2 * SumSizes(k.table) >= U64_MAX
  {
    ResetCovers(h, v, read, scripts);
    ThresholdsAgree(ResetTables(h, v, read, scripts), |ResetStep(v, read, scripts).retained|);
  }

  // ---- a run in which it shows --------------------------------------------------------

  const HOOK: nat := 1
  const CHUNK: nat := AUTO_RESET_FLOOR
  const ROUNDS: nat := PENDING_SCAN_LIMIT + 1

  function ChunkAt(k: nat): nat { (k + 1) * CHUNK }

  function AllocChunk(k: nat): BaseOp { BaseOp.Alloc(CHUNK, Some(ChunkAt(k))) }

  function Chunks(n: nat): seq<HookOp> { seq(n, k requires 0 <= k => Perform(AllocChunk(k))) }

  /** The hook allocates one chunk more than is scanned in place, and then looks one up, or not. */
  function HookScript(look: bool): seq<HookOp> {
    Chunks(ROUNDS) + if look then [Perform(LookUp(CHUNK))] else []
  }

  function Hooked(look: bool): Scripts { c => if c == ReleaseCall(HOOK) then HookScript(look) else [] }

  /** A fresh arena that traces, has the hook, and has handed out one chunk. */
  const EMPTY := View([], {}, map[], 0, Some(0), {}, {}, map[], map[], false, map[], [], [], false, 0)
  const GROWN := BaseStep(BaseStep(BaseStep(EMPTY, EnableTracing), BaseOp.RegisterHook(HOOK)), AllocChunk(0))

  const NOTHING := Tables(map[], [])
  const GROWN_TABLES :=
    var tracing := BaseStep(EMPTY, EnableTracing);
    TablesStep(TablesStep(TablesStep(NOTHING, EMPTY, EnableTracing), tracing, BaseOp.RegisterHook(HOOK)),
               BaseStep(tracing, BaseOp.RegisterHook(HOOK)), AllocChunk(0))

  lemma GrownIs()
    ensures GROWN == EMPTY.(tracing := true, hooks := [HOOK], current := Extent(CHUNK, CHUNK), bytes := CHUNK,
                            index := map[CHUNK := AllocRecord(CHUNK, 0, 1)], nextId := 1, epoch := Some(1))
    ensures GROWN.bytes >= AUTO_RESET_FLOOR
  {
    hide Extent;
    assert {} + Extent(CHUNK, CHUNK) == Extent(CHUNK, CHUNK);
    assert ChunkAt(0) == CHUNK;
  }

  /** Nothing is rooted or pinned, so the core of the reset reclaims everything. */
  lemma GrownReset(read: Memory)
    ensures var core := ResetCore(GROWN, read);
            && core.index == map[] && core.retained == [] && core.current == {} && core.tracing && !core.active
            && core.hooks == [HOOK] && core.metadataHooks == []
  {
    GrownIs();
    hide Extent;
    var g := GraphOf(GROWN, read);
    assert g.start == {};
    assert Closed(g, iset{});
    assert forall n :: !Reached(g, n);
    assert Live(GROWN, read) == {};
    assert Generations(GROWN, {}) == {};
  }

  /** After `n` chunks: they are handed out side by side, recorded as pending, and the next one
      fits. */
  lemma {:induction false} ChunksRun(w: View, n: nat)
    requires w.tracing && w.index == map[] && w.retained == [] && w.current == {}
    ensures var v, h := RunScript(w, Chunks(n)), ScriptTables(Tables(map[], []), w, Chunks(n));
            && v.tracing && v.retained == [] && (forall x :: x in v.current <==> CHUNK <= x < (n + 1) * CHUNK)
            && h.table == map[] && |h.pending| == n
            && (forall k :: 0 <= k < n ==> h.pending[k].base == ChunkAt(k) && h.pending[k].size == CHUNK)
            && Enabled(v, AllocChunk(n))
  {
    hide Extent;
    if n == 0 {
      assert Chunks(0) == [];
    } else {
      assert Chunks(n)[..n - 1] == Chunks(n - 1);
      ChunksRun(w, n - 1);
    }
  }

  /** How the hook leaves the tables: without the lookup everything is pending, with it everything
      is settled. */
  lemma HookTables(w: View, look: bool)
    requires w.tracing && w.index == map[] && w.retained == [] && w.current == {}
    ensures var none := Tables(map[], []);
            var h := ScriptTables(none, w, Chunks(ROUNDS));
            && RunScript(w, HookScript(look)) == RunScript(w, Chunks(ROUNDS))
            && ScriptTables(none, w, HookScript(look)) == if look then Flushed(h, 0) else h
  {
    ChunksRun(w, ROUNDS);
    hide TablesStep, RunScript, ScriptTables;
    if look {
      LookLast(w, Tables(map[], []), Chunks(ROUNDS));
    } else {
      assert HookScript(false) == Chunks(ROUNDS);
    }
  }

  lemma LookLast(w: View, h: Tables, ops: seq<HookOp>)
    ensures RunScript(w, ops + [Perform(LookUp(CHUNK))]) == RunScript(w, ops)
    ensures ScriptTables(h, w, ops + [Perform(LookUp(CHUNK))])
         == Consulted(ScriptTables(h, w, ops), |RunScript(w, ops).retained|)
  {
    hide Consulted;
    var all := ops + [Perform(LookUp(CHUNK))];
    assert all[..|all| - 1] == ops && all[|all| - 1] == Perform(LookUp(CHUNK));
  }

  /** The whole reset of the grown arena, hooks included. */
  lemma GrownHooks(h: Tables, read: Memory, look: bool)
    ensures var w := ResetCore(GROWN, read).(active := true);
            && ResetStep(GROWN, read, Hooked(look)) == RunScript(w, HookScript(look)).(active := false)
            && ResetTables(h, GROWN, read, Hooked(look)) == ScriptTables(Tables(map[], []), w, HookScript(look))
  {
    GrownIs();
    GrownReset(read);
    hide ResetCore, RunScript, ScriptTables, HookScript;
    var w, scripts := ResetCore(GROWN, read).(active := true), Hooked(look);
    assert MetadataList([]) == [] && ReleaseList([HOOK]) == [ReleaseCall(HOOK)];
    assert AfterMetadata(GROWN, read, scripts) == w;
    assert [ReleaseCall(HOOK)][..0] == [];
  }

  /** Two runs of an arena that respect the allocator and differ in one lookup: they end with the
      same value and with different thresholds. */
  lemma LookupMovesThreshold(h: Tables, read: Memory)
    ensures ResetStep(GROWN, read, Hooked(true)) == ResetStep(GROWN, read, Hooked(false))
    ensures Threshold(SumSizes(ResetTables(h, GROWN, read, Hooked(false)).table)) == AUTO_RESET_FLOOR
    ensures Threshold(SumSizes(ResetTables(h, GROWN, read, Hooked(true)).table)) > AUTO_RESET_FLOOR
    ensures forall n :: 0 <= n < ROUNDS ==>
              Enabled(RunScript(ResetCore(GROWN, read).(active := true), Chunks(n)), AllocChunk(n))
  {
    GrownReset(read);
    GrownHooks(h, read, true);
    GrownHooks(h, read, false);
    var w := ResetCore(GROWN, read).(active := true);
    hide ResetCore, RunScript, ScriptTables, HookScript, ResetStep, ResetTables, SumSizes, Extent, Fits, Fresh;
    HookTables(w, true);
    HookTables(w, false);
    ChunksRun(w, ROUNDS);
    var k := ScriptTables(Tables(map[], []), w, Chunks(ROUNDS));
    ChunksFresh(k);
    SumFresh(k.table, k.pending, 0);
    SumNothing();
    forall n | 0 <= n < ROUNDS ensures Enabled(RunScript(w, Chunks(n)), AllocChunk(n)) {
      ChunksRun(w, n);
    }
  }

  lemma SumNothing()
    ensures SumSizes(map[]) == 0
  {
  }

  lemma ChunksFresh(h: Tables)
    requires h.table == map[] && |h.pending| == ROUNDS
    requires forall k :: 0 <= k < ROUNDS ==> h.pending[k].base == ChunkAt(k) && h.pending[k].size == CHUNK
    ensures Fresh(h) && PendingBytes(h.pending) >= CHUNK
  {
    assert h.pending[ROUNDS - 1].size == CHUNK;
  }

  /** The same on real arenas, driven through the two runs. */
  method FlushTimingShows(read: Memory) returns (a: Arena, b: Arena)
    ensures a.Valid() && a.Value() == ResetStep(GROWN, read, Hooked(true))
    ensures b.Valid() && b.Value() == ResetStep(GROWN, read, Hooked(false))
    ensures a.Value() == b.Value() && a.nextAutoReset > b.nextAutoReset == AUTO_RESET_FLOOR
  {
    hide ResetStep, ResetTables, Hooked, SumSizes, Threshold;
    a := GrownArena();
    b := GrownArena();
    LookupMovesThreshold(a.Index(), read);
    GrownFires();
    var firedA, _ := a.ResetIfGrown(read, Hooked(true));
    var firedB, _ := b.ResetIfGrown(read, Hooked(false));
  }

  lemma GrownFires()
    ensures GROWN.tracing && GROWN.bytes >= AUTO_RESET_FLOOR
  {
    GrownIs();
  }

  method GrownArena() returns (a: Arena)
    ensures fresh(a) && a.Valid() && a.Value() == GROWN && a.nextAutoReset == AUTO_RESET_FLOOR
    ensures a.Index() == GROWN_TABLES
  {
    hide BaseStep, TablesStep;
    a := new Arena();
    a.Perform(EnableTracing);
    a.Perform(BaseOp.RegisterHook(HOOK));
    a.Perform(AllocChunk(0));
  }
}
