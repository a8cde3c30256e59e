/**
 The arena itself: the thread-local tables as fields, updated in place.  Every operation is
 proved against the function on views that specifies it, and against the function that says
 when pending allocations settle into the ordered table.
 */
module ArenaHeap {
  import opened Wrappers
  import opened Ordering
  import opened ArenaModel
  import opened ArenaIndex
  import opened ArenaMarking
  import opened ArenaSweep
  import opened ArenaSettling

  datatype SnapshotError = IdentityUnavailable

  /** Total recorded bytes of a table. */
  function SumSizes(t: Table): nat
    decreases |t|
  {
    if |t| == 0 then 0
    else
      assert t.Keys != {};
      var b := Least(t.Keys);
      t[b].size + SumSizes(t - {b})
  }

  /** The volume after which an automatic reset acts again. */
  function Threshold(surviving: nat): nat {
    Max(AUTO_RESET_FLOOR, SaturatingDouble(surviving))
  }

  /** Recorded generations are in range. */
  ghost predicate TableValid(table: Table, generation: nat) {
    forall b :: b in table ==> table[b].generation <= generation
  }

  class Arena {
    var retained: seq<set<nat>>
    var current: set<nat>
    var allocations: Table
    var pending: seq<Pending>
    var nextId: nat
    var epoch: Option<nat>
    var roots: seq<nat>
    var reclaimed: seq<(nat, nat)>
    var references: map<nat, seq<nat>>
    var edges: map<EdgeKey, seq<nat>>
    var tracing: bool
    var pinned: map<nat, nat>
    var hooks: seq<nat>
    var metadataHooks: seq<nat>
    var active: bool
    var bytes: nat
    var nextAutoReset: nat

    ghost function Value(): View
      reads this
    {
      View(retained, current, Fold(allocations, pending, |retained|), nextId, epoch,
           Elements(roots), RangeSet(reclaimed), references, edges, tracing, pinned,
           hooks, metadataHooks, active, bytes)
    }

    ghost predicate Valid()
      reads this
    {
      && Distinct(roots) && Distinct(hooks) && Distinct(metadataHooks)
      && RangesAscend(reclaimed)
      && TableValid(allocations, |retained|)
    }

    /** The two tables behind the index. */
    function Index(): Tables
      reads this
    {
      Tables(allocations, pending)
    }

    constructor ()
      ensures Valid()
      ensures Value() == View([], {}, map[], 0, Some(0), {}, {}, map[], map[], false, map[], [], [], false, 0)
      ensures nextAutoReset == AUTO_RESET_FLOOR && Index() == Tables(map[], [])
    {
      assert TableValid(map[], 0) && Elements([]) == {} && RangeSet([]) == {};
      hide TableValid, Elements, RangeSet;
      retained, current, allocations, pending := [], {}, map[], [];
      nextId, epoch, roots, reclaimed := 0, Some(0), [], [];
      references, edges, tracing, pinned := map[], map[], false, map[];
      hooks, metadataHooks, active, bytes, nextAutoReset := [], [], false, 0, AUTO_RESET_FLOOR;
    }

    method Alloc(size: nat, answer: Option<nat>) returns (p: Option<nat>)
      requires Valid()
      modifies this
      ensures Valid() && Value() == AllocStep(old(Value()), size, answer) && p == answer
      ensures Index() == TablesStep(old(Index()), old(Value()), BaseOp.Alloc(size, answer))
      ensures nextAutoReset == old(nextAutoReset)
    {
      p := answer;
      if answer.Some? {
        current := current + Extent(answer.value, size);
        bytes := SaturatingAdd(bytes, size);
        if tracing {
          RecordAllocation(answer.value, size);
        }
      }
    }

    /** A traced allocation is appended in constant time; serial 0 marks an exhausted counter. */
    method RecordAllocation(base: nat, size: nat)
      requires Valid()
      modifies `pending, `nextId, `epoch
      ensures Valid() && pending == old(pending) + [Pending(base, Max(size, 1), NextSerial(old(nextId)))]
      ensures Value() == old(Value()).(
                index := old(Value().index)[base := AllocRecord(Max(size, 1), |retained|, NextSerial(old(nextId)))],
                nextId := if old(nextId) < U64_MAX then old(nextId) + 1 else old(nextId),
                epoch := BumpEpoch(old(epoch)))
    {
      hide TableValid, RangesAscend, Distinct, Elements, RangeSet, Fold;
      var record := Pending(base, Max(size, 1), NextSerial(nextId));
      if nextId < U64_MAX {
        nextId := nextId + 1;
      }
      FoldPush(allocations, pending, record, |retained|);
      pending := pending + [record];
      epoch := BumpEpoch(epoch);
    }

    /** Moves every pending allocation into the ordered table. */
    method FlushPending()
      requires Valid()
      modifies `allocations, `pending
      ensures Valid() && Value() == old(Value()) && Index() == Flushed(old(Index()), |retained|)
    {
      hide TableValid, RangesAscend, Distinct, Elements, RangeSet, Fold;
      TableFlushed(allocations, pending, |retained|);
      FoldNothing(allocations, |retained|);
      var i := 0;
      while i < |pending|
        invariant i <= |pending| && pending == old(pending)
        invariant allocations == Fold(old(allocations), pending[..i], |retained|)
      {
        FoldNext(old(allocations), pending, i, |retained|);
        allocations := allocations[pending[i].base := pending[i].IntoRecord(|retained|)];
        i := i + 1;
      }
      assert pending[..i] == pending;
      pending := [];
    }

    /** The tracked allocation containing `pointer`. */
    method Locate(pointer: nat) returns (r: Option<(nat, AllocRecord)>)
      requires Valid()
      modifies `allocations, `pending
      ensures Valid() && Value() == old(Value()) && Index() == Consulted(old(Index()), |retained|)
      ensures r == match Find(Value().index, pointer)
                   case None => None
                   case Some(b) => Some((b, Value().index[b]))
    {
      if |pending| > PENDING_SCAN_LIMIT {
        FlushPending();
      }
      r := Choose(Scan(pending, pointer), allocations, |retained|, pointer);
      ScanAnswers(allocations, pending, |retained|, pointer);
      FoundIsFind(Value().index, r, pointer);
      if !InExtent(r, pointer) {
        r := None;
      }
    }

    method ContainsAllocation(pointer: nat) returns (r: bool)
      requires Valid()
      modifies `allocations, `pending
      ensures Valid() && Value() == old(Value())
      ensures Index() == if pointer == 0 || !tracing then old(Index()) else Consulted(old(Index()), |retained|)
      ensures r <==> pointer != 0 && tracing && Find(Value().index, pointer).Some?
    {
      if pointer == 0 || !tracing {
        return false;
      }
      var found := Locate(pointer);
      return found.Some?;
    }

    method AllocationIdentity(pointer: nat) returns (r: Option<AllocationId>)
      requires Valid()
      modifies `allocations, `pending
      ensures Valid() && Value() == old(Value()) && r == Identity(Value(), pointer)
      ensures Index() == if pointer == 0 || !tracing then old(Index()) else Consulted(old(Index()), |retained|)
    {
      if pointer == 0 || !tracing {
        return None;
      }
      var found := Locate(pointer);
      if found.None? || found.value.1.serial == 0 {
        return None;
      }
      return Some(AllocationId(found.value.0, found.value.1.serial));
    }

    /** Whether the last reset reclaimed the allocation containing `pointer`. */
    method WasReclaimed(pointer: nat) returns (r: bool)
      requires Valid()
      ensures r <==> LastRangeHolds(reclaimed, pointer)
      ensures RangesApart(reclaimed) ==> (r <==> exists x :: x in Value().reclaimed && x.0 <= pointer < x.1)
    {
      r := LastRangeHolds(reclaimed, pointer);
      if RangesApart(reclaimed) {
        LastRangeDecides(reclaimed, pointer);
        assert (exists x :: x in Value().reclaimed && x.0 <= pointer < x.1) <==>
               exists i :: 0 <= i < |reclaimed| && reclaimed[i].0 <= pointer < reclaimed[i].1;
      }
    }

    method Pin(pointer: nat)
      requires Valid()
      modifies `pinned
      ensures Valid() && Value() == PinStep(old(Value()), pointer)
    {
      if tracing && pointer != 0 {
        pinned := pinned[pointer := (if pointer in pinned then pinned[pointer] else 0) + 1];
      }
    }

    method Unpin(pointer: nat)
      requires Valid()
      modifies `pinned
      ensures Valid() && Value() == UnpinStep(old(Value()), pointer)
    {
      if pointer in pinned {
        if pinned[pointer] <= 1 {
          pinned := pinned - {pointer};
        } else {
          pinned := pinned[pointer := pinned[pointer] - 1];
        }
      }
    }

    method ReplaceReference(owner: nat, previous: nat, next: nat)
      requires Valid()
      modifies `references
      ensures Valid() && Value() == ReplaceReferenceStep(old(Value()), owner, previous, next)
    {
      if !tracing {
        return;
      }
      var children := Get(references, owner);
      var index := Position(children, previous);
      if index.Some? {
        children := children[..index.value] + children[index.value + 1..];
      }
      if next != 0 {
        children := children + [next];
      }
      assert children == ReplaceChild(Get(references, owner), previous, next);
      references := references[owner := children];
    }

    method ForgetReferences(owner: nat)
      requires Valid()
      modifies `references
      ensures Valid() && Value() == old(Value()).(references := old(references) - {owner})
    {
      references := references - {owner};
    }

    /** Replaces one side edge owned by an exact live incarnation; refuses any other identity. */
    method ReplaceAllocationReference(id: AllocationId, owner: nat, previous: nat, next: nat) returns (ok: bool)
      requires Valid()
      modifies `allocations, `pending, `edges
      ensures Valid() && Value() == ReplaceEdgeStep(old(Value()), id, owner, previous, next)
      ensures Index() == TablesStep(old(Index()), old(Value()), BaseOp.ReplaceEdge(id, owner, previous, next))
      ensures ok <==> Identity(old(Value()), owner) == Some(id)
    {
      hide Fold, Identity;
      var found := AllocationIdentity(owner);
      if found != Some(id) {
        return false;
      }
      var children := Get(edges, (id, owner));
      var index := Position(children, previous);
      if index.Some? {
        children := children[..index.value] + children[index.value + 1..];
      }
      if next != 0 {
        children := children + [next];
      }
      assert children == ReplaceChild(Get(edges, (id, owner)), previous, next);
      edges := PutOrDrop(edges, (id, owner), children);
      return true;
    }

    method RemoveAllocationReference(id: AllocationId, owner: nat, child: nat)
      requires Valid()
      modifies `edges
      ensures Valid() && Value() == RemoveEdgeStep(old(Value()), id, owner, child)
    {
      if (id, owner) in edges {
        edges := PutOrDrop(edges, (id, owner), RemoveFirst(edges[(id, owner)], child));
      }
    }

    method RegisterRoot(slot: nat)
      requires Valid()
      modifies `roots, `tracing
      ensures Valid() && Value() == BaseStep(old(Value()), BaseOp.RegisterRoot(slot))
    {
      ElementsPush(roots, slot);
      hide TableValid, RangesAscend, Elements, RangeSet, Fold;
      tracing := true;
      if slot !in roots {
        roots := roots + [slot];
      }
    }

    method UnregisterRoot(slot: nat) returns (removed: bool)
      requires Valid()
      modifies `roots, `references
      ensures Valid() && Value() == BaseStep(old(Value()), BaseOp.UnregisterRoot(slot))
      ensures removed <==> slot in old(roots)
    {
      var index := Position(roots, slot);
      if index.None? {
        return false;
      }
      SwapRemoveKeeps(roots, index.value);
      roots := SwapRemove(roots, index.value);
      ForgetReferences(slot);
      return true;
    }

    method RegisterHook(hook: nat)
      requires Valid()
      modifies `hooks
      ensures Valid() && Value() == BaseStep(old(Value()), BaseOp.RegisterHook(hook))
    {
      if hook !in hooks {
        hooks := hooks + [hook];
      }
    }

    method RegisterMetadataHook(hook: nat)
      requires Valid()
      modifies `metadataHooks
      ensures Valid() && Value() == BaseStep(old(Value()), BaseOp.RegisterMetadataHook(hook))
    {
      if hook !in metadataHooks {
        metadataHooks := metadataHooks + [hook];
      }
    }

    method Perform(op: BaseOp)
      requires Valid()
      modifies this
      ensures Valid() && Value() == BaseStep(old(Value()), op)
      ensures Index() == TablesStep(old(Index()), old(Value()), op) && nextAutoReset == old(nextAutoReset)
    {
      hide TableValid, RangesAscend, Distinct, Elements, RangeSet, Fold, AllocStep, PinStep, UnpinStep,
           ReplaceReferenceStep, ReplaceEdgeStep, RemoveEdgeStep, AddHook;
      match op
      case Alloc(size, answer) => var _ := Alloc(size, answer);
      case LookUp(p) => var _ := Locate(p);
      case TakeSnapshot => var _ := SnapshotNativeGraph(p => 0);
      case Pin(p) => Pin(p);
      case Unpin(p) => Unpin(p);
      case ReplaceReference(_, _, _) => PerformEdge(op);
      case ForgetReferences(_) => PerformEdge(op);
      case ReplaceEdge(_, _, _, _) => PerformEdge(op);
      case RemoveEdge(_, _, _) => PerformEdge(op);
      case RegisterRoot(s) => RegisterRoot(s);
      case UnregisterRoot(s) => var _ := UnregisterRoot(s);
      case RegisterHook(h) => RegisterHook(h);
      case RegisterMetadataHook(h) => RegisterMetadataHook(h);
      case EnableTracing => tracing := true;
    }

    method PerformEdge(op: BaseOp)
      requires Valid() && (op.ReplaceReference? || op.ForgetReferences? || op.ReplaceEdge? || op.RemoveEdge?)
      modifies this
      ensures Valid() && Value() == BaseStep(old(Value()), op)
      ensures Index() == TablesStep(old(Index()), old(Value()), op) && nextAutoReset == old(nextAutoReset)
    {
      hide TableValid, RangesAscend, Distinct, Elements, RangeSet, Fold, AllocStep, PinStep, UnpinStep,
           ReplaceReferenceStep, ReplaceEdgeStep, RemoveEdgeStep, AddHook;
      match op
      case ReplaceReference(o, previous, next) => ReplaceReference(o, previous, next);
      case ForgetReferences(o) => ForgetReferences(o);
      case ReplaceEdge(id, o, previous, next) => var _ := ReplaceAllocationReference(id, o, previous, next);
      case RemoveEdge(id, o, child) => RemoveAllocationReference(id, o, child);
    }

    /** Copies tracing metadata and pointer words; fails when an identity or the epoch is gone. */
    method SnapshotNativeGraph(read: Memory) returns (r: Result<Snapshot, SnapshotError>)
      requires Valid()
      modifies `allocations, `pending
      ensures Valid() && Value() == old(Value()) && Index() == Flushed(old(Index()), |retained|)
      ensures r.Ok? <==> epoch.Some? && forall b :: b in Value().index ==> Value().index[b].serial != 0
      ensures r.Ok? ==> IsSnapshot(Value(), read, r.value)
    {
      FlushPending();
      FoldNothing(allocations, |retained|);
      assert Value().index == allocations;
      var copied := CopyAllocations(allocations, read);
      if copied.None? {
        return Err(IdentityUnavailable);
      }
      var merged := MergeEdges(references, edges, copied.value, allocations);
      var rootValues: seq<nat> := seq(|roots|, i requires 0 <= i < |roots| reads this => read(roots[i]));
      RootValuesMatch(roots, read, rootValues);
      if epoch.None? {
        return Err(IdentityUnavailable);
      }
      return Ok(Snapshot(epoch.value, copied.value, merged, rootValues, roots, pinned));
    }

    /** The traced part of a reset, up to its hooks. */
    method Sweep(read: Memory)
      requires Valid()
      modifies this
      ensures Valid() && Value() == TracedReset(old(Value()), read)
      ensures Index() == Tables(Value().index, []) && nextAutoReset == old(nextAutoReset)
    {
      hide TracedReset, Fold, Settle, StrictlyAscending, RangesAscend, Distinct, Elements, RangeSet;
      ghost var v := Value();
      FoldGenerations(allocations, pending, |retained|);
      SettledIndex(allocations, pending, |retained|);
      var keptReferences, keptEdges, survivors, ranges, kept :=
        Collect(v, read, allocations, Settle(pending), retained, current, roots, pinned, references, edges);
      InstallTable(survivors, kept);
      InstallRanges(ranges);
      InstallEdges(keptReferences, keptEdges);
    }

    /** One hook's operations; calls of reset from inside a hook are ignored. */
    method RunScript(ops: seq<HookOp>)
      requires Valid() && active
      modifies this
      decreases 0, 2
      ensures Valid() && Value() == ArenaModel.RunScript(old(Value()), ops) && active
      ensures Index() == ScriptTables(old(Index()), old(Value()), ops)
    {
      hide TableValid, RangesAscend, Distinct, Elements, RangeSet, Fold;
      for i := 0 to |ops|
        invariant Valid() && active
        invariant Value() == ArenaModel.RunScript(old(Value()), ops[..i])
        invariant Index() == ScriptTables(old(Index()), old(Value()), ops[..i])
      {
        assert ops[..i + 1][..i] == ops[..i];
        BaseKeepsActive(Value(), ops[i]);
        match ops[i]
        case Perform(op) => Perform(op);
        case ResetAgain => var _ := Reset(p => 0, c => []);
        case ResetIfGrownAgain => var _, _ := ResetIfGrown(p => 0, c => []);
      }
      assert ops[..|ops|] == ops;
    }

    /** Runs a copied hook list in order, each call once. */
    method RunHooks(calls: seq<Call>, scripts: Scripts)
      requires Valid() && active
      modifies this
      decreases 0, 3
      ensures Valid() && Value() == RunCalls(old(Value()), calls, scripts) && active
      ensures Index() == CallsTables(old(Index()), old(Value()), calls, scripts)
    {
      hide TableValid, RangesAscend, Distinct, Elements, RangeSet, Fold;
      for i := 0 to |calls|
        invariant Valid() && active
        invariant Value() == RunCalls(old(Value()), calls[..i], scripts)
        invariant Index() == CallsTables(old(Index()), old(Value()), calls[..i], scripts)
      {
        assert calls[..i + 1][..i] == calls[..i];
        RunScript(scripts(calls[i]));
      }
      assert calls[..|calls|] == calls;
    }

    /** Reclaims what registered roots do not reach; a reset inside a reset is ignored.
        `events` lists the hook calls in the order they ran. */
    method Reset(read: Memory, scripts: Scripts) returns (events: seq<Call>)
      requires Valid()
      modifies this
      decreases if active then 0 else 1, 0
      ensures Valid() && Value() == ResetStep(old(Value()), read, scripts)
      ensures events == ResetEvents(old(Value()), read, scripts)
      ensures Index() == ResetTables(old(Index()), old(Value()), read, scripts)
    {
      hide TableValid, RangesAscend, Distinct, Elements, RangeSet, Fold, TracedReset, RunCalls, CallsTables;
      if active {
        return [];
      }
      CoreKeepsHooks(Value(), read);
      if tracing {
        Sweep(read);
      } else {
        ClearBump();
      }
      active := true;
      var metadata := MetadataList(metadataHooks);
      RunHooks(metadata, scripts);
      var release := ReleaseList(hooks);
      RunHooks(release, scripts);
      active := false;
      events := metadata + release;
    }

    /** Without tracing: a bulk reset of the current bump. */
    method ClearBump()
      requires Valid()
      modifies `current, `edges, `bytes
      ensures Valid() && Value() == old(Value()).(current := {}, edges := map[], bytes := 0)
    {
      hide TableValid, RangesAscend, Distinct, Elements, RangeSet, Fold;
      current, edges, bytes := {}, map[], 0;
    }

    /** Resets once enough bytes were handed out, then sets the next threshold from the bytes the
        ordered table records. */
    method ResetIfGrown(read: Memory, scripts: Scripts) returns (fired: bool, events: seq<Call>)
      requires Valid()
      modifies this
      decreases if active then 0 else 1, 1
      ensures Valid()
      ensures fired <==> old(tracing) && old(bytes) >= old(nextAutoReset)
      ensures !fired ==> Value() == old(Value()) && Index() == old(Index()) && events == []
      ensures !fired ==> nextAutoReset == old(nextAutoReset)
      ensures fired ==> Value() == ResetStep(old(Value()), read, scripts)
      ensures fired ==> Index() == ResetTables(old(Index()), old(Value()), read, scripts)
      ensures fired ==> events == ResetEvents(old(Value()), read, scripts)
      ensures fired ==> nextAutoReset == Threshold(SumSizes(Index().table))
    {
      hide TableValid, RangesAscend, Distinct, Elements, RangeSet, Fold, ResetStep, ResetCore, ResetTables, ResetEvents;
      events := [];
      fired := tracing && bytes >= nextAutoReset;
      if fired {
        events := Reset(read, scripts);
        nextAutoReset := Threshold(SumSizes(allocations));
      }
    }

    /** Publishes the surviving records under their new generation numbers. */
    method InstallTable(survivors: Table, kept: seq<set<nat>>)
      requires Valid()
      requires forall b :: b in survivors ==> survivors[b].generation <= |kept|
      modifies `retained, `allocations, `pending
      ensures Valid() && Index() == Tables(survivors, [])
      ensures Value() == old(Value()).(retained := kept, index := survivors)
    {
      hide TableValid, RangesAscend, Distinct, Elements, RangeSet, Fold;
      TableSettled(survivors, |kept|);
      retained, allocations, pending := kept, survivors, [];
    }

    /** Publishes the dead ranges; the current bump starts over. */
    method InstallRanges(ranges: seq<(nat, nat)>)
      requires Valid() && RangesAscend(ranges)
      modifies `current, `reclaimed, `bytes
      ensures Valid() && Value() == old(Value()).(current := {}, reclaimed := RangeSet(ranges), bytes := 0)
    {
      hide TableValid, RangesAscend, Distinct, Elements, RangeSet, Fold;
      current, reclaimed, bytes := {}, ranges, 0;
    }

    method InstallEdges(keptReferences: map<nat, seq<nat>>, keptEdges: map<EdgeKey, seq<nat>>)
      requires Valid()
      modifies `references, `edges
      ensures Valid() && Value() == old(Value()).(references := keptReferences, edges := keptEdges)
    {
      hide TableValid, RangesAscend, Distinct, Elements, RangeSet, Fold;
      references, edges := keptReferences, keptEdges;
    }
  }

  lemma CoreKeepsHooks(v: View, read: Memory)
    ensures ResetCore(v, read).metadataHooks == v.metadataHooks && ResetCore(v, read).hooks == v.hooks
  {
  }

  lemma BaseKeepsActive(v: View, op: HookOp)
    ensures HookStep(v, op).active == v.active
  {
    hide AllocStep, ReplaceEdgeStep, RemoveEdgeStep, Identity;
    if op.Perform? {
      match op.op
      case Alloc(size, answer) => AllocKeepsActive(v, size, answer);
      case ReplaceEdge(id, o, prev, next) => EdgesKeepActive(v, id, o, prev, next);
      case RemoveEdge(id, o, child) => EdgesKeepActive(v, id, o, child, child);
      case _ =>
    }
  }

  lemma AllocKeepsActive(v: View, size: nat, answer: Option<nat>)
    ensures AllocStep(v, size, answer).active == v.active
  {
  }

  lemma EdgesKeepActive(v: View, id: AllocationId, owner: nat, child: nat, next: nat)
    ensures ReplaceEdgeStep(v, id, owner, child, next).active == v.active
    ensures RemoveEdgeStep(v, id, owner, child).active == v.active
  {
  }

  lemma TableSettled(t: Table, g: nat)
    requires forall b :: b in t ==> t[b].generation <= g
    ensures TableValid(t, g) && Fold(t, [], g) == t
  {
  }

  lemma FoldNext(t: Table, ps: seq<Pending>, i: nat, g: nat)
    requires i < |ps|
    ensures Fold(t, ps[..i + 1], g) == Fold(t, ps[..i], g)[ps[i].base := ps[i].IntoRecord(g)]
  {
    assert ps[..i + 1][..i] == ps[..i];
  }

  lemma TableFlushed(t: Table, pending: seq<Pending>, g: nat)
    requires TableValid(t, g)
    ensures TableValid(Fold(t, pending, g), g) && Fold(Fold(t, pending, g), [], g) == Fold(t, pending, g)
  {
    FoldGenerations(t, pending, g);
  }

  lemma ElementsPush(s: seq<nat>, x: nat)
    ensures Elements(s + [x]) == Elements(s) + {x}
    ensures x in s ==> Elements(s) == Elements(s) + {x}
  {
  }

  lemma FoldNothing(t: Table, g: nat)
    ensures Fold(t, [], g) == t
  {
  }

  /** Mark, filter, classify and renumber. */
  method Collect(ghost v: View, read: Memory, table: Table, recent: seq<Pending>, retained: seq<set<nat>>,
                 current: set<nat>, roots: seq<nat>, pinned: map<nat, nat>,
                 references: map<nat, seq<nat>>, edges: map<EdgeKey, seq<nat>>)
    returns (keptReferences: map<nat, seq<nat>>, keptEdges: map<EdgeKey, seq<nat>>,
             allocations: Table, reclaimed: seq<(nat, nat)>, kept: seq<set<nat>>)
    requires StrictlyAscending(recent) && v.index == Fold(table, recent, |retained|)
    requires v.retained == retained && v.current == current && v.roots == Elements(roots)
    requires v.pinned == pinned && v.references == references && v.edges == edges
    requires forall b :: b in v.index ==> v.index[b].generation <= |v.retained|
    ensures TracedReset(v, read) ==
            v.(retained := kept, current := {}, index := allocations, reclaimed := RangeSet(reclaimed),
               references := keptReferences, edges := keptEdges, bytes := 0)
    ensures RangesAscend(reclaimed)
    ensures forall b :: b in allocations ==> allocations[b].generation <= |kept|
  {
    hide Fold, Visited, Live;
    var live, owners := Mark(v, read, table, recent, |retained|, roots, pinned, references, edges);
    assert live <= v.index.Keys by { LiveIndexed(v, read); }
    keptReferences, keptEdges := FilterEdges(v, read, table, recent, |retained|, live, owners, references, edges);
    allocations, reclaimed, kept := Renumber(v, table, recent, live, retained, current);
  }

  lemma LiveIndexed(v: View, read: Memory)
    ensures Live(v, read) <= v.index.Keys
  {
  }

  /** Side edges of visited owners and of live incarnations survive. */
  method FilterEdges(ghost v: View, ghost read: Memory, table: Table, recent: seq<Pending>, generation: nat,
                     live: set<nat>, owners: set<nat>,
                     references: map<nat, seq<nat>>, edges: map<EdgeKey, seq<nat>>)
    returns (keptReferences: map<nat, seq<nat>>, keptEdges: map<EdgeKey, seq<nat>>)
    requires StrictlyAscending(recent) && v.index == Fold(table, recent, generation)
    requires v.references == references && v.edges == edges
    requires live == Live(v, read) && forall n :: n in owners <==> Visited(v, read, n)
    ensures keptReferences == map o | o in v.references && (o in live || Visited(v, read, o)) :: v.references[o]
    ensures keptEdges == map k | k in v.edges && EdgeSurvives(v, live, k) :: v.edges[k]
  {
    hide Fold, StrictlyAscending, EdgeKept, EdgeSurvives, Visited;
    SweepAsks(v, table, recent, generation, live);
    hide Live;
    keptReferences := map o | o in references && (o in live || o in owners) :: references[o];
    keptEdges := map k | k in edges && EdgeKept(table, recent, generation, live, k) :: edges[k];
  }

  /** Splits the records and renumbers the kept bump generations. */
  method Renumber(ghost v: View, table: Table, recent: seq<Pending>, live: set<nat>,
                  retained: seq<set<nat>>, current: set<nat>)
    returns (allocations: Table, reclaimed: seq<(nat, nat)>, kept: seq<set<nat>>)
    requires StrictlyAscending(recent) && v.index == Fold(table, recent, |v.retained|)
    requires v.retained == retained && v.current == current && live <= v.index.Keys
    requires forall b :: b in v.index ==> v.index[b].generation <= |v.retained|
    ensures allocations == Survivors(v, live)
    ensures RangesAscend(reclaimed) && RangeSet(reclaimed) == DeadRanges(v.index, live)
    ensures kept == Kept(Bumps(v), Generations(v, live), |Bumps(v)|)
    ensures forall b :: b in allocations ==> allocations[b].generation < |kept|
  {
    hide Fold;
    SweepAsks(v, table, recent, |v.retained|, live);
    var generations := LiveGenerations(table, recent, |retained|, live);
    var survivors, ranges := Merge(table, recent, |retained|, live);
    var bumps := if |retained| in generations then retained + [current] else retained;
    KeptAll(v, generations);
    var mapping;
    kept, mapping := Compact(bumps, generations);
    MappingCovers(v, live, generations, bumps, survivors, mapping);
    reclaimed := ranges;
    allocations := Renamed(survivors, mapping);
  }

  function Renamed(t: Table, mapping: map<nat, nat>): Table
    requires forall b :: b in t ==> t[b].generation in mapping
  {
    map b | b in t :: t[b].(generation := mapping[t[b].generation])
  }

  // ---- copying the graph --------------------------------------------------------------

  function CopyOf(read: Memory, b: nat, r: AllocRecord): AllocationSnapshot {
    AllocationSnapshot(AllocationId(b, r.serial), r.size, r.generation, WordsOf(read, b, r.size))
  }

  lemma CopyFields(read: Memory, b: nat, r: AllocRecord)
    ensures CopyOf(read, b, r) ==
            AllocationSnapshot(AllocationId(b, r.serial), r.size, r.generation, WordsOf(read, b, r.size))
  {
  }

  method CopyAllocations(table: Table, read: Memory) returns (copied: Option<map<nat, AllocationSnapshot>>)
    ensures copied.Some? <==> forall b :: b in table ==> table[b].serial != 0
    ensures copied.Some? ==> copied.value == map b | b in table :: CopyOf(read, b, table[b])
  {
    var keys: seq<nat> := Sorted(table.Keys);
    var m: map<nat, AllocationSnapshot> := map[];
    hide WordsOf, CopyOf, Sorted;
    for i := 0 to |keys|
      invariant forall k :: 0 <= k < i ==> keys[k] in m
      invariant forall b :: b in m ==> b in table && table[b].serial != 0 && m[b] == CopyOf(read, b, table[b])
    {
      var base: nat := keys[i];
      var record := table[base];
      if record.serial == 0 {
        return None;
      }
      var words := ReadWords(read, base, record.size);
      var copy := AllocationSnapshot(AllocationId(base, record.serial), record.size, record.generation, words);
      assert copy == CopyOf(read, base, record) by { CopyFields(read, base, record); }
      m := m[base := copy];
    }
    assert forall b :: b in table ==> b in keys;
    copied := Some(m);
  }

  ghost predicate IsIncarnation(t: Table, id: AllocationId) {
    id.base in t && t[id.base].serial == id.serial
  }

  /** The children `owner` has through edges of incarnations that are still recorded. */
  ghost function MatchedChildren(t: Table, edges: map<EdgeKey, seq<nat>>, owner: nat): set<nat> {
    set k, c | k in edges && k.1 == owner && IsIncarnation(t, k.0) && c in edges[k] :: c
  }

  method MergeEdges(references: map<nat, seq<nat>>, edges: map<EdgeKey, seq<nat>>,
                    copied: map<nat, AllocationSnapshot>, ghost t: Table) returns (merged: map<nat, seq<nat>>)
    requires forall b :: b in copied <==> b in t
    requires forall b :: b in copied ==> copied[b].id == AllocationId(b, t[b].serial)
    ensures forall o :: Children(merged, o) == Children(references, o) + MatchedChildren(t, edges, o)
  {
    merged := references;
    var keys := edges.Keys;
    ghost var done: map<EdgeKey, seq<nat>> := map[];
    while keys != {}
      invariant keys <= edges.Keys && done == edges - keys
      invariant forall o :: Children(merged, o) == Children(references, o) + MatchedChildren(t, done, o)
    {
      var k :| k in keys;
      keys := keys - {k};
      var grown := merged;
      if k.0.base in copied && copied[k.0.base].id == k.0 {
        grown := merged[k.1 := Get(merged, k.1) + edges[k]];
      }
      MergeOne(references, merged, grown, t, done, k, edges[k]);
      done := done[k := edges[k]];
      merged := grown;
    }
    assert done == edges;
  }

  lemma MergeOne(references: map<nat, seq<nat>>, merged: map<nat, seq<nat>>, grown: map<nat, seq<nat>>,
                 t: Table, done: map<EdgeKey, seq<nat>>, k: EdgeKey, children: seq<nat>)
    requires k !in done
    requires forall o :: Children(merged, o) == Children(references, o) + MatchedChildren(t, done, o)
    requires grown == if IsIncarnation(t, k.0) then merged[k.1 := Get(merged, k.1) + children] else merged
    ensures forall o :: Children(grown, o) == Children(references, o) + MatchedChildren(t, done[k := children], o)
  {
    forall o ensures Children(grown, o) == Children(references, o) + MatchedChildren(t, done[k := children], o) {
      var more := if o == k.1 && IsIncarnation(t, k.0) then Elements(children) else {};
      assert Children(grown, o) == Children(merged, o) + more;
      MatchedGrows(t, done, k, children, o);
    }
  }

  lemma MatchedGrows(t: Table, done: map<EdgeKey, seq<nat>>, k: EdgeKey, children: seq<nat>, o: nat)
    requires k !in done
    ensures MatchedChildren(t, done[k := children], o) ==
            MatchedChildren(t, done, o) + if o == k.1 && IsIncarnation(t, k.0) then Elements(children) else {}
  {
    var after := done[k := children];
    forall c | c in MatchedChildren(t, done, o) ensures c in MatchedChildren(t, after, o) {
      var j :| j in done && j.1 == o && IsIncarnation(t, j.0) && c in done[j];
      assert j in after && after[j] == done[j];
    }
    if o == k.1 && IsIncarnation(t, k.0) {
      forall c | c in Elements(children) ensures c in MatchedChildren(t, after, o) {
        assert k in after && c in after[k];
      }
    }
  }

  /** A faithful copy of the native graph. */
  ghost predicate IsSnapshot(v: View, read: Memory, s: Snapshot) {
    && v.epoch == Some(s.epoch)
    && s.allocations == (map b | b in v.index :: CopyOf(read, b, v.index[b]))
    && (forall o :: Children(s.references, o) == Children(v.references, o) + MatchedChildren(v.index, v.edges, o))
    && Elements(s.rootValues) == (set r | r in v.roots :: read(r))
    && Elements(s.rootSlots) == v.roots
    && s.pinned == v.pinned
  }

  lemma RootValuesMatch(roots: seq<nat>, read: Memory, values: seq<nat>)
    requires |values| == |roots| && forall i :: 0 <= i < |roots| ==> values[i] == read(roots[i])
    ensures Elements(values) == set r | r in Elements(roots) :: read(r)
  {
    forall r | r in roots ensures read(r) in values {
      var i :| 0 <= i < |roots| && roots[i] == r;
      assert values[i] == read(r);
    }
    forall x | x in values ensures exists r :: r in roots && read(r) == x {
      var i :| 0 <= i < |values| && values[i] == x;
      assert roots[i] in roots;
    }
  }

  lemma SettledIndex(t: Table, ps: seq<Pending>, g: nat)
    ensures StrictlyAscending(Settle(ps)) && Fold(t, Settle(ps), g) == Fold(t, ps, g)
  {
    SettleKeeps(ps);
    FoldIsOverlay(t, ps, g);
    FoldIsOverlay(t, Settle(ps), g);
  }

  lemma {:induction false} FoldGenerations(t: Table, ps: seq<Pending>, g: nat)
    requires forall b :: b in t ==> t[b].generation <= g
    ensures forall b :: b in Fold(t, ps, g) ==> Fold(t, ps, g)[b].generation <= g
  {
    if ps != [] {
      FoldGenerations(t, ps[..|ps| - 1], g);
    }
  }

  /** Every survivor's generation is kept, so it has a new number below the number of bumps. */
  lemma MappingCovers(v: View, live: set<nat>, keep: set<nat>, bumps: seq<set<nat>>, survivors: Table,
                      mapping: map<nat, nat>)
    requires live <= v.index.Keys && keep == Generations(v, live)
    requires survivors == LiveRecords(v.index, live)
    requires forall b :: b in v.index ==> v.index[b].generation <= |v.retained|
    requires bumps == if |v.retained| in keep then v.retained + [v.current] else v.retained
    requires forall g :: g in mapping <==> g in keep && g < |bumps|
    requires forall g :: g in mapping ==> mapping[g] == Rank(keep, g)
    ensures forall b :: b in survivors ==> survivors[b].generation in mapping
    ensures forall b :: b in survivors ==> mapping[survivors[b].generation] < Rank(keep, |bumps|)
    ensures Renamed(survivors, mapping) == Survivors(v, live)
  {
    forall b | b in survivors ensures survivors[b].generation in keep && survivors[b].generation < |bumps| {
      assert b in live;
    }
    forall b | b in survivors ensures mapping[survivors[b].generation] < Rank(keep, |bumps|) {
      RankGrows(keep, survivors[b].generation, |bumps|);
    }
  }

  lemma FoldPush(t: Table, ps: seq<Pending>, r: Pending, g: nat)
    ensures Fold(t, ps + [r], g) == Fold(t, ps, g)[r.base := r.IntoRecord(g)]
  {
    assert (ps + [r])[..|ps|] == ps;
  }

  function SwapRemove(s: seq<nat>, i: nat): seq<nat>
    requires i < |s|
  {
    s[i := s[|s| - 1]][..|s| - 1]
  }

  lemma SwapRemoveKeeps(s: seq<nat>, i: nat)
    requires Distinct(s) && i < |s|
    ensures Distinct(SwapRemove(s, i))
    ensures (set x | x in SwapRemove(s, i)) == (set x | x in s) - {s[i]}
  {
    var r := SwapRemove(s, i);
    forall x | x in s && x != s[i] ensures x in r {
      var k :| 0 <= k < |s| && s[k] == x;
      assert if k == |s| - 1 then r[i] == x else r[k] == x;
    }
  }
}
