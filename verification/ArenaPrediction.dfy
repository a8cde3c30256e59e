/**
 Two views of the same marking: a second reset straight after a traced one finds the same graph
 and reclaims nothing, and marking a copied snapshot predicts what the reset will keep.
 */
module ArenaPrediction {
  import opened Wrappers
  import opened Closure
  import opened ArenaModel
  import opened ArenaMarking
  import opened ArenaHeap
  import opened ArenaInvariant
  import opened ArenaTheorems

  // ---- resetting twice ----------------------------------------------------------------

  lemma VisitedHomeIsLive(v: View, read: Memory, p: nat)
    requires Visited(v, read, p)
    ensures Find(v.index, p).Some? ==> Find(v.index, p).value in Live(v, read)
  {
    if Find(v.index, p).Some? {
      assert Alive(v, read, Find(v.index, p).value);
    }
  }

  ghost function KeyAt(t: Table, b: nat, p: nat): EdgeKey
    requires b in t
  {
    (AllocationId(b, t[b].serial), p)
  }

  lemma NodeAgrees(v: View, w: View, read: Memory, p: nat)
    requires Find(w.index, p) == Find(v.index, p)
    requires Children(w.references, p) == Children(v.references, p)
    requires Find(v.index, p).Some? ==>
               var b := Find(v.index, p).value;
               && w.index[b].size == v.index[b].size && w.index[b].serial == v.index[b].serial
               && Children(w.edges, KeyAt(v.index, b, p)) == Children(v.edges, KeyAt(v.index, b, p))
    ensures Next(GraphOf(w, read), p) == Next(GraphOf(v, read), p)
  {
    var f, g := GraphOf(v, read), GraphOf(w, read);
    assert f.home(p) == g.home(p) == Find(v.index, p);
    assert g.side(p) == SideNodes(w, p) == SideNodes(v, p) == f.side(p);
    hide Find, SideNodes, WordsOf;
    if Find(v.index, p).Some? {
      var b := Find(v.index, p).value;
      assert g.words(b) == HeapWords(w.index, read, b) == HeapWords(v.index, read, b) == f.words(b);
    }
  }

  lemma ResetAt(v: View, read: Memory, p: nat)
    requires Visited(v, read, p)
    requires Find(v.index, p).Some? ==> Find(v.index, p).value in Live(v, read)
    ensures var w := TracedReset(v, read);
            && Children(w.references, p) == Children(v.references, p)
            && (Find(v.index, p).Some? ==>
                  var b := Find(v.index, p).value;
                  && b in w.index && w.index[b].size == v.index[b].size && w.index[b].serial == v.index[b].serial
                  && Children(w.edges, KeyAt(v.index, b, p)) == Children(v.edges, KeyAt(v.index, b, p)))
  {
    hide Visited, Live;
    if Find(v.index, p).Some? {
      assert EdgeSurvives(v, Live(v, read), KeyAt(v.index, Find(v.index, p).value, p));
    }
  }

  /** The graph a reset leaves agrees with the old one on every visited node. */
  lemma VisitedNodeUnchanged(v: View, read: Memory, p: nat)
    requires Invariant(v) && Visited(v, read, p)
    ensures Next(GraphOf(TracedReset(v, read), read), p) == Next(GraphOf(v, read), p)
  {
    VisitedHomeIsLive(v, read, p);
    SurvivorLookup(v, read, p);
    hide Invariant, TracedReset, Visited, Live, GraphOf;
    ResetAt(v, read, p);
    NodeAgrees(v, TracedReset(v, read), read, p);
  }

  lemma SameVisits(v: View, read: Memory)
    requires Invariant(v)
    ensures forall n :: Visited(TracedReset(v, read), read, n) <==> Visited(v, read, n)
  {
    var w := TracedReset(v, read);
    var f, g := GraphOf(v, read), GraphOf(w, read);
    forall p | Reached(f, p) ensures Next(f, p) == Next(g, p) {
      VisitedNodeUnchanged(v, read, p);
    }
    SameReach(f, g);
  }

  lemma AllSurvive(v: View, read: Memory)
    requires Invariant(v)
    ensures Live(TracedReset(v, read), read) == TracedReset(v, read).index.Keys == Live(v, read)
  {
    hide TracedReset, Visited, Invariant, Alive, Live;
    var w := TracedReset(v, read);
    SurvivorKeys(v, read);
    forall b | b in w.index ensures Alive(w, read, b) {
      StaysAlive(v, read, b);
    }
    LiveAll(w, read);
  }

  lemma SurvivorKeys(v: View, read: Memory)
    ensures TracedReset(v, read).index.Keys == Live(v, read)
    ensures forall b :: b in Live(v, read) ==> Alive(v, read, b)
  {
    hide Alive;
  }

  lemma LiveAll(w: View, read: Memory)
    requires forall b :: b in w.index ==> Alive(w, read, b)
    ensures Live(w, read) == w.index.Keys
  {
    hide Alive;
  }

  lemma StaysAlive(v: View, read: Memory, b: nat)
    requires Invariant(v) && Alive(v, read, b)
    ensures Alive(TracedReset(v, read), read, b)
  {
    SameVisits(v, read);
    hide Visited, TracedReset, GraphOf, Live;
    var n :| Visited(v, read, n) && Find(v.index, n) == Some(b);
    VisitedHomeIsLive(v, read, n);
    SurvivorLookup(v, read, n);
    assert Visited(TracedReset(v, read), read, n);
  }

  lemma {:induction false} RankOfAll(keep: set<nat>, n: nat, g: nat)
    requires forall i :: 0 <= i < n ==> i in keep
    requires g <= n
    ensures Rank(keep, g) == g
  {
    if g > 0 {
      RankOfAll(keep, n, g - 1);
    }
  }

  lemma {:induction false} KeptOfAll(bumps: seq<set<nat>>, keep: set<nat>, n: nat)
    requires n <= |bumps| && forall i :: 0 <= i < n ==> i in keep
    ensures Kept(bumps, keep, n) == bumps[..n]
  {
    if n > 0 {
      KeptOfAll(bumps, keep, n - 1);
    }
  }

  /** A second reset with no change in between reclaims nothing and moves nothing. */
  lemma SecondResetReclaimsNothing(v: View, read: Memory)
    requires Invariant(v) && v.tracing
    ensures var w := ResetCore(v, read);
            ResetCore(w, read) == w.(reclaimed := {})
  {
    var w := TracedReset(v, read);
    var live := Live(w, read);
    AllSurvive(v, read);
    CompactionIsExact(v, read);
    GenerationsCovered(w, live);
    SecondRecords(w, live);
    SecondEdges(v, read);
  }

  lemma GenerationsCovered(w: View, live: set<nat>)
    requires live == w.index.Keys
    requires forall i :: 0 <= i < |w.retained| ==> HasRecord(w.index, i)
    requires forall b :: b in w.index ==> w.index[b].generation < |w.retained|
    ensures forall i :: i in Generations(w, live) <==> 0 <= i < |w.retained|
  {
    forall i | 0 <= i < |w.retained| ensures i in Generations(w, live) {
      assert HasRecord(w.index, i);
      var b :| b in w.index && w.index[b].generation == i;
    }
  }

  lemma SecondRecords(w: View, live: set<nat>)
    requires live == w.index.Keys && w.current == {}
    requires forall b :: b in w.index ==> w.index[b].generation < |w.retained|
    requires forall i :: i in Generations(w, live) <==> 0 <= i < |w.retained|
    ensures Survivors(w, live) == w.index
    ensures Kept(Bumps(w), Generations(w, live), |Bumps(w)|) == w.retained
    ensures DeadRanges(w.index, live) == {}
  {
    hide Generations, Rank;
    var n := |w.retained|;
    SameSurvivors(w, live);
    KeptOfAll(Bumps(w), Generations(w, live), n);
    assert Bumps(w)[..n] == w.retained;
  }

  lemma SameSurvivors(w: View, live: set<nat>)
    requires live == w.index.Keys
    requires forall b :: b in w.index ==> w.index[b].generation < |w.retained|
    requires forall i :: i in Generations(w, live) <==> 0 <= i < |w.retained|
    ensures Survivors(w, live) == w.index
  {
    hide Generations, Rank;
    forall b | b in w.index ensures Rank(Generations(w, live), w.index[b].generation) == w.index[b].generation {
      RankOfAll(Generations(w, live), |w.retained|, w.index[b].generation);
    }
  }

  lemma SecondEdges(v: View, read: Memory)
    requires Invariant(v)
    ensures var w := TracedReset(v, read);
            && TracedReset(w, read).references == w.references
            && TracedReset(w, read).edges == w.edges
  {
    SameVisits(v, read);
    AllSurvive(v, read);
    hide Visited, Live, Invariant, GraphOf;
    var w := TracedReset(v, read);
    assert forall o :: o in w.references ==> o in Live(w, read) || Visited(w, read, o);
    assert forall k :: k in w.edges ==> EdgeSurvives(w, Live(w, read), k);
    hide TracedReset;
    KeepsAllEdges(w, read);
  }

  lemma KeepsAllEdges(w: View, read: Memory)
    requires forall o :: o in w.references ==> o in Live(w, read) || Visited(w, read, o)
    requires forall k :: k in w.edges ==> EdgeSurvives(w, Live(w, read), k)
    ensures TracedReset(w, read).references == w.references
    ensures TracedReset(w, read).edges == w.edges
  {
    hide Visited, Live;
  }

  // ---- snapshot and mark --------------------------------------------------------------

  lemma CopiedLookup(v: View, read: Memory, s: Snapshot, p: nat)
    requires IsSnapshot(v, read, s)
    ensures Find(CopiedTable(s), p) == Find(v.index, p)
  {
    var t := CopiedTable(s);
    assert forall b :: b in t <==> b in v.index;
    assert forall b :: b in t ==> t[b].size == v.index[b].size;
    assert forall b :: IsNearest(t, p, b) <==> IsNearest(v.index, p, b);
  }

  /** The snapshot merges edges by incarnation, the reset by lookup: inside live extents both
      mean the same. */
  lemma MatchedIsFollowed(v: View, p: nat)
    requires Invariant(v) && forall b :: b in v.index ==> v.index[b].serial != 0
    ensures MatchedChildren(v.index, v.edges, p) == EdgeChildren(v, p)
  {
    forall c | c in MatchedChildren(v.index, v.edges, p) ensures c in EdgeChildren(v, p) {
      var k :| k in v.edges && k.1 == p && IsIncarnation(v.index, k.0) && c in v.edges[k];
      FindIsMembership(v.index, p, k.0.base);
      assert k == (AllocationId(k.0.base, v.index[k.0.base].serial), p);
    }
    forall c | c in EdgeChildren(v, p) ensures c in MatchedChildren(v.index, v.edges, p) {
      var b := Find(v.index, p).value;
      var k := (AllocationId(b, v.index[b].serial), p);
      assert k in v.edges && IsIncarnation(v.index, k.0) && c in v.edges[k];
    }
  }

  lemma CopiedNode(v: View, read: Memory, s: Snapshot, p: nat)
    requires Invariant(v) && IsSnapshot(v, read, s)
    requires forall b :: b in v.index ==> v.index[b].serial != 0
    ensures Next(CopiedGraph(s, []), p) == Next(GraphOf(v, read), p)
  {
    CopiedLookup(v, read, s, p);
    MatchedIsFollowed(v, p);
    CopiedNodeAgrees(v, read, s, p);
  }

  lemma CopiedNodeAgrees(v: View, read: Memory, s: Snapshot, p: nat)
    requires Find(CopiedTable(s), p) == Find(v.index, p)
    requires Children(s.references, p) == SideNodes(v, p)
    requires Find(v.index, p).Some? ==>
               var b := Find(v.index, p).value;
               b in s.allocations && s.allocations[b].words == WordsOf(read, b, v.index[b].size)
    ensures Next(CopiedGraph(s, []), p) == Next(GraphOf(v, read), p)
  {
    var f, g := GraphOf(v, read), CopiedGraph(s, []);
    assert f.home(p) == g.home(p) == Find(v.index, p);
    assert g.side(p) == f.side(p);
    hide Find, SideNodes, WordsOf;
  }

  /** Marking a snapshot predicts the reset: the same nodes are visited, the same allocations
      survive, the same generations are retained. */
  lemma SnapshotPredictsReset(v: View, read: Memory, s: Snapshot, mark: NativeMark)
    requires Invariant(v) && v.tracing && IsSnapshot(v, read, s)
    requires forall b :: b in v.index ==> v.index[b].serial != 0
    requires forall n :: n in mark.owners <==> CopyReached(s, [], n)
    requires forall b :: b in mark.starts <==> exists n :: CopyReached(s, [], n) && Find(CopiedTable(s), n) == Some(b)
    requires mark.generations == CopiedGenerations(s, mark.starts)
    ensures forall n :: n in mark.owners <==> Visited(v, read, n)
    ensures mark.starts == Live(v, read) == ResetCore(v, read).index.Keys
    ensures mark.generations == Generations(v, Live(v, read))
  {
    CopyVisits(v, read, s);
    hide CopyReached, Visited, Invariant, IsSnapshot;
    StartsAreLive(v, read, s, mark);
  }

  lemma CopyVisits(v: View, read: Memory, s: Snapshot)
    requires Invariant(v) && IsSnapshot(v, read, s)
    requires forall b :: b in v.index ==> v.index[b].serial != 0
    ensures forall n :: CopyReached(s, [], n) <==> Visited(v, read, n)
  {
    var f, g := GraphOf(v, read), CopiedGraph(s, []);
    assert g.start == f.start;
    forall p | Reached(f, p) ensures Next(f, p) == Next(g, p) {
      CopiedNode(v, read, s, p);
    }
    hide Next, Closed;
    SameReach(f, g);
  }

  lemma StartsAreLive(v: View, read: Memory, s: Snapshot, mark: NativeMark)
    requires IsSnapshot(v, read, s)
    requires forall n :: CopyReached(s, [], n) <==> Visited(v, read, n)
    requires forall b :: b in mark.starts <==> exists n :: CopyReached(s, [], n) && Find(CopiedTable(s), n) == Some(b)
    requires mark.generations == CopiedGenerations(s, mark.starts)
    ensures mark.starts == Live(v, read)
    ensures mark.generations == Generations(v, Live(v, read))
  {
    hide CopyReached, Visited;
    forall b | b in mark.starts ensures b in Live(v, read) {
      var n :| CopyReached(s, [], n) && Find(CopiedTable(s), n) == Some(b);
      CopiedLookup(v, read, s, n);
      assert Alive(v, read, b);
    }
    forall b | b in Live(v, read) ensures b in mark.starts {
      var n :| Visited(v, read, n) && Find(v.index, n) == Some(b);
      CopiedLookup(v, read, s, n);
      assert CopyReached(s, [], n);
    }
  }
}
