/**
 The two marking worklists: the one inside a traced reset, which consults the hybrid index in
 place, and `mark_native_graph`, which works on a copied snapshot.  Both end with exactly the
 least closure of their start nodes, and both terminate because visited nodes are drawn from a
 finite universe of words and side-edge children.
 */
module ArenaMarking {
  import opened Wrappers
  import opened Closure
  import opened Ordering
  import opened ArenaModel
  import opened ArenaIndex

  method ReadWords(read: Memory, base: nat, size: nat) returns (words: seq<nat>)
    ensures words == WordsOf(read, base, size)
  {
    words := [];
    var offset := 0;
    while offset + WORD <= size
      invariant offset == |words| * WORD && |words| <= size / WORD
      invariant forall i :: 0 <= i < |words| ==> words[i] == read(base + i * WORD)
    {
      words := words + [read(base + offset)];
      offset := offset + WORD;
    }
  }

  // ---- the worklist of a traced reset -------------------------------------------------

  /** Everything the worklist can ever hold. */
  ghost function Universe(v: View, read: Memory): set<nat> {
    Start(v, read)
    + (set o, c | o in v.references && c in v.references[o] :: c)
    + (set k, c | k in v.edges && c in v.edges[k] :: c)
    + (set b, c | b in v.index && c in WordsOf(read, b, v.index[b].size) :: c)
  }

  lemma WithinUniverse(v: View, read: Memory)
    ensures Within(GraphOf(v, read), Universe(v, read))
  {
    var g := GraphOf(v, read);
    forall p ensures Next(g, p) <= Universe(v, read) {
      assert HomeWords(g, p) <= Universe(v, read);
      assert g.side(p) == SideNodes(v, p) <= Universe(v, read);
    }
  }

  predicate InExtent(found: Option<(nat, AllocRecord)>, p: nat) {
    found.Some? && found.value.0 <= p && p - found.value.0 < found.value.1.size
  }

  lemma FoundIsFind(t: Table, found: Option<(nat, AllocRecord)>, p: nat)
    requires AnswersLike(found, t, p)
    ensures Find(t, p) == if InExtent(found, p) then Some(found.value.0) else None
    ensures InExtent(found, p) ==> found.value.1 == t[found.value.0]
  {
  }

  /** The side-table children pushed when a node is first visited. */
  function SideChildren(references: map<nat, seq<nat>>, edges: map<EdgeKey, seq<nat>>,
                        found: Option<(nat, AllocRecord)>, p: nat): seq<nat> {
    Get(references, p) +
    if InExtent(found, p) && found.value.1.serial != 0
    then Get(edges, (AllocationId(found.value.0, found.value.1.serial), p))
    else []
  }

  lemma SideChildrenMatch(v: View, found: Option<(nat, AllocRecord)>, p: nat)
    requires AnswersLike(found, v.index, p)
    ensures Elements(SideChildren(v.references, v.edges, found, p)) == SideNodes(v, p)
  {
    FoundIsFind(v.index, found, p);
  }

  lemma StartIsWork(v: View, read: Memory, roots: seq<nat>, pinned: map<nat, nat>, values: seq<nat>)
    requires v.roots == Elements(roots) && v.pinned == pinned
    requires |values| == |roots| && forall i :: 0 <= i < |roots| ==> values[i] == read(roots[i])
    ensures forall n :: n in Start(v, read) <==> n in values + roots + Sorted(pinned.Keys)
  {
    forall s | s in v.roots ensures read(s) in values {
      var i :| 0 <= i < |roots| && roots[i] == s;
      assert values[i] == read(s);
    }
    forall n | n in values ensures n in Start(v, read) {
      var i :| 0 <= i < |values| && values[i] == n;
      assert roots[i] in v.roots;
    }
  }

  ghost predicate MarkInvariant(v: View, read: Memory, owners: set<nat>, live: set<nat>, work: seq<nat>) {
    Marking(GraphOf(v, read), Universe(v, read), owners, live, work)
  }

  lemma MarkBegins(v: View, read: Memory, roots: seq<nat>, pinned: map<nat, nat>, values: seq<nat>)
    requires v.roots == Elements(roots) && v.pinned == pinned
    requires |values| == |roots| && forall i :: 0 <= i < |roots| ==> values[i] == read(roots[i])
    ensures MarkInvariant(v, read, {}, {}, values + roots + Sorted(pinned.Keys))
  {
    WithinUniverse(v, read);
    StartIsWork(v, read, roots, pinned, values);
    MarkingStarts(GraphOf(v, read), Universe(v, read), values + roots + Sorted(pinned.Keys));
  }

  lemma MarkAdvances(v: View, read: Memory, seen: set<nat>, live: set<nat>, before: seq<nat>,
                     found: Option<(nat, AllocRecord)>, side: seq<nat>, words: seq<nat>)
    requires before != [] && MarkInvariant(v, read, seen, live, before)
    requires var p := before[|before| - 1];
             && AnswersLike(found, v.index, p)
             && side == (if p in seen then [] else SideChildren(v.references, v.edges, found, p))
             && words == if InExtent(found, p) && found.value.0 !in live
                         then WordsOf(read, found.value.0, found.value.1.size) else []
    ensures var p := before[|before| - 1];
            && p in Universe(v, read)
            && (p in seen ==> words == [])
            && MarkInvariant(v, read, seen + {p},
                             if InExtent(found, p) then live + {found.value.0} else live,
                             before[..|before| - 1] + (side + words))
  {
    hide Marking, Universe, SideChildren, WordsOf, AnswersLike, SideNodes, Find, Start, Within;
    var p := before[|before| - 1];
    FoundIsFind(v.index, found, p);
    Pushed(v, read, seen, live, p, found, side, words);
    WithinUniverse(v, read);
    var g := GraphOf(v, read);
    SeenIsLive(g, Universe(v, read), seen, live, before, p);
    MarkingSteps(g, Universe(v, read), seen, live, before, side + words);
  }

  lemma SeenIsLive(g: Graph, universe: set<nat>, seen: set<nat>, live: set<nat>, work: seq<nat>, p: nat)
    requires Marking(g, universe, seen, live, work)
    ensures p in seen && g.home(p).Some? ==> g.home(p).value in live
  {
  }

  /** What is pushed for `p` are its side successors and the words of its newly live home. */
  lemma Pushed(v: View, read: Memory, seen: set<nat>, live: set<nat>, p: nat,
               found: Option<(nat, AllocRecord)>, side: seq<nat>, words: seq<nat>)
    requires AnswersLike(found, v.index, p)
    requires side == (if p in seen then [] else SideChildren(v.references, v.edges, found, p))
    requires words == if InExtent(found, p) && found.value.0 !in live
                      then WordsOf(read, found.value.0, found.value.1.size) else []
    ensures var g := GraphOf(v, read);
            (set c | c in side + words) ==
            (if p in seen then {} else g.side(p)) +
            if g.home(p).Some? && g.home(p).value !in live then HomeWords(g, p) else {}
  {
    hide SideChildren, WordsOf, AnswersLike, SideNodes, Find, Start;
    var g := GraphOf(v, read);
    FoundIsFind(v.index, found, p);
    SideChildrenMatch(v, found, p);
    FoundWords(v, read, found, p);
    assert (set c | c in side + words) == Elements(side) + Elements(words);
  }

  lemma FoundWords(v: View, read: Memory, found: Option<(nat, AllocRecord)>, p: nat)
    requires AnswersLike(found, v.index, p)
    ensures InExtent(found, p) ==>
              HomeWords(GraphOf(v, read), p) == Elements(WordsOf(read, found.value.0, found.value.1.size))
  {
    hide WordsOf;
    FoundIsFind(v.index, found, p);
  }

  lemma MarkFinishes(v: View, read: Memory, owners: set<nat>, live: set<nat>)
    requires MarkInvariant(v, read, owners, live, [])
    ensures forall n :: n in owners <==> Visited(v, read, n)
    ensures live == Live(v, read)
  {
    var g := GraphOf(v, read);
    MarkingEnds(g, Universe(v, read), owners, live);
    forall b | b in live ensures b in v.index && Alive(v, read, b) {
      var n :| Reached(g, n) && g.home(n) == Some(b);
      assert Visited(v, read, n) && Find(v.index, n) == Some(b);
    }
    forall b | b in v.index && Alive(v, read, b) ensures b in live {
      var n :| Visited(v, read, n) && Find(v.index, n) == Some(b);
      assert Reached(g, n) && g.home(n) == Some(b);
    }
  }

  /** The worklist of a traced reset: the visited nodes and the live bases are exactly the
      least closure of root contents, root slots and pins. */
  method Mark(ghost v: View, read: Memory, table: Table, recent: seq<Pending>, generation: nat,
              roots: seq<nat>, pinned: map<nat, nat>, references: map<nat, seq<nat>>,
              edges: map<EdgeKey, seq<nat>>) returns (live: set<nat>, owners: set<nat>)
    requires StrictlyAscending(recent) && v.index == Fold(table, recent, generation)
    requires v.roots == Elements(roots) && v.pinned == pinned
    requires v.references == references && v.edges == edges
    ensures forall n :: n in owners <==> Visited(v, read, n)
    ensures live == Live(v, read)
  {
    var work: seq<nat> := seq(|roots|, i requires 0 <= i < |roots| => read(roots[i]));
    MarkBegins(v, read, roots, pinned, work);
    work := work + roots + Sorted(pinned.Keys);
    live, owners := {}, {};
    hide MarkInvariant, Fold, NearestAllocation, AnswersLike, SideChildren, Universe, StrictlyAscending, WordsOf,
         Visited, Live, Elements, GraphOf;
    while work != []
      invariant MarkInvariant(v, read, owners, live, work)
      decreases Universe(v, read) - owners, |work|
    {
      live, owners, work := MarkOne(v, read, table, recent, generation, references, edges, live, owners, work);
    }
    MarkFinishes(v, read, owners, live);
  }

  /** One iteration: the node on top is visited, and what it leads to is pushed. */
  method MarkOne(ghost v: View, read: Memory, table: Table, recent: seq<Pending>, generation: nat,
                 references: map<nat, seq<nat>>, edges: map<EdgeKey, seq<nat>>, marked: set<nat>, seen: set<nat>,
                 before: seq<nat>)
    returns (live: set<nat>, owners: set<nat>, work: seq<nat>)
    requires StrictlyAscending(recent) && v.index == Fold(table, recent, generation)
    requires v.references == references && v.edges == edges
    requires before != [] && MarkInvariant(v, read, seen, marked, before)
    ensures MarkInvariant(v, read, owners, live, work)
    ensures var p := before[|before| - 1];
            p in Universe(v, read) && owners == seen + {p} && (p in seen ==> work == before[..|before| - 1])
  {
    hide MarkInvariant, Fold, NearestAllocation, AnswersLike, SideChildren, Universe, StrictlyAscending, WordsOf;
    var pointer := before[|before| - 1];
    var found := NearestAllocation(table, recent, generation, pointer);
    NearestAnswers(table, recent, generation, pointer);
    var side := if pointer in seen then [] else SideChildren(references, edges, found, pointer);
    owners, live := seen + {pointer}, marked;
    var words: seq<nat> := [];
    if InExtent(found, pointer) && found.value.0 !in marked {
      words := ReadWords(read, found.value.0, found.value.1.size);
      live := marked + {found.value.0};
    }
    work := before[..|before| - 1] + (side + words);
    assert live == if InExtent(found, pointer) then marked + {found.value.0} else marked;
    MarkAdvances(v, read, seen, marked, before, found, side, words);
  }

  // ---- the snapshot and its marking ---------------------------------------------------

  datatype AllocationSnapshot =
    AllocationSnapshot(id: AllocationId, size: nat, generation: nat, words: seq<nat>)

  datatype Snapshot = Snapshot(
    epoch: nat,
    allocations: map<nat, AllocationSnapshot>,
    references: map<nat, seq<nat>>,
    rootValues: seq<nat>,
    rootSlots: seq<nat>,
    pinned: map<nat, nat>)

  datatype NativeMark = NativeMark(starts: set<nat>, owners: set<nat>, generations: set<nat>)

  function CopiedTable(s: Snapshot): Table {
    map b | b in s.allocations ::
      AllocRecord(s.allocations[b].size, s.allocations[b].generation, s.allocations[b].id.serial)
  }

  function CopiedGraph(s: Snapshot, extra: seq<nat>): Graph {
    Graph(Elements(s.rootValues) + Elements(s.rootSlots) + s.pinned.Keys + Elements(extra),
          p => Children(s.references, p),
          p => Find(CopiedTable(s), p),
          b => if b in s.allocations then Elements(s.allocations[b].words) else {})
  }

  ghost function CopiedUniverse(s: Snapshot, extra: seq<nat>): set<nat> {
    CopiedGraph(s, extra).start
    + (set o, c | o in s.references && c in s.references[o] :: c)
    + (set b, c | b in s.allocations && c in s.allocations[b].words :: c)
  }

  lemma WithinCopiedUniverse(s: Snapshot, extra: seq<nat>)
    ensures Within(CopiedGraph(s, extra), CopiedUniverse(s, extra))
  {
    var g := CopiedGraph(s, extra);
    forall p ensures Next(g, p) <= CopiedUniverse(s, extra) {
      assert HomeWords(g, p) <= CopiedUniverse(s, extra);
      assert g.side(p) == Children(s.references, p) <= CopiedUniverse(s, extra);
    }
  }

  lemma FindInCopy(s: Snapshot, p: nat)
    ensures Find(CopiedTable(s), p).Some? ==> Find(CopiedTable(s), p).value in s.allocations
  {
  }

  ghost predicate CopyInvariant(s: Snapshot, extra: seq<nat>, owners: set<nat>, starts: set<nat>, work: seq<nat>) {
    Marking(CopiedGraph(s, extra), CopiedUniverse(s, extra), owners, starts, work)
  }

  lemma CopyBegins(s: Snapshot, extra: seq<nat>)
    ensures CopyInvariant(s, extra, {}, {}, s.rootValues + s.rootSlots + Sorted(s.pinned.Keys) + extra)
  {
    WithinCopiedUniverse(s, extra);
    MarkingStarts(CopiedGraph(s, extra), CopiedUniverse(s, extra),
                  s.rootValues + s.rootSlots + Sorted(s.pinned.Keys) + extra);
  }

  lemma CopyPops(s: Snapshot, extra: seq<nat>, seen: set<nat>, starts: set<nat>, before: seq<nat>)
    requires before != [] && CopyInvariant(s, extra, seen, starts, before)
    ensures var p := before[|before| - 1];
            var found := Find(CopiedTable(s), p);
            && p in CopiedUniverse(s, extra)
            && (p in seen && found.Some? ==> found.value in starts)
  {
    var g, p := CopiedGraph(s, extra), before[|before| - 1];
    assert p in before;
    assert g.home(p) == Find(CopiedTable(s), p);
  }

  lemma CopyAdvances(s: Snapshot, extra: seq<nat>, seen: set<nat>, starts: set<nat>, before: seq<nat>,
                     children: seq<nat>, words: seq<nat>, grown: set<nat>)
    requires before != [] && CopyInvariant(s, extra, seen, starts, before)
    requires var p := before[|before| - 1];
             var found := Find(CopiedTable(s), p);
             if p in seen then children == [] && words == [] && grown == starts
             else
               && children == Get(s.references, p)
               && if found.Some? && found.value !in starts
                  then words == s.allocations[found.value].words && grown == starts + {found.value}
                  else words == [] && grown == starts
    ensures CopyInvariant(s, extra, seen + {before[|before| - 1]}, grown,
                          before[..|before| - 1] + (children + words))
  {
    hide Marking, CopiedUniverse, CopiedTable, Find, Within;
    FindInCopy(s, before[|before| - 1]);
    assert (set c | c in children + words) == Elements(children) + Elements(words);
    WithinCopiedUniverse(s, extra);
    CopyPops(s, extra, seen, starts, before);
    var found := Find(CopiedTable(s), before[|before| - 1]);
    assert grown == if found.Some? then starts + {found.value} else starts;
    MarkingSteps(CopiedGraph(s, extra), CopiedUniverse(s, extra), seen, starts, before, children + words);
  }

  ghost predicate CopyReached(s: Snapshot, extra: seq<nat>, n: nat) {
    Reached(CopiedGraph(s, extra), n)
  }

  lemma CopyFinishes(s: Snapshot, extra: seq<nat>, owners: set<nat>, starts: set<nat>)
    requires CopyInvariant(s, extra, owners, starts, [])
    ensures forall n :: n in owners <==> CopyReached(s, extra, n)
    ensures forall b :: b in starts <==> exists n :: CopyReached(s, extra, n) && Find(CopiedTable(s), n) == Some(b)
  {
    var g := CopiedGraph(s, extra);
    MarkingEnds(g, CopiedUniverse(s, extra), owners, starts);
    forall b | b in starts ensures exists n :: CopyReached(s, extra, n) && Find(CopiedTable(s), n) == Some(b) {
      var n :| Reached(g, n) && g.home(n) == Some(b);
      assert CopyReached(s, extra, n);
    }
    forall b, n | CopyReached(s, extra, n) && Find(CopiedTable(s), n) == Some(b) ensures b in starts {
      assert Reached(g, n) && g.home(n) == Some(b);
    }
  }

  ghost function CopiedGenerations(s: Snapshot, starts: set<nat>): set<nat> {
    set b | b in starts && b in s.allocations :: s.allocations[b].generation
  }

  lemma CopiedGenerationsGrow(s: Snapshot, starts: set<nat>, b: nat)
    requires b in s.allocations
    ensures CopiedGenerations(s, starts + {b}) == CopiedGenerations(s, starts) + {s.allocations[b].generation}
  {
  }

  /** Native reachability from copied data only. */
  method MarkNativeGraph(s: Snapshot, extra: seq<nat>) returns (mark: NativeMark)
    ensures forall n :: n in mark.owners <==> CopyReached(s, extra, n)
    ensures forall b :: b in mark.starts <==>
              exists n :: CopyReached(s, extra, n) && Find(CopiedTable(s), n) == Some(b)
    ensures mark.starts <= s.allocations.Keys
    ensures mark.generations == CopiedGenerations(s, mark.starts)
  {
    var owners, starts, generations: set<nat> := {}, {}, {};
    var work := s.rootValues + s.rootSlots + Sorted(s.pinned.Keys) + extra;
    CopyBegins(s, extra);
    while work != []
      invariant CopyInvariant(s, extra, owners, starts, work)
      invariant starts <= s.allocations.Keys
      invariant generations == CopiedGenerations(s, starts)
      decreases CopiedUniverse(s, extra) - owners, |work|
    {
      var pointer := work[|work| - 1];
      ghost var before, seen, marked := work, owners, starts;
      work := work[..|work| - 1];
      CopyPops(s, extra, owners, starts, before);
      var found := Find(CopiedTable(s), pointer);
      var children, words: seq<nat> := [], [];
      if pointer !in owners {
        children := Get(s.references, pointer);
        if found.Some? && found.value !in starts {
          words := s.allocations[found.value].words;
          CopiedGenerationsGrow(s, starts, found.value);
          starts := starts + {found.value};
          generations := generations + {s.allocations[found.value].generation};
        }
      }
      owners := owners + {pointer};
      work := work + (children + words);
      CopyAdvances(s, extra, seen, marked, before, children, words, starts);
    }
    CopyFinishes(s, extra, owners, starts);
    mark := NativeMark(starts, owners, generations);
  }
}
