/**
 Reachability by worklist.  A graph has start nodes, a set of side successors for every node,
 and `home`: a node may lie inside an allocation, whose words are successors too.  `Reached` is
 the least set that contains the start nodes and is closed under successors: a node belongs to
 it when no closed set leaves it out.
 */
module Closure {
  import opened Wrappers

  datatype Graph = Graph(
    start: set<nat>,
    side: nat -> set<nat>,
    home: nat -> Option<nat>,
    words: nat -> set<nat>)

  function HomeWords(g: Graph, p: nat): set<nat> {
    match g.home(p)
    case None => {}
    case Some(b) => g.words(b)
  }

  function Next(g: Graph, p: nat): set<nat> { g.side(p) + HomeWords(g, p) }

  ghost predicate Closed(g: Graph, t: iset<nat>) {
    && (forall n :: n in g.start ==> n in t)
    && (forall p, c {:trigger p in t, c in Next(g, p)} :: p in t && c in Next(g, p) ==> c in t)
  }

  ghost predicate Reached(g: Graph, n: nat) {
    forall t: iset<nat> :: Closed(g, t) ==> n in t
  }

  lemma ReachedStart(g: Graph, n: nat)
    requires n in g.start
    ensures Reached(g, n)
  {
  }

  lemma ReachedNext(g: Graph, p: nat, c: nat)
    requires Reached(g, p) && c in Next(g, p)
    ensures Reached(g, c)
  {
  }

  /** The reached nodes themselves form a closed set. */
  lemma ReachedIsClosed(g: Graph)
    ensures Closed(g, iset n | Reached(g, n))
  {
  }

  /** Only the successors of reached nodes matter: a graph that agrees with another on every
      node the other reaches, and has the same start, reaches the same nodes. */
  lemma SameReach(f: Graph, g: Graph)
    requires f.start == g.start
    requires forall p :: Reached(f, p) ==> Next(f, p) == Next(g, p)
    ensures forall n :: Reached(f, n) <==> Reached(g, n)
  {
    var t := iset n | Reached(f, n);
    ReachedIsClosed(f);
    assert Closed(g, t);
    forall n | Reached(f, n) ensures Reached(g, n) {
      forall u: iset<nat> | Closed(g, u) ensures n in u {
        assert Closed(f, t * u);
        assert n in t * u;
      }
    }
  }

  // ---- the worklist invariant ---------------------------------------------------------

  ghost predicate Within(g: Graph, universe: set<nat>) {
    g.start <= universe && forall p :: Next(g, p) <= universe
  }

  ghost predicate Sound(g: Graph, universe: set<nat>, nodes: set<nat>) {
    forall n :: n in nodes ==> Reached(g, n) && n in universe
  }

  ghost predicate SoundWork(g: Graph, universe: set<nat>, work: seq<nat>) {
    forall n :: n in work ==> Reached(g, n) && n in universe
  }

  /** Every start node and every successor of a visited node is visited or still queued. */
  ghost predicate Queued(g: Graph, owners: set<nat>, work: seq<nat>) {
    && (forall n :: n in g.start ==> n in owners || n in work)
    && forall p, c {:trigger p in owners, c in Next(g, p)} ::
         p in owners && c in Next(g, p) ==> c in owners || c in work
  }

  /** `live` holds the home of every visited node, and nothing else. */
  ghost predicate LiveMatches(g: Graph, owners: set<nat>, live: set<nat>) {
    && (forall n :: n in owners && g.home(n).Some? ==> g.home(n).value in live)
    && forall b :: b in live ==> exists n :: n in owners && g.home(n) == Some(b)
  }

  ghost predicate Marking(g: Graph, universe: set<nat>, owners: set<nat>, live: set<nat>, work: seq<nat>) {
    && Sound(g, universe, owners) && SoundWork(g, universe, work)
    && Queued(g, owners, work) && LiveMatches(g, owners, live)
  }

  lemma MarkingStarts(g: Graph, universe: set<nat>, work: seq<nat>)
    requires Within(g, universe)
    requires forall n :: n in work <==> n in g.start
    ensures Marking(g, universe, {}, {}, work)
  {
    forall n | n in work ensures Reached(g, n) {
      ReachedStart(g, n);
    }
  }

  /** The popped node's successors are queued, and nothing queued is lost. */
  lemma Requeue(g: Graph, seen: set<nat>, live: set<nat>, before: seq<nat>, p: nat, work: seq<nat>)
    requires Queued(g, seen, before) && LiveMatches(g, seen, live)
    requires forall c :: c in before ==> c in work || c == p
    requires p !in seen ==> forall c :: c in g.side(p) ==> c in work
    requires g.home(p).Some? && g.home(p).value !in live ==> forall c :: c in HomeWords(g, p) ==> c in work
    ensures Queued(g, seen + {p}, work)
  {
    var owners := seen + {p};
    forall q, c | q in owners && c in Next(g, q) ensures c in owners || c in work {
      if q in seen {
        assert c in seen || c in before;
      } else if c in HomeWords(g, q) && g.home(q).value in live {
        var n :| n in seen && g.home(n) == g.home(q);
        assert c in Next(g, n);
      }
    }
  }

  lemma LiveGrows(g: Graph, seen: set<nat>, live: set<nat>, p: nat)
    requires LiveMatches(g, seen, live)
    ensures LiveMatches(g, seen + {p}, if g.home(p).Some? then live + {g.home(p).value} else live)
  {
    var owners := seen + {p};
    var grown := if g.home(p).Some? then live + {g.home(p).value} else live;
    forall b | b in grown ensures exists n :: n in owners && g.home(n) == Some(b) {
      if b in live {
        var n :| n in seen && g.home(n) == Some(b);
        assert n in owners;
      } else {
        assert p in owners;
      }
    }
  }

  /** One iteration.  The node popped from `before` pushes its side successors if it is new and
      the words of its home if that is newly live; both may be pushed in any order. */
  lemma MarkingSteps(g: Graph, universe: set<nat>, seen: set<nat>, live: set<nat>, before: seq<nat>,
                     pushed: seq<nat>)
    requires Within(g, universe)
    requires before != [] && Marking(g, universe, seen, live, before)
    requires var p := before[|before| - 1];
             (set c | c in pushed) ==
             (if p in seen then {} else g.side(p)) +
             if g.home(p).Some? && g.home(p).value !in live then HomeWords(g, p) else {}
    ensures var p := before[|before| - 1];
            && p in universe
            && Marking(g, universe, seen + {p},
                       if g.home(p).Some? then live + {g.home(p).value} else live,
                       before[..|before| - 1] + pushed)
  {
    var p, front := before[|before| - 1], before[..|before| - 1];
    var work, all := front + pushed, set c | c in pushed;
    assert p in before;
    assert forall c :: c in before ==> c in front || c == p;
    assert forall c :: c in all <==> c in pushed;
    assert SoundWork(g, universe, work) by {
      forall c | c in work ensures Reached(g, c) && c in universe {
        if c in front {
          assert c in before;
        } else {
          assert c in Next(g, p);
          ReachedNext(g, p, c);
        }
      }
    }
    Requeue(g, seen, live, before, p, work);
    LiveGrows(g, seen, live, p);
  }

  /** An empty worklist leaves exactly the least closure. */
  lemma MarkingEnds(g: Graph, universe: set<nat>, owners: set<nat>, live: set<nat>)
    requires Marking(g, universe, owners, live, [])
    ensures forall n :: n in owners <==> Reached(g, n)
    ensures forall b :: b in live <==> exists n :: Reached(g, n) && g.home(n) == Some(b)
  {
    var t := iset n | n in owners;
    assert Closed(g, t);
    forall n | Reached(g, n) ensures n in owners {
      assert n in t;
    }
    forall b | b in live ensures exists n :: Reached(g, n) && g.home(n) == Some(b) {
      var n :| n in owners && g.home(n) == Some(b);
      assert Reached(g, n);
    }
  }
}
