/**
 The order in which user modules are emitted: a depth-first walk of the static dependencies
 that either lists every module after its dependencies or stops at a static cycle.
 */
module ModuleOrder {
  import opened Wrappers
  import opened Closure
  import opened Ordering

  /** Indices of other modules, split as the loader records them. */
  datatype Module = Module(path: string, statics: set<nat>, runtimes: set<nat>, dependencies: map<string, nat>)

  type Modules = seq<Module>

  ghost predicate WellFormed(ms: Modules) {
    forall i, d :: 0 <= i < |ms| && (d in ms[i].statics || d in ms[i].runtimes) ==> d < |ms|
  }

  ghost predicate Edge(ms: Modules, a: nat, b: nat) { a < |ms| && b in ms[a].statics }

  /** A walk along static edges. */
  ghost predicate Walk(ms: Modules, path: seq<nat>) {
    forall i :: 0 <= i < |path| - 1 ==> Edge(ms, path[i], path[i + 1])
  }

  ghost predicate IsCycle(ms: Modules, path: seq<nat>) {
    |path| >= 2 && path[0] == path[|path| - 1] && Walk(ms, path)
  }

  ghost predicate Acyclic(ms: Modules) { forall path :: !IsCycle(ms, path) }

  /** Each listed module has all its static dependencies listed before it. */
  ghost predicate DependenciesFirst(ms: Modules, order: seq<nat>) {
    forall i, d {:trigger d in ms[order[i]].statics} ::
      0 <= i < |order| && order[i] < |ms| && d in ms[order[i]].statics ==> d in order[..i]
  }

  /** `order` lists every module once, dependencies first. */
  ghost predicate IsEmissionOrder(ms: Modules, order: seq<nat>) {
    && Distinct(order) && (forall x :: x in order <==> 0 <= x < |ms|) && DependenciesFirst(ms, order)
  }

  // ---- an order rules out cycles ------------------------------------------------------

  lemma EdgeDescends(ms: Modules, order: seq<nat>, i: nat, j: nat)
    requires IsEmissionOrder(ms, order) && i < |order| && j < |order| && Edge(ms, order[i], order[j])
    ensures j < i
  {
    assert order[j] in order[..i];
    var m :| 0 <= m < i && order[m] == order[j];
  }

  lemma {:induction false} WalkDescends(ms: Modules, order: seq<nat>, path: seq<nat>, i: nat, j: nat)
    requires IsEmissionOrder(ms, order) && |path| >= 2 && Walk(ms, path) && i < |order| && j < |order|
    requires order[i] == path[0] && order[j] == path[|path| - 1]
    ensures j < i
    decreases |path|
  {
    assert Edge(ms, path[0], path[1]);
    if |path| == 2 {
      EdgeDescends(ms, order, i, j);
    } else {
      assert Edge(ms, path[1], path[2]);
      assert path[1] in order;
      var m :| 0 <= m < |order| && order[m] == path[1];
      EdgeDescends(ms, order, i, m);
      var rest := path[1..];
      assert Walk(ms, rest) by {
        forall n | 0 <= n < |rest| - 1 ensures Edge(ms, rest[n], rest[n + 1]) {
          assert Edge(ms, path[n + 1], path[n + 2]);
        }
      }
      WalkDescends(ms, order, rest, m, j);
    }
  }

  lemma OrderExcludesCycles(ms: Modules, order: seq<nat>)
    requires IsEmissionOrder(ms, order)
    ensures Acyclic(ms)
  {
    forall path ensures !IsCycle(ms, path) {
      if IsCycle(ms, path) {
        assert Edge(ms, path[0], path[1]);
        assert path[0] in order;
        var i :| 0 <= i < |order| && order[i] == path[0];
        WalkDescends(ms, order, path, i, i);
      }
    }
  }

  // ---- which order ---------------------------------------------------------------------

  /** Listing `m` when `before` is listed already gives `after`: nothing more if `m` is there, else
      its static dependencies one by one, lower indices first, and then `m`; at most `n` modules
      deep. */
  ghost predicate Emits(ms: Modules, n: nat, before: seq<nat>, m: nat, after: seq<nat>)
    decreases n, 0
  {
    if m in before then after == before
    else
      && m < |ms| && n > 0 && after != [] && after[|after| - 1] == m
      && EmitsAll(ms, n - 1, before, Sorted(ms[m].statics), after[..|after| - 1])
  }

  /** The modules of `list`, in turn. */
  ghost predicate EmitsAll(ms: Modules, n: nat, before: seq<nat>, list: seq<nat>, after: seq<nat>)
    decreases n, 1, |list|, 1
  {
    if list == [] then after == before
    else exists mid: seq<nat> :: EmitsLast(ms, n, before, list, mid, after)
  }

  /** `mid` is listed before the last module of `list` is. */
  ghost predicate EmitsLast(ms: Modules, n: nat, before: seq<nat>, list: seq<nat>, mid: seq<nat>, after: seq<nat>)
    requires list != []
    decreases n, 1, |list|, 0
  {
    EmitsAll(ms, n, before, list[..|list| - 1], mid) && Emits(ms, n, mid, list[|list| - 1], after)
  }

  lemma EmitsNext(ms: Modules, n: nat, before: seq<nat>, list: seq<nat>, k: nat, mid: seq<nat>, after: seq<nat>)
    requires k < |list| && EmitsAll(ms, n, before, list[..k], mid) && Emits(ms, n, mid, list[k], after)
    ensures EmitsAll(ms, n, before, list[..k + 1], after)
  {
    assert list[..k + 1][..k] == list[..k];
    assert EmitsLast(ms, n, before, list[..k + 1], mid, after);
  }

  lemma EmitsNothing(ms: Modules, n: nat, before: seq<nat>, list: seq<nat>, m: nat)
    ensures EmitsAll(ms, n, before, list[..0], before)
    ensures m in before ==> Emits(ms, n, before, m, before)
  {
  }

  lemma EmitsModule(ms: Modules, n: nat, before: seq<nat>, m: nat, list: seq<nat>, rest: seq<nat>)
    requires m !in before && m < |ms| && n > 0 && list == Sorted(ms[m].statics)
    requires EmitsAll(ms, n - 1, before, list[..|list|], rest)
    ensures Emits(ms, n, before, m, rest + [m])
  {
    assert list[..|list|] == list && (rest + [m])[..|rest|] == rest;
  }

  function Upto(n: nat): (r: seq<nat>)
    ensures |r| == n && forall i :: 0 <= i < n ==> r[i] == i
  {
    seq(n, i requires 0 <= i < n => i)
  }

  /** The order in which a walk from every module in turn lists the program. */
  ghost predicate IsPostOrder(ms: Modules, order: seq<nat>) { EmitsAll(ms, |ms|, [], Upto(|ms|), order) }

  /** There is only one such order. */
  lemma {:induction false} EmitsOnce(ms: Modules, n: nat, before: seq<nat>, m: nat, a: seq<nat>, b: seq<nat>)
    requires Emits(ms, n, before, m, a) && Emits(ms, n, before, m, b)
    ensures a == b
    decreases n, 0
  {
    if m !in before {
      EmitsAllOnce(ms, n - 1, before, Sorted(ms[m].statics), a[..|a| - 1], b[..|b| - 1]);
    }
  }

  lemma {:induction false} EmitsAllOnce(ms: Modules, n: nat, before: seq<nat>, list: seq<nat>, a: seq<nat>, b: seq<nat>)
    requires EmitsAll(ms, n, before, list, a) && EmitsAll(ms, n, before, list, b)
    ensures a == b
    decreases n, 1, |list|
  {
    if list != [] {
      var front, m := list[..|list| - 1], list[|list| - 1];
      var c: seq<nat> :| EmitsLast(ms, n, before, list, c, a);
      var d: seq<nat> :| EmitsLast(ms, n, before, list, d, b);
      EmitsAllOnce(ms, n, before, front, c, d);
      EmitsOnce(ms, n, c, m, a, b);
    }
  }

  /** `b` is `a` or one of its direct or indirect static dependencies. */
  ghost predicate StaticallyNeeds(ms: Modules, a: nat, b: nat) {
    forall t: iset<nat> :: a in t && (forall x, y :: x in t && Edge(ms, x, y) ==> y in t) ==> b in t
  }

  /** What listing a module adds: the module and things it needs, after what was there. */
  lemma {:induction false} EmitsNeeded(ms: Modules, n: nat, before: seq<nat>, m: nat, after: seq<nat>)
    requires Emits(ms, n, before, m, after)
    ensures before <= after && m in after && forall x :: x in after ==> x in before || StaticallyNeeds(ms, m, x)
    decreases n, 0
  {
    if m !in before {
      var list, rest := Sorted(ms[m].statics), after[..|after| - 1];
      EmitsAllNeeded(ms, n - 1, before, list, rest);
      assert after == rest + [m];
      forall x | x in rest && x !in before ensures StaticallyNeeds(ms, m, x) {
        var d :| d in list && StaticallyNeeds(ms, d, x);
        NeedsThrough(ms, m, d, x);
      }
    }
  }

  lemma NeedsThrough(ms: Modules, a: nat, b: nat, c: nat)
    requires Edge(ms, a, b) && StaticallyNeeds(ms, b, c)
    ensures StaticallyNeeds(ms, a, c)
  {
  }

  lemma {:induction false} EmitsAllNeeded(ms: Modules, n: nat, before: seq<nat>, list: seq<nat>, after: seq<nat>)
    requires EmitsAll(ms, n, before, list, after)
    ensures before <= after && (forall d :: d in list ==> d in after)
    ensures forall x :: x in after ==> x in before || exists d :: d in list && StaticallyNeeds(ms, d, x)
    decreases n, 1, |list|
  {
    if list != [] {
      var front, m := list[..|list| - 1], list[|list| - 1];
      var mid: seq<nat> :| EmitsLast(ms, n, before, list, mid, after);
      EmitsAllNeeded(ms, n, before, front, mid);
      EmitsNeeded(ms, n, mid, m, after);
      assert forall d :: d in list ==> d in front || d == m;
    }
  }

  /** The state after the first `k` modules of a list. */
  lemma {:induction false} EmitsPrefix(ms: Modules, n: nat, before: seq<nat>, list: seq<nat>, after: seq<nat>, k: nat)
    returns (mid: seq<nat>)
    requires EmitsAll(ms, n, before, list, after) && k <= |list|
    ensures EmitsAll(ms, n, before, list[..k], mid) && mid <= after
    decreases |list|
  {
    if k == |list| {
      mid := after;
      assert list[..k] == list;
    } else {
      var front, m := list[..|list| - 1], list[|list| - 1];
      var last: seq<nat> :| EmitsLast(ms, n, before, list, last, after);
      EmitsNeeded(ms, n, last, m, after);
      mid := EmitsPrefix(ms, n, before, front, last, k);
      assert front[..k] == list[..k];
    }
  }

  /** `a` stands before `b`. */
  ghost predicate Precedes(order: seq<nat>, a: nat, b: nat) {
    exists k :: 0 <= k <= |order| && a in order[..k] && b !in order[..k]
  }

  /** Dependencies come out in ascending order: of two static dependencies `a < b` of a module that
      was not listed yet, `a` comes first, unless `b` was listed or something up to `a` needs it. */
  lemma LowerFirst(ms: Modules, n: nat, before: seq<nat>, m: nat, after: seq<nat>, a: nat, b: nat)
    requires m !in before && Emits(ms, n, before, m, after)
    requires a in ms[m].statics && b in ms[m].statics && b !in before
    requires forall c :: c in ms[m].statics && c <= a ==> !StaticallyNeeds(ms, c, b)
    ensures Precedes(after, a, b)
  {
    hide Emits, EmitsAll, StaticallyNeeds, Precedes;
    var rest := EmitsRest(ms, n, before, m, after);
    var list := Sorted(ms[m].statics);
    assert a in list;
    var i :| 0 <= i < |list| && list[i] == a;
    var mid := EmitsPrefix(ms, n - 1, before, list, rest, i + 1);
    var done := list[..i + 1];
    AtMost(list, i);
    EmitsAllNeeded(ms, n - 1, before, done, mid);
    forall d | d in done ensures !StaticallyNeeds(ms, d, b) {
      assert d in list;
    }
    assert b !in mid;
    PrecedesBy(rest, mid, m, a, b);
  }

  lemma PrecedesBy(rest: seq<nat>, mid: seq<nat>, m: nat, a: nat, b: nat)
    requires mid <= rest && a in mid && b !in mid
    ensures Precedes(rest + [m], a, b)
  {
    assert mid == (rest + [m])[..|mid|];
  }

  lemma EmitsRest(ms: Modules, n: nat, before: seq<nat>, m: nat, after: seq<nat>) returns (rest: seq<nat>)
    requires m !in before && Emits(ms, n, before, m, after)
    ensures m < |ms| && n > 0 && after == rest + [m] && EmitsAll(ms, n - 1, before, Sorted(ms[m].statics), rest)
  {
    rest := after[..|after| - 1];
  }

  lemma AtMost(list: seq<nat>, i: nat)
    requires i < |list| && forall j, k :: 0 <= j < k < |list| ==> list[j] < list[k]
    ensures list[i] in list[..i + 1] && forall d :: d in list[..i + 1] ==> d in list && d <= list[i]
  {
    assert list[..i + 1][i] == list[i];
  }

  lemma EmitsOne(ms: Modules, n: nat, before: seq<nat>, m: nat, after: seq<nat>)
    requires EmitsAll(ms, n, before, [m], after)
    ensures Emits(ms, n, before, m, after)
  {
    var mid: seq<nat> :| EmitsLast(ms, n, before, [m], mid, after);
    var none := [m][..|[m]| - 1];
    assert none == [] && EmitsAll(ms, n, before, none, mid);
    assert mid == before;
    assert [m][|[m]| - 1] == m;
  }

  /** So the entry's dependencies are emitted in ascending order wherever nothing forces another. */
  lemma EntryDependenciesAscend(ms: Modules, order: seq<nat>, a: nat, b: nat)
    requires |ms| > 0 && IsPostOrder(ms, order) && a in ms[0].statics && b in ms[0].statics
    requires forall c :: c in ms[0].statics && c <= a ==> !StaticallyNeeds(ms, c, b)
    ensures Precedes(order, a, b)
  {
    var first := EmitsPrefix(ms, |ms|, [], Upto(|ms|), order, 1);
    assert Upto(|ms|)[..1] == [0];
    EmitsOne(ms, |ms|, [], 0, first);
    LowerFirst(ms, |ms|, [], 0, first, a, b);
    var k :| 0 <= k <= |first| && a in first[..k] && b !in first[..k];
    assert first[..k] == order[..k];
  }

  // ---- the walk -----------------------------------------------------------------------

  datatype Mark = New | Open | Finished

  /** How many more modules can be open at once. */
  function Room(ms: Modules, stack: seq<nat>): nat { if |stack| < |ms| then |ms| - |stack| else 0 }

  class Emission {
    const ms: Modules
    var states: seq<Mark>
    var stack: seq<nat>
    var order: seq<nat>

    constructor (ms: Modules)
      requires WellFormed(ms)
      ensures this.ms == ms && Valid() && stack == [] && order == []
    {
      this.ms := ms;
      states := seq(|ms|, _ => New);
      stack, order := [], [];
    }

    ghost predicate Valid()
      reads this
    {
      && WellFormed(ms) && |states| == |ms|
      && (forall x :: x in stack <==> 0 <= x < |ms| && states[x].Open?)
      && (forall x :: x in order <==> 0 <= x < |ms| && states[x].Finished?)
      && Distinct(stack) && Distinct(order) && Walk(ms, stack) && DependenciesFirst(ms, order)
    }

    ghost function Unseen(): set<nat>
      reads this
    {
      set x: nat | x < |states| && states[x].New?
    }

    /** Finishes `index` and everything below it, or reports a static cycle. */
    method Visit(index: nat) returns (r: Result<(), seq<nat>>)
      requires Valid() && index < |ms| && (stack != [] ==> Edge(ms, stack[|stack| - 1], index))
      modifies this
      ensures r.Err? ==> IsCycle(ms, r.error)
      ensures r.Ok? ==>
                Valid() && stack == old(stack) && old(order) <= order && index in order && Unseen() <= old(Unseen())
      ensures r.Ok? ==> Emits(ms, Room(ms, stack), old(order), index, order)
      decreases Unseen()
    {
      hide Emits, EmitsAll, Distinct, DependenciesFirst, Walk, IsCycle;
      if states[index].Finished? {
        EmitsNothing(ms, Room(ms, stack), order, [], index);
        return Ok(());
      }
      if states[index].Open? {
        var cycle := CycleAt(index);
        return Err(cycle);
      }
      ghost var before := Unseen();
      Enter(index);
      var dependencies := Sorted(ms[index].statics);
      ghost var room := Room(ms, stack);
      EmitsNothing(ms, room, order, dependencies, index);
      for k := 0 to |dependencies|
        invariant Valid() && stack == old(stack) + [index] && old(order) <= order && Unseen() <= before - {index}
        invariant forall j :: 0 <= j < k ==> dependencies[j] in order
        invariant EmitsAll(ms, room, old(order), dependencies[..k], order)
      {
        assert dependencies[k] in ms[index].statics;
        ghost var mid := order;
        r := Visit(dependencies[k]);
        if r.Err? {
          return r;
        }
        EmitsNext(ms, room, old(order), dependencies, k, mid, order);
      }
      Leave(index, old(order), dependencies);
      assert stack == old(stack);
      return Ok(());
    }

    /** The static cycle that an edge back to an open module closes. */
    method CycleAt(index: nat) returns (path: seq<nat>)
      requires Valid() && index in stack && Edge(ms, stack[|stack| - 1], index)
      ensures IsCycle(ms, path)
    {
      var start := First(stack, index);
      CycleFound(ms, stack, start, index);
      path := stack[start..] + [index];
    }

    method Enter(index: nat)
      requires Valid() && index < |ms| && states[index].New? && (stack != [] ==> Edge(ms, stack[|stack| - 1], index))
      modifies this
      ensures Valid() && stack == old(stack) + [index] && order == old(order) && Unseen() == old(Unseen()) - {index}
      ensures Room(ms, old(stack)) == Room(ms, stack) + 1
    {
      states := states[index := Open];
      stack := stack + [index];
      StackFits(stack, |ms|);
    }

    method Leave(index: nat, ghost before: seq<nat>, ghost dependencies: seq<nat>)
      requires Valid() && index < |ms| && stack != [] && stack[|stack| - 1] == index
      requires forall d :: d in ms[index].statics ==> d in order
      requires index !in before && dependencies == Sorted(ms[index].statics)
      requires EmitsAll(ms, Room(ms, stack), before, dependencies[..|dependencies|], order)
      modifies this
      ensures Valid() && stack == old(stack)[..|old(stack)| - 1] && order == old(order) + [index] &&
              Unseen() == old(Unseen())
      ensures Emits(ms, Room(ms, stack), before, index, order)
    {
      EmitsModule(ms, Room(ms, stack) + 1, before, index, dependencies, order);
      hide Emits, EmitsAll, DependenciesFirst, Walk;
      StackFits(stack, |ms|);
      Close(index);
    }

    method Close(index: nat)
      requires Valid() && index < |ms| && stack != [] && stack[|stack| - 1] == index
      requires forall d :: d in ms[index].statics ==> d in order
      modifies this
      ensures Valid() && stack == old(stack)[..|old(stack)| - 1] && order == old(order) + [index] &&
              Unseen() == old(Unseen())
    {
      assert index in stack;
      Popped(stack);
      Listed(ms, order, index);
      stack := stack[..|stack| - 1];
      states := states[index := Finished];
      order := order + [index];
    }
  }

  lemma {:induction false} StackFits(s: seq<nat>, n: nat)
    requires Distinct(s) && forall x :: x in s ==> x < n
    ensures |s| <= n
    decreases n
  {
    if s != [] {
      assert s[0] in s;
      if n - 1 in s {
        var i :| 0 <= i < |s| && s[i] == n - 1;
        var t := s[..i] + s[i + 1..];
        forall j | 0 <= j < |t| ensures t[j] < n - 1 {
          var k := if j < i then j else j + 1;
          assert t[j] == s[k] && s[k] in s && s[k] != s[i];
        }
        StackFits(t, n - 1);
      } else {
        StackFits(s, n - 1);
      }
    }
  }

  lemma Popped(s: seq<nat>)
    requires s != [] && Distinct(s)
    ensures var t := s[..|s| - 1]; forall x :: x in t <==> x in s && x != s[|s| - 1]
  {
    var t := s[..|s| - 1];
    forall x | x in s && x != s[|s| - 1] ensures x in t {
      var i :| 0 <= i < |s| && s[i] == x;
      assert t[i] == x;
    }
  }

  lemma Listed(ms: Modules, order: seq<nat>, index: nat)
    requires DependenciesFirst(ms, order) && index < |ms| && forall d :: d in ms[index].statics ==> d in order
    ensures DependenciesFirst(ms, order + [index])
  {
    var next := order + [index];
    forall i, d | 0 <= i < |next| && next[i] < |ms| && d in ms[next[i]].statics ensures d in next[..i] {
      if i < |order| {
        assert next[i] == order[i] && next[..i] == order[..i];
      } else {
        assert next[..i] == order;
      }
    }
  }

  /** The position of `x` in `s`. */
  method First(s: seq<nat>, x: nat) returns (i: nat)
    requires x in s
    ensures i < |s| && s[i] == x && x !in s[..i]
  {
    i := 0;
    while s[i] != x
      invariant i < |s| && x !in s[..i]
      decreases |s| - i
    {
      i := i + 1;
    }
  }

  lemma CycleFound(ms: Modules, stack: seq<nat>, start: nat, index: nat)
    requires Walk(ms, stack) && start < |stack| && stack[start] == index && Edge(ms, stack[|stack| - 1], index)
    ensures IsCycle(ms, stack[start..] + [index])
  {
    var path := stack[start..] + [index];
    forall i | 0 <= i < |path| - 1 ensures Edge(ms, path[i], path[i + 1]) {
      if i < |path| - 2 {
        assert Edge(ms, stack[start + i], stack[start + i + 1]);
      }
    }
  }

  /** Succeeds exactly on acyclic static graphs, with an emission order; otherwise the error is a
      static cycle.  Dynamic and type-only edges play no part. */
  method EmissionOrder(ms: Modules) returns (r: Result<seq<nat>, seq<nat>>)
    requires WellFormed(ms)
    ensures r.Ok? <==> Acyclic(ms)
    ensures r.Ok? ==> IsEmissionOrder(ms, r.value) && IsPostOrder(ms, r.value)
    ensures r.Err? ==> IsCycle(ms, r.error)
  {
    hide Emits, EmitsAll, Distinct, DependenciesFirst, Walk, IsCycle;
    var e := new Emission(ms);
    EmitsNothing(ms, |ms|, [], Upto(|ms|), 0);
    for index := 0 to |ms|
      invariant e.ms == ms && e.Valid() && e.stack == [] && fresh(e)
      invariant forall x :: 0 <= x < index ==> x in e.order
      invariant EmitsAll(ms, |ms|, [], Upto(|ms|)[..index], e.order)
    {
      ghost var before := e.order;
      var step := e.Visit(index);
      if step.Err? {
        return Err(step.error);
      }
      EmitsNext(ms, |ms|, [], Upto(|ms|), index, before, e.order);
    }
    assert Upto(|ms|)[..|ms|] == Upto(|ms|);
    OrderExcludesCycles(ms, e.order);
    return Ok(e.order);
  }

  // ---- reachability -------------------------------------------------------------------

  function Indices(ms: Modules): (r: set<nat>)
    ensures forall n: nat :: n in r <==> n < |ms|
  {
    if ms == [] then {} else Indices(ms[1..]) + {|ms| - 1}
  }

  function DependenciesOf(ms: Modules, staticOnly: bool, n: nat): set<nat> {
    if n >= |ms| then {} else if staticOnly then ms[n].statics else ms[n].runtimes
  }

  function DependencyGraph(ms: Modules, entry: nat, staticOnly: bool): Graph {
    Graph({entry}, n => DependenciesOf(ms, staticOnly, n), _ => None, _ => {})
  }

  /** The modules reached from `entry`: the least set that holds it and is closed under the
      chosen dependencies. */
  method ReachableModules(ms: Modules, entry: nat, staticOnly: bool) returns (reachable: set<nat>)
    requires WellFormed(ms) && entry < |ms|
    ensures forall n :: n in reachable <==> Reached(DependencyGraph(ms, entry, staticOnly), n)
  {
    hide Marking, Reached;
    ghost var universe := Indices(ms);
    reachable := {};
    var pending := [entry];
    ghost var g := DependencyGraph(ms, entry, staticOnly);
    GraphWithin(ms, entry, staticOnly);
    MarkingStarts(g, universe, pending);
    while pending != []
      invariant Marking(g, universe, reachable, {}, pending)
      decreases |universe - reachable|, |pending|
    {
      var index := pending[|pending| - 1];
      var pushed := if index in reachable then [] else Sorted(DependenciesOf(ms, staticOnly, index));
      ReachStep(ms, entry, staticOnly, reachable, pending, pushed);
      pending := pending[..|pending| - 1] + pushed;
      Shrinks(universe, reachable, index);
      reachable := reachable + {index};
    }
    MarkingEnds(g, universe, reachable, {});
  }

  lemma GraphWithin(ms: Modules, entry: nat, staticOnly: bool)
    requires WellFormed(ms) && entry < |ms|
    ensures Within(DependencyGraph(ms, entry, staticOnly), Indices(ms))
  {
  }

  lemma ReachStep(ms: Modules, entry: nat, staticOnly: bool, seen: set<nat>, before: seq<nat>, pushed: seq<nat>)
    requires WellFormed(ms) && entry < |ms| && before != []
    requires Marking(DependencyGraph(ms, entry, staticOnly), Indices(ms), seen, {}, before)
    requires var p := before[|before| - 1];
             pushed == if p in seen then [] else Sorted(DependenciesOf(ms, staticOnly, p))
    ensures var p := before[|before| - 1];
            && p < |ms|
            && Marking(DependencyGraph(ms, entry, staticOnly), Indices(ms), seen + {p}, {},
                       before[..|before| - 1] + pushed)
  {
    hide Marking;
    var g := DependencyGraph(ms, entry, staticOnly);
    var p := before[|before| - 1];
    assert (set c | c in pushed) == if p in seen then {} else g.side(p);
    GraphWithin(ms, entry, staticOnly);
    MarkingSteps(g, Indices(ms), seen, {}, before, pushed);
  }

  lemma Shrinks(universe: set<nat>, seen: set<nat>, x: nat)
    requires x in universe
    ensures x !in seen ==> |universe - (seen + {x})| < |universe - seen|
    ensures x in seen ==> seen + {x} == seen
  {
    assert universe - (seen + {x}) == universe - seen - {x};
  }
}
