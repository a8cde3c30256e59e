/**
 Imports are carried out in the order they are written: the loader numbers modules as it meets
 them, and emission takes lower numbers first.
 */
module ModuleSequence {
  import opened Wrappers
  import opened ModuleOrder
  import opened ModuleLoading

  // ---- what loading adds --------------------------------------------------------------

  lemma {:induction false} LoadsNeeded(d: Disk, n: nat, before: seq<string>, p: string, after: seq<string>)
    requires Loads(d, n, before, p, after)
    ensures before <= after && p in after && forall x :: x in after ==> x in before || Needed(d, p, x)
    decreases n, 0
  {
    NeededItself(d, p);
    if p !in before {
      LoadsAllNeeded(d, n - 1, before + [p], p, d.files[p], after);
      assert after[|before|] == p;
      forall x | x in after && x !in before + [p] ensures Needed(d, p, x) {
        var i :| i in d.files[p] && Relative(i.specifier) && ThroughImport(d, p, i, x);
        ImportReaches(d, p, i, x);
      }
    }
  }

  /** `x` is needed by what `i` imports. */
  ghost predicate ThroughImport(d: Disk, p: string, i: Import, x: string) {
    d.resolve(p, i.specifier).Some? && Needed(d, d.resolve(p, i.specifier).value, x)
  }

  lemma NeededItself(d: Disk, p: string)
    ensures Needed(d, p, p)
  {
  }

  lemma NeededThrough(d: Disk, p: string, q: string, x: string)
    requires Needed(d, p, q) && Needed(d, q, x)
    ensures Needed(d, p, x)
  {
    forall t: iset<string> | ClosedPaths(d, p, t) ensures x in t {
      assert q in t;
      assert ClosedPaths(d, q, t);
    }
  }

  lemma ImportReaches(d: Disk, p: string, i: Import, x: string)
    requires p in d.files && i in d.files[p] && Relative(i.specifier) && ThroughImport(d, p, i, x)
    ensures Needed(d, p, x)
  {
    NeededItself(d, p);
    ImportNeeded(d, p, p, i);
    NeededThrough(d, p, d.resolve(p, i.specifier).value, x);
  }

  lemma {:induction false} LoadsAllNeeded(d: Disk, n: nat, before: seq<string>, p: string, js: seq<Import>,
                                          after: seq<string>)
    requires LoadsAll(d, n, before, p, js, after)
    ensures before <= after
    ensures forall i :: i in js && Relative(i.specifier) ==>
              d.resolve(p, i.specifier).Some? && d.resolve(p, i.specifier).value in after
    ensures forall x :: x in after ==>
              x in before || exists i :: i in js && Relative(i.specifier) && ThroughImport(d, p, i, x)
    decreases n, 1, |js|
  {
    if js != [] {
      var front, last := js[..|js| - 1], js[|js| - 1];
      var mid: seq<string> :| LoadsLast(d, n, before, p, js, mid, after);
      assert LoadsOne(d, n, mid, p, last, after);
      LoadsAllNeeded(d, n, before, p, front, mid);
      if Relative(last.specifier) {
        LoadsNeeded(d, n, mid, d.resolve(p, last.specifier).value, after);
      }
      hide Needed, Loads, LoadsAll;
      assert forall i :: i in js ==> i in front || i == last;
      assert forall i :: i in front ==> i in js;
      assert last in js;
    }
  }

  /** What is loaded after the first `k` imports. */
  lemma {:induction false} LoadsPrefix(d: Disk, n: nat, before: seq<string>, p: string, js: seq<Import>,
                                       after: seq<string>, k: nat) returns (mid: seq<string>)
    requires LoadsAll(d, n, before, p, js, after) && k <= |js|
    ensures LoadsAll(d, n, before, p, js[..k], mid) && mid <= after
    decreases |js|
  {
    if k == |js| {
      mid := after;
      assert js[..k] == js;
    } else {
      var front, last := js[..|js| - 1], js[|js| - 1];
      var rest: seq<string> :| LoadsLast(d, n, before, p, js, rest, after);
      assert LoadsOne(d, n, rest, p, last, after);
      if Relative(last.specifier) {
        LoadsNeeded(d, n, rest, d.resolve(p, last.specifier).value, after);
      }
      mid := LoadsPrefix(d, n, before, p, front, rest, k);
      assert front[..k] == js[..k];
    }
  }

  // ---- static dependencies are imports ------------------------------------------------

  lemma StaticIsImport(d: Disk, entry: string, ms: Modules, loaded: map<string, nat>, x: nat, y: nat)
    requires Indexes(d, entry, ms, loaded) && Edge(ms, x, y)
    ensures y < |ms| && Imports(d, ms[x].path, ms[y].path)
  {
    assert FiledAt(d, ms, loaded, x);
    assert y in Targets(d, loaded, ms[x].path, d.files[ms[x].path], (i: Import) => i.isStatic);
    var i :| i in d.files[ms[x].path] && Relative(i.specifier) && Follows(d, loaded, ms[x].path, i.specifier)
             && y == loaded[d.resolve(ms[x].path, i.specifier).value];
  }

  /** What a module needs statically, its file needs. */
  lemma StaticIsNeeded(d: Disk, entry: string, ms: Modules, loaded: map<string, nat>, x: nat, y: nat)
    requires Indexes(d, entry, ms, loaded) && x < |ms| && StaticallyNeeds(ms, x, y)
    ensures y < |ms| && Needed(d, ms[x].path, ms[y].path)
  {
    var t := iset z: nat | z < |ms| && Needed(d, ms[x].path, ms[z].path);
    NeededItself(d, ms[x].path);
    forall u: nat, v: nat | u in t && Edge(ms, u, v) ensures v in t {
      StaticIsImport(d, entry, ms, loaded, u, v);
      NeededNext(d, ms[x].path, ms[u].path, ms[v].path);
    }
    assert y in t;
  }

  lemma ImportIsStatic(d: Disk, entry: string, ms: Modules, loaded: map<string, nat>, i: Import)
    requires Indexes(d, entry, ms, loaded) && |ms| > 0 && ms[0].path == entry && entry in d.files
    requires i in d.files[entry] && Relative(i.specifier) && i.isStatic
    ensures d.resolve(entry, i.specifier).Some? && d.resolve(entry, i.specifier).value in loaded
    ensures loaded[d.resolve(entry, i.specifier).value] in ms[0].statics
  {
    assert FiledAt(d, ms, loaded, 0);
    assert Follows(d, loaded, entry, i.specifier);
  }

  // ---- the order of imports -----------------------------------------------------------

  /** Of two static imports of the entry, the first is carried out first, unless the target of the
      second is needed by something imported up to the first. */
  lemma ImportsInOrder(d: Disk, entry: string, ms: Modules, order: seq<nat>, a: nat, b: nat)
    requires Describes(d, entry, ms) && IsLoadOrder(d, entry, ms)
    requires IsEmissionOrder(ms, order) && IsPostOrder(ms, order)
    requires entry in d.files && a < b < |d.files[entry]|
    requires forall k :: k == a || k == b ==> d.files[entry][k].isStatic && Relative(d.files[entry][k].specifier)
    requires var target := d.resolve(entry, d.files[entry][b].specifier);
             && target != Some(entry)
             && forall k :: 0 <= k <= a && Relative(d.files[entry][k].specifier) && target.Some? ==>
                  !ThroughImport(d, entry, d.files[entry][k], target.value)
    ensures exists x: nat, y: nat ::
              && x < |ms| && d.resolve(entry, d.files[entry][a].specifier) == Some(ms[x].path)
              && y < |ms| && d.resolve(entry, d.files[entry][b].specifier) == Some(ms[y].path)
              && Precedes(order, x, y)
  {
    hide Loads, LoadsAll, Needed, IsPostOrder, IsEmissionOrder, Precedes, StaticallyNeeds;
    var js := d.files[entry];
    var loaded :| Indexes(d, entry, ms, loaded);
    ImportIsStatic(d, entry, ms, loaded, js[a]);
    ImportIsStatic(d, entry, ms, loaded, js[b]);
    var p, q := d.resolve(entry, js[a].specifier).value, d.resolve(entry, js[b].specifier).value;
    var x, y := loaded[p], loaded[q];
    var mid := UpToImport(d, entry, ms, a, q);
    forall i | 0 <= i < |ms| ensures ms[i].path in loaded && loaded[ms[i].path] == i {
      assert FiledAt(d, ms, loaded, i);
    }
    PlacedBy(ms, loaded, mid, p, q);
    forall c | c in ms[0].statics && c <= x ensures !StaticallyNeeds(ms, c, y) {
      assert Edge(ms, 0, c);
      StaticIsImport(d, entry, ms, loaded, 0, c);
      EarlierNeedsNot(d, entry, ms, order, loaded, mid, c, a, y);
    }
    EntryDependenciesAscend(ms, order, x, y);
  }

  /** The paths loaded once import `a` of the entry is done: not `q` yet. */
  lemma UpToImport(d: Disk, entry: string, ms: Modules, a: nat, q: string) returns (mid: seq<string>)
    requires IsLoadOrder(d, entry, ms) && entry in d.files && a < |d.files[entry]| && q != entry
    requires Relative(d.files[entry][a].specifier)
    requires forall k :: 0 <= k <= a && Relative(d.files[entry][k].specifier) ==>
               !ThroughImport(d, entry, d.files[entry][k], q)
    ensures mid <= PathsOf(ms) && q !in mid
    ensures d.resolve(entry, d.files[entry][a].specifier).Some?
    ensures d.resolve(entry, d.files[entry][a].specifier).value in mid
    ensures forall z :: z in mid ==>
              z == entry || exists k :: 0 <= k <= a && Relative(d.files[entry][k].specifier) &&
                              ThroughImport(d, entry, d.files[entry][k], z)
  {
    hide Needed, ThroughImport;
    var js, done := d.files[entry], d.files[entry][..a + 1];
    var n := EntryLoads(d, entry, ms);
    mid := LoadsPrefix(d, n, [entry], entry, js, PathsOf(ms), a + 1);
    LoadsAllNeeded(d, n, [entry], entry, done, mid);
    assert done[a] == js[a];
    forall z | z in mid && z != entry
      ensures exists k :: 0 <= k <= a && Relative(js[k].specifier) && ThroughImport(d, entry, js[k], z)
    {
      var i :| i in done && Relative(i.specifier) && ThroughImport(d, entry, i, z);
      var k :| 0 <= k < |done| && done[k] == i;
      assert js[k] == i;
    }
  }

  lemma EntryLoads(d: Disk, entry: string, ms: Modules) returns (n: nat)
    requires IsLoadOrder(d, entry, ms)
    ensures entry in d.files && LoadsAll(d, n, [entry], entry, d.files[entry], PathsOf(ms))
  {
    n := |d.files| - 1;
    assert [] + [entry] == [entry];
  }

  lemma PlacedBy(ms: Modules, loaded: map<string, nat>, mid: seq<string>, p: string, q: string)
    requires mid <= PathsOf(ms) && p in mid && q !in mid && p in loaded && q in loaded
    requires forall r :: r in loaded ==> loaded[r] < |ms| && ms[loaded[r]].path == r
    requires forall i :: 0 <= i < |ms| ==> ms[i].path in loaded && loaded[ms[i].path] == i
    ensures loaded[p] < |mid| <= loaded[q]
  {
    var i :| 0 <= i < |mid| && mid[i] == p;
    assert ms[i].path == p;
    assert forall j :: 0 <= j < |mid| ==> mid[j] in mid && mid[j] == ms[j].path;
  }

  lemma NoSelfEdge(ms: Modules, x: nat)
    requires Acyclic(ms)
    ensures !Edge(ms, x, x)
  {
    assert !IsCycle(ms, [x, x]);
  }

  lemma EarlierNeedsNot(d: Disk, entry: string, ms: Modules, order: seq<nat>, loaded: map<string, nat>,
                        mid: seq<string>, c: nat, a: nat, y: nat)
    requires Indexes(d, entry, ms, loaded) && IsEmissionOrder(ms, order) && Edge(ms, 0, c) && c < |mid| && y < |ms|
    requires mid <= PathsOf(ms) && entry in d.files && a < |d.files[entry]| && ms[0].path == entry
    requires forall z :: z in mid ==>
               z == entry || exists k :: 0 <= k <= a && Relative(d.files[entry][k].specifier) &&
                               ThroughImport(d, entry, d.files[entry][k], z)
    requires forall k :: 0 <= k <= a && Relative(d.files[entry][k].specifier) ==>
               !ThroughImport(d, entry, d.files[entry][k], ms[y].path)
    ensures !StaticallyNeeds(ms, c, y)
  {
    hide Needed;
    assert mid[c] == ms[c].path && mid[c] in mid;
    OrderExcludesCycles(ms, order);
    NoSelfEdge(ms, 0);
    assert FiledAt(d, ms, loaded, 0) && FiledAt(d, ms, loaded, c);
    assert ms[c].path != entry;
    if StaticallyNeeds(ms, c, y) {
      var k :| 0 <= k <= a && Relative(d.files[entry][k].specifier) &&
               ThroughImport(d, entry, d.files[entry][k], ms[c].path);
      StaticIsNeeded(d, entry, ms, loaded, c, y);
      assert Needed(d, d.resolve(entry, d.files[entry][k].specifier).value, ms[c].path);
      NeededThrough(d, d.resolve(entry, d.files[entry][k].specifier).value, ms[c].path, ms[y].path);
    }
  }
}
