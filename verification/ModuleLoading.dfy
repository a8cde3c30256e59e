/**
 How the module graph is built: modules are loaded depth first, an index is reserved before the
 imports are followed so that back edges can refer to it, and the edges are filled in last.
 */
module ModuleLoading {
  import opened Wrappers
  import opened ModuleOrder

  /** An import as the parser reports it. */
  datatype Import = Import(specifier: string, isRuntime: bool, isStatic: bool)

  /** Readable, parsable files with their imports, and relative resolution. */
  datatype Disk = Disk(files: map<string, seq<Import>>, resolve: (string, string) -> Option<string>)

  predicate Relative(specifier: string) { |specifier| > 0 && specifier[0] == '.' }

  /** `p` imports `q` relatively. */
  ghost predicate Imports(d: Disk, p: string, q: string) {
    p in d.files && exists i :: i in d.files[p] && Relative(i.specifier) && d.resolve(p, i.specifier) == Some(q)
  }

  ghost predicate ClosedPaths(d: Disk, entry: string, t: iset<string>) {
    entry in t && forall p, q :: p in t && Imports(d, p, q) ==> q in t
  }

  /** `p` belongs to every set that holds the entry and is closed under imports. */
  ghost predicate Needed(d: Disk, entry: string, p: string) {
    forall t: iset<string> :: ClosedPaths(d, entry, t) ==> p in t
  }

  /** `p` can be read and all its relative imports resolve. */
  ghost predicate Sound(d: Disk, p: string) {
    p in d.files && forall i :: i in d.files[p] && Relative(i.specifier) ==> d.resolve(p, i.specifier).Some?
  }

  lemma NeededNext(d: Disk, entry: string, p: string, q: string)
    requires Needed(d, entry, p) && Imports(d, p, q)
    ensures Needed(d, entry, q)
  {
  }

  lemma ImportNeeded(d: Disk, entry: string, p: string, i: Import)
    requires Needed(d, entry, p) && p in d.files && i in d.files[p] && Relative(i.specifier)
    requires d.resolve(p, i.specifier).Some?
    ensures Needed(d, entry, d.resolve(p, i.specifier).value)
  {
    NeededNext(d, entry, p, d.resolve(p, i.specifier).value);
  }

  lemma Unsound(d: Disk, p: string)
    ensures p !in d.files ==> !Sound(d, p)
    ensures p in d.files ==>
              forall i :: i in d.files[p] && Relative(i.specifier) && d.resolve(p, i.specifier).None? ==> !Sound(d, p)
  {
  }

  // ---- edges --------------------------------------------------------------------------

  /** The targets of the relative imports among `js` that `pick` selects. */
  ghost function Targets(d: Disk, loaded: map<string, nat>, p: string, js: seq<Import>,
                         pick: Import -> bool): set<nat> {
    set i | i in js && Relative(i.specifier) && pick(i) && Follows(d, loaded, p, i.specifier) ::
      loaded[d.resolve(p, i.specifier).value]
  }

  ghost predicate Follows(d: Disk, loaded: map<string, nat>, p: string, specifier: string) {
    d.resolve(p, specifier).Some? && d.resolve(p, specifier).value in loaded
  }

  ghost predicate AllFollow(d: Disk, loaded: map<string, nat>, p: string, js: seq<Import>) {
    forall i :: i in js && Relative(i.specifier) ==> Follows(d, loaded, p, i.specifier)
  }

  /** The recorded edges of `m`, loaded from `p`, are exactly its imports `js`. */
  ghost predicate EdgesOf(d: Disk, loaded: map<string, nat>, m: Module, p: string, js: seq<Import>) {
    && AllFollow(d, loaded, p, js)
    && m.statics == Targets(d, loaded, p, js, (i: Import) => i.isStatic)
    && m.runtimes == Targets(d, loaded, p, js, (i: Import) => i.isRuntime)
    && m.dependencies.Keys == (set i | i in js && Relative(i.specifier) :: i.specifier)
    && (forall s :: s in m.dependencies ==>
         Follows(d, loaded, p, s) && m.dependencies[s] == loaded[d.resolve(p, s).value])
  }

  lemma EdgesPersist(d: Disk, before: map<string, nat>, loaded: map<string, nat>, m: Module, p: string, js: seq<Import>)
    requires EdgesOf(d, before, m, p, js) && Extends(before, loaded)
    ensures EdgesOf(d, loaded, m, p, js)
  {
    TargetsPersist(d, before, loaded, p, js, (i: Import) => i.isStatic);
    TargetsPersist(d, before, loaded, p, js, (i: Import) => i.isRuntime);
  }

  lemma TargetsPersist(d: Disk, before: map<string, nat>, loaded: map<string, nat>, p: string, js: seq<Import>,
                       pick: Import -> bool)
    requires AllFollow(d, before, p, js) && Extends(before, loaded)
    ensures Targets(d, before, p, js, pick) == Targets(d, loaded, p, js, pick)
  {
    forall i | i in js && Relative(i.specifier)
      ensures Follows(d, before, p, i.specifier) && Follows(d, loaded, p, i.specifier)
           && before[d.resolve(p, i.specifier).value] == loaded[d.resolve(p, i.specifier).value]
    {
    }
  }

  ghost predicate Extends(a: map<string, nat>, b: map<string, nat>) {
    forall p :: p in a ==> p in b && b[p] == a[p]
  }

  lemma EdgesNone(d: Disk, loaded: map<string, nat>, p: string)
    ensures EdgesOf(d, loaded, Module(p, {}, {}, map[]), p, [])
  {
  }

  lemma TargetsGrow(d: Disk, loaded: map<string, nat>, p: string, js: seq<Import>, i: Import, pick: Import -> bool)
    requires Relative(i.specifier) && Follows(d, loaded, p, i.specifier)
    ensures Targets(d, loaded, p, js + [i], pick)
         == Targets(d, loaded, p, js, pick) + if pick(i) then {loaded[d.resolve(p, i.specifier).value]} else {}
  {
    var more := js + [i];
    assert forall j :: j in more <==> j in js || j == i;
  }

  /** Following one more import. */
  lemma EdgesGrow(d: Disk, loaded: map<string, nat>, m: Module, p: string, js: seq<Import>, i: Import, n: nat)
    requires EdgesOf(d, loaded, m, p, js) && Relative(i.specifier) && Follows(d, loaded, p, i.specifier)
    requires n == loaded[d.resolve(p, i.specifier).value]
    ensures EdgesOf(d, loaded, Linked(m, i, n), p, js + [i])
  {
    var more := js + [i];
    assert forall j :: j in more <==> j in js || j == i;
    TargetsGrow(d, loaded, p, js, i, (j: Import) => j.isStatic);
    TargetsGrow(d, loaded, p, js, i, (j: Import) => j.isRuntime);
    assert (set j | j in more && Relative(j.specifier) :: j.specifier)
        == (set j | j in js && Relative(j.specifier) :: j.specifier) + {i.specifier};
  }

  lemma EdgesSkip(d: Disk, loaded: map<string, nat>, m: Module, p: string, js: seq<Import>, i: Import)
    requires EdgesOf(d, loaded, m, p, js) && !Relative(i.specifier)
    ensures EdgesOf(d, loaded, m, p, js + [i])
  {
    var more := js + [i];
    assert forall j :: j in more && Relative(j.specifier) <==> j in js && Relative(j.specifier);
    assert Targets(d, loaded, p, more, (j: Import) => j.isStatic) ==
           Targets(d, loaded, p, js, (j: Import) => j.isStatic);
    assert Targets(d, loaded, p, more, (j: Import) => j.isRuntime) ==
           Targets(d, loaded, p, js, (j: Import) => j.isRuntime);
  }

  function Linked(m: Module, i: Import, n: nat): Module {
    m.(statics := m.statics + if i.isStatic then {n} else {},
       runtimes := m.runtimes + if i.isRuntime then {n} else {},
       dependencies := m.dependencies[i.specifier := n])
  }

  // ---- in which order -----------------------------------------------------------------

  /** Loading `p` when the paths `before` are loaded gives `after`: nothing new if `p` is there,
      else `p` first and then what its imports need, import by import; at most `n` deep. */
  ghost predicate Loads(d: Disk, n: nat, before: seq<string>, p: string, after: seq<string>)
    decreases n, 0
  {
    if p in before then after == before
    else n > 0 && p in d.files && LoadsAll(d, n - 1, before + [p], p, d.files[p], after)
  }

  /** The imports `js` of `p`, in turn. */
  ghost predicate LoadsAll(d: Disk, n: nat, before: seq<string>, p: string, js: seq<Import>, after: seq<string>)
    decreases n, 1, |js|, 1
  {
    if js == [] then after == before
    else exists mid: seq<string> :: LoadsLast(d, n, before, p, js, mid, after)
  }

  ghost predicate LoadsLast(d: Disk, n: nat, before: seq<string>, p: string, js: seq<Import>, mid: seq<string>,
                            after: seq<string>)
    requires js != []
    decreases n, 1, |js|, 0
  {
    LoadsAll(d, n, before, p, js[..|js| - 1], mid) && LoadsOne(d, n, mid, p, js[|js| - 1], after)
  }

  ghost predicate LoadsOne(d: Disk, n: nat, before: seq<string>, p: string, i: Import, after: seq<string>)
    decreases n, 1, 0
  {
    if !Relative(i.specifier) then after == before
    else d.resolve(p, i.specifier).Some? && Loads(d, n, before, d.resolve(p, i.specifier).value, after)
  }

  lemma LoadsNext(d: Disk, n: nat, before: seq<string>, p: string, js: seq<Import>, i: Import, mid: seq<string>,
                  after: seq<string>)
    requires LoadsAll(d, n, before, p, js, mid) && LoadsOne(d, n, mid, p, i, after)
    ensures LoadsAll(d, n, before, p, js + [i], after)
  {
    assert (js + [i])[..|js|] == js;
    assert LoadsLast(d, n, before, p, js + [i], mid, after);
  }

  /** A deeper bound allows no less. */
  lemma {:induction false} LoadsDeeper(d: Disk, n: nat, m: nat, before: seq<string>, p: string, after: seq<string>)
    requires n <= m && Loads(d, n, before, p, after)
    ensures Loads(d, m, before, p, after)
    decreases n, 0
  {
    if p !in before {
      LoadsAllDeeper(d, n - 1, m - 1, before + [p], p, d.files[p], after);
    }
  }

  lemma {:induction false} LoadsAllDeeper(d: Disk, n: nat, m: nat, before: seq<string>, p: string, js: seq<Import>,
                                          after: seq<string>)
    requires n <= m && LoadsAll(d, n, before, p, js, after)
    ensures LoadsAll(d, m, before, p, js, after)
    decreases n, 1, |js|
  {
    if js != [] {
      var mid: seq<string> :| LoadsLast(d, n, before, p, js, mid, after);
      LoadsAllDeeper(d, n, m, before, p, js[..|js| - 1], mid);
      var i := js[|js| - 1];
      assert LoadsOne(d, n, mid, p, i, after);
      if Relative(i.specifier) {
        LoadsDeeper(d, n, m, mid, d.resolve(p, i.specifier).value, after);
      }
      assert LoadsLast(d, m, before, p, js, mid, after);
    }
  }

  /** There is only one such order. */
  lemma {:induction false} LoadsOnce(d: Disk, n: nat, before: seq<string>, p: string, a: seq<string>, b: seq<string>)
    requires Loads(d, n, before, p, a) && Loads(d, n, before, p, b)
    ensures a == b
    decreases n, 0
  {
    if p !in before {
      LoadsAllOnce(d, n - 1, before + [p], p, d.files[p], a, b);
    }
  }

  lemma {:induction false} LoadsAllOnce(d: Disk, n: nat, before: seq<string>, p: string, js: seq<Import>,
                                        a: seq<string>, b: seq<string>)
    requires LoadsAll(d, n, before, p, js, a) && LoadsAll(d, n, before, p, js, b)
    ensures a == b
    decreases n, 1, |js|
  {
    if js != [] {
      var e: seq<string> :| LoadsLast(d, n, before, p, js, e, a);
      var f: seq<string> :| LoadsLast(d, n, before, p, js, f, b);
      LoadsAllOnce(d, n, before, p, js[..|js| - 1], e, f);
      var i := js[|js| - 1];
      assert LoadsOne(d, n, e, p, i, a) && LoadsOne(d, n, f, p, i, b);
      if Relative(i.specifier) {
        LoadsOnce(d, n, e, d.resolve(p, i.specifier).value, a, b);
      }
    }
  }

  lemma Unlinked(d: Disk, n: nat, before: seq<string>, p: string, i: Import)
    ensures !Relative(i.specifier) ==> LoadsOne(d, n, before, p, i, before)
  {
  }

  lemma Linking(d: Disk, n: nat, before: seq<string>, p: string, i: Import, after: seq<string>)
    requires Relative(i.specifier) && d.resolve(p, i.specifier).Some?
    requires Loads(d, n, before, d.resolve(p, i.specifier).value, after)
    ensures LoadsOne(d, n, before, p, i, after)
  {
  }

  lemma LoadsNothing(d: Disk, n: nat, before: seq<string>, p: string, js: seq<Import>)
    ensures LoadsAll(d, n, before, p, js[..0], before)
  {
  }

  lemma LoadsKnown(d: Disk, n: nat, before: seq<string>, p: string)
    ensures p in before ==> Loads(d, n, before, p, before)
  {
  }

  lemma LoadsModule(d: Disk, n: nat, before: seq<string>, p: string, first: seq<string>, after: seq<string>)
    requires p !in before && n > 0 && p in d.files && first == before + [p]
    requires LoadsAll(d, n - 1, first, p, d.files[p], after)
    ensures Loads(d, n, before, p, after)
  {
  }

  lemma {:induction false} SmallerSet<T>(a: set<T>, b: set<T>)
    requires a <= b
    ensures |a| <= |b| && (a < b ==> |a| < |b|)
  {
    assert b == a + (b - a);
    if a < b {
      var x :| x in b - a;
    }
  }

  lemma ExtendsItself(a: map<string, nat>)
    ensures Extends(a, a)
  {
  }

  lemma ExtendsTwice(a: map<string, nat>, b: map<string, nat>, c: map<string, nat>)
    requires Extends(a, b) && Extends(b, c)
    ensures Extends(a, c)
  {
  }

  lemma PathsPush(ms: Modules, m: Module)
    ensures PathsOf(ms + [m]) == PathsOf(ms) + [m.path]
  {
  }

  lemma PathsUpdate(ms: Modules, i: nat, m: Module)
    requires i < |ms| && ms[i].path == m.path
    ensures PathsOf(ms[i := m]) == PathsOf(ms)
  {
  }

  function PathsOf(ms: Modules): (r: seq<string>)
    ensures |r| == |ms| && forall i :: 0 <= i < |ms| ==> r[i] == ms[i].path
  {
    seq(|ms|, i requires 0 <= i < |ms| => ms[i].path)
  }

  /** The modules stand in the order in which a walk along the imports first meets them. */
  ghost predicate IsLoadOrder(d: Disk, entry: string, ms: Modules) {
    Loads(d, |d.files|, [], entry, PathsOf(ms))
  }

  // ---- loading ------------------------------------------------------------------------

  class Loader {
    const d: Disk
    const entry: string
    var modules: Modules
    var loaded: map<string, nat>

    constructor (d: Disk, entry: string)
      ensures this.d == d && this.entry == entry && modules == [] && loaded == map[]
    {
      this.d, this.entry := d, entry;
      modules, loaded := [], map[];
    }

    /** One module per path, every path readable and needed. */
    ghost predicate Valid()
      reads this
    {
      && (forall p :: p in loaded ==>
           loaded[p] < |modules| && modules[loaded[p]].path == p && p in d.files && Needed(d, entry, p))
      && (forall i :: 0 <= i < |modules| ==> modules[i].path in loaded && loaded[modules[i].path] == i)
    }

    /** The modules from index `n` on have their edges. */
    ghost predicate FilledIn(n: nat)
      reads this
    {
      forall i :: n <= i < |modules| ==>
        modules[i].path in d.files && EdgesOf(d, loaded, modules[i], modules[i].path, d.files[modules[i].path])
    }

    ghost function Unloaded(): set<string>
      reads this
    {
      d.files.Keys - loaded.Keys
    }

    /** Loads `path` and everything it needs; an error means something needed is unsound. */
    method Load(path: string) returns (r: Result<nat, string>)
      requires Valid() && Needed(d, entry, path)
      modifies this
      ensures r.Err? ==> Needed(d, entry, r.error) && !Sound(d, r.error)
      ensures r.Ok? ==> Valid() && path in loaded && loaded[path] == r.value
      ensures r.Ok? && path !in old(loaded) ==> r.value == |old(modules)|
      ensures r.Ok? ==> old(modules) <= modules && Extends(old(loaded), loaded) && FilledIn(|old(modules)|)
      ensures r.Ok? ==> Unloaded() <= old(Unloaded())
      ensures r.Ok? ==> Loads(d, |old(Unloaded())|, PathsOf(old(modules)), path, PathsOf(modules))
      decreases Unloaded(), 0
    {
      hide *;
      LoadedIsListed();
      Unsound(d, path);
      LoadsKnown(d, |Unloaded()|, PathsOf(modules), path);
      if path in loaded {
        return Ok(loaded[path]);
      }
      if path !in d.files {
        return Err(path);
      }
      var index := |modules|;
      var blank := Module(path, {}, {}, map[]);
      ghost var before := PathsOf(modules);
      Reserve(blank);
      LoadedIsListed();
      EdgesNone(d, loaded, path);
      SmallerSet(Unloaded(), old(Unloaded()));
      PathsPush(old(modules), blank);
      ghost var room, reserved := |old(Unloaded())| - 1, loaded;
      var m := LoadImports(index, blank, room);
      if m.Err? {
        return Err(m.error);
      }
      ghost var after := PathsOf(modules);
      PathsUpdate(modules, index, m.value);
      ExtendsTwice(old(loaded), reserved, loaded);
      Install(index, m.value);
      LoadsModule(d, room + 1, before, path, before + [path], after);
      return Ok(index);
    }

    /** The loaded paths are those of the modules. */
    lemma LoadedIsListed()
      requires Valid()
      ensures forall p :: p in loaded <==> p in PathsOf(modules)
      ensures FilledIn(|modules|) && Extends(loaded, loaded)
    {
      forall p ensures p in loaded <==> p in PathsOf(modules) {
        if p in loaded {
          assert PathsOf(modules)[loaded[p]] == p;
        }
      }
    }

    /** Follows the imports of `blank`, which has its index reserved. */
    method LoadImports(index: nat, blank: Module, ghost room: nat) returns (r: Result<Module, string>)
      requires Valid() && Needed(d, entry, blank.path) && blank.path in d.files && index < |modules|
      requires EdgesOf(d, loaded, blank, blank.path, []) && FilledIn(index + 1) && |Unloaded()| <= room
      modifies this
      ensures r.Err? ==> Needed(d, entry, r.error) && !Sound(d, r.error)
      ensures r.Ok? ==> Valid() && old(modules) <= modules && Extends(old(loaded), loaded) && FilledIn(index + 1)
      ensures r.Ok? ==> r.value.path == blank.path && EdgesOf(d, loaded, r.value, blank.path, d.files[blank.path])
      ensures r.Ok? ==> Unloaded() <= old(Unloaded())
      ensures r.Ok? ==> LoadsAll(d, room, PathsOf(old(modules)), blank.path, d.files[blank.path], PathsOf(modules))
      decreases Unloaded(), 2
    {
      hide *;
      var m, imports := blank, d.files[blank.path];
      ghost var start := loaded;
      ExtendsItself(loaded);
      ghost var first, unloaded := PathsOf(modules), Unloaded();
      LoadsNothing(d, room, first, blank.path, imports);
      for k := 0 to |imports|
        invariant Valid() && Extends(start, loaded) && old(modules) <= modules && Unloaded() <= unloaded
        invariant m.path == blank.path && EdgesOf(d, loaded, m, blank.path, imports[..k]) && FilledIn(index + 1)
        invariant LoadsAll(d, room, first, blank.path, imports[..k], PathsOf(modules))
      {
        assert imports[..k + 1] == imports[..k] + [imports[k]];
        ghost var mid, reached := PathsOf(modules), loaded;
        SmallerSet(Unloaded(), unloaded);
        var next := Follow(index, m, imports[..k], imports[k], room);
        if next.Err? {
          return Err(next.error);
        }
        m := next.value;
        ExtendsTwice(start, reached, loaded);
        LoadsNext(d, room, first, blank.path, imports[..k], imports[k], mid, PathsOf(modules));
      }
      assert imports[..|imports|] == imports;
      return Ok(m);
    }

    /** Follows one more import of `m`, after those in `done`. */
    method Follow(index: nat, m: Module, ghost done: seq<Import>, i: Import, ghost room: nat)
      returns (r: Result<Module, string>)
      requires Valid() && Needed(d, entry, m.path) && m.path in d.files && i in d.files[m.path]
      requires index < |modules| && EdgesOf(d, loaded, m, m.path, done) && FilledIn(index + 1)
      requires |Unloaded()| <= room
      modifies this
      ensures r.Err? ==> Needed(d, entry, r.error) && !Sound(d, r.error)
      ensures r.Ok? ==> Valid() && old(modules) <= modules && Extends(old(loaded), loaded) && FilledIn(index + 1)
      ensures r.Ok? ==> r.value.path == m.path && EdgesOf(d, loaded, r.value, m.path, done + [i])
      ensures r.Ok? ==> Unloaded() <= old(Unloaded())
      ensures r.Ok? ==> LoadsOne(d, room, PathsOf(old(modules)), m.path, i, PathsOf(modules))
      decreases Unloaded(), 1
    {
      hide EdgesOf, Needed, Loads, LoadsAll, LoadsOne, LoadsLast, Sound, PathsOf, Imports, AllFollow, Targets;
      Unsound(d, m.path);
      Unlinked(d, room, PathsOf(modules), m.path, i);
      LoadedIsListed();
      if !Relative(i.specifier) {
        EdgesSkip(d, loaded, m, m.path, done, i);
        return Ok(m);
      }
      var target := d.resolve(m.path, i.specifier);
      if target.None? {
        return Err(m.path);
      }
      ImportNeeded(d, entry, m.path, i);
      var n := Load(target.value);
      if n.Err? {
        return Err(n.error);
      }
      LoadsDeeper(d, |old(Unloaded())|, room, PathsOf(old(modules)), target.value, PathsOf(modules));
      Linking(d, room, PathsOf(old(modules)), m.path, i, PathsOf(modules));
      StillFilled(old(loaded), index + 1, |old(modules)|);
      EdgesPersist(d, old(loaded), loaded, m, m.path, done);
      EdgesGrow(d, loaded, m, m.path, done, i, n.value);
      return Ok(Linked(m, i, n.value));
    }

    method Reserve(blank: Module)
      requires Valid() && blank.path in d.files && blank.path !in loaded && Needed(d, entry, blank.path)
      modifies this
      ensures Valid() && modules == old(modules) + [blank] && loaded == old(loaded)[blank.path := |old(modules)|]
      ensures Unloaded() < old(Unloaded())
    {
      assert blank.path in Unloaded();
      modules := modules + [blank];
      loaded := loaded[blank.path := |modules| - 1];
      assert blank.path !in Unloaded();
    }

    method Install(index: nat, m: Module)
      requires Valid() && index < |modules| && modules[index].path == m.path && m.path in d.files
      requires EdgesOf(d, loaded, m, m.path, d.files[m.path]) && FilledIn(index + 1)
      modifies this`modules
      ensures Valid() && modules == old(modules)[index := m] && FilledIn(index) && Unloaded() == old(Unloaded())
    {
      modules := modules[index := m];
    }

    /** Modules filled in earlier stay filled in when more are loaded. */
    lemma StillFilled(before: map<string, nat>, n: nat, count: nat)
      requires n <= count <= |modules| && FilledIn(count) && Extends(before, loaded)
      requires forall i :: n <= i < count ==>
                 && modules[i].path in d.files
                 && EdgesOf(d, before, modules[i], modules[i].path, d.files[modules[i].path])
      ensures FilledIn(n)
    {
      forall i | n <= i < |modules|
        ensures modules[i].path in d.files && EdgesOf(d, loaded, modules[i], modules[i].path, d.files[modules[i].path])
      {
        if i < count {
          EdgesPersist(d, before, loaded, modules[i], modules[i].path, d.files[modules[i].path]);
        }
      }
    }
  }

  /** Loads a whole program: succeeds exactly when everything needed is sound, and then holds one
      module for each needed path, with exactly the edges its imports name. */
  method LoadProgram(d: Disk, entry: string) returns (r: Result<Modules, string>)
    ensures r.Ok? <==> forall p :: Needed(d, entry, p) ==> Sound(d, p)
    ensures r.Err? ==> Needed(d, entry, r.error) && !Sound(d, r.error)
    ensures r.Ok? ==> WellFormed(r.value) && Describes(d, entry, r.value) && IsLoadOrder(d, entry, r.value)
  {
    var l := new Loader(d, entry);
    SmallerSet(l.Unloaded(), d.files.Keys);
    ghost var room := |l.Unloaded()|;
    var e := l.Load(entry);
    if e.Err? {
      return Err(e.error);
    }
    WholeProgram(d, entry, l.modules, l.loaded);
    assert PathsOf([]) == [];
    LoadsDeeper(d, room, |d.files|, [], entry, PathsOf(l.modules));
    return Ok(l.modules);
  }

  /** Module `i` is the one loaded from its path, with its edges. */
  ghost predicate FiledAt(d: Disk, ms: Modules, loaded: map<string, nat>, i: nat) {
    && i < |ms| && ms[i].path in loaded && loaded[ms[i].path] == i && ms[i].path in d.files
    && EdgesOf(d, loaded, ms[i], ms[i].path, d.files[ms[i].path])
  }

  /** `loaded` indexes exactly the needed paths, and every module has its edges. */
  ghost predicate Indexes(d: Disk, entry: string, ms: Modules, loaded: map<string, nat>) {
    && (forall p :: p in loaded <==> Needed(d, entry, p))
    && (forall p :: p in loaded ==> loaded[p] < |ms| && ms[loaded[p]].path == p)
    && (forall i :: 0 <= i < |ms| ==> FiledAt(d, ms, loaded, i))
  }

  lemma WholeProgram(d: Disk, entry: string, ms: Modules, loaded: map<string, nat>)
    requires entry in loaded
    requires forall p :: p in loaded ==>
               loaded[p] < |ms| && ms[loaded[p]].path == p && p in d.files && Needed(d, entry, p)
    requires forall i :: 0 <= i < |ms| ==> FiledAt(d, ms, loaded, i)
    ensures Indexes(d, entry, ms, loaded) && WellFormed(ms)
    ensures forall p :: Needed(d, entry, p) ==> Sound(d, p)
  {
    var t := iset p | p in loaded;
    assert ClosedPaths(d, entry, t) by {
      forall p, q | p in t && Imports(d, p, q) ensures q in t {
        var i :| i in d.files[p] && Relative(i.specifier) && d.resolve(p, i.specifier) == Some(q);
        assert FiledAt(d, ms, loaded, loaded[p]);
        assert Follows(d, loaded, p, i.specifier);
      }
    }
    forall i, n | 0 <= i < |ms| && (n in ms[i].statics || n in ms[i].runtimes) ensures n < |ms| {
      assert FiledAt(d, ms, loaded, i);
    }
    forall p | Needed(d, entry, p) ensures p in loaded && Sound(d, p) {
      assert p in t;
      assert FiledAt(d, ms, loaded, loaded[p]);
      forall i | i in d.files[p] && Relative(i.specifier) ensures d.resolve(p, i.specifier).Some? {
        assert Follows(d, loaded, p, i.specifier);
      }
    }
  }

  ghost predicate Describes(d: Disk, entry: string, ms: Modules) {
    && |ms| > 0 && ms[0].path == entry
    && exists loaded :: Indexes(d, entry, ms, loaded)
  }
}
