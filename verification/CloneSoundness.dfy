/**
 The judgement is sound: running judged code never reads a watched array out of bounds, never
 changes a watched cell, and never lets a reference to one escape.
 */
module CloneSoundness {
  import opened Wrappers
  import opened CloneSyntax
  import opened CloneJudgement
  import opened CloneSemantics

  /** One activation: its judgement context, the heap it was entered with, and the location each
      container parameter is bound to.  `levels(d)` are the passes allowed `d` calls deep. */
  datatype Frame = Frame(c: Ctx, w: World, heap0: Heap, bind: map<string, nat>, levels: nat -> iset<(string, nat)>,
                         depth: nat)

  ghost predicate Clean(w: World, v: Value) { v.Ref? ==> v.loc !in w.watched }

  ghost predicate CleanAll(w: World, vs: seq<Value>) { forall i :: 0 <= i < |vs| ==> Clean(w, vs[i]) }

  ghost predicate CleanCell(w: World, cell: Cell) {
    match cell
    case Arr(elems) => CleanAll(w, elems)
    case Rec(fields) => forall f :: f in fields ==> Clean(w, fields[f])
  }

  /** A container: an array of primitives, or a record whose references are its array fields. */
  ghost predicate ContainerCell(w: World, fields: set<string>, cell: Cell) {
    match cell
    case Arr(elems) => forall i :: 0 <= i < |elems| ==> !elems[i].Ref?
    case Rec(fs) => forall f :: f in fs && fs[f].Ref? ==> f in fields && fs[f].loc in w.watched
  }

  ghost predicate HeapOk(k: Frame, heap: Heap) {
    && |k.heap0| <= |heap|
    && (forall l :: l in k.w.watched ==> l < |k.heap0| && heap[l] == k.heap0[l])
    && (forall l :: 0 <= l < |heap| && l !in k.w.watched ==> CleanCell(k.w, heap[l]))
  }

  ghost predicate FrameOk(k: Frame) {
    && k.bind.Keys == k.c.names
    && (forall p :: p in k.bind ==> k.bind[p] in k.w.watched)
    && (forall l :: l in k.w.watched ==> l < |k.heap0| && ContainerCell(k.w, k.c.fields, k.heap0[l]))
    && k.c.passes == k.levels(k.depth) && (k.w.every ==> k.c.strict)
    && HelpersOk(k.w.prog, k.c.fields, k.levels) && QuietOk(k.w.prog, k.w.quiet)
  }

  ghost predicate IsArray(k: Frame, p: string)
    requires FrameOk(k)
  {
    p in k.bind && k.heap0[k.bind[p]].Arr?
  }

  ghost function Len(k: Frame, p: string): nat
    requires FrameOk(k) && IsArray(k, p)
  {
    |k.heap0[k.bind[p]].elems|
  }

  ghost predicate EnvOk(k: Frame, safe: Pairs, nonempty: set<string>, env: Env)
    requires FrameOk(k)
  {
    && (forall p :: p in k.bind ==> p in env && env[p] == Ref(k.bind[p]))
    && (forall x :: x in env && x !in k.bind ==> Clean(k.w, env[x]))
    && (forall p, i :: (p, i) in safe && IsArray(k, p) ==> i in env && IndexValue(env[i], Len(k, p)))
    && (forall p :: p in nonempty && IsArray(k, p) ==> Len(k, p) > 0)
    && (forall n :: n in k.c.aliases ==> n in env)
    && (forall n :: n in k.c.aliases && n in env && IsArray(k, k.c.aliases[n]) ==>
          env[n] == Undef || env[n] == Number(Len(k, k.c.aliases[n]) as real))
  }

  /** `v` is an element number of an array of length `n`. */
  predicate IndexValue(v: Value, n: nat) {
    v.Number? && v.r == v.r.Floor as real && 0 <= v.r.Floor < n
  }

  ghost predicate StateOk(k: Frame, safe: Pairs, nonempty: set<string>, st: State) {
    FrameOk(k) && EnvOk(k, safe, nonempty, st.env) && HeapOk(k, st.heap)
  }

  /** The positions of `f` in `at` may take containers, and then its body is judged. */
  ghost predicate HelperOk(prog: Program, fields: set<string>, levels: nat -> iset<(string, nat)>, d: nat, f: string,
                           at: set<nat>) {
    f in prog && at != {} ==>
      && d > 0 && Distinct(prog[f].params)
      && (forall j :: j in at ==> j < |prog[f].params|)
      && exists c :: CalleeCtx(c, prog[f], fields, levels, d, at) && ListOk(c, {}, prog[f].body)
  }

  ghost predicate CalleeCtx(c: Ctx, f: Func, fields: set<string>, levels: nat -> iset<(string, nat)>, d: nat,
                            at: set<nat>) {
    d > 0 && c.fields == fields && c.passes == levels(d - 1)
    && c.strict && (forall x :: x in f.params ==> x !in c.aliases)
    && (forall n :: n in c.aliases ==> n in Locals(f.body))
    && c.names == (set j | j in at && j < |f.params| :: f.params[j])
  }

  ghost predicate HelpersOk(prog: Program, fields: set<string>, levels: nat -> iset<(string, nat)>) {
    forall d, f, at {:trigger HelperOk(prog, fields, levels, d, f, at)} ::
         (forall j :: j in at ==> (f, j) in levels(d)) ==> HelperOk(prog, fields, levels, d, f, at)
  }

  /** Quiet functions are judged without containers: they read no element at all. */
  ghost predicate QuietOk(prog: Program, quiet: set<string>) {
    forall f :: f in quiet && f in prog ==> JudgedQuiet(prog[f])
  }

  ghost predicate JudgedQuiet(f: Func) {
    exists b: Ctx :: b.names == {} && b.strict && ListOk(b, {}, f.body)
  }

  /** What every evaluation promises. */
  ghost predicate Sound(k: Frame, safe: Pairs, nonempty: set<string>, r: Result_) {
    && !r.out.OutOfBounds?
    && StateOk(k, safe, nonempty, r.st)
    && (r.out.Normal? || r.out.Returned? ==> Clean(k.w, r.out.v))
  }

  // ---- heap steps ---------------------------------------------------------------------

  /** `r` goes on from `st` with a clean value and nothing changed but the tick. */
  ghost predicate Still(w: World, st: State, r: Result_) {
    && r.st.env == st.env && r.st.heap == st.heap && !r.out.OutOfBounds? && !r.out.Returned?
    && (r.out.Normal? ==> Clean(w, r.out.v))
  }

  lemma StillSound(k: Frame, safe: Pairs, nonempty: set<string>, st: State, r: Result_)
    requires StateOk(k, safe, nonempty, st) && Still(k.w, st, r)
    ensures Sound(k, safe, nonempty, r)
  {
  }

  lemma AskStill(w: World, st: State, what: string, args: seq<Value>)
    ensures Still(w, st, Ask(w, st, what, args)) && Ask(w, st, what, args).out.Normal?
  {
  }

  lemma AskSound(k: Frame, safe: Pairs, nonempty: set<string>, st: State, what: string, args: seq<Value>)
    requires StateOk(k, safe, nonempty, st)
    ensures Sound(k, safe, nonempty, Ask(k.w, st, what, args))
  {
    AskStill(k.w, st, what, args);
    StillSound(k, safe, nonempty, st, Ask(k.w, st, what, args));
  }

  lemma FieldIsClean(k: Frame, st: State, v: Value, f: string)
    requires FrameOk(k) && HeapOk(k, st.heap) && f !in k.c.fields
    ensures Still(k.w, st, GetField(k.w, st, v, f))
  {
    if v.Ref? && v.loc < |st.heap| {
      if v.loc in k.w.watched {
        assert ContainerCell(k.w, k.c.fields, k.heap0[v.loc]);
      } else {
        assert CleanCell(k.w, st.heap[v.loc]);
      }
    }
  }

  lemma CleanFieldIsClean(k: Frame, st: State, v: Value, f: string)
    requires HeapOk(k, st.heap) && Clean(k.w, v)
    ensures Still(k.w, st, GetField(k.w, st, v, f))
  {
    if v.Ref? && v.loc < |st.heap| {
      assert CleanCell(k.w, st.heap[v.loc]);
    }
  }

  lemma PutKeepsHeap(k: Frame, st: State, v: Value, i: Value, f: string, x: Value)
    requires HeapOk(k, st.heap) && Clean(k.w, v) && Clean(k.w, x)
    ensures HeapOk(k, PutField(st, v, f, x).st.heap) && PutField(st, v, f, x).st.env == st.env
    ensures HeapOk(k, PutElement(st, v, i, x).st.heap) && PutElement(st, v, i, x).st.env == st.env
  {
    if v.Ref? && v.loc < |st.heap| {
      assert CleanCell(k.w, st.heap[v.loc]);
    }
  }

  lemma CleanElement(k: Frame, st: State, v: Value, i: Value)
    requires HeapOk(k, st.heap) && Clean(k.w, v) && !k.w.every
    ensures Still(k.w, st, GetElement(k.w, st, v, i))
  {
    if v.Ref? && v.loc < |st.heap| {
      assert CleanCell(k.w, st.heap[v.loc]);
    }
  }

  lemma WatchedElement(k: Frame, st: State, p: string, i: Value)
    requires FrameOk(k) && HeapOk(k, st.heap) && p in k.bind
    requires IsArray(k, p) ==> IndexValue(i, Len(k, p))
    ensures Still(k.w, st, GetElement(k.w, st, Ref(k.bind[p]), i))
  {
    var l := k.bind[p];
    assert ContainerCell(k.w, k.c.fields, k.heap0[l]);
  }

  lemma InvokeKeeps(k: Frame, st: State, v: Value, m: string, args: seq<Value>)
    requires FrameOk(k) && HeapOk(k, st.heap) && CleanAll(k.w, args)
    requires Clean(k.w, v) || IsPureMethod(m)
    ensures var r := Invoke(k.w, st, v, m, args);
            && HeapOk(k, r.st.heap) && r.st.env == st.env && !r.out.OutOfBounds? && !r.out.Returned?
            && (r.out.Normal? ==> Clean(k.w, r.out.v))
  {
    var elems := if v.Ref? && v.loc < |st.heap| && st.heap[v.loc].Arr? then st.heap[v.loc].elems else [];
    assert CleanAll(k.w, elems) by {
      if v.Ref? && v.loc < |st.heap| {
        if v.loc in k.w.watched {
          assert ContainerCell(k.w, k.c.fields, k.heap0[v.loc]);
        } else {
          assert CleanCell(k.w, st.heap[v.loc]);
        }
      }
    }
    var allowed := elems + args;
    var a := k.w.builtins(m, elems, args, st.tick);
    assert CleanAll(k.w, allowed);
    assert CleanAll(k.w, SanitizeAll(a.elems, allowed));
    assert Clean(k.w, Sanitize(a.value, allowed));
  }

  // ---- environment steps --------------------------------------------------------------

  lemma SetKeepsEnv(k: Frame, safe: Pairs, nonempty: set<string>, env: Env, x: string, v: Value)
    requires FrameOk(k) && EnvOk(k, safe, nonempty, env) && Writable(k.c, safe, x) && Clean(k.w, v)
    ensures EnvOk(k, safe, nonempty, env[x := v])
  {
    forall p, i | (p, i) in safe ensures i != x {
    }
  }

  // ---- index expressions --------------------------------------------------------------

  lemma {:induction false} EvalStrip(fuel: nat, w: World, st: State, e: Expr)
    ensures Eval(fuel, w, st, e) == Eval(fuel, w, st, Strip(e))
  {
    if e.Paren? {
      EvalStrip(fuel, w, st, e.inner);
    }
  }

  lemma EvalLength(k: Frame, safe: Pairs, nonempty: set<string>, fuel: nat, st: State, e: Expr, p: string)
    requires StateOk(k, safe, nonempty, st) && LengthOf(e) == Some(p) && p in k.bind
    ensures var r := Eval(fuel, k.w, st, e);
            r.st == st && (IsArray(k, p) ==> r.out == Normal(Number(Len(k, p) as real)))
  {
    var m := Strip(e);
    EvalStrip(fuel, k.w, st, e);
    EvalStrip(fuel, k.w, st, m.obj);
    assert Eval(fuel, k.w, st, m.obj) == Result_(Normal(Ref(k.bind[p])), st);
  }

  /** The three index forms denote element numbers. */
  lemma IndexDenotes(k: Frame, safe: Pairs, nonempty: set<string>, fuel: nat, st: State, p: string, i: Expr)
    requires StateOk(k, safe, nonempty, st) && p in k.bind && IsArray(k, p) && InBounds(safe, nonempty, p, i)
    ensures var r := Eval(fuel, k.w, st, i);
            r.st == st && r.out.Normal? && IndexValue(r.out.v, Len(k, p))
  {
    EvalStrip(fuel, k.w, st, i);
    var x := Strip(i);
    if x.Ident? {
      assert (p, x.name) in safe;
    } else if IsNum(x, 0.0) {
      assert x == Strip(x);
    } else {
      EvalLength(k, safe, nonempty, fuel, st, x.left, p);
      EvalStrip(fuel, k.w, st, x.right);
      assert Eval(fuel, k.w, st, x.right) == Result_(Normal(Number(1.0)), st);
      assert Eval(fuel, k.w, st, x).out == Normal(Number((Len(k, p) - 1) as real));
      assert ((Len(k, p) - 1) as real).Floor == Len(k, p) - 1;
    }
  }

  // ---- expressions --------------------------------------------------------------------

  lemma {:induction false} EvalSound(k: Frame, safe: Pairs, nonempty: set<string>, fuel: nat, st: State, e: Expr)
    requires StateOk(k, safe, nonempty, st) && ExprOk(k.c, safe, nonempty, e)
    ensures Sound(k, safe, nonempty, Eval(fuel, k.w, st, e))
    decreases fuel, e, 1
  {
    hide StateOk, HeapOk;
    match e
    case Num(_) =>
    case Ident(x) => IdentSound(k, safe, nonempty, fuel, st, x);
    case Paren(i) => EvalSound(k, safe, nonempty, fuel, st, i);
    case Field(o, f) => FieldSound(k, safe, nonempty, fuel, st, o, f);
    case Index(o, i) =>
      if RootedIn(k.c.names, o) {
        ChainSound(k, safe, nonempty, fuel, st, e);
      } else {
        EvalSound(k, safe, nonempty, fuel, st, o);
        var r := Eval(fuel, k.w, st, o);
        if r.out.Normal? {
          EvalSound(k, safe, nonempty, fuel, r.st, i);
          var q := Eval(fuel, k.w, r.st, i);
          if q.out.Normal? {
            ElementSound(k, safe, nonempty, q.st, r.out.v, q.out.v);
          }
        }
      }
    case Bin(_, a, b) =>
      EvalSound(k, safe, nonempty, fuel, st, a);
      var r := Eval(fuel, k.w, st, a);
      if r.out.Normal? {
        EvalSound(k, safe, nonempty, fuel, r.st, b);
        var q := Eval(fuel, k.w, r.st, b);
        if q.out.Normal? {
          AskSound(k, safe, nonempty, q.st, "op", [r.out.v, q.out.v]);
        }
      }
    case Not(a) => EvalSound(k, safe, nonempty, fuel, st, a);
    case Delete(a) => EvalSound(k, safe, nonempty, fuel, st, a);
    case AssignVar(x, a) =>
      EvalSound(k, safe, nonempty, fuel, st, a);
      var r := Eval(fuel, k.w, st, a);
      if r.out.Normal? {
        SetSound(k, safe, nonempty, r.st, x, r.out.v);
      }
    case AssignField(o, f, a) =>
      EvalSound(k, safe, nonempty, fuel, st, o);
      var r := Eval(fuel, k.w, st, o);
      if r.out.Normal? {
        EvalSound(k, safe, nonempty, fuel, r.st, a);
        var q := Eval(fuel, k.w, r.st, a);
        if q.out.Normal? {
          PutSound(k, safe, nonempty, q.st, r.out.v, Undef, f, q.out.v);
        }
      }
    case AssignIndex(o, i, a) =>
      EvalSound(k, safe, nonempty, fuel, st, o);
      var r := Eval(fuel, k.w, st, o);
      if r.out.Normal? {
        EvalSound(k, safe, nonempty, fuel, r.st, i);
        var q := Eval(fuel, k.w, r.st, i);
        if q.out.Normal? {
          EvalSound(k, safe, nonempty, fuel, q.st, a);
          var t := Eval(fuel, k.w, q.st, a);
          if t.out.Normal? {
            PutSound(k, safe, nonempty, t.st, r.out.v, q.out.v, "", t.out.v);
          }
        }
      }
    case Update(plus, a) => UpdateSound(k, safe, nonempty, fuel, st, plus, a);
    case Call(f, args) => CallSound(k, safe, nonempty, fuel, st, f, args);
    case MethodCall(o, m, args) => MethodSound(k, safe, nonempty, fuel, st, o, m, args);
  }

  lemma FieldSound(k: Frame, safe: Pairs, nonempty: set<string>, fuel: nat, st: State, o: Expr, f: string)
    requires StateOk(k, safe, nonempty, st) && ExprOk(k.c, safe, nonempty, Field(o, f))
    ensures Sound(k, safe, nonempty, Eval(fuel, k.w, st, Field(o, f)))
    decreases fuel, o, 2
  {
    var r := Eval(fuel, k.w, st, o);
    if RootedIn(k.c.names, o) {
      ChainSound(k, safe, nonempty, fuel, st, o);
      if r.out.Normal? {
        FieldIsClean(k, r.st, r.out.v, f);
        StillSound(k, safe, nonempty, r.st, GetField(k.w, r.st, r.out.v, f));
      }
    } else {
      EvalSound(k, safe, nonempty, fuel, st, o);
      if r.out.Normal? {
        CleanFieldIsClean(k, r.st, r.out.v, f);
        StillSound(k, safe, nonempty, r.st, GetField(k.w, r.st, r.out.v, f));
      }
    }
  }

  lemma MethodSound(k: Frame, safe: Pairs, nonempty: set<string>, fuel: nat, st: State, o: Expr, m: string, args: Args)
    requires StateOk(k, safe, nonempty, st) && ExprOk(k.c, safe, nonempty, MethodCall(o, m, args))
    ensures Sound(k, safe, nonempty, Eval(fuel, k.w, st, MethodCall(o, m, args)))
    decreases fuel, MethodCall(o, m, args), 0
  {
    var r := Eval(fuel, k.w, st, o);
    if RootedIn(k.c.names, o) {
      ChainSound(k, safe, nonempty, fuel, st, o);
    } else {
      EvalSound(k, safe, nonempty, fuel, st, o);
    }
    if r.out.Normal? {
      PlainArgsSound(k, safe, nonempty, fuel, r.st, args);
      var q := EvalArgs(fuel, k.w, r.st, args);
      if q.out.Normal? {
        InvokeKeeps(k, q.st, r.out.v, m, q.values);
      }
    }
  }

  lemma IdentSound(k: Frame, safe: Pairs, nonempty: set<string>, fuel: nat, st: State, x: string)
    requires StateOk(k, safe, nonempty, st) && x !in k.c.names
    ensures Sound(k, safe, nonempty, Eval(fuel, k.w, st, Ident(x)))
  {
    if x !in st.env {
      AskSound(k, safe, nonempty, st, x, []);
    }
  }

  lemma SetSound(k: Frame, safe: Pairs, nonempty: set<string>, st: State, x: string, v: Value)
    requires StateOk(k, safe, nonempty, st) && Writable(k.c, safe, x) && Clean(k.w, v)
    ensures StateOk(k, safe, nonempty, st.(env := st.env[x := v])) && StateOk(k, safe, nonempty, Assigned(st, x, v))
  {
    SetKeepsEnv(k, safe, nonempty, st.env, x, v);
  }

  lemma ElementSound(k: Frame, safe: Pairs, nonempty: set<string>, st: State, v: Value, i: Value)
    requires StateOk(k, safe, nonempty, st) && Clean(k.w, v) && !k.c.strict
    ensures Sound(k, safe, nonempty, GetElement(k.w, st, v, i))
  {
    CleanElement(k, st, v, i);
    StillSound(k, safe, nonempty, st, GetElement(k.w, st, v, i));
  }

  lemma PutSound(k: Frame, safe: Pairs, nonempty: set<string>, st: State, v: Value, i: Value, f: string, x: Value)
    requires StateOk(k, safe, nonempty, st) && Clean(k.w, v) && Clean(k.w, x)
    ensures Sound(k, safe, nonempty, PutField(st, v, f, x))
    ensures Sound(k, safe, nonempty, PutElement(st, v, i, x))
  {
    PutKeepsHeap(k, st, v, i, f, x);
    hide HeapOk;
  }

  /** A rooted chain may denote a container, but a computed link never leaves its bounds. */
  lemma {:induction false} ChainSound(k: Frame, safe: Pairs, nonempty: set<string>, fuel: nat, st: State, e: Expr)
    requires StateOk(k, safe, nonempty, st) && RootedIn(k.c.names, e) && ChainOk(k.c, safe, nonempty, e)
    ensures var r := Eval(fuel, k.w, st, e);
            && !r.out.OutOfBounds? && StateOk(k, safe, nonempty, r.st)
            && (r.out.Returned? || (e.Index? && r.out.Normal?) ==> Clean(k.w, r.out.v))
    decreases fuel, e, 0
  {
    match e
    case Ident(_) =>
    case Paren(i) => ChainSound(k, safe, nonempty, fuel, st, i);
    case Field(o, f) =>
      ChainSound(k, safe, nonempty, fuel, st, o);
      var r := Eval(fuel, k.w, st, o);
      if r.out.Normal? {
        FieldStays(k, safe, nonempty, r.st, r.out.v, f);
      }
    case Index(o, i) =>
      var p := Strip(o).name;
      EvalStrip(fuel, k.w, st, o);
      assert Eval(fuel, k.w, st, o) == Result_(Normal(Ref(k.bind[p])), st);
      if IsArray(k, p) {
        IndexDenotes(k, safe, nonempty, fuel, st, p, i);
      } else {
        EvalSound(k, safe, nonempty, fuel, st, i);
      }
      var q := Eval(fuel, k.w, st, i);
      if q.out.Normal? {
        WatchedElement(k, q.st, p, q.out.v);
        StillSound(k, safe, nonempty, q.st, GetElement(k.w, q.st, Ref(k.bind[p]), q.out.v));
      }
    case _ =>
  }

  lemma FieldStays(k: Frame, safe: Pairs, nonempty: set<string>, st: State, v: Value, f: string)
    requires StateOk(k, safe, nonempty, st)
    ensures var r := GetField(k.w, st, v, f);
            StateOk(k, safe, nonempty, r.st) && r.out.Normal?
  {
    if !v.Ref? {
      AskSound(k, safe, nonempty, st, f, [v]);
    }
  }

  lemma {:induction false} UpdateSound(k: Frame, safe: Pairs, nonempty: set<string>, fuel: nat, st: State, plus: bool,
                                       a: Expr)
    requires StateOk(k, safe, nonempty, st) && UpdateOk(k.c, safe, nonempty, a)
    ensures Sound(k, safe, nonempty, EvalUpdate(fuel, k.w, st, plus, a))
    decreases fuel, a, 2
  {
    hide StateOk, HeapOk;
    match a
    case Paren(i) => UpdateSound(k, safe, nonempty, fuel, st, plus, i);
    case Ident(x) => StepSound(k, safe, nonempty, fuel, st, plus, x);
    case Field(o, f) =>
      EvalSound(k, safe, nonempty, fuel, st, o);
      var r := Eval(fuel, k.w, st, o);
      if r.out.Normal? {
        AskSound(k, safe, nonempty, r.st, "update", [r.out.v]);
        var next := Ask(k.w, r.st, "update", [r.out.v]);
        PutSound(k, safe, nonempty, next.st, r.out.v, Undef, f, next.out.v);
      }
    case Index(o, i) =>
      EvalSound(k, safe, nonempty, fuel, st, o);
      var r := Eval(fuel, k.w, st, o);
      if r.out.Normal? {
        EvalSound(k, safe, nonempty, fuel, r.st, i);
        var q := Eval(fuel, k.w, r.st, i);
        if q.out.Normal? {
          AskSound(k, safe, nonempty, q.st, "update", [r.out.v, q.out.v]);
          var next := Ask(k.w, q.st, "update", [r.out.v, q.out.v]);
          PutSound(k, safe, nonempty, next.st, r.out.v, q.out.v, "", next.out.v);
        }
      }
    case _ =>
  }

  lemma StepSound(k: Frame, safe: Pairs, nonempty: set<string>, fuel: nat, st: State, plus: bool, x: string)
    requires StateOk(k, safe, nonempty, st) && Writable(k.c, safe, x)
    ensures Sound(k, safe, nonempty, EvalUpdate(fuel, k.w, st, plus, Ident(x)))
  {
    IdentSound(k, safe, nonempty, fuel, st, x);
    if x in st.env {
      var next := Stepped(k.w, st, plus, st.env[x]);
      if !st.env[x].Number? {
        AskSound(k, safe, nonempty, st, "step", [st.env[x]]);
      }
      SetSound(k, safe, nonempty, next.st, x, next.out.v);
    }
  }

  lemma {:induction false} PlainArgsSound(k: Frame, safe: Pairs, nonempty: set<string>, fuel: nat, st: State,
                                          args: Args)
    requires StateOk(k, safe, nonempty, st) && PlainArgsOk(k.c, safe, nonempty, args)
    ensures var r := EvalArgs(fuel, k.w, st, args);
            && !r.out.OutOfBounds? && StateOk(k, safe, nonempty, r.st)
            && (r.out.Normal? ==> CleanAll(k.w, r.values)) && (r.out.Returned? ==> Clean(k.w, r.out.v))
    decreases fuel, args, 1
  {
    hide StateOk, HeapOk;
    if args.Arg? {
      EvalSound(k, safe, nonempty, fuel, st, args.head);
      var r := Eval(fuel, k.w, st, args.head);
      if r.out.Normal? {
        PlainArgsSound(k, safe, nonempty, fuel, r.st, args.tail);
      }
    }
  }

  // ---- calls --------------------------------------------------------------------------

  /** Every argument is clean, or sits at a position the callee was checked for. */
  ghost predicate Passed(k: Frame, f: string, n: nat, values: seq<Value>) {
    forall j :: 0 <= j < |values| ==> Clean(k.w, values[j]) || (f, n + j) in k.c.passes
  }

  lemma ContainerIdent(k: Frame, safe: Pairs, nonempty: set<string>, fuel: nat, st: State, p: string)
    requires StateOk(k, safe, nonempty, st) && p in k.c.names
    ensures Eval(fuel, k.w, st, Ident(p)) == Result_(Normal(Ref(k.bind[p])), st)
  {
  }

  lemma {:induction false} ArgsSound(k: Frame, safe: Pairs, nonempty: set<string>, fuel: nat, st: State, f: string,
                                     n: nat, args: Args)
    requires StateOk(k, safe, nonempty, st) && ArgsOk(k.c, safe, nonempty, f, n, args)
    ensures var r := EvalArgs(fuel, k.w, st, args);
            && !r.out.OutOfBounds? && StateOk(k, safe, nonempty, r.st)
            && (r.out.Normal? ==> Passed(k, f, n, r.values)) && (r.out.Returned? ==> Clean(k.w, r.out.v))
    decreases fuel, args, 1
  {
    hide StateOk, HeapOk;
    if args.Arg? {
      var e := args.head;
      var r := Eval(fuel, k.w, st, e);
      if e.Ident? && e.name in k.c.names {
        ContainerIdent(k, safe, nonempty, fuel, st, e.name);
      } else {
        EvalSound(k, safe, nonempty, fuel, st, e);
      }
      if r.out.Normal? {
        ArgsSound(k, safe, nonempty, fuel, r.st, f, n + 1, args.tail);
        var q := EvalArgs(fuel, k.w, r.st, args.tail);
        if q.out.Normal? {
          var all := [r.out.v] + q.values;
          forall j | 0 <= j < |all| ensures Clean(k.w, all[j]) || (f, n + j) in k.c.passes {
            if j > 0 {
              assert all[j] == q.values[j - 1];
            }
          }
        }
      }
    }
  }

  lemma CallSound(k: Frame, safe: Pairs, nonempty: set<string>, fuel: nat, st: State, f: string, args: Args)
    requires StateOk(k, safe, nonempty, st) && ExprOk(k.c, safe, nonempty, Call(f, args))
    ensures Sound(k, safe, nonempty, Eval(fuel, k.w, st, Call(f, args)))
    decreases fuel, Call(f, args), 0
  {
    hide FrameOk, HeapOk, EnvOk, Passed, Bind;
    ArgsSound(k, safe, nonempty, fuel, st, f, 0, args);
    var r := EvalArgs(fuel, k.w, st, args);
    if r.out.Normal? && f !in k.w.prog {
      AskSound(k, safe, nonempty, r.st, f, r.values);
    } else if r.out.Normal? && fuel > 0 {
      var callee := Enter(k, f, r.values, r.st);
      RunSound(callee, fuel - 1, k.w.prog[f], r.values, r.st.tick);
      var q := Run(fuel - 1, callee.w, k.w.prog[f], r.values, r.st.heap, r.st.tick);
      HeapChains(k, callee, r.st.heap, q.st.heap);
      ReturnSound(k, safe, nonempty, r.st, q);
    }
  }

  lemma ReturnSound(k: Frame, safe: Pairs, nonempty: set<string>, st: State, q: Result_)
    requires StateOk(k, safe, nonempty, st) && HeapOk(k, q.st.heap) && !q.out.OutOfBounds?
    requires q.out.Normal? || q.out.Returned? ==> Clean(k.w, q.out.v)
    ensures Sound(k, safe, nonempty, Result_(q.out, State(st.env, q.st.heap, q.st.tick)))
  {
    hide HeapOk;
  }

  lemma HeapChains(k: Frame, callee: Frame, mid: Heap, heap: Heap)
    requires callee.w.watched == k.w.watched && callee.heap0 == mid && HeapOk(k, mid) && HeapOk(callee, heap)
    ensures HeapOk(k, heap)
  {
    SameCells(k.w, callee.w, heap);
  }

  /** What is clean depends on the watched cells only. */
  lemma SameCells(w: World, v: World, heap: Heap)
    requires w.watched == v.watched
    ensures forall l :: 0 <= l < |heap| ==> CleanCell(w, heap[l]) == CleanCell(v, heap[l])
  {
  }

  /** The activation record of a call whose arguments were checked. */
  lemma Enter(k: Frame, f: string, values: seq<Value>, st: State) returns (callee: Frame)
    requires FrameOk(k) && HeapOk(k, st.heap) && f in k.w.prog && Passed(k, f, 0, values)
    ensures callee.w == Entering(k.w, f, values) && callee.heap0 == st.heap
    ensures StateOk(callee, {}, {}, State(Bind(k.w.prog[f], values), st.heap, st.tick))
    ensures ListOk(callee.c, {}, k.w.prog[f].body)
  {
    hide FrameOk, HeapOk, EnvOk, HelpersOk, QuietOk, ListOk, Bind, ContainerCell, CleanCell;
    var at := set j | 0 <= j < |values| && !Clean(k.w, values[j]);
    var c, depth := CalleeContext(k, f, at);
    var bind := Bound(k, f, values, at, c.names);
    callee := Frame(c, Entering(k.w, f, values), st.heap, bind, k.levels, depth);
    EveryCounts(k.w, f, values, at);
    hide Entering, Clean;
    Entered(k, callee, st.heap);
    HeapEnters(k, callee, st.heap);
    EnvEnters(k, callee, f, values, at);
  }

  /** Where the parameters at the unclean positions are bound. */
  lemma Bound(k: Frame, f: string, values: seq<Value>, at: set<nat>, names: set<string>)
    returns (bind: map<string, nat>)
    requires FrameOk(k) && f in k.w.prog && (at != {} ==> Distinct(k.w.prog[f].params))
    requires at == set j | 0 <= j < |values| && !Clean(k.w, values[j])
    requires names == set j | j in at && j < |k.w.prog[f].params| :: k.w.prog[f].params[j]
    ensures bind.Keys == names
    ensures forall p :: p in bind ==> bind[p] in k.w.watched
    ensures forall p :: p in bind ==> p in k.w.prog[f].params && Bind(k.w.prog[f], values)[p] == Ref(bind[p])
  {
    hide FrameOk, Bind, Clean;
    ParamsBound(k, f, values, at);
    bind := map p | p in names :: Bind(k.w.prog[f], values)[p].loc;
  }

  lemma EnvEnters(k: Frame, callee: Frame, f: string, values: seq<Value>, at: set<nat>)
    requires FrameOk(k) && FrameOk(callee) && f in k.w.prog && callee.w.watched == k.w.watched
    requires at == set j | 0 <= j < |values| && !Clean(k.w, values[j])
    requires at != {} ==> Distinct(k.w.prog[f].params)
    requires callee.c.names == set j | j in at && j < |k.w.prog[f].params| :: k.w.prog[f].params[j]
    requires forall n :: n in callee.c.aliases ==> n in Locals(k.w.prog[f].body)
    requires forall x :: x in k.w.prog[f].params ==> x !in callee.c.aliases
    requires forall p :: p in callee.bind ==>
               p in k.w.prog[f].params && Bind(k.w.prog[f], values)[p] == Ref(callee.bind[p])
    ensures EnvOk(callee, {}, {}, Bind(k.w.prog[f], values))
  {
    hide FrameOk, EnvOk, Bind;
    ParamsBound(k, f, values, at);
    CalleeEnv(callee, k.w.prog[f], at, Bind(k.w.prog[f], values));
  }

  /** All reads count only where a container comes in, or in a quiet function. */
  lemma EveryCounts(w: World, f: string, values: seq<Value>, at: set<nat>)
    requires at == set j | 0 <= j < |values| && !Clean(w, values[j])
    ensures Entering(w, f, values) == w.(every := Entering(w, f, values).every)
    ensures Entering(w, f, values).every ==> at != {} || f in w.quiet
  {
    if Entering(w, f, values).every && f !in w.quiet {
      var i :| 0 <= i < |values| && values[i].Ref? && values[i].loc in w.watched;
      assert i in at;
    }
  }

  lemma HeapEnters(k: Frame, callee: Frame, heap: Heap)
    requires HeapOk(k, heap) && callee.w.watched == k.w.watched && callee.heap0 == heap
    ensures HeapOk(callee, heap)
  {
    SameCells(k.w, callee.w, heap);
  }

  lemma Entered(k: Frame, callee: Frame, heap: Heap)
    requires FrameOk(k) && HeapOk(k, heap) && callee.w == k.w.(every := callee.w.every) && callee.heap0 == heap
    requires callee.levels == k.levels && callee.c.fields == k.c.fields && callee.bind.Keys == callee.c.names
    requires callee.c.passes == k.levels(callee.depth) && (callee.w.every ==> callee.c.strict)
    requires forall p :: p in callee.bind ==> callee.bind[p] in k.w.watched
    ensures FrameOk(callee)
  {
    hide HelpersOk, QuietOk;
  }

  lemma CalleeEnv(callee: Frame, func: Func, at: set<nat>, env: Env)
    requires FrameOk(callee) && env.Keys == (set x | x in func.params) + Locals(func.body)
    requires forall x :: x in env && x !in func.params ==> env[x] == Undef
    requires forall n :: n in callee.c.aliases ==> n in Locals(func.body)
    requires callee.c.names == set j | j in at && j < |func.params| :: func.params[j]
    requires forall x :: x in func.params ==> x !in callee.c.aliases
    requires forall j :: j in at && j < |func.params| ==>
               func.params[j] in env && env[func.params[j]].Ref? && env[func.params[j]].loc in callee.w.watched
    requires forall x :: x in env && (forall j :: j in at && j < |func.params| ==> func.params[j] != x) ==>
               Clean(callee.w, env[x])
    requires forall p :: p in callee.bind ==> p in env && env[p].Ref? && callee.bind[p] == env[p].loc
    ensures EnvOk(callee, {}, {}, env)
  {
    hide HelpersOk, QuietOk;
    forall p | p in callee.bind ensures p in env && env[p] == Ref(callee.bind[p]) {
    }
  }

  /** The judgement context of a call: the checked one, or none where reads do not count. */
  lemma CalleeContext(k: Frame, f: string, at: set<nat>) returns (c: Ctx, depth: nat)
    requires FrameOk(k) && f in k.w.prog && forall j :: j in at ==> (f, j) in k.c.passes
    ensures c.fields == k.c.fields && c.passes == k.levels(depth)
    ensures c.names == set j | j in at && j < |k.w.prog[f].params| :: k.w.prog[f].params[j]
    ensures forall x :: x in k.w.prog[f].params ==> x !in c.aliases
    ensures forall n :: n in c.aliases ==> n in Locals(k.w.prog[f].body)
    ensures ListOk(c, {}, k.w.prog[f].body) && (at != {} || f in k.w.quiet ==> c.strict)
    ensures at != {} ==> Distinct(k.w.prog[f].params)
  {
    var func := k.w.prog[f];
    if at == {} {
      depth := k.depth;
      c := Ctx({}, k.c.fields, map[], k.levels(depth), f in k.w.quiet);
      var b := c;
      if f in k.w.quiet {
        assert JudgedQuiet(func);
        b :| b.names == {} && b.strict && ListOk(b, {}, func.body);
      }
      FreeList(b, c, {}, func.body);
    } else {
      assert HelperOk(k.w.prog, k.c.fields, k.levels, k.depth, f, at);
      depth := k.depth - 1;
      c :| CalleeCtx(c, func, k.c.fields, k.levels, k.depth, at) && ListOk(c, {}, func.body);
    }
  }

  lemma {:induction false} ParamIndexUnique(params: seq<string>, j: nat)
    requires j < |params| && forall a, b :: 0 <= a < b < |params| ==> params[a] != params[b]
    ensures ParamIndex(params, params[j]) == j
  {
    if j > 0 {
      assert params[1..][j - 1] == params[j];
      ParamIndexUnique(params[1..], j - 1);
    }
  }

  /** Exactly the parameters at the unclean positions are bound to watched cells. */
  lemma ParamsBound(k: Frame, f: string, values: seq<Value>, at: set<nat>)
    requires FrameOk(k) && f in k.w.prog && (at != {} ==> Distinct(k.w.prog[f].params))
    requires at == set j | 0 <= j < |values| && !Clean(k.w, values[j])
    ensures var params := k.w.prog[f].params;
            var env := Bind(k.w.prog[f], values);
            && env.Keys == (set x | x in params) + Locals(k.w.prog[f].body)
            && (forall x :: x in env && x !in params ==> env[x] == Undef)
            && (forall j :: j in at && j < |params| ==>
                 params[j] in env && env[params[j]].Ref? && env[params[j]].loc in k.w.watched)
            && (forall x :: x in env && (forall j :: j in at && j < |params| ==> params[j] != x) ==> Clean(k.w, env[x]))
  {
    var params := k.w.prog[f].params;
    var env := Bind(k.w.prog[f], values);
    forall j | j in at && j < |params|
      ensures params[j] in env && env[params[j]].Ref? && env[params[j]].loc in k.w.watched
    {
      ParamIndexUnique(params, j);
      assert env[params[j]] == values[j];
    }
    forall x | x in env && (forall j :: j in at && j < |params| ==> params[j] != x) ensures Clean(k.w, env[x]) {
      if x in params {
        var i := ParamIndex(params, x);
        assert params[i] == x;
      }
    }
  }

  lemma RunSound(k: Frame, fuel: nat, f: Func, values: seq<Value>, tick: nat)
    requires StateOk(k, {}, {}, State(Bind(f, values), k.heap0, tick)) && ListOk(k.c, {}, f.body)
    ensures var r := Run(fuel, k.w, f, values, k.heap0, tick);
            && !r.out.OutOfBounds? && HeapOk(k, r.st.heap)
            && (r.out.Normal? || r.out.Returned? ==> Clean(k.w, r.out.v))
    decreases fuel, f.body, 3
  {
    ListSound(k, {}, fuel, State(Bind(f, values), k.heap0, tick), f.body);
  }

  // ---- code without containers in scope -----------------------------------------------

  /** Without containers the context hardly matters: a strict one needs a strict judgement, any
      other accepts everything. */
  ghost predicate Free(was: Ctx, c: Ctx) {
    was.names == {} && c.names == {} && c.aliases == map[] && (c.strict ==> was.strict)
  }

  lemma {:induction false} FreeExpr(was: Ctx, c: Ctx, nonempty: set<string>, e: Expr)
    requires Free(was, c) && (c.strict ==> ExprOk(was, {}, nonempty, e))
    ensures ExprOk(c, {}, nonempty, e)
    decreases e, 1
  {
    match e
    case Num(_) =>
    case Ident(_) =>
    case Paren(i) => FreeExpr(was, c, nonempty, i);
    case Field(o, _) => FreeExpr(was, c, nonempty, o);
    case Index(o, i) => FreeExpr(was, c, nonempty, o); FreeExpr(was, c, nonempty, i);
    case Bin(_, l, r) => FreeExpr(was, c, nonempty, l); FreeExpr(was, c, nonempty, r);
    case Not(a) => FreeExpr(was, c, nonempty, a);
    case Delete(a) => FreeExpr(was, c, nonempty, a);
    case AssignVar(_, r) => FreeExpr(was, c, nonempty, r);
    case AssignField(o, _, r) => FreeExpr(was, c, nonempty, o); FreeExpr(was, c, nonempty, r);
    case AssignIndex(o, i, r) =>
      FreeExpr(was, c, nonempty, o);
      FreeExpr(was, c, nonempty, i);
      FreeExpr(was, c, nonempty, r);
    case Update(_, a) => FreeUpdate(was, c, nonempty, a);
    case Call(f, args) => FreeArgs(was, c, nonempty, f, 0, args);
    case MethodCall(o, _, args) => FreeExpr(was, c, nonempty, o); FreeArgs(was, c, nonempty, "", 0, args);
  }

  lemma {:induction false} FreeUpdate(was: Ctx, c: Ctx, nonempty: set<string>, a: Expr)
    requires Free(was, c) && (c.strict ==> UpdateOk(was, {}, nonempty, a))
    ensures UpdateOk(c, {}, nonempty, a)
    decreases a, 0
  {
    match a
    case Paren(i) => FreeUpdate(was, c, nonempty, i);
    case Field(o, _) => FreeExpr(was, c, nonempty, o);
    case Index(o, i) => FreeExpr(was, c, nonempty, o); FreeExpr(was, c, nonempty, i);
    case _ =>
  }

  lemma {:induction false} FreeArgs(was: Ctx, c: Ctx, nonempty: set<string>, f: string, n: nat, args: Args)
    requires Free(was, c)
    requires c.strict ==> ArgsOk(was, {}, nonempty, f, n, args) || PlainArgsOk(was, {}, nonempty, args)
    ensures ArgsOk(c, {}, nonempty, f, n, args) && PlainArgsOk(c, {}, nonempty, args)
    decreases args, 0
  {
    if args.Arg? {
      FreeExpr(was, c, nonempty, args.head);
      FreeArgs(was, c, nonempty, f, n + 1, args.tail);
    }
  }

  lemma {:induction false} FreeDecls(was: Ctx, c: Ctx, nonempty: set<string>, ds: Decls)
    requires Free(was, c) && (c.strict ==> DeclsOk(was, {}, nonempty, ds))
    ensures DeclsOk(c, {}, nonempty, ds)
  {
    if ds.Decl? {
      FreeOption(was, c, nonempty, ds.init);
      FreeDecls(was, c, nonempty, ds.rest);
    }
  }

  lemma FreeOption(was: Ctx, c: Ctx, nonempty: set<string>, e: Option<Expr>)
    requires Free(was, c) && (c.strict ==> OptionOk(was, {}, nonempty, e))
    ensures OptionOk(c, {}, nonempty, e)
  {
    if e.Some? {
      FreeExpr(was, c, nonempty, e.value);
    }
  }

  lemma {:induction false} FreeStmt(was: Ctx, c: Ctx, nonempty: set<string>, s: Stmt)
    requires Free(was, c) && (c.strict ==> StmtOk(was, {}, nonempty, s))
    ensures StmtOk(c, {}, nonempty, s)
    decreases s
  {
    hide ExprOk, DeclsOk;
    match s
    case Exp(e) => FreeExpr(was, c, nonempty, e);
    case Var(ds) => FreeDecls(was, c, nonempty, ds);
    case If(t, a, b) =>
      FreeExpr(was, c, nonempty, t);
      FreeStmt(was, c, nonempty, a);
      if b.Some? {
        FreeStmt(was, c, nonempty, b.value);
      }
    case While(t, b) => FreeExpr(was, c, nonempty, t); FreeStmt(was, c, nonempty, b);
    case For(ds, t, u, b) =>
      FreeDecls(was, c, nonempty, ds);
      FreeOption(was, c, nonempty, t);
      FreeOption(was, c, nonempty, u);
      FreeStmt(was, c, nonempty, b);
    case ForOf(_, src, b) => FreeExpr(was, c, nonempty, src); FreeStmt(was, c, nonempty, b);
    case Block(ss) => FreeBlock(was, c, nonempty, ss);
    case Return(v) => FreeOption(was, c, nonempty, v);
    case Throw(e) => FreeExpr(was, c, nonempty, e);
    case Break =>
    case Continue =>
  }

  lemma {:induction false} FreeBlock(was: Ctx, c: Ctx, nonempty: set<string>, ss: Stmts)
    requires Free(was, c) && (c.strict ==> BlockOk(was, {}, nonempty, ss))
    ensures BlockOk(c, {}, nonempty, ss)
    decreases ss
  {
    if ss.Then? {
      FreeStmt(was, c, nonempty, ss.head);
      FreeBlock(was, c, nonempty, ss.tail);
    }
  }

  lemma {:induction false} FreeList(was: Ctx, c: Ctx, nonempty: set<string>, ss: Stmts)
    requires Free(was, c) && (c.strict ==> ListOk(was, nonempty, ss))
    ensures ListOk(c, nonempty, ss)
    decreases ss
  {
    if ss.Then? {
      FreeStmt(was, c, nonempty, ss.head);
      FreeList(was, c, AfterGuard(nonempty, ss.head), ss.tail);
    }
  }

  // ---- statements ---------------------------------------------------------------------

  lemma OptionSound(k: Frame, safe: Pairs, nonempty: set<string>, fuel: nat, st: State, e: Option<Expr>, default: Value)
    requires StateOk(k, safe, nonempty, st) && OptionOk(k.c, safe, nonempty, e) && !default.Ref?
    ensures Sound(k, safe, nonempty, EvalOption(fuel, k.w, st, e, default))
    decreases fuel, e, 1
  {
    if e.Some? {
      EvalSound(k, safe, nonempty, fuel, st, e.value);
    }
  }

  /** Declaring a name: a loop bound gets the length it stands for, any other name is free. */
  lemma BindSound(k: Frame, safe: Pairs, nonempty: set<string>, fuel: nat, st: State, x: string, init: Expr)
    requires StateOk(k, safe, nonempty, st) && BinderOk(k.c, safe, x, Some(init)) && ExprOk(k.c, safe, nonempty, init)
    ensures var r := Eval(fuel, k.w, st, init);
            && Sound(k, safe, nonempty, r)
            && (r.out.Normal? ==> StateOk(k, safe, nonempty, r.st.(env := r.st.env[x := r.out.v])))
    decreases fuel, init, 2
  {
    EvalSound(k, safe, nonempty, fuel, st, init);
    var r := Eval(fuel, k.w, st, init);
    if r.out.Normal? {
      if x in k.c.aliases {
        EvalLength(k, safe, nonempty, fuel, st, init, k.c.aliases[x]);
      }
      var env := r.st.env[x := r.out.v];
      forall p, i | (p, i) in safe ensures i != x {
      }
      assert EnvOk(k, safe, nonempty, env);
    }
  }

  lemma {:induction false} DeclsSound(k: Frame, safe: Pairs, nonempty: set<string>, fuel: nat, st: State, ds: Decls)
    requires StateOk(k, safe, nonempty, st) && DeclsOk(k.c, safe, nonempty, ds)
    ensures Sound(k, safe, nonempty, ExecDecls(fuel, k.w, st, ds))
    decreases fuel, ds, 1
  {
    hide StateOk, HeapOk;
    if ds.Decl? {
      if ds.init.None? {
        DeclsSound(k, safe, nonempty, fuel, st, ds.rest);
      } else {
        BindSound(k, safe, nonempty, fuel, st, ds.name, ds.init.value);
        var r := Eval(fuel, k.w, st, ds.init.value);
        if r.out.Normal? {
          DeclsSound(k, safe, nonempty, fuel, r.st.(env := r.st.env[ds.name := r.out.v]), ds.rest);
        }
      }
    }
  }

  lemma {:induction false} ExecSound(k: Frame, safe: Pairs, nonempty: set<string>, fuel: nat, st: State, s: Stmt)
    requires StateOk(k, safe, nonempty, st) && StmtOk(k.c, safe, nonempty, s)
    ensures Sound(k, safe, nonempty, Exec(fuel, k.w, st, s))
    decreases fuel, s, 3
  {
    hide StateOk, HeapOk;
    match s
    case Exp(e) => EvalSound(k, safe, nonempty, fuel, st, e);
    case Var(ds) => DeclsSound(k, safe, nonempty, fuel, st, ds);
    case If(t, a, b) =>
      EvalSound(k, safe, nonempty, fuel, st, t);
      var r := Eval(fuel, k.w, st, t);
      if r.out.Normal? {
        if Truthy(r.out.v) {
          ExecSound(k, safe, nonempty, fuel, r.st, a);
        } else if b.Some? {
          ExecSound(k, safe, nonempty, fuel, r.st, b.value);
        }
      }
    case While(t, b) => LoopSound(k, safe, nonempty, fuel, st, s);
    case For(ds, t, u, b) => ForSound(k, safe, nonempty, fuel, st, s);
    case ForOf(x, src, b) => ForOfSound(k, safe, nonempty, fuel, st, s);
    case Block(ss) => BlockSound(k, safe, nonempty, fuel, st, ss);
    case Return(v) => OptionSound(k, safe, nonempty, fuel, st, v, Undef);
    case Throw(e) => EvalSound(k, safe, nonempty, fuel, st, e);
    case Break =>
    case Continue =>
  }

  lemma {:induction false} BlockSound(k: Frame, safe: Pairs, nonempty: set<string>, fuel: nat, st: State, ss: Stmts)
    requires StateOk(k, safe, nonempty, st) && BlockOk(k.c, safe, nonempty, ss)
    ensures Sound(k, safe, nonempty, ExecList(fuel, k.w, st, ss))
    decreases fuel, ss, 1
  {
    hide StateOk, HeapOk;
    if ss.Then? {
      ExecSound(k, safe, nonempty, fuel, st, ss.head);
      var r := Exec(fuel, k.w, st, ss.head);
      if r.out.Normal? {
        BlockSound(k, safe, nonempty, fuel, r.st, ss.tail);
      }
    }
  }

  /** A loop whose body is judged without a new pair. */
  lemma {:induction false} LoopSound(k: Frame, safe: Pairs, nonempty: set<string>, fuel: nat, st: State, s: Stmt)
    requires StateOk(k, safe, nonempty, st) && (s.While? || s.For?)
    requires s.While? ==> ExprOk(k.c, safe, nonempty, s.test)
    requires s.For? ==> OptionOk(k.c, safe, nonempty, s.until) && OptionOk(k.c, safe, nonempty, s.update)
    requires StmtOk(k.c, safe, nonempty, s.body)
    ensures Sound(k, safe, nonempty, Loop(fuel, k.w, st, s))
    decreases fuel, s, 0
  {
    hide StateOk, HeapOk;
    if s.While? {
      EvalSound(k, safe, nonempty, fuel, st, s.test);
    } else if s.until.Some? {
      EvalSound(k, safe, nonempty, fuel, st, s.until.value);
    }
    var t := if s.While? then Eval(fuel, k.w, st, s.test)
             else if s.until.Some? then Eval(fuel, k.w, st, s.until.value)
             else Result_(Normal(Bool(true)), st);
    if t.out.Normal? && Truthy(t.out.v) {
      ExecSound(k, safe, nonempty, fuel, t.st, s.body);
      var r := Exec(fuel, k.w, t.st, s.body);
      if r.out.Normal? || r.out.Continued? {
        var u := if s.For? && s.update.Some? then Eval(fuel, k.w, r.st, s.update.value)
                 else Result_(Normal(Undef), r.st);
        if s.For? && s.update.Some? {
          EvalSound(k, safe, nonempty, fuel, r.st, s.update.value);
        }
        if u.out.Normal? && fuel > 0 {
          LoopSound(k, safe, nonempty, fuel - 1, u.st, s);
        }
      }
    }
  }

  lemma ForOfSound(k: Frame, safe: Pairs, nonempty: set<string>, fuel: nat, st: State, s: Stmt)
    requires StateOk(k, safe, nonempty, st) && s.ForOf? && StmtOk(k.c, safe, nonempty, s)
    ensures Sound(k, safe, nonempty, Exec(fuel, k.w, st, s))
    decreases fuel, s, 0
  {
    if RootedIn(k.c.names, s.source) {
      ChainSound(k, safe, nonempty, fuel, st, s.source);
    } else {
      EvalSound(k, safe, nonempty, fuel, st, s.source);
    }
    var r := Eval(fuel, k.w, st, s.source);
    if r.out.Normal? && r.out.v.Ref? && r.out.v.loc < |r.st.heap| && r.st.heap[r.out.v.loc].Arr? {
      ElementsClean(k, r.st.heap, r.out.v.loc);
      IterateSound(k, safe, nonempty, fuel, r.st, s.name, s.body, r.st.heap[r.out.v.loc].elems);
    } else if r.out.Normal? {
      StillSound(k, safe, nonempty, r.st, Result_(Normal(Undef), Ticked(r.st)));
      IterateSound(k, safe, nonempty, fuel, Ticked(r.st), s.name, s.body, AskAll(k.w, r.st, r.out.v));
    }
  }

  lemma ElementsClean(k: Frame, heap: Heap, l: nat)
    requires FrameOk(k) && HeapOk(k, heap) && l < |heap| && heap[l].Arr?
    ensures CleanAll(k.w, heap[l].elems)
  {
    if l in k.w.watched {
      assert ContainerCell(k.w, k.c.fields, k.heap0[l]);
    } else {
      assert CleanCell(k.w, heap[l]);
    }
  }

  lemma {:induction false} IterateSound(k: Frame, safe: Pairs, nonempty: set<string>, fuel: nat, st: State, x: string,
                                        b: Stmt, elems: seq<Value>)
    requires StateOk(k, safe, nonempty, st) && Writable(k.c, safe, x) && StmtOk(k.c, safe, nonempty, b) &&
             CleanAll(k.w, elems)
    ensures Sound(k, safe, nonempty, Iterate(fuel, k.w, st, x, b, elems))
    decreases fuel, b, 4, |elems|
  {
    hide StateOk, HeapOk;
    if elems != [] {
      SetSound(k, safe, nonempty, st, x, elems[0]);
      var st1 := st.(env := st.env[x := elems[0]]);
      ExecSound(k, safe, nonempty, fuel, st1, b);
      var r := Exec(fuel, k.w, st1, b);
      if r.out.Normal? || r.out.Continued? {
        IterateSound(k, safe, nonempty, fuel, r.st, x, b, elems[1..]);
      }
    }
  }

  // ---- the counting loop --------------------------------------------------------------

  /** A non-negative integer. */
  predicate CountValue(v: Value) { v.Number? && v.r == v.r.Floor as real && 0 <= v.r.Floor }

  lemma LengthKeepsState(fuel: nat, w: World, st: State, e: Expr)
    requires LengthOf(e).Some?
    ensures Eval(fuel, w, st, e).st.env == st.env
  {
    EvalStrip(fuel, w, st, e);
    EvalStrip(fuel, w, st, Strip(e).obj);
  }

  lemma {:induction false} LengthsKeepOthers(fuel: nat, w: World, st: State, ds: Decls, i: string)
    requires LengthsOnly(ds) && !Declares(ds, i)
    ensures Lookup(ExecDecls(fuel, w, st, ds).st.env, i) == Lookup(st.env, i)
    decreases ds
  {
    if ds.Decl? {
      LengthKeepsState(fuel, w, st, ds.init.value);
      var r := Eval(fuel, w, st, ds.init.value);
      if r.out.Normal? {
        LengthsKeepOthers(fuel, w, r.st.(env := r.st.env[ds.name := r.out.v]), ds.rest, i);
      }
    }
  }

  lemma {:induction false} HeaderStartsIndex(fuel: nat, w: World, st: State, ds: Decls, i: string)
    requires StartsIndex(ds, i) && ExecDecls(fuel, w, st, ds).out.Normal?
    ensures CountValue(Lookup(ExecDecls(fuel, w, st, ds).st.env, i))
    decreases ds
  {
    var init := ds.init.value;
    var r := Eval(fuel, w, st, init);
    var st1 := r.st.(env := r.st.env[ds.name := r.out.v]);
    if ds.name == i {
      EvalStrip(fuel, w, st, init);
      LengthsKeepOthers(fuel, w, st1, ds.rest, i);
    } else {
      HeaderStartsIndex(fuel, w, st1, ds.rest, i);
    }
  }

  /** When the test passes, the index is an element number of the array. */
  lemma TestBounds(k: Frame, safe: Pairs, nonempty: set<string>, fuel: nat, st: State, test: Option<Expr>, i: string,
                   p: string)
    requires StateOk(k, safe, nonempty, st) && BoundedBy(k.c, test, i, p) && IsArray(k, p)
    requires CountValue(Lookup(st.env, i))
    ensures var r := Eval(fuel, k.w, st, test.value);
            r.st == st && (r.out.Normal? && Truthy(r.out.v) ==> IndexValue(Lookup(st.env, i), Len(k, p)))
  {
    var t := Strip(test.value);
    EvalStrip(fuel, k.w, st, test.value);
    EvalStrip(fuel, k.w, st, t.left);
    EvalStrip(fuel, k.w, st, t.right);
    var b := Strip(t.right);
    if !b.Ident? {
      EvalLength(k, safe, nonempty, fuel, st, b, p);
    }
    assert Eval(fuel, k.w, st, t.left) == Result_(Normal(Lookup(st.env, i)), st);
  }

  lemma {:induction false} UpdateStrip(fuel: nat, w: World, st: State, plus: bool, a: Expr)
    ensures EvalUpdate(fuel, w, st, plus, a) == EvalUpdate(fuel, w, st, plus, Strip(a))
  {
    if a.Paren? {
      UpdateStrip(fuel, w, st, plus, a.inner);
    }
  }

  lemma StepCounts(fuel: nat, w: World, st: State, update: Option<Expr>, i: string)
    requires StepsIndex(update, i) && CountValue(Lookup(st.env, i))
    ensures CountValue(Lookup(Eval(fuel, w, st, update.value).st.env, i))
  {
    var u := Strip(update.value);
    EvalStrip(fuel, w, st, update.value);
    UpdateStrip(fuel, w, st, u.plus, u.arg);
    var v := Lookup(st.env, i);
    assert (v.r + 1.0).Floor == v.r.Floor + 1;
  }

  lemma PairHolds(k: Frame, safe: Pairs, nonempty: set<string>, st: State, p: string, i: string)
    requires StateOk(k, safe, nonempty, st)
    requires IsArray(k, p) ==> IndexValue(Lookup(st.env, i), Len(k, p))
    ensures StateOk(k, safe + {(p, i)}, nonempty, st)
  {
  }

  lemma PairGives(k: Frame, safe: Pairs, nonempty: set<string>, st: State, p: string, i: string)
    requires StateOk(k, safe + {(p, i)}, nonempty, st)
    ensures StateOk(k, safe, nonempty, st)
    ensures IsArray(k, p) ==> CountValue(Lookup(st.env, i))
  {
    assert (p, i) in safe + {(p, i)};
  }

  /** A loop whose body is judged with its own (array, index) pair. */
  lemma {:induction false} PairLoopSound(k: Frame, safe: Pairs, nonempty: set<string>, fuel: nat, st: State, s: Stmt,
                                         p: string, i: string)
    requires StateOk(k, safe, nonempty, st) && s.For?
    requires BoundedBy(k.c, s.until, i, p) && StepsIndex(s.update, i)
    requires OptionOk(k.c, safe, nonempty, s.until) && OptionOk(k.c, safe, nonempty, s.update)
    requires StmtOk(k.c, safe + {(p, i)}, nonempty, s.body)
    requires IsArray(k, p) ==> CountValue(Lookup(st.env, i))
    ensures Sound(k, safe, nonempty, Loop(fuel, k.w, st, s))
    decreases fuel, s, 0
  {
    hide StateOk, HeapOk, FrameOk, BoundedBy, StepsIndex, Eval, Exec, CountValue, IndexValue;
    PairTest(k, safe, nonempty, fuel, st, s.until, p, i);
    var t := Eval(fuel, k.w, st, s.until.value);
    if t.out.Normal? && Truthy(t.out.v) {
      PairBody(k, safe, nonempty, fuel, t.st, s.body, p, i);
      var r := Exec(fuel, k.w, t.st, s.body);
      if r.out.Normal? || r.out.Continued? {
        PairUpdate(k, safe, nonempty, fuel, r.st, s.update, p, i);
        var u := Eval(fuel, k.w, r.st, s.update.value);
        if u.out.Normal? && fuel > 0 {
          PairLoopSound(k, safe, nonempty, fuel - 1, u.st, s, p, i);
        }
      }
    }
  }

  lemma PairTest(k: Frame, safe: Pairs, nonempty: set<string>, fuel: nat, st: State, test: Option<Expr>, p: string,
                 i: string)
    requires StateOk(k, safe, nonempty, st) && BoundedBy(k.c, test, i, p) && OptionOk(k.c, safe, nonempty, test)
    requires IsArray(k, p) ==> CountValue(Lookup(st.env, i))
    ensures test.Some?
    ensures var t := Eval(fuel, k.w, st, test.value);
            && Sound(k, safe, nonempty, t)
            && (t.out.Normal? && Truthy(t.out.v) && IsArray(k, p) ==> IndexValue(Lookup(t.st.env, i), Len(k, p)))
    decreases fuel, test, 2
  {
    EvalSound(k, safe, nonempty, fuel, st, test.value);
    if IsArray(k, p) {
      TestBounds(k, safe, nonempty, fuel, st, test, i, p);
    }
  }

  lemma PairBody(k: Frame, safe: Pairs, nonempty: set<string>, fuel: nat, st: State, body: Stmt, p: string, i: string)
    requires StateOk(k, safe, nonempty, st) && StmtOk(k.c, safe + {(p, i)}, nonempty, body)
    requires IsArray(k, p) ==> IndexValue(Lookup(st.env, i), Len(k, p))
    ensures var r := Exec(fuel, k.w, st, body);
            && Sound(k, safe, nonempty, r)
            && (IsArray(k, p) ==> CountValue(Lookup(r.st.env, i)))
    decreases fuel, body, 4
  {
    PairHolds(k, safe, nonempty, st, p, i);
    ExecSound(k, safe + {(p, i)}, nonempty, fuel, st, body);
    PairGives(k, safe, nonempty, Exec(fuel, k.w, st, body).st, p, i);
  }

  lemma PairUpdate(k: Frame, safe: Pairs, nonempty: set<string>, fuel: nat, st: State, update: Option<Expr>,
                   p: string, i: string)
    requires StateOk(k, safe, nonempty, st) && StepsIndex(update, i) && OptionOk(k.c, safe, nonempty, update)
    requires IsArray(k, p) ==> CountValue(Lookup(st.env, i))
    ensures update.Some?
    ensures var u := Eval(fuel, k.w, st, update.value);
            && Sound(k, safe, nonempty, u)
            && (IsArray(k, p) ==> CountValue(Lookup(u.st.env, i)))
    decreases fuel, update, 2
  {
    EvalSound(k, safe, nonempty, fuel, st, update.value);
    if IsArray(k, p) {
      StepCounts(fuel, k.w, st, update, i);
    }
  }

  lemma ForSound(k: Frame, safe: Pairs, nonempty: set<string>, fuel: nat, st: State, s: Stmt)
    requires StateOk(k, safe, nonempty, st) && s.For? && StmtOk(k.c, safe, nonempty, s)
    ensures Sound(k, safe, nonempty, Exec(fuel, k.w, st, s))
    decreases fuel, s, 2
  {
    hide StateOk, HeapOk, BoundedBy;
    DeclsSound(k, safe, nonempty, fuel, st, s.decls);
    var r := ExecDecls(fuel, k.w, st, s.decls);
    if r.out.Normal? {
      if StmtOk(k.c, safe, nonempty, s.body) {
        LoopSound(k, safe, nonempty, fuel, r.st, s);
      } else {
        var p, i :| LoopPair(k.c, s.decls, s.until, s.update, p, i) && StmtOk(k.c, safe + {(p, i)}, nonempty, s.body);
        HeaderStartsIndex(fuel, k.w, st, s.decls, i);
        PairLoopSound(k, safe, nonempty, fuel, r.st, s, p, i);
      }
    }
  }

  // ---- emptiness guards and the outermost list ----------------------------------------

  lemma {:induction false} ExitsAbruptly(fuel: nat, w: World, st: State, ss: Stmts)
    requires LastExits(ss)
    ensures !ExecList(fuel, w, st, ss).out.Normal?
    decreases ss
  {
    if ss.tail.Then? {
      var r := Exec(fuel, w, st, ss.head);
      if r.out.Normal? {
        ExitsAbruptly(fuel, w, r.st, ss.tail);
      }
    }
  }

  lemma GuardHolds(k: Frame, nonempty: set<string>, fuel: nat, st: State, s: Stmt, p: string)
    requires StateOk(k, {}, nonempty, st) && EmptyGuard(s) == Some(p) && IsArray(k, p)
    requires Exec(fuel, k.w, st, s).out.Normal?
    ensures Len(k, p) > 0
  {
    hide HelpersOk, QuietOk, HeapOk, ContainerCell;
    var t := Strip(s.test);
    EvalStrip(fuel, k.w, st, s.test);
    var r := Eval(fuel, k.w, st, s.test);
    if t.Not? {
      EvalLength(k, {}, nonempty, fuel, st, t.arg, p);
    } else {
      EvalStrip(fuel, k.w, st, t.left);
      EvalStrip(fuel, k.w, st, t.right);
      if IsNum(t.right, 0.0) {
        EvalLength(k, {}, nonempty, fuel, st, t.left, p);
      } else {
        EvalLength(k, {}, nonempty, fuel, st, t.right, p);
      }
    }
    if Len(k, p) == 0 {
      assert r.out.Normal? && Truthy(r.out.v);
      if s.cons.Block? {
        ExitsAbruptly(fuel, k.w, r.st, s.cons.stmts);
      }
    }
  }

  lemma MoreNonempty(k: Frame, nonempty: set<string>, st: State, p: string)
    requires StateOk(k, {}, nonempty, st) && (IsArray(k, p) ==> Len(k, p) > 0)
    ensures StateOk(k, {}, nonempty + {p}, st)
  {
  }

  lemma {:induction false} ListSound(k: Frame, nonempty: set<string>, fuel: nat, st: State, ss: Stmts)
    requires StateOk(k, {}, nonempty, st) && ListOk(k.c, nonempty, ss)
    ensures var r := ExecList(fuel, k.w, st, ss);
            && !r.out.OutOfBounds? && HeapOk(k, r.st.heap)
            && (r.out.Normal? || r.out.Returned? ==> Clean(k.w, r.out.v))
    decreases fuel, ss, 2
  {
    if ss.Then? {
      ExecSound(k, {}, nonempty, fuel, st, ss.head);
      var r := Exec(fuel, k.w, st, ss.head);
      if r.out.Normal? {
        var g := EmptyGuard(ss.head);
        if g.Some? {
          if IsArray(k, g.value) {
            GuardHolds(k, nonempty, fuel, st, ss.head, g.value);
          }
          MoreNonempty(k, nonempty, r.st, g.value);
        }
        ListSound(k, AfterGuard(nonempty, ss.head), fuel, r.st, ss.tail);
      }
    }
  }
}
