/**
 A big-step semantics of the subset, with fuel for loops and calls.  Arrays and records live on
 a heap; `watched` are the locations of container parameters.  A computed read of an array
 outside its bounds ends the run with `OutOfBounds` if the array is watched, or if the function
 running was given a watched one or is to be `quiet`; any other read outside bounds is `undefined`, as in JavaScript.

 What the subset does not spell out is left open: operators on strings, globals such as `Math`,
 functions outside the program and built-in methods may answer anything, each time anew.  Where
 JavaScript would throw a TypeError the run goes on, so that it covers at least the reads of
 the real one.
 */
module CloneSemantics {
  import opened Wrappers
  import opened CloneSyntax

  /** `Other` stands for strings, infinities and any other primitive. */
  datatype Value = Undef | NaN | Bool(b: bool) | Number(r: real) | Other(id: nat, truthy: bool) | Ref(loc: nat)

  datatype Cell = Arr(elems: seq<Value>) | Rec(fields: map<string, Value>)

  type Env = map<string, Value>
  type Heap = seq<Cell>

  /** `tick` counts the answers asked for so far. */
  datatype State = State(env: Env, heap: Heap, tick: nat)

  /** An answer from outside: a value, the receiver's new elements, and whether they are those of
      a freshly built array.  References among them are honoured only when they were already
      among the receiver's elements or the arguments. */
  datatype Answer = Answer(value: Value, elems: seq<Value>, built: bool)
  type Builtins = (string, seq<Value>, seq<Value>, nat) -> Answer

  /** `every` says that the function running was given a container or is among the `quiet` ones,
      so that all its reads count. */
  datatype World = World(prog: Program, builtins: Builtins, watched: set<nat>, quiet: set<string>, every: bool)

  datatype Outcome =
    | Normal(v: Value)
    | Returned(v: Value)
    | Thrown
    | Broke
    | Continued
    | OutOfBounds
    | OutOfFuel

  datatype Result_ = Result_(out: Outcome, st: State)
  datatype ArgsResult = ArgsResult(out: Outcome, values: seq<Value>, st: State)

  /** Locals and parameters; `Undef` stands in for any other name. */
  function Lookup(env: Env, x: string): Value { if x in env then env[x] else Undef }

  function Truthy(v: Value): bool {
    match v
    case Undef => false
    case NaN => false
    case Bool(b) => b
    case Number(r) => r != 0.0
    case Other(_, truthy) => truthy
    case Ref(_) => true
  }

  /** A primitive nothing more is known about. */
  function Ask(w: World, st: State, what: string, args: seq<Value>): Result_ {
    Result_(Normal(Sanitize(w.builtins(what, [], args, st.tick).value, [])), st.(tick := st.tick + 1))
  }

  /** The elements iterated over when the source is not an array. */
  function AskAll(w: World, st: State, v: Value): seq<Value> {
    SanitizeAll(w.builtins("of", [], [v], st.tick).elems, [])
  }

  function Ticked(st: State): State { st.(tick := st.tick + 1) }

  /** Operators on numbers, and comparisons with `undefined`. */
  function Operate(op: BinOp, a: Value, b: Value): Option<Value> {
    match op
    case Lt =>
      if a.Number? && b.Number? then Some(Bool(a.r < b.r))
      else if a.Undef? || a.NaN? || b.Undef? || b.NaN? then Some(Bool(false))
      else None
    case EqEq => if a.Number? && b.Number? then Some(Bool(a.r == b.r)) else None
    case EqEqEq => if a.Number? && b.Number? then Some(Bool(a.r == b.r)) else None
    case Sub => if a.Number? && b.Number? then Some(Number(a.r - b.r)) else None
    case Add => if a.Number? && b.Number? then Some(Number(a.r + b.r)) else None
  }

  function Apply(w: World, st: State, op: BinOp, a: Value, b: Value): Result_ {
    var v := Operate(op, a, b);
    if v.Some? then Result_(Normal(v.value), st) else Ask(w, st, "op", [a, b])
  }

  /** The element number a value denotes in an array of length `n`. */
  function Position(v: Value, n: nat): (r: Option<nat>)
    ensures r.Some? ==> r.value < n && v == Number(r.value as real)
  {
    if v.Number? && v.r == v.r.Floor as real && 0 <= v.r.Floor < n then Some(v.r.Floor) else None
  }

  function GetField(w: World, st: State, v: Value, f: string): Result_ {
    if !v.Ref? then Ask(w, st, f, [v])
    else if v.loc >= |st.heap| then Result_(Normal(Undef), st)
    else if st.heap[v.loc].Arr? then
      Result_(Normal(if f == "length" then Number(|st.heap[v.loc].elems| as real) else Undef), st)
    else Result_(Normal(if f in st.heap[v.loc].fields then st.heap[v.loc].fields[f] else Undef), st)
  }

  /** Reads element `i` of `v`. */
  function GetElement(w: World, st: State, v: Value, i: Value): Result_ {
    if !v.Ref? || v.loc >= |st.heap| || st.heap[v.loc].Rec? then Ask(w, st, "element", [v, i])
    else
      var k := Position(i, |st.heap[v.loc].elems|);
      if k.Some? then Result_(Normal(st.heap[v.loc].elems[k.value]), st)
      else if v.loc in w.watched || w.every then Result_(OutOfBounds, st)
      else Result_(Normal(Undef), st)
  }

  function PutField(st: State, v: Value, f: string, x: Value): Result_ {
    if v.Ref? && v.loc < |st.heap| && st.heap[v.loc].Rec? then
      Result_(Normal(x), st.(heap := st.heap[v.loc := Rec(st.heap[v.loc].fields[f := x])]))
    else if v.Ref? && v.loc < |st.heap| && f == "length" then
      Result_(Normal(x), st.(heap := st.heap[v.loc := Arr([])]))
    else Result_(Normal(x), st)
  }

  function PutElement(st: State, v: Value, i: Value, x: Value): Result_ {
    if v.Ref? && v.loc < |st.heap| && st.heap[v.loc].Arr? then
      var elems := st.heap[v.loc].elems;
      var k := Position(i, |elems| + 1);
      if k.None? then Result_(Normal(x), st)
      else
        var written := elems[..k.value] + [x] + elems[Least(k.value + 1, |elems|)..];
        Result_(Normal(x), st.(heap := st.heap[v.loc := Arr(written)]))
    else Result_(Normal(x), st)
  }

  function Least(a: nat, b: nat): nat { if a < b then a else b }

  /** A reference is honoured only when it comes from the receiver or the arguments. */
  function Sanitize(v: Value, allowed: seq<Value>): Value {
    if v.Ref? && v !in allowed then Undef else v
  }

  function SanitizeAll(vs: seq<Value>, allowed: seq<Value>): seq<Value> {
    seq(|vs|, i requires 0 <= i < |vs| => Sanitize(vs[i], allowed))
  }

  function Invoke(w: World, st: State, v: Value, m: string, args: seq<Value>): Result_ {
    var elems := if v.Ref? && v.loc < |st.heap| && st.heap[v.loc].Arr? then st.heap[v.loc].elems else [];
    var a := w.builtins(m, elems, args, st.tick);
    var allowed := elems + args;
    var st1 := if v.Ref? && v.loc < |st.heap| && !IsPureMethod(m)
               then Ticked(st).(heap := st.heap[v.loc := Arr(SanitizeAll(a.elems, allowed))]) else Ticked(st);
    if a.built then
      Result_(Normal(Ref(|st1.heap|)), st1.(heap := st1.heap + [Arr(SanitizeAll(a.elems, allowed))]))
    else Result_(Normal(Sanitize(a.value, allowed)), st1)
  }

  // ---- expressions --------------------------------------------------------------------

  function Eval(fuel: nat, w: World, st: State, e: Expr): Result_
    decreases fuel, e, 1
  {
    match e
    case Num(v) => Result_(Normal(Number(v)), st)
    case Ident(x) => if x in st.env then Result_(Normal(st.env[x]), st) else Ask(w, st, x, [])
    case Paren(i) => Eval(fuel, w, st, i)
    case Field(o, f) =>
      var r := Eval(fuel, w, st, o);
      if !r.out.Normal? then r else GetField(w, r.st, r.out.v, f)
    case Index(o, i) =>
      var r := Eval(fuel, w, st, o);
      if !r.out.Normal? then r
      else
        var k := Eval(fuel, w, r.st, i);
        if !k.out.Normal? then k else GetElement(w, k.st, r.out.v, k.out.v)
    case Bin(op, a, b) =>
      var r := Eval(fuel, w, st, a);
      if !r.out.Normal? then r
      else
        var q := Eval(fuel, w, r.st, b);
        if !q.out.Normal? then q else Apply(w, q.st, op, r.out.v, q.out.v)
    case Not(a) =>
      var r := Eval(fuel, w, st, a);
      if !r.out.Normal? then r else Result_(Normal(Bool(!Truthy(r.out.v))), r.st)
    case Delete(a) =>
      var r := Eval(fuel, w, st, a);
      if !r.out.Normal? then r else Result_(Normal(Bool(true)), r.st)
    case AssignVar(x, a) =>
      var r := Eval(fuel, w, st, a);
      if !r.out.Normal? then r else Result_(r.out, Assigned(r.st, x, r.out.v))
    case AssignField(o, f, a) =>
      var r := Eval(fuel, w, st, o);
      if !r.out.Normal? then r
      else
        var q := Eval(fuel, w, r.st, a);
        if !q.out.Normal? then q else PutField(q.st, r.out.v, f, q.out.v)
    case AssignIndex(o, i, a) =>
      var r := Eval(fuel, w, st, o);
      if !r.out.Normal? then r
      else
        var k := Eval(fuel, w, r.st, i);
        if !k.out.Normal? then k
        else
          var q := Eval(fuel, w, k.st, a);
          if !q.out.Normal? then q else PutElement(q.st, r.out.v, k.out.v, q.out.v)
    case Update(plus, a) => EvalUpdate(fuel, w, st, plus, a)
    case Call(f, args) =>
      var r := EvalArgs(fuel, w, st, args);
      if !r.out.Normal? then Result_(r.out, r.st)
      else if f !in w.prog then Ask(w, r.st, f, r.values)
      else if fuel == 0 then Result_(OutOfFuel, r.st)
      else
        var q := Run(fuel - 1, Entering(w, f, r.values), w.prog[f], r.values, r.st.heap, r.st.tick);
        Result_(q.out, State(r.st.env, q.st.heap, q.st.tick))
    case MethodCall(o, m, args) =>
      var r := Eval(fuel, w, st, o);
      if !r.out.Normal? then r
      else
        var q := EvalArgs(fuel, w, r.st, args);
        if !q.out.Normal? then Result_(q.out, q.st) else Invoke(w, q.st, r.out.v, m, q.values)
  }

  function EvalUpdate(fuel: nat, w: World, st: State, plus: bool, a: Expr): Result_
    decreases fuel, a, 2
  {
    match a
    case Paren(i) => EvalUpdate(fuel, w, st, plus, i)
    case Ident(x) =>
      if x !in st.env then Ask(w, st, x, [])
      else
        var next := Stepped(w, st, plus, st.env[x]);
        Result_(Normal(st.env[x]), Assigned(next.st, x, next.out.v))
    case Field(o, f) =>
      var r := Eval(fuel, w, st, o);
      if !r.out.Normal? then r
      else
        var next := Ask(w, r.st, "update", [r.out.v]);
        PutField(next.st, r.out.v, f, next.out.v)
    case Index(o, i) =>
      var r := Eval(fuel, w, st, o);
      if !r.out.Normal? then r
      else
        var k := Eval(fuel, w, r.st, i);
        if !k.out.Normal? then k
        else
          var next := Ask(w, k.st, "update", [r.out.v, k.out.v]);
          PutElement(next.st, r.out.v, k.out.v, next.out.v)
    case _ => Result_(Thrown, st)
  }

  function Stepped(w: World, st: State, plus: bool, v: Value): (r: Result_)
    ensures r.out.Normal?
  {
    if v.Number? then Result_(Normal(Number(if plus then v.r + 1.0 else v.r - 1.0)), st)
    else Ask(w, st, "step", [v])
  }

  /** Names that are not local belong to the surroundings and are not tracked. */
  function Assigned(st: State, x: string, v: Value): State {
    if x in st.env then st.(env := st.env[x := v]) else st
  }

  function EvalArgs(fuel: nat, w: World, st: State, args: Args): (r: ArgsResult)
    ensures r.out.Normal? ==> |r.values| == Arity(args)
    decreases fuel, args, 1
  {
    match args
    case NoArgs => ArgsResult(Normal(Undef), [], st)
    case Arg(e, rest) =>
      var r := Eval(fuel, w, st, e);
      if !r.out.Normal? then ArgsResult(r.out, [], r.st)
      else
        var q := EvalArgs(fuel, w, r.st, rest);
        if !q.out.Normal? then q else ArgsResult(q.out, [r.out.v] + q.values, q.st)
  }

  function Arity(args: Args): nat {
    match args
    case NoArgs => 0
    case Arg(_, rest) => 1 + Arity(rest)
  }

  /** Parameters hold the arguments, other locals start undefined. */
  function Bind(f: Func, values: seq<Value>): Env {
    map x | x in (set y | y in f.params) + Locals(f.body) ::
      if x !in f.params then Undef
      else
        var k := ParamIndex(f.params, x);
        if k < |values| then values[k] else Undef
  }

  /** The world of a callee: whether all its reads count. */
  function Entering(w: World, f: string, values: seq<Value>): World {
    w.(every := f in w.quiet || exists i :: 0 <= i < |values| && values[i].Ref? && values[i].loc in w.watched)
  }

  function ParamIndex(params: seq<string>, x: string): (k: nat)
    requires x in params
    ensures k < |params| && params[k] == x
  {
    if params[0] == x then 0 else 1 + ParamIndex(params[1..], x)
  }

  /** A call: a fresh environment, the caller's heap. */
  function Run(fuel: nat, w: World, f: Func, values: seq<Value>, heap: Heap, tick: nat): Result_
    decreases fuel, f.body, 2
  {
    var r := ExecList(fuel, w, State(Bind(f, values), heap, tick), f.body);
    match r.out
    case Returned(v) => Result_(Normal(v), r.st)
    case Thrown => r
    case OutOfBounds => r
    case OutOfFuel => r
    case _ => Result_(Normal(Undef), r.st)
  }

  // ---- statements ---------------------------------------------------------------------

  function EvalOption(fuel: nat, w: World, st: State, e: Option<Expr>, default: Value): Result_
    decreases fuel, e, 1
  {
    if e.None? then Result_(Normal(default), st) else Eval(fuel, w, st, e.value)
  }

  function ExecDecls(fuel: nat, w: World, st: State, ds: Decls): Result_
    decreases fuel, ds, 1
  {
    match ds
    case NoDecls => Result_(Normal(Undef), st)
    case Decl(x, init, rest) =>
      if init.None? then ExecDecls(fuel, w, st, rest)
      else
        var r := Eval(fuel, w, st, init.value);
        if !r.out.Normal? then r
        else ExecDecls(fuel, w, r.st.(env := r.st.env[x := r.out.v]), rest)
  }

  function Exec(fuel: nat, w: World, st: State, s: Stmt): Result_
    decreases fuel, s, 1
  {
    match s
    case Exp(e) => Eval(fuel, w, st, e)
    case Var(ds) => ExecDecls(fuel, w, st, ds)
    case If(t, a, b) =>
      var r := Eval(fuel, w, st, t);
      if !r.out.Normal? then r
      else if Truthy(r.out.v) then Exec(fuel, w, r.st, a)
      else if b.Some? then Exec(fuel, w, r.st, b.value)
      else r
    case While(_, _) => Loop(fuel, w, st, s)
    case For(ds, _, _, _) =>
      var r := ExecDecls(fuel, w, st, ds);
      if !r.out.Normal? then r else Loop(fuel, w, r.st, s)
    case ForOf(x, src, b) =>
      var r := Eval(fuel, w, st, src);
      if !r.out.Normal? then r
      else if r.out.v.Ref? && r.out.v.loc < |r.st.heap| && r.st.heap[r.out.v.loc].Arr?
      then Iterate(fuel, w, r.st, x, b, r.st.heap[r.out.v.loc].elems)
      else Iterate(fuel, w, Ticked(r.st), x, b, AskAll(w, r.st, r.out.v))
    case Block(ss) => ExecList(fuel, w, st, ss)
    case Return(v) =>
      var r := EvalOption(fuel, w, st, v, Undef);
      if !r.out.Normal? then r else Result_(Returned(r.out.v), r.st)
    case Throw(e) =>
      var r := Eval(fuel, w, st, e);
      if !r.out.Normal? then r else Result_(Thrown, r.st)
    case Break => Result_(Broke, st)
    case Continue => Result_(Continued, st)
  }

  /** The iterations of a `while` or `for` loop; every round after the first costs fuel. */
  function Loop(fuel: nat, w: World, st: State, s: Stmt): Result_
    requires s.While? || s.For?
    decreases fuel, s, 0
  {
    var t := if s.While? then Eval(fuel, w, st, s.test)
             else if s.until.Some? then Eval(fuel, w, st, s.until.value)
             else Result_(Normal(Bool(true)), st);
    if !t.out.Normal? then t
    else if !Truthy(t.out.v) then Result_(Normal(Undef), t.st)
    else
      var r := Exec(fuel, w, t.st, s.body);
      if r.out.Broke? then Result_(Normal(Undef), r.st)
      else if !r.out.Normal? && !r.out.Continued? then r
      else
        var u := if s.For? && s.update.Some? then Eval(fuel, w, r.st, s.update.value)
                 else Result_(Normal(Undef), r.st);
        if !u.out.Normal? then u
        else if fuel == 0 then Result_(OutOfFuel, u.st)
        else Loop(fuel - 1, w, u.st, s)
  }

  /** `for (x of ...)` over the elements the array had when the loop started. */
  function Iterate(fuel: nat, w: World, st: State, x: string, b: Stmt, elems: seq<Value>): Result_
    decreases fuel, b, 2, |elems|
  {
    if elems == [] then Result_(Normal(Undef), st)
    else
      var r := Exec(fuel, w, st.(env := st.env[x := elems[0]]), b);
      if r.out.Broke? then Result_(Normal(Undef), r.st)
      else if !r.out.Normal? && !r.out.Continued? then r
      else Iterate(fuel, w, r.st, x, b, elems[1..])
  }

  function ExecList(fuel: nat, w: World, st: State, ss: Stmts): Result_
    decreases fuel, ss, 1
  {
    match ss
    case Done => Result_(Normal(Undef), st)
    case Then(s, rest) =>
      var r := Exec(fuel, w, st, s);
      if !r.out.Normal? then r else ExecList(fuel, w, r.st, rest)
  }
}
