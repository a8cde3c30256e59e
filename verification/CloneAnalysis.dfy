/**
 The syntactic analysis: one visit of a function body counts element reads, proves them in
 bounds where it can, and checks that container parameters are only read.  The visitor's
 mutable tables are threaded through as `RO`.
 */
module CloneAnalysis {
  import opened Wrappers
  import opened CloneSyntax

  datatype RO = RO(
    ok: bool,
    passes: seq<(string, nat)>,
    safe: seq<(string, string)>,
    nonempty: set<string>,
    lens: map<string, string>,
    assigns: map<string, nat>,
    loops: map<string, nat>,
    lensUsed: set<string>,
    total: nat,
    proven: nat)

  const START := RO(true, [], [], {}, map[], map[], map[], {}, 0, 0)

  /** `names` are the container parameters, `fields` the record fields that hold arrays. */
  datatype Scope = Scope(names: set<string>, fields: set<string>)

  predicate Rooted(c: Scope, e: Expr) {
    MemberRoot(e).Some? && MemberRoot(e).value in c.names
  }

  function Count(m: map<string, nat>, x: string): nat { if x in m then m[x] else 0 }
  function Bump(m: map<string, nat>, x: string): map<string, nat> { m[x := Count(m, x) + 1] }

  function FailIf(s: RO, bad: bool): RO { if bad then s.(ok := false) else s }

  /** `p[index]` is a read that cannot be out of bounds. */
  predicate IndexSafe(s: RO, p: string, index: Expr) {
    var i := Strip(index);
    if i.Ident? then (p, i.name) in s.safe
    else if IsNum(i, 0.0) then p in s.nonempty
    else if i.Bin? && i.op.Sub? && IsNum(i.right, 1.0) then LengthOf(i.left) == Some(p) && p in s.nonempty
    else false
  }

  // ---- the for-loop pattern -----------------------------------------------------------

  /** The header's declarators: lengths become aliases, one integer literal names the index.
      `None` when the header does not fit; aliases seen so far stay recorded. */
  function ScanHeader(c: Scope, s: RO, ds: Decls, index: Option<string>): (RO, Option<Option<string>>)
    decreases ds
  {
    match ds
    case NoDecls => (s, Some(index))
    case Decl(x, init, rest) =>
      if init.None? then (s, None)
      else if LengthOf(init.value).Some? && LengthOf(init.value).value in c.names then
        ScanHeader(c, s.(lens := s.lens[x := LengthOf(init.value).value]), rest, index)
      else if IsCount(init.value) && index.None? then ScanHeader(c, s, rest, Some(x))
      else (s, None)
  }

  /** The bound of the loop test: a length, or an alias of one. */
  function LoopBound(c: Scope, s: RO, e: Expr): (RO, Option<string>) {
    var b := Strip(e);
    if b.Ident? then
      if b.name in s.lens then (s.(lensUsed := s.lensUsed + {b.name}), Some(s.lens[b.name])) else (s, None)
    else if LengthOf(b).Some? && LengthOf(b).value in c.names then (s, LengthOf(b))
    else (s, None)
  }

  /** `for (var i = K; i < p.length; i++)`: the (array, index) pair. */
  function LoopPattern(c: Scope, s: RO, ds: Decls, test: Option<Expr>,
                       update: Option<Expr>): (RO, Option<(string, string)>) {
    var (s1, header) := ScanHeader(c, s, ds, None);
    if header.None? || header.value.None? then (s1, None)
    else
      var i := header.value.value;
      if !TestsIndex(test, i) then (s1, None)
      else
        var (s2, bound) := LoopBound(c, s1, Strip(test.value).right);
        if bound.None? || !StepsIndex(update, i) then (s2, None)
        else (s2, Some((bound.value, i)))
  }

  // ---- the visitor --------------------------------------------------------------------

  function VisitExpr(c: Scope, s: RO, e: Expr): RO
    decreases e, 1
  {
    match e
    case Num(_) => s
    case Ident(x) => FailIf(s, x in c.names)
    case Paren(i) => VisitExpr(c, s, i)
    case Field(o, f) =>
      if Rooted(c, e) then VisitChain(c, FailIf(s, f in c.fields), e) else VisitExpr(c, s, o)
    case Index(o, i) =>
      if Rooted(c, e) then VisitChain(c, s, e)
      else VisitExpr(c, VisitExpr(c, s.(total := s.total + 1), o), i)
    case Bin(_, l, r) => VisitExpr(c, VisitExpr(c, s, l), r)
    case Not(a) => VisitExpr(c, s, a)
    case Delete(a) => VisitExpr(c, FailIf(s, Rooted(c, a)), a)
    case AssignVar(x, r) =>
      VisitExpr(c, FailIf(s.(assigns := Bump(s.assigns, x)), x in c.names), r)
    case AssignField(o, _, r) => VisitExpr(c, FailIf(s, Rooted(c, o)), r)
    case AssignIndex(o, i, r) => VisitExpr(c, VisitExpr(c, FailIf(s, Rooted(c, o)), r), i)
    case Update(_, a) =>
      var s1 := FailIf(s, Rooted(c, a));
      if Strip(a).Ident? then s1.(assigns := Bump(s1.assigns, Strip(a).name)) else s1
    case Call(f, args) => VisitArgs(c, FailIf(s, f in c.names), f, 0, args)
    case MethodCall(o, m, args) =>
      if Rooted(c, o) then VisitPlainArgs(c, FailIf(s, !IsPureMethod(m)), args)
      else VisitPlainArgs(c, VisitExpr(c, s, o), args)
  }

  /** The links of a rooted member chain, outermost first; every computed link is a read. */
  function VisitChain(c: Scope, s: RO, e: Expr): RO
    decreases e, 0
  {
    match e
    case Field(o, _) => if IsMember(o) then VisitChain(c, s, o) else s
    case Index(o, i) =>
      var known := Strip(o).Ident? && Strip(o).name in c.names && IndexSafe(s, Strip(o).name, i);
      var s1 := FailIf(s.(total := s.total + 1, proven := s.proven + if known then 1 else 0), !known);
      var s2 := VisitExpr(c, s1, i);
      if IsMember(o) then VisitChain(c, s2, o) else s2
    case _ => s
  }

  predicate IsMember(e: Expr) { e.Field? || e.Index? }

  /** Arguments of a call by name: a bare container is passed on, to be checked in the callee. */
  function VisitArgs(c: Scope, s: RO, f: string, k: nat, args: Args): RO
    decreases args, 0
  {
    match args
    case NoArgs => s
    case Arg(e, rest) =>
      var s1 := if e.Ident? && e.name in c.names then s.(passes := s.passes + [(f, k)]) else VisitExpr(c, s, e);
      VisitArgs(c, s1, f, k + 1, rest)
  }

  function VisitPlainArgs(c: Scope, s: RO, args: Args): RO
    decreases args, 0
  {
    match args
    case NoArgs => s
    case Arg(e, rest) => VisitPlainArgs(c, VisitExpr(c, s, e), rest)
  }

  function VisitOption(c: Scope, s: RO, e: Option<Expr>): RO {
    if e.Some? then VisitExpr(c, s, e.value) else s
  }

  function VisitDecls(c: Scope, s: RO, ds: Decls): RO
    decreases ds
  {
    match ds
    case NoDecls => s
    case Decl(x, init, rest) =>
      var s1 := if init.Some? && LengthOf(init.value).Some? && LengthOf(init.value).value in c.names
                then s.(lens := s.lens[x := LengthOf(init.value).value]) else s;
      VisitDecls(c, VisitOption(c, s1, init), rest)
  }

  function VisitStmt(c: Scope, s: RO, st: Stmt): RO
    decreases st, 1
  {
    match st
    case Exp(e) => VisitExpr(c, s, e)
    case Var(ds) => VisitDecls(c, s, ds)
    case If(t, a, b) =>
      var s1 := VisitStmt(c, VisitExpr(c, s, t), a);
      if b.Some? then VisitStmt(c, s1, b.value) else s1
    case While(t, b) => VisitStmt(c, VisitExpr(c, s, t), b)
    case For(ds, t, u, b) =>
      var (s1, loop) := LoopPattern(c, s, ds, t, u);
      if loop.Some? then
        var s2 := s1.(loops := Bump(s1.loops, loop.value.1), safe := s1.safe + [loop.value]);
        VisitStmt(c, VisitHeader(c, s2, ds, t, u), b).(safe := s1.safe)
      else VisitStmt(c, VisitHeader(c, s1, ds, t, u), b)
    case ForOf(_, src, b) =>
      VisitStmt(c, if Rooted(c, src) then s else VisitExpr(c, s, src), b)
    case Block(ss) => VisitStmts(c, s, ss)
    case Return(v) => VisitOption(c, s, v)
    case Throw(e) => VisitExpr(c, s, e)
    case Break => s
    case Continue => s
  }

  function VisitHeader(c: Scope, s: RO, ds: Decls, t: Option<Expr>, u: Option<Expr>): RO {
    VisitOption(c, VisitOption(c, VisitDecls(c, s, ds), t), u)
  }

  /** A statement list: an emptiness guard makes its array non-empty from there on. */
  function VisitStmts(c: Scope, s: RO, ss: Stmts): RO
    decreases ss, 0
  {
    match ss
    case Done => s
    case Then(st, rest) =>
      var s1 := VisitStmt(c, s, st);
      var s2 := if EmptyGuard(st).Some? then s1.(nonempty := s1.nonempty + {EmptyGuard(st).value}) else s1;
      VisitStmts(c, s2, rest)
  }

  /** Loop variables and length aliases are assigned nowhere but in their loop header. */
  predicate BookkeepingOk(s: RO) {
    && (forall v :: v in s.loops ==> Count(s.assigns, v) == s.loops[v])
    && (forall v :: v in s.lensUsed ==> Count(s.assigns, v) == 0)
  }

  // ---- whole functions ----------------------------------------------------------------

  /** `names` are only read in `f`, and in every function they are passed to, at most `depth`
      calls deep: the element reads seen, and how many of them are proven in bounds. */
  ghost function ReadOnlyOk(prog: Program, fields: set<string>, f: string, names: set<string>,
                            depth: nat): Option<(nat, nat)>
    decreases depth, 1, 0
  {
    if f !in prog then None else
    var s := VisitStmts(Scope(names, fields), START, prog[f].body);
    if !s.ok || !BookkeepingOk(s) || (s.passes != [] && depth == 0) then None
    else SumPasses(prog, fields, f, s.passes, depth, (s.total, s.proven))
  }

  ghost function SumPasses(prog: Program, fields: set<string>, f: string, passes: seq<(string, nat)>, depth: nat,
                           sum: (nat, nat)): Option<(nat, nat)>
    requires passes != [] ==> depth > 0
    decreases depth, 0, |passes|
  {
    if passes == [] then Some(sum)
    else
      var (callee, k) := passes[0];
      if callee !in prog || k >= |prog[callee].params| || callee == f then None
      else
        var r := ReadOnlyOk(prog, fields, callee, {prog[callee].params[k]}, depth - 1);
        if r.None? then None
        else SumPasses(prog, fields, f, passes[1..], depth, (sum.0 + r.value.0, sum.1 + r.value.1))
  }
}
