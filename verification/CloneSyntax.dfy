/**
 The first-order JavaScript subset that the container analysis for ahead-of-time clones works
 on: functions over locals, arrays and flat records, without closures or function values.
 */
module CloneSyntax {
  import opened Wrappers

  datatype BinOp = Lt | EqEq | EqEqEq | Sub | Add

  datatype Expr =
    | Num(value: real)
    | Ident(name: string)
    | Paren(inner: Expr)
    | Field(obj: Expr, field: string)
    | Index(obj: Expr, index: Expr)
    | Bin(op: BinOp, left: Expr, right: Expr)
    | Not(arg: Expr)
    | Delete(arg: Expr)
    | AssignVar(name: string, right: Expr)
    | AssignField(obj: Expr, field: string, right: Expr)
    | AssignIndex(obj: Expr, index: Expr, right: Expr)
    | Update(plus: bool, arg: Expr)
    | Call(callee: string, args: Args)
    | MethodCall(obj: Expr, method_: string, args: Args)

  datatype Args = NoArgs | Arg(head: Expr, tail: Args)

  /** `var` declarators: `x` or `x = init`. */
  datatype Decls = NoDecls | Decl(name: string, init: Option<Expr>, rest: Decls)

  datatype Stmt =
    | Exp(e: Expr)
    | Var(decls: Decls)
    | If(test: Expr, cons: Stmt, alt: Option<Stmt>)
    | While(test: Expr, body: Stmt)
    | For(decls: Decls, until: Option<Expr>, update: Option<Expr>, body: Stmt)
    | ForOf(name: string, source: Expr, body: Stmt)
    | Block(stmts: Stmts)
    | Return(value: Option<Expr>)
    | Throw(thrown: Expr)
    | Break
    | Continue

  datatype Stmts = Done | Then(head: Stmt, tail: Stmts)

  datatype Func = Func(params: seq<string>, body: Stmts)

  type Program = map<string, Func>

  // ---- shapes the analysis recognises -------------------------------------------------

  function Strip(e: Expr): (r: Expr)
    ensures !r.Paren?
    ensures e.Paren? ==> r < e
    ensures !e.Paren? ==> r == e
  {
    match e
    case Paren(inner) => Strip(inner)
    case _ => e
  }

  /** The identifier at the root of a chain of member accesses. */
  function MemberRoot(e: Expr): Option<string> {
    match e
    case Ident(x) => Some(x)
    case Field(o, _) => MemberRoot(o)
    case Index(o, _) => MemberRoot(o)
    case Paren(i) => MemberRoot(i)
    case _ => None
  }

  predicate IsNum(e: Expr, v: real) { Strip(e).Num? && Strip(e).value == v }

  /** `P.length` for a plain identifier `P`. */
  function LengthOf(e: Expr): Option<string> {
    var m := Strip(e);
    if m.Field? && m.field == "length" && Strip(m.obj).Ident? then Some(Strip(m.obj).name) else None
  }

  predicate Exits(s: Stmt) { s.Throw? || s.Return? }

  predicate LastExits(ss: Stmts) {
    match ss
    case Done => false
    case Then(s, Done) => Exits(s)
    case Then(_, rest) => LastExits(rest)
  }

  /** `if (P.length === 0) throw/return ...` or `if (!P.length) ...`: afterwards P is non-empty. */
  function EmptyGuard(s: Stmt): Option<string> {
    if !s.If? || s.alt.Some? then None
    else if !(if s.cons.Block? then LastExits(s.cons.stmts) else Exits(s.cons)) then None
    else
      var t := Strip(s.test);
      if t.Bin? && (t.op.EqEqEq? || t.op.EqEq?) then
        if IsNum(t.right, 0.0) then LengthOf(t.left)
        else if IsNum(t.left, 0.0) then LengthOf(t.right)
        else None
      else if t.Not? then LengthOf(t.arg)
      else None
  }

  /** A non-negative integer literal. */
  predicate IsCount(e: Expr) {
    var n := Strip(e);
    n.Num? && n.value >= 0.0 && n.value == n.value.Floor as real
  }

  predicate IsPureMethod(m: string) {
    m in {"join", "indexOf", "lastIndexOf", "includes", "slice", "concat", "map", "filter",
          "forEach", "reduce", "some", "every", "findIndex", "toString"}
  }

  // ---- loop headers -------------------------------------------------------------------

  /** The test is `i < ...`. */
  predicate TestsIndex(test: Option<Expr>, i: string) {
    && test.Some?
    && var t := Strip(test.value);
       t.Bin? && t.op.Lt? && Strip(t.left) == Ident(i)
  }

  /** The update is `i++`. */
  predicate StepsIndex(update: Option<Expr>, i: string) {
    && update.Some?
    && var u := Strip(update.value);
       u.Update? && u.plus && Strip(u.arg) == Ident(i)
  }

  // ---- declared names -----------------------------------------------------------------

  function DeclaredNames(ds: Decls): set<string> {
    match ds
    case NoDecls => {}
    case Decl(x, _, rest) => {x} + DeclaredNames(rest)
  }

  function StmtLocals(s: Stmt): set<string>
    decreases s
  {
    match s
    case Var(ds) => DeclaredNames(ds)
    case If(_, a, b) => StmtLocals(a) + if b.Some? then StmtLocals(b.value) else {}
    case While(_, b) => StmtLocals(b)
    case For(ds, _, _, b) => DeclaredNames(ds) + StmtLocals(b)
    case ForOf(x, _, b) => {x} + StmtLocals(b)
    case Block(ss) => Locals(ss)
    case _ => {}
  }

  /** The names a body declares; `var` is hoisted to the whole function. */
  function Locals(ss: Stmts): set<string>
    decreases ss
  {
    match ss
    case Done => {}
    case Then(s, rest) => StmtLocals(s) + Locals(rest)
  }
}
