/**
 A declarative reading of what the analysis establishes, as a judgement on syntax: which
 expressions and statements only read the containers in scope and only read elements that are
 in bounds.  `safe` holds the (array, index) pairs of the enclosing loops and `nonempty` the
 arrays known to have an element.
 */
module CloneJudgement {
  import opened Wrappers
  import opened CloneSyntax

  /** `aliases` maps loop bounds `n` to the container whose length they hold; `passes` are the
      (function, position) pairs a container may be passed to; under `strict` every computed
      read goes through a container. */
  datatype Ctx = Ctx(names: set<string>, fields: set<string>, aliases: map<string, string>,
                     passes: iset<(string, nat)>, strict: bool)

  type Pairs = set<(string, string)>

  predicate RootedIn(names: set<string>, e: Expr) {
    MemberRoot(e).Some? && MemberRoot(e).value in names
  }

  ghost predicate Guarded(safe: Pairs, x: string) { exists p :: (p, x) in safe }

  /** A name that may be written: no container, no loop bound, no index of an enclosing loop. */
  ghost predicate Writable(c: Ctx, safe: Pairs, x: string) {
    x !in c.names && x !in c.aliases && !Guarded(safe, x)
  }

  predicate InBounds(safe: Pairs, nonempty: set<string>, p: string, index: Expr) {
    var i := Strip(index);
    if i.Ident? then (p, i.name) in safe
    else if IsNum(i, 0.0) then p in nonempty
    else if i.Bin? && i.op.Sub? && IsNum(i.right, 1.0) then LengthOf(i.left) == Some(p) && p in nonempty
    else false
  }

  ghost predicate ExprOk(c: Ctx, safe: Pairs, nonempty: set<string>, e: Expr)
    decreases e, 1
  {
    match e
    case Num(_) => true
    case Ident(x) => x !in c.names
    case Paren(i) => ExprOk(c, safe, nonempty, i)
    case Field(o, f) =>
      if RootedIn(c.names, o) then f !in c.fields && ChainOk(c, safe, nonempty, o)
      else ExprOk(c, safe, nonempty, o)
    case Index(o, i) =>
      if RootedIn(c.names, o) then ChainOk(c, safe, nonempty, e)
      else !c.strict && ExprOk(c, safe, nonempty, o) && ExprOk(c, safe, nonempty, i)
    case Bin(_, l, r) => ExprOk(c, safe, nonempty, l) && ExprOk(c, safe, nonempty, r)
    case Not(a) => ExprOk(c, safe, nonempty, a)
    case Delete(a) => !RootedIn(c.names, a) && ExprOk(c, safe, nonempty, a)
    case AssignVar(x, r) => Writable(c, safe, x) && ExprOk(c, safe, nonempty, r)
    case AssignField(o, _, r) =>
      !RootedIn(c.names, o) && ExprOk(c, safe, nonempty, o) && ExprOk(c, safe, nonempty, r)
    case AssignIndex(o, i, r) =>
      && !RootedIn(c.names, o) && ExprOk(c, safe, nonempty, o)
      && ExprOk(c, safe, nonempty, i) && ExprOk(c, safe, nonempty, r)
    case Update(_, a) => UpdateOk(c, safe, nonempty, a)
    case Call(f, args) => f !in c.names && ArgsOk(c, safe, nonempty, f, 0, args)
    case MethodCall(o, m, args) =>
      && (if RootedIn(c.names, o) then IsPureMethod(m) && ChainOk(c, safe, nonempty, o)
          else ExprOk(c, safe, nonempty, o))
      && PlainArgsOk(c, safe, nonempty, args)
  }

  /** A member chain rooted in a container: every computed link is in bounds. */
  ghost predicate ChainOk(c: Ctx, safe: Pairs, nonempty: set<string>, e: Expr)
    decreases e, 0
  {
    match e
    case Ident(_) => true
    case Paren(i) => ChainOk(c, safe, nonempty, i)
    case Field(o, _) => ChainOk(c, safe, nonempty, o)
    case Index(o, i) =>
      && Strip(o).Ident? && Strip(o).name in c.names && InBounds(safe, nonempty, Strip(o).name, i)
      && ExprOk(c, safe, nonempty, i)
    case _ => false
  }

  ghost predicate UpdateOk(c: Ctx, safe: Pairs, nonempty: set<string>, a: Expr)
    decreases a, 0
  {
    match a
    case Paren(i) => UpdateOk(c, safe, nonempty, i)
    case Ident(x) => Writable(c, safe, x)
    case Field(o, _) => !RootedIn(c.names, o) && ExprOk(c, safe, nonempty, o)
    case Index(o, i) => !RootedIn(c.names, o) && ExprOk(c, safe, nonempty, o) && ExprOk(c, safe, nonempty, i)
    case _ => true
  }

  ghost predicate ArgsOk(c: Ctx, safe: Pairs, nonempty: set<string>, f: string, k: nat, args: Args)
    decreases args, 0
  {
    match args
    case NoArgs => true
    case Arg(e, rest) =>
      && (if e.Ident? && e.name in c.names then (f, k) in c.passes else ExprOk(c, safe, nonempty, e))
      && ArgsOk(c, safe, nonempty, f, k + 1, rest)
  }

  ghost predicate PlainArgsOk(c: Ctx, safe: Pairs, nonempty: set<string>, args: Args)
    decreases args, 0
  {
    match args
    case NoArgs => true
    case Arg(e, rest) => ExprOk(c, safe, nonempty, e) && PlainArgsOk(c, safe, nonempty, rest)
  }

  ghost predicate OptionOk(c: Ctx, safe: Pairs, nonempty: set<string>, e: Option<Expr>) {
    e.Some? ==> ExprOk(c, safe, nonempty, e.value)
  }

  /** A loop bound may only ever be declared as the length it stands for. */
  ghost predicate BinderOk(c: Ctx, safe: Pairs, x: string, init: Option<Expr>) {
    && x !in c.names && !Guarded(safe, x)
    && (x in c.aliases ==> c.aliases[x] in c.names && (init.Some? ==> LengthOf(init.value) == Some(c.aliases[x])))
  }

  ghost predicate DeclsOk(c: Ctx, safe: Pairs, nonempty: set<string>, ds: Decls)
    decreases ds
  {
    match ds
    case NoDecls => true
    case Decl(x, init, rest) =>
      BinderOk(c, safe, x, init) && OptionOk(c, safe, nonempty, init) && DeclsOk(c, safe, nonempty, rest)
  }

  // ---- loops --------------------------------------------------------------------------

  predicate Declares(ds: Decls, x: string)
    decreases ds
  {
    match ds
    case NoDecls => false
    case Decl(y, _, rest) => x == y || Declares(rest, x)
  }

  /** Every declarator takes a length. */
  predicate LengthsOnly(ds: Decls)
    decreases ds
  {
    match ds
    case NoDecls => true
    case Decl(_, init, rest) => init.Some? && LengthOf(init.value).Some? && LengthsOnly(rest)
  }

  /** The header starts `i` at a non-negative integer, binds it once, and otherwise takes lengths. */
  predicate StartsIndex(ds: Decls, i: string)
    decreases ds
  {
    match ds
    case NoDecls => false
    case Decl(x, init, rest) =>
      if x == i then init.Some? && IsCount(init.value) && !Declares(rest, i) && LengthsOnly(rest)
      else init.Some? && LengthOf(init.value).Some? && StartsIndex(rest, i)
  }

  /** The test is `i < p.length`, directly or through an alias. */
  ghost predicate BoundedBy(c: Ctx, test: Option<Expr>, i: string, p: string) {
    && p in c.names && TestsIndex(test, i)
    && var b := Strip(Strip(test.value).right);
       if b.Ident? then b.name in c.aliases && c.aliases[b.name] == p else LengthOf(b) == Some(p)
  }

  ghost predicate StmtOk(c: Ctx, safe: Pairs, nonempty: set<string>, s: Stmt)
    decreases s
  {
    match s
    case Exp(e) => ExprOk(c, safe, nonempty, e)
    case Var(ds) => DeclsOk(c, safe, nonempty, ds)
    case If(t, a, b) =>
      && ExprOk(c, safe, nonempty, t) && StmtOk(c, safe, nonempty, a)
      && (b.Some? ==> StmtOk(c, safe, nonempty, b.value))
    case While(t, b) => ExprOk(c, safe, nonempty, t) && StmtOk(c, safe, nonempty, b)
    case For(ds, t, u, b) =>
      && DeclsOk(c, safe, nonempty, ds) && OptionOk(c, safe, nonempty, t) && OptionOk(c, safe, nonempty, u)
      && (StmtOk(c, safe, nonempty, b) ||
          exists p, i :: LoopPair(c, ds, t, u, p, i) && StmtOk(c, safe + {(p, i)}, nonempty, b))
    case ForOf(x, src, b) =>
      && Writable(c, safe, x)
      && (if RootedIn(c.names, src) then ChainOk(c, safe, nonempty, src) else ExprOk(c, safe, nonempty, src))
      && StmtOk(c, safe, nonempty, b)
    case Block(ss) => BlockOk(c, safe, nonempty, ss)
    case Return(v) => OptionOk(c, safe, nonempty, v)
    case Throw(e) => ExprOk(c, safe, nonempty, e)
    case Break => true
    case Continue => true
  }

  ghost predicate LoopPair(c: Ctx, ds: Decls, t: Option<Expr>, u: Option<Expr>, p: string, i: string) {
    StartsIndex(ds, i) && BoundedBy(c, t, i, p) && StepsIndex(u, i)
  }

  ghost predicate BlockOk(c: Ctx, safe: Pairs, nonempty: set<string>, ss: Stmts)
    decreases ss
  {
    match ss
    case Done => true
    case Then(s, rest) => StmtOk(c, safe, nonempty, s) && BlockOk(c, safe, nonempty, rest)
  }

  function AfterGuard(nonempty: set<string>, s: Stmt): set<string> {
    if EmptyGuard(s).Some? then nonempty + {EmptyGuard(s).value} else nonempty
  }

  /** The outermost statement list of a function: guards take effect from where they stand. */
  ghost predicate ListOk(c: Ctx, nonempty: set<string>, ss: Stmts)
    decreases ss
  {
    match ss
    case Done => true
    case Then(s, rest) => StmtOk(c, {}, nonempty, s) && ListOk(c, AfterGuard(nonempty, s), rest)
  }
}
