/**
 The conditions under which the analysis is sound.  Its tables are kept by name and never
 retracted, and some positions are not visited at all; a function is disciplined when neither
 matters: no name changes its role, emptiness guards stand in the outermost list, and unvisited
 positions are plain.
 */
module CloneDiscipline {
  import opened Wrappers
  import opened CloneSyntax
  import opened CloneJudgement

  /** An identifier, possibly behind field accesses and parentheses: nothing to visit. */
  predicate Plain(e: Expr) {
    match e
    case Ident(_) => true
    case Field(o, _) => Plain(o)
    case Paren(i) => Plain(i)
    case _ => false
  }

  predicate HidesNothing(o: Expr) { MemberRoot(o).Some? ==> Plain(o) }

  /** Positions the visitor skips are plain: receivers of method calls and sources of `for-of`
      that are member chains, parenthesised links, assignment targets and update operands. */
  predicate VisibleExpr(e: Expr)
    decreases e, 1
  {
    match e
    case Num(_) => true
    case Ident(_) => true
    case Paren(i) => VisibleExpr(i)
    case Field(o, _) => VisibleExpr(o) && (o.Paren? ==> HidesNothing(o))
    case Index(o, i) => VisibleExpr(o) && VisibleExpr(i) && (o.Paren? ==> HidesNothing(o))
    case Bin(_, l, r) => VisibleExpr(l) && VisibleExpr(r)
    case Not(a) => VisibleExpr(a)
    case Delete(a) => VisibleExpr(a)
    case AssignVar(_, r) => VisibleExpr(r)
    case AssignField(o, _, r) => Plain(o) && VisibleExpr(r)
    case AssignIndex(o, i, r) => Plain(o) && VisibleExpr(i) && VisibleExpr(r)
    case Update(_, a) => Plain(a)
    case Call(_, args) => VisibleArgs(args)
    case MethodCall(o, _, args) => VisibleExpr(o) && HidesNothing(o) && VisibleArgs(args)
  }

  predicate VisibleArgs(args: Args)
    decreases args, 0
  {
    match args
    case NoArgs => true
    case Arg(e, rest) => VisibleExpr(e) && VisibleArgs(rest)
  }

  predicate VisibleOption(e: Option<Expr>) { e.Some? ==> VisibleExpr(e.value) }

  predicate VisibleDecls(ds: Decls)
    decreases ds
  {
    match ds
    case NoDecls => true
    case Decl(_, init, rest) => VisibleOption(init) && VisibleDecls(rest)
  }

  predicate HeaderDistinct(ds: Decls)
    decreases ds
  {
    match ds
    case NoDecls => true
    case Decl(x, _, rest) => !Declares(rest, x) && HeaderDistinct(rest)
  }

  /** `s` declares `x`, by `var` or as a `for-of` variable. */
  predicate Binds(s: Stmt, x: string)
    decreases s
  {
    match s
    case Var(ds) => Declares(ds, x)
    case If(_, a, b) => Binds(a, x) || (b.Some? && Binds(b.value, x))
    case While(_, b) => Binds(b, x)
    case For(ds, _, _, b) => Declares(ds, x) || Binds(b, x)
    case ForOf(y, _, b) => x == y || Binds(b, x)
    case Block(ss) => BindsIn(ss, x)
    case _ => false
  }

  predicate BindsIn(ss: Stmts, x: string)
    decreases ss
  {
    match ss
    case Done => false
    case Then(s, rest) => Binds(s, x) || BindsIn(rest, x)
  }

  /** A name that ever holds a length holds that length wherever it is declared. */
  predicate ConformsDecls(lengths: map<string, string>, ds: Decls)
    decreases ds
  {
    match ds
    case NoDecls => true
    case Decl(x, init, rest) =>
      && (init.Some? ==> if LengthOf(init.value).Some? then x in lengths && lengths[x] == LengthOf(init.value).value
                         else x !in lengths)
      && ConformsDecls(lengths, rest)
  }

  /** Everything asked of a statement inside a function body: what it hides, what it declares,
      no emptiness guards in nested lists, no loop index declared again inside its loop. */
  ghost predicate Tidy(lengths: map<string, string>, s: Stmt)
    decreases s
  {
    match s
    case Exp(e) => VisibleExpr(e)
    case Var(ds) => VisibleDecls(ds) && ConformsDecls(lengths, ds)
    case If(t, a, b) => VisibleExpr(t) && Tidy(lengths, a) && (b.Some? ==> Tidy(lengths, b.value))
    case While(t, b) => VisibleExpr(t) && Tidy(lengths, b)
    case For(ds, t, u, b) =>
      && VisibleDecls(ds) && ConformsDecls(lengths, ds) && HeaderDistinct(ds)
      && VisibleOption(t) && VisibleOption(u) && Tidy(lengths, b)
      && (forall x :: Declares(ds, x) ==> !Binds(b, x))
    case ForOf(x, src, b) =>
      x !in lengths && VisibleExpr(src) && HidesNothing(src) && Tidy(lengths, b)
    case Block(ss) => TidyBlock(lengths, ss)
    case Return(v) => VisibleOption(v)
    case Throw(e) => VisibleExpr(e)
    case Break => true
    case Continue => true
  }

  ghost predicate TidyBlock(lengths: map<string, string>, ss: Stmts)
    decreases ss
  {
    match ss
    case Done => true
    case Then(s, rest) => Tidy(lengths, s) && EmptyGuard(s).None? && TidyBlock(lengths, rest)
  }

  /** The outermost list may hold emptiness guards. */
  ghost predicate TidyList(lengths: map<string, string>, ss: Stmts)
    decreases ss
  {
    match ss
    case Done => true
    case Then(s, rest) => Tidy(lengths, s) && TidyList(lengths, rest)
  }

  ghost predicate TidyFunction(lengths: map<string, string>, f: Func) {
    && TidyList(lengths, f.body) && (forall n :: n in lengths ==> n in Locals(f.body))
    && (forall x :: x in f.params ==> !BindsIn(f.body, x) && x !in lengths)
  }

  /** Distinct parameters that are never redeclared, and a tidy body. */
  ghost predicate Disciplined(f: Func) {
    && Distinct(f.params)
    && exists lengths :: TidyFunction(lengths, f)
  }

  // ---- writes -------------------------------------------------------------------------

  /** No assignment or update of `x` anywhere in `e`. */
  predicate Leaves(e: Expr, x: string)
    decreases e, 1
  {
    match e
    case Num(_) => true
    case Ident(_) => true
    case Paren(i) => Leaves(i, x)
    case Field(o, _) => Leaves(o, x)
    case Index(o, i) => Leaves(o, x) && Leaves(i, x)
    case Bin(_, l, r) => Leaves(l, x) && Leaves(r, x)
    case Not(a) => Leaves(a, x)
    case Delete(a) => Leaves(a, x)
    case AssignVar(y, r) => x != y && Leaves(r, x)
    case AssignField(o, _, r) => Leaves(o, x) && Leaves(r, x)
    case AssignIndex(o, i, r) => Leaves(o, x) && Leaves(i, x) && Leaves(r, x)
    case Update(_, a) => Strip(a) != Ident(x) && Leaves(a, x)
    case Call(_, args) => LeavesArgs(args, x)
    case MethodCall(o, _, args) => Leaves(o, x) && LeavesArgs(args, x)
  }

  predicate LeavesArgs(args: Args, x: string)
    decreases args, 0
  {
    match args
    case NoArgs => true
    case Arg(e, rest) => Leaves(e, x) && LeavesArgs(rest, x)
  }

  predicate LeavesOption(e: Option<Expr>, x: string) { e.Some? ==> Leaves(e.value, x) }

  predicate LeavesDecls(ds: Decls, x: string)
    decreases ds
  {
    match ds
    case NoDecls => true
    case Decl(_, init, rest) => LeavesOption(init, x) && LeavesDecls(rest, x)
  }

  predicate LeavesStmt(s: Stmt, x: string)
    decreases s
  {
    match s
    case Exp(e) => Leaves(e, x)
    case Var(ds) => LeavesDecls(ds, x)
    case If(t, a, b) => Leaves(t, x) && LeavesStmt(a, x) && (b.Some? ==> LeavesStmt(b.value, x))
    case While(t, b) => Leaves(t, x) && LeavesStmt(b, x)
    case For(ds, t, u, b) => LeavesDecls(ds, x) && LeavesOption(t, x) && LeavesOption(u, x) && LeavesStmt(b, x)
    case ForOf(_, src, b) => Leaves(src, x) && LeavesStmt(b, x)
    case Block(ss) => LeavesBlock(ss, x)
    case Return(v) => LeavesOption(v, x)
    case Throw(e) => Leaves(e, x)
    case Break => true
    case Continue => true
  }

  predicate LeavesBlock(ss: Stmts, x: string)
    decreases ss
  {
    match ss
    case Done => true
    case Then(s, rest) => LeavesStmt(s, x) && LeavesBlock(rest, x)
  }

  lemma {:induction false} PlainLeaves(e: Expr, x: string)
    requires Plain(e)
    ensures Leaves(e, x) && VisibleExpr(e) && MemberRoot(e).Some?
  {
    match e
    case Ident(_) =>
    case Field(o, _) => PlainLeaves(o, x);
    case Paren(i) => PlainLeaves(i, x);
  }
}
