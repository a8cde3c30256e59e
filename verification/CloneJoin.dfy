/**
 A call may pass several containers at once, but each position of the callee is checked on its
 own.  Two judgements of the same code over different containers combine into one: both being
 strict, the code holds no computed read at all, so neither relies on what it knows of indices.
 */
module CloneJoin {
  import opened Wrappers
  import opened CloneSyntax
  import opened CloneJudgement

  datatype View = View(c: Ctx, safe: Pairs, nonempty: set<string>)

  ghost predicate Expr_(v: View, e: Expr) { ExprOk(v.c, v.safe, v.nonempty, e) }
  ghost predicate Chain_(v: View, e: Expr) { RootedIn(v.c.names, e) && ChainOk(v.c, v.safe, v.nonempty, e) }

  ghost predicate Joinable(v: View, w: View) {
    && v.c.strict && w.c.strict && v.c.names !! w.c.names
    && v.c.fields == w.c.fields && v.c.passes == w.c.passes
  }

  function Joined(v: View, w: View): Ctx {
    Ctx(v.c.names + w.c.names, v.c.fields, map[], v.c.passes, true)
  }

  lemma {:induction false} JoinExpr(v: View, w: View, n: set<string>, e: Expr)
    requires Joinable(v, w) && (Expr_(v, e) || Chain_(v, e)) && (Expr_(w, e) || Chain_(w, e))
    ensures Expr_(v, e) && Expr_(w, e) ==> ExprOk(Joined(v, w), {}, n, e)
    ensures Chain_(v, e) || Chain_(w, e) ==> ChainOk(Joined(v, w), {}, n, e)
    decreases e, 1
  {
    match e
    case Num(_) =>
    case Ident(_) =>
    case Paren(i) => JoinExpr(v, w, n, i);
    case Field(o, _) => JoinExpr(v, w, n, o);
    case Index(_, _) => assert false;
    case Bin(_, l, r) => JoinExpr(v, w, n, l); JoinExpr(v, w, n, r);
    case Not(a) => JoinExpr(v, w, n, a);
    case Delete(a) => JoinExpr(v, w, n, a);
    case AssignVar(_, r) => JoinExpr(v, w, n, r);
    case AssignField(o, _, r) => JoinExpr(v, w, n, o); JoinExpr(v, w, n, r);
    case AssignIndex(o, i, r) => JoinExpr(v, w, n, o); JoinExpr(v, w, n, i); JoinExpr(v, w, n, r);
    case Update(_, a) => JoinUpdate(v, w, n, a);
    case Call(f, args) => JoinArgs(v, w, n, f, 0, args);
    case MethodCall(o, _, args) => JoinExpr(v, w, n, o); JoinPlainArgs(v, w, n, args);
  }

  lemma {:induction false} JoinUpdate(v: View, w: View, n: set<string>, a: Expr)
    requires Joinable(v, w) && UpdateOk(v.c, v.safe, v.nonempty, a) && UpdateOk(w.c, w.safe, w.nonempty, a)
    ensures UpdateOk(Joined(v, w), {}, n, a)
    decreases a, 0
  {
    match a
    case Paren(i) => JoinUpdate(v, w, n, i);
    case Field(o, _) => JoinExpr(v, w, n, o);
    case Index(o, i) => JoinExpr(v, w, n, o); JoinExpr(v, w, n, i);
    case _ =>
  }

  lemma {:induction false} JoinArgs(v: View, w: View, n: set<string>, f: string, k: nat, args: Args)
    requires Joinable(v, w)
    requires ArgsOk(v.c, v.safe, v.nonempty, f, k, args) && ArgsOk(w.c, w.safe, w.nonempty, f, k, args)
    ensures ArgsOk(Joined(v, w), {}, n, f, k, args)
    decreases args, 0
  {
    if args.Arg? {
      JoinExpr(v, w, n, args.head);
      JoinArgs(v, w, n, f, k + 1, args.tail);
    }
  }

  lemma {:induction false} JoinPlainArgs(v: View, w: View, n: set<string>, args: Args)
    requires Joinable(v, w)
    requires PlainArgsOk(v.c, v.safe, v.nonempty, args) && PlainArgsOk(w.c, w.safe, w.nonempty, args)
    ensures PlainArgsOk(Joined(v, w), {}, n, args)
    decreases args, 0
  {
    if args.Arg? {
      JoinExpr(v, w, n, args.head);
      JoinPlainArgs(v, w, n, args.tail);
    }
  }

  lemma JoinOption(v: View, w: View, n: set<string>, e: Option<Expr>)
    requires Joinable(v, w) && OptionOk(v.c, v.safe, v.nonempty, e) && OptionOk(w.c, w.safe, w.nonempty, e)
    ensures OptionOk(Joined(v, w), {}, n, e)
  {
    if e.Some? {
      JoinExpr(v, w, n, e.value);
    }
  }

  lemma {:induction false} JoinDecls(v: View, w: View, n: set<string>, ds: Decls)
    requires Joinable(v, w) && DeclsOk(v.c, v.safe, v.nonempty, ds) && DeclsOk(w.c, w.safe, w.nonempty, ds)
    ensures DeclsOk(Joined(v, w), {}, n, ds)
    decreases ds
  {
    if ds.Decl? {
      JoinOption(v, w, n, ds.init);
      JoinDecls(v, w, n, ds.rest);
    }
  }

  lemma {:induction false} JoinStmt(v: View, w: View, n: set<string>, s: Stmt)
    requires Joinable(v, w) && StmtOk(v.c, v.safe, v.nonempty, s) && StmtOk(w.c, w.safe, w.nonempty, s)
    ensures StmtOk(Joined(v, w), {}, n, s)
    decreases s, 1
  {
    match s
    case Exp(e) => JoinExpr(v, w, n, e);
    case Var(ds) => JoinDecls(v, w, n, ds);
    case If(_, _, _) => JoinIf(v, w, n, s);
    case While(t, b) => JoinExpr(v, w, n, t); JoinStmt(v, w, n, b);
    case For(_, _, _, _) => JoinFor(v, w, n, s);
    case ForOf(_, _, _) => JoinForOf(v, w, n, s);
    case Block(ss) => JoinBlock(v, w, n, ss);
    case Return(e) => JoinOption(v, w, n, e);
    case Throw(e) => JoinExpr(v, w, n, e);
    case Break =>
    case Continue =>
  }

  lemma JoinIf(v: View, w: View, n: set<string>, s: Stmt)
    requires s.If? && Joinable(v, w) && StmtOk(v.c, v.safe, v.nonempty, s) && StmtOk(w.c, w.safe, w.nonempty, s)
    ensures StmtOk(Joined(v, w), {}, n, s)
    decreases s, 0
  {
    JoinExpr(v, w, n, s.test);
    JoinStmt(v, w, n, s.cons);
    if s.alt.Some? {
      JoinStmt(v, w, n, s.alt.value);
    }
  }

  lemma JoinForOf(v: View, w: View, n: set<string>, s: Stmt)
    requires s.ForOf? && Joinable(v, w) && StmtOk(v.c, v.safe, v.nonempty, s) && StmtOk(w.c, w.safe, w.nonempty, s)
    ensures StmtOk(Joined(v, w), {}, n, s)
    decreases s, 0
  {
    JoinExpr(v, w, n, s.source);
    JoinStmt(v, w, n, s.body);
  }

  /** How the body of a judged `for` loop is judged. */
  lemma BodyView(v: View, s: Stmt) returns (b: View)
    requires s.For? && StmtOk(v.c, v.safe, v.nonempty, s)
    ensures b.c == v.c && StmtOk(b.c, b.safe, b.nonempty, s.body)
  {
    if StmtOk(v.c, v.safe, v.nonempty, s.body) {
      b := v;
    } else {
      var p, i :| LoopPair(v.c, s.decls, s.until, s.update, p, i) && StmtOk(v.c, v.safe + {(p, i)}, v.nonempty, s.body);
      b := v.(safe := v.safe + {(p, i)});
    }
  }

  lemma JoinFor(v: View, w: View, n: set<string>, s: Stmt)
    requires s.For? && Joinable(v, w) && StmtOk(v.c, v.safe, v.nonempty, s) && StmtOk(w.c, w.safe, w.nonempty, s)
    ensures StmtOk(Joined(v, w), {}, n, s)
    decreases s, 0
  {
    JoinDecls(v, w, n, s.decls);
    JoinOption(v, w, n, s.until);
    JoinOption(v, w, n, s.update);
    var bv := BodyView(v, s);
    var bw := BodyView(w, s);
    JoinStmt(bv, bw, n, s.body);
  }

  lemma {:induction false} JoinBlock(v: View, w: View, n: set<string>, ss: Stmts)
    requires Joinable(v, w) && BlockOk(v.c, v.safe, v.nonempty, ss) && BlockOk(w.c, w.safe, w.nonempty, ss)
    ensures BlockOk(Joined(v, w), {}, n, ss)
    decreases ss, 0
  {
    if ss.Then? {
      JoinStmt(v, w, n, ss.head);
      JoinBlock(v, w, n, ss.tail);
    }
  }

  lemma {:induction false} JoinList(v: View, w: View, n: set<string>, ss: Stmts)
    requires Joinable(v, w) && v.safe == w.safe == {} && ListOk(v.c, v.nonempty, ss) && ListOk(w.c, w.nonempty, ss)
    ensures ListOk(Joined(v, w), n, ss)
    decreases ss
  {
    if ss.Then? {
      JoinStmt(v, w, n, ss.head);
      JoinList(v.(nonempty := AfterGuard(v.nonempty, ss.head)), w.(nonempty := AfterGuard(w.nonempty, ss.head)),
               AfterGuard(n, ss.head), ss.tail);
    }
  }
}
