/**
 What the visitor's counters mean.  Every visit only grows its tables; the number of
 assignments to a name never falls behind the number of loops that account for one; and a visit
 that counted no assignment met none.
 */
module CloneCounting {
  import opened Wrappers
  import opened CloneSyntax
  import opened CloneJudgement
  import opened CloneAnalysis
  import opened CloneDiscipline

  /** Assignments of `x` not accounted for by a loop header. */
  function Excess(s: RO, x: string): int { Count(s.assigns, x) - Count(s.loops, x) }

  ghost predicate Grows(s: RO, t: RO) {
    && (t.ok ==> s.ok)
    && s.total - s.proven <= t.total - t.proven
    && s.passes <= t.passes
    && s.safe == t.safe
    && s.lensUsed <= t.lensUsed
    && (forall x :: Excess(s, x) <= Excess(t, x))
    && (forall x :: Count(s.assigns, x) <= Count(t.assigns, x))
    && (forall x :: Count(s.loops, x) <= Count(t.loops, x))
  }

  lemma GrowsTrans(s: RO, t: RO, u: RO)
    requires Grows(s, t) && Grows(t, u)
    ensures Grows(s, u)
  {
    forall x
      ensures Excess(s, x) <= Excess(u, x)
      ensures Count(s.assigns, x) <= Count(u.assigns, x) && Count(s.loops, x) <= Count(u.loops, x)
    {
      assert Excess(s, x) <= Excess(t, x) <= Excess(u, x);
    }
  }

  /** A visit of an expression touches neither the loop tables nor what is known of arrays. */
  ghost predicate KeepsTables(s: RO, t: RO) {
    Grows(s, t) && s.nonempty == t.nonempty && s.lens == t.lens && s.loops == t.loops && s.lensUsed == t.lensUsed
  }

  lemma KeepsTrans(s: RO, t: RO, u: RO)
    requires KeepsTables(s, t) && KeepsTables(t, u)
    ensures KeepsTables(s, u)
  {
    GrowsTrans(s, t, u);
  }

  lemma FailKeeps(s: RO, bad: bool)
    ensures KeepsTables(s, FailIf(s, bad))
  {
  }

  lemma BumpKeeps(s: RO, x: string)
    ensures KeepsTables(s, s.(assigns := Bump(s.assigns, x)))
  {
  }

  lemma {:induction false} ExprKeeps(c: Scope, s: RO, e: Expr)
    ensures KeepsTables(s, VisitExpr(c, s, e))
    decreases e, 1
  {
    hide KeepsTables, VisitChain, VisitArgs, Bump;
    match e
    case Num(_) => FailKeeps(s, false);
    case Ident(x) => FailKeeps(s, x in c.names);
    case Paren(i) => ExprKeeps(c, s, i);
    case Field(o, f) =>
      if Rooted(c, e) {
        FailKeeps(s, f in c.fields);
        ChainKeeps(c, FailIf(s, f in c.fields), e);
        KeepsTrans(s, FailIf(s, f in c.fields), VisitExpr(c, s, e));
      } else {
        ExprKeeps(c, s, o);
      }
    case Index(o, i) =>
      if Rooted(c, e) {
        ChainKeeps(c, s, e);
      } else {
        var s1 := s.(total := s.total + 1);
        ReadKeeps(s, 0, false);
        OneKeeps(c, s, s1, o);
        OneKeeps(c, s, VisitExpr(c, s1, o), i);
      }
    case Bin(_, l, r) =>
      ExprKeeps(c, s, l);
      OneKeeps(c, s, VisitExpr(c, s, l), r);
    case Not(a) => ExprKeeps(c, s, a);
    case Delete(a) =>
      FailKeeps(s, Rooted(c, a));
      OneKeeps(c, s, FailIf(s, Rooted(c, a)), a);
    case AssignVar(x, r) =>
      BumpKeeps(s, x);
      var s1 := s.(assigns := Bump(s.assigns, x));
      FailKeeps(s1, x in c.names);
      KeepsTrans(s, s1, FailIf(s1, x in c.names));
      OneKeeps(c, s, FailIf(s1, x in c.names), r);
    case AssignField(o, _, r) =>
      FailKeeps(s, Rooted(c, o));
      OneKeeps(c, s, FailIf(s, Rooted(c, o)), r);
    case AssignIndex(o, i, r) =>
      FailKeeps(s, Rooted(c, o));
      OneKeeps(c, s, FailIf(s, Rooted(c, o)), r);
      OneKeeps(c, s, VisitExpr(c, FailIf(s, Rooted(c, o)), r), i);
    case Update(_, a) =>
      var s1 := FailIf(s, Rooted(c, a));
      FailKeeps(s, Rooted(c, a));
      if Strip(a).Ident? {
        BumpKeeps(s1, Strip(a).name);
        KeepsTrans(s, s1, s1.(assigns := Bump(s1.assigns, Strip(a).name)));
      }
    case Call(f, args) =>
      FailKeeps(s, f in c.names);
      ArgsKeep(c, FailIf(s, f in c.names), f, 0, args);
      KeepsTrans(s, FailIf(s, f in c.names), VisitExpr(c, s, e));
    case MethodCall(_, _, _) => MethodKeeps(c, s, e);
  }

  lemma MethodKeeps(c: Scope, s: RO, e: Expr)
    requires e.MethodCall?
    ensures KeepsTables(s, VisitExpr(c, s, e))
    decreases e, 0
  {
    hide KeepsTables;
    var o, bad := e.obj, !IsPureMethod(e.method_);
    var s1 := if Rooted(c, o) then FailIf(s, bad) else VisitExpr(c, s, o);
    if Rooted(c, o) {
      FailKeeps(s, bad);
    } else {
      ExprKeeps(c, s, o);
    }
    PlainArgsKeep(c, s1, e.args);
    KeepsTrans(s, s1, VisitPlainArgs(c, s1, e.args));
  }

  lemma OneKeeps(c: Scope, s: RO, s1: RO, e: Expr)
    requires KeepsTables(s, s1)
    ensures KeepsTables(s, VisitExpr(c, s1, e))
    decreases e, 2
  {
    ExprKeeps(c, s1, e);
    KeepsTrans(s, s1, VisitExpr(c, s1, e));
  }

  lemma ReadKeeps(s: RO, proven: nat, bad: bool)
    requires proven <= 1
    ensures KeepsTables(s, FailIf(s.(total := s.total + 1, proven := s.proven + proven), bad))
  {
  }

  lemma {:induction false} ChainKeeps(c: Scope, s: RO, e: Expr)
    ensures KeepsTables(s, VisitChain(c, s, e))
    decreases e, 0
  {
    hide KeepsTables;
    FailKeeps(s, false);
    match e
    case Field(o, _) =>
      if IsMember(o) {
        ChainKeeps(c, s, o);
      }
    case Index(o, i) =>
      var known := Strip(o).Ident? && Strip(o).name in c.names && IndexSafe(s, Strip(o).name, i);
      var s1 := FailIf(s.(total := s.total + 1, proven := s.proven + if known then 1 else 0), !known);
      ReadKeeps(s, if known then 1 else 0, !known);
      OneKeeps(c, s, s1, i);
      if IsMember(o) {
        ChainKeeps(c, VisitExpr(c, s1, i), o);
        KeepsTrans(s, VisitExpr(c, s1, i), VisitChain(c, s, e));
      }
    case _ =>
  }

  lemma {:induction false} ArgsKeep(c: Scope, s: RO, f: string, k: nat, args: Args)
    ensures KeepsTables(s, VisitArgs(c, s, f, k, args))
    decreases args, 0
  {
    if args.Arg? {
      var e := args.head;
      var s1 := if e.Ident? && e.name in c.names then s.(passes := s.passes + [(f, k)]) else VisitExpr(c, s, e);
      if !(e.Ident? && e.name in c.names) {
        ExprKeeps(c, s, e);
      }
      ArgsKeep(c, s1, f, k + 1, args.tail);
      KeepsTrans(s, s1, VisitArgs(c, s1, f, k + 1, args.tail));
    }
  }

  lemma {:induction false} PlainArgsKeep(c: Scope, s: RO, args: Args)
    ensures KeepsTables(s, VisitPlainArgs(c, s, args))
    decreases args, 0
  {
    if args.Arg? {
      ExprKeeps(c, s, args.head);
      PlainArgsKeep(c, VisitExpr(c, s, args.head), args.tail);
      KeepsTrans(s, VisitExpr(c, s, args.head), VisitPlainArgs(c, s, args));
    }
  }

  lemma OptionKeeps(c: Scope, s: RO, e: Option<Expr>)
    ensures KeepsTables(s, VisitOption(c, s, e))
  {
    FailKeeps(s, false);
    if e.Some? {
      ExprKeeps(c, s, e.value);
    }
  }

  // ---- statements ---------------------------------------------------------------------

  lemma {:induction false} DeclsGrow(c: Scope, s: RO, ds: Decls)
    ensures var t := VisitDecls(c, s, ds);
            Grows(s, t) && t.nonempty == s.nonempty && t.loops == s.loops && t.lensUsed == s.lensUsed
    decreases ds
  {
    if ds.Decl? {
      var init := ds.init;
      var s1 := if init.Some? && LengthOf(init.value).Some? && LengthOf(init.value).value in c.names
                then s.(lens := s.lens[ds.name := LengthOf(init.value).value]) else s;
      OptionKeeps(c, s1, init);
      var s2 := VisitOption(c, s1, init);
      assert Grows(s, s2);
      DeclsGrow(c, s2, ds.rest);
      GrowsTrans(s, s2, VisitDecls(c, s2, ds.rest));
    }
  }

  lemma HeaderGrows(c: Scope, s: RO, ds: Decls, t: Option<Expr>, u: Option<Expr>)
    ensures var r := VisitHeader(c, s, ds, t, u);
            Grows(s, r) && r.nonempty == s.nonempty && r.loops == s.loops && r.lensUsed == s.lensUsed
    ensures u.Some? ==> Grows(s, VisitOption(c, VisitDecls(c, s, ds), t))
  {
    DeclsGrow(c, s, ds);
    var s1 := VisitDecls(c, s, ds);
    OptionKeeps(c, s1, t);
    var s2 := VisitOption(c, s1, t);
    OptionKeeps(c, s2, u);
    GrowsTrans(s, s1, s2);
    GrowsTrans(s, s2, VisitOption(c, s2, u));
  }

  /** Looking for the loop pattern records aliases only. */
  lemma {:induction false} ScanGrows(c: Scope, s: RO, ds: Decls, index: Option<string>)
    ensures ScanHeader(c, s, ds, index).0 == s.(lens := ScanHeader(c, s, ds, index).0.lens)
    decreases ds
  {
    if ds.Decl? && ds.init.Some? {
      if LengthOf(ds.init.value).Some? && LengthOf(ds.init.value).value in c.names {
        ScanGrows(c, s.(lens := s.lens[ds.name := LengthOf(ds.init.value).value]), ds.rest, index);
      } else if IsCount(ds.init.value) && index.None? {
        ScanGrows(c, s, ds.rest, Some(ds.name));
      }
    }
  }

  lemma PatternGrows(c: Scope, s: RO, ds: Decls, t: Option<Expr>, u: Option<Expr>)
    ensures var (r, _) := LoopPattern(c, s, ds, t, u);
            r == s.(lens := r.lens, lensUsed := r.lensUsed) && s.lensUsed <= r.lensUsed && Grows(s, r)
  {
    ScanGrows(c, s, ds, None);
  }

  /** Visiting `i++` counts one assignment of `i`. */
  lemma StepCountsOne(c: Scope, s: RO, u: Option<Expr>, i: string)
    requires StepsIndex(u, i)
    ensures Count(VisitOption(c, s, u).assigns, i) == Count(s.assigns, i) + 1
  {
    StripVisit(c, s, u.value);
  }

  lemma {:induction false} StripVisit(c: Scope, s: RO, e: Expr)
    ensures VisitExpr(c, s, e) == VisitExpr(c, s, Strip(e))
  {
    if e.Paren? {
      StripVisit(c, s, e.inner);
    }
  }

  /** The state in which a matched loop's body is visited. */
  function LoopEntry(c: Scope, s1: RO, st: Stmt, pair: (string, string)): RO
    requires st.For?
  {
    VisitHeader(c, s1.(loops := Bump(s1.loops, pair.1), safe := s1.safe + [pair]), st.decls, st.until, st.update)
  }

  /** At the loop body the index's own update has made up for its loop. */
  lemma LoopEntryGrows(c: Scope, s1: RO, st: Stmt, pair: (string, string))
    requires st.For? && StepsIndex(st.update, pair.1)
    ensures var b := LoopEntry(c, s1, st, pair);
            && Grows(s1, b.(safe := s1.safe))
            && b.safe == s1.safe + [pair] && b.nonempty == s1.nonempty && b.lensUsed == s1.lensUsed
            && Count(b.loops, pair.1) >= 1
  {
    var i := pair.1;
    var s2 := s1.(loops := Bump(s1.loops, i), safe := s1.safe + [pair]);
    HeaderGrows(c, s2, st.decls, st.until, st.update);
    var h := VisitOption(c, VisitDecls(c, s2, st.decls), st.until);
    StepCountsOne(c, h, st.update, i);
    OptionKeeps(c, h, st.update);
    var b := LoopEntry(c, s1, st, pair);
    assert b == VisitOption(c, h, st.update);
    assert b.loops == s2.loops by { DeclsGrow(c, s2, st.decls); OptionKeeps(c, VisitDecls(c, s2, st.decls), st.until); }
    forall x
      ensures Excess(s1, x) <= Excess(b, x)
      ensures Count(s1.assigns, x) <= Count(b.assigns, x) && Count(s1.loops, x) <= Count(b.loops, x)
    {
      assert Excess(s2, x) <= Excess(h, x) <= Excess(b, x);
      assert Count(s2.assigns, x) <= Count(h.assigns, x) <= Count(b.assigns, x);
    }
  }

  lemma {:induction false} StmtGrows(c: Scope, s: RO, st: Stmt)
    ensures Grows(s, VisitStmt(c, s, st))
    decreases st, 1
  {
    hide Grows;
    match st
    case Exp(e) => ExprGrows(c, s, e);
    case Var(ds) => DeclsGrow(c, s, ds);
    case If(t, a, b) =>
      ExprGrows(c, s, t);
      var s1 := VisitExpr(c, s, t);
      StmtGrows(c, s1, a);
      GrowsTrans(s, s1, VisitStmt(c, s1, a));
      if b.Some? {
        StmtGrows(c, VisitStmt(c, s1, a), b.value);
        GrowsTrans(s, VisitStmt(c, s1, a), VisitStmt(c, s, st));
      }
    case While(t, b) =>
      ExprGrows(c, s, t);
      StmtGrows(c, VisitExpr(c, s, t), b);
      GrowsTrans(s, VisitExpr(c, s, t), VisitStmt(c, s, st));
    case For(_, _, _, _) => ForGrows(c, s, st);
    case ForOf(_, src, b) =>
      ExprGrows(c, s, src);
      var s1 := if Rooted(c, src) then s else VisitExpr(c, s, src);
      StmtGrows(c, s1, b);
      if !Rooted(c, src) {
        GrowsTrans(s, s1, VisitStmt(c, s1, b));
      }
    case Block(ss) => StmtsGrow(c, s, ss);
    case Return(v) => OptionGrows(c, s, v);
    case Throw(e) => ExprGrows(c, s, e);
    case Break => SelfGrows(s);
    case Continue => SelfGrows(s);
  }

  lemma SelfGrows(s: RO)
    ensures Grows(s, s)
  {
  }

  lemma ExprGrows(c: Scope, s: RO, e: Expr)
    ensures Grows(s, VisitExpr(c, s, e))
  {
    ExprKeeps(c, s, e);
  }

  lemma OptionGrows(c: Scope, s: RO, e: Option<Expr>)
    ensures Grows(s, VisitOption(c, s, e))
  {
    OptionKeeps(c, s, e);
  }

  lemma ForGrows(c: Scope, s: RO, st: Stmt)
    requires st.For?
    ensures Grows(s, VisitStmt(c, s, st))
    decreases st, 0
  {
    hide Grows;
    PatternGrows(c, s, st.decls, st.until, st.update);
    var (s1, loop) := LoopPattern(c, s, st.decls, st.until, st.update);
    if loop.Some? {
      LoopEntryGrows(c, s1, st, loop.value);
      var b := LoopEntry(c, s1, st, loop.value);
      StmtGrows(c, b, st.body);
      var e := VisitStmt(c, b, st.body);
      Unguarded(b, e, s1.safe);
      GrowsTrans(s1, b.(safe := s1.safe), e.(safe := s1.safe));
      GrowsTrans(s, s1, e.(safe := s1.safe));
    } else {
      HeaderGrows(c, s1, st.decls, st.until, st.update);
      var b := VisitHeader(c, s1, st.decls, st.until, st.update);
      StmtGrows(c, b, st.body);
      GrowsTrans(s, s1, b);
      GrowsTrans(s, b, VisitStmt(c, b, st.body));
    }
  }

  lemma Unguarded(s: RO, t: RO, safe: seq<(string, string)>)
    requires Grows(s, t)
    ensures Grows(s.(safe := safe), t.(safe := safe))
  {
    var a, b := s.(safe := safe), t.(safe := safe);
    forall x
      ensures Excess(a, x) <= Excess(b, x)
      ensures Count(a.assigns, x) <= Count(b.assigns, x) && Count(a.loops, x) <= Count(b.loops, x)
    {
      assert Excess(s, x) <= Excess(t, x);
    }
  }

  lemma {:induction false} StmtsGrow(c: Scope, s: RO, ss: Stmts)
    ensures Grows(s, VisitStmts(c, s, ss))
    decreases ss, 0
  {
    SelfGrows(s);
    if ss.Then? {
      var s1 := VisitStmt(c, s, ss.head);
      StmtGrows(c, s, ss.head);
      var s2 := if EmptyGuard(ss.head).Some? then s1.(nonempty := s1.nonempty + {EmptyGuard(ss.head).value}) else s1;
      assert Grows(s, s2);
      hide Grows;
      StmtsGrow(c, s2, ss.tail);
      GrowsTrans(s, s2, VisitStmts(c, s2, ss.tail));
    }
  }

  // ---- no count, no write -------------------------------------------------------------

  /** The visit from `s` to `t` counted no assignment of `x`. */
  ghost predicate Quiet(s: RO, t: RO, x: string) { Count(t.assigns, x) == Count(s.assigns, x) }

  lemma QuietParts(s: RO, m: RO, t: RO, x: string)
    requires Grows(s, m) && Grows(m, t) && Quiet(s, t, x)
    ensures Quiet(s, m, x) && Quiet(m, t, x)
  {
    assert Count(s.assigns, x) <= Count(m.assigns, x) <= Count(t.assigns, x);
  }

  lemma {:induction false} ExprQuiet(c: Scope, s: RO, e: Expr, x: string)
    requires VisibleExpr(e) && Quiet(s, VisitExpr(c, s, e), x)
    ensures Leaves(e, x)
    decreases e, 1
  {
    hide Quiet;
    match e
    case Num(_) =>
    case Ident(_) =>
    case Paren(i) => ExprQuiet(c, s, i, x);
    case Field(o, f) =>
      if Rooted(c, e) {
        var s1 := FailIf(s, f in c.fields);
        QuietFrom(s, s1, VisitChain(c, s1, e), x);
        ChainQuiet(c, s1, e, x);
      } else {
        ExprQuiet(c, s, o, x);
      }
    case Index(o, i) =>
      if Rooted(c, e) {
        ChainQuiet(c, s, e, x);
      } else {
        var s1 := s.(total := s.total + 1);
        TwoQuiet(c, s, s1, o, i, x);
        ExprQuiet(c, s1, o, x);
        ExprQuiet(c, VisitExpr(c, s1, o), i, x);
      }
    case Bin(_, l, r) =>
      TwoQuiet(c, s, s, l, r, x);
      ExprQuiet(c, s, l, x);
      ExprQuiet(c, VisitExpr(c, s, l), r, x);
    case Not(a) => ExprQuiet(c, s, a, x);
    case Delete(a) =>
      QuietFrom(s, FailIf(s, Rooted(c, a)), VisitExpr(c, s, e), x);
      ExprQuiet(c, FailIf(s, Rooted(c, a)), a, x);
    case AssignVar(y, r) => AssignQuiet(c, s, y, r, x);
    case AssignField(o, _, r) =>
      PlainLeaves(o, x);
      QuietFrom(s, FailIf(s, Rooted(c, o)), VisitExpr(c, s, e), x);
      ExprQuiet(c, FailIf(s, Rooted(c, o)), r, x);
    case AssignIndex(o, i, r) =>
      PlainLeaves(o, x);
      var s1 := FailIf(s, Rooted(c, o));
      TwoQuiet(c, s, s1, r, i, x);
      ExprQuiet(c, s1, r, x);
      ExprQuiet(c, VisitExpr(c, s1, r), i, x);
    case Update(_, a) => UpdateQuiet(c, s, e, x);
    case Call(f, args) =>
      QuietFrom(s, FailIf(s, f in c.names), VisitExpr(c, s, e), x);
      ArgsQuiet(c, FailIf(s, f in c.names), f, 0, args, x);
    case MethodCall(o, m, args) =>
      var s1 := if Rooted(c, o) then FailIf(s, !IsPureMethod(m)) else VisitExpr(c, s, o);
      ExprGrows(c, s, o);
      PlainArgsKeep(c, s1, args);
      QuietParts(s, s1, VisitPlainArgs(c, s1, args), x);
      if Rooted(c, o) {
        PlainLeaves(o, x);
      } else {
        ExprQuiet(c, s, o, x);
      }
      PlainArgsQuiet(c, s1, args, x);
  }

  lemma QuietFrom(s: RO, s1: RO, t: RO, x: string)
    requires Quiet(s, t, x) && s1.assigns == s.assigns
    ensures Quiet(s1, t, x)
  {
  }

  lemma TwoQuiet(c: Scope, s: RO, s1: RO, l: Expr, r: Expr, x: string)
    requires s1.assigns == s.assigns && Quiet(s, VisitExpr(c, VisitExpr(c, s1, l), r), x)
    ensures Quiet(s1, VisitExpr(c, s1, l), x)
    ensures Quiet(VisitExpr(c, s1, l), VisitExpr(c, VisitExpr(c, s1, l), r), x)
  {
    ExprGrows(c, s1, l);
    ExprGrows(c, VisitExpr(c, s1, l), r);
    QuietParts(s1, VisitExpr(c, s1, l), VisitExpr(c, VisitExpr(c, s1, l), r), x);
  }

  lemma AssignQuiet(c: Scope, s: RO, y: string, r: Expr, x: string)
    requires VisibleExpr(r) && Quiet(s, VisitExpr(c, s, AssignVar(y, r)), x)
    ensures x != y && Leaves(r, x)
    decreases r, 2
  {
    var s1 := FailIf(s.(assigns := Bump(s.assigns, y)), y in c.names);
    ExprGrows(c, s1, r);
    assert Count(s1.assigns, x) <= Count(VisitExpr(c, s1, r).assigns, x);
    ExprQuiet(c, s1, r, x);
  }

  lemma UpdateQuiet(c: Scope, s: RO, e: Expr, x: string)
    requires e.Update? && VisibleExpr(e) && Quiet(s, VisitExpr(c, s, e), x)
    ensures Leaves(e, x)
  {
    PlainLeaves(e.arg, x);
  }

  lemma {:induction false} StrippedPlain(a: Expr)
    requires Strip(a).Ident?
    ensures Plain(a)
  {
    if a.Paren? {
      StrippedPlain(a.inner);
    }
  }

  lemma {:induction false} ChainQuiet(c: Scope, s: RO, e: Expr, x: string)
    requires VisibleExpr(e) && MemberRoot(e).Some? && Quiet(s, VisitChain(c, s, e), x) && IsMember(e)
    ensures Leaves(e, x)
    decreases e, 0
  {
    var o := e.obj;
    if e.Index? {
      var i := e.index;
      var known := Strip(o).Ident? && Strip(o).name in c.names && IndexSafe(s, Strip(o).name, i);
      var s1 := FailIf(s.(total := s.total + 1, proven := s.proven + if known then 1 else 0), !known);
      var s2 := VisitExpr(c, s1, i);
      ExprGrows(c, s1, i);
      ChainKeeps(c, s2, o);
      if IsMember(o) {
        QuietParts(s1, s2, VisitChain(c, s2, o), x);
        ChainQuiet(c, s2, o, x);
      }
      ExprQuiet(c, s1, i, x);
    } else if IsMember(o) {
      ChainQuiet(c, s, o, x);
    }
    if !IsMember(o) {
      assert Plain(o);
      PlainLeaves(o, x);
    }
  }

  lemma {:induction false} ArgsQuiet(c: Scope, s: RO, f: string, k: nat, args: Args, x: string)
    requires VisibleArgs(args) && Quiet(s, VisitArgs(c, s, f, k, args), x)
    ensures LeavesArgs(args, x)
    decreases args, 0
  {
    if args.Arg? {
      var e := args.head;
      var bare := e.Ident? && e.name in c.names;
      var s1 := if bare then s.(passes := s.passes + [(f, k)]) else VisitExpr(c, s, e);
      ExprGrows(c, s, e);
      ArgsKeep(c, s1, f, k + 1, args.tail);
      QuietParts(s, s1, VisitArgs(c, s1, f, k + 1, args.tail), x);
      if !bare {
        ExprQuiet(c, s, e, x);
      }
      ArgsQuiet(c, s1, f, k + 1, args.tail, x);
    }
  }

  lemma {:induction false} PlainArgsQuiet(c: Scope, s: RO, args: Args, x: string)
    requires VisibleArgs(args) && Quiet(s, VisitPlainArgs(c, s, args), x)
    ensures LeavesArgs(args, x)
    decreases args, 0
  {
    if args.Arg? {
      var s1 := VisitExpr(c, s, args.head);
      ExprGrows(c, s, args.head);
      PlainArgsKeep(c, s1, args.tail);
      QuietParts(s, s1, VisitPlainArgs(c, s1, args.tail), x);
      ExprQuiet(c, s, args.head, x);
      PlainArgsQuiet(c, s1, args.tail, x);
    }
  }

  lemma OptionQuiet(c: Scope, s: RO, e: Option<Expr>, x: string)
    requires VisibleOption(e) && Quiet(s, VisitOption(c, s, e), x)
    ensures LeavesOption(e, x)
  {
    if e.Some? {
      ExprQuiet(c, s, e.value, x);
    }
  }

  lemma {:induction false} DeclsQuiet(c: Scope, s: RO, ds: Decls, x: string)
    requires VisibleDecls(ds) && Quiet(s, VisitDecls(c, s, ds), x)
    ensures LeavesDecls(ds, x)
    decreases ds
  {
    if ds.Decl? {
      var init := ds.init;
      var s1 := if init.Some? && LengthOf(init.value).Some? && LengthOf(init.value).value in c.names
                then s.(lens := s.lens[ds.name := LengthOf(init.value).value]) else s;
      var s2 := VisitOption(c, s1, init);
      OptionGrows(c, s1, init);
      DeclsGrow(c, s2, ds.rest);
      QuietParts(s1, s2, VisitDecls(c, s2, ds.rest), x);
      OptionQuiet(c, s1, init, x);
      DeclsQuiet(c, s2, ds.rest, x);
    }
  }

  lemma HeaderQuiet(c: Scope, s: RO, ds: Decls, t: Option<Expr>, u: Option<Expr>, x: string)
    requires VisibleDecls(ds) && VisibleOption(t) && VisibleOption(u) && Quiet(s, VisitHeader(c, s, ds, t, u), x)
    ensures LeavesDecls(ds, x) && LeavesOption(t, x) && LeavesOption(u, x)
  {
    var s1 := VisitDecls(c, s, ds);
    var s2 := VisitOption(c, s1, t);
    var s3 := VisitOption(c, s2, u);
    DeclsGrow(c, s, ds);
    OptionGrows(c, s1, t);
    OptionGrows(c, s2, u);
    GrowsTrans(s1, s2, s3);
    QuietParts(s, s1, s3, x);
    QuietParts(s1, s2, s3, x);
    DeclsQuiet(c, s, ds, x);
    OptionQuiet(c, s1, t, x);
    OptionQuiet(c, s2, u, x);
  }

  lemma {:induction false} StmtQuiet(c: Scope, lengths: map<string, string>, s: RO, st: Stmt, x: string)
    requires Tidy(lengths, st) && Quiet(s, VisitStmt(c, s, st), x)
    ensures LeavesStmt(st, x)
    decreases st, 1
  {
    hide Grows, Quiet, KeepsTables;
    match st
    case Exp(e) => ExprQuiet(c, s, e, x);
    case Var(ds) => DeclsQuiet(c, s, ds, x);
    case If(t, a, b) =>
      var s1 := VisitExpr(c, s, t);
      var s2 := VisitStmt(c, s1, a);
      ExprGrows(c, s, t);
      StmtGrows(c, s1, a);
      GrowsTrans(s, s1, s2);
      if b.Some? {
        StmtGrows(c, s2, b.value);
        QuietParts(s, s2, VisitStmt(c, s2, b.value), x);
        StmtQuiet(c, lengths, s2, b.value, x);
      }
      QuietParts(s, s1, s2, x);
      ExprQuiet(c, s, t, x);
      StmtQuiet(c, lengths, s1, a, x);
    case While(t, b) =>
      var s1 := VisitExpr(c, s, t);
      ExprGrows(c, s, t);
      StmtGrows(c, s1, b);
      QuietParts(s, s1, VisitStmt(c, s1, b), x);
      ExprQuiet(c, s, t, x);
      StmtQuiet(c, lengths, s1, b, x);
    case For(_, _, _, _) => ForQuiet(c, lengths, s, st, x);
    case ForOf(_, src, b) =>
      var s1 := if Rooted(c, src) then s else VisitExpr(c, s, src);
      ExprGrows(c, s, src);
      SelfGrows(s);
      StmtGrows(c, s1, b);
      QuietParts(s, s1, VisitStmt(c, s1, b), x);
      if Rooted(c, src) {
        PlainLeaves(src, x);
      } else {
        ExprQuiet(c, s, src, x);
      }
      StmtQuiet(c, lengths, s1, b, x);
    case Block(ss) => BlockQuiet(c, lengths, s, ss, x);
    case Return(v) => OptionQuiet(c, s, v, x);
    case Throw(e) => ExprQuiet(c, s, e, x);
    case Break =>
    case Continue =>
  }

  lemma ForQuiet(c: Scope, lengths: map<string, string>, s: RO, st: Stmt, x: string)
    requires st.For? && Tidy(lengths, st) && Quiet(s, VisitStmt(c, s, st), x)
    ensures LeavesStmt(st, x)
    decreases st, 0
  {
    PatternGrows(c, s, st.decls, st.until, st.update);
    var (s1, loop) := LoopPattern(c, s, st.decls, st.until, st.update);
    var s2 := if loop.Some? then s1.(loops := Bump(s1.loops, loop.value.1), safe := s1.safe + [loop.value]) else s1;
    var h := VisitHeader(c, s2, st.decls, st.until, st.update);
    HeaderGrows(c, s2, st.decls, st.until, st.update);
    StmtGrows(c, h, st.body);
    var e := VisitStmt(c, h, st.body);
    QuietFrom(s, s2, e, x);
    QuietParts(s2, h, e, x);
    HeaderQuiet(c, s2, st.decls, st.until, st.update, x);
    StmtQuiet(c, lengths, h, st.body, x);
  }

  lemma {:induction false} BlockQuiet(c: Scope, lengths: map<string, string>, s: RO, ss: Stmts, x: string)
    requires TidyBlock(lengths, ss) && Quiet(s, VisitStmts(c, s, ss), x)
    ensures LeavesBlock(ss, x)
    decreases ss, 0
  {
    if ss.Then? {
      var s1 := VisitStmt(c, s, ss.head);
      StmtGrows(c, s, ss.head);
      StmtsGrow(c, s1, ss.tail);
      QuietParts(s, s1, VisitStmts(c, s1, ss.tail), x);
      StmtQuiet(c, lengths, s, ss.head, x);
      BlockQuiet(c, lengths, s1, ss.tail, x);
    }
  }

  // ---- no binder, no loop -------------------------------------------------------------

  lemma {:induction false} ScannedIndexDeclared(c: Scope, s: RO, ds: Decls, index: Option<string>)
    requires ScanHeader(c, s, ds, index).1.Some? && ScanHeader(c, s, ds, index).1.value.Some?
    ensures index == ScanHeader(c, s, ds, index).1.value || Declares(ds, ScanHeader(c, s, ds, index).1.value.value)
    decreases ds
  {
    if ds.Decl? {
      if LengthOf(ds.init.value).Some? && LengthOf(ds.init.value).value in c.names {
        ScannedIndexDeclared(c, s.(lens := s.lens[ds.name := LengthOf(ds.init.value).value]), ds.rest, index);
      } else {
        ScannedIndexDeclared(c, s, ds.rest, Some(ds.name));
      }
    }
  }

  lemma PatternDeclares(c: Scope, s: RO, st: Stmt)
    requires st.For? && LoopPattern(c, s, st.decls, st.until, st.update).1.Some?
    ensures Declares(st.decls, LoopPattern(c, s, st.decls, st.until, st.update).1.value.1)
  {
    ScannedIndexDeclared(c, s, st.decls, None);
  }

  /** A statement that does not declare `x` counts no loop over it, and a tidy one leaves what
      is known of arrays alone. */
  lemma {:induction false} StmtLoops(c: Scope, lengths: map<string, string>, s: RO, st: Stmt, x: string)
    requires Tidy(lengths, st)
    ensures VisitStmt(c, s, st).nonempty == s.nonempty
    ensures !Binds(st, x) ==> Count(VisitStmt(c, s, st).loops, x) == Count(s.loops, x)
    decreases st, 1
  {
    hide Grows;
    match st
    case Exp(e) => ExprKeeps(c, s, e);
    case Var(ds) => DeclsGrow(c, s, ds);
    case If(t, a, b) =>
      ExprKeeps(c, s, t);
      StmtLoops(c, lengths, VisitExpr(c, s, t), a, x);
      if b.Some? {
        StmtLoops(c, lengths, VisitStmt(c, VisitExpr(c, s, t), a), b.value, x);
      }
    case While(t, b) =>
      ExprKeeps(c, s, t);
      StmtLoops(c, lengths, VisitExpr(c, s, t), b, x);
    case For(ds, t, u, b) =>
      PatternGrows(c, s, ds, t, u);
      var (s1, loop) := LoopPattern(c, s, ds, t, u);
      if loop.Some? {
        PatternDeclares(c, s, st);
      }
      var s2 := if loop.Some? then s1.(loops := Bump(s1.loops, loop.value.1), safe := s1.safe + [loop.value]) else s1;
      HeaderGrows(c, s2, ds, t, u);
      StmtLoops(c, lengths, VisitHeader(c, s2, ds, t, u), b, x);
    case ForOf(_, src, b) =>
      ExprKeeps(c, s, src);
      StmtLoops(c, lengths, if Rooted(c, src) then s else VisitExpr(c, s, src), b, x);
    case Block(ss) => BlockLoops(c, lengths, s, ss, x);
    case Return(v) => OptionKeeps(c, s, v);
    case Throw(e) => ExprKeeps(c, s, e);
    case Break =>
    case Continue =>
  }

  lemma {:induction false} BlockLoops(c: Scope, lengths: map<string, string>, s: RO, ss: Stmts, x: string)
    requires TidyBlock(lengths, ss)
    ensures VisitStmts(c, s, ss).nonempty == s.nonempty
    ensures !BindsIn(ss, x) ==> Count(VisitStmts(c, s, ss).loops, x) == Count(s.loops, x)
    decreases ss, 0
  {
    if ss.Then? {
      StmtLoops(c, lengths, s, ss.head, x);
      BlockLoops(c, lengths, VisitStmt(c, s, ss.head), ss.tail, x);
    }
  }
}
