/**
 Acceptance implies the judgement: when the visit of a disciplined body ends well, each of its
 expressions and statements only reads its containers, in bounds.  `k` is fixed from how the
 visit ends; the facts about that end are carried back to every position by monotonicity.
 */
module CloneAcceptance {
  import opened CloneSyntax
  import opened CloneJudgement
  import opened CloneAnalysis
  import opened CloneDiscipline
  import opened CloneCounting

  function ScopeOf(k: Ctx): Scope { Scope(k.names, k.fields) }

  /** The visit can still end well: what an accepting end implies for every earlier state. */
  ghost predicate Final(k: Ctx, s: RO) {
    && s.ok && s.total <= s.proven
    && (forall n :: n in k.aliases ==> Count(s.assigns, n) == 0)
    && (forall x :: Count(s.loops, x) > 0 ==> Excess(s, x) <= 0)
    && (forall n :: n in s.lensUsed ==> n in k.aliases)
    && (forall j :: 0 <= j < |s.passes| ==> s.passes[j] in k.passes)
  }

  lemma FinalBefore(k: Ctx, s: RO, t: RO)
    requires Grows(s, t) && Final(k, t)
    ensures Final(k, s)
  {
    forall x | Count(s.loops, x) > 0 ensures Excess(s, x) <= 0 {
      assert Count(t.loops, x) > 0;
    }
    forall j | 0 <= j < |s.passes| ensures s.passes[j] in k.passes {
      assert s.passes[j] == t.passes[j];
    }
  }

  /** What the visitor knows at `s`, as the judgement states it. */
  ghost predicate Known(s: RO, safe: Pairs, nonempty: set<string>) {
    && (forall q :: q in s.safe <==> q in safe)
    && s.nonempty == nonempty
    && s.proven <= s.total
  }

  /** No index of an enclosing loop is written in `e`. */
  ghost predicate Unwritten(safe: Pairs, e: Expr) { forall q :: q in safe ==> Leaves(e, q.1) }
  ghost predicate UnwrittenArgs(safe: Pairs, args: Args) { forall q :: q in safe ==> LeavesArgs(args, q.1) }

  // ---- expressions --------------------------------------------------------------------

  /** The states between which two expressions are visited. */
  lemma ExprAfter(k: Ctx, safe: Pairs, nonempty: set<string>, s: RO, e: Expr)
    requires Known(s, safe, nonempty)
    ensures Known(VisitExpr(ScopeOf(k), s, e), safe, nonempty) && Grows(s, VisitExpr(ScopeOf(k), s, e))
  {
    ExprKeeps(ScopeOf(k), s, e);
  }

  lemma TwoFinal(k: Ctx, s: RO, l: Expr, r: Expr)
    requires Final(k, VisitExpr(ScopeOf(k), VisitExpr(ScopeOf(k), s, l), r))
    ensures Final(k, VisitExpr(ScopeOf(k), s, l))
  {
    var t := VisitExpr(ScopeOf(k), s, l);
    ExprGrows(ScopeOf(k), t, r);
    FinalBefore(k, t, VisitExpr(ScopeOf(k), t, r));
  }

  /** A visit that ends well did not fail on entry. */
  lemma FailedNot(k: Ctx, s: RO, bad: bool, t: RO)
    requires Grows(FailIf(s, bad), t) && Final(k, t)
    ensures !bad
  {
  }

  lemma {:induction false} ExprJudged(k: Ctx, safe: Pairs, nonempty: set<string>, s: RO, e: Expr)
    requires k.strict && VisibleExpr(e) && Unwritten(safe, e)
    requires Known(s, safe, nonempty) && Final(k, VisitExpr(ScopeOf(k), s, e))
    ensures ExprOk(k, safe, nonempty, e)
    decreases e, 2
  {
    hide Final, Grows, KeepsTables;
    var c := ScopeOf(k);
    match e
    case Num(_) =>
    case Ident(x) => SelfGrows(FailIf(s, x in c.names)); FailedNot(k, s, x in c.names, VisitExpr(c, s, e));
    case Paren(i) => ExprJudged(k, safe, nonempty, s, i);
    case Field(_, _) => FieldJudged(k, safe, nonempty, s, e);
    case Index(_, _) => IndexJudged(k, safe, nonempty, s, e);
    case Bin(_, l, r) =>
      TwoFinal(k, s, l, r);
      ExprJudged(k, safe, nonempty, s, l);
      ExprAfter(k, safe, nonempty, s, l);
      ExprJudged(k, safe, nonempty, VisitExpr(c, s, l), r);
    case Not(a) => ExprJudged(k, safe, nonempty, s, a);
    case Delete(a) =>
      ExprGrows(c, FailIf(s, Rooted(c, a)), a);
      FailedNot(k, s, Rooted(c, a), VisitExpr(c, s, e));
      ExprJudged(k, safe, nonempty, s, a);
    case AssignVar(x, r) => AssignJudged(k, safe, nonempty, s, x, r);
    case AssignField(o, _, r) =>
      ExprGrows(c, FailIf(s, Rooted(c, o)), r);
      FailedNot(k, s, Rooted(c, o), VisitExpr(c, s, e));
      ExprJudged(k, safe, nonempty, s, r);
      PlainJudged(k, safe, nonempty, o);
    case AssignIndex(o, i, r) =>
      var s1 := FailIf(s, Rooted(c, o));
      TwoFinal(k, s1, r, i);
      ExprGrows(c, s1, r);
      FailedNot(k, s, Rooted(c, o), VisitExpr(c, s1, r));
      ExprJudged(k, safe, nonempty, s, r);
      ExprAfter(k, safe, nonempty, s, r);
      ExprJudged(k, safe, nonempty, VisitExpr(c, s, r), i);
      PlainJudged(k, safe, nonempty, o);
    case Update(_, a) => UpdateJudged(k, safe, nonempty, s, e);
    case Call(f, args) =>
      ArgsKeep(c, FailIf(s, f in c.names), f, 0, args);
      KeptGrows(FailIf(s, f in c.names), VisitExpr(c, s, e));
      FailedNot(k, s, f in c.names, VisitExpr(c, s, e));
      ArgsJudged(k, safe, nonempty, s, f, 0, args);
    case MethodCall(_, _, _) => MethodJudged(k, safe, nonempty, s, e);
  }

  lemma KeptGrows(s: RO, t: RO)
    requires KeepsTables(s, t)
    ensures Grows(s, t)
  {
  }

  /** A plain chain that is not rooted in a container, and one that is. */
  lemma {:induction false} PlainJudged(k: Ctx, safe: Pairs, nonempty: set<string>, o: Expr)
    requires Plain(o)
    ensures !RootedIn(k.names, o) ==> ExprOk(k, safe, nonempty, o)
    ensures ChainOk(k, safe, nonempty, o)
  {
    match o
    case Ident(_) =>
    case Field(p, _) => PlainJudged(k, safe, nonempty, p);
    case Paren(i) => PlainJudged(k, safe, nonempty, i);
  }

  lemma FieldJudged(k: Ctx, safe: Pairs, nonempty: set<string>, s: RO, e: Expr)
    requires k.strict && e.Field? && VisibleExpr(e) && Unwritten(safe, e)
    requires Known(s, safe, nonempty) && Final(k, VisitExpr(ScopeOf(k), s, e))
    ensures ExprOk(k, safe, nonempty, e)
    decreases e, 1
  {
    hide Final, Grows, KeepsTables;
    var c := ScopeOf(k);
    if Rooted(c, e) {
      var bad := e.field in c.fields;
      ChainKeeps(c, FailIf(s, bad), e);
      KeptGrows(FailIf(s, bad), VisitExpr(c, s, e));
      FailedNot(k, s, bad, VisitExpr(c, s, e));
      ChainJudged(k, safe, nonempty, s, e);
    } else {
      ExprJudged(k, safe, nonempty, s, e.obj);
    }
  }

  lemma IndexJudged(k: Ctx, safe: Pairs, nonempty: set<string>, s: RO, e: Expr)
    requires k.strict && e.Index? && VisibleExpr(e) && Unwritten(safe, e)
    requires Known(s, safe, nonempty) && Final(k, VisitExpr(ScopeOf(k), s, e))
    ensures ExprOk(k, safe, nonempty, e)
    decreases e, 1
  {
    var c := ScopeOf(k);
    if Rooted(c, e) {
      ChainJudged(k, safe, nonempty, s, e);
    } else {
      var s1 := s.(total := s.total + 1);
      ExprGrows(c, s1, e.obj);
      ExprGrows(c, VisitExpr(c, s1, e.obj), e.index);
      assert false;
    }
  }

  lemma AssignJudged(k: Ctx, safe: Pairs, nonempty: set<string>, s: RO, x: string, r: Expr)
    requires k.strict && VisibleExpr(r) && Unwritten(safe, AssignVar(x, r))
    requires Known(s, safe, nonempty) && Final(k, VisitExpr(ScopeOf(k), s, AssignVar(x, r)))
    ensures ExprOk(k, safe, nonempty, AssignVar(x, r))
    decreases r, 3
  {
    var c := ScopeOf(k);
    var s0 := s.(assigns := Bump(s.assigns, x));
    var s1 := FailIf(s0, x in c.names);
    ExprGrows(c, s1, r);
    assert Count(s1.assigns, x) <= Count(VisitExpr(c, s1, r).assigns, x);
    assert x !in k.aliases;
    ExprJudged(k, safe, nonempty, s0, r);
  }

  lemma UpdateJudged(k: Ctx, safe: Pairs, nonempty: set<string>, s: RO, e: Expr)
    requires e.Update? && VisibleExpr(e) && Unwritten(safe, e)
    requires Final(k, VisitExpr(ScopeOf(k), s, e))
    ensures ExprOk(k, safe, nonempty, e)
  {
    var a := Strip(e.arg);
    StripRoot(e.arg);
    StripPlain(e.arg);
    if a.Ident? {
      assert Count(VisitExpr(ScopeOf(k), s, e).assigns, a.name) > 0;
    } else {
      PlainJudged(k, safe, nonempty, a.obj);
    }
    StripUpdate(k, safe, nonempty, e.arg);
  }

  lemma {:induction false} StripPlain(e: Expr)
    requires Plain(e)
    ensures Plain(Strip(e))
  {
    if e.Paren? {
      StripPlain(e.inner);
    }
  }

  lemma {:induction false} StripRoot(e: Expr)
    ensures MemberRoot(e) == MemberRoot(Strip(e))
  {
    if e.Paren? {
      StripRoot(e.inner);
    }
  }

  lemma {:induction false} StripUpdate(k: Ctx, safe: Pairs, nonempty: set<string>, a: Expr)
    ensures UpdateOk(k, safe, nonempty, a) == UpdateOk(k, safe, nonempty, Strip(a))
  {
    if a.Paren? {
      StripUpdate(k, safe, nonempty, a.inner);
    }
  }

  lemma MethodJudged(k: Ctx, safe: Pairs, nonempty: set<string>, s: RO, e: Expr)
    requires k.strict && e.MethodCall? && VisibleExpr(e) && Unwritten(safe, e)
    requires Known(s, safe, nonempty) && Final(k, VisitExpr(ScopeOf(k), s, e))
    ensures ExprOk(k, safe, nonempty, e)
    decreases e, 1
  {
    hide Final, Grows, KeepsTables;
    var c := ScopeOf(k);
    var o := e.obj;
    var s1 := if Rooted(c, o) then FailIf(s, !IsPureMethod(e.method_)) else VisitExpr(c, s, o);
    PlainArgsKeep(c, s1, e.args);
    KeptGrows(s1, VisitExpr(c, s, e));
    if Rooted(c, o) {
      FailedNot(k, s, !IsPureMethod(e.method_), VisitExpr(c, s, e));
      PlainJudged(k, safe, nonempty, o);
    } else {
      FinalBefore(k, s1, VisitExpr(c, s, e));
      ExprJudged(k, safe, nonempty, s, o);
      ExprAfter(k, safe, nonempty, s, o);
    }
    PlainArgsJudged(k, safe, nonempty, s1, e.args);
  }

  /** A chain that ends here ends in a plain base. */
  lemma LinkBase(e: Expr)
    requires IsMember(e) && VisibleExpr(e) && MemberRoot(e).Some? && !IsMember(e.obj)
    ensures Plain(e.obj)
  {
    assert MemberRoot(e) == MemberRoot(e.obj);
  }

  lemma UnwrittenLink(safe: Pairs, e: Expr)
    requires IsMember(e) && Unwritten(safe, e)
    ensures Unwritten(safe, e.obj) && (e.Index? ==> Unwritten(safe, e.index))
  {
    forall q | q in safe ensures Leaves(e.obj, q.1) && (e.Index? ==> Leaves(e.index, q.1)) {
      assert Leaves(e, q.1);
    }
  }

  lemma {:induction false} ChainJudged(k: Ctx, safe: Pairs, nonempty: set<string>, s: RO, e: Expr)
    requires k.strict && IsMember(e) && RootedIn(k.names, e) && VisibleExpr(e) && Unwritten(safe, e)
    requires Known(s, safe, nonempty) && Final(k, VisitChain(ScopeOf(k), s, e))
    ensures ChainOk(k, safe, nonempty, e)
    decreases e, 0
  {
    var c := ScopeOf(k);
    var o := e.obj;
    if e.Field? {
      UnwrittenLink(safe, e);
      if IsMember(o) {
        assert VisitChain(c, s, e) == VisitChain(c, s, o);
        ChainJudged(k, safe, nonempty, s, o);
      } else {
        LinkBase(e);
        PlainJudged(k, safe, nonempty, o);
      }
    } else {
      LinkJudged(k, safe, nonempty, s, e);
    }
  }

  lemma LinkJudged(k: Ctx, safe: Pairs, nonempty: set<string>, s: RO, e: Expr)
    requires k.strict && e.Index? && VisibleExpr(e) && Unwritten(safe, e)
    requires Known(s, safe, nonempty) && Final(k, VisitChain(ScopeOf(k), s, e))
    ensures ChainOk(k, safe, nonempty, e)
    decreases e.index, 3
  {
    hide Final, Grows, KeepsTables;
    var c := ScopeOf(k);
    var o, i := e.obj, e.index;
    var known := Strip(o).Ident? && Strip(o).name in c.names && IndexSafe(s, Strip(o).name, i);
    var s0 := s.(total := s.total + 1, proven := s.proven + if known then 1 else 0);
    var s1 := FailIf(s0, !known);
    var s2 := VisitExpr(c, s1, i);
    UnwrittenLink(safe, e);
    ExprGrows(c, s1, i);
    if IsMember(o) {
      ChainKeeps(c, s2, o);
      KeptGrows(s2, VisitChain(c, s, e));
      FinalBefore(k, s2, VisitChain(c, s, e));
    }
    FailedNot(k, s0, !known, s2);
    ExprJudged(k, safe, nonempty, s1, i);
  }

  lemma {:induction false} ArgsJudged(k: Ctx, safe: Pairs, nonempty: set<string>, s: RO, f: string, n: nat, args: Args)
    requires k.strict && VisibleArgs(args) && UnwrittenArgs(safe, args)
    requires Known(s, safe, nonempty) && Final(k, VisitArgs(ScopeOf(k), s, f, n, args))
    ensures ArgsOk(k, safe, nonempty, f, n, args)
    decreases args, 0
  {
    if args.Arg? {
      var c := ScopeOf(k);
      var e := args.head;
      var bare := e.Ident? && e.name in c.names;
      var s1 := if bare then s.(passes := s.passes + [(f, n)]) else VisitExpr(c, s, e);
      ArgsKeep(c, s1, f, n + 1, args.tail);
      FinalBefore(k, s1, VisitArgs(c, s, f, n, args));
      if bare {
        assert s1.passes[|s.passes|] == (f, n);
      } else {
        ExprJudged(k, safe, nonempty, s, e);
        ExprAfter(k, safe, nonempty, s, e);
      }
      ArgsJudged(k, safe, nonempty, s1, f, n + 1, args.tail);
    }
  }

  lemma {:induction false} PlainArgsJudged(k: Ctx, safe: Pairs, nonempty: set<string>, s: RO, args: Args)
    requires k.strict && VisibleArgs(args) && UnwrittenArgs(safe, args)
    requires Known(s, safe, nonempty) && Final(k, VisitPlainArgs(ScopeOf(k), s, args))
    ensures PlainArgsOk(k, safe, nonempty, args)
    decreases args, 0
  {
    if args.Arg? {
      var s1 := VisitExpr(ScopeOf(k), s, args.head);
      PlainArgsKeep(ScopeOf(k), s1, args.tail);
      FinalBefore(k, s1, VisitPlainArgs(ScopeOf(k), s, args));
      ExprJudged(k, safe, nonempty, s, args.head);
      ExprAfter(k, safe, nonempty, s, args.head);
      PlainArgsJudged(k, safe, nonempty, s1, args.tail);
    }
  }
}
