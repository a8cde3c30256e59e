/**
 Acceptance implies the judgement, for statements and whole bodies.  The hard case is a matched
 `for` loop: that its index is not written in the body follows from counting alone.
 */
module CloneBodies {
  import opened Wrappers
  import opened CloneSyntax
  import opened CloneJudgement
  import opened CloneAnalysis
  import opened CloneDiscipline
  import opened CloneCounting
  import opened CloneAcceptance

  type Lengths = map<string, string>

  /** Recorded aliases are the lengths they are declared as. */
  ghost predicate LensOk(lengths: Lengths, names: set<string>, s: RO) {
    && (forall n :: n in s.lens ==> n in lengths && lengths[n] == s.lens[n] && s.lens[n] in names)
    && (forall n :: n in s.lensUsed ==> n in lengths && lengths[n] in names)
  }

  /** Loops never ran ahead of the assignments that account for them. */
  ghost predicate Ready(k: Ctx, lengths: Lengths, s: RO) {
    LensOk(lengths, k.names, s) && forall x :: Excess(s, x) >= 0
  }

  ghost predicate AliasesOk(k: Ctx, lengths: Lengths) {
    forall n :: n in k.aliases ==> n in lengths && k.aliases[n] == lengths[n] && k.aliases[n] in k.names
  }

  lemma ReadyAfter(k: Ctx, lengths: Lengths, s: RO, t: RO)
    requires Ready(k, lengths, s) && Grows(s, t) && LensOk(lengths, k.names, t)
    ensures Ready(k, lengths, t)
  {
    forall x ensures Excess(t, x) >= 0 {
      assert Excess(s, x) <= Excess(t, x);
    }
  }

  // ---- aliases through a visit --------------------------------------------------------

  lemma ExprLens(lengths: Lengths, c: Scope, s: RO, e: Expr)
    requires LensOk(lengths, c.names, s)
    ensures LensOk(lengths, c.names, VisitExpr(c, s, e))
  {
    ExprKeeps(c, s, e);
  }

  lemma OptionLens(lengths: Lengths, c: Scope, s: RO, e: Option<Expr>)
    requires LensOk(lengths, c.names, s)
    ensures LensOk(lengths, c.names, VisitOption(c, s, e))
  {
    OptionKeeps(c, s, e);
  }

  lemma {:induction false} DeclsLens(lengths: Lengths, c: Scope, s: RO, ds: Decls)
    requires LensOk(lengths, c.names, s) && ConformsDecls(lengths, ds)
    ensures LensOk(lengths, c.names, VisitDecls(c, s, ds))
    decreases ds
  {
    if ds.Decl? {
      var init := ds.init;
      var s1 := if init.Some? && LengthOf(init.value).Some? && LengthOf(init.value).value in c.names
                then s.(lens := s.lens[ds.name := LengthOf(init.value).value]) else s;
      assert LensOk(lengths, c.names, s1);
      OptionLens(lengths, c, s1, init);
      DeclsLens(lengths, c, VisitOption(c, s1, init), ds.rest);
    }
  }

  lemma HeaderLens(lengths: Lengths, c: Scope, s: RO, ds: Decls, t: Option<Expr>, u: Option<Expr>)
    requires LensOk(lengths, c.names, s) && ConformsDecls(lengths, ds)
    ensures LensOk(lengths, c.names, VisitHeader(c, s, ds, t, u))
  {
    DeclsLens(lengths, c, s, ds);
    OptionLens(lengths, c, VisitDecls(c, s, ds), t);
    OptionLens(lengths, c, VisitOption(c, VisitDecls(c, s, ds), t), u);
  }

  lemma {:induction false} ScanLens(lengths: Lengths, c: Scope, s: RO, ds: Decls, index: Option<string>)
    requires LensOk(lengths, c.names, s) && ConformsDecls(lengths, ds)
    ensures LensOk(lengths, c.names, ScanHeader(c, s, ds, index).0)
    decreases ds
  {
    if ds.Decl? && ds.init.Some? {
      if LengthOf(ds.init.value).Some? && LengthOf(ds.init.value).value in c.names {
        ScanLens(lengths, c, s.(lens := s.lens[ds.name := LengthOf(ds.init.value).value]), ds.rest, index);
      } else if IsCount(ds.init.value) && index.None? {
        ScanLens(lengths, c, s, ds.rest, Some(ds.name));
      }
    }
  }

  lemma PatternLens(lengths: Lengths, c: Scope, s: RO, ds: Decls, t: Option<Expr>, u: Option<Expr>)
    requires LensOk(lengths, c.names, s) && ConformsDecls(lengths, ds)
    ensures LensOk(lengths, c.names, LoopPattern(c, s, ds, t, u).0)
  {
    ScanLens(lengths, c, s, ds, None);
  }

  lemma {:induction false} StmtLens(lengths: Lengths, c: Scope, s: RO, st: Stmt)
    requires LensOk(lengths, c.names, s) && Tidy(lengths, st)
    ensures LensOk(lengths, c.names, VisitStmt(c, s, st))
    decreases st, 1
  {
    hide LensOk;
    match st
    case Exp(e) => ExprLens(lengths, c, s, e);
    case Var(ds) => DeclsLens(lengths, c, s, ds);
    case If(t, a, b) =>
      ExprLens(lengths, c, s, t);
      StmtLens(lengths, c, VisitExpr(c, s, t), a);
      if b.Some? {
        StmtLens(lengths, c, VisitStmt(c, VisitExpr(c, s, t), a), b.value);
      }
    case While(t, b) =>
      ExprLens(lengths, c, s, t);
      StmtLens(lengths, c, VisitExpr(c, s, t), b);
    case For(ds, t, u, b) =>
      PatternLens(lengths, c, s, ds, t, u);
      var (s1, loop) := LoopPattern(c, s, ds, t, u);
      var s2 := if loop.Some? then s1.(loops := Bump(s1.loops, loop.value.1), safe := s1.safe + [loop.value]) else s1;
      SameLens(lengths, c, s1, s2);
      HeaderLens(lengths, c, s2, ds, t, u);
      StmtLens(lengths, c, VisitHeader(c, s2, ds, t, u), b);
      SameLens(lengths, c, VisitStmt(c, VisitHeader(c, s2, ds, t, u), b), VisitStmt(c, s, st));
    case ForOf(_, src, b) =>
      ExprLens(lengths, c, s, src);
      StmtLens(lengths, c, if Rooted(c, src) then s else VisitExpr(c, s, src), b);
    case Block(ss) =>
      BlockIsList(lengths, ss);
      StmtsLens(lengths, c, s, ss);
    case Return(v) => OptionLens(lengths, c, s, v);
    case Throw(e) => ExprLens(lengths, c, s, e);
    case Break =>
    case Continue =>
  }

  lemma SameLens(lengths: Lengths, c: Scope, s: RO, t: RO)
    requires LensOk(lengths, c.names, s) && t.lens == s.lens && t.lensUsed == s.lensUsed
    ensures LensOk(lengths, c.names, t)
  {
  }

  lemma {:induction false} BlockIsList(lengths: Lengths, ss: Stmts)
    requires TidyBlock(lengths, ss)
    ensures TidyList(lengths, ss)
  {
    if ss.Then? {
      BlockIsList(lengths, ss.tail);
    }
  }

  function Guarding(s: RO, st: Stmt): RO {
    if EmptyGuard(st).Some? then s.(nonempty := s.nonempty + {EmptyGuard(st).value}) else s
  }

  lemma {:induction false} StmtsLens(lengths: Lengths, c: Scope, s: RO, ss: Stmts)
    requires LensOk(lengths, c.names, s) && TidyList(lengths, ss)
    ensures LensOk(lengths, c.names, VisitStmts(c, s, ss))
    decreases ss, 0
  {
    if ss.Then? {
      var s1 := VisitStmt(c, s, ss.head);
      StmtLens(lengths, c, s, ss.head);
      SameLens(lengths, c, s1, Guarding(s1, ss.head));
      StmtsLens(lengths, c, Guarding(s1, ss.head), ss.tail);
    }
  }

  // ---- declarations -------------------------------------------------------------------

  /** The names in scope keep their roles through `st`. */
  ghost predicate Undisturbed(k: Ctx, safe: Pairs, st: Stmt) {
    && (forall p :: p in k.names ==> !Binds(st, p))
    && (forall q :: q in safe ==> !Binds(st, q.1) && LeavesStmt(st, q.1))
  }

  ghost predicate UndisturbedDecls(k: Ctx, safe: Pairs, ds: Decls) {
    && (forall p :: p in k.names ==> !Declares(ds, p))
    && (forall q :: q in safe ==> !Declares(ds, q.1))
  }

  ghost predicate UnwrittenDecls(safe: Pairs, ds: Decls) { forall q :: q in safe ==> LeavesDecls(ds, q.1) }
  ghost predicate UnwrittenOption(safe: Pairs, e: Option<Expr>) { e.Some? ==> Unwritten(safe, e.value) }

  lemma OptionJudged(k: Ctx, safe: Pairs, nonempty: set<string>, s: RO, e: Option<Expr>)
    requires k.strict && VisibleOption(e) && UnwrittenOption(safe, e)
    requires Known(s, safe, nonempty) && Final(k, VisitOption(ScopeOf(k), s, e))
    ensures OptionOk(k, safe, nonempty, e) && Known(VisitOption(ScopeOf(k), s, e), safe, nonempty)
  {
    if e.Some? {
      ExprJudged(k, safe, nonempty, s, e.value);
      ExprAfter(k, safe, nonempty, s, e.value);
    }
  }

  lemma {:induction false} DeclsJudged(k: Ctx, lengths: Lengths, safe: Pairs, nonempty: set<string>, s: RO, ds: Decls)
    requires k.strict && VisibleDecls(ds) && UnwrittenDecls(safe, ds) && UndisturbedDecls(k, safe, ds)
    requires ConformsDecls(lengths, ds) && AliasesOk(k, lengths)
    requires Known(s, safe, nonempty) && Final(k, VisitDecls(ScopeOf(k), s, ds))
    ensures DeclsOk(k, safe, nonempty, ds)
    ensures Known(VisitDecls(ScopeOf(k), s, ds), safe, nonempty)
    decreases ds
  {
    hide Final, Grows;
    if ds.Decl? {
      var c := ScopeOf(k);
      var init := ds.init;
      var s1 := if init.Some? && LengthOf(init.value).Some? && LengthOf(init.value).value in c.names
                then s.(lens := s.lens[ds.name := LengthOf(init.value).value]) else s;
      var s2 := VisitOption(c, s1, init);
      DeclsGrow(c, s2, ds.rest);
      FinalBefore(k, s2, VisitDecls(c, s, ds));
      OptionJudged(k, safe, nonempty, s1, init);
      DeclsJudged(k, lengths, safe, nonempty, s2, ds.rest);
      assert BinderOk(k, safe, ds.name, init);
    }
  }

  // ---- the header of a matched loop ---------------------------------------------------

  /** Visiting `p.length` succeeds only where lengths are not array fields. */
  lemma LengthJudged(k: Ctx, safe: Pairs, nonempty: set<string>, s: RO, e: Expr)
    requires LengthOf(e).Some? && LengthOf(e).value in k.names && VisitExpr(ScopeOf(k), s, e).ok
    ensures ExprOk(k, safe, nonempty, e)
  {
    var c := ScopeOf(k);
    StripVisit(c, s, e);
    StripOk(k, safe, nonempty, e);
    var m := Strip(e);
    StripRoot(m.obj);
    StrippedPlain(m.obj);
    PlainJudged(k, safe, nonempty, m.obj);
    assert Rooted(c, m);
    ChainKeeps(c, FailIf(s, "length" in c.fields), m);
  }

  lemma {:induction false} StripOk(k: Ctx, safe: Pairs, nonempty: set<string>, e: Expr)
    ensures ExprOk(k, safe, nonempty, e) == ExprOk(k, safe, nonempty, Strip(e))
  {
    if e.Paren? {
      StripOk(k, safe, nonempty, e.inner);
    }
  }

  lemma {:induction false} MatchedDecls(k: Ctx, lengths: Lengths, safe: Pairs, nonempty: set<string>, s: RO, s0: RO,
                                        ds: Decls, index: Option<string>)
    requires UndisturbedDecls(k, safe, ds) && ConformsDecls(lengths, ds) && AliasesOk(k, lengths)
    requires ScanHeader(ScopeOf(k), s0, ds, index).1.Some? && VisitDecls(ScopeOf(k), s, ds).ok
    ensures DeclsOk(k, safe, nonempty, ds)
    decreases ds
  {
    if ds.Decl? {
      var c := ScopeOf(k);
      var init := ds.init;
      var isLength := LengthOf(init.value).Some? && LengthOf(init.value).value in c.names;
      var s1 := if isLength then s.(lens := s.lens[ds.name := LengthOf(init.value).value]) else s;
      var s2 := VisitOption(c, s1, init);
      DeclsGrow(c, s2, ds.rest);
      if isLength {
        LengthJudged(k, safe, nonempty, s1, init.value);
        MatchedDecls(k, lengths, safe, nonempty, s2, s0.(lens := s0.lens[ds.name := LengthOf(init.value).value]),
                     ds.rest, index);
      } else {
        StripOk(k, safe, nonempty, init.value);
        MatchedDecls(k, lengths, safe, nonempty, s2, s0, ds.rest, Some(ds.name));
      }
      assert BinderOk(k, safe, ds.name, init);
    }
  }

  /** A scanned header starts the index it names and takes lengths otherwise. */
  lemma {:induction false} ScannedStarts(c: Scope, s: RO, ds: Decls, index: Option<string>)
    requires HeaderDistinct(ds) && ScanHeader(c, s, ds, index).1.Some?
    ensures var i := ScanHeader(c, s, ds, index).1.value;
            if index.Some? then i == index && LengthsOnly(ds)
            else if i.None? then LengthsOnly(ds)
            else StartsIndex(ds, i.value) && Declares(ds, i.value)
    decreases ds
  {
    if ds.Decl? {
      if LengthOf(ds.init.value).Some? && LengthOf(ds.init.value).value in c.names {
        ScannedStarts(c, s.(lens := s.lens[ds.name := LengthOf(ds.init.value).value]), ds.rest, index);
      } else {
        ScannedStarts(c, s, ds.rest, Some(ds.name));
      }
    }
  }

  /** The index of a scanned header is not a length alias. */
  lemma {:induction false} ScannedCounts(c: Scope, lengths: Lengths, s: RO, ds: Decls, index: Option<string>)
    requires ConformsDecls(lengths, ds) && ScanHeader(c, s, ds, index).1.Some?
    ensures var i := ScanHeader(c, s, ds, index).1.value;
            i.Some? && index.None? ==> i.value !in lengths
    ensures index.Some? ==> ScanHeader(c, s, ds, index).1.value == index
    decreases ds
  {
    if ds.Decl? {
      if LengthOf(ds.init.value).Some? && LengthOf(ds.init.value).value in c.names {
        ScannedCounts(c, lengths, s.(lens := s.lens[ds.name := LengthOf(ds.init.value).value]), ds.rest, index);
      } else {
        ScannedCounts(c, lengths, s, ds.rest, Some(ds.name));
      }
    }
  }

  lemma TestJudged(k: Ctx, safe: Pairs, nonempty: set<string>, s: RO, e: Expr, i: string)
    requires i !in k.names && VisitExpr(ScopeOf(k), s, e).ok
    requires var t := Strip(e);
             && t.Bin? && Strip(t.left) == Ident(i)
             && (Strip(t.right).Ident? || (LengthOf(t.right).Some? && LengthOf(t.right).value in k.names))
    ensures ExprOk(k, safe, nonempty, e)
  {
    var c := ScopeOf(k);
    var t := Strip(e);
    StripVisit(c, s, e);
    StripOk(k, safe, nonempty, e);
    StripOk(k, safe, nonempty, t.left);
    var s1 := VisitExpr(c, s, t.left);
    if Strip(t.right).Ident? {
      StripVisit(c, s1, t.right);
      StripOk(k, safe, nonempty, t.right);
    } else {
      LengthJudged(k, safe, nonempty, s1, t.right);
    }
  }

  lemma StepJudged(k: Ctx, safe: Pairs, nonempty: set<string>, u: Option<Expr>, i: string)
    requires StepsIndex(u, i) && Writable(k, safe, i)
    ensures OptionOk(k, safe, nonempty, u)
  {
    StripOk(k, safe, nonempty, u.value);
    StripUpdate(k, safe, nonempty, Strip(u.value).arg);
  }

  /** A matched pattern is a loop pair of the judgement. */
  lemma PatternPairs(k: Ctx, lengths: Lengths, s: RO, ds: Decls, t: Option<Expr>, u: Option<Expr>)
    requires ConformsDecls(lengths, ds) && HeaderDistinct(ds) && AliasesOk(k, lengths) && LensOk(lengths, k.names, s)
    requires LoopPattern(ScopeOf(k), s, ds, t, u).1.Some?
    requires forall n :: n in LoopPattern(ScopeOf(k), s, ds, t, u).0.lensUsed ==> n in k.aliases
    ensures var (p, i) := LoopPattern(ScopeOf(k), s, ds, t, u).1.value;
            && LoopPair(k, ds, t, u, p, i) && Declares(ds, i) && i !in lengths
            && StepsIndex(u, i)
            && ScanHeader(ScopeOf(k), s, ds, None).1.Some?
            && var e := Strip(t.value);
               Strip(e.right).Ident? || (LengthOf(e.right).Some? && LengthOf(e.right).value in k.names)
  {
    var c := ScopeOf(k);
    ScannedStarts(c, s, ds, None);
    ScannedCounts(c, lengths, s, ds, None);
    ScanLens(lengths, c, s, ds, None);
    var b := Strip(Strip(t.value).right);
    assert LengthOf(b) == LengthOf(Strip(t.value).right);
  }

  // ---- statements ---------------------------------------------------------------------

  /** The state after a statement is as good as the one before. */
  lemma StmtAfter(k: Ctx, lengths: Lengths, safe: Pairs, nonempty: set<string>, s: RO, st: Stmt)
    requires Known(s, safe, nonempty) && Ready(k, lengths, s) && Tidy(lengths, st)
    ensures var t := VisitStmt(ScopeOf(k), s, st);
            Known(t, safe, nonempty) && Ready(k, lengths, t) && Grows(s, t)
  {
    var c := ScopeOf(k);
    StmtGrows(c, s, st);
    StmtLoops(c, lengths, s, st, "");
    StmtLens(lengths, c, s, st);
    StmtProven(c, s, st);
    ReadyAfter(k, lengths, s, VisitStmt(c, s, st));
  }

  lemma StmtProven(c: Scope, s: RO, st: Stmt)
    requires s.proven <= s.total
    ensures VisitStmt(c, s, st).proven <= VisitStmt(c, s, st).total
  {
    StmtGrows(c, s, st);
  }

  lemma ExprReady(k: Ctx, lengths: Lengths, safe: Pairs, nonempty: set<string>, s: RO, e: Expr)
    requires Known(s, safe, nonempty) && Ready(k, lengths, s)
    ensures var t := VisitExpr(ScopeOf(k), s, e);
            Known(t, safe, nonempty) && Ready(k, lengths, t) && Grows(s, t)
  {
    ExprAfter(k, safe, nonempty, s, e);
    ExprLens(lengths, ScopeOf(k), s, e);
    ReadyAfter(k, lengths, s, VisitExpr(ScopeOf(k), s, e));
  }

  lemma {:induction false} StmtJudged(k: Ctx, lengths: Lengths, safe: Pairs, nonempty: set<string>, s: RO, st: Stmt)
    requires k.strict && AliasesOk(k, lengths) && Tidy(lengths, st) && Undisturbed(k, safe, st)
    requires Known(s, safe, nonempty) && Ready(k, lengths, s) && Final(k, VisitStmt(ScopeOf(k), s, st))
    ensures StmtOk(k, safe, nonempty, st)
    decreases st, 1
  {
    hide Final, Grows, Ready, Known, AliasesOk;
    var c := ScopeOf(k);
    match st
    case Exp(e) => ExprJudged(k, safe, nonempty, s, e);
    case Var(ds) => DeclsJudged(k, lengths, safe, nonempty, s, ds);
    case If(t, a, b) => IfJudged(k, lengths, safe, nonempty, s, st);
    case While(t, b) =>
      ExprReady(k, lengths, safe, nonempty, s, t);
      StmtGrows(c, VisitExpr(c, s, t), b);
      FinalBefore(k, VisitExpr(c, s, t), VisitStmt(c, s, st));
      ExprJudged(k, safe, nonempty, s, t);
      StmtJudged(k, lengths, safe, nonempty, VisitExpr(c, s, t), b);
    case For(_, _, _, _) =>
      if LoopPattern(c, s, st.decls, st.until, st.update).1.Some? {
        MatchedJudged(k, lengths, safe, nonempty, s, st);
      } else {
        UnmatchedJudged(k, lengths, safe, nonempty, s, st);
      }
    case ForOf(_, _, _) => ForOfJudged(k, lengths, safe, nonempty, s, st);
    case Block(ss) => BlockJudged(k, lengths, safe, nonempty, s, ss);
    case Return(v) => OptionJudged(k, safe, nonempty, s, v);
    case Throw(e) => ExprJudged(k, safe, nonempty, s, e);
    case Break =>
    case Continue =>
  }

  lemma IfJudged(k: Ctx, lengths: Lengths, safe: Pairs, nonempty: set<string>, s: RO, st: Stmt)
    requires st.If? && k.strict && AliasesOk(k, lengths) && Tidy(lengths, st) && Undisturbed(k, safe, st)
    requires Known(s, safe, nonempty) && Ready(k, lengths, s) && Final(k, VisitStmt(ScopeOf(k), s, st))
    ensures StmtOk(k, safe, nonempty, st)
    decreases st, 0
  {
    hide Final, Grows, Ready, Known, AliasesOk;
    var c := ScopeOf(k);
    var s1 := VisitExpr(c, s, st.test);
    var s2 := VisitStmt(c, s1, st.cons);
    ExprReady(k, lengths, safe, nonempty, s, st.test);
    StmtAfter(k, lengths, safe, nonempty, s1, st.cons);
    if st.alt.Some? {
      StmtGrows(c, s2, st.alt.value);
      FinalBefore(k, s2, VisitStmt(c, s, st));
      StmtJudged(k, lengths, safe, nonempty, s2, st.alt.value);
    }
    FinalBefore(k, s1, s2);
    ExprJudged(k, safe, nonempty, s, st.test);
    StmtJudged(k, lengths, safe, nonempty, s1, st.cons);
  }

  lemma ForOfJudged(k: Ctx, lengths: Lengths, safe: Pairs, nonempty: set<string>, s: RO, st: Stmt)
    requires st.ForOf? && k.strict && AliasesOk(k, lengths) && Tidy(lengths, st) && Undisturbed(k, safe, st)
    requires Known(s, safe, nonempty) && Ready(k, lengths, s) && Final(k, VisitStmt(ScopeOf(k), s, st))
    ensures StmtOk(k, safe, nonempty, st)
    decreases st, 0
  {
    hide Final, Grows, Ready, Known;
    var c := ScopeOf(k);
    var s1 := if Rooted(c, st.source) then s else VisitExpr(c, s, st.source);
    ExprReady(k, lengths, safe, nonempty, s, st.source);
    StmtGrows(c, s1, st.body);
    FinalBefore(k, s1, VisitStmt(c, s, st));
    if Rooted(c, st.source) {
      PlainJudged(k, safe, nonempty, st.source);
    } else {
      ExprJudged(k, safe, nonempty, s, st.source);
    }
    StmtJudged(k, lengths, safe, nonempty, s1, st.body);
    assert Writable(k, safe, st.name);
  }

  lemma UnmatchedJudged(k: Ctx, lengths: Lengths, safe: Pairs, nonempty: set<string>, s: RO, st: Stmt)
    requires st.For? && k.strict && AliasesOk(k, lengths) && Tidy(lengths, st) && Undisturbed(k, safe, st)
    requires LoopPattern(ScopeOf(k), s, st.decls, st.until, st.update).1.None?
    requires Known(s, safe, nonempty) && Ready(k, lengths, s) && Final(k, VisitStmt(ScopeOf(k), s, st))
    ensures StmtOk(k, safe, nonempty, st)
    decreases st, 0
  {
    hide Final, Grows, Ready, Known, AliasesOk;
    var c := ScopeOf(k);
    var s1 := LoopPattern(c, s, st.decls, st.until, st.update).0;
    UnmatchedEntry(k, lengths, safe, nonempty, s, st);
    var h := VisitHeader(c, s1, st.decls, st.until, st.update);
    StmtGrows(c, h, st.body);
    FinalBefore(k, h, VisitStmt(c, s, st));
    UnmatchedHeader(k, lengths, safe, nonempty, s1, st);
    StmtJudged(k, lengths, safe, nonempty, h, st.body);
  }

  /** After an unmatched header nothing new is known of indices. */
  lemma UnmatchedEntry(k: Ctx, lengths: Lengths, safe: Pairs, nonempty: set<string>, s: RO, st: Stmt)
    requires st.For? && Tidy(lengths, st) && Known(s, safe, nonempty) && Ready(k, lengths, s)
    ensures var s1 := LoopPattern(ScopeOf(k), s, st.decls, st.until, st.update).0;
            var h := VisitHeader(ScopeOf(k), s1, st.decls, st.until, st.update);
            Known(s1, safe, nonempty) && Known(h, safe, nonempty) && Ready(k, lengths, h)
  {
    var c := ScopeOf(k);
    PatternGrows(c, s, st.decls, st.until, st.update);
    PatternLens(lengths, c, s, st.decls, st.until, st.update);
    var s1 := LoopPattern(c, s, st.decls, st.until, st.update).0;
    ReadyAfter(k, lengths, s, s1);
    HeaderGrows(c, s1, st.decls, st.until, st.update);
    HeaderLens(lengths, c, s1, st.decls, st.until, st.update);
    ReadyAfter(k, lengths, s1, VisitHeader(c, s1, st.decls, st.until, st.update));
    HeaderProven(c, s1, st.decls, st.until, st.update);
  }

  lemma HeaderProven(c: Scope, s: RO, ds: Decls, t: Option<Expr>, u: Option<Expr>)
    requires s.proven <= s.total
    ensures VisitHeader(c, s, ds, t, u).proven <= VisitHeader(c, s, ds, t, u).total
  {
    HeaderGrows(c, s, ds, t, u);
  }

  lemma UnmatchedHeader(k: Ctx, lengths: Lengths, safe: Pairs, nonempty: set<string>, s: RO, st: Stmt)
    requires st.For? && k.strict && AliasesOk(k, lengths) && Tidy(lengths, st) && Undisturbed(k, safe, st)
    requires Known(s, safe, nonempty) && Final(k, VisitHeader(ScopeOf(k), s, st.decls, st.until, st.update))
    ensures DeclsOk(k, safe, nonempty, st.decls) && OptionOk(k, safe, nonempty, st.until) &&
            OptionOk(k, safe, nonempty, st.update)
  {
    hide Final, Grows, Known, AliasesOk;
    var c := ScopeOf(k);
    var s1 := VisitDecls(c, s, st.decls);
    var s2 := VisitOption(c, s1, st.until);
    OptionGrows(c, s2, st.update);
    FinalBefore(k, s2, VisitOption(c, s2, st.update));
    OptionGrows(c, s1, st.until);
    FinalBefore(k, s1, s2);
    DeclsJudged(k, lengths, safe, nonempty, s, st.decls);
    OptionJudged(k, safe, nonempty, s1, st.until);
    OptionJudged(k, safe, nonempty, s2, st.update);
  }

  lemma UndisturbedParts(k: Ctx, safe: Pairs, ss: Stmts)
    requires ss.Then? && Undisturbed(k, safe, Block(ss))
    ensures Undisturbed(k, safe, ss.head) && Undisturbed(k, safe, Block(ss.tail))
  {
    forall p | p in k.names ensures !Binds(ss.head, p) && !BindsIn(ss.tail, p) {
      assert !Binds(Block(ss), p);
      assert !BindsIn(ss, p);
    }
    forall q | q in safe
      ensures !Binds(ss.head, q.1) && !BindsIn(ss.tail, q.1)
      ensures LeavesStmt(ss.head, q.1) && LeavesBlock(ss.tail, q.1)
    {
      assert !Binds(Block(ss), q.1) && LeavesStmt(Block(ss), q.1);
      assert !BindsIn(ss, q.1) && LeavesBlock(ss, q.1);
    }
  }

  lemma {:induction false} BlockJudged(k: Ctx, lengths: Lengths, safe: Pairs, nonempty: set<string>, s: RO, ss: Stmts)
    requires k.strict && AliasesOk(k, lengths) && TidyBlock(lengths, ss) && Undisturbed(k, safe, Block(ss))
    requires Known(s, safe, nonempty) && Ready(k, lengths, s) && Final(k, VisitStmts(ScopeOf(k), s, ss))
    ensures BlockOk(k, safe, nonempty, ss)
    decreases ss, 0
  {
    hide Final, Grows, Ready, Known, AliasesOk;
    if ss.Then? {
      var c := ScopeOf(k);
      var s1 := VisitStmt(c, s, ss.head);
      StmtAfter(k, lengths, safe, nonempty, s, ss.head);
      StmtsGrow(c, s1, ss.tail);
      FinalBefore(k, s1, VisitStmts(c, s, ss));
      UndisturbedParts(k, safe, ss);
      StmtJudged(k, lengths, safe, nonempty, s, ss.head);
      BlockJudged(k, lengths, safe, nonempty, s1, ss.tail);
    }
  }

  // ---- matched loops ------------------------------------------------------------------

  lemma MatchedJudged(k: Ctx, lengths: Lengths, safe: Pairs, nonempty: set<string>, s: RO, st: Stmt)
    requires st.For? && k.strict && AliasesOk(k, lengths) && Tidy(lengths, st) && Undisturbed(k, safe, st)
    requires LoopPattern(ScopeOf(k), s, st.decls, st.until, st.update).1.Some?
    requires Known(s, safe, nonempty) && Ready(k, lengths, s) && Final(k, VisitStmt(ScopeOf(k), s, st))
    ensures StmtOk(k, safe, nonempty, st)
    decreases st, 0
  {
    hide Final, Grows, Ready, Known, AliasesOk, Undisturbed, StmtOk, LoopPair, OptionOk, DeclsOk;
    var c := ScopeOf(k);
    var (s1, loop) := LoopPattern(c, s, st.decls, st.until, st.update);
    var (p, i) := loop.value;
    MatchedEntry(k, lengths, safe, nonempty, s, st);
    var b := LoopEntry(c, s1, st, loop.value);
    var e := VisitStmt(c, b, st.body);
    SameFinal(k, VisitStmt(c, s, st), e);
    StmtGrows(c, b, st.body);
    FinalBefore(k, b, e);
    MatchedHeader(k, lengths, safe, nonempty, s, st);
    MatchedBody(k, lengths, safe, nonempty, b, st, p, i);
    PairedFor(k, safe, nonempty, st, p, i);
  }

  lemma MatchedBody(k: Ctx, lengths: Lengths, safe: Pairs, nonempty: set<string>, b: RO, st: Stmt, p: string, i: string)
    requires st.For? && k.strict && AliasesOk(k, lengths) && Tidy(lengths, st) && Undisturbed(k, safe, st) &&
             Declares(st.decls, i)
    requires Known(b, safe + {(p, i)}, nonempty) && Ready(k, lengths, b) && Count(b.loops, i) >= 1
    requires Final(k, VisitStmt(ScopeOf(k), b, st.body))
    ensures StmtOk(k, safe + {(p, i)}, nonempty, st.body)
    decreases st.body, 2
  {
    hide Final, Ready, Known, AliasesOk, Undisturbed, StmtOk, VisitStmt;
    IndexUnwritten(k, lengths, b, st.body, i);
    UndisturbedBody(k, lengths, safe, st, p, i);
    StmtJudged(k, lengths, safe + {(p, i)}, nonempty, b, st.body);
  }

  lemma PairedFor(k: Ctx, safe: Pairs, nonempty: set<string>, st: Stmt, p: string, i: string)
    requires st.For? && LoopPair(k, st.decls, st.until, st.update, p, i) &&
             StmtOk(k, safe + {(p, i)}, nonempty, st.body)
    requires DeclsOk(k, safe, nonempty, st.decls) && OptionOk(k, safe, nonempty, st.until) &&
             OptionOk(k, safe, nonempty, st.update)
    ensures StmtOk(k, safe, nonempty, st)
  {
  }

  lemma UndisturbedBody(k: Ctx, lengths: Lengths, safe: Pairs, st: Stmt, p: string, i: string)
    requires st.For? && Tidy(lengths, st) && Undisturbed(k, safe, st) && Declares(st.decls, i) && LeavesStmt(st.body, i)
    ensures Undisturbed(k, safe + {(p, i)}, st.body)
  {
  }

  lemma SameFinal(k: Ctx, s: RO, t: RO)
    requires Final(k, s) && s == t.(safe := s.safe)
    ensures Final(k, t)
  {
    forall x | Count(t.loops, x) > 0 ensures Excess(t, x) <= 0 {
      assert Excess(s, x) <= 0;
    }
  }

  /** The body of a matched loop is visited knowing its pair. */
  lemma MatchedEntry(k: Ctx, lengths: Lengths, safe: Pairs, nonempty: set<string>, s: RO, st: Stmt)
    requires st.For? && Tidy(lengths, st) && Known(s, safe, nonempty) && Ready(k, lengths, s)
    requires LoopPattern(ScopeOf(k), s, st.decls, st.until, st.update).1.Some?
    ensures var (s1, loop) := LoopPattern(ScopeOf(k), s, st.decls, st.until, st.update);
            var b := LoopEntry(ScopeOf(k), s1, st, loop.value);
            && Known(b, safe + {loop.value}, nonempty) && Ready(k, lengths, b)
            && Count(b.loops, loop.value.1) >= 1 && b.lensUsed == s1.lensUsed
  {
    var c := ScopeOf(k);
    var (s1, loop) := LoopPattern(c, s, st.decls, st.until, st.update);
    PatternGrows(c, s, st.decls, st.until, st.update);
    PatternLens(lengths, c, s, st.decls, st.until, st.update);
    ReadyAfter(k, lengths, s, s1);
    LoopEntryGrows(c, s1, st, loop.value);
    var s2 := s1.(loops := Bump(s1.loops, loop.value.1), safe := s1.safe + [loop.value]);
    SameLens(lengths, c, s1, s2);
    HeaderLens(lengths, c, s2, st.decls, st.until, st.update);
    HeaderProven(c, s2, st.decls, st.until, st.update);
    var b := LoopEntry(c, s1, st, loop.value);
    SameLens(lengths, c, b, b.(safe := s1.safe));
    ReadyAfter(k, lengths, s1, b.(safe := s1.safe));
    ReadyUnguarded(k, lengths, b, s1.safe);
  }

  lemma ReadyUnguarded(k: Ctx, lengths: Lengths, b: RO, safe: seq<(string, string)>)
    requires Ready(k, lengths, b.(safe := safe))
    ensures Ready(k, lengths, b)
  {
    forall x ensures Excess(b, x) >= 0 {
      assert Excess(b.(safe := safe), x) >= 0;
    }
  }

  lemma MatchedHeader(k: Ctx, lengths: Lengths, safe: Pairs, nonempty: set<string>, s: RO, st: Stmt)
    requires st.For? && AliasesOk(k, lengths) && Tidy(lengths, st) && Undisturbed(k, safe, st) && Ready(k, lengths, s)
    requires LoopPattern(ScopeOf(k), s, st.decls, st.until, st.update).1.Some?
    requires var (s1, loop) := LoopPattern(ScopeOf(k), s, st.decls, st.until, st.update);
             Final(k, LoopEntry(ScopeOf(k), s1, st, loop.value))
    ensures DeclsOk(k, safe, nonempty, st.decls) && OptionOk(k, safe, nonempty, st.until) &&
            OptionOk(k, safe, nonempty, st.update)
    ensures var (p, i) := LoopPattern(ScopeOf(k), s, st.decls, st.until, st.update).1.value;
            LoopPair(k, st.decls, st.until, st.update, p, i) && Declares(st.decls, i)
  {
    var c := ScopeOf(k);
    var ds, t, u := st.decls, st.until, st.update;
    var (s1, loop) := LoopPattern(c, s, ds, t, u);
    var i := loop.value.1;
    var b := LoopEntry(c, s1, st, loop.value);
    var s2 := s1.(loops := Bump(s1.loops, i), safe := s1.safe + [loop.value]);
    HeaderGrows(c, s2, ds, t, u);
    PatternPairs(k, lengths, s, ds, t, u);
    HeaderOks(c, s2, ds, t, u);
    MatchedDecls(k, lengths, safe, nonempty, s2, s, ds, None);
    TestJudged(k, safe, nonempty, VisitDecls(c, s2, ds), t.value, i);
    StepJudged(k, safe, nonempty, u, i);
  }

  lemma HeaderOks(c: Scope, s: RO, ds: Decls, t: Option<Expr>, u: Option<Expr>)
    requires VisitHeader(c, s, ds, t, u).ok
    ensures VisitDecls(c, s, ds).ok && VisitOption(c, VisitDecls(c, s, ds), t).ok
  {
    var s1 := VisitDecls(c, s, ds);
    OptionKeeps(c, s1, t);
    OptionKeeps(c, VisitOption(c, s1, t), u);
  }

  /** The counting argument: the loops over `i` seen before the body already use up every
      assignment of `i` that the accepting end allows, so the body holds none. */
  lemma IndexUnwritten(k: Ctx, lengths: Lengths, b: RO, body: Stmt, i: string)
    requires Tidy(lengths, body) && !Binds(body, i) && Ready(k, lengths, b) && Count(b.loops, i) >= 1
    requires Final(k, VisitStmt(ScopeOf(k), b, body))
    ensures LeavesStmt(body, i)
  {
    var c := ScopeOf(k);
    var e := VisitStmt(c, b, body);
    StmtLoops(c, lengths, b, body, i);
    StmtGrows(c, b, body);
    assert Excess(b, i) >= 0 && Excess(e, i) <= 0;
    assert Count(b.assigns, i) <= Count(e.assigns, i);
    StmtQuiet(c, lengths, b, body, i);
  }

  // ---- whole bodies -------------------------------------------------------------------

  lemma {:induction false} ListJudged(k: Ctx, lengths: Lengths, nonempty: set<string>, s: RO, ss: Stmts)
    requires k.strict && AliasesOk(k, lengths) && TidyList(lengths, ss) && Undisturbed(k, {}, Block(ss))
    requires Known(s, {}, nonempty) && Ready(k, lengths, s) && Final(k, VisitStmts(ScopeOf(k), s, ss))
    ensures ListOk(k, nonempty, ss)
    decreases ss
  {
    hide Final, Grows, Ready, Known, AliasesOk;
    if ss.Then? {
      var c := ScopeOf(k);
      var s1 := VisitStmt(c, s, ss.head);
      var s2 := Guarding(s1, ss.head);
      StmtAfter(k, lengths, {}, nonempty, s, ss.head);
      GuardAfter(k, lengths, nonempty, s1, ss.head);
      StmtsGrow(c, s2, ss.tail);
      FinalBefore(k, s2, VisitStmts(c, s, ss));
      FinalBefore(k, s1, s2);
      UndisturbedParts(k, {}, ss);
      StmtJudged(k, lengths, {}, nonempty, s, ss.head);
      ListJudged(k, lengths, AfterGuard(nonempty, ss.head), s2, ss.tail);
    }
  }

  lemma GuardAfter(k: Ctx, lengths: Lengths, nonempty: set<string>, s: RO, st: Stmt)
    requires Known(s, {}, nonempty) && Ready(k, lengths, s)
    ensures Known(Guarding(s, st), {}, AfterGuard(nonempty, st)) && Ready(k, lengths, Guarding(s, st)) &&
            Grows(s, Guarding(s, st))
  {
    assert Grows(s, Guarding(s, st));
    ReadyAfter(k, lengths, s, Guarding(s, st));
  }

  /** The context an accepted function is judged in: its used aliases, and where it passes on. */
  function ContextOf(names: set<string>, fields: set<string>, lengths: Lengths, f: Func,
                     passes: iset<(string, nat)>): Ctx {
    var used := VisitStmts(Scope(names, fields), START, f.body).lensUsed;
    Ctx(names, fields, map n | n in used && n in lengths :: lengths[n], passes, true)
  }

  /** A disciplined function whose visit ends well is judged. */
  lemma BodyJudged(names: set<string>, fields: set<string>, lengths: Lengths, f: Func, passes: iset<(string, nat)>)
    requires TidyFunction(lengths, f) && forall p :: p in names ==> p in f.params
    requires var s := VisitStmts(Scope(names, fields), START, f.body);
             && s.ok && BookkeepingOk(s) && s.total == s.proven
             && forall j :: 0 <= j < |s.passes| ==> s.passes[j] in passes
    ensures var k := ContextOf(names, fields, lengths, f, passes);
            && ListOk(k, {}, f.body) && (forall x :: x in f.params ==> x !in k.aliases)
            && (forall n :: n in k.aliases ==> n in Locals(f.body))
  {
    var k := ContextOf(names, fields, lengths, f, passes);
    var c := ScopeOf(k);
    var s := VisitStmts(c, START, f.body);
    assert c == Scope(names, fields);
    assert LensOk(lengths, names, START);
    StmtsLens(lengths, c, START, f.body);
    assert Final(k, s) by { AcceptedFinal(k, s); }
    assert Known(START, {}, {});
    assert Ready(k, lengths, START);
    assert AliasesOk(k, lengths);
    assert Undisturbed(k, {}, Block(f.body)) by {
      forall p | p in k.names ensures !Binds(Block(f.body), p) {
        assert p in f.params;
        assert !BindsIn(f.body, p);
      }
    }
    ListJudged(k, lengths, {}, START, f.body);
  }

  lemma AcceptedFinal(k: Ctx, s: RO)
    requires s.ok && BookkeepingOk(s) && s.total == s.proven
    requires forall j :: 0 <= j < |s.passes| ==> s.passes[j] in k.passes
    requires forall n :: n in k.aliases <==> n in s.lensUsed
    ensures Final(k, s)
  {
    forall x | Count(s.loops, x) > 0 ensures Excess(s, x) <= 0 {
      assert x in s.loops;
    }
  }
}
