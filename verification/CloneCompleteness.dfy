/**
 The converse of soundness: judged code is accepted.  What the visitor's tables hold after a
 statement is described by the statement alone, and a judged body whose loops have the shape the
 visitor looks for, with indices and bounds that nothing else assigns, gets every read proven.
 */
module CloneCompleteness {
  import opened Wrappers
  import opened CloneSyntax
  import opened CloneJudgement
  import opened CloneAnalysis
  import opened CloneCounting
  import opened CloneAcceptance
  import opened CloneTheorem

  type Lens = map<string, string>

  // ---- lengths declared ---------------------------------------------------------------

  /** The names that declarators bind to the length of a container, each with its last one. */
  function DeclaredLengths(names: set<string>, ds: Decls): Lens {
    match ds
    case NoDecls => map[]
    case Decl(x, init, rest) =>
      (if init.Some? && HasLength(names, init.value) then map[x := LengthOf(init.value).value] else map[])
      + DeclaredLengths(names, rest)
  }

  predicate HasLength(names: set<string>, e: Expr) { LengthOf(e).Some? && LengthOf(e).value in names }

  function LengthsIn(names: set<string>, st: Stmt): Lens
    decreases st
  {
    match st
    case Var(ds) => DeclaredLengths(names, ds)
    case If(_, a, b) => LengthsIn(names, a) + if b.Some? then LengthsIn(names, b.value) else map[]
    case While(_, b) => LengthsIn(names, b)
    case For(ds, _, _, b) => DeclaredLengths(names, ds) + LengthsIn(names, b)
    case ForOf(_, _, b) => LengthsIn(names, b)
    case Block(ss) => LengthsOf(names, ss)
    case _ => map[]
  }

  function LengthsOf(names: set<string>, ss: Stmts): Lens
    decreases ss
  {
    match ss
    case Done => map[]
    case Then(s, rest) => LengthsIn(names, s) + LengthsOf(names, rest)
  }

  // ---- counted loops ------------------------------------------------------------------

  predicate AllLengths(names: set<string>, ds: Decls)
    decreases ds
  {
    match ds
    case NoDecls => true
    case Decl(_, init, rest) => init.Some? && HasLength(names, init.value) && AllLengths(names, rest)
  }

  /** The header starts `i` at a literal; everything else in it is the length of a container. */
  predicate Starts(names: set<string>, ds: Decls, i: string)
    decreases ds
  {
    match ds
    case NoDecls => false
    case Decl(x, init, rest) =>
      && init.Some?
      && if HasLength(names, init.value) then Starts(names, rest, i)
         else IsCount(init.value) && x == i && AllLengths(names, rest)
  }

  /** The right side of the test is the length of `p`, or a name declared as that length. */
  predicate Bounds(names: set<string>, lens: Lens, bound: Expr, p: string) {
    if Strip(bound).Ident? then Strip(bound).name in lens && lens[Strip(bound).name] == p
    else p in names && LengthOf(bound) == Some(p)
  }

  /** `for (var i = K; i < p.length; i++)`, where `lens` are the lengths declared so far. */
  predicate Counts(names: set<string>, lens: Lens, st: Stmt, p: string, i: string)
    requires st.For?
  {
    && Starts(names, st.decls, i) && TestsIndex(st.until, i) && StepsIndex(st.update, i)
    && Bounds(names, lens + DeclaredLengths(names, st.decls), Strip(st.until.value).right, p)
  }

  /** The loop compares its index with a name declared as a length. */
  predicate Compares(names: set<string>, lens: Lens, st: Stmt, n: string)
    requires st.For?
  {
    && st.until.Some? && Strip(st.until.value).Bin?
    && (var i := Strip(Strip(st.until.value).left);
        i.Ident? && Starts(names, st.decls, i.name) && TestsIndex(st.until, i.name))
    && Strip(Strip(st.until.value).right) == Ident(n)
    && n in lens + DeclaredLengths(names, st.decls)
  }

  /** How many counted loops over `x` a statement holds. */
  ghost function LoopsOver(names: set<string>, lens: Lens, st: Stmt, x: string): nat
    decreases st
  {
    match st
    case If(_, a, b) =>
      LoopsOver(names, lens, a, x)
      + if b.Some? then LoopsOver(names, lens + LengthsIn(names, a), b.value, x) else 0
    case While(_, b) => LoopsOver(names, lens, b, x)
    case For(ds, _, _, b) =>
      (if exists p :: Counts(names, lens, st, p, x) then 1 else 0)
      + LoopsOver(names, lens + DeclaredLengths(names, ds), b, x)
    case ForOf(_, _, b) => LoopsOver(names, lens, b, x)
    case Block(ss) => LoopsOverIn(names, lens, ss, x)
    case _ => 0
  }

  ghost function LoopsOverIn(names: set<string>, lens: Lens, ss: Stmts, x: string): nat
    decreases ss
  {
    match ss
    case Done => 0
    case Then(s, rest) => LoopsOver(names, lens, s, x) + LoopsOverIn(names, lens + LengthsIn(names, s), rest, x)
  }

  /** The names used as loop bounds. */
  ghost function BoundsUsed(names: set<string>, lens: Lens, st: Stmt): iset<string>
    decreases st
  {
    match st
    case If(_, a, b) =>
      BoundsUsed(names, lens, a)
      + if b.Some? then BoundsUsed(names, lens + LengthsIn(names, a), b.value) else iset{}
    case While(_, b) => BoundsUsed(names, lens, b)
    case For(ds, _, _, b) =>
      (iset n | Compares(names, lens, st, n)) + BoundsUsed(names, lens + DeclaredLengths(names, ds), b)
    case ForOf(_, _, b) => BoundsUsed(names, lens, b)
    case Block(ss) => BoundsUsedIn(names, lens, ss)
    case _ => iset{}
  }

  ghost function BoundsUsedIn(names: set<string>, lens: Lens, ss: Stmts): iset<string>
    decreases ss
  {
    match ss
    case Done => iset{}
    case Then(s, rest) => BoundsUsed(names, lens, s) + BoundsUsedIn(names, lens + LengthsIn(names, s), rest)
  }

  // ---- assignments in the text --------------------------------------------------------

  function Assignments(e: Expr, x: string): nat
    decreases e, 1
  {
    match e
    case Num(_) => 0
    case Ident(_) => 0
    case Paren(i) => Assignments(i, x)
    case Field(o, _) => Assignments(o, x)
    case Index(o, i) => Assignments(o, x) + Assignments(i, x)
    case Bin(_, l, r) => Assignments(l, x) + Assignments(r, x)
    case Not(a) => Assignments(a, x)
    case Delete(a) => Assignments(a, x)
    case AssignVar(y, r) => (if x == y then 1 else 0) + Assignments(r, x)
    case AssignField(o, _, r) => Assignments(o, x) + Assignments(r, x)
    case AssignIndex(o, i, r) => Assignments(o, x) + Assignments(i, x) + Assignments(r, x)
    case Update(_, a) => (if Strip(a) == Ident(x) then 1 else 0) + Assignments(a, x)
    case Call(_, args) => AssignmentsIn(args, x)
    case MethodCall(o, _, args) => Assignments(o, x) + AssignmentsIn(args, x)
  }

  function AssignmentsIn(args: Args, x: string): nat
    decreases args, 0
  {
    match args
    case NoArgs => 0
    case Arg(e, rest) => Assignments(e, x) + AssignmentsIn(rest, x)
  }

  function AssignedIf(e: Option<Expr>, x: string): nat { if e.Some? then Assignments(e.value, x) else 0 }

  function AssignedInDecls(ds: Decls, x: string): nat
    decreases ds
  {
    match ds
    case NoDecls => 0
    case Decl(_, init, rest) => AssignedIf(init, x) + AssignedInDecls(rest, x)
  }

  function AssignedBy(st: Stmt, x: string): nat
    decreases st
  {
    match st
    case Exp(e) => Assignments(e, x)
    case Var(ds) => AssignedInDecls(ds, x)
    case If(t, a, b) => Assignments(t, x) + AssignedBy(a, x) + if b.Some? then AssignedBy(b.value, x) else 0
    case While(t, b) => Assignments(t, x) + AssignedBy(b, x)
    case For(ds, t, u, b) => AssignedInDecls(ds, x) + AssignedIf(t, x) + AssignedIf(u, x) + AssignedBy(b, x)
    case ForOf(_, src, b) => Assignments(src, x) + AssignedBy(b, x)
    case Block(ss) => AssignedByAll(ss, x)
    case Return(v) => AssignedIf(v, x)
    case Throw(e) => Assignments(e, x)
    case Break => 0
    case Continue => 0
  }

  function AssignedByAll(ss: Stmts, x: string): nat
    decreases ss
  {
    match ss
    case Done => 0
    case Then(s, rest) => AssignedBy(s, x) + AssignedByAll(rest, x)
  }

  // ---- what the tables hold -----------------------------------------------------------

  /** Every assignment that was counted stands in the text. */
  lemma {:induction false} ExprCounts(c: Scope, s: RO, e: Expr, x: string)
    ensures Count(VisitExpr(c, s, e).assigns, x) <= Count(s.assigns, x) + Assignments(e, x)
    decreases e, 1
  {
    hide Count, Rooted;
    match e
    case Num(_) =>
    case Ident(_) =>
    case Paren(i) => ExprCounts(c, s, i, x);
    case Field(o, f) =>
      if Rooted(c, e) {
        ChainCounts(c, FailIf(s, f in c.fields), e, x);
      } else {
        ExprCounts(c, s, o, x);
      }
    case Index(o, i) =>
      if Rooted(c, e) {
        ChainCounts(c, s, e, x);
      } else {
        var s1 := s.(total := s.total + 1);
        ExprCounts(c, s1, o, x);
        ExprCounts(c, VisitExpr(c, s1, o), i, x);
      }
    case Bin(_, l, r) =>
      ExprCounts(c, s, l, x);
      ExprCounts(c, VisitExpr(c, s, l), r, x);
    case Not(a) => ExprCounts(c, s, a, x);
    case Delete(a) => ExprCounts(c, FailIf(s, Rooted(c, a)), a, x);
    case AssignVar(y, r) =>
      BumpCounts(s.assigns, y, x);
      ExprCounts(c, FailIf(s.(assigns := Bump(s.assigns, y)), y in c.names), r, x);
    case AssignField(o, _, r) => ExprCounts(c, FailIf(s, Rooted(c, o)), r, x);
    case AssignIndex(o, i, r) =>
      var s1 := FailIf(s, Rooted(c, o));
      ExprCounts(c, s1, r, x);
      ExprCounts(c, VisitExpr(c, s1, r), i, x);
    case Update(_, a) =>
      if Strip(a).Ident? {
        BumpCounts(s.assigns, Strip(a).name, x);
      }
    case Call(f, args) => ArgsCount(c, FailIf(s, f in c.names), f, 0, args, x);
    case MethodCall(o, m, args) =>
      if Rooted(c, o) {
        PlainArgsCount(c, FailIf(s, !IsPureMethod(m)), args, x);
      } else {
        ExprCounts(c, s, o, x);
        PlainArgsCount(c, VisitExpr(c, s, o), args, x);
      }
  }

  lemma BumpCounts(m: map<string, nat>, y: string, x: string)
    ensures Count(Bump(m, y), x) == Count(m, x) + if x == y then 1 else 0
  {
  }

  lemma {:induction false} ChainCounts(c: Scope, s: RO, e: Expr, x: string)
    ensures Count(VisitChain(c, s, e).assigns, x) <= Count(s.assigns, x) + Assignments(e, x)
    decreases e, 0
  {
    match e
    case Field(o, _) =>
      if IsMember(o) {
        ChainCounts(c, s, o, x);
      }
    case Index(o, i) =>
      var known := Strip(o).Ident? && Strip(o).name in c.names && IndexSafe(s, Strip(o).name, i);
      var s1 := FailIf(s.(total := s.total + 1, proven := s.proven + if known then 1 else 0), !known);
      ExprCounts(c, s1, i, x);
      if IsMember(o) {
        ChainCounts(c, VisitExpr(c, s1, i), o, x);
      }
    case _ =>
  }

  lemma {:induction false} ArgsCount(c: Scope, s: RO, f: string, k: nat, args: Args, x: string)
    ensures Count(VisitArgs(c, s, f, k, args).assigns, x) <= Count(s.assigns, x) + AssignmentsIn(args, x)
    decreases args, 0
  {
    if args.Arg? {
      var e := args.head;
      var bare := e.Ident? && e.name in c.names;
      var s1 := if bare then s.(passes := s.passes + [(f, k)]) else VisitExpr(c, s, e);
      ExprCounts(c, s, e, x);
      ArgsCount(c, s1, f, k + 1, args.tail, x);
    }
  }

  lemma {:induction false} PlainArgsCount(c: Scope, s: RO, args: Args, x: string)
    ensures Count(VisitPlainArgs(c, s, args).assigns, x) <= Count(s.assigns, x) + AssignmentsIn(args, x)
    decreases args, 0
  {
    if args.Arg? {
      ExprCounts(c, s, args.head, x);
      PlainArgsCount(c, VisitExpr(c, s, args.head), args.tail, x);
    }
  }

  lemma OptionCounts(c: Scope, s: RO, e: Option<Expr>, x: string)
    ensures Count(VisitOption(c, s, e).assigns, x) <= Count(s.assigns, x) + AssignedIf(e, x)
  {
    if e.Some? {
      ExprCounts(c, s, e.value, x);
    }
  }

  lemma {:induction false} DeclsCount(c: Scope, s: RO, ds: Decls, x: string)
    ensures Count(VisitDecls(c, s, ds).assigns, x) <= Count(s.assigns, x) + AssignedInDecls(ds, x)
    decreases ds
  {
    if ds.Decl? {
      var s1 := if ds.init.Some? && HasLength(c.names, ds.init.value)
                then s.(lens := s.lens[ds.name := LengthOf(ds.init.value).value]) else s;
      OptionCounts(c, s1, ds.init, x);
      DeclsCount(c, VisitOption(c, s1, ds.init), ds.rest, x);
    }
  }

  lemma HeaderCounts(c: Scope, s: RO, ds: Decls, t: Option<Expr>, u: Option<Expr>, x: string)
    ensures Count(VisitHeader(c, s, ds, t, u).assigns, x)
         <= Count(s.assigns, x) + AssignedInDecls(ds, x) + AssignedIf(t, x) + AssignedIf(u, x)
  {
    DeclsCount(c, s, ds, x);
    OptionCounts(c, VisitDecls(c, s, ds), t, x);
    OptionCounts(c, VisitOption(c, VisitDecls(c, s, ds), t), u, x);
  }

  /** One declarator's part of the lengths declared. */
  lemma OneDeclarator(names: set<string>, ds: Decls)
    requires ds.Decl?
    ensures ds.init.Some? && HasLength(names, ds.init.value) ==>
              DeclaredLengths(names, ds) ==
                  map[ds.name := LengthOf(ds.init.value).value] + DeclaredLengths(names, ds.rest)
    ensures !(ds.init.Some? && HasLength(names, ds.init.value)) ==>
              DeclaredLengths(names, ds) == DeclaredLengths(names, ds.rest)
  {
    assert map[] + DeclaredLengths(names, ds.rest) == DeclaredLengths(names, ds.rest);
  }

  lemma Regrouped(m: Lens, x: string, p: string, rest: Lens)
    ensures m[x := p] + rest == m + (map[x := p] + rest)
  {
  }

  /** Declarators record their lengths, whatever was recorded for the same names before. */
  lemma {:induction false} DeclsRecord(c: Scope, s: RO, ds: Decls)
    ensures VisitDecls(c, s, ds).lens == s.lens + DeclaredLengths(c.names, ds)
    decreases ds
  {
    if ds.Decl? {
      var s1 := if ds.init.Some? && HasLength(c.names, ds.init.value)
                then s.(lens := s.lens[ds.name := LengthOf(ds.init.value).value]) else s;
      OneDeclarator(c.names, ds);
      OptionKeeps(c, s1, ds.init);
      DeclsRecord(c, VisitOption(c, s1, ds.init), ds.rest);
      if ds.init.Some? && HasLength(c.names, ds.init.value) {
        Regrouped(s.lens, ds.name, LengthOf(ds.init.value).value, DeclaredLengths(c.names, ds.rest));
      }
      hide DeclaredLengths, LengthOf, VisitOption;
    }
  }

  lemma HeaderRecords(c: Scope, s: RO, ds: Decls, t: Option<Expr>, u: Option<Expr>)
    ensures VisitHeader(c, s, ds, t, u).lens == s.lens + DeclaredLengths(c.names, ds)
  {
    DeclsRecord(c, s, ds);
    OptionKeeps(c, VisitDecls(c, s, ds), t);
    OptionKeeps(c, VisitOption(c, VisitDecls(c, s, ds), t), u);
  }

  /** Scanning records lengths that the visit of the header records again. */
  lemma {:induction false} ScanRecords(c: Scope, s: RO, ds: Decls, index: Option<string>)
    ensures ScanHeader(c, s, ds, index).0.lens + DeclaredLengths(c.names, ds) == s.lens + DeclaredLengths(c.names, ds)
    decreases ds
  {
    if ds.Decl? && ds.init.Some? {
      OneDeclarator(c.names, ds);
      var rest := DeclaredLengths(c.names, ds.rest);
      hide DeclaredLengths, IsCount, LengthOf;
      if HasLength(c.names, ds.init.value) {
        var p := LengthOf(ds.init.value).value;
        var s1 := s.(lens := s.lens[ds.name := p]);
        ScanRecords(c, s1, ds.rest, index);
        Rewritten(ScanHeader(c, s1, ds.rest, index).0.lens, s.lens, ds.name, p, rest);
      } else if IsCount(ds.init.value) && index.None? {
        ScanRecords(c, s, ds.rest, Some(ds.name));
      }
    }
  }

  /** A header that is scanned to its end has recorded them all. */
  lemma {:induction false} ScanRecordsAll(c: Scope, s: RO, ds: Decls, index: Option<string>)
    requires ScanHeader(c, s, ds, index).1.Some?
    ensures ScanHeader(c, s, ds, index).0.lens == s.lens + DeclaredLengths(c.names, ds)
    decreases ds
  {
    if ds.Decl? {
      OneDeclarator(c.names, ds);
      var rest := DeclaredLengths(c.names, ds.rest);
      hide DeclaredLengths, IsCount, LengthOf;
      if HasLength(c.names, ds.init.value) {
        var p := LengthOf(ds.init.value).value;
        ScanRecordsAll(c, s.(lens := s.lens[ds.name := p]), ds.rest, index);
        Regrouped(s.lens, ds.name, p, rest);
      } else {
        ScanRecordsAll(c, s, ds.rest, Some(ds.name));
      }
    }
  }

  /** Scanning finds an index exactly where one starts. */
  lemma {:induction false} ScanIs(c: Scope, s: RO, ds: Decls, index: Option<string>)
    ensures var h := ScanHeader(c, s, ds, index).1;
            && (index.Some? ==> h == if AllLengths(c.names, ds) then Some(index) else None)
            && (index.None? && AllLengths(c.names, ds) ==> h == Some(None))
            && (index.None? ==> forall i :: Starts(c.names, ds, i) <==> h == Some(Some(i)))
    decreases ds
  {
    if ds.Decl? && ds.init.Some? {
      if HasLength(c.names, ds.init.value) {
        ScanIs(c, s.(lens := s.lens[ds.name := LengthOf(ds.init.value).value]), ds.rest, index);
      } else if IsCount(ds.init.value) && index.None? {
        ScanIs(c, s, ds.rest, Some(ds.name));
      }
    }
  }

  lemma Rewritten(r: Lens, m: Lens, x: string, p: string, rest: Lens)
    requires r + rest == m[x := p] + rest
    ensures r + (map[x := p] + rest) == m + (map[x := p] + rest)
  {
    var a, b := r + (map[x := p] + rest), m + (map[x := p] + rest);
    forall n ensures (n in a <==> n in b) && (n in a ==> a[n] == b[n]) {
      assert (n in r + rest <==> n in m[x := p] + rest) && (n in r + rest ==> (r + rest)[n] == (m[x := p] + rest)[n]);
    }
  }

  /** Matching the pattern records lengths. */
  lemma PatternRecords(c: Scope, s: RO, st: Stmt)
    requires st.For?
    ensures var r := LoopPattern(c, s, st.decls, st.until, st.update).0;
            && r == s.(lens := r.lens, lensUsed := r.lensUsed)
            && r.lens + DeclaredLengths(c.names, st.decls) == s.lens + DeclaredLengths(c.names, st.decls)
  {
    ScanGrows(c, s, st.decls, None);
    ScanRecords(c, s, st.decls, None);
    hide ScanHeader, DeclaredLengths, StepsIndex, TestsIndex, LengthOf;
  }

  /** It notes the name the index is compared with. */
  lemma PatternNotes(c: Scope, s: RO, st: Stmt, n: string)
    requires st.For?
    ensures n in LoopPattern(c, s, st.decls, st.until, st.update).0.lensUsed <==>
            n in s.lensUsed || Compares(c.names, s.lens, st, n)
  {
    hide DeclaredLengths, StepsIndex, LengthOf, IsCount;
    ScanGrows(c, s, st.decls, None);
    ScanIs(c, s, st.decls, None);
    var (s1, h) := ScanHeader(c, s, st.decls, None);
    if h.Some? {
      ScanRecordsAll(c, s, st.decls, None);
    }
    hide ScanHeader, Starts, DeclaredLengths, StepsIndex, LengthOf;
  }

  /** The pattern is matched exactly by counted loops. */
  lemma PatternIs(c: Scope, s: RO, st: Stmt, p: string, i: string)
    requires st.For?
    ensures Counts(c.names, s.lens, st, p, i) <==>
            LoopPattern(c, s, st.decls, st.until, st.update).1 == Some((p, i))
  {
    ScanGrows(c, s, st.decls, None);
    ScanIs(c, s, st.decls, None);
    var (s1, h) := ScanHeader(c, s, st.decls, None);
    assert Starts(c.names, st.decls, i) <==> h == Some(Some(i));
    if h == Some(Some(i)) && TestsIndex(st.until, i) {
      ScanRecordsAll(c, s, st.decls, None);
      StripTwice(Strip(st.until.value).right);
    }
    hide ScanHeader, Starts, DeclaredLengths, StepsIndex, LengthOf;
  }

  lemma {:induction false} StripTwice(e: Expr)
    ensures Strip(Strip(e)) == Strip(e) && LengthOf(Strip(e)) == LengthOf(e)
  {
  }

  /** What a visit does to the tables, for one name: it records `lens`, counts `loops` loops over
      `x` and at most `writes` assignments of it, and notes `x` as a bound if `used`. */
  ghost predicate Tabled(s: RO, t: RO, x: string, lens: Lens, loops: nat, used: bool, writes: nat) {
    && t.lens == s.lens + lens
    && Count(t.loops, x) == Count(s.loops, x) + loops
    && (x in t.lensUsed <==> x in s.lensUsed || used)
    && Count(t.assigns, x) <= Count(s.assigns, x) + writes
    && s.nonempty <= t.nonempty
    && ((x in s.loops ==> s.loops[x] > 0) ==> (x in t.loops ==> t.loops[x] > 0))
  }

  lemma TabledTwice(s: RO, t: RO, u: RO, x: string, lens: Lens, more: Lens, loops: nat, others: nat, used: bool,
                    also: bool, writes: nat, further: nat)
    requires Tabled(s, t, x, lens, loops, used, writes) && Tabled(t, u, x, more, others, also, further)
    ensures Tabled(s, u, x, lens + more, loops + others, used || also, writes + further)
  {
    assert s.lens + (lens + more) == (s.lens + lens) + more;
  }

  lemma ExprTabled(c: Scope, s: RO, e: Expr, x: string)
    ensures Tabled(s, VisitExpr(c, s, e), x, map[], 0, false, Assignments(e, x))
  {
    ExprKeeps(c, s, e);
    ExprCounts(c, s, e, x);
    assert s.lens + map[] == s.lens;
  }

  lemma OptionTabled(c: Scope, s: RO, e: Option<Expr>, x: string)
    ensures Tabled(s, VisitOption(c, s, e), x, map[], 0, false, AssignedIf(e, x))
  {
    if e.Some? {
      ExprTabled(c, s, e.value, x);
    } else {
      assert s.lens + map[] == s.lens;
    }
  }

  ghost predicate StmtTabled(c: Scope, s: RO, st: Stmt, x: string) {
    Tabled(s, VisitStmt(c, s, st), x, LengthsIn(c.names, st), LoopsOver(c.names, s.lens, st, x),
           x in BoundsUsed(c.names, s.lens, st), AssignedBy(st, x))
  }

  ghost predicate ListTabled(c: Scope, s: RO, ss: Stmts, x: string) {
    Tabled(s, VisitStmts(c, s, ss), x, LengthsOf(c.names, ss), LoopsOverIn(c.names, s.lens, ss, x),
           x in BoundsUsedIn(c.names, s.lens, ss), AssignedByAll(ss, x))
  }

  /** An expression and then a statement. */
  lemma BodyTabled(c: Scope, s: RO, e: Expr, b: Stmt, x: string)
    requires StmtTabled(c, VisitExpr(c, s, e), b, x)
    ensures Tabled(s, VisitStmt(c, VisitExpr(c, s, e), b), x, LengthsIn(c.names, b), LoopsOver(c.names, s.lens, b, x),
                   x in BoundsUsed(c.names, s.lens, b), Assignments(e, x) + AssignedBy(b, x))
  {
    var t := VisitExpr(c, s, e);
    ExprTabled(c, s, e, x);
    ExprKeeps(c, s, e);
    ExprThen(s, t, VisitStmt(c, t, b), x, LengthsIn(c.names, b), LoopsOver(c.names, s.lens, b, x),
             x in BoundsUsed(c.names, s.lens, b), Assignments(e, x), AssignedBy(b, x));
  }

  lemma ExprThen(s: RO, t: RO, u: RO, x: string, lens: Lens, loops: nat, used: bool, writes: nat, further: nat)
    requires Tabled(s, t, x, map[], 0, false, writes) && s.lens == t.lens && Tabled(t, u, x, lens, loops, used, further)
    ensures Tabled(s, u, x, lens, loops, used, writes + further)
  {
  }

  lemma {:induction false} StmtTables(c: Scope, s: RO, st: Stmt, x: string)
    ensures StmtTabled(c, s, st, x)
    decreases st, 1
  {
    hide Tabled;
    match st
    case Exp(e) => ExprTabled(c, s, e, x);
    case Var(ds) => DeclsTabled(c, s, ds, x);
    case If(t, a, b) =>
      var s1 := VisitExpr(c, s, t);
      StmtTables(c, s1, a, x);
      if b.Some? {
        StmtTables(c, VisitStmt(c, s1, a), b.value, x);
      }
      IfTables(c, s, st, x);
    case While(t, b) =>
      StmtTables(c, VisitExpr(c, s, t), b, x);
      BodyTabled(c, s, t, b, x);
    case For(_, _, _, b) =>
      StmtTables(c, ForEntry(c, s, st), b, x);
      ForTables(c, s, st, x);
    case ForOf(_, src, b) =>
      if Rooted(c, src) {
        StmtTables(c, s, b, x);
        TabledMore(s, VisitStmt(c, s, b), x, LengthsIn(c.names, b), LoopsOver(c.names, s.lens, b, x),
                   x in BoundsUsed(c.names, s.lens, b), AssignedBy(b, x), Assignments(src, x) + AssignedBy(b, x));
      } else {
        StmtTables(c, VisitExpr(c, s, src), b, x);
        BodyTabled(c, s, src, b, x);
      }
    case Block(ss) => ListTables(c, s, ss, x);
    case Return(v) => OptionTabled(c, s, v, x);
    case Throw(e) => ExprTabled(c, s, e, x);
    case Break => OptionTabled(c, s, None, x);
    case Continue => OptionTabled(c, s, None, x);
  }

  lemma IfTables(c: Scope, s: RO, st: Stmt, x: string)
    requires st.If? && StmtTabled(c, VisitExpr(c, s, st.test), st.cons, x)
    requires st.alt.Some? ==> StmtTabled(c, VisitStmt(c, VisitExpr(c, s, st.test), st.cons), st.alt.value, x)
    ensures StmtTabled(c, s, st, x)
  {
    hide Tabled;
    var t, a, b := st.test, st.cons, st.alt;
    BodyTabled(c, s, t, a, x);
    if b.Some? {
      var s2 := VisitStmt(c, VisitExpr(c, s, t), a);
      LensAfter(s, s2, x, LengthsIn(c.names, a), LoopsOver(c.names, s.lens, a, x),
                x in BoundsUsed(c.names, s.lens, a), Assignments(t, x) + AssignedBy(a, x));
      TabledTwice(s, s2, VisitStmt(c, s2, b.value), x, LengthsIn(c.names, a), LengthsIn(c.names, b.value),
                  LoopsOver(c.names, s.lens, a, x), LoopsOver(c.names, s2.lens, b.value, x),
                  x in BoundsUsed(c.names, s.lens, a), x in BoundsUsed(c.names, s2.lens, b.value),
                  Assignments(t, x) + AssignedBy(a, x), AssignedBy(b.value, x));
    } else {
      assert LengthsIn(c.names, a) + map[] == LengthsIn(c.names, a);
    }
  }

  lemma LensAfter(s: RO, t: RO, x: string, lens: Lens, loops: nat, used: bool, writes: nat)
    requires Tabled(s, t, x, lens, loops, used, writes)
    ensures t.lens == s.lens + lens
  {
  }

  lemma TabledMore(s: RO, t: RO, x: string, lens: Lens, loops: nat, used: bool, writes: nat, more: nat)
    requires Tabled(s, t, x, lens, loops, used, writes) && writes <= more
    ensures Tabled(s, t, x, lens, loops, used, more)
  {
  }

  lemma DeclsTabled(c: Scope, s: RO, ds: Decls, x: string)
    ensures Tabled(s, VisitDecls(c, s, ds), x, DeclaredLengths(c.names, ds), 0, false, AssignedInDecls(ds, x))
  {
    DeclsGrow(c, s, ds);
    DeclsRecord(c, s, ds);
    DeclsCount(c, s, ds, x);
  }

  /** The state in which the body of a `for` loop is visited. */
  function ForEntry(c: Scope, s: RO, st: Stmt): RO
    requires st.For?
  {
    var (s1, pair) := LoopPattern(c, s, st.decls, st.until, st.update);
    var s2 := if pair.Some? then s1.(loops := Bump(s1.loops, pair.value.1), safe := s1.safe + [pair.value]) else s1;
    VisitHeader(c, s2, st.decls, st.until, st.update)
  }

  lemma ForTables(c: Scope, s: RO, st: Stmt, x: string)
    requires st.For? && StmtTabled(c, ForEntry(c, s, st), st.body, x)
    ensures StmtTabled(c, s, st, x)
  {
    var s1 := ForEntry(c, s, st);
    var ds, b := st.decls, st.body;
    EntryTables(c, s, st, x);
    LensAfter(s, s1, x, DeclaredLengths(c.names, ds), if exists p :: Counts(c.names, s.lens, st, p, x) then 1 else 0,
              Compares(c.names, s.lens, st, x), AssignedInDecls(ds, x) + AssignedIf(st.until, x) +
                  AssignedIf(st.update, x));
    TabledTwice(s, s1, VisitStmt(c, s1, b), x, DeclaredLengths(c.names, ds), LengthsIn(c.names, b),
                if exists p :: Counts(c.names, s.lens, st, p, x) then 1 else 0, LoopsOver(c.names, s1.lens, b, x),
                Compares(c.names, s.lens, st, x), x in BoundsUsed(c.names, s1.lens, b),
                AssignedInDecls(ds, x) + AssignedIf(st.until, x) + AssignedIf(st.update, x), AssignedBy(b, x));
  }

  lemma EntryTables(c: Scope, s: RO, st: Stmt, x: string)
    requires st.For?
    ensures Tabled(s, ForEntry(c, s, st), x, DeclaredLengths(c.names, st.decls),
                   if exists p :: Counts(c.names, s.lens, st, p, x) then 1 else 0, Compares(c.names, s.lens, st, x),
                   AssignedInDecls(st.decls, x) + AssignedIf(st.until, x) + AssignedIf(st.update, x))
  {
    var (s1, pair) := LoopPattern(c, s, st.decls, st.until, st.update);
    var s2 := if pair.Some? then s1.(loops := Bump(s1.loops, pair.value.1), safe := s1.safe + [pair.value]) else s1;
    PatternRecords(c, s, st);
    PatternNotes(c, s, st, x);
    PatternCounts(c, s, st, x);
    hide LoopPattern, Counts, Compares;
    HeaderGrows(c, s2, st.decls, st.until, st.update);
    HeaderRecords(c, s2, st.decls, st.until, st.update);
    HeaderCounts(c, s2, st.decls, st.until, st.update, x);
    hide VisitHeader, DeclaredLengths, AssignedInDecls, AssignedIf, Grows;
    if pair.Some? {
      BumpCounts(s1.loops, pair.value.1, x);
    }
  }

  lemma PatternCounts(c: Scope, s: RO, st: Stmt, x: string)
    requires st.For?
    ensures var pair := LoopPattern(c, s, st.decls, st.until, st.update).1;
            (exists p :: Counts(c.names, s.lens, st, p, x)) <==> pair.Some? && pair.value.1 == x
  {
    var pair := LoopPattern(c, s, st.decls, st.until, st.update).1;
    forall p ensures Counts(c.names, s.lens, st, p, x) <==> pair == Some((p, x)) {
      PatternIs(c, s, st, p, x);
    }
    hide LoopPattern, Counts;
    if pair.Some? && pair.value.1 == x {
      assert Counts(c.names, s.lens, st, pair.value.0, x);
    }
  }

  lemma {:induction false} ListTables(c: Scope, s: RO, ss: Stmts, x: string)
    ensures ListTabled(c, s, ss, x)
    decreases ss, 0
  {
    hide Tabled;
    if ss.Then? {
      var st, rest := ss.head, ss.tail;
      var s1 := VisitStmt(c, s, st);
      var s2 := if EmptyGuard(st).Some? then s1.(nonempty := s1.nonempty + {EmptyGuard(st).value}) else s1;
      StmtTables(c, s, st, x);
      GuardTabled(s, s1, s2, x, LengthsIn(c.names, st), LoopsOver(c.names, s.lens, st, x),
                  x in BoundsUsed(c.names, s.lens, st), AssignedBy(st, x));
      ListTables(c, s2, rest, x);
      TabledTwice(s, s2, VisitStmts(c, s2, rest), x, LengthsIn(c.names, st), LengthsOf(c.names, rest),
                  LoopsOver(c.names, s.lens, st, x), LoopsOverIn(c.names, s2.lens, rest, x),
                  x in BoundsUsed(c.names, s.lens, st), x in BoundsUsedIn(c.names, s2.lens, rest),
                  AssignedBy(st, x), AssignedByAll(rest, x));
    } else {
      OptionTabled(c, s, None, x);
    }
  }

  lemma GuardTabled(s: RO, t: RO, u: RO, x: string, lens: Lens, loops: nat, used: bool, writes: nat)
    requires Tabled(s, t, x, lens, loops, used, writes) && t.nonempty <= u.nonempty && u == t.(nonempty := u.nonempty)
    ensures Tabled(s, u, x, lens, loops, used, writes) && u.lens == s.lens + lens
  {
  }

  // ---- judged code is accepted --------------------------------------------------------

  /** The visit has seen nothing it rejects: no failure, every read proven, passes as allowed. */
  ghost predicate Clear(k: Ctx, s: RO) {
    s.ok && s.total == s.proven && forall j :: 0 <= j < |s.passes| ==> s.passes[j] in k.passes
  }

  /** The visitor knows at least what the judgement relies on. */
  ghost predicate Knows(s: RO, safe: Pairs, nonempty: set<string>) {
    (forall q :: q in safe ==> q in s.safe) && nonempty <= s.nonempty
  }

  lemma StillKnows(c: Scope, s: RO, t: RO, safe: Pairs, nonempty: set<string>)
    requires Knows(s, safe, nonempty) && KeepsTables(s, t)
    ensures Knows(t, safe, nonempty)
  {
  }

  lemma {:induction false} ExprClear(k: Ctx, safe: Pairs, nonempty: set<string>, s: RO, e: Expr)
    requires k.strict && Knows(s, safe, nonempty) && Clear(k, s) && ExprOk(k, safe, nonempty, e)
    ensures Clear(k, VisitExpr(ScopeOf(k), s, e)) && Knows(VisitExpr(ScopeOf(k), s, e), safe, nonempty)
    decreases e, 1
  {
    hide Clear, Knows;
    var c := ScopeOf(k);
    ExprKeeps(c, s, e);
    StillKnows(c, s, VisitExpr(c, s, e), safe, nonempty);
    hide KeepsTables;
    match e
    case Num(_) =>
    case Ident(_) =>
    case Paren(i) => ExprClear(k, safe, nonempty, s, i);
    case Field(o, _) =>
      if Rooted(c, e) {
        ChainClear(k, safe, nonempty, s, e);
      } else {
        ExprClear(k, safe, nonempty, s, o);
      }
    case Index(_, _) => ChainClear(k, safe, nonempty, s, e);
    case Bin(_, l, r) =>
      ExprClear(k, safe, nonempty, s, l);
      ExprClear(k, safe, nonempty, VisitExpr(c, s, l), r);
    case Not(a) => ExprClear(k, safe, nonempty, s, a);
    case Delete(a) => ExprClear(k, safe, nonempty, s, a);
    case AssignVar(x, r) =>
      Counted(k, safe, nonempty, s, x);
      ExprClear(k, safe, nonempty, s.(assigns := Bump(s.assigns, x)), r);
    case AssignField(_, _, r) => ExprClear(k, safe, nonempty, s, r);
    case AssignIndex(_, i, r) =>
      ExprClear(k, safe, nonempty, s, r);
      ExprClear(k, safe, nonempty, VisitExpr(c, s, r), i);
    case Update(_, a) =>
      UpdateUnrooted(k, safe, nonempty, a);
      if Strip(a).Ident? {
        Counted(k, safe, nonempty, s, Strip(a).name);
      }
    case Call(f, args) => ArgsClear(k, safe, nonempty, s, f, 0, args);
    case MethodCall(o, _, args) =>
      if Rooted(c, o) {
        PlainArgsClear(k, safe, nonempty, s, args);
      } else {
        ExprClear(k, safe, nonempty, s, o);
        PlainArgsClear(k, safe, nonempty, VisitExpr(c, s, o), args);
      }
  }

  lemma Counted(k: Ctx, safe: Pairs, nonempty: set<string>, s: RO, x: string)
    requires Clear(k, s) && Knows(s, safe, nonempty)
    ensures var t := s.(assigns := Bump(s.assigns, x)); Clear(k, t) && Knows(t, safe, nonempty)
  {
  }

  lemma {:induction false} UpdateUnrooted(k: Ctx, safe: Pairs, nonempty: set<string>, a: Expr)
    requires UpdateOk(k, safe, nonempty, a)
    ensures !RootedIn(k.names, a)
    decreases a
  {
    if a.Paren? {
      UpdateUnrooted(k, safe, nonempty, a.inner);
    }
  }

  /** `p[i]` is counted as proven wherever the judgement has it in bounds. */
  lemma LinkKnown(s: RO, safe: Pairs, nonempty: set<string>, p: string, i: Expr)
    requires Knows(s, safe, nonempty) && InBounds(safe, nonempty, p, i)
    ensures IndexSafe(s, p, i)
  {
  }

  lemma {:induction false} ChainClear(k: Ctx, safe: Pairs, nonempty: set<string>, s: RO, e: Expr)
    requires k.strict && Knows(s, safe, nonempty) && Clear(k, s) && IsMember(e) && ChainOk(k, safe, nonempty, e)
    ensures Clear(k, VisitChain(ScopeOf(k), s, e))
    decreases e, 0
  {
    var c := ScopeOf(k);
    var o := e.obj;
    if e.Field? {
      if IsMember(o) {
        ChainClear(k, safe, nonempty, s, o);
      }
    } else {
      LinkKnown(s, safe, nonempty, Strip(o).name, e.index);
      var s1 := s.(total := s.total + 1, proven := s.proven + 1);
      ExprClear(k, safe, nonempty, s1, e.index);
      assert !IsMember(o);
    }
  }

  lemma {:induction false} ArgsClear(k: Ctx, safe: Pairs, nonempty: set<string>, s: RO, f: string, n: nat, args: Args)
    requires k.strict && Knows(s, safe, nonempty) && Clear(k, s) && ArgsOk(k, safe, nonempty, f, n, args)
    ensures Clear(k, VisitArgs(ScopeOf(k), s, f, n, args))
    decreases args, 0
  {
    if args.Arg? {
      var e := args.head;
      if e.Ident? && e.name in k.names {
        ArgsClear(k, safe, nonempty, s.(passes := s.passes + [(f, n)]), f, n + 1, args.tail);
      } else {
        ExprClear(k, safe, nonempty, s, e);
        ArgsClear(k, safe, nonempty, VisitExpr(ScopeOf(k), s, e), f, n + 1, args.tail);
      }
    }
  }

  lemma {:induction false} PlainArgsClear(k: Ctx, safe: Pairs, nonempty: set<string>, s: RO, args: Args)
    requires k.strict && Knows(s, safe, nonempty) && Clear(k, s) && PlainArgsOk(k, safe, nonempty, args)
    ensures Clear(k, VisitPlainArgs(ScopeOf(k), s, args))
    decreases args, 0
  {
    if args.Arg? {
      ExprClear(k, safe, nonempty, s, args.head);
      PlainArgsClear(k, safe, nonempty, VisitExpr(ScopeOf(k), s, args.head), args.tail);
    }
  }

  // ---- statements ---------------------------------------------------------------------

  /** Every loop that the judgement takes for a counted one has the shape the visitor matches. */
  ghost predicate Recognised(k: Ctx, lens: Lens, st: Stmt)
    decreases st
  {
    match st
    case If(_, a, b) =>
      Recognised(k, lens, a) && (b.Some? ==> Recognised(k, lens + LengthsIn(k.names, a), b.value))
    case While(_, b) => Recognised(k, lens, b)
    case For(ds, t, u, b) =>
      && (forall p, i :: LoopPair(k, ds, t, u, p, i) ==> Counts(k.names, lens, st, p, i))
      && Recognised(k, lens + DeclaredLengths(k.names, ds), b)
    case ForOf(_, _, b) => Recognised(k, lens, b)
    case Block(ss) => RecognisedIn(k, lens, ss)
    case _ => true
  }

  ghost predicate RecognisedIn(k: Ctx, lens: Lens, ss: Stmts)
    decreases ss
  {
    match ss
    case Done => true
    case Then(s, rest) => Recognised(k, lens, s) && RecognisedIn(k, lens + LengthsIn(k.names, s), rest)
  }

  lemma OptionClear(k: Ctx, safe: Pairs, nonempty: set<string>, s: RO, e: Option<Expr>)
    requires k.strict && Knows(s, safe, nonempty) && Clear(k, s) && OptionOk(k, safe, nonempty, e)
    ensures Clear(k, VisitOption(ScopeOf(k), s, e)) && Knows(VisitOption(ScopeOf(k), s, e), safe, nonempty)
  {
    if e.Some? {
      ExprClear(k, safe, nonempty, s, e.value);
    }
  }

  lemma {:induction false} DeclsClear(k: Ctx, safe: Pairs, nonempty: set<string>, s: RO, ds: Decls)
    requires k.strict && Knows(s, safe, nonempty) && Clear(k, s) && DeclsOk(k, safe, nonempty, ds)
    ensures Clear(k, VisitDecls(ScopeOf(k), s, ds)) && Knows(VisitDecls(ScopeOf(k), s, ds), safe, nonempty)
    decreases ds
  {
    if ds.Decl? {
      var s1 := if ds.init.Some? && HasLength(k.names, ds.init.value)
                then s.(lens := s.lens[ds.name := LengthOf(ds.init.value).value]) else s;
      OptionClear(k, safe, nonempty, s1, ds.init);
      DeclsClear(k, safe, nonempty, VisitOption(ScopeOf(k), s1, ds.init), ds.rest);
    }
  }

  lemma HeaderClear(k: Ctx, safe: Pairs, nonempty: set<string>, s: RO, ds: Decls, t: Option<Expr>, u: Option<Expr>)
    requires k.strict && Knows(s, safe, nonempty) && Clear(k, s)
    requires DeclsOk(k, safe, nonempty, ds) && OptionOk(k, safe, nonempty, t) && OptionOk(k, safe, nonempty, u)
    ensures Clear(k, VisitHeader(ScopeOf(k), s, ds, t, u)) &&
            Knows(VisitHeader(ScopeOf(k), s, ds, t, u), safe, nonempty)
  {
    var c := ScopeOf(k);
    DeclsClear(k, safe, nonempty, s, ds);
    OptionClear(k, safe, nonempty, VisitDecls(c, s, ds), t);
    OptionClear(k, safe, nonempty, VisitOption(c, VisitDecls(c, s, ds), t), u);
  }

  /** What is known after a statement is what was known before, and maybe more. */
  lemma StmtKnows(c: Scope, safe: Pairs, nonempty: set<string>, s: RO, st: Stmt)
    requires Knows(s, safe, nonempty)
    ensures Knows(VisitStmt(c, s, st), safe, nonempty)
    ensures VisitStmt(c, s, st).lens == s.lens + LengthsIn(c.names, st)
  {
    StmtTables(c, s, st, "");
    StmtGrows(c, s, st);
  }

  lemma ExprLens(c: Scope, s: RO, e: Expr)
    ensures VisitExpr(c, s, e).lens == s.lens
  {
    ExprKeeps(c, s, e);
  }

  lemma {:induction false} StmtClear(k: Ctx, safe: Pairs, nonempty: set<string>, s: RO, st: Stmt)
    requires k.strict && Knows(s, safe, nonempty) && Clear(k, s)
    requires StmtOk(k, safe, nonempty, st) && Recognised(k, s.lens, st)
    ensures Clear(k, VisitStmt(ScopeOf(k), s, st))
    decreases st, 2
  {
    hide Clear, Knows, LoopPair;
    var c := ScopeOf(k);
    match st
    case Exp(e) => ExprClear(k, safe, nonempty, s, e);
    case Var(ds) => DeclsClear(k, safe, nonempty, s, ds);
    case If(t, a, b) =>
      ExprClear(k, safe, nonempty, s, t);
      ExprLens(c, s, t);
      var s1 := VisitExpr(c, s, t);
      StmtClear(k, safe, nonempty, s1, a);
      StmtKnows(c, safe, nonempty, s1, a);
      if b.Some? {
        StmtClear(k, safe, nonempty, VisitStmt(c, s1, a), b.value);
      }
    case While(t, b) =>
      ExprClear(k, safe, nonempty, s, t);
      ExprLens(c, s, t);
      StmtClear(k, safe, nonempty, VisitExpr(c, s, t), b);
    case For(_, _, _, _) => ForClear(k, safe, nonempty, s, st);
    case ForOf(_, src, b) =>
      if Rooted(c, src) {
        StmtClear(k, safe, nonempty, s, b);
      } else {
        ExprClear(k, safe, nonempty, s, src);
        ExprLens(c, s, src);
        StmtClear(k, safe, nonempty, VisitExpr(c, s, src), b);
      }
    case Block(ss) => BlockClear(k, safe, nonempty, s, ss);
    case Return(v) => OptionClear(k, safe, nonempty, s, v);
    case Throw(e) => ExprClear(k, safe, nonempty, s, e);
    case Break =>
    case Continue =>
  }

  /** The body of a loop is visited knowing its pair, if the judgement needs one. */
  lemma ForClear(k: Ctx, safe: Pairs, nonempty: set<string>, s: RO, st: Stmt)
    requires st.For? && k.strict && Knows(s, safe, nonempty) && Clear(k, s)
    requires StmtOk(k, safe, nonempty, st) && Recognised(k, s.lens, st)
    ensures Clear(k, VisitStmt(ScopeOf(k), s, st))
    decreases st, 1
  {
    var c := ScopeOf(k);
    var ds, t, u, b := st.decls, st.until, st.update, st.body;
    PatternRecords(c, s, st);
    hide LoopPattern, Counts, LoopPair, ExprOk, DeclsOk, VisitDecls;
    var (s1, pair) := LoopPattern(c, s, ds, t, u);
    var s2 := if pair.Some? then s1.(loops := Bump(s1.loops, pair.value.1), safe := s1.safe + [pair.value]) else s1;
    HeaderClear(k, safe, nonempty, s2, ds, t, u);
    HeaderRecords(c, s2, ds, t, u);
    HeaderGrows(c, s2, ds, t, u);
    var entry := VisitHeader(c, s2, ds, t, u);
    if StmtOk(k, safe, nonempty, b) {
      StmtClear(k, safe, nonempty, entry, b);
    } else {
      var p, i :| LoopPair(k, ds, t, u, p, i) && StmtOk(k, safe + {(p, i)}, nonempty, b);
      PatternIs(c, s, st, p, i);
      assert (p, i) == s2.safe[|s1.safe|];
      StmtClear(k, safe + {(p, i)}, nonempty, entry, b);
    }
  }

  lemma {:induction false} BlockClear(k: Ctx, safe: Pairs, nonempty: set<string>, s: RO, ss: Stmts)
    requires k.strict && Knows(s, safe, nonempty) && Clear(k, s)
    requires BlockOk(k, safe, nonempty, ss) && RecognisedIn(k, s.lens, ss)
    ensures Clear(k, VisitStmts(ScopeOf(k), s, ss))
    decreases ss, 0
  {
    if ss.Then? {
      var c := ScopeOf(k);
      StmtClear(k, safe, nonempty, s, ss.head);
      StmtKnows(c, safe, nonempty, s, ss.head);
      var s1 := VisitStmt(c, s, ss.head);
      var s2 := if EmptyGuard(ss.head).Some? then s1.(nonempty := s1.nonempty + {EmptyGuard(ss.head).value}) else s1;
      BlockClear(k, safe, nonempty, s2, ss.tail);
    }
  }

  lemma {:induction false} ListClear(k: Ctx, nonempty: set<string>, s: RO, ss: Stmts)
    requires k.strict && Knows(s, {}, nonempty) && Clear(k, s)
    requires ListOk(k, nonempty, ss) && RecognisedIn(k, s.lens, ss)
    ensures Clear(k, VisitStmts(ScopeOf(k), s, ss))
    decreases ss
  {
    if ss.Then? {
      var c := ScopeOf(k);
      StmtClear(k, {}, nonempty, s, ss.head);
      StmtKnows(c, {}, nonempty, s, ss.head);
      var s1 := VisitStmt(c, s, ss.head);
      var s2 := if EmptyGuard(ss.head).Some? then s1.(nonempty := s1.nonempty + {EmptyGuard(ss.head).value}) else s1;
      ListClear(k, AfterGuard(nonempty, ss.head), s2, ss.tail);
    }
  }

  // ---- whole functions ----------------------------------------------------------------

  /** Indices of counted loops are assigned by their loops only, and names used as bounds never. */
  ghost predicate Steady(names: set<string>, ss: Stmts) {
    && (forall x :: LoopsOverIn(names, map[], ss, x) > 0 ==> AssignedByAll(ss, x) <= LoopsOverIn(names, map[], ss, x))
    && (forall n :: n in BoundsUsedIn(names, map[], ss) ==> AssignedByAll(ss, n) == 0)
  }

  ghost predicate Fits(k: Ctx, ss: Stmts) {
    k.strict && ListOk(k, {}, ss) && RecognisedIn(k, map[], ss) && Steady(k.names, ss)
  }

  /** The converse of `CloneBodies.BodyJudged`: a judged body is accepted with every read proven. */
  lemma BodyAccepted(k: Ctx, ss: Stmts)
    requires Fits(k, ss)
    ensures var s := VisitStmts(ScopeOf(k), START, ss);
            && s.ok && BookkeepingOk(s) && s.total == s.proven
            && forall j :: 0 <= j < |s.passes| ==> s.passes[j] in k.passes
  {
    var c := ScopeOf(k);
    var s := VisitStmts(c, START, ss);
    ListClear(k, {}, START, ss);
    StmtsGrow(c, START, ss);
    forall v | v in s.loops ensures Count(s.assigns, v) == s.loops[v] {
      ListTables(c, START, ss, v);
      assert Excess(START, v) <= Excess(s, v);
    }
    forall v | v in s.lensUsed ensures Count(s.assigns, v) == 0 {
      ListTables(c, START, ss, v);
    }
  }

  /** `f` fits, and so does every function it passes a container to, `depth` calls deep. */
  ghost predicate Acceptable(prog: Program, fields: set<string>, f: string, names: set<string>, depth: nat)
    decreases depth, 1
  {
    && f in prog
    && exists aliases: Lens ::
         Fits(Ctx(names, fields, aliases, MayPass(prog, fields, f, depth), true), prog[f].body)
  }

  ghost function MayPass(prog: Program, fields: set<string>, f: string, depth: nat): iset<(string, nat)>
    decreases depth, 0
  {
    iset g: string, j: nat | depth > 0 && g in prog && g != f && j < |prog[g].params|
                && Acceptable(prog, fields, g, {prog[g].params[j]}, depth - 1) :: (g, j)
  }

  /** What fits is proved: the check answers with equal counts. */
  lemma {:induction false} AcceptableIsProved(prog: Program, fields: set<string>, f: string, names: set<string>,
                                              depth: nat)
    requires Acceptable(prog, fields, f, names, depth)
    ensures Proves(prog, fields, f, names, depth)
    decreases depth, 1, 0
  {
    hide Fits, BookkeepingOk;
    var may := MayPass(prog, fields, f, depth);
    var aliases: Lens :| Fits(Ctx(names, fields, aliases, may, true), prog[f].body);
    BodyAccepted(Ctx(names, fields, aliases, may, true), prog[f].body);
    var s := VisitStmts(Scope(names, fields), START, prog[f].body);
    if s.passes != [] {
      assert s.passes[0] in may;
    }
    SumsProved(prog, fields, f, s.passes, depth, (s.total, s.proven));
  }

  lemma {:induction false} SumsProved(prog: Program, fields: set<string>, f: string, passes: seq<(string, nat)>,
                                      depth: nat, sum: (nat, nat))
    requires sum.0 == sum.1 && (passes != [] ==> depth > 0)
    requires forall n :: 0 <= n < |passes| ==> passes[n] in MayPass(prog, fields, f, depth)
    ensures var r := SumPasses(prog, fields, f, passes, depth, sum); r.Some? && r.value.0 == r.value.1
    decreases depth, 0, |passes|
  {
    if passes != [] {
      var (g, j) := passes[0];
      assert passes[0] in MayPass(prog, fields, f, depth);
      AcceptableIsProved(prog, fields, g, {prog[g].params[j]}, depth - 1);
      var r := ReadOnlyOk(prog, fields, g, {prog[g].params[j]}, depth - 1);
      SumsProved(prog, fields, f, passes[1..], depth, (sum.0 + r.value.0, sum.1 + r.value.1));
    }
  }

  // ---- the forms themselves -----------------------------------------------------------

  /** Every written form of an emptiness guard counts, with the exit alone or last in a block. */
  lemma GuardForms(p: string, exit: Stmt, first: Stmt)
    requires exit.Return? || exit.Throw?
    ensures var length, zero := Field(Ident(p), "length"), Num(0.0);
            forall test, body ::
              && test in {Bin(EqEqEq, length, zero), Bin(EqEq, length, zero), Bin(EqEqEq, zero, length),
                          Bin(EqEq, zero, length), Not(length)}
              && body in {exit, Block(Then(exit, Done)), Block(Then(first, Then(exit, Done)))} ==>
              EmptyGuard(If(test, body, None)) == Some(p)
  {
    var length, zero := Field(Ident(p), "length"), Num(0.0);
    var one := Then(exit, Done);
    assert LastExits(one) && LastExits(Then(first, one));
    assert LengthOf(length) == Some(p) && LengthOf(zero).None? && IsNum(zero, 0.0) && !IsNum(length, 0.0);
    forall test, body |
      && test in {Bin(EqEqEq, length, zero), Bin(EqEq, length, zero), Bin(EqEqEq, zero, length),
                  Bin(EqEq, zero, length), Not(length)}
      && body in {exit, Block(one), Block(Then(first, one))}
      ensures EmptyGuard(If(test, body, None)) == Some(p)
    {
      assert Strip(test) == test;
    }
  }

  /** Counted loops from any literal, up to a length or a name declared as one, here or before. */
  lemma LoopForms(names: set<string>, lens: Lens, p: string, i: string, n: string, start: nat, body: Stmt)
    requires p in names && i != n
    ensures var from, step := Some(Num(start as real)), Some(Update(true, Ident(i)));
            var length := Field(Ident(p), "length");
            && Counts(names, lens, For(Decl(i, from, NoDecls), Some(Bin(Lt, Ident(i), length)), step, body), p, i)
            && Counts(names, lens, For(Decl(i, from, Decl(n, Some(length), NoDecls)),
                                       Some(Bin(Lt, Ident(i), Ident(n))), step, body), p, i)
            && (n in lens && lens[n] == p ==>
                  Counts(names, lens, For(Decl(i, from, NoDecls), Some(Bin(Lt, Ident(i), Ident(n))), step, body), p, i))
  {
    var length := Field(Ident(p), "length");
    assert Strip(Num(start as real)) == Num(start as real);
    assert LengthOf(Num(start as real)).None?;
    assert (start as real).Floor == start;
    assert LengthOf(length) == Some(p);
    var both := Decl(i, Some(Num(start as real)), Decl(n, Some(length), NoDecls));
    assert DeclaredLengths(names, Decl(n, Some(length), NoDecls)) == map[n := p];
    assert DeclaredLengths(names, both) == map[n := p];
  }

  /** `function (x) { if (x.length === 0) { throw e; } return x[x.length - 1]; }` is accepted with
      its one read proven, and so is the first element after a guard. */
  lemma EndsAccepted(fields: set<string>, f: string, x: string, e: string, depth: nat)
    requires e != x && "length" !in fields
    ensures var length := Field(Ident(x), "length");
            var guard := If(Bin(EqEqEq, length, Num(0.0)), Block(Then(Throw(Ident(e)), Done)), None);
            var last := Index(Ident(x), Bin(Sub, length, Num(1.0)));
            var first := Index(Ident(x), Num(0.0));
            && ReadOnlyOk(map[f := Func([x], Then(guard, Then(Return(Some(last)), Done)))], fields, f, {x}, depth)
               == Some((1, 1))
            && ReadOnlyOk(map[f := Func([x], Then(guard, Then(Return(Some(first)), Done)))], fields, f, {x}, depth)
               == Some((1, 1))
  {
    var c := Scope({x}, fields);
    var length := Field(Ident(x), "length");
    var guard := If(Bin(EqEqEq, length, Num(0.0)), Block(Then(Throw(Ident(e)), Done)), None);
    var last, first := Index(Ident(x), Bin(Sub, length, Num(1.0))), Index(Ident(x), Num(0.0));
    GuardForms(x, Throw(Ident(e)), Break);
    GuardVisited(c, START, x, e);
    var s := START.(nonempty := {x});
    EndsVisited(c, s, x);
    ReturnVisited(c, guard, s, last);
    ReturnVisited(c, guard, s, first);
  }

  lemma LengthVisited(c: Scope, s: RO, x: string)
    requires "length" !in c.fields && x in c.names
    ensures VisitExpr(c, s, Field(Ident(x), "length")) == s
  {
    var e := Field(Ident(x), "length");
    assert MemberRoot(e.obj) == Some(x);
    assert Rooted(c, e);
    assert VisitChain(c, s, e) == s;
  }

  lemma GuardVisited(c: Scope, s: RO, x: string, e: string)
    requires "length" !in c.fields && x in c.names && e !in c.names
    ensures VisitStmt(c, s, If(Bin(EqEqEq, Field(Ident(x), "length"), Num(0.0)), Block(Then(Throw(Ident(e)), Done)),
                               None))
         == s
  {
    LengthVisited(c, s, x);
    assert VisitExpr(c, s, Bin(EqEqEq, Field(Ident(x), "length"), Num(0.0))) == s;
    assert VisitStmt(c, s, Throw(Ident(e))) == s;
    assert EmptyGuard(Throw(Ident(e))).None?;
    assert VisitStmts(c, s, Done) == s;
    assert VisitStmts(c, s, Then(Throw(Ident(e)), Done)) == s;
    assert VisitStmt(c, s, Block(Then(Throw(Ident(e)), Done))) == s;
  }

  lemma EndsVisited(c: Scope, s: RO, x: string)
    requires "length" !in c.fields && x in c.names && x in s.nonempty
    ensures var read := s.(total := s.total + 1, proven := s.proven + 1);
            && VisitExpr(c, s, Index(Ident(x), Bin(Sub, Field(Ident(x), "length"), Num(1.0)))) == read
            && VisitExpr(c, s, Index(Ident(x), Num(0.0))) == read
  {
    var read := s.(total := s.total + 1, proven := s.proven + 1);
    var minus, zero := Bin(Sub, Field(Ident(x), "length"), Num(1.0)), Num(0.0);
    LengthVisited(c, read, x);
    assert LengthOf(minus.left) == Some(x) && IsNum(minus.right, 1.0);
    assert IndexSafe(s, x, minus) && IndexSafe(s, x, zero);
    assert MemberRoot(Ident(x)) == Some(x);
    assert Rooted(c, Index(Ident(x), minus)) && Rooted(c, Index(Ident(x), zero));
    assert VisitExpr(c, read, minus) == read;
    assert VisitExpr(c, read, zero) == read;
    assert Strip(Ident(x)) == Ident(x);
    assert VisitChain(c, s, Index(Ident(x), minus)) == read;
    assert VisitChain(c, s, Index(Ident(x), zero)) == read;
  }

  lemma ReturnVisited(c: Scope, guard: Stmt, s: RO, e: Expr)
    requires VisitStmt(c, START, guard) == START && EmptyGuard(guard).Some? &&
             s == START.(nonempty := {EmptyGuard(guard).value})
    ensures VisitStmts(c, START, Then(guard, Then(Return(Some(e)), Done))) == VisitExpr(c, s, e)
  {
    assert {} + {EmptyGuard(guard).value} == {EmptyGuard(guard).value};
    var rest := Then(Return(Some(e)), Done);
    assert VisitStmts(c, VisitExpr(c, s, e), Done) == VisitExpr(c, s, e);
    assert EmptyGuard(Return(Some(e))).None?;
    assert VisitStmts(c, s, rest) == VisitExpr(c, s, e);
  }
}
