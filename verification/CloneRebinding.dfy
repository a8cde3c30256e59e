/**
 The rest of the discipline is needed too: names that take on a second role through a `for-of`
 variable, a parameter or a repeated header name.
 */
module CloneRebinding {
  import opened Wrappers
  import opened CloneSyntax
  import opened CloneAnalysis
  import opened CloneSemantics
  import opened CloneLimits

  lemma BindTwo(f: Func, y: string, a: Value, b: Value)
    requires f.params == ["p", y] && y != "p"
    ensures var env := Bind(f, [a, b]); "p" in env && env["p"] == a && y in env && env[y] == b
  {
    assert ["p", y][1..] == [y];
    assert ParamIndex(["p", y], "p") == 0 && ParamIndex(["p", y], y) == 1;
  }

  // ---- two containers, `p` and `q` ----------------------------------------------------

  const Q := Ident("q")
  const BOTH := {"p", "q"}
  const PAIR := Scope(BOTH, {})

  /** `q` is the array `[v]` at location 1. */
  predicate HoldingQ(st: State, v: Value) {
    "q" in st.env && st.env["q"] == Ref(1) && |st.heap| == 2 && st.heap[1] == Arr([v])
  }

  lemma PairEscapes(body: Stmts, elems: seq<Value>, v: Value)
    requires EndsWell(VisitStmts(PAIR, START, body))
    requires forall w: World, st: State :: w.watched == {0, 1} && Holding(st, elems) && HoldingQ(st, v) ==>
               ExecList(1, w, st, body).out.OutOfBounds?
    ensures Escapes(Func(["p", "q"], body), BOTH, [Ref(0), Ref(1)], [Arr(elems), Arr([v])], {0, 1})
  {
    hide VisitStmts, ExecList, Bind;
    var f, heap := Func(["p", "q"], body), [Arr(elems), Arr([v])];
    BindTwo(f, "q", Ref(0), Ref(1));
    forall w: World, tick: nat | w.watched == {0, 1}
      ensures ExecList(1, w, State(Bind(f, [Ref(0), Ref(1)]), heap, tick), body).out.OutOfBounds?
    {
      var st := State(Bind(f, [Ref(0), Ref(1)]), heap, tick);
      assert Holding(st, elems) && HoldingQ(st, v);
    }
    EscapesBy(f, BOTH, [Ref(0), Ref(1)], heap, {0, 1});
  }

  /** `for (x of q);` leaves the last element of `q` in `x`. */
  lemma DrainRuns(w: World, st: State, x: string, v: Value)
    requires HoldingQ(st, v)
    ensures Exec(1, w, st, ForOf(x, Q, Block(Done))) == Result_(Normal(Undef), st.(env := st.env[x := v]))
  {
    assert Eval(1, w, st, Q) == Result_(Normal(Ref(1)), st);
    var st1 := st.(env := st.env[x := v]);
    assert Exec(1, w, st1, Block(Done)) == Result_(Normal(Undef), st1);
    assert [v][1..] == [];
    assert Iterate(1, w, st1, x, Block(Done), []) == Result_(Normal(Undef), st1);
    assert Iterate(1, w, st, x, Block(Done), [v]) == Result_(Normal(Undef), st1);
  }

  lemma DrainVisited(s: RO, x: string)
    ensures VisitStmt(PAIR, s, ForOf(x, Q, Block(Done))) == s
  {
    assert Rooted(PAIR, Q);
  }

  // ---- `for (var i = 0; i < p.length; i++) { for (i of q); p[i]; }`

  const DRAIN_I := ForOf("i", Q, Block(Done))
  const REBINDING := For(FROM_0, BELOW_LENGTH, STEP, Block(Two(DRAIN_I, READ_I)))

  lemma RebindingRuns(w: World, st: State)
    requires w.watched == {0, 1} && Holding(st, [Undef]) && HoldingQ(st, Number(7.0))
    ensures Exec(1, w, st, Block(Two(DRAIN_I, READ_I))).out.OutOfBounds?
  {
    DrainRuns(w, st, "i", Number(7.0));
    ReadsSeven(w, st.(env := st.env["i" := Number(7.0)]));
    hide Exec;
    BlockOfTwo(w, st, DRAIN_I, READ_I);
  }

  lemma BlockOfTwo(w: World, st: State, a: Stmt, b: Stmt)
    requires Exec(1, w, st, a).out.Normal? && Exec(1, w, Exec(1, w, st, a).st, b).out.OutOfBounds?
    ensures Exec(1, w, st, Block(Two(a, b))).out.OutOfBounds?
  {
    assert ExecList(1, w, st, Two(a, b)).out.OutOfBounds?;
  }

  lemma ReboundIndexEscapes()
    ensures Escapes(Func(["p", "q"], One(REBINDING)), BOTH, [Ref(0), Ref(1)], [Arr([Undef]), Arr([Number(7.0)])],
                    {0, 1})
  {
    DrainVisited(IN_LOOP, "i");
    ReadVisited(PAIR, IN_LOOP);
    assert VisitStmts(PAIR, IN_LOOP, Two(DRAIN_I, READ_I)) == IN_LOOP.(total := 1, proven := 1);
    IndexLoopVisited(PAIR, Block(Two(DRAIN_I, READ_I)));
    hide VisitStmts, VisitStmt;
    forall w: World, st: State | w.watched == {0, 1} && Holding(st, [Undef]) && HoldingQ(st, Number(7.0))
      ensures ExecList(1, w, st, One(REBINDING)).out.OutOfBounds?
    {
      RebindingRuns(w, st.(env := st.env["i" := Number(0.0)]));
      IndexLoopRuns(w, st, Block(Two(DRAIN_I, READ_I)));
    }
    PairEscapes(One(REBINDING), [Undef], Number(7.0));
  }

  // ---- `var n = p.length; for (n of q); for (var i = 0; i < n; i++) p[i];`

  const DRAIN_N := ForOf("n", Q, Block(Done))
  const REBOUND_ALIAS := Then(TAKE_LENGTH, Two(DRAIN_N, UP_TO_N))

  lemma ReboundAliasRuns(w: World, st: State)
    requires w.watched == {0, 1} && Holding(st, []) && HoldingQ(st, Number(9.0))
    ensures ExecList(1, w, st, REBOUND_ALIAS).out.OutOfBounds?
  {
    var st1 := st.(env := st.env["n" := Number(0.0)]);
    TakeLengthRuns(w, st);
    DrainRuns(w, st1, "n", Number(9.0));
    OverrunRuns(w, st1.(env := st1.env["n" := Number(9.0)]));
    hide Exec;
  }

  lemma ReboundAliasEscapes()
    ensures Escapes(Func(["p", "q"], REBOUND_ALIAS), BOTH, [Ref(0), Ref(1)], [Arr([]), Arr([Number(9.0)])], {0, 1})
  {
    TakeLengthVisited(PAIR);
    DrainVisited(ALIASED, "n");
    OverrunVisited(PAIR);
    assert VisitStmts(PAIR, START, REBOUND_ALIAS) == OVERRUN;
    hide VisitStmts, VisitStmt, ExecList;
    forall w: World, st: State | w.watched == {0, 1} && Holding(st, []) && HoldingQ(st, Number(9.0))
      ensures ExecList(1, w, st, REBOUND_ALIAS).out.OutOfBounds?
    {
      ReboundAliasRuns(w, st);
    }
    PairEscapes(REBOUND_ALIAS, [], Number(9.0));
  }

  // ---- `function f(p, n) { if (0) var n = p.length; for (var i = 0; i < n; i++) p[i]; }`

  const MAYBE_LENGTH := If(Num(0.0), TAKE_LENGTH, None)
  const PARAMETER_BOUND := Two(MAYBE_LENGTH, UP_TO_N)

  lemma ParameterRuns(w: World, st: State)
    requires w.watched == {0} && Holding(st, []) && "n" in st.env && st.env["n"] == Number(9.0)
    ensures ExecList(1, w, st, PARAMETER_BOUND).out.OutOfBounds?
  {
    assert Exec(1, w, st, MAYBE_LENGTH) == Result_(Normal(Number(0.0)), st);
    OverrunRuns(w, st);
  }

  lemma ParameterVisited()
    ensures VisitStmts(SCOPE, START, PARAMETER_BOUND) == OVERRUN
  {
    TakeLengthVisited(SCOPE);
    assert VisitStmt(SCOPE, START, MAYBE_LENGTH) == ALIASED;
    OverrunVisited(SCOPE);
  }

  lemma RedeclaredParameterEscapes()
    ensures Escapes(Func(["p", "n"], PARAMETER_BOUND), NAMES, [Ref(0), Number(9.0)], [Arr([])], {0})
  {
    hide VisitStmts, ExecList, Bind, Run;
    ParameterVisited();
    var f, values := Func(["p", "n"], PARAMETER_BOUND), [Ref(0), Number(9.0)];
    BindTwo(f, "n", Ref(0), Number(9.0));
    forall w: World, tick: nat | w.watched == {0}
      ensures ExecList(1, w, State(Bind(f, values), [Arr([])], tick), f.body).out.OutOfBounds?
    {
      ParameterRuns(w, State(Bind(f, values), [Arr([])], tick));
    }
    EscapesBy(f, NAMES, values, [Arr([])], {0});
  }

  // ---- `for (var i = 0, i = r.length; i < p.length; i++) p[i];` with a record `r` of length -5

  const RECORD := {"p", "r"}
  const RECORDS := Scope(RECORD, {})
  const R_LENGTH := Field(Ident("r"), "length")
  const TWICE := Decl("i", Some(Num(0.0)), Decl("i", Some(R_LENGTH), NoDecls))
  const REPEATED := For(TWICE, BELOW_LENGTH, STEP, READ_I)

  lemma RepeatedPattern()
    ensures LoopPattern(RECORDS, START, TWICE, BELOW_LENGTH, STEP) ==
            (START.(lens := map["i" := "r"]), Some(("p", "i")))
  {
    var s := START.(lens := map["i" := "r"]);
    assert ScanHeader(RECORDS, s, NoDecls, Some("i")) == (s, Some(Some("i")));
    assert ScanHeader(RECORDS, START, Decl("i", Some(R_LENGTH), NoDecls), Some("i")) == (s, Some(Some("i")));
    assert ScanHeader(RECORDS, START, TWICE, None) == (s, Some(Some("i")));
  }

  lemma RepeatedDecls(s: RO)
    requires s.lens == map["i" := "r"]
    ensures VisitDecls(RECORDS, s, TWICE) == s
  {
    assert s.lens["i" := "r"] == s.lens;
    assert VisitExpr(RECORDS, s, R_LENGTH) == s;
    assert VisitDecls(RECORDS, s, Decl("i", Some(R_LENGTH), NoDecls)) == s;
  }

  lemma RepeatedHeader(s: RO)
    requires s.lens == map["i" := "r"] && s.assigns == map[]
    ensures VisitHeader(RECORDS, s, TWICE, BELOW_LENGTH, STEP) == s.(assigns := map["i" := 1])
  {
    RepeatedDecls(s);
    LengthVisited(RECORDS, s);
    assert VisitOption(RECORDS, s, BELOW_LENGTH) == s;
    hide VisitDecls;
    assert Bump(map[], "i") == map["i" := 1];
  }

  lemma RepeatedVisited()
    ensures VisitStmts(RECORDS, START, One(REPEATED))
         == START.(lens := map["i" := "r"], loops := map["i" := 1], assigns := map["i" := 1], total := 1, proven := 1)
  {
    hide LoopPattern, VisitHeader;
    RepeatedPattern();
    var s1 := START.(lens := map["i" := "r"]);
    var s2 := s1.(loops := map["i" := 1], safe := [("p", "i")]);
    assert s2 == s1.(loops := Bump(map[], "i"), safe := [] + [("p", "i")]);
    RepeatedHeader(s2);
    ReadVisited(RECORDS, s2.(assigns := map["i" := 1]));
  }

  predicate HoldingR(st: State) {
    "r" in st.env && st.env["r"] == Ref(1) && |st.heap| == 2 && st.heap[1] == Rec(map["length" := Number(-5.0)])
  }

  lemma TwiceRuns(w: World, st: State)
    requires Holding(st, []) && HoldingR(st)
    ensures ExecDecls(1, w, st, TWICE) == Result_(Normal(Undef), st.(env := st.env["i" := Number(-5.0)]))
  {
    var st1 := st.(env := st.env["i" := Number(0.0)]);
    var st2 := st.(env := st.env["i" := Number(-5.0)]);
    assert st1.env["i" := Number(-5.0)] == st2.env;
    assert Eval(1, w, st1, R_LENGTH) == Result_(Normal(Number(-5.0)), st1);
    assert ExecDecls(1, w, st1, Decl("i", Some(R_LENGTH), NoDecls)) == Result_(Normal(Undef), st2);
  }

  lemma RepeatedRuns(w: World, st: State)
    requires w.watched == {0, 1} && Holding(st, []) && HoldingR(st)
    ensures ExecList(1, w, st, One(REPEATED)).out.OutOfBounds?
  {
    var st2 := st.(env := st.env["i" := Number(-5.0)]);
    TwiceRuns(w, st);
    hide ExecDecls;
    assert Eval(1, w, st2, LENGTH) == Result_(Normal(Number(0.0)), st2);
    assert Eval(1, w, st2, BELOW_LENGTH.value) == Result_(Normal(Bool(true)), st2);
    assert Exec(1, w, st2, READ_I).out.OutOfBounds?;
    hide Eval;
    assert Exec(1, w, st, REPEATED).out.OutOfBounds?;
  }

  lemma RepeatedHeaderEscapes()
    ensures Escapes(Func(["p", "r"], One(REPEATED)), RECORD, [Ref(0), Ref(1)],
                    [Arr([]), Rec(map["length" := Number(-5.0)])], {0, 1})
  {
    hide VisitStmts, ExecList, Bind;
    RepeatedVisited();
    var f, values := Func(["p", "r"], One(REPEATED)), [Ref(0), Ref(1)];
    var heap := [Arr([]), Rec(map["length" := Number(-5.0)])];
    BindTwo(f, "r", Ref(0), Ref(1));
    forall w: World, tick: nat | w.watched == {0, 1}
      ensures ExecList(1, w, State(Bind(f, values), heap, tick), f.body).out.OutOfBounds?
    {
      RepeatedRuns(w, State(Bind(f, values), heap, tick));
    }
    EscapesBy(f, RECORD, values, heap, {0, 1});
  }
}
