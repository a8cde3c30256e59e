/**
 Conditions of the discipline are needed: small functions that the analysis proves, with an
 execution that reads the container outside its bounds.
 */
module CloneLimits {
  import opened Wrappers
  import opened CloneSyntax
  import opened CloneAnalysis
  import opened CloneSemantics
  import opened CloneTheorem

  const P := Ident("p")
  const FAR := Index(P, Num(5.0))
  const LENGTH := Field(P, "length")
  const NAMES := {"p"}
  const SCOPE := Scope(NAMES, {})

  function One(s: Stmt): Stmts { Then(s, Done) }
  function Two(s: Stmt, t: Stmt): Stmts { Then(s, Then(t, Done)) }

  function Sole(f: Func): Program { map["f" := f] }

  /** The function `f(p)`. */
  function Alone(body: Stmts): Func { Func(["p"], body) }

  /** `f` is proved for `names`, and yet this call reads a container out of bounds. */
  ghost predicate Escapes(f: Func, names: set<string>, values: seq<Value>, heap: Heap, watched: set<nat>) {
    && Proves(Sole(f), {}, "f", names, 0)
    && forall w: World, tick: nat :: w.watched == watched ==> Run(1, w, f, values, heap, tick).out.OutOfBounds?
  }

  /** Where the visit of a body has to end for it to be proved. */
  predicate EndsWell(s: RO) { s.ok && BookkeepingOk(s) && s.passes == [] && s.total == s.proven }

  lemma EscapesBy(f: Func, names: set<string>, values: seq<Value>, heap: Heap, watched: set<nat>)
    requires EndsWell(VisitStmts(Scope(names, {}), START, f.body))
    requires forall w: World, tick: nat :: w.watched == watched ==>
               ExecList(1, w, State(Bind(f, values), heap, tick), f.body).out.OutOfBounds?
    ensures Escapes(f, names, values, heap, watched)
  {
    hide VisitStmts, ExecList, Bind;
    assert Proves(Sole(f), {}, "f", names, 0);
    forall w: World, tick: nat | w.watched == watched ensures Run(1, w, f, values, heap, tick).out.OutOfBounds? {
      assert ExecList(1, w, State(Bind(f, values), heap, tick), f.body).out.OutOfBounds?;
    }
  }

  /** `p` is the array at location 0. */
  predicate Holding(st: State, elems: seq<Value>) {
    "p" in st.env && st.env["p"] == Ref(0) && |st.heap| > 0 && st.heap[0] == Arr(elems)
  }

  lemma BindOne(body: Stmts, heap: Heap, tick: nat)
    requires |heap| > 0 && heap[0].Arr?
    ensures Holding(State(Bind(Alone(body), [Ref(0)]), heap, tick), heap[0].elems)
  {
    assert ParamIndex(["p"], "p") == 0;
  }

  lemma PlainEscapes(body: Stmts, elems: seq<Value>)
    requires EndsWell(VisitStmts(SCOPE, START, body))
    requires forall w: World, st: State :: w.watched == {0} && Holding(st, elems) ==>
               ExecList(1, w, st, body).out.OutOfBounds?
    ensures Escapes(Alone(body), NAMES, [Ref(0)], [Arr(elems)], {0})
  {
    hide VisitStmts, ExecList, Bind;
    var f := Alone(body);
    forall w: World, tick: nat | w.watched == {0}
      ensures ExecList(1, w, State(Bind(f, [Ref(0)]), [Arr(elems)], tick), body).out.OutOfBounds?
    {
      BindOne(body, [Arr(elems)], tick);
    }
    EscapesBy(f, NAMES, [Ref(0)], [Arr(elems)], {0});
  }

  // ---- positions that are not visited -------------------------------------------------

  lemma FarFails(w: World, st: State)
    requires w.watched == {0} && Holding(st, [])
    ensures Eval(1, w, st, FAR).out.OutOfBounds?
  {
    assert Eval(1, w, st, P) == Result_(Normal(Ref(0)), st);
  }

  /** `for (x of p[5]);` */
  lemma SourceEscapes()
    ensures Escapes(Alone(One(ForOf("x", FAR, Block(Done)))), NAMES, [Ref(0)], [Arr([])], {0})
  {
    var body := One(ForOf("x", FAR, Block(Done)));
    assert VisitStmts(SCOPE, START, body) == START;
    forall w: World, st: State | w.watched == {0} && Holding(st, []) ensures ExecList(1, w, st, body).out.OutOfBounds? {
      FarFails(w, st);
    }
    PlainEscapes(body, []);
  }

  /** An expression the visitor sees nothing in. */
  lemma ExprEscapes(e: Expr)
    requires VisitExpr(SCOPE, START, e) == START
    requires forall w: World, st: State :: w.watched == {0} && Holding(st, []) ==> Eval(1, w, st, e).out.OutOfBounds?
    ensures Escapes(Alone(One(Exp(e))), NAMES, [Ref(0)], [Arr([])], {0})
  {
    hide Holding, VisitExpr, Eval;
    assert VisitStmts(SCOPE, START, One(Exp(e))) == START;
    forall w: World, st: State | w.watched == {0} && Holding(st, [])
      ensures ExecList(1, w, st, One(Exp(e))).out.OutOfBounds?
    {
      assert Eval(1, w, st, e).out.OutOfBounds?;
    }
    PlainEscapes(One(Exp(e)), []);
  }

  /** `p[5].indexOf()` */
  lemma ReceiverEscapes()
    ensures Escapes(Alone(One(Exp(MethodCall(FAR, "indexOf", NoArgs)))), NAMES, [Ref(0)], [Arr([])], {0})
  {
    var e := MethodCall(FAR, "indexOf", NoArgs);
    forall w: World, st: State | w.watched == {0} && Holding(st, []) ensures Eval(1, w, st, e).out.OutOfBounds? {
      FarFails(w, st);
    }
    ExprEscapes(e);
  }

  /** `(p[5]).x` */
  lemma ParenthesisEscapes()
    ensures Escapes(Alone(One(Exp(Field(Paren(FAR), "x")))), NAMES, [Ref(0)], [Arr([])], {0})
  {
    var e := Field(Paren(FAR), "x");
    forall w: World, st: State | w.watched == {0} && Holding(st, []) ensures Eval(1, w, st, e).out.OutOfBounds? {
      FarFails(w, st);
    }
    ExprEscapes(e);
  }

  const DECLARE_Q := Var(Decl("q", None, NoDecls))
  const Q_FAR := Index(Ident("q"), FAR)

  /** `q[p[5]]` reaches the read of `p`, whatever `q` holds. */
  lemma QFarFails(w: World, st: State)
    requires w.watched == {0} && Holding(st, [])
    ensures Eval(1, w, st, Q_FAR).out.OutOfBounds? && EvalUpdate(1, w, st, true, Q_FAR).out.OutOfBounds?
  {
    var r := Eval(1, w, st, Ident("q"));
    FarFails(w, r.st);
  }

  /** `var q; q[p[5]]++;` */
  lemma OperandEscapes()
    ensures Escapes(Alone(Two(DECLARE_Q, Exp(Update(true, Q_FAR)))), NAMES, [Ref(0)], [Arr([])], {0})
  {
    var body := Two(DECLARE_Q, Exp(Update(true, Q_FAR)));
    assert VisitStmts(SCOPE, START, body) == START;
    forall w: World, st: State | w.watched == {0} && Holding(st, []) ensures ExecList(1, w, st, body).out.OutOfBounds? {
      assert Exec(1, w, st, DECLARE_Q) == Result_(Normal(Undef), st);
      QFarFails(w, st);
    }
    PlainEscapes(body, []);
  }

  /** `var q; q[p[5]].x = 0;` */
  lemma TargetEscapes()
    ensures Escapes(Alone(Two(DECLARE_Q, Exp(AssignField(Q_FAR, "x", Num(0.0))))), NAMES, [Ref(0)], [Arr([])], {0})
  {
    var body := Two(DECLARE_Q, Exp(AssignField(Q_FAR, "x", Num(0.0))));
    assert VisitStmts(SCOPE, START, body) == START;
    forall w: World, st: State | w.watched == {0} && Holding(st, []) ensures ExecList(1, w, st, body).out.OutOfBounds? {
      assert Exec(1, w, st, DECLARE_Q) == Result_(Normal(Undef), st);
      QFarFails(w, st);
    }
    PlainEscapes(body, []);
  }

  // ---- `if (0) { if (p.length === 0) return; } p[0];`: a nested guard is taken for granted

  const GUARD := If(Bin(EqEqEq, LENGTH, Num(0.0)), Return(None), None)
  const PERHAPS := If(Num(0.0), Block(One(GUARD)), None)
  const FIRST := Exp(Index(P, Num(0.0)))

  lemma NestedGuardVisited()
    ensures VisitStmts(SCOPE, START, Two(PERHAPS, FIRST)) == START.(nonempty := {"p"}, total := 1, proven := 1)
  {
    assert VisitStmt(SCOPE, START, GUARD) == START;
    assert VisitStmts(SCOPE, START, One(GUARD)) == START.(nonempty := {"p"});
    assert VisitStmt(SCOPE, START, PERHAPS) == START.(nonempty := {"p"});
    FirstVisited(START.(nonempty := {"p"}));
  }

  lemma FirstVisited(s: RO)
    requires "p" in s.nonempty
    ensures VisitStmt(SCOPE, s, FIRST) == s.(total := s.total + 1, proven := s.proven + 1)
  {
    assert IndexSafe(s, "p", Num(0.0));
    assert VisitChain(SCOPE, s, Index(P, Num(0.0))) == s.(total := s.total + 1, proven := s.proven + 1);
  }

  lemma NestedGuardEscapes()
    ensures Escapes(Alone(Two(PERHAPS, FIRST)), NAMES, [Ref(0)], [Arr([])], {0})
  {
    hide VisitStmts;
    NestedGuardVisited();
    forall w: World, st: State | w.watched == {0} && Holding(st, [])
      ensures ExecList(1, w, st, Two(PERHAPS, FIRST)).out.OutOfBounds?
    {
      assert Exec(1, w, st, PERHAPS) == Result_(Normal(Number(0.0)), st);
      assert Exec(1, w, st, FIRST).out.OutOfBounds?;
    }
    PlainEscapes(Two(PERHAPS, FIRST), []);
  }

  // ---- loops over `p`, visited in any scope that has it -------------------------------

  const FROM_0 := Decl("i", Some(Num(0.0)), NoDecls)
  const STEP := Some(Update(true, Ident("i")))
  const BELOW_LENGTH := Some(Bin(Lt, Ident("i"), LENGTH))
  const READ_I := Exp(Index(P, Ident("i")))

  /** A scope in which `p` is a container and the loop's own names are not. */
  predicate Loops(c: Scope) { c.fields == {} && "p" in c.names && "i" !in c.names && "n" !in c.names }

  lemma ReadVisited(c: Scope, s: RO)
    requires Loops(c) && s.safe == [("p", "i")]
    ensures VisitStmt(c, s, READ_I) == s.(total := s.total + 1, proven := s.proven + 1)
  {
    var e, s1 := Index(P, Ident("i")), s.(total := s.total + 1, proven := s.proven + 1);
    assert s.safe[0] == ("p", "i");
    assert IndexSafe(s, "p", Ident("i"));
    assert VisitExpr(c, s1, Ident("i")) == s1;
    hide IndexSafe;
    assert VisitChain(c, s, e) == s1;
    hide VisitChain;
    assert VisitExpr(c, s, e) == s1;
  }

  lemma HeaderVisited(c: Scope, s: RO, test: Expr)
    requires Loops(c) && VisitExpr(c, s, test) == s && s.assigns == map[]
    ensures VisitHeader(c, s, FROM_0, Some(test), STEP) == s.(assigns := map["i" := 1])
  {
    assert VisitDecls(c, s, FROM_0) == s;
    assert Bump(map[], "i") == map["i" := 1];
  }

  lemma LengthVisited(c: Scope, s: RO)
    requires Loops(c)
    ensures VisitExpr(c, s, LENGTH) == s && VisitExpr(c, s, BELOW_LENGTH.value) == s
  {
    assert VisitExpr(c, s, LENGTH) == s;
  }

  lemma IndexPattern(c: Scope)
    requires Loops(c)
    ensures LoopPattern(c, START, FROM_0, BELOW_LENGTH, STEP) == (START, Some(("p", "i")))
  {
    assert ScanHeader(c, START, FROM_0, None) == (START, Some(Some("i")));
  }

  /** The state in which the body of `for (var i = 0; i < p.length; i++)` is visited. */
  const IN_LOOP := START.(loops := map["i" := 1], safe := [("p", "i")], assigns := map["i" := 1])

  lemma IndexLoopVisited(c: Scope, body: Stmt)
    requires Loops(c) && VisitStmt(c, IN_LOOP, body) == IN_LOOP.(total := 1, proven := 1)
    ensures VisitStmts(c, START, One(For(FROM_0, BELOW_LENGTH, STEP, body)))
         == START.(loops := map["i" := 1], assigns := map["i" := 1], total := 1, proven := 1)
  {
    hide LoopPattern, VisitHeader;
    IndexPattern(c);
    var s2 := START.(loops := map["i" := 1], safe := [("p", "i")]);
    assert s2 == START.(loops := Bump(map[], "i"), safe := [] + [("p", "i")]);
    LengthVisited(c, s2);
    HeaderVisited(c, s2, BELOW_LENGTH.value);
  }

  /** Entering the loop over a `p` of one element. */
  lemma IndexLoopRuns(w: World, st: State, body: Stmt)
    requires w.watched <= {0, 1} && Holding(st, [Undef])
    requires Exec(1, w, st.(env := st.env["i" := Number(0.0)]), body).out.OutOfBounds?
    ensures Exec(1, w, st, For(FROM_0, BELOW_LENGTH, STEP, body)).out.OutOfBounds?
  {
    hide Exec;
    var st1 := st.(env := st.env["i" := Number(0.0)]);
    assert ExecDecls(1, w, st, FROM_0) == Result_(Normal(Undef), st1);
    assert Eval(1, w, st1, LENGTH) == Result_(Normal(Number(1.0)), st1);
    assert Eval(1, w, st1, BELOW_LENGTH.value) == Result_(Normal(Bool(true)), st1);
    hide Eval;
    ForUnfolds(w, st, body, st1);
  }

  lemma ForUnfolds(w: World, st: State, body: Stmt, st1: State)
    requires ExecDecls(1, w, st, FROM_0) == Result_(Normal(Undef), st1)
    requires Eval(1, w, st1, BELOW_LENGTH.value) == Result_(Normal(Bool(true)), st1)
    requires Exec(1, w, st1, body).out.OutOfBounds?
    ensures Exec(1, w, st, For(FROM_0, BELOW_LENGTH, STEP, body)).out.OutOfBounds?
  {
    hide Eval, ExecDecls;
    assert Loop(1, w, st1, For(FROM_0, BELOW_LENGTH, STEP, body)).out.OutOfBounds?;
  }

  // ---- `for (var i = 0; i < p.length; i++) { var i = 7; p[i]; }`: a declaration is no assignment

  const SET_7 := Var(Decl("i", Some(Num(7.0)), NoDecls))
  const REDECLARING := For(FROM_0, BELOW_LENGTH, STEP, Block(Two(SET_7, READ_I)))

  lemma RedeclaredIndexVisited()
    ensures EndsWell(VisitStmts(SCOPE, START, One(REDECLARING)))
  {
    assert VisitStmt(SCOPE, IN_LOOP, SET_7) == IN_LOOP;
    ReadVisited(SCOPE, IN_LOOP);
    IndexLoopVisited(SCOPE, Block(Two(SET_7, READ_I)));
  }

  lemma RedeclaredIndexEscapes()
    ensures Escapes(Alone(One(REDECLARING)), NAMES, [Ref(0)], [Arr([Undef])], {0})
  {
    hide VisitStmts;
    RedeclaredIndexVisited();
    forall w: World, st: State | w.watched == {0} && Holding(st, [Undef])
      ensures ExecList(1, w, st, One(REDECLARING)).out.OutOfBounds?
    {
      RedeclaredIndexRuns(w, st.(env := st.env["i" := Number(0.0)]));
      IndexLoopRuns(w, st, Block(Two(SET_7, READ_I)));
    }
    PlainEscapes(One(REDECLARING), [Undef]);
  }

  /** Reading `p[7]` of a `p` of one element. */
  lemma ReadsSeven(w: World, st: State)
    requires 0 in w.watched && Holding(st, [Undef]) && "i" in st.env && st.env["i"] == Number(7.0)
    ensures Exec(1, w, st, READ_I).out.OutOfBounds?
  {
    assert Eval(1, w, st, P) == Result_(Normal(Ref(0)), st);
    assert Eval(1, w, st, Ident("i")) == Result_(Normal(Number(7.0)), st);
  }

  lemma RedeclaredIndexRuns(w: World, st: State)
    requires w.watched == {0} && Holding(st, [Undef])
    ensures Exec(1, w, st, Block(Two(SET_7, READ_I))).out.OutOfBounds?
  {
    var st2 := st.(env := st.env["i" := Number(7.0)]);
    assert Exec(1, w, st, SET_7) == Result_(Normal(Undef), st2);
    ReadsSeven(w, st2);
  }

  // ---- `var n = p.length; var n = 9; for (var i = 0; i < n; i++) p[i];`: an alias outlives its length

  const TAKE_LENGTH := Var(Decl("n", Some(LENGTH), NoDecls))
  const SET_9 := Var(Decl("n", Some(Num(9.0)), NoDecls))
  const BELOW_N := Some(Bin(Lt, Ident("i"), Ident("n")))
  const UP_TO_N := For(FROM_0, BELOW_N, STEP, READ_I)
  const OVERRUNNING := Then(TAKE_LENGTH, Two(SET_9, UP_TO_N))

  const ALIASED := START.(lens := map["n" := "p"])
  const OVERRUN := ALIASED.(lensUsed := {"n"}, loops := map["i" := 1], assigns := map["i" := 1], total := 1,
                            proven := 1)

  lemma AliasPattern(c: Scope)
    requires Loops(c)
    ensures LoopPattern(c, ALIASED, FROM_0, BELOW_N, STEP) == (ALIASED.(lensUsed := {"n"}), Some(("p", "i")))
  {
    assert ScanHeader(c, ALIASED, FROM_0, None) == (ALIASED, Some(Some("i")));
    assert {} + {"n"} == {"n"};
    assert LoopBound(c, ALIASED, Ident("n")) == (ALIASED.(lensUsed := {"n"}), Some("p"));
  }

  lemma TakeLengthVisited(c: Scope)
    requires Loops(c)
    ensures VisitStmt(c, START, TAKE_LENGTH) == ALIASED
  {
    LengthVisited(c, ALIASED);
    hide VisitExpr;
    assert VisitDecls(c, START, Decl("n", Some(LENGTH), NoDecls)) == ALIASED;
  }

  lemma OverrunVisited(c: Scope)
    requires Loops(c)
    ensures VisitStmt(c, ALIASED, UP_TO_N) == OVERRUN
  {
    hide LoopPattern, VisitHeader;
    AliasPattern(c);
    var s3 := ALIASED.(lensUsed := {"n"}, loops := map["i" := 1], safe := [("p", "i")]);
    assert s3 == ALIASED.(lensUsed := {"n"}, loops := Bump(map[], "i"), safe := [] + [("p", "i")]);
    assert VisitExpr(c, s3, BELOW_N.value) == s3;
    HeaderVisited(c, s3, BELOW_N.value);
    ReadVisited(c, s3.(assigns := map["i" := 1]));
  }

  /** Running up to an `n` beyond the empty `p`. */
  lemma OverrunRuns(w: World, st: State)
    requires 0 in w.watched && Holding(st, []) && "n" in st.env && st.env["n"] == Number(9.0)
    ensures Exec(1, w, st, UP_TO_N).out.OutOfBounds?
  {
    var st3 := st.(env := st.env["i" := Number(0.0)]);
    assert ExecDecls(1, w, st, FROM_0) == Result_(Normal(Undef), st3);
    assert Eval(1, w, st3, BELOW_N.value) == Result_(Normal(Bool(true)), st3);
    assert Exec(1, w, st3, READ_I).out.OutOfBounds?;
  }

  lemma TakeLengthRuns(w: World, st: State)
    requires Holding(st, [])
    ensures Exec(1, w, st, TAKE_LENGTH) == Result_(Normal(Undef), st.(env := st.env["n" := Number(0.0)]))
  {
    assert Eval(1, w, st, LENGTH) == Result_(Normal(Number(0.0)), st);
  }

  lemma RedeclaredAliasEscapes()
    ensures Escapes(Alone(OVERRUNNING), NAMES, [Ref(0)], [Arr([])], {0})
  {
    TakeLengthVisited(SCOPE);
    assert VisitStmt(SCOPE, ALIASED, SET_9) == ALIASED;
    OverrunVisited(SCOPE);
    assert VisitStmts(SCOPE, START, OVERRUNNING) == OVERRUN;
    hide VisitStmts, VisitStmt;
    forall w: World, st: State | w.watched == {0} && Holding(st, [])
      ensures ExecList(1, w, st, OVERRUNNING).out.OutOfBounds?
    {
      var st1 := st.(env := st.env["n" := Number(0.0)]);
      TakeLengthRuns(w, st);
      var st2 := st1.(env := st1.env["n" := Number(9.0)]);
      assert Exec(1, w, st1, SET_9) == Result_(Normal(Undef), st2);
      OverrunRuns(w, st2);
    }
    PlainEscapes(OVERRUNNING, []);
  }
}
