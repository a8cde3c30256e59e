/**
 The visitor as the object it is: its tables are fields that each visit updates.  Every method
 is proved to do what the corresponding function of the analysis says.
 */
module CloneVisitor {
  import opened Wrappers
  import opened CloneSyntax
  import opened CloneAnalysis
  import opened CloneCounting

  /** The tables once the read `o[i]` of a rooted chain is counted. */
  function Counted(c: Scope, s: RO, o: Expr, i: Expr): RO {
    var known := Strip(o).Ident? && Strip(o).name in c.names && IndexSafe(s, Strip(o).name, i);
    FailIf(s.(total := s.total + 1, proven := s.proven + if known then 1 else 0), !known)
  }

  /** The tables after the header and the body of a matched loop. */
  function VisitMatched(c: Scope, s: RO, st: Stmt, pair: (string, string)): RO
    requires st.For?
  {
    var entry := s.(loops := Bump(s.loops, pair.1), safe := s.safe + [pair]);
    VisitStmt(c, VisitHeader(c, entry, st.decls, st.until, st.update), st.body).(safe := s.safe)
  }

  lemma ForVisits(c: Scope, s: RO, st: Stmt)
    requires st.For?
    ensures var (s1, pair) := LoopPattern(c, s, st.decls, st.until, st.update);
            VisitStmt(c, s, st) == if pair.Some? then VisitMatched(c, s1, st, pair.value)
                                   else VisitStmt(c, VisitHeader(c, s1, st.decls, st.until, st.update), st.body)
  {
  }

  class ReadOnly {
    const c: Scope
    var ok: bool
    var passes: seq<(string, nat)>
    var safe: seq<(string, string)>
    var nonempty: set<string>
    var lens: map<string, string>
    var assigns: map<string, nat>
    var loops: map<string, nat>
    var lensUsed: set<string>
    var total: nat
    var proven: nat

    constructor (c: Scope)
      ensures this.c == c && Tables() == START
    {
      this.c := c;
      ok, passes, safe, nonempty := true, [], [], {};
      lens, assigns, loops, lensUsed := map[], map[], map[], {};
      total, proven := 0, 0;
    }

    function Tables(): RO
      reads this
    {
      RO(ok, passes, safe, nonempty, lens, assigns, loops, lensUsed, total, proven)
    }

    method Fail(bad: bool)
      modifies this
      ensures Tables() == FailIf(old(Tables()), bad)
    {
      if bad {
        ok := false;
      }
    }

    method Assigned(x: string)
      modifies this
      ensures Tables() == old(Tables()).(assigns := Bump(old(assigns), x))
    {
      assigns := assigns[x := if x in assigns then assigns[x] + 1 else 1];
    }

    method Expression(e: Expr)
      modifies this
      ensures Tables() == VisitExpr(c, old(Tables()), e)
      decreases e, 2
    {
      match e
      case Num(_) =>
      case Ident(x) => Fail(x in c.names);
      case Paren(i) => Expression(i);
      case Field(_, _) => Member(e);
      case Index(_, _) => Member(e);
      case Bin(_, l, r) => Expression(l); Expression(r);
      case Not(a) => Expression(a);
      case Delete(a) => Fail(Rooted(c, a)); Expression(a);
      case AssignVar(x, r) => Assigned(x); Fail(x in c.names); Expression(r);
      case AssignField(o, _, r) => Fail(Rooted(c, o)); Expression(r);
      case AssignIndex(o, i, r) => Fail(Rooted(c, o)); Expression(r); Expression(i);
      case Update(_, a) =>
        Fail(Rooted(c, a));
        if Strip(a).Ident? {
          Assigned(Strip(a).name);
        }
      case Call(_, _) => NamedCall(e);
      case MethodCall(_, _, _) => Method(e);
    }

    method Member(e: Expr)
      requires IsMember(e)
      modifies this
      ensures Tables() == VisitExpr(c, old(Tables()), e)
      decreases e, 1, 1
    {
      if Rooted(c, e) {
        if e.Field? {
          Fail(e.field in c.fields);
        }
        Chain(e);
      } else if e.Field? {
        Expression(e.obj);
      } else {
        total := total + 1;
        Expression(e.obj);
        Expression(e.index);
      }
    }

    method Method(e: Expr)
      requires e.MethodCall?
      modifies this
      ensures Tables() == VisitExpr(c, old(Tables()), e)
      decreases e, 1, 1
    {
      if Rooted(c, e.obj) {
        Fail(!IsPureMethod(e.method_));
      } else {
        Expression(e.obj);
      }
      Arguments(e.args);
    }

    /** The links of a rooted chain, outermost first. */
    method Chain(e: Expr)
      requires IsMember(e)
      modifies this
      ensures Tables() == VisitChain(c, old(Tables()), e)
      decreases e, 1, 0
    {
      var cur := e;
      ghost var goal := VisitChain(c, Tables(), e);
      while true
        invariant IsMember(cur) && (cur == e || cur < e)
        invariant VisitChain(c, Tables(), cur) == goal
        decreases cur
      {
        if cur.Index? {
          Link(cur.obj, cur.index);
        }
        if !IsMember(cur.obj) {
          break;
        }
        cur := cur.obj;
      }
    }

    /** One computed link: an element read, proven in bounds or not. */
    method Link(o: Expr, i: Expr)
      modifies this
      ensures Tables() == VisitExpr(c, Counted(c, old(Tables()), o, i), i)
      decreases i, 3
    {
      CountRead(o, i);
      Expression(i);
    }

    method CountRead(o: Expr, i: Expr)
      modifies this
      ensures Tables() == Counted(c, old(Tables()), o, i)
    {
      total := total + 1;
      var base := Strip(o);
      if base.Ident? && base.name in c.names && IndexSafe(Tables(), base.name, i) {
        proven := proven + 1;
      } else {
        ok := false;
      }
    }

    method NamedCall(e: Expr)
      requires e.Call?
      modifies this
      ensures Tables() == VisitExpr(c, old(Tables()), e)
      decreases e, 1
    {
      Fail(e.callee in c.names);
      ghost var goal := VisitArgs(c, Tables(), e.callee, 0, e.args);
      var rest, k := e.args, 0;
      while rest.Arg?
        invariant VisitArgs(c, Tables(), e.callee, k, rest) == goal && rest < e
        decreases rest
      {
        if rest.head.Ident? && rest.head.name in c.names {
          passes := passes + [(e.callee, k)];
        } else {
          Expression(rest.head);
        }
        rest, k := rest.tail, k + 1;
      }
    }

    method Arguments(args: Args)
      modifies this
      ensures Tables() == VisitPlainArgs(c, old(Tables()), args)
      decreases args, 1
    {
      ghost var goal := VisitPlainArgs(c, Tables(), args);
      var rest := args;
      while rest.Arg?
        invariant VisitPlainArgs(c, Tables(), rest) == goal && (rest == args || rest < args)
        decreases rest
      {
        Expression(rest.head);
        rest := rest.tail;
      }
    }

    method Optional(e: Option<Expr>)
      modifies this
      ensures Tables() == VisitOption(c, old(Tables()), e)
    {
      if e.Some? {
        Expression(e.value);
      }
    }

    method Alias(x: string, init: Option<Expr>)
      modifies this
      ensures Tables() == if init.Some? && LengthOf(init.value).Some? && LengthOf(init.value).value in c.names
                          then old(Tables()).(lens := old(lens)[x := LengthOf(init.value).value]) else old(Tables())
    {
      if init.Some? && LengthOf(init.value).Some? && LengthOf(init.value).value in c.names {
        lens := lens[x := LengthOf(init.value).value];
      }
    }

    method Declarators(ds: Decls)
      modifies this
      ensures Tables() == VisitDecls(c, old(Tables()), ds)
    {
      ghost var goal := VisitDecls(c, Tables(), ds);
      var rest := ds;
      while rest.Decl?
        invariant VisitDecls(c, Tables(), rest) == goal
        decreases rest
      {
        Alias(rest.name, rest.init);
        Optional(rest.init);
        rest := rest.rest;
      }
    }

    /** The declarators of a loop header: the index, if they fit. */
    method Header(ds: Decls) returns (index: Option<Option<string>>)
      modifies this
      ensures (Tables(), index) == ScanHeader(c, old(Tables()), ds, None)
    {
      ghost var goal := ScanHeader(c, Tables(), ds, None);
      var rest, found := ds, None;
      while rest.Decl?
        invariant ScanHeader(c, Tables(), rest, found) == goal
        decreases rest
      {
        var init := rest.init;
        if init.None? {
          return None;
        } else if LengthOf(init.value).Some? && LengthOf(init.value).value in c.names {
          lens := lens[rest.name := LengthOf(init.value).value];
        } else if IsCount(init.value) && found.None? {
          found := Some(rest.name);
        } else {
          return None;
        }
        rest := rest.rest;
      }
      return Some(found);
    }

    method Pattern(ds: Decls, test: Option<Expr>, update: Option<Expr>) returns (pair: Option<(string, string)>)
      modifies this
      ensures (Tables(), pair) == LoopPattern(c, old(Tables()), ds, test, update)
    {
      var header := Header(ds);
      if header.None? || header.value.None? {
        return None;
      }
      var i := header.value.value;
      if !TestsIndex(test, i) {
        return None;
      }
      var right := Strip(Strip(test.value).right);
      var bound := None;
      if right.Ident? {
        if right.name in lens {
          bound := Some(lens[right.name]);
          lensUsed := lensUsed + {right.name};
        }
      } else if LengthOf(right).Some? && LengthOf(right).value in c.names {
        bound := LengthOf(right);
      }
      if bound.None? || !StepsIndex(update, i) {
        return None;
      }
      return Some((bound.value, i));
    }

    method Statement(s: Stmt)
      modifies this
      ensures Tables() == VisitStmt(c, old(Tables()), s)
      decreases s, 2
    {
      match s
      case Exp(e) => Expression(e);
      case Var(ds) => Declarators(ds);
      case If(t, a, b) =>
        Expression(t);
        Statement(a);
        if b.Some? {
          Statement(b.value);
        }
      case While(t, b) => Expression(t); Statement(b);
      case For(_, _, _, _) => ForLoop(s);
      case ForOf(_, src, b) =>
        if !Rooted(c, src) {
          Expression(src);
        }
        Statement(b);
      case Block(ss) => Statements(ss);
      case Return(v) => Optional(v);
      case Throw(e) => Expression(e);
      case Break =>
      case Continue =>
    }

    method ForLoop(s: Stmt)
      requires s.For?
      modifies this
      ensures Tables() == VisitStmt(c, old(Tables()), s)
      decreases s, 1
    {
      ghost var before := Tables();
      var pair := Pattern(s.decls, s.until, s.update);
      ForVisits(c, before, s);
      hide VisitStmt, LoopPattern;
      if pair.Some? {
        MatchedLoop(s, pair.value);
      } else {
        LoopParts(s);
      }
    }

    method MatchedLoop(s: Stmt, pair: (string, string))
      requires s.For?
      modifies this
      ensures Tables() == VisitMatched(c, old(Tables()), s, pair)
      decreases s, 0, 1
    {
      hide VisitStmt;
      loops := loops[pair.1 := if pair.1 in loops then loops[pair.1] + 1 else 1];
      safe := safe + [pair];
      PartsKeepSafe(c, Tables(), s);
      LoopParts(s);
      safe := safe[..|safe| - 1];
    }

    /** The header and the body of a `for` loop, in the order they are visited. */
    method LoopParts(s: Stmt)
      requires s.For?
      modifies this
      ensures Tables() == VisitStmt(c, VisitHeader(c, old(Tables()), s.decls, s.until, s.update), s.body)
      decreases s, 0, 0
    {
      Declarators(s.decls);
      Optional(s.until);
      Optional(s.update);
      Statement(s.body);
    }

    method Statements(ss: Stmts)
      modifies this
      ensures Tables() == VisitStmts(c, old(Tables()), ss)
      decreases ss, 1
    {
      ghost var goal := VisitStmts(c, Tables(), ss);
      var rest := ss;
      while rest.Then?
        invariant VisitStmts(c, Tables(), rest) == goal && (rest == ss || rest < ss)
        decreases rest
      {
        Statement(rest.head);
        if EmptyGuard(rest.head).Some? {
          nonempty := nonempty + {EmptyGuard(rest.head).value};
        }
        rest := rest.tail;
      }
    }
  }

  /** Visits leave the enclosing loops as they are, so the pair pushed is the pair popped. */
  lemma PartsKeepSafe(c: Scope, s: RO, st: Stmt)
    requires st.For?
    ensures VisitStmt(c, VisitHeader(c, s, st.decls, st.until, st.update), st.body).safe == s.safe
  {
    HeaderGrows(c, s, st.decls, st.until, st.update);
    StmtGrows(c, VisitHeader(c, s, st.decls, st.until, st.update), st.body);
  }

  /** The whole check: this function, then every function a container is passed to. */
  method Check(prog: Program, fields: set<string>, f: string, names: set<string>, depth: nat)
    returns (r: Option<(nat, nat)>)
    ensures r == ReadOnlyOk(prog, fields, f, names, depth)
    decreases depth
  {
    if f !in prog {
      return None;
    }
    var v := new ReadOnly(Scope(names, fields));
    v.Statements(prog[f].body);
    if !v.ok || !BookkeepingOk(v.Tables()) || (v.passes != [] && depth == 0) {
      return None;
    }
    ghost var goal := SumPasses(prog, fields, f, v.passes, depth, (v.total, v.proven));
    var total, proven, passes, n := v.total, v.proven, v.passes, 0;
    while n < |passes|
      invariant n <= |passes| && (passes != [] ==> depth > 0)
      invariant SumPasses(prog, fields, f, passes[n..], depth, (total, proven)) == goal
    {
      var (callee, k) := passes[n];
      if callee !in prog || k >= |prog[callee].params| || callee == f {
        return None;
      }
      var sub := Check(prog, fields, callee, {prog[callee].params[k]}, depth - 1);
      if sub.None? {
        return None;
      }
      total, proven, n := total + sub.value.0, proven + sub.value.1, n + 1;
    }
    return Some((total, proven));
  }
}
