/**
 The analysis is sound: `ReadOnlyOk` proving every read it sees means that no execution, on any
 input, reads an array out of bounds in the function or in its checked helpers, and that none
 changes a container.
 */
module CloneTheorem {
  import opened CloneSyntax
  import opened CloneJudgement
  import opened CloneAnalysis
  import opened CloneSemantics
  import opened CloneDiscipline
  import opened CloneCounting
  import opened CloneBodies
  import opened CloneJoin
  import opened CloneSoundness

  /** The (function, position) pairs proved for containers `d` calls deep. */
  ghost function AcceptedAt(prog: Program, fields: set<string>): nat -> iset<(string, nat)> {
    (d: nat) => iset g, j: nat | Accepted(prog, fields, g, j, d) :: (g, j)
  }

  ghost predicate Proves(prog: Program, fields: set<string>, f: string, names: set<string>, depth: nat) {
    var r := ReadOnlyOk(prog, fields, f, names, depth);
    r.Some? && r.value.0 == r.value.1
  }

  /** Position `j` of `g` is proved to be only read and in bounds, `d - 1` calls deep. */
  ghost predicate Cleared(prog: Program, fields: set<string>, g: string, j: nat, d: nat) {
    d > 0 && g in prog && j < |prog[g].params| && Proves(prog, fields, g, {prog[g].params[j]}, d - 1)
  }

  /** The functions a container can get to are disciplined: `f`, and whatever it passes one to. */
  ghost predicate Tame(prog: Program, fields: set<string>, f: string, names: set<string>, depth: nat)
    decreases depth, 0
  {
    && f in prog && Disciplined(prog[f])
    && var passes := VisitStmts(Scope(names, fields), START, prog[f].body).passes;
       forall n :: 0 <= n < |passes| && depth > 0 ==> TamePass(prog, fields, passes[n].0, passes[n].1, depth - 1)
  }

  ghost predicate TamePass(prog: Program, fields: set<string>, g: string, j: nat, depth: nat)
    decreases depth, 1
  {
    g in prog && j < |prog[g].params| ==> Tame(prog, fields, g, {prog[g].params[j]}, depth)
  }

  ghost predicate Accepted(prog: Program, fields: set<string>, g: string, j: nat, d: nat) {
    Cleared(prog, fields, g, j, d) && Tame(prog, fields, g, {prog[g].params[j]}, d - 1)
  }

  // ---- sums ---------------------------------------------------------------------------

  /** A function never proves more reads than it sees. */
  lemma {:induction false} ProvenAtMostTotal(prog: Program, fields: set<string>, f: string, names: set<string>,
                                             depth: nat)
    ensures var r := ReadOnlyOk(prog, fields, f, names, depth); r.Some? ==> r.value.1 <= r.value.0
    decreases depth, 1, 0
  {
    if f in prog {
      var s := VisitStmts(Scope(names, fields), START, prog[f].body);
      StmtsGrow(Scope(names, fields), START, prog[f].body);
      if s.ok && BookkeepingOk(s) && (s.passes != [] ==> depth > 0) {
        SumParts(prog, fields, f, s.passes, depth, (s.total, s.proven));
      }
    }
  }

  /** The sum proves all its reads only if it started so and every callee does. */
  lemma {:induction false} SumParts(prog: Program, fields: set<string>, f: string, passes: seq<(string, nat)>,
                                    depth: nat, sum: (nat, nat))
    requires (passes != [] ==> depth > 0) && sum.1 <= sum.0
    ensures var r := SumPasses(prog, fields, f, passes, depth, sum);
            && (r.Some? ==> r.value.1 <= r.value.0)
            && (r.Some? && r.value.0 == r.value.1 ==>
                  && sum.0 == sum.1
                  && forall n :: 0 <= n < |passes| ==> Cleared(prog, fields, passes[n].0, passes[n].1, depth))
    decreases depth, 0, |passes|
  {
    if passes != [] {
      var (callee, k) := passes[0];
      if callee in prog && k < |prog[callee].params| && callee != f {
        ProvenAtMostTotal(prog, fields, callee, {prog[callee].params[k]}, depth - 1);
        var r := ReadOnlyOk(prog, fields, callee, {prog[callee].params[k]}, depth - 1);
        if r.Some? {
          var next := (sum.0 + r.value.0, sum.1 + r.value.1);
          SumParts(prog, fields, f, passes[1..], depth, next);
          var total := SumPasses(prog, fields, f, passes[1..], depth, next);
          if total.Some? && total.value.0 == total.value.1 {
            forall n | 0 <= n < |passes| ensures Cleared(prog, fields, passes[n].0, passes[n].1, depth) {
              if n > 0 {
                assert passes[n] == passes[1..][n - 1];
              }
            }
          }
        }
      }
    }
  }

  // ---- accepted functions are judged --------------------------------------------------

  lemma ProvedIsJudged(prog: Program, fields: set<string>, f: string, names: set<string>, depth: nat) returns (k: Ctx)
    requires Proves(prog, fields, f, names, depth) && Tame(prog, fields, f, names, depth) &&
             forall p :: p in names ==> p in prog[f].params
    ensures k.names == names && k.fields == fields && k.passes == AcceptedAt(prog, fields)(depth) && k.strict
    ensures ListOk(k, {}, prog[f].body) && forall x :: x in prog[f].params ==> x !in k.aliases
    ensures forall n :: n in k.aliases ==> n in Locals(prog[f].body)
  {
    var passes := AcceptedAt(prog, fields)(depth);
    var s := VisitStmts(Scope(names, fields), START, prog[f].body);
    StmtsGrow(Scope(names, fields), START, prog[f].body);
    SumParts(prog, fields, f, s.passes, depth, (s.total, s.proven));
    forall n | 0 <= n < |s.passes| ensures s.passes[n] in passes {
      assert Cleared(prog, fields, s.passes[n].0, s.passes[n].1, depth);
      assert TamePass(prog, fields, s.passes[n].0, s.passes[n].1, depth - 1);
      assert Accepted(prog, fields, s.passes[n].0, s.passes[n].1, depth);
    }
    var lengths :| TidyFunction(lengths, prog[f]);
    BodyJudged(names, fields, lengths, prog[f], passes);
    k := ContextOf(names, fields, lengths, prog[f], passes);
  }

  /** Positions accepted one by one are judged together. */
  lemma {:induction false} PositionsJudged(prog: Program, fields: set<string>, f: string, at: set<nat>, d: nat)
    returns (k: Ctx)
    requires f in prog && at != {} && forall j :: j in at ==> Accepted(prog, fields, f, j, d)
    ensures d > 0 && k.strict && CalleeCtx(k, prog[f], fields, AcceptedAt(prog, fields), d, at) &&
            ListOk(k, {}, prog[f].body)
    decreases |at|
  {
    hide ListOk, Disciplined, Cleared, Tame, CalleeCtx, Joinable;
    var j :| j in at;
    assert forall i :: i in at ==> i < |prog[f].params| by { PositionsInRange(prog, fields, f, at, d); }
    hide Accepted, AcceptedAt;
    var one := PositionJudged(prog, fields, f, j, d);
    if at == {j} {
      k := one;
    } else {
      var rest := at - {j};
      var more := PositionsJudged(prog, fields, f, rest, d);
      var v, w := View(more, {}, {}), View(one, {}, {});
      PositionsDiffer(prog[f], fields, AcceptedAt(prog, fields), d, rest, j, v, w);
      JoinList(v, w, {}, prog[f].body);
      k := Joined(v, w);
      assert at == rest + {j};
    }
  }

  lemma PositionsInRange(prog: Program, fields: set<string>, f: string, at: set<nat>, d: nat)
    requires f in prog && forall j :: j in at ==> Accepted(prog, fields, f, j, d)
    ensures forall j :: j in at ==> j < |prog[f].params|
  {
  }

  lemma PositionJudged(prog: Program, fields: set<string>, f: string, j: nat, d: nat) returns (k: Ctx)
    requires f in prog && Accepted(prog, fields, f, j, d)
    ensures Disciplined(prog[f]) && d > 0 && k.strict &&
            CalleeCtx(k, prog[f], fields, AcceptedAt(prog, fields), d, {j}) && ListOk(k, {}, prog[f].body)
  {
    hide ListOk, Disciplined;
    k := ProvedIsJudged(prog, fields, f, {prog[f].params[j]}, d - 1);
  }

  lemma PositionsDiffer(f: Func, fields: set<string>, levels: nat -> iset<(string, nat)>, d: nat, rest: set<nat>,
                        j: nat, v: View, w: View)
    requires Disciplined(f) && v.c.strict && w.c.strict && j !in rest
    requires forall i :: i in rest + {j} ==> i < |f.params|
    requires CalleeCtx(v.c, f, fields, levels, d, rest) && CalleeCtx(w.c, f, fields, levels, d, {j})
    ensures Joinable(v, w) && CalleeCtx(Joined(v, w), f, fields, levels, d, rest + {j})
  {
  }

  lemma HelpersJudged(prog: Program, fields: set<string>)
    ensures HelpersOk(prog, fields, AcceptedAt(prog, fields))
  {
    var levels := AcceptedAt(prog, fields);
    forall d: nat, f, at | forall j :: j in at ==> (f, j) in levels(d)
      ensures HelperOk(prog, fields, levels, d, f, at)
    {
      if f in prog && at != {} {
        forall j | j in at ensures Accepted(prog, fields, f, j, d) {
          assert (f, j) in levels(d);
        }
        var k := PositionsJudged(prog, fields, f, at, d);
      }
    }
  }

  /** A helper that is given no container and, checked on its own, has no element read at all. */
  ghost predicate ReadsNothing(prog: Program, h: string) {
    var r := ReadOnlyOk(prog, {}, h, {}, 0);
    h in prog && Disciplined(prog[h]) && r.Some? && r.value.0 == 0
  }

  lemma QuietJudged(w: World)
    requires forall h :: h in w.quiet ==> ReadsNothing(w.prog, h)
    ensures QuietOk(w.prog, w.quiet)
  {
    hide Disciplined, ListOk, ReadOnlyOk;
    forall h | h in w.quiet && h in w.prog ensures JudgedQuiet(w.prog[h]) {
      ProvenAtMostTotal(w.prog, {}, h, {}, 0);
      var b := ProvedIsJudged(w.prog, {}, h, {}, 0);
    }
  }

  // ---- the theorem --------------------------------------------------------------------

  /** A call on containers: exactly the arguments for `names` are watched, watched cells are
      containers, and nothing else on the heap or among the arguments refers to one. */
  ghost predicate CalledOnContainers(w: World, fields: set<string>, f: Func, names: set<string>,
                                     values: seq<Value>, heap: Heap) {
    var env := Bind(f, values);
    && (forall p :: p in names ==> p in f.params && env[p].Ref? && env[p].loc in w.watched)
    && (forall x :: x in env && x !in names ==> Clean(w, env[x]))
    && (forall l :: l in w.watched ==> l < |heap| && ContainerCell(w, fields, heap[l]))
    && (forall l :: 0 <= l < |heap| && l !in w.watched ==> CleanCell(w, heap[l]))
  }

  /** In every world, with `every` set or not: no computed read of any array is out of bounds in
      `f`, in a helper that was given a container, or in another helper that was checked to read
      nothing, and no container changes or escapes. */
  lemma AnalysisIsSound(w: World, fields: set<string>, f: string, names: set<string>, depth: nat,
                        values: seq<Value>, heap: Heap, tick: nat, fuel: nat)
    requires Proves(w.prog, fields, f, names, depth) && Tame(w.prog, fields, f, names, depth)
    requires forall h :: h in w.quiet ==> ReadsNothing(w.prog, h)
    requires CalledOnContainers(w, fields, w.prog[f], names, values, heap)
    ensures var r := Run(fuel, w, w.prog[f], values, heap, tick);
            && !r.out.OutOfBounds?
            && |heap| <= |r.st.heap|
            && (forall l :: l in w.watched ==> r.st.heap[l] == heap[l])
            && (r.out.Normal? ==> Clean(w, r.out.v))
  {
    var func := w.prog[f];
    var env := Bind(func, values);
    var c := ProvedIsJudged(w.prog, fields, f, names, depth);
    HelpersJudged(w.prog, fields);
    QuietJudged(w);
    var k := Frame(c, w, heap, map p | p in names :: env[p].loc, AcceptedAt(w.prog, fields), depth);
    Called(k, func, values, tick);
    RunSound(k, fuel, func, values, tick);
  }

  lemma Called(k: Frame, f: Func, values: seq<Value>, tick: nat)
    requires CalledOnContainers(k.w, k.c.fields, f, k.c.names, values, k.heap0)
    requires var env := Bind(f, values);
             k.bind.Keys == k.c.names && forall p :: p in k.bind ==> p in env && env[p] == Ref(k.bind[p])
    requires k.c.passes == k.levels(k.depth) && k.c.strict
    requires HelpersOk(k.w.prog, k.c.fields, k.levels) && QuietOk(k.w.prog, k.w.quiet)
    requires forall x :: x in f.params ==> x !in k.c.aliases
    requires forall n :: n in k.c.aliases ==> n in Locals(f.body)
    ensures StateOk(k, {}, {}, State(Bind(f, values), k.heap0, tick))
  {
    hide HelpersOk, QuietOk;
  }
}
