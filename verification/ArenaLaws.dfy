/**
 What the arena's operations mean to a client, over whole traces: counters add up, references and
 pins are kept as given, and what is linked to something reachable is reachable.
 */
module ArenaLaws {
  import opened Wrappers
  import opened Closure
  import opened ArenaModel
  import opened ArenaHeap
  import opened ArenaInvariant
  import opened ArenaRuns
  import opened ArenaTheorems
  import opened ArenaCost

  // ---- what an operation may change ---------------------------------------------------

  predicate IsEdgeOp(op: BaseOp) { op.ReplaceReference? || op.ForgetReferences? || op.ReplaceEdge? || op.RemoveEdge? }

  lemma EdgeOpFrame(v: View, op: BaseOp)
    requires IsEdgeOp(op)
    ensures BaseStep(v, op) == v.(references := BaseStep(v, op).references, edges := BaseStep(v, op).edges)
  {
    hide Identity, ReplaceChild, PutOrDrop, Get;
    match op
    case ReplaceReference(_, _, _) =>
    case ForgetReferences(_) =>
    case ReplaceEdge(id, o, previous, next) => ReplaceEdgeFrame(v, id, o, previous, next);
    case RemoveEdge(id, o, child) => RemoveEdgeFrame(v, id, o, child);
  }

  lemma ReplaceEdgeFrame(v: View, id: AllocationId, owner: nat, previous: nat, next: nat)
    ensures ReplaceEdgeStep(v, id, owner, previous, next) ==
            v.(edges := ReplaceEdgeStep(v, id, owner, previous, next).edges)
  {
    hide Identity, ReplaceChild, PutOrDrop, Get;
  }

  lemma RemoveEdgeFrame(v: View, id: AllocationId, owner: nat, child: nat)
    ensures RemoveEdgeStep(v, id, owner, child) == v.(edges := RemoveEdgeStep(v, id, owner, child).edges)
  {
    hide PutOrDrop, RemoveFirst;
  }

  lemma AllocFrame(v: View, size: nat, answer: Option<nat>)
    ensures var w := AllocStep(v, size, answer);
            && w == v.(current := w.current, index := w.index, bytes := w.bytes, nextId := w.nextId, epoch := w.epoch)
            && w.bytes == (if answer.Some? then Capped(v.bytes, size) else v.bytes)
            && (answer.Some? && v.tracing ==>
                  && w.nextId == (if v.nextId < U64_MAX then v.nextId + 1 else v.nextId)
                  && w.epoch == (if v.epoch.Some? && v.epoch.value < U64_MAX then Some(v.epoch.value + 1) else None))
            && (answer.None? ==> w == v)
  {
    hide Extent;
  }

  lemma CoreFrame(v: View, read: Memory)
    ensures var w := ResetCore(v, read);
            && w.roots == v.roots && w.pinned == v.pinned && w.hooks == v.hooks && w.metadataHooks == v.metadataHooks
            && w.tracing == v.tracing
  {
    hide Live, Generations, Kept, Survivors, DeadRanges, Visited;
  }

  // ---- counters -----------------------------------------------------------------------

  ghost predicate NoReset(ms: seq<Micro>) { forall i :: 0 <= i < |ms| ==> !ms[i].Core? }

  predicate Allocates(m: Micro) { m.Do? && m.op.Alloc? && m.op.answer.Some? }

  /** The number of successful allocations. */
  function Allocations(ms: seq<Micro>): nat {
    if ms == [] then 0 else Allocations(ms[..|ms| - 1]) + if Allocates(ms[|ms| - 1]) then 1 else 0
  }

  /** `a + n` in a counter that stops at its maximum. */
  function Capped(a: nat, n: nat): nat { if a + n <= 0xFFFF_FFFF_FFFF_FFFF then a + n else 0xFFFF_FFFF_FFFF_FFFF }

  lemma NoResetPrefix(ms: seq<Micro>)
    requires NoReset(ms) && ms != []
    ensures NoReset(ms[..|ms| - 1]) && !ms[|ms| - 1].Core?
  {
  }

  /** Between resets the bytes handed out add up, up to the counter's maximum. */
  lemma {:induction false} BytesAddUp(v: View, ms: seq<Micro>)
    requires NoReset(ms) && v.bytes <= U64_MAX
    ensures Trace(v, ms).bytes == Capped(v.bytes, AllocBytes(ms))
  {
    if ms != [] {
      NoResetPrefix(ms);
      BytesAddUp(v, ms[..|ms| - 1]);
      MicroBytes(Trace(v, ms[..|ms| - 1]), ms[|ms| - 1]);
    }
  }

  lemma MicroBytes(v: View, m: Micro)
    requires !m.Core? && v.bytes <= U64_MAX
    ensures MicroStep(v, m).bytes == Capped(v.bytes, Bytes(m))
  {
    hide AllocStep, ReplaceReferenceStep, ReplaceEdgeStep, RemoveEdgeStep, AddHook;
    if m.Do? {
      if IsEdgeOp(m.op) {
        EdgeOpFrame(v, m.op);
        hide BaseStep;
      } else if m.op.Alloc? {
        AllocFrame(v, m.op.size, m.op.answer);
      }
    }
  }

  /** With tracing on, serials and the epoch count allocations: a serial per allocation until the
      counter is full, the epoch gone once it would pass its maximum. */
  lemma {:induction false} SerialsAddUp(v: View, ms: seq<Micro>)
    requires v.tracing && v.nextId <= U64_MAX && (v.epoch.Some? ==> v.epoch.value <= U64_MAX) && NoReset(ms)
    ensures Trace(v, ms).tracing && Trace(v, ms).nextId == Capped(v.nextId, Allocations(ms))
    ensures Trace(v, ms).epoch == if v.epoch.Some? && v.epoch.value + Allocations(ms) <= U64_MAX
                                  then Some(v.epoch.value + Allocations(ms)) else None
  {
    if ms != [] {
      NoResetPrefix(ms);
      SerialsAddUp(v, ms[..|ms| - 1]);
      MicroSerials(Trace(v, ms[..|ms| - 1]), ms[|ms| - 1]);
    }
  }

  lemma MicroSerials(v: View, m: Micro)
    requires v.tracing && v.nextId <= U64_MAX && (v.epoch.Some? ==> v.epoch.value <= U64_MAX) && !m.Core?
    ensures var w := MicroStep(v, m);
            && w.tracing && w.nextId == Capped(v.nextId, if Allocates(m) then 1 else 0)
            && w.epoch == if !Allocates(m) then v.epoch
                          else if v.epoch.Some? && v.epoch.value < U64_MAX then Some(v.epoch.value + 1) else None
  {
    hide AllocStep, ReplaceReferenceStep, ReplaceEdgeStep, RemoveEdgeStep, AddHook;
    if m.Do? {
      if IsEdgeOp(m.op) {
        EdgeOpFrame(v, m.op);
        hide BaseStep;
      } else if m.op.Alloc? {
        AllocFrame(v, m.op.size, m.op.answer);
      }
    }
  }

  function Doing(ops: seq<BaseOp>): (ms: seq<Micro>)
    ensures |ms| == |ops| && forall i :: 0 <= i < |ops| ==> ms[i] == Do(ops[i])
  {
    seq(|ops|, i requires 0 <= i < |ops| => Do(ops[i]))
  }

  /** A traced arena collects as soon as the bytes handed out since the last reset reach the
      threshold: operations, and then the check. */
  method WorkThenCollect(a: Arena, ops: seq<BaseOp>, read: Memory, scripts: Scripts) returns (fired: bool)
    requires a.Valid() && a.tracing && a.bytes <= U64_MAX
    modifies a
    ensures fired <==> Capped(old(a.bytes), AllocBytes(Doing(ops))) >= old(a.nextAutoReset)
  {
    ghost var v := a.Value();
    ghost var ms := Doing(ops);
    for i := 0 to |ops|
      invariant a.Valid() && a.Value() == Trace(v, ms[..i]) && a.nextAutoReset == old(a.nextAutoReset)
      invariant a.tracing
    {
      hide BaseStep, Trace;
      TraceNext(v, ms, i);
      KeepsTracing(a.Value(), ops[i]);
      a.Perform(ops[i]);
    }
    assert ms[..|ops|] == ms;
    BytesAddUp(v, ms);
    var events;
    fired, events := a.ResetIfGrown(read, scripts);
  }

  lemma TraceNext(v: View, ms: seq<Micro>, i: nat)
    requires i < |ms|
    ensures Trace(v, ms[..i + 1]) == MicroStep(Trace(v, ms[..i]), ms[i])
  {
    assert ms[..i + 1][..i] == ms[..i];
  }

  lemma KeepsTracing(v: View, op: BaseOp)
    ensures v.tracing ==> BaseStep(v, op).tracing
  {
  }

  // ---- references ---------------------------------------------------------------------

  /** The children after one of `previous` is replaced by `next`: one `previous` fewer, if there
      was any, and one `next` more, unless it is null. */
  function Exchanged(children: multiset<nat>, previous: nat, next: nat): multiset<nat> {
    children - multiset{previous} + if next != 0 then multiset{next} else multiset{}
  }

  lemma Without(s: seq<nat>, i: nat)
    requires i < |s|
    ensures multiset(s[..i] + s[i + 1..]) == multiset(s) - multiset{s[i]}
  {
    assert s == s[..i] + [s[i]] + s[i + 1..];
  }

  lemma RemovedOnce(s: seq<nat>, x: nat)
    ensures multiset(RemoveFirst(s, x)) == multiset(s) - multiset{x}
  {
    var i := Position(s, x);
    hide Position;
    if i.Some? {
      Without(s, i.value);
    } else {
      assert x !in multiset(s);
    }
  }

  lemma ChildExchanged(s: seq<nat>, previous: nat, next: nat)
    ensures multiset(ReplaceChild(s, previous, next)) == Exchanged(multiset(s), previous, next)
  {
    RemovedOnce(s, previous);
  }

  /** Replacing a reference changes the children of that owner, as asked, and nothing else. */
  lemma ReferenceReplaced(v: View, owner: nat, previous: nat, next: nat)
    requires v.tracing
    ensures var w := BaseStep(v, BaseOp.ReplaceReference(owner, previous, next));
            && multiset(Get(w.references, owner)) == Exchanged(multiset(Get(v.references, owner)), previous, next)
            && (forall o :: o != owner ==> Get(w.references, o) == Get(v.references, o))
            && w == v.(references := w.references)
  {
    var children := ReplaceChild(Get(v.references, owner), previous, next);
    ChildExchanged(Get(v.references, owner), previous, next);
    hide ReplaceChild, Exchanged;
    assert BaseStep(v, BaseOp.ReplaceReference(owner, previous, next)).references == v.references[owner := children];
  }

  /** The same for the edges of an incarnation, and nothing happens for any other identity. */
  lemma EdgeReplaced(v: View, id: AllocationId, owner: nat, previous: nat, next: nat)
    ensures var w := BaseStep(v, BaseOp.ReplaceEdge(id, owner, previous, next));
            && (Identity(v, owner) == Some(id) ==>
                  multiset(Get(w.edges, (id, owner))) == Exchanged(multiset(Get(v.edges, (id, owner))), previous, next))
            && (Identity(v, owner) != Some(id) ==> w == v)
            && (forall k :: k != (id, owner) ==> Get(w.edges, k) == Get(v.edges, k))
            && w == v.(edges := w.edges)
  {
    var k, was := (id, owner), Get(v.edges, (id, owner));
    ChildExchanged(was, previous, next);
    ReplaceEdgeFrame(v, id, owner, previous, next);
    PutOrDropGets(v.edges, k, ReplaceChild(was, previous, next));
    hide Identity, ReplaceChild, PutOrDrop, Get, Exchanged;
  }

  lemma PutOrDropGets(m: map<EdgeKey, seq<nat>>, k: EdgeKey, children: seq<nat>)
    ensures Get(PutOrDrop(m, k, children), k) == children
    ensures forall j :: j != k ==> Get(PutOrDrop(m, k, children), j) == Get(m, j)
  {
  }

  lemma EdgeRemoved(v: View, id: AllocationId, owner: nat, child: nat)
    ensures var w := BaseStep(v, BaseOp.RemoveEdge(id, owner, child));
            && multiset(Get(w.edges, (id, owner))) == multiset(Get(v.edges, (id, owner))) - multiset{child}
            && (forall k :: k != (id, owner) ==> Get(w.edges, k) == Get(v.edges, k))
            && w == v.(edges := w.edges)
  {
    var k, was := (id, owner), Get(v.edges, (id, owner));
    RemovedOnce(was, child);
    RemoveEdgeFrame(v, id, owner, child);
    PutOrDropGets(v.edges, k, RemoveFirst(was, child));
    assert k !in v.edges ==> was == [];
    hide PutOrDrop, RemoveFirst;
  }

  // ---- what is kept -------------------------------------------------------------------

  /** The edge list of `k` belongs to an incarnation that is recorded now and contains its owner. */
  ghost predicate Owned(v: View, k: EdgeKey) {
    && k.0.base in v.index && k.0.serial != 0 && v.index[k.0.base].serial == k.0.serial
    && k.0.base <= k.1 < k.0.base + v.index[k.0.base].size
  }

  /** The `i`-th word of the allocation at `b`. */
  function WordAt(read: Memory, b: nat, i: nat): nat { read(b + 8 * i) }

  /** `t` holds root slots, root contents and pins, and with every address its references, its
      owned edges, and the whole words of the allocation it points into. */
  ghost predicate HoldsOn(v: View, read: Memory, t: iset<nat>) {
    && (forall s :: s in v.roots ==> s in t && read(s) in t)
    && (forall p :: p in v.pinned ==> p in t)
    && (forall p, c :: p in t && p in v.references && c in v.references[p] ==> c in t)
    && (forall k, c :: k in v.edges && c in v.edges[k] && k.1 in t && Owned(v, k) ==> c in t)
    && (forall p, b, i: nat {:trigger p in t, WordAt(read, b, i)} ::
          p in t && b in v.index && b <= p < b + v.index[b].size && 8 * i + 8 <= v.index[b].size ==>
          WordAt(read, b, i) in t)
  }

  lemma HoldsOnIsClosed(v: View, read: Memory, t: iset<nat>)
    requires RecordsApart(v.index)
    ensures HoldsOn(v, read, t) <==> Closed(GraphOf(v, read), t)
  {
    if HoldsOn(v, read, t) {
      HeldIsClosed(v, read, t);
    }
    if Closed(GraphOf(v, read), t) {
      ClosedIsHeld(v, read, t);
    }
  }

  lemma HeldIsClosed(v: View, read: Memory, t: iset<nat>)
    requires RecordsApart(v.index) && HoldsOn(v, read, t)
    ensures Closed(GraphOf(v, read), t)
  {
    hide RecordsApart, EdgeChildren;
    var g := GraphOf(v, read);
    forall p, c | p in t && c in Next(g, p) ensures c in t {
      if c in HomeWords(g, p) {
        WordHeld(v, read, t, p, c);
      } else if c in Children(v.references, p) {
      } else {
        EdgeHeld(v, read, t, p, c);
      }
    }
  }

  lemma WholeWords(size: nat, i: nat)
    ensures i < size / WORD <==> 8 * i + 8 <= size
    ensures i * WORD == 8 * i
  {
  }

  lemma WordHeld(v: View, read: Memory, t: iset<nat>, p: nat, c: nat)
    requires HoldsOn(v, read, t) && p in t && c in HomeWords(GraphOf(v, read), p)
    ensures c in t
  {
    var b := Find(v.index, p).value;
    var size := v.index[b].size;
    var i: nat :| i < size / WORD && c == read(b + i * WORD);
    WholeWords(size, i);
    hide Find;
    assert WordAt(read, b, i) in t;
  }

  lemma EdgeHeld(v: View, read: Memory, t: iset<nat>, p: nat, c: nat)
    requires HoldsOn(v, read, t) && p in t && c in EdgeChildren(v, p)
    ensures c in t
  {
    var b := Find(v.index, p).value;
    var k := (AllocationId(b, v.index[b].serial), p);
    assert Owned(v, k) && c in v.edges[k];
  }

  lemma ClosedIsHeld(v: View, read: Memory, t: iset<nat>)
    requires RecordsApart(v.index) && Closed(GraphOf(v, read), t)
    ensures HoldsOn(v, read, t)
  {
    hide RecordsApart, Closed, GraphOf, Owned, Find, WordAt, SideNodes, HomeWords;
    forall s | s in v.roots ensures s in t && read(s) in t {
      StartHeld(v, read, t, s);
      StartHeld(v, read, t, read(s));
    }
    forall p | p in v.pinned ensures p in t {
      StartHeld(v, read, t, p);
    }
    forall p, c | p in t && p in v.references && c in v.references[p] ensures c in t {
      ReferenceIsNext(v, p, c);
      NextHeld(v, read, t, p, c);
    }
    forall k, c | k in v.edges && c in v.edges[k] && k.1 in t && Owned(v, k) ensures c in t {
      OwnedIsNext(v, k, c);
      NextHeld(v, read, t, k.1, c);
    }
    forall p, b, i: nat {:trigger p in t, WordAt(read, b, i)} |
      p in t && b in v.index && b <= p < b + v.index[b].size && 8 * i + 8 <= v.index[b].size
      ensures WordAt(read, b, i) in t
    {
      WordIsNext(v, read, p, b, i);
      NextHeld(v, read, t, p, WordAt(read, b, i));
    }
  }

  lemma StartHeld(v: View, read: Memory, t: iset<nat>, n: nat)
    requires Closed(GraphOf(v, read), t) && n in Start(v, read)
    ensures n in t
  {
  }

  lemma NextHeld(v: View, read: Memory, t: iset<nat>, p: nat, c: nat)
    requires Closed(GraphOf(v, read), t) && p in t
    requires c in SideNodes(v, p) || c in HomeWords(GraphOf(v, read), p)
    ensures c in t
  {
    hide SideNodes;
    assert c in Next(GraphOf(v, read), p);
  }

  lemma ReferenceIsNext(v: View, p: nat, c: nat)
    requires p in v.references && c in v.references[p]
    ensures c in SideNodes(v, p)
  {
    hide EdgeChildren;
  }

  lemma OwnedIsNext(v: View, k: EdgeKey, c: nat)
    requires RecordsApart(v.index) && k in v.edges && c in v.edges[k] && Owned(v, k)
    ensures c in SideNodes(v, k.1)
  {
    FindIsMembership(v.index, k.1, k.0.base);
    hide RecordsApart, Find;
    assert k == (AllocationId(k.0.base, v.index[k.0.base].serial), k.1);
    assert c in EdgeChildren(v, k.1);
  }

  lemma WordIsNext(v: View, read: Memory, p: nat, b: nat, i: nat)
    requires RecordsApart(v.index) && b in v.index && b <= p < b + v.index[b].size && 8 * i + 8 <= v.index[b].size
    ensures WordAt(read, b, i) in HomeWords(GraphOf(v, read), p)
  {
    FindIsMembership(v.index, p, b);
    hide RecordsApart, Find;
    var size := v.index[b].size;
    WholeWords(size, i);
    var words := WordsOf(read, b, size);
    assert words[i] == read(b + i * WORD);
    assert WordAt(read, b, i) in HeapWords(v.index, read, b);
  }

  /** Visited is what every such set holds; alive is an allocation some visited address lies in. */
  lemma KeptIsLeast(v: View, read: Memory)
    requires Invariant(v)
    ensures forall n: nat :: Visited(v, read, n) <==> forall t: iset<nat> :: HoldsOn(v, read, t) ==> n in t
    ensures forall b :: b in Live(v, read) <==>
              b in v.index && exists n: nat :: Visited(v, read, n) && b <= n < b + v.index[b].size
  {
    forall t: iset<nat> ensures HoldsOn(v, read, t) <==> Closed(GraphOf(v, read), t) {
      HoldsOnIsClosed(v, read, t);
    }
    forall b: nat, n: nat ensures Find(v.index, n) == Some(b) <==> b in v.index && b <= n < b + v.index[b].size {
      FindIsMembership(v.index, n, b);
    }
    hide HoldsOn, GraphOf, Closed, Find, Invariant;
    forall n: nat ensures Visited(v, read, n) <==> forall t: iset<nat> :: HoldsOn(v, read, t) ==> n in t {
    }
  }

  /** The visited addresses are such a set themselves. */
  lemma VisitedHoldsOn(v: View, read: Memory)
    requires Invariant(v)
    ensures HoldsOn(v, read, iset n | Visited(v, read, n))
  {
    ReachedIsClosed(GraphOf(v, read));
    HoldsOnIsClosed(v, read, iset n | Visited(v, read, n));
  }

  lemma VisitedIsAlive(v: View, read: Memory, n: nat, b: nat)
    requires Invariant(v) && Visited(v, read, n) && b in v.index && b <= n < b + v.index[b].size
    ensures b in Live(v, read)
  {
    FindIsMembership(v.index, n, b);
    assert Alive(v, read, b);
  }

  /** A child stored for a visited owner is visited, and the allocation it lies in survives. */
  lemma StoredChildSurvives(v: View, read: Memory, owner: nat, previous: nat, next: nat)
    requires Invariant(v) && v.tracing && next != 0
    ensures var w := BaseStep(v, BaseOp.ReplaceReference(owner, previous, next));
            Visited(w, read, owner) ==>
              Visited(w, read, next) &&
              forall b :: b in w.index && b <= next < b + w.index[b].size ==> b in Live(w, read)
  {
    var w := BaseStep(v, BaseOp.ReplaceReference(owner, previous, next));
    BaseKeeps(v, BaseOp.ReplaceReference(owner, previous, next));
    ReferenceReplaced(v, owner, previous, next);
    assert next in multiset(Get(w.references, owner));
    hide BaseStep, HoldsOn;
    if Visited(w, read, owner) {
      ChildVisited(w, read, owner, next);
    }
  }

  lemma ChildVisited(w: View, read: Memory, owner: nat, next: nat)
    requires Invariant(w) && Visited(w, read, owner) && next in Get(w.references, owner)
    ensures Visited(w, read, next)
    ensures forall b :: b in w.index && b <= next < b + w.index[b].size ==> b in Live(w, read)
  {
    VisitedHoldsOn(w, read);
    var t := iset n | Visited(w, read, n);
    assert owner in t && owner in w.references && next in w.references[owner];
    assert next in t;
    forall b | b in w.index && b <= next < b + w.index[b].size ensures b in Live(w, read) {
      VisitedIsAlive(w, read, next, b);
    }
  }

  lemma StoredEdgeSurvives(v: View, read: Memory, id: AllocationId, owner: nat, previous: nat, next: nat)
    requires Invariant(v) && Identity(v, owner) == Some(id) && next != 0
    ensures var w := BaseStep(v, BaseOp.ReplaceEdge(id, owner, previous, next));
            Visited(w, read, owner) ==>
              Visited(w, read, next) &&
              forall b :: b in w.index && b <= next < b + w.index[b].size ==> b in Live(w, read)
  {
    var w := BaseStep(v, BaseOp.ReplaceEdge(id, owner, previous, next));
    BaseKeeps(v, BaseOp.ReplaceEdge(id, owner, previous, next));
    EdgeReplaced(v, id, owner, previous, next);
    assert next in multiset(Get(w.edges, (id, owner)));
    assert Owned(w, (id, owner));
    hide BaseStep, Identity;
    if Visited(w, read, owner) {
      EdgeVisited(w, read, (id, owner), next);
    }
  }

  lemma EdgeVisited(w: View, read: Memory, k: EdgeKey, next: nat)
    requires Invariant(w) && Visited(w, read, k.1) && next in Get(w.edges, k) && Owned(w, k)
    ensures Visited(w, read, next)
    ensures forall b :: b in w.index && b <= next < b + w.index[b].size ==> b in Live(w, read)
  {
    VisitedHoldsOn(w, read);
    forall b | b in w.index && b <= next < b + w.index[b].size ensures b in Live(w, read) {
      VisitedIsAlive(w, read, next, b);
    }
  }

  // ---- pins, roots and hooks over traces ----------------------------------------------

  function PinCount(v: View, p: nat): nat { if p in v.pinned then v.pinned[p] else 0 }

  /** Pins of `p` placed by a trace, less those dropped. */
  function NetPins(ms: seq<Micro>, p: nat): int {
    if ms == [] then 0
    else
      var m := ms[|ms| - 1];
      NetPins(ms[..|ms| - 1], p)
      + if m == Do(BaseOp.Pin(p)) then 1 else if m == Do(BaseOp.Unpin(p)) then -1 else 0
  }

  /** Pins are counted, through resets and hooks: as many are left as were placed and not dropped,
      and drops never ran ahead of them; an address is pinned while any is left. */
  lemma {:induction false} PinsAddUp(v: View, ms: seq<Micro>, p: nat)
    requires v.tracing && p != 0 && (forall q :: q in v.pinned ==> v.pinned[q] > 0)
    ensures var w := Trace(v, ms);
            && w.tracing && (forall q :: q in w.pinned ==> w.pinned[q] > 0)
            && PinCount(w, p) >= PinCount(v, p) + NetPins(ms, p)
            && ((forall i :: 0 <= i <= |ms| ==> PinCount(v, p) + NetPins(ms[..i], p) >= 0) ==>
                  PinCount(w, p) == PinCount(v, p) + NetPins(ms, p))
  {
    if ms != [] {
      var front := ms[..|ms| - 1];
      PinsAddUp(v, front, p);
      MicroPins(Trace(v, front), ms[|ms| - 1], p);
      if forall i :: 0 <= i <= |ms| ==> PinCount(v, p) + NetPins(ms[..i], p) >= 0 {
        forall i | 0 <= i <= |front| ensures PinCount(v, p) + NetPins(front[..i], p) >= 0 {
          assert front[..i] == ms[..i];
        }
        assert ms[..|ms|] == ms;
      }
    } else {
      assert ms[..0] == [];
    }
  }

  ghost predicate Counted(v: View) { v.tracing && forall q :: q in v.pinned ==> v.pinned[q] > 0 }

  lemma PinChange(v: View, q: nat, p: nat)
    requires Counted(v) && p != 0
    ensures Counted(PinStep(v, q)) && PinCount(PinStep(v, q), p) == PinCount(v, p) + if q == p then 1 else 0
  {
  }

  lemma UnpinChange(v: View, q: nat, p: nat)
    requires Counted(v)
    ensures Counted(UnpinStep(v, q))
    ensures PinCount(UnpinStep(v, q), p) ==
            if q == p && PinCount(v, p) > 0 then PinCount(v, p) - 1 else PinCount(v, p)
  {
  }

  lemma MicroPins(v: View, m: Micro, p: nat)
    requires v.tracing && p != 0 && (forall q :: q in v.pinned ==> v.pinned[q] > 0)
    ensures var w := MicroStep(v, m);
            && w.tracing && (forall q :: q in w.pinned ==> w.pinned[q] > 0)
            && PinCount(w, p) == if m == Do(BaseOp.Pin(p)) then PinCount(v, p) + 1
                                 else if m == Do(BaseOp.Unpin(p)) && PinCount(v, p) > 0 then PinCount(v, p) - 1
                                 else PinCount(v, p)
  {
    hide AllocStep, ResetCore, ReplaceReferenceStep, ReplaceEdgeStep, RemoveEdgeStep, PinStep, UnpinStep, AddHook;
    if m.Do? {
      if IsEdgeOp(m.op) {
        EdgeOpFrame(v, m.op);
        hide BaseStep;
      } else if m.op.Alloc? {
        AllocFrame(v, m.op.size, m.op.answer);
      } else if m.op.Pin? {
        PinChange(v, m.op.pointer, p);
      } else if m.op.Unpin? {
        UnpinChange(v, m.op.pointer, p);
      }
    } else if m.Core? {
      CoreFrame(v, m.read);
    }
  }

  /** A pin placed twice and dropped once still holds: while more pins were placed than dropped,
      the allocation pointed into survives every reset. */
  lemma PinHolds(v: View, ms: seq<Micro>, p: nat, read: Memory)
    requires Invariant(v) && EnabledTrace(v, ms) && v.tracing && p != 0
    requires (forall q :: q in v.pinned ==> v.pinned[q] > 0) && NetPins(ms, p) > 0
    ensures var w := Trace(v, ms);
            Visited(w, read, p) && forall b :: b in w.index && b <= p < b + w.index[b].size ==> b in Live(w, read)
  {
    hide Enabled;
    var w := Trace(v, ms);
    PinsAddUp(v, ms, p);
    TraceKeepsInvariant(v, ms);
    hide Invariant, Trace;
    VisitedHoldsOn(w, read);
    forall b | b in w.index && b <= p < b + w.index[b].size ensures b in Live(w, read) {
      VisitedIsAlive(w, read, p, b);
    }
  }

  /** A registered root holds until it is taken back: slot and contents are visited. */
  lemma RootHolds(v: View, slot: nat, ms: seq<Micro>, read: Memory)
    requires Invariant(v) && EnabledTrace(v, [Do(BaseOp.RegisterRoot(slot))] + ms)
    requires Do(BaseOp.UnregisterRoot(slot)) !in ms
    ensures var w := Trace(v, [Do(BaseOp.RegisterRoot(slot))] + ms);
            && w.tracing && Visited(w, read, slot) && Visited(w, read, read(slot))
            && forall b :: b in w.index && b <= read(slot) < b + w.index[b].size ==> b in Live(w, read)
  {
    hide Enabled;
    var all := [Do(BaseOp.RegisterRoot(slot))] + ms;
    var w := Trace(v, all);
    TraceAppend(v, [Do(BaseOp.RegisterRoot(slot))], ms);
    TraceOne(v, Do(BaseOp.RegisterRoot(slot)));
    RootStays(BaseStep(v, BaseOp.RegisterRoot(slot)), slot, ms);
    TraceKeepsInvariant(v, all);
    hide Invariant, Trace;
    VisitedHoldsOn(w, read);
    forall b | b in w.index && b <= read(slot) < b + w.index[b].size ensures b in Live(w, read) {
      VisitedIsAlive(w, read, read(slot), b);
    }
  }

  lemma {:induction false} RootStays(v: View, slot: nat, ms: seq<Micro>)
    requires slot in v.roots && v.tracing && Do(BaseOp.UnregisterRoot(slot)) !in ms
    ensures slot in Trace(v, ms).roots && Trace(v, ms).tracing
  {
    if ms != [] {
      var front := ms[..|ms| - 1];
      assert forall m :: m in front ==> m in ms;
      RootStays(v, slot, front);
      MicroRoots(Trace(v, front), slot, ms[|ms| - 1]);
    }
  }

  lemma MicroRoots(v: View, slot: nat, m: Micro)
    requires slot in v.roots && v.tracing && m != Do(BaseOp.UnregisterRoot(slot))
    ensures slot in MicroStep(v, m).roots && MicroStep(v, m).tracing
  {
    hide AllocStep, ResetCore, ReplaceReferenceStep, ReplaceEdgeStep, RemoveEdgeStep, AddHook;
    if m.Do? {
      if IsEdgeOp(m.op) {
        EdgeOpFrame(v, m.op);
        hide BaseStep;
      } else if m.op.Alloc? {
        AllocFrame(v, m.op.size, m.op.answer);
      }
    } else if m.Core? {
      CoreFrame(v, m.read);
    }
  }

  /** A registered hook is called by every later reset, each kind by its own list. */
  lemma HookIsCalled(v: View, hook: nat, ms: seq<Micro>, read: Memory, scripts: Scripts)
    requires !v.active && !Trace(v, ms).active && Distinct(Trace(v, ms).hooks) && Distinct(Trace(v, ms).metadataHooks)
    ensures Do(BaseOp.RegisterHook(hook)) in ms ==> ReleaseCall(hook) in ResetEvents(Trace(v, ms), read, scripts)
    ensures Do(BaseOp.RegisterMetadataHook(hook)) in ms ==>
              MetadataCall(hook) in ResetEvents(Trace(v, ms), read, scripts)
  {
    HookStays(v, hook, ms);
    HooksRunOnceInOrder(Trace(v, ms), read, scripts);
  }

  lemma {:induction false} HookStays(v: View, hook: nat, ms: seq<Micro>)
    ensures hook in v.hooks || Do(BaseOp.RegisterHook(hook)) in ms ==> hook in Trace(v, ms).hooks
    ensures hook in v.metadataHooks || Do(BaseOp.RegisterMetadataHook(hook)) in ms ==>
              hook in Trace(v, ms).metadataHooks
  {
    if ms != [] {
      var front, last := ms[..|ms| - 1], ms[|ms| - 1];
      assert forall m :: m in ms <==> m in front || m == last;
      HookStays(v, hook, front);
      MicroHook(Trace(v, front), hook, last);
      MicroMetadataHook(Trace(v, front), hook, last);
    }
  }

  lemma HookAdded(hooks: seq<nat>, added: nat, h: nat)
    ensures h in hooks || h == added ==> h in AddHook(hooks, added)
  {
  }

  lemma MicroHook(v: View, hook: nat, m: Micro)
    ensures hook in v.hooks || m == Do(BaseOp.RegisterHook(hook)) ==> hook in MicroStep(v, m).hooks
  {
    hide AllocStep, ResetCore, ReplaceReferenceStep, ReplaceEdgeStep, RemoveEdgeStep, AddHook;
    if m.Do? {
      if IsEdgeOp(m.op) {
        EdgeOpFrame(v, m.op);
        hide BaseStep;
      } else if m.op.Alloc? {
        AllocFrame(v, m.op.size, m.op.answer);
      } else if m.op.RegisterHook? {
        HookAdded(v.hooks, m.op.hook, hook);
      }
    } else if m.Core? {
      CoreFrame(v, m.read);
    }
  }

  lemma MicroMetadataHook(v: View, hook: nat, m: Micro)
    ensures hook in v.metadataHooks || m == Do(BaseOp.RegisterMetadataHook(hook)) ==>
              hook in MicroStep(v, m).metadataHooks
  {
    hide AllocStep, ResetCore, ReplaceReferenceStep, ReplaceEdgeStep, RemoveEdgeStep, AddHook;
    if m.Do? {
      if IsEdgeOp(m.op) {
        EdgeOpFrame(v, m.op);
        hide BaseStep;
      } else if m.op.Alloc? {
        AllocFrame(v, m.op.size, m.op.answer);
      } else if m.op.RegisterMetadataHook? {
        HookAdded(v.metadataHooks, m.op.hook, hook);
      }
    } else if m.Core? {
      CoreFrame(v, m.read);
    }
  }
}
