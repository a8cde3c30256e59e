/**
 What every operation of the arena keeps: each record's bytes lie in the bump its generation
 names, bumps are disjoint, recorded extents are disjoint, serials identify incarnations, and
 side edges sit inside the allocation they were stored for.
 */
module ArenaInvariant {
  import opened Wrappers
  import opened ArenaModel
  import opened ArenaSweep
  import opened ArenaHeap

  ghost predicate InBumps(v: View) {
    forall b :: b in v.index ==>
      && 1 <= b && 1 <= v.index[b].size
      && v.index[b].generation <= |v.retained|
      && Extent(b, v.index[b].size) <= Bumps(v)[v.index[b].generation]
  }

  ghost predicate BumpsApart(bumps: seq<set<nat>>) {
    forall i, j :: 0 <= i < j < |bumps| ==> bumps[i] !! bumps[j]
  }

  ghost predicate RecordsApart(t: Table) {
    forall b, c :: b in t && c in t && b < c ==> b + t[b].size <= c
  }

  ghost predicate SerialsUnique(t: Table, nextId: nat) {
    && nextId <= U64_MAX
    && (forall b :: b in t ==> t[b].serial <= nextId)
    && forall b, c :: b in t && c in t && b != c ==> t[b].serial == 0 || t[b].serial != t[c].serial
  }

  ghost predicate EdgesInside(v: View) {
    forall k :: k in v.edges ==>
      && 0 < k.0.serial <= v.nextId
      && (IsIncarnation(v.index, k.0) ==> k.0.base <= k.1 < k.0.base + v.index[k.0.base].size)
  }

  ghost predicate Invariant(v: View) {
    && InBumps(v) && BumpsApart(Bumps(v)) && RecordsApart(v.index)
    && SerialsUnique(v.index, v.nextId) && EdgesInside(v)
    && (!v.tracing ==> v.index == map[] && v.edges == map[])
  }

  /** The allocator keeps its contract, and traced sizes are at least one byte. */
  ghost predicate Enabled(v: View, op: BaseOp) {
    op.Alloc? && op.answer.Some? ==> op.size >= 1 && Fits(v, op.answer.value, op.size)
  }

  // ---- allocation ---------------------------------------------------------------------

  lemma RecordBytesUsed(v: View, b: nat, base: nat, size: nat)
    requires InBumps(v) && b in v.index && Fits(v, base, size)
    ensures Extent(b, v.index[b].size) !! Extent(base, size)
  {
    var g := v.index[b].generation;
    if g < |v.retained| {
      assert Bumps(v)[g] == v.retained[g];
    }
  }

  lemma FreshRecordApart(v: View, base: nat, size: nat)
    requires InBumps(v) && RecordsApart(v.index) && size >= 1 && Fits(v, base, size)
    ensures base !in v.index
    ensures forall b :: b in v.index ==>
              (b < base ==> b + v.index[b].size <= base) && (base < b ==> base + size <= b)
  {
    forall b | b in v.index
      ensures b != base && (b < base ==> b + v.index[b].size <= base) && (base < b ==> base + size <= b)
    {
      RecordBytesUsed(v, b, base, size);
      assert base in Extent(base, size) && b in Extent(b, v.index[b].size);
      assert base !in Extent(b, v.index[b].size) && b !in Extent(base, size);
    }
  }

  lemma AllocGrowsBumps(v: View, size: nat, base: nat)
    requires InBumps(v) && BumpsApart(Bumps(v)) && Fits(v, base, size)
    ensures var w := v.(current := v.current + Extent(base, size));
            BumpsApart(Bumps(w)) && InBumps(w)
  {
    var w := v.(current := v.current + Extent(base, size));
    forall i, j | 0 <= i < j < |Bumps(w)| ensures Bumps(w)[i] !! Bumps(w)[j] {
      assert Bumps(v)[i] !! Bumps(v)[j];
    }
    forall b | b in w.index ensures Extent(b, w.index[b].size) <= Bumps(w)[w.index[b].generation] {
      assert Extent(b, v.index[b].size) <= Bumps(v)[v.index[b].generation];
    }
  }

  lemma AllocRecords(v: View, size: nat, base: nat)
    requires Invariant(v) && v.tracing && size >= 1 && Fits(v, base, size)
    ensures var w := AllocStep(v, size, Some(base));
            InBumps(w) && RecordsApart(w.index) && SerialsUnique(w.index, w.nextId)
  {
    AllocGrowsBumps(v, size, base);
    FreshRecordApart(v, base, size);
    var w := AllocStep(v, size, Some(base));
    assert Bumps(w) == Bumps(v.(current := v.current + Extent(base, size)));
  }

  lemma AllocEdges(v: View, size: nat, base: nat)
    requires Invariant(v) && v.tracing && size >= 1 && Fits(v, base, size)
    ensures EdgesInside(AllocStep(v, size, Some(base)))
  {
    FreshRecordApart(v, base, size);
  }

  lemma AllocKeeps(v: View, size: nat, base: nat)
    requires Invariant(v) && size >= 1 && Fits(v, base, size)
    ensures Invariant(AllocStep(v, size, Some(base)))
  {
    var w := AllocStep(v, size, Some(base));
    AllocGrowsBumps(v, size, base);
    assert Bumps(w) == Bumps(v.(current := v.current + Extent(base, size)));
    if v.tracing {
      AllocRecords(v, size, base);
      AllocEdges(v, size, base);
    } else {
      assert w.index == v.index && w.edges == v.edges;
    }
  }

  /** The invariant speaks of bumps, records, serials and incarnation edges only. */
  lemma Framed(v: View, w: View)
    requires Invariant(v)
    requires w.retained == v.retained && w.current == v.current && w.index == v.index && w.nextId == v.nextId
    requires w.edges == v.edges && (v.tracing ==> w.tracing)
    ensures Invariant(w)
  {
    assert Bumps(w) == Bumps(v);
  }

  lemma EdgesKeep(v: View, op: BaseOp)
    requires Invariant(v) && (op.ReplaceEdge? || op.RemoveEdge?)
    ensures Invariant(BaseStep(v, op))
  {
    var w := BaseStep(v, op);
    if op.ReplaceEdge? && Identity(v, op.owner) == Some(op.id) {
      IdentityInside(v, op.owner);
    }
    assert Bumps(w) == Bumps(v);
    assert forall k :: k in w.edges ==> k in v.edges || (op.ReplaceEdge? && k == (op.id, op.owner));
  }

  lemma BaseKeeps(v: View, op: BaseOp)
    requires Invariant(v) && Enabled(v, op)
    ensures Invariant(BaseStep(v, op))
  {
    hide Invariant, Extent, ReplaceEdgeStep, RemoveEdgeStep;
    if op.Alloc? {
      if op.answer.Some? {
        AllocKeeps(v, op.size, op.answer.value);
      }
    } else if op.ReplaceEdge? || op.RemoveEdge? {
      EdgesKeep(v, op);
    } else {
      Framed(v, BaseStep(v, op));
    }
  }

  lemma IdentityInside(v: View, p: nat)
    requires Invariant(v) && Identity(v, p).Some?
    ensures var id := Identity(v, p).value;
            && 0 < id.serial <= v.nextId && IsIncarnation(v.index, id)
            && id.base <= p < id.base + v.index[id.base].size
  {
  }

  // ---- reset --------------------------------------------------------------------------

  /** Renumbering: a survivor's new generation indexes the bump that holds its bytes, and the
      kept bumps stay disjoint. */
  lemma CompactionKeeps(v: View, live: set<nat>)
    requires InBumps(v) && BumpsApart(Bumps(v)) && live <= v.index.Keys
    ensures var keep := Generations(v, live);
            var kept := Kept(Bumps(v), keep, |Bumps(v)|);
            && BumpsApart(kept + [{}])
            && forall b :: b in live ==>
                 var g := Rank(keep, v.index[b].generation);
                 g < |kept| && kept[g] == Bumps(v)[v.index[b].generation]
  {
    var keep := Generations(v, live);
    var n := |Bumps(v)|;
    var kept := Kept(Bumps(v), keep, n);
    forall b | b in live
      ensures var g := Rank(keep, v.index[b].generation);
              g < |kept| && kept[g] == Bumps(v)[v.index[b].generation]
    {
      KeptAt(Bumps(v), keep, n, v.index[b].generation);
    }
    forall i, j | 0 <= i < j < |kept| ensures kept[i] !! kept[j] {
      var g := KeptFrom(Bumps(v), keep, n, i);
      var h := KeptFrom(Bumps(v), keep, n, j);
      assert g < h || h < g;
    }
    var all := kept + [{}];
    forall i, j | 0 <= i < j < |all| ensures all[i] !! all[j] {
    }
  }

  lemma TracedResetKeeps(v: View, read: Memory)
    requires Invariant(v) && v.tracing
    ensures Invariant(TracedReset(v, read))
  {
    var w, live := TracedReset(v, read), Live(v, read);
    CompactionKeeps(v, live);
    forall b | b in w.index
      ensures w.index[b].generation <= |w.retained|
              && Extent(b, w.index[b].size) <= Bumps(w)[w.index[b].generation]
    {
      assert b in live;
      assert Extent(b, v.index[b].size) <= Bumps(v)[v.index[b].generation];
    }
  }

  lemma CoreKeeps(v: View, read: Memory)
    requires Invariant(v)
    ensures Invariant(ResetCore(v, read))
  {
    if v.tracing {
      TracedResetKeeps(v, read);
    } else {
      var w := ResetCore(v, read);
      forall i, j | 0 <= i < j < |Bumps(w)| ensures Bumps(w)[i] !! Bumps(w)[j] {
        assert Bumps(v)[i] !! Bumps(v)[j];
      }
    }
  }
}
