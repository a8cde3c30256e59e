/**
 The hybrid allocation index: an ordered map of settled records plus an unsorted list of
 pending ones.  Every way the arena consults it (the short scan, the flush, the sorted and
 deduplicated list inside a reset) is shown to answer like the single map `Fold` obtained by
 inserting the allocation events one after the other.
 */
module ArenaIndex {
  import opened Wrappers
  import opened ArenaModel

  const PENDING_SCAN_LIMIT: nat := 32

  datatype Pending = Pending(base: nat, size: nat, serial: nat) {
    function IntoRecord(generation: nat): AllocRecord { AllocRecord(size, generation, serial) }
  }

  /** The reference: one map insert per allocation event, oldest first. */
  function Fold(t: Table, ps: seq<Pending>, g: nat): Table {
    if ps == [] then t
    else
      var last := ps[|ps| - 1];
      Fold(t, ps[..|ps| - 1], g)[last.base := last.IntoRecord(g)]
  }

  /** The newest pending event of each base. */
  function Newest(ps: seq<Pending>): map<nat, Pending> {
    if ps == [] then map[]
    else
      var last := ps[|ps| - 1];
      Newest(ps[..|ps| - 1])[last.base := last]
  }

  lemma {:induction false} NewestSource(ps: seq<Pending>, b: nat) returns (i: nat)
    requires b in Newest(ps)
    ensures i < |ps| && ps[i] == Newest(ps)[b] && ps[i].base == b
  {
    if ps[|ps| - 1].base == b {
      i := |ps| - 1;
    } else {
      i := NewestSource(ps[..|ps| - 1], b);
    }
  }

  lemma {:induction false} NewestHas(ps: seq<Pending>, i: nat)
    requires i < |ps|
    ensures ps[i].base in Newest(ps)
  {
    if i < |ps| - 1 {
      NewestHas(ps[..|ps| - 1], i);
    }
  }

  function Stamp(m: map<nat, Pending>, g: nat): Table { map b | b in m :: m[b].IntoRecord(g) }

  lemma {:induction false} FoldIsOverlay(t: Table, ps: seq<Pending>, g: nat)
    ensures Fold(t, ps, g) == t + Stamp(Newest(ps), g)
  {
    if ps != [] {
      FoldIsOverlay(t, ps[..|ps| - 1], g);
    }
  }

  /** Flushing is folding: nothing observable moves when it happens early. */
  lemma {:induction false} FoldSplit(t: Table, a: seq<Pending>, b: seq<Pending>, g: nat)
    ensures Fold(Fold(t, a, g), b, g) == Fold(t, a + b, g)
  {
    if b == [] {
      assert a + b == a;
    } else {
      FoldSplit(t, a, b[..|b| - 1], g);
      assert (a + b)[..|a + b| - 1] == a + b[..|b| - 1];
    }
  }

  lemma {:induction false} NewestAppend(a: seq<Pending>, b: seq<Pending>)
    ensures Newest(a + b) == Newest(a) + Newest(b)
  {
    if b == [] {
      assert a + b == a;
    } else {
      var front, last := b[..|b| - 1], b[|b| - 1];
      NewestAppend(a, front);
      assert (a + b)[..|a + b| - 1] == a + front;
      assert (a + b)[|a + b| - 1] == last;
      assert Newest(a + b) == (Newest(a) + Newest(front))[last.base := last];
      assert Newest(b) == Newest(front)[last.base := last];
    }
  }

  // ---- the unsorted scan of `locate_allocation` ---------------------------------------

  /** A short, unsorted pending list: the newest allocation with the greatest base wins. */
  function Scan(ps: seq<Pending>, p: nat): Option<Pending> {
    if ps == [] then None
    else
      var best := Scan(ps[..|ps| - 1], p);
      var r := ps[|ps| - 1];
      if r.base > p then best
      else if best.Some? && best.value.base > r.base then best
      else Some(r)
  }

  lemma {:induction false} ScanFindsNewest(ps: seq<Pending>, p: nat)
    ensures Scan(ps, p).None? ==> forall b :: b in Newest(ps) ==> p < b
    ensures Scan(ps, p).Some? ==>
              var r := Scan(ps, p).value;
              && r.base <= p && r.base in Newest(ps) && Newest(ps)[r.base] == r
              && forall b :: b in Newest(ps) && b <= p ==> b <= r.base
  {
    if ps != [] {
      ScanFindsNewest(ps[..|ps| - 1], p);
    }
  }

  // ---- choosing between the pending list and the table --------------------------------

  /** The merge step shared by both lookups: a pending record wins a tie, being newer. */
  function Choose(fromPending: Option<Pending>, t: Table, g: nat, p: nat): Option<(nat, AllocRecord)> {
    var fromTable := Nearest(t, p);
    if fromPending.Some? && (fromTable.None? || fromPending.value.base >= fromTable.value) then
      Some((fromPending.value.base, fromPending.value.IntoRecord(g)))
    else if fromTable.Some? then Some((fromTable.value, t[fromTable.value]))
    else None
  }

  ghost predicate AnswersLike(r: Option<(nat, AllocRecord)>, t: Table, p: nat) {
    match Nearest(t, p)
    case None => r == None
    case Some(b) => r == Some((b, t[b]))
  }

  lemma NearestUnique(t: Table, p: nat, b: nat)
    requires IsNearest(t, p, b)
    ensures Nearest(t, p) == Some(b)
  {
  }

  lemma ChooseAnswers(fromPending: Option<Pending>, m: map<nat, Pending>, t: Table, g: nat, p: nat)
    requires fromPending.None? ==> forall b :: b in m ==> p < b
    requires fromPending.Some? ==>
               var r := fromPending.value;
               && r.base <= p && r.base in m && m[r.base] == r
               && forall b :: b in m && b <= p ==> b <= r.base
    ensures AnswersLike(Choose(fromPending, t, g, p), t + Stamp(m, g), p)
  {
    var all := t + Stamp(m, g);
    var r := Choose(fromPending, t, g, p);
    if r.Some? {
      assert IsNearest(all, p, r.value.0);
      NearestUnique(all, p, r.value.0);
    } else {
      assert forall b :: b in all ==> p < b;
    }
  }

  /** The scan of `locate_allocation` answers like the single map, generation stamp included. */
  lemma ScanAnswers(t: Table, ps: seq<Pending>, g: nat, p: nat)
    ensures AnswersLike(Choose(Scan(ps, p), t, g, p), Fold(t, ps, g), p)
  {
    ScanFindsNewest(ps, p);
    FoldIsOverlay(t, ps, g);
    ChooseAnswers(Scan(ps, p), Newest(ps), t, g, p);
  }

  // ---- the sorted, deduplicated list of a reset ---------------------------------------

  ghost predicate Ascending(ps: seq<Pending>) {
    forall i, j :: 0 <= i < j < |ps| ==> ps[i].base <= ps[j].base
  }

  ghost predicate StrictlyAscending(ps: seq<Pending>) {
    forall i, j :: 0 <= i < j < |ps| ==> ps[i].base < ps[j].base
  }

  /** One step of the stable sort: `r` goes after every record whose base is not greater. */
  function Insert(ps: seq<Pending>, r: Pending): seq<Pending> {
    if ps == [] || ps[|ps| - 1].base <= r.base then ps + [r]
    else Insert(ps[..|ps| - 1], r) + [ps[|ps| - 1]]
  }

  function StableSort(ps: seq<Pending>): seq<Pending> {
    if ps == [] then [] else Insert(StableSort(ps[..|ps| - 1]), ps[|ps| - 1])
  }

  /** A repeated base keeps the newest record. */
  function Dedup(ps: seq<Pending>): seq<Pending> {
    if |ps| < 2 then ps
    else if ps[0].base == ps[1].base then Dedup(ps[1..])
    else [ps[0]] + Dedup(ps[1..])
  }

  lemma {:induction false} InsertAscends(ps: seq<Pending>, r: Pending)
    requires Ascending(ps)
    ensures Ascending(Insert(ps, r)) && |Insert(ps, r)| == |ps| + 1
    ensures Insert(ps, r)[|ps|].base ==
            if ps == [] then r.base else Max(ps[|ps| - 1].base, r.base)
  {
    if ps != [] && ps[|ps| - 1].base > r.base {
      InsertAscends(ps[..|ps| - 1], r);
    }
  }

  lemma {:induction false} InsertNewest(ps: seq<Pending>, r: Pending)
    ensures Newest(Insert(ps, r)) == Newest(ps)[r.base := r]
  {
    if ps == [] || ps[|ps| - 1].base <= r.base {
      assert (ps + [r])[..|ps|] == ps;
    } else {
      var front, last := ps[..|ps| - 1], ps[|ps| - 1];
      InsertNewest(front, r);
      var s := Insert(front, r);
      assert (s + [last])[..|s|] == s;
      assert Newest(s + [last]) == Newest(front)[r.base := r][last.base := last];
    }
  }

  lemma {:induction false} StableSortKeeps(ps: seq<Pending>)
    ensures Ascending(StableSort(ps))
    ensures Newest(StableSort(ps)) == Newest(ps)
  {
    if ps != [] {
      var front, last := ps[..|ps| - 1], ps[|ps| - 1];
      StableSortKeeps(front);
      InsertAscends(StableSort(front), last);
      InsertNewest(StableSort(front), last);
    }
  }

  lemma {:induction false} DedupAscends(ps: seq<Pending>)
    requires Ascending(ps)
    ensures StrictlyAscending(Dedup(ps))
    ensures ps != [] ==> Dedup(ps) != [] && Dedup(ps)[0].base == ps[0].base
  {
    if |ps| >= 2 {
      DedupAscends(ps[1..]);
    }
  }

  lemma {:induction false} DedupNewest(ps: seq<Pending>)
    ensures Newest(Dedup(ps)) == Newest(ps)
  {
    if |ps| >= 2 {
      var head, rest := [ps[0]], ps[1..];
      DedupNewest(rest);
      assert ps == head + rest;
      NewestAppend(head, rest);
      NewestAppend(head, Dedup(rest));
      assert Newest(head) == map[ps[0].base := ps[0]];
      NewestHas(rest, 0);
    }
  }

  /** What a reset consults instead of the pending list: each base once, in order. */
  function Settle(ps: seq<Pending>): seq<Pending> { Dedup(StableSort(ps)) }

  lemma SettleKeeps(ps: seq<Pending>)
    ensures StrictlyAscending(Settle(ps))
    ensures Newest(Settle(ps)) == Newest(ps)
  {
    StableSortKeeps(ps);
    DedupAscends(StableSort(ps));
    DedupNewest(StableSort(ps));
  }

  /** In a strictly ascending list every record is the newest of its base. */
  lemma {:induction false} NewestOfAscending(ps: seq<Pending>, i: nat)
    requires StrictlyAscending(ps) && i < |ps|
    ensures ps[i].base in Newest(ps) && Newest(ps)[ps[i].base] == ps[i]
  {
    if i < |ps| - 1 {
      NewestOfAscending(ps[..|ps| - 1], i);
    }
  }

  /** The number of leading records with base `<= p` (`partition_point`). */
  function PartitionPoint(ps: seq<Pending>, p: nat): (n: nat)
    ensures n <= |ps|
    ensures forall i :: 0 <= i < n ==> ps[i].base <= p
    ensures n < |ps| ==> p < ps[n].base
  {
    if ps == [] || ps[0].base > p then 0 else 1 + PartitionPoint(ps[1..], p)
  }

  /** `nearest_allocation`: `recent` must be sorted by base. */
  function NearestAllocation(t: Table, recent: seq<Pending>, g: nat, p: nat): Option<(nat, AllocRecord)> {
    var n := PartitionPoint(recent, p);
    Choose(if n == 0 then None else Some(recent[n - 1]), t, g, p)
  }

  lemma NearestAnswers(t: Table, recent: seq<Pending>, g: nat, p: nat)
    requires StrictlyAscending(recent)
    ensures AnswersLike(NearestAllocation(t, recent, g, p), Fold(t, recent, g), p)
  {
    var n := PartitionPoint(recent, p);
    FoldIsOverlay(t, recent, g);
    if n > 0 {
      NewestOfAscending(recent, n - 1);
    }
    forall b | b in Newest(recent) && b <= p ensures n > 0 && b <= recent[n - 1].base {
      var i := NewestSource(recent, b);
    }
    ChooseAnswers(if n == 0 then None else Some(recent[n - 1]), Newest(recent), t, g, p);
  }

  /** The lookup inside a reset answers like the single map of all events. */
  lemma SettledLookupAnswers(t: Table, ps: seq<Pending>, g: nat, p: nat)
    ensures AnswersLike(NearestAllocation(t, Settle(ps), g, p), Fold(t, ps, g), p)
  {
    SettleKeeps(ps);
    NearestAnswers(t, Settle(ps), g, p);
    FoldIsOverlay(t, ps, g);
    FoldIsOverlay(t, Settle(ps), g);
  }
}
