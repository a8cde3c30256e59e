/**
 The sweep of a traced reset: the sorted merge of settled and recent records into survivors
 and reclaimed ranges, the renumbering of kept bump generations, and the range lookup of
 `was_reclaimed`.
 */
module ArenaSweep {
  import opened Wrappers
  import opened Ordering
  import opened ArenaModel
  import opened ArenaIndex

  ghost predicate RangesAscend(ranges: seq<(nat, nat)>) {
    forall i, j :: 0 <= i < j < |ranges| ==> ranges[i].0 < ranges[j].0
  }

  function RangeSet(ranges: seq<(nat, nat)>): set<(nat, nat)> { set r | r in ranges }

  /** The records of `all` with base below `limit`, split by `live`. */
  ghost predicate Split(all: Table, live: set<nat>, limit: nat, survivors: Table, ranges: seq<(nat, nat)>) {
    && (forall b :: b in survivors <==> b in all && b < limit && b in live)
    && (forall b :: b in survivors ==> survivors[b] == all[b])
    && (forall k :: 0 <= k < |ranges| ==> DeadRange(all, live, ranges[k]) && ranges[k].0 < limit)
    && (forall b :: b in all && b < limit && b !in live ==> (b, b + all[b].size) in ranges)
    && RangesAscend(ranges)
  }

  ghost predicate DeadRange(all: Table, live: set<nat>, r: (nat, nat)) {
    r.0 in all && r.0 !in live && r.1 == r.0 + all[r.0].size
  }

  /** A live record joins the table, a dead one leaves its range. */
  function Place(live: set<nat>, b: nat, r: AllocRecord, survivors: Table,
                 ranges: seq<(nat, nat)>): (Table, seq<(nat, nat)>) {
    if b in live then (survivors[b := r], ranges) else (survivors, ranges + [(b, b + r.size)])
  }

  lemma SplitTakes(all: Table, live: set<nat>, limit: nat, survivors: Table, ranges: seq<(nat, nat)>, b: nat)
    requires Split(all, live, limit, survivors, ranges)
    requires b in all && limit <= b && forall x :: x in all ==> x < limit || b <= x
    ensures var placed := Place(live, b, all[b], survivors, ranges);
            Split(all, live, b + 1, placed.0, placed.1)
  {
    assert forall x :: x in all && x < b + 1 ==> x < limit || x == b;
    if b !in live {
      var more := ranges + [(b, b + all[b].size)];
      assert forall x :: x in ranges ==> x in more;
      assert more[|ranges|] in more;
    }
  }

  lemma FoldLooksUp(table: Table, recent: seq<Pending>, g: nat)
    requires StrictlyAscending(recent)
    ensures forall j :: 0 <= j < |recent| ==>
              recent[j].base in Fold(table, recent, g)
              && Fold(table, recent, g)[recent[j].base] == recent[j].IntoRecord(g)
    ensures forall b :: b in table && (forall j :: 0 <= j < |recent| ==> recent[j].base != b) ==>
              b in Fold(table, recent, g) && Fold(table, recent, g)[b] == table[b]
    ensures forall b :: b in Fold(table, recent, g) ==>
              b in table || exists j :: 0 <= j < |recent| && recent[j].base == b
  {
    FoldIsOverlay(table, recent, g);
    forall j | 0 <= j < |recent|
      ensures recent[j].base in Newest(recent) && Newest(recent)[recent[j].base] == recent[j]
    {
      NewestOfAscending(recent, j);
    }
    forall b | b in Newest(recent) ensures exists j :: 0 <= j < |recent| && recent[j].base == b {
      var j := NewestSource(recent, b);
    }
  }

  /** Where the merge stands: `limit` separates what is taken from what is ahead. */
  ghost predicate Cursor(keys: seq<nat>, recent: seq<Pending>, i: nat, j: nat, limit: nat)
    requires i <= |keys| && j <= |recent|
  {
    && (forall k :: 0 <= k < i ==> keys[k] < limit || (j < |recent| && keys[k] == recent[j].base))
    && (forall k :: i <= k < |keys| ==> limit <= keys[k])
    && (forall k :: 0 <= k < j ==> recent[k].base < limit)
    && (forall k :: j <= k < |recent| ==> limit <= recent[k].base)
  }

  ghost predicate KeysOf(table: Table, keys: seq<nat>) {
    && (forall x :: x in keys <==> x in table)
    && forall a, b :: 0 <= a < b < |keys| ==> keys[a] < keys[b]
  }

  lemma CursorTakes(table: Table, keys: seq<nat>, recent: seq<Pending>, i: nat, j: nat, g: nat, limit: nat, b: nat)
    requires StrictlyAscending(recent) && KeysOf(table, keys) && i <= |keys| && j <= |recent|
    requires Cursor(keys, recent, i, j, limit)
    requires i < |keys| ==> b <= keys[i]
    requires j < |recent| ==> b <= recent[j].base
    ensures forall x :: x in Fold(table, recent, g) ==> x < limit || b <= x
  {
    FoldLooksUp(table, recent, g);
    forall x | x in Fold(table, recent, g) ensures x < limit || b <= x {
      if x in table {
        var k :| 0 <= k < |keys| && keys[k] == x;
        if i <= k {
          assert keys[i] <= keys[k];
        }
      } else {
        var k :| 0 <= k < |recent| && recent[k].base == x;
        if j <= k {
          assert recent[j].base <= recent[k].base;
        }
      }
    }
  }

  lemma TakesTable(table: Table, keys: seq<nat>, recent: seq<Pending>, i: nat, j: nat, g: nat, limit: nat)
    requires StrictlyAscending(recent) && KeysOf(table, keys) && i < |keys| && j <= |recent|
    requires Cursor(keys, recent, i, j, limit)
    requires j < |recent| ==> keys[i] < recent[j].base
    ensures var b := keys[i];
            && b in table && limit <= b
            && b in Fold(table, recent, g) && Fold(table, recent, g)[b] == table[b]
            && (forall x :: x in Fold(table, recent, g) ==> x < limit || b <= x)
            && Cursor(keys, recent, i + 1, j, b + 1)
  {
    FoldLooksUp(table, recent, g);
    CursorTakes(table, keys, recent, i, j, g, limit, keys[i]);
    forall k | j <= k < |recent| ensures keys[i] < recent[k].base {
      assert recent[j].base <= recent[k].base;
    }
    forall k | i < k < |keys| ensures keys[i] < keys[k] {
    }
    assert keys[i] in keys;
  }

  lemma TakesRecent(table: Table, keys: seq<nat>, recent: seq<Pending>, i: nat, j: nat, g: nat, limit: nat)
    requires StrictlyAscending(recent) && KeysOf(table, keys) && i <= |keys| && j < |recent|
    requires Cursor(keys, recent, i, j, limit)
    requires i < |keys| ==> recent[j].base < keys[i]
    ensures var b := recent[j].base;
            && limit <= b
            && b in Fold(table, recent, g) && Fold(table, recent, g)[b] == recent[j].IntoRecord(g)
            && (forall x :: x in Fold(table, recent, g) ==> x < limit || b <= x)
            && Cursor(keys, recent, i, j + 1, b + 1)
  {
    FoldLooksUp(table, recent, g);
    CursorTakes(table, keys, recent, i, j, g, limit, recent[j].base);
    forall k | i <= k < |keys| ensures recent[j].base < keys[k] {
      assert keys[i] <= keys[k];
    }
  }

  lemma Skips(table: Table, keys: seq<nat>, recent: seq<Pending>, i: nat, j: nat, limit: nat)
    requires i < |keys| && j < |recent| && keys[i] == recent[j].base
    requires Cursor(keys, recent, i, j, limit)
    ensures Cursor(keys, recent, i + 1, j, limit)
  {
  }

  ghost predicate Merging(table: Table, keys: seq<nat>, recent: seq<Pending>, g: nat, live: set<nat>,
                          i: nat, j: nat, limit: nat, survivors: Table, ranges: seq<(nat, nat)>) {
    && StrictlyAscending(recent) && KeysOf(table, keys) && i <= |keys| && j <= |recent|
    && Cursor(keys, recent, i, j, limit)
    && Split(Fold(table, recent, g), live, limit, survivors, ranges)
  }

  lemma MergeSkips(table: Table, keys: seq<nat>, recent: seq<Pending>, g: nat, live: set<nat>,
                   i: nat, j: nat, limit: nat, survivors: Table, ranges: seq<(nat, nat)>)
    requires Merging(table, keys, recent, g, live, i, j, limit, survivors, ranges)
    requires i < |keys| && j < |recent| && keys[i] == recent[j].base
    ensures Merging(table, keys, recent, g, live, i + 1, j, limit, survivors, ranges)
  {
    hide Cursor, Split, Fold, KeysOf, StrictlyAscending;
    Skips(table, keys, recent, i, j, limit);
  }

  lemma MergeTakesTable(table: Table, keys: seq<nat>, recent: seq<Pending>, g: nat, live: set<nat>,
                        i: nat, j: nat, limit: nat, survivors: Table, ranges: seq<(nat, nat)>)
    requires Merging(table, keys, recent, g, live, i, j, limit, survivors, ranges)
    requires i < |keys| && (j < |recent| ==> keys[i] < recent[j].base)
    ensures keys[i] in table
    ensures var placed := Place(live, keys[i], table[keys[i]], survivors, ranges);
            Merging(table, keys, recent, g, live, i + 1, j, keys[i] + 1, placed.0, placed.1)
  {
    TakesTable(table, keys, recent, i, j, g, limit);
    SplitTakes(Fold(table, recent, g), live, limit, survivors, ranges, keys[i]);
  }

  lemma MergeTakesRecent(table: Table, keys: seq<nat>, recent: seq<Pending>, g: nat, live: set<nat>,
                         i: nat, j: nat, limit: nat, survivors: Table, ranges: seq<(nat, nat)>)
    requires Merging(table, keys, recent, g, live, i, j, limit, survivors, ranges)
    requires j < |recent| && (i < |keys| ==> recent[j].base < keys[i])
    ensures var placed := Place(live, recent[j].base, recent[j].IntoRecord(g), survivors, ranges);
            Merging(table, keys, recent, g, live, i, j + 1, recent[j].base + 1, placed.0, placed.1)
  {
    TakesRecent(table, keys, recent, i, j, g, limit);
    SplitTakes(Fold(table, recent, g), live, limit, survivors, ranges, recent[j].base);
  }

  method KeysInOrder(table: Table) returns (keys: seq<nat>)
    ensures KeysOf(table, keys)
  {
    keys := Sorted(table.Keys);
  }

  /** Every record, settled and recent, in base order: live ones form the new table, dead ones
      the reclaimed ranges.  A recent record replaces a settled one with the same base. */
  method Merge(table: Table, recent: seq<Pending>, g: nat, live: set<nat>)
    returns (survivors: Table, ranges: seq<(nat, nat)>)
    requires StrictlyAscending(recent)
    ensures survivors == LiveRecords(Fold(table, recent, g), live)
    ensures RangesAscend(ranges) && RangeSet(ranges) == DeadRanges(Fold(table, recent, g), live)
  {
    hide KeysOf;
    var keys := KeysInOrder(table);
    var i: nat, j: nat := 0, 0;
    ghost var limit: nat := 0;
    survivors, ranges := map[], [];
    MergeStarts(table, keys, recent, g, live);
    hide Merging, Fold, Place, RangesAscend, RangeSet, DeadRanges, LiveRecords, StrictlyAscending;
    while i < |keys| || j < |recent|
      invariant i <= |keys| && j <= |recent|
      invariant Merging(table, keys, recent, g, live, i, j, limit, survivors, ranges)
      decreases |keys| + |recent| - i - j
    {
      if i < |keys| && j < |recent| && keys[i] == recent[j].base {
        MergeSkips(table, keys, recent, g, live, i, j, limit, survivors, ranges);
        i := i + 1;
      } else if j == |recent| || (i < |keys| && keys[i] < recent[j].base) {
        MergeTakesTable(table, keys, recent, g, live, i, j, limit, survivors, ranges);
        var base: nat := keys[i];
        var placed := Place(live, base, table[base], survivors, ranges);
        survivors, ranges, i := placed.0, placed.1, i + 1;
        limit := base + 1;
      } else {
        MergeTakesRecent(table, keys, recent, g, live, i, j, limit, survivors, ranges);
        var placed := Place(live, recent[j].base, recent[j].IntoRecord(g), survivors, ranges);
        limit := recent[j].base + 1;
        survivors, ranges, j := placed.0, placed.1, j + 1;
      }
    }
    MergeEnds(table, keys, recent, g, live, limit, survivors, ranges);
  }

  lemma MergeStarts(table: Table, keys: seq<nat>, recent: seq<Pending>, g: nat, live: set<nat>)
    requires StrictlyAscending(recent) && KeysOf(table, keys)
    ensures Merging(table, keys, recent, g, live, 0, 0, 0, map[], [])
  {
    assert Merging(table, keys, recent, g, live, 0, 0, 0, map[], []);
  }

  ghost function LiveRecords(all: Table, live: set<nat>): Table {
    map b | b in all && b in live :: all[b]
  }

  lemma MergeEnds(table: Table, keys: seq<nat>, recent: seq<Pending>, g: nat, live: set<nat>,
                  limit: nat, survivors: Table, ranges: seq<(nat, nat)>)
    requires Merging(table, keys, recent, g, live, |keys|, |recent|, limit, survivors, ranges)
    ensures survivors == LiveRecords(Fold(table, recent, g), live)
    ensures RangesAscend(ranges) && RangeSet(ranges) == DeadRanges(Fold(table, recent, g), live)
  {
    AllTaken(table, keys, recent, g, limit);
    SplitIsWhole(Fold(table, recent, g), live, limit, survivors, ranges);
  }

  lemma AllTaken(table: Table, keys: seq<nat>, recent: seq<Pending>, g: nat, limit: nat)
    requires StrictlyAscending(recent) && KeysOf(table, keys)
    requires Cursor(keys, recent, |keys|, |recent|, limit)
    ensures forall b :: b in Fold(table, recent, g) ==> b < limit
  {
    FoldLooksUp(table, recent, g);
    forall b | b in Fold(table, recent, g) ensures b < limit {
      if b in table {
        var k :| 0 <= k < |keys| && keys[k] == b;
      }
    }
  }

  lemma SplitIsWhole(all: Table, live: set<nat>, limit: nat, survivors: Table, ranges: seq<(nat, nat)>)
    requires Split(all, live, limit, survivors, ranges)
    requires forall b :: b in all ==> b < limit
    ensures survivors == LiveRecords(all, live)
    ensures RangesAscend(ranges) && RangeSet(ranges) == DeadRanges(all, live)
  {
    hide RangesAscend, DeadRange, RangeSet, DeadRanges, LiveRecords;
    SplitSurvivors(all, live, limit, survivors, ranges);
    SplitRanges(all, live, limit, survivors, ranges);
  }

  lemma SplitSurvivors(all: Table, live: set<nat>, limit: nat, survivors: Table, ranges: seq<(nat, nat)>)
    requires Split(all, live, limit, survivors, ranges)
    requires forall b :: b in all ==> b < limit
    ensures survivors == LiveRecords(all, live)
  {
    hide RangesAscend, DeadRange;
  }

  lemma SplitRanges(all: Table, live: set<nat>, limit: nat, survivors: Table, ranges: seq<(nat, nat)>)
    requires Split(all, live, limit, survivors, ranges)
    requires forall b :: b in all ==> b < limit
    ensures RangeSet(ranges) == DeadRanges(all, live)
  {
    hide RangesAscend;
    forall r | r in RangeSet(ranges) ensures r in DeadRanges(all, live) {
      var k :| 0 <= k < |ranges| && ranges[k] == r;
      assert DeadRange(all, live, ranges[k]);
    }
    forall r | r in DeadRanges(all, live) ensures r in RangeSet(ranges) {
      var b :| b in all && b !in live && r == (b, b + all[b].size);
    }
  }

  // ---- generations --------------------------------------------------------------------

  lemma {:induction false} RankGrows(keep: set<nat>, g: nat, h: nat)
    requires g < h
    ensures Rank(keep, g) + (if g in keep then 1 else 0) <= Rank(keep, h)
    decreases h
  {
    if g < h - 1 {
      RankGrows(keep, g, h - 1);
    }
  }

  /** A kept generation's number indexes the bump it had before. */
  lemma {:induction false} KeptAt(bumps: seq<set<nat>>, keep: set<nat>, n: nat, g: nat)
    requires g < n <= |bumps| && g in keep
    ensures Rank(keep, g) < Rank(keep, n)
    ensures Kept(bumps, keep, n)[Rank(keep, g)] == bumps[g]
    decreases n
  {
    RankGrows(keep, g, n);
    if g < n - 1 {
      KeptAt(bumps, keep, n - 1, g);
    }
  }

  /** Every kept position comes from a kept generation. */
  lemma {:induction false} KeptFrom(bumps: seq<set<nat>>, keep: set<nat>, n: nat, i: nat) returns (g: nat)
    requires n <= |bumps| && i < Rank(keep, n)
    ensures g < n && g in keep && Rank(keep, g) == i && Kept(bumps, keep, n)[i] == bumps[g]
    decreases n
  {
    if n - 1 in keep && i == Rank(keep, n - 1) {
      g := n - 1;
    } else {
      g := KeptFrom(bumps, keep, n - 1, i);
    }
  }

  /** `retain` over the bumps, recording the new number of every kept generation. */
  method Compact(bumps: seq<set<nat>>, generations: set<nat>) returns (kept: seq<set<nat>>, mapping: map<nat, nat>)
    ensures kept == Kept(bumps, generations, |bumps|)
    ensures forall g :: g in mapping <==> g in generations && g < |bumps|
    ensures forall g :: g in mapping ==> mapping[g] == Rank(generations, g)
  {
    kept, mapping := [], map[];
    var index := 0;
    for oldIndex := 0 to |bumps|
      invariant index == |kept| && kept == Kept(bumps, generations, oldIndex)
      invariant forall g :: g in mapping <==> g in generations && g < oldIndex
      invariant forall g :: g in mapping ==> mapping[g] == Rank(generations, g)
    {
      if oldIndex in generations {
        mapping := mapping[oldIndex := index];
        index := index + 1;
        kept := kept + [bumps[oldIndex]];
      }
    }
  }

  lemma {:induction false} KeptPrefix(a: seq<set<nat>>, b: seq<set<nat>>, keep: set<nat>, n: nat)
    requires n <= |a| && n <= |b| && a[..n] == b[..n]
    ensures Kept(a, keep, n) == Kept(b, keep, n)
  {
    if n > 0 {
      assert a[n - 1] == a[..n][n - 1] && b[n - 1] == b[..n][n - 1];
      assert a[..n - 1] == a[..n][..n - 1] && b[..n - 1] == b[..n][..n - 1];
      KeptPrefix(a, b, keep, n - 1);
    }
  }

  /** Pushing the current bump only when it is kept, and then dropping unkept ones, keeps the
      same bumps as filtering all of them. */
  lemma KeptAll(v: View, keep: set<nat>)
    ensures Kept(Bumps(v), keep, |Bumps(v)|) ==
            if |v.retained| in keep then Kept(v.retained + [v.current], keep, |v.retained| + 1)
            else Kept(v.retained, keep, |v.retained|)
  {
    if |v.retained| !in keep {
      assert Bumps(v)[..|v.retained|] == v.retained[..|v.retained|];
      KeptPrefix(Bumps(v), v.retained, keep, |v.retained|);
    }
  }

  // ---- what the sweep asks the index --------------------------------------------------

  /** The generation recorded for each live start, looked up in the hybrid index. */
  function LiveGenerations(table: Table, recent: seq<Pending>, g: nat, live: set<nat>): set<nat> {
    set b | b in live && NearestAllocation(table, recent, g, b).Some? ::
      NearestAllocation(table, recent, g, b).value.1.generation
  }

  /** Whether a side edge's owner still is a byte of the live incarnation it was stored for. */
  predicate EdgeKept(table: Table, recent: seq<Pending>, g: nat, live: set<nat>, k: EdgeKey) {
    && k.0.base in live
    && var found := NearestAllocation(table, recent, g, k.0.base);
       && found.Some? && found.value.0 == k.0.base && found.value.1.serial == k.0.serial
       && k.1 >= k.0.base && k.1 - k.0.base < found.value.1.size
  }

  lemma NearestOfBase(table: Table, recent: seq<Pending>, g: nat, b: nat)
    requires StrictlyAscending(recent) && b in Fold(table, recent, g)
    ensures NearestAllocation(table, recent, g, b) == Some((b, Fold(table, recent, g)[b]))
  {
    NearestAnswers(table, recent, g, b);
    NearestUnique(Fold(table, recent, g), b, b);
  }

  lemma SweepAsks(v: View, table: Table, recent: seq<Pending>, g: nat, live: set<nat>)
    requires StrictlyAscending(recent) && v.index == Fold(table, recent, g) && live <= v.index.Keys
    ensures LiveGenerations(table, recent, g, live) == Generations(v, live)
    ensures forall k :: EdgeKept(table, recent, g, live, k) <==> EdgeSurvives(v, live, k)
  {
    forall b | b in live ensures NearestAllocation(table, recent, g, b) == Some((b, v.index[b])) {
      NearestOfBase(table, recent, g, b);
    }
  }

  // ---- was_reclaimed ------------------------------------------------------------------

  /** The number of leading ranges that start at or before `p` (`partition_point`). */
  function RangesBefore(ranges: seq<(nat, nat)>, p: nat): (n: nat)
    ensures n <= |ranges|
    ensures forall i :: 0 <= i < n ==> ranges[i].0 <= p
    ensures n < |ranges| ==> p < ranges[n].0
  {
    if ranges == [] || ranges[0].0 > p then 0 else 1 + RangesBefore(ranges[1..], p)
  }

  predicate LastRangeHolds(ranges: seq<(nat, nat)>, p: nat) {
    var n := RangesBefore(ranges, p);
    n != 0 && p < ranges[n - 1].1
  }

  ghost predicate RangesApart(ranges: seq<(nat, nat)>) {
    forall i, j :: 0 <= i < j < |ranges| ==> ranges[i].0 < ranges[j].0 && ranges[i].1 <= ranges[j].0
  }

  /** With disjoint ranges the one candidate decides: the pointer is in some range or in none. */
  lemma LastRangeDecides(ranges: seq<(nat, nat)>, p: nat)
    requires RangesApart(ranges)
    ensures LastRangeHolds(ranges, p) <==> exists i :: 0 <= i < |ranges| && ranges[i].0 <= p < ranges[i].1
  {
  }
}
