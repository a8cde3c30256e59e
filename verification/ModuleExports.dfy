/**
 Export tables.  Modules are given in emission order, so every source of a re-export comes
 earlier in the list.  The table built for each module, item by item, is compared with
 ResolveExport of section 16.2.1.6.3 of ECMA-262 (2023); both are characterised by the set of
 bindings a name leads to.
 */
module ModuleExports {
  import opened Wrappers

  /** A local binding of a module. */
  datatype Binding = Binding(owner: nat, name: string)

  datatype Item =
    | Local(exported: string, original: string)               // a declaration, or `export { a as b }`
    | From(exported: string, source: nat, original: string)   // `export { a as b } from "m"`
    | Star(source: nat)                                       // `export * from "m"`

  datatype Module = Module(locals: set<string>, items: seq<Item>)

  type Program = seq<Module>

  predicate Names(i: Item, n: string) { !i.Star? && i.exported == n }

  /** Sources come earlier. */
  ghost predicate Ordered(prog: Program) { forall m :: 0 <= m < |prog| ==> OrderedItems(prog[m].items, m) }

  ghost predicate OrderedItems(items: seq<Item>, m: nat) {
    forall i :: i in items && !i.Local? ==> i.source < m
  }

  // ---- what a name leads to -----------------------------------------------------------

  /** The explicit export of `n`, if there is one; of several, which ECMA-262 rules out as a
      syntax error, the last one counts. */
  function Explicit(items: seq<Item>, n: string): (r: Option<Item>)
    ensures r.Some? ==> r.value in items && Names(r.value, n)
    ensures r.None? ==> forall i :: i in items ==> !Names(i, n)
  {
    if items == [] then None
    else if Names(items[|items| - 1], n) then Some(items[|items| - 1])
    else Explicit(items[..|items| - 1], n)
  }

  /** Every binding `n` leads to from module `m`: its explicit export alone, or else whatever its
      star sources lead to. */
  ghost function Leads(prog: Program, m: nat, n: string): set<Binding>
    requires Ordered(prog) && m < |prog|
    decreases m, 2
  {
    LeadsFrom(prog, m, prog[m].items, n)
  }

  ghost function LeadsFrom(prog: Program, m: nat, items: seq<Item>, n: string): set<Binding>
    requires Ordered(prog) && m < |prog| && OrderedItems(items, m)
    decreases m, 1
  {
    var e := Explicit(items, n);
    if e.Some? then ExplicitLeads(prog, m, e.value)
    else if n == "default" then {}
    else set i, b | i in items && i.Star? && b in Leads(prog, i.source, n) :: b
  }

  ghost function ExplicitLeads(prog: Program, m: nat, i: Item): set<Binding>
    requires Ordered(prog) && m < |prog| && !i.Star? && (i.From? ==> i.source < m)
    decreases m, 0
  {
    if i.From? then Leads(prog, i.source, i.original)
    else if i.original in prog[m].locals then {Binding(m, i.original)}
    else {}
  }

  // ---- ResolveExport ------------------------------------------------------------------

  datatype Resolution = Null | Found(binding: Binding) | Ambiguous

  type Seen = set<(nat, string)>

  /** ResolveExport(n, seen) of module `m`, with the resolve set it leaves behind. */
  function Resolve(prog: Program, m: nat, n: string, seen: Seen): (Resolution, Seen)
    requires Ordered(prog) && m < |prog|
    decreases m, 1, 0
  {
    if (m, n) in seen then (Null, seen)
    else
      var seen1 := seen + {(m, n)};
      var e := Explicit(prog[m].items, n);
      if e.Some? && e.value.Local? then
        (if e.value.original in prog[m].locals then Found(Binding(m, e.value.original)) else Null, seen1)
      else if e.Some? then Resolve(prog, e.value.source, e.value.original, seen1)
      else if n == "default" then (Null, seen1)
      else ResolveStars(prog, m, n, prog[m].items, seen1, Null)
  }

  /** The star export entries in turn; an ambiguity ends the search. */
  function ResolveStars(prog: Program, m: nat, n: string, items: seq<Item>, seen: Seen,
                        found: Resolution): (Resolution, Seen)
    requires Ordered(prog) && m < |prog| && forall i :: i in items && i.Star? ==> i.source < m
    decreases m, 0, |items|
  {
    if items == [] then (found, seen)
    else if !items[0].Star? then ResolveStars(prog, m, n, items[1..], seen, found)
    else
      var (r, seen1) := Resolve(prog, items[0].source, n, seen);
      if r.Ambiguous? then (Ambiguous, seen1)
      else if r.Null? then ResolveStars(prog, m, n, items[1..], seen1, found)
      else if found.Null? then ResolveStars(prog, m, n, items[1..], seen1, r)
      else if found != r then (Ambiguous, seen1)
      else ResolveStars(prog, m, n, items[1..], seen1, found)
  }

  function Bindings(r: Resolution): set<Binding> { if r.Found? then {r.binding} else {} }

  ghost predicate Many(s: set<Binding>) { exists a, b :: a in s && b in s && a != b }

  /** Nodes up to index `m` that were already visited lead only to `known` bindings. */
  ghost predicate Accounted(prog: Program, m: int, seen: Seen, known: set<Binding>)
    requires Ordered(prog)
  {
    forall q :: q in seen && q.0 <= m && q.0 < |prog| ==> Leads(prog, q.0, q.1) <= known
  }

  ghost predicate Deeper(m: int, seen: Seen, after: Seen) {
    seen <= after && forall q :: q in after && q !in seen ==> q.0 <= m
  }

  /** What a search reports, together with what was already known, covers everything its name
      leads to, although nodes seen before are not searched again. */
  ghost predicate Covers(prog: Program, m: int, leads: set<Binding>, seen: Seen, known: set<Binding>, r: Resolution,
                         after: Seen)
    requires Ordered(prog)
  {
    && Deeper(m, seen, after)
    && (r.Ambiguous? ==> Many(leads))
    && Bindings(r) <= leads
    && (!r.Ambiguous? ==> leads <= known + Bindings(r) && Accounted(prog, m, after, known + Bindings(r)))
  }

  lemma LeadsIs(prog: Program, m: nat, n: string)
    requires Ordered(prog) && m < |prog|
    ensures var e := Explicit(prog[m].items, n);
            Leads(prog, m, n) == if e.Some? then ExplicitLeads(prog, m, e.value)
                                 else if n == "default" then {} else StarLeads(prog, prog[m].items, m, n)
  {
    var e := Explicit(prog[m].items, n);
    assert Leads(prog, m, n) == LeadsFrom(prog, m, prog[m].items, n);
    if e.None? && n != "default" {
      assert LeadsFrom(prog, m, prog[m].items, n) == StarLeads(prog, prog[m].items, m, n);
    }
  }

  /** A search below `(m, n)` accounts for `(m, n)` too. */
  lemma Closes(prog: Program, m: nat, n: string, j: int, seen: Seen, known: set<Binding>, after: Seen,
               more: set<Binding>)
    requires Ordered(prog) && m < |prog| && j < m && Accounted(prog, m, seen, known) && known <= more
    requires Deeper(j, seen + {(m, n)}, after) && Accounted(prog, j, after, more) && Leads(prog, m, n) <= more
    ensures Deeper(m, seen, after) && Accounted(prog, m, after, more)
  {
    forall q | q in after && q.0 <= m && q.0 < |prog| ensures Leads(prog, q.0, q.1) <= more {
      if q !in seen && q != (m, n) {
        assert q.0 <= j;
      }
    }
  }

  lemma {:induction false} ResolveCovers(prog: Program, m: nat, n: string, seen: Seen, known: set<Binding>)
    requires Ordered(prog) && m < |prog| && Accounted(prog, m, seen, known)
    ensures var (r, after) := Resolve(prog, m, n, seen); Covers(prog, m, Leads(prog, m, n), seen, known, r, after)
    decreases m, 1, 0
  {
    hide Accounted, Deeper;
    var (r, after) := Resolve(prog, m, n, seen);
    LeadsIs(prog, m, n);
    if (m, n) in seen {
      assert Covers(prog, m, Leads(prog, m, n), seen, known, r, after) by { SeenCovers(prog, m, n, seen, known); }
    } else {
      var seen1 := seen + {(m, n)};
      var e := Explicit(prog[m].items, n);
      Entering(prog, m, n, m - 1, seen, known);
      if e.Some? && e.value.From? {
        Entering(prog, m, n, e.value.source, seen, known);
        ResolveCovers(prog, e.value.source, e.value.original, seen1, known);
        if !r.Ambiguous? {
          Closes(prog, m, n, e.value.source, seen, known, after, known + Bindings(r));
        } else {
          Outer(m, n, e.value.source, seen, after);
        }
      } else if e.None? && n != "default" {
        assert known + Bindings(Null) == known;
        StarsCover(prog, m, n, prog[m].items, seen1, Null, {}, known);
        assert {} + StarLeads(prog, prog[m].items, m, n) == StarLeads(prog, prog[m].items, m, n);
        if !r.Ambiguous? {
          Closes(prog, m, n, m - 1, seen, known, after, known + Bindings(r));
        } else {
          Outer(m, n, m - 1, seen, after);
        }
      } else {
        Entering(prog, m, n, m - 1, seen, known + Bindings(r));
        Closes(prog, m, n, m - 1, seen, known, seen1, known + Bindings(r));
      }
    }
  }

  lemma Outer(m: nat, n: string, j: int, seen: Seen, after: Seen)
    requires Deeper(j, seen + {(m, n)}, after) && j < m
    ensures Deeper(m, seen, after)
  {
  }

  lemma SeenCovers(prog: Program, m: nat, n: string, seen: Seen, known: set<Binding>)
    requires Ordered(prog) && m < |prog| && Accounted(prog, m, seen, known) && (m, n) in seen
    ensures Covers(prog, m, Leads(prog, m, n), seen, known, Null, seen)
  {
    assert known + Bindings(Null) == known;
  }

  lemma Entering(prog: Program, m: nat, n: string, j: int, seen: Seen, known: set<Binding>)
    requires Ordered(prog) && m < |prog| && j < m && exists k :: k <= known && Accounted(prog, m, seen, k)
    ensures Accounted(prog, j, seen + {(m, n)}, known) && Deeper(j, seen + {(m, n)}, seen + {(m, n)})
  {
    var k :| k <= known && Accounted(prog, m, seen, k);
  }

  /** `done` is what the star sources before `items` lead to. */
  lemma {:induction false} StarsCover(prog: Program, m: nat, n: string, items: seq<Item>, seen: Seen, found: Resolution,
                                      done: set<Binding>, known: set<Binding>)
    requires Ordered(prog) && m < |prog| && OrderedItems(items, m) && !found.Ambiguous?
    requires Bindings(found) <= done <= known + Bindings(found)
    requires Accounted(prog, m - 1, seen, known + Bindings(found))
    ensures var (r, after) := ResolveStars(prog, m, n, items, seen, found);
            Covers(prog, m - 1, done + StarLeads(prog, items, m, n), seen, known, r, after)
    decreases m, 0, |items|, 1
  {
    hide Accounted, Deeper;
    if items == [] {
      assert done + StarLeads(prog, items, m, n) == done;
      DeeperSelf(m - 1, seen);
    } else {
      var rest := items[1..];
      StarLeadsSplit(prog, items, m, n);
      if !items[0].Star? {
        StarsCover(prog, m, n, rest, seen, found, done, known);
      } else {
        StarCovers(prog, m, n, items, seen, found, done, known);
      }
    }
  }

  lemma DeeperSelf(m: int, seen: Seen)
    ensures Deeper(m, seen, seen)
  {
  }

  lemma DeeperTrans(m: int, j: int, a: Seen, b: Seen, c: Seen)
    requires Deeper(j, a, b) && Deeper(m, b, c) && j <= m
    ensures Deeper(m, a, c)
  {
  }

  lemma StarLeadsSplit(prog: Program, items: seq<Item>, m: nat, n: string)
    requires Ordered(prog) && m < |prog| && items != [] && forall i :: i in items && i.Star? ==> i.source < m
    ensures StarLeads(prog, items, m, n)
         == (if items[0].Star? then Leads(prog, items[0].source, n) else {}) + StarLeads(prog, items[1..], m, n)
  {
    assert forall i :: i in items <==> i == items[0] || i in items[1..];
  }

  /** A visit of source `j` keeps accounts for everything below `m`. */
  lemma StillAccounted(prog: Program, m: int, j: int, seen: Seen, known: set<Binding>, after: Seen, more: set<Binding>)
    requires Ordered(prog) && j <= m && Accounted(prog, m, seen, known) && known <= more
    requires Deeper(j, seen, after) && Accounted(prog, j, after, more)
    ensures Accounted(prog, m, after, more)
  {
    forall q | q in after && q.0 <= m && q.0 < |prog| ensures Leads(prog, q.0, q.1) <= more {
      if q !in seen {
        assert q.0 <= j;
      }
    }
  }

  lemma Narrower(prog: Program, m: int, j: int, seen: Seen, known: set<Binding>)
    requires Ordered(prog) && j <= m && Accounted(prog, m, seen, known)
    ensures Accounted(prog, j, seen, known)
  {
  }

  lemma StarCovers(prog: Program, m: nat, n: string, items: seq<Item>, seen: Seen, found: Resolution,
                   done: set<Binding>, known: set<Binding>)
    requires Ordered(prog) && m < |prog| && OrderedItems(items, m) && !found.Ambiguous? && items != [] && items[0].Star?
    requires Bindings(found) <= done <= known + Bindings(found)
    requires Accounted(prog, m - 1, seen, known + Bindings(found))
    ensures var (r, after) := ResolveStars(prog, m, n, items, seen, found);
            Covers(prog, m - 1, done + StarLeads(prog, items, m, n), seen, known, r, after)
    decreases m, 0, |items|, 0
  {
    hide Accounted, Deeper, StarLeads, Resolve, Leads, Many;
    var j, rest := items[0].source, items[1..];
    var so, leads := known + Bindings(found), Leads(prog, j, n);
    StarLeadsSplit(prog, items, m, n);
    assert done + StarLeads(prog, items, m, n) == done + leads + StarLeads(prog, rest, m, n);
    Narrower(prog, m - 1, j, seen, so);
    ResolveCovers(prog, j, n, seen, so);
    var (r, seen1) := Resolve(prog, j, n, seen);
    DeeperSelf(m - 1, seen1);
    DeeperTrans(m - 1, j, seen, seen1, seen1);
    var more := StarLeads(prog, rest, m, n);
    if r.Ambiguous? {
      ManyGrows(done, leads);
      ManyGrows(done + leads, more);
    } else if found.Null? || r.Null? || found == r {
      var next := if r.Null? then found else r;
      assert so + Bindings(r) == known + Bindings(next);
      StillAccounted(prog, m - 1, j, seen, so, seen1, known + Bindings(next));
      StarsCover(prog, m, n, rest, seen1, next, done + leads, known);
      var (_, after) := ResolveStars(prog, m, n, rest, seen1, next);
      DeeperTrans(m - 1, j, seen, seen1, after);
    } else {
      TwoAreMany(done, leads, found.binding, r.binding);
      ManyGrows(done + leads, more);
    }
  }

  lemma TwoAreMany(s: set<Binding>, t: set<Binding>, a: Binding, b: Binding)
    requires a in s && b in t && a != b
    ensures Many(s + t)
  {
    assert a in s + t && b in s + t;
  }

  ghost function StarLeads(prog: Program, items: seq<Item>, m: nat, n: string): set<Binding>
    requires Ordered(prog) && m < |prog| && forall i :: i in items && i.Star? ==> i.source < m
  {
    set i, b | i in items && i.Star? && b in Leads(prog, i.source, n) :: b
  }

  /** ResolveExport from scratch: nothing, the one binding, or ambiguous. */
  lemma ResolveIsExact(prog: Program, m: nat, n: string)
    requires Ordered(prog) && m < |prog|
    ensures var r := Resolve(prog, m, n, {}).0;
            && (r.Null? <==> Leads(prog, m, n) == {})
            && (r.Found? <==> exists b :: Leads(prog, m, n) == {b})
            && (r.Found? ==> Leads(prog, m, n) == {r.binding})
            && (r.Ambiguous? <==> Many(Leads(prog, m, n)))
  {
    var leads := Leads(prog, m, n);
    ResolveCovers(prog, m, n, {}, {});
    var (r, after) := Resolve(prog, m, n, {});
    if !r.Ambiguous? {
      assert leads <= {} + Bindings(r);
      assert leads == Bindings(r);
    }
  }

  // ---- export tables ------------------------------------------------------------------

  datatype Table = Table(public: map<string, Binding>, ambiguous: set<string>)

  /** The table lists `n` exactly as it leads. */
  ghost predicate Shows(public: map<string, Binding>, ambiguous: set<string>, n: string, leads: set<Binding>) {
    && (n in public ==> leads == {public[n]})
    && (n in ambiguous <==> Many(leads))
    && (n !in public && n !in ambiguous ==> leads == {})
  }

  ghost predicate TableOf(prog: Program, m: nat, t: Table)
    requires Ordered(prog) && m < |prog|
  {
    "default" !in t.ambiguous && forall n :: Shows(t.public, t.ambiguous, n, Leads(prog, m, n))
  }

  /** One more star source for one name. */
  lemma ShowsStar(public: map<string, Binding>, ambiguous: set<string>, n: string, leads: set<Binding>,
                  more: set<Binding>, b: Binding)
    requires Shows(public, ambiguous, n, leads) && more == {b}
    ensures n in public && public[n] != b ==> Many(leads + more)
    ensures n in public && public[n] == b ==> leads + more == {b}
    ensures n in ambiguous ==> Many(leads + more)
    ensures n !in public && n !in ambiguous ==> leads + more == {b}
  {
    if n in public && public[n] != b {
      assert public[n] in leads + more && b in leads + more;
    }
    if n in ambiguous {
      var x, y :| x in leads && y in leads && x != y;
      assert x in leads + more && y in leads + more;
    }
    if n !in public && n !in ambiguous {
      assert leads + more == {b};
    }
  }

  lemma ManyGrows(leads: set<Binding>, more: set<Binding>)
    requires Many(leads) || Many(more)
    ensures Many(leads + more)
  {
    var s := leads + more;
    var x, y :| ((x in leads && y in leads) || (x in more && y in more)) && x != y;
    assert x in s && y in s;
  }

  // ---- one item more ------------------------------------------------------------------

  lemma ExplicitAppend(prefix: seq<Item>, i: Item, n: string)
    ensures Explicit(prefix + [i], n) == if Names(i, n) then Some(i) else Explicit(prefix, n)
  {
    assert (prefix + [i])[..|prefix|] == prefix;
  }

  /** How what a name leads to changes with one more item. */
  lemma LeadsStep(prog: Program, m: nat, prefix: seq<Item>, i: Item, n: string)
    requires Ordered(prog) && m < |prog| && OrderedItems(prefix, m) && OrderedItems(prefix + [i], m)
    ensures LeadsFrom(prog, m, prefix + [i], n) ==
            if Names(i, n) then ExplicitLeads(prog, m, i)
            else if Explicit(prefix, n).Some? then LeadsFrom(prog, m, prefix, n)
            else if i.Star? && n != "default" then LeadsFrom(prog, m, prefix, n) + Leads(prog, i.source, n)
            else LeadsFrom(prog, m, prefix, n)
  {
    assert i in prefix + [i];
    ExplicitAppend(prefix, i, n);
    if Explicit(prefix, n).None? && !Names(i, n) && n != "default" {
      assert forall j :: j in prefix + [i] <==> j in prefix || j == i;
      if i.Star? {
        assert LeadsFrom(prog, m, prefix + [i], n) == LeadsFrom(prog, m, prefix, n) + Leads(prog, i.source, n);
      } else {
        assert LeadsFrom(prog, m, prefix + [i], n) == LeadsFrom(prog, m, prefix, n);
      }
    }
  }

  /** The tables hold what the items in `prefix` lead to, and for `handled` names also `i`. */
  ghost predicate Merging(prog: Program, m: nat, prefix: seq<Item>, i: Item, handled: set<string>,
                          public: map<string, Binding>, ambiguous: set<string>)
    requires Ordered(prog) && m < |prog| && OrderedItems(prefix, m) && OrderedItems(prefix + [i], m)
  {
    forall n :: Shows(public, ambiguous, n, LeadsFrom(prog, m, if n in handled then prefix + [i] else prefix, n))
  }

  /** Handling one name changes nothing for the others. */
  lemma MergedName(prog: Program, m: nat, prefix: seq<Item>, i: Item, handled: set<string>,
                   public: map<string, Binding>, ambiguous: set<string>, name: string,
                   public1: map<string, Binding>, ambiguous1: set<string>)
    requires Ordered(prog) && m < |prog| && OrderedItems(prefix, m) && OrderedItems(prefix + [i], m)
    requires Merging(prog, m, prefix, i, handled, public, ambiguous)
    requires forall n :: n != name ==> (n in public <==> n in public1) && (n in ambiguous <==> n in ambiguous1)
    requires forall n :: n != name && n in public ==> public[n] == public1[n]
    requires Shows(public1, ambiguous1, name, LeadsFrom(prog, m, prefix + [i], name))
    ensures Merging(prog, m, prefix, i, handled + {name}, public1, ambiguous1)
  {
    forall n
      ensures Shows(public1, ambiguous1, n,
                    LeadsFrom(prog, m, if n in handled + {name} then prefix + [i] else prefix, n))
    {
      assert Shows(public, ambiguous, n, LeadsFrom(prog, m, if n in handled then prefix + [i] else prefix, n));
    }
  }

  /** `export *` from a source with table `t`. */
  method MergeStar(prog: Program, m: nat, prefix: seq<Item>, i: Item, t: Table, explicit: set<string>,
                   public0: map<string, Binding>,
                   ambiguous0: set<string>)
    returns (public: map<string, Binding>, ambiguous: set<string>)
    requires Ordered(prog) && m < |prog| && OrderedItems(prefix, m) && OrderedItems(prefix + [i], m) && i.Star? &&
             i.source < m
    requires TableOf(prog, i.source, t) && forall n :: n in explicit <==> Explicit(prefix, n).Some?
    requires Merging(prog, m, prefix, i, {}, public0, ambiguous0)
    ensures forall n :: Shows(public, ambiguous, n, LeadsFrom(prog, m, prefix + [i], n))
  {
    hide LeadsFrom, Merging;
    public, ambiguous := public0, ambiguous0;
    var todo := t.public.Keys;
    assert t.public.Keys - todo == {};
    while todo != {}
      invariant todo <= t.public.Keys && Merging(prog, m, prefix, i, t.public.Keys - todo, public, ambiguous)
      decreases todo
    {
      var name :| name in todo;
      var target := t.public[name];
      ghost var public1, ambiguous1 := public, ambiguous;
      StarName(prog, m, prefix, i, t, t.public.Keys - todo, public, ambiguous, name);
      if name != "default" && name !in explicit {
        if name in public {
          if public[name] != target {
            public := public - {name};
            ambiguous := ambiguous + {name};
          }
        } else if name !in ambiguous {
          public := public[name := target];
        }
      }
      MergedName(prog, m, prefix, i, t.public.Keys - todo, public1, ambiguous1, name, public, ambiguous);
      assert t.public.Keys - (todo - {name}) == t.public.Keys - todo + {name};
      todo := todo - {name};
    }
    var left := t.ambiguous;
    assert t.public.Keys + (t.ambiguous - left) == t.public.Keys - todo;
    Apart(prog, i.source, t);
    while left != {}
      invariant left <= t.ambiguous &&
                Merging(prog, m, prefix, i, t.public.Keys + (t.ambiguous - left), public, ambiguous)
      decreases left
    {
      var name :| name in left;
      ghost var handled := t.public.Keys + (t.ambiguous - left);
      ghost var public1, ambiguous1 := public, ambiguous;
      AmbiguousName(prog, m, prefix, i, t, handled, public, ambiguous, name);
      if name !in explicit {
        public := public - {name};
        ambiguous := ambiguous + {name};
      }
      MergedName(prog, m, prefix, i, handled, public1, ambiguous1, name, public, ambiguous);
      assert t.public.Keys + (t.ambiguous - (left - {name})) == handled + {name};
      left := left - {name};
    }
    RestUntouched(prog, m, prefix, i, t, t.public.Keys + (t.ambiguous - left), public, ambiguous);
  }

  lemma Apart(prog: Program, m: nat, t: Table)
    requires Ordered(prog) && m < |prog| && TableOf(prog, m, t)
    ensures t.public.Keys !! t.ambiguous
  {
    forall n | n in t.public ensures n !in t.ambiguous {
      assert Shows(t.public, t.ambiguous, n, Leads(prog, m, n));
    }
  }

  /** What `name`, listed by the source, leads to once the source is merged. */
  lemma StarName(prog: Program, m: nat, prefix: seq<Item>, i: Item, t: Table, handled: set<string>,
                 public: map<string, Binding>, ambiguous: set<string>, name: string)
    requires Ordered(prog) && m < |prog| && OrderedItems(prefix, m) && OrderedItems(prefix + [i], m) && i.Star? &&
             i.source < m
    requires TableOf(prog, i.source, t) && Merging(prog, m, prefix, i, handled, public, ambiguous) && name !in handled
    requires name in t.public
    ensures var next, b := LeadsFrom(prog, m, prefix + [i], name), t.public[name];
            if name == "default" || Explicit(prefix, name).Some? then Shows(public, ambiguous, name, next)
            else if name in public then name !in ambiguous && if public[name] == b then next == {b} else Many(next)
            else if name in ambiguous then Many(next)
            else next == {b}
  {
    var leads := LeadsFrom(prog, m, prefix, name);
    assert Shows(public, ambiguous, name, leads);
    assert Shows(t.public, t.ambiguous, name, Leads(prog, i.source, name));
    LeadsStep(prog, m, prefix, i, name);
    ShowsStar(public, ambiguous, name, leads, Leads(prog, i.source, name), t.public[name]);
  }

  /** A name that is ambiguous in the source is ambiguous here, unless exported explicitly. */
  lemma AmbiguousName(prog: Program, m: nat, prefix: seq<Item>, i: Item, t: Table, handled: set<string>,
                      public: map<string, Binding>, ambiguous: set<string>, name: string)
    requires Ordered(prog) && m < |prog| && OrderedItems(prefix, m) && OrderedItems(prefix + [i], m) && i.Star? &&
             i.source < m
    requires TableOf(prog, i.source, t) && Merging(prog, m, prefix, i, handled, public, ambiguous) && name !in handled
    requires name in t.ambiguous
    ensures var next := LeadsFrom(prog, m, prefix + [i], name);
            if Explicit(prefix, name).Some? then Shows(public, ambiguous, name, next) else Many(next)
  {
    assert Shows(public, ambiguous, name, LeadsFrom(prog, m, prefix, name));
    assert Shows(t.public, t.ambiguous, name, Leads(prog, i.source, name));
    LeadsStep(prog, m, prefix, i, name);
    if Explicit(prefix, name).None? {
      ManyGrows(LeadsFrom(prog, m, prefix, name), Leads(prog, i.source, name));
    }
  }

  /** Names the source does not list are left as they are. */
  lemma RestUntouched(prog: Program, m: nat, prefix: seq<Item>, i: Item, t: Table, handled: set<string>,
                      public: map<string, Binding>, ambiguous: set<string>)
    requires Ordered(prog) && m < |prog| && OrderedItems(prefix, m) && OrderedItems(prefix + [i], m) && i.Star? &&
             i.source < m
    requires TableOf(prog, i.source, t) && Merging(prog, m, prefix, i, handled, public, ambiguous)
    requires forall n :: n in handled <==> n in t.public || n in t.ambiguous
    ensures forall n :: Shows(public, ambiguous, n, LeadsFrom(prog, m, prefix + [i], n))
  {
    hide LeadsFrom;
    forall n ensures Shows(public, ambiguous, n, LeadsFrom(prog, m, prefix + [i], n)) {
      assert Shows(public, ambiguous, n, LeadsFrom(prog, m, if n in handled then prefix + [i] else prefix, n));
      if n !in handled {
        assert Shows(t.public, t.ambiguous, n, Leads(prog, i.source, n));
        LeadsStep(prog, m, prefix, i, n);
        assert LeadsFrom(prog, m, prefix, n) + {} == LeadsFrom(prog, m, prefix, n);
      }
    }
  }

  // ---- a whole module -----------------------------------------------------------------

  /** The explicit export `i` of module `m` leads to exactly one binding. */
  ghost predicate Resolves(prog: Program, m: nat, i: Item)
    requires Ordered(prog) && m < |prog|
  {
    !i.Star? && (i.From? ==> i.source < m) && exists b :: ExplicitLeads(prog, m, i) == {b}
  }

  /** The target of an explicit export, from the tables of earlier modules. */
  method Target(prog: Program, m: nat, i: Item, tables: seq<Table>) returns (r: Option<Binding>)
    requires Ordered(prog) && m < |prog| && !i.Star? && (i.From? ==> i.source < m) && m <= |tables|
    requires forall j: nat :: j < m ==> TableOf(prog, j, tables[j])
    ensures r.Some? <==> Resolves(prog, m, i)
    ensures r.Some? ==> ExplicitLeads(prog, m, i) == {r.value}
  {
    if i.Local? {
      r := if i.original in prog[m].locals then Some(Binding(m, i.original)) else None;
      assert r.None? ==> ExplicitLeads(prog, m, i) == {};
    } else {
      assert TableOf(prog, i.source, tables[i.source]);
      var public := tables[i.source].public;
      r := if i.original in public then Some(public[i.original]) else None;
      ghost var leads := Leads(prog, i.source, i.original);
      assert Shows(public, tables[i.source].ambiguous, i.original, leads);
    }
    if r.Some? {
      assert ExplicitLeads(prog, m, i) == {r.value};
    }
  }

  /** The table of module `m`, item by item; the error is an explicit export that does not
      resolve. */
  method MergeExports(prog: Program, m: nat, tables: seq<Table>) returns (r: Result<Table, Item>)
    requires Ordered(prog) && m < |prog| && m <= |tables|
    requires forall j: nat :: j < m ==> TableOf(prog, j, tables[j])
    ensures r.Ok? ==> TableOf(prog, m, r.value)
    ensures r.Ok? <==> forall i :: i in prog[m].items && !i.Star? ==> Resolves(prog, m, i)
    ensures r.Err? ==> r.error in prog[m].items && !r.error.Star? && !Resolves(prog, m, r.error)
  {
    hide LeadsFrom, Resolves, ExplicitLeads;
    var public: map<string, Binding>, ambiguous: set<string>, explicit: set<string> := map[], {}, {};
    var items := prog[m].items;
    NothingLeads(prog, m);
    for k := 0 to |items|
      invariant Merged(prog, m, items[..k], explicit, public, ambiguous)
    {
      var i := items[k];
      assert i in items && items[..k + 1] == items[..k] + [i];
      if i.Star? {
        public, ambiguous := MergeStar(prog, m, items[..k], i, tables[i.source], explicit, public, ambiguous);
        MergedStar(prog, m, items[..k], i, explicit, public, ambiguous);
      } else {
        var target := Target(prog, m, i, tables);
        if target.None? {
          return Err(i);
        }
        MergedExplicit(prog, m, items[..k], i, explicit, public, ambiguous, target.value);
        explicit := explicit + {i.exported};
        ambiguous := ambiguous - {i.exported};
        public := public[i.exported := target.value];
      }
    }
    assert items[..|items|] == items;
    MergedTable(prog, m, explicit, public, ambiguous);
    return Ok(Table(public, ambiguous));
  }

  /** The state of the merge after the items in `prefix`. */
  ghost predicate Merged(prog: Program, m: nat, prefix: seq<Item>, explicit: set<string>,
                         public: map<string, Binding>, ambiguous: set<string>)
    requires Ordered(prog) && m < |prog|
  {
    && OrderedItems(prefix, m)
    && (forall n :: n in explicit <==> Explicit(prefix, n).Some?)
    && (forall i :: i in prefix && !i.Star? ==> Resolves(prog, m, i))
    && (forall n :: Shows(public, ambiguous, n, LeadsFrom(prog, m, prefix, n)))
  }

  lemma NothingLeads(prog: Program, m: nat)
    requires Ordered(prog) && m < |prog|
    ensures Merged(prog, m, [], {}, map[], {})
  {
    forall n ensures Shows(map[], {}, n, LeadsFrom(prog, m, [], n)) {
      assert LeadsFrom(prog, m, [], n) == {};
    }
  }

  lemma MergedStar(prog: Program, m: nat, prefix: seq<Item>, i: Item, explicit: set<string>,
                   public: map<string, Binding>, ambiguous: set<string>)
    requires Ordered(prog) && m < |prog| && OrderedItems(prefix, m) && OrderedItems(prefix + [i], m) && i.Star?
    requires forall n :: n in explicit <==> Explicit(prefix, n).Some?
    requires forall j :: j in prefix && !j.Star? ==> Resolves(prog, m, j)
    requires forall n :: Shows(public, ambiguous, n, LeadsFrom(prog, m, prefix + [i], n))
    ensures Merged(prog, m, prefix + [i], explicit, public, ambiguous)
  {
    hide LeadsFrom, Resolves;
    forall n ensures n in explicit <==> Explicit(prefix + [i], n).Some? {
      ExplicitAppend(prefix, i, n);
    }
  }

  lemma MergedExplicit(prog: Program, m: nat, prefix: seq<Item>, i: Item, explicit: set<string>,
                       public: map<string, Binding>, ambiguous: set<string>, b: Binding)
    requires Ordered(prog) && m < |prog| && Merged(prog, m, prefix, explicit, public, ambiguous)
    requires OrderedItems(prefix + [i], m) && !i.Star? && (i.From? ==> i.source < m) &&
             ExplicitLeads(prog, m, i) == {b} && Resolves(prog, m, i)
    ensures Merged(prog, m, prefix + [i], explicit + {i.exported}, public[i.exported := b], ambiguous - {i.exported})
  {
    hide LeadsFrom, Resolves, ExplicitLeads;
    var public1, ambiguous1 := public[i.exported := b], ambiguous - {i.exported};
    forall n ensures n in explicit + {i.exported} <==> Explicit(prefix + [i], n).Some? {
      ExplicitAppend(prefix, i, n);
    }
    forall n ensures Shows(public1, ambiguous1, n, LeadsFrom(prog, m, prefix + [i], n)) {
      LeadsStep(prog, m, prefix, i, n);
      assert Shows(public, ambiguous, n, LeadsFrom(prog, m, prefix, n));
    }
  }

  lemma MergedTable(prog: Program, m: nat, explicit: set<string>, public: map<string, Binding>, ambiguous: set<string>)
    requires Ordered(prog) && m < |prog| && Merged(prog, m, prog[m].items, explicit, public, ambiguous)
    ensures TableOf(prog, m, Table(public, ambiguous))
    ensures forall i :: i in prog[m].items && !i.Star? ==> Resolves(prog, m, i)
  {
    var items := prog[m].items;
    forall n ensures Shows(public, ambiguous, n, Leads(prog, m, n)) {
      assert Leads(prog, m, n) == LeadsFrom(prog, m, items, n);
      assert Shows(public, ambiguous, n, LeadsFrom(prog, m, items, n));
    }
    var e := Explicit(items, "default");
    assert Shows(public, ambiguous, "default", LeadsFrom(prog, m, items, "default"));
    if e.Some? {
      assert Resolves(prog, m, e.value);
    }
  }

  // ---- the whole program --------------------------------------------------------------

  function Lookup(t: Table, n: string): Resolution {
    if n in t.public then Found(t.public[n]) else if n in t.ambiguous then Ambiguous else Null
  }

  lemma TableResolves(prog: Program, m: nat, t: Table, n: string)
    requires Ordered(prog) && m < |prog| && TableOf(prog, m, t)
    ensures Lookup(t, n) == Resolve(prog, m, n, {}).0
  {
    ResolveIsExact(prog, m, n);
    assert Shows(t.public, t.ambiguous, n, Leads(prog, m, n));
  }

  /** The explicit export `i` of module `m` names a binding: its own, or one ResolveExport finds. */
  ghost predicate Links(prog: Program, m: nat, i: Item)
    requires Ordered(prog) && m < |prog| && i in prog[m].items && !i.Star?
  {
    if i.Local? then i.original in prog[m].locals else Resolve(prog, i.source, i.original, {}).0.Found?
  }

  lemma ResolvesIsLinks(prog: Program, m: nat, i: Item)
    requires Ordered(prog) && m < |prog| && i in prog[m].items && !i.Star?
    ensures Resolves(prog, m, i) <==> Links(prog, m, i)
  {
    hide Resolve;
    if i.From? {
      ResolveIsExact(prog, i.source, i.original);
    } else if i.original in prog[m].locals {
      assert ExplicitLeads(prog, m, i) == {Binding(m, i.original)};
    } else {
      assert ExplicitLeads(prog, m, i) == {};
    }
  }

  /** Every explicit export of module `m` names a binding. */
  ghost predicate Linkable(prog: Program, m: nat)
    requires Ordered(prog) && m < |prog|
  {
    forall i :: i in prog[m].items && !i.Star? ==> Links(prog, m, i)
  }

  /** The export tables of all modules: they exist exactly when every explicit export resolves,
      and then answer every name as ResolveExport does. */
  method ExportTables(prog: Program) returns (r: Result<seq<Table>, (nat, Item)>)
    requires Ordered(prog)
    ensures r.Ok? <==> forall m: nat :: m < |prog| ==> Linkable(prog, m)
    ensures r.Ok? ==>
              |r.value| == |prog| &&
              forall m: nat, n: string :: m < |prog| ==> Lookup(r.value[m], n) == Resolve(prog, m, n, {}).0
  {
    hide Linkable, Resolve, TableOf;
    var tables: seq<Table> := [];
    for m := 0 to |prog|
      invariant |tables| == m && forall j: nat :: j < m ==> TableOf(prog, j, tables[j]) && Linkable(prog, j)
    {
      var t := MergeExports(prog, m, tables);
      LinkableIs(prog, m);
      if t.Err? {
        return Err((m, t.error));
      }
      tables := tables + [t.value];
    }
    forall m: nat, n | m < |prog| ensures Lookup(tables[m], n) == Resolve(prog, m, n, {}).0 {
      TableResolves(prog, m, tables[m], n);
    }
    return Ok(tables);
  }

  lemma LinkableIs(prog: Program, m: nat)
    requires Ordered(prog) && m < |prog|
    ensures Linkable(prog, m) <==> forall i :: i in prog[m].items && !i.Star? ==> Resolves(prog, m, i)
  {
    hide Links, Resolves;
    forall i | i in prog[m].items && !i.Star? ensures Resolves(prog, m, i) <==> Links(prog, m, i) {
      ResolvesIsLinks(prog, m, i);
    }
  }

  // ---- item order does not matter -----------------------------------------------------

  /** The same modules with their items in another order. */
  ghost predicate Reordered(prog: Program, other: Program) {
    && |prog| == |other|
    && forall m :: 0 <= m < |prog| ==>
         prog[m].locals == other[m].locals && multiset(prog[m].items) == multiset(other[m].items)
  }

  lemma SameItems(prog: Program, other: Program, m: nat)
    requires Reordered(prog, other) && m < |prog|
    ensures forall i :: i in prog[m].items <==> i in other[m].items
  {
    forall i ensures i in prog[m].items <==> i in other[m].items {
      assert i in prog[m].items <==> i in multiset(prog[m].items);
      assert i in other[m].items <==> i in multiset(other[m].items);
    }
  }

  /** Explicit exports of one name agree on where it leads; ECMA-262 allows only one of them. */
  ghost predicate Agreeing(prog: Program)
    requires Ordered(prog)
  {
    forall m :: 0 <= m < |prog| ==> AgreeingItems(prog, m)
  }

  ghost predicate AgreeingItems(prog: Program, m: nat)
    requires Ordered(prog) && m < |prog|
  {
    forall i, j :: i in prog[m].items && j in prog[m].items && !i.Star? && !j.Star? && i.exported == j.exported ==>
      ExplicitLeads(prog, m, i) == ExplicitLeads(prog, m, j)
  }

  lemma {:induction false} LeadsUnordered(prog: Program, other: Program, m: nat, n: string)
    requires Ordered(prog) && Ordered(other) && Reordered(prog, other) && Agreeing(prog) && m < |prog|
    ensures Leads(prog, m, n) == Leads(other, m, n)
    decreases m
  {
    hide ExplicitLeads, Leads, LeadsFrom;
    LeadsIs(prog, m, n);
    LeadsIs(other, m, n);
    SameItems(prog, other, m);
    var e, f := Explicit(prog[m].items, n), Explicit(other[m].items, n);
    if e.Some? {
      assert e.value in other[m].items && Names(e.value, n);
      assert f.Some? && f.value in prog[m].items && AgreeingItems(prog, m);
      ExplicitIs(prog, m, f.value);
      ExplicitIs(other, m, f.value);
      if f.value.From? {
        LeadsUnordered(prog, other, f.value.source, f.value.original);
      }
    } else {
      assert f.None?;
      forall i | i in prog[m].items && i.Star? ensures Leads(prog, i.source, n) == Leads(other, i.source, n) {
        LeadsUnordered(prog, other, i.source, n);
      }
      assert StarLeads(prog, prog[m].items, m, n) == StarLeads(other, other[m].items, m, n);
    }
  }

  lemma ExplicitIs(prog: Program, m: nat, i: Item)
    requires Ordered(prog) && m < |prog| && !i.Star? && (i.From? ==> i.source < m)
    ensures ExplicitLeads(prog, m, i) == if i.From? then Leads(prog, i.source, i.original)
                                         else if i.original in prog[m].locals then {Binding(m, i.original)} else {}
  {
  }

  /** Tables of reordered programs are equal, whatever order their items were merged in. */
  lemma MergeOrderIrrelevant(prog: Program, other: Program, m: nat, t: Table, u: Table)
    requires Ordered(prog) && Ordered(other) && Reordered(prog, other) && Agreeing(prog) && m < |prog|
    requires TableOf(prog, m, t) && TableOf(other, m, u)
    ensures t == u
  {
    forall n ensures Lookup(t, n) == Lookup(u, n) {
      LeadsUnordered(prog, other, m, n);
      assert Shows(t.public, t.ambiguous, n, Leads(prog, m, n));
      assert Shows(u.public, u.ambiguous, n, Leads(prog, m, n));
    }
    Apart(prog, m, t);
    Apart(other, m, u);
    SameLookups(t, u);
  }

  /** The program with items `a` and `b` of module `m` exchanged. */
  function Swapped(prog: Program, m: nat, a: nat, b: nat): Program
    requires m < |prog| && a < |prog[m].items| && b < |prog[m].items|
  {
    var items := prog[m].items;
    prog[m := prog[m].(items := items[a := items[b]][b := items[a]])]
  }

  lemma SwappedIsReordered(prog: Program, m: nat, a: nat, b: nat)
    requires Ordered(prog) && m < |prog| && a < |prog[m].items| && b < |prog[m].items|
    ensures Reordered(prog, Swapped(prog, m, a, b)) && Ordered(Swapped(prog, m, a, b))
    ensures |Swapped(prog, m, a, b)| == |prog| && forall j :: 0 <= j < m ==> Swapped(prog, m, a, b)[j] == prog[j]
  {
    var other := Swapped(prog, m, a, b);
    assert Reordered(prog, other);
    forall k | 0 <= k < |other| ensures OrderedItems(other[k].items, k) {
      SameItems(prog, other, k);
      assert OrderedItems(prog[k].items, k);
    }
  }

  /** An explicit export leads to the same bindings in the exchanged program. */
  lemma SwappedLeads(prog: Program, other: Program, m: nat, k: nat, i: Item)
    requires Ordered(prog) && Ordered(other) && Reordered(prog, other) && k <= m < |prog| && i in prog[k].items &&
             !i.Star?
    requires forall j :: 0 <= j < m ==> prog[j] == other[j]
    ensures ExplicitLeads(other, k, i) == ExplicitLeads(prog, k, i)
  {
    hide Leads;
    SameItems(prog, other, k);
    assert OrderedItems(prog[k].items, k);
    if i.From? {
      LeadsBelow(prog, other, m, i.source, i.original);
    }
  }

  lemma SwappedLinks(prog: Program, other: Program, m: nat, k: nat)
    requires Ordered(prog) && Ordered(other) && Reordered(prog, other) && k <= m < |prog| && Linkable(prog, k)
    requires forall j :: 0 <= j < m ==> prog[j] == other[j]
    ensures Linkable(other, k)
  {
    hide Linkable, Leads, ExplicitLeads;
    LinkableIs(prog, k);
    LinkableIs(other, k);
    SameItems(prog, other, k);
    forall i | i in other[k].items && !i.Star? ensures Resolves(other, k, i) {
      SwappedLeads(prog, other, m, k, i);
      assert Resolves(prog, k, i);
    }
  }

  /** The position of the explicit export of `n`. */
  lemma {:induction false} ExplicitAt(items: seq<Item>, n: string) returns (p: nat)
    requires Explicit(items, n).Some?
    ensures p < |items| && items[p] == Explicit(items, n).value && forall k :: p < k < |items| ==> !Names(items[k], n)
  {
    p := |items| - 1;
    if !Names(items[p], n) {
      p := ExplicitAt(items[..p], n);
    }
  }

  lemma {:induction false} ExplicitLast(items: seq<Item>, n: string, p: nat)
    requires p < |items| && Names(items[p], n) && forall k :: p < k < |items| ==> !Names(items[k], n)
    ensures Explicit(items, n) == Some(items[p])
  {
    if p < |items| - 1 {
      ExplicitLast(items[..|items| - 1], n, p);
    }
  }

  /** Exchanging `a` and `b` leaves a program that still links up to `m`, with another table. */
  ghost predicate SwapShows(prog: Program, m: nat, a: nat, b: nat, n: string)
    requires Ordered(prog) && m < |prog| && a < |prog[m].items| && b < |prog[m].items|
  {
    var other := Swapped(prog, m, a, b);
    && Reordered(prog, other) && Ordered(other)
    && (forall k: nat :: k <= m && Linkable(prog, k) ==> Linkable(other, k))
    && forall t, u :: TableOf(prog, m, t) && TableOf(other, m, u) ==> Lookup(t, n) != Lookup(u, n)
  }

  /** The condition is exact: in a module that links, two explicit exports of one name that
      disagree make the order of items matter; exchanging two items changes the table. */
  lemma DisagreeingOrderMatters(prog: Program, m: nat, i: Item, j: Item)
    requires Ordered(prog) && m < |prog| && Linkable(prog, m)
    requires i in prog[m].items && j in prog[m].items && !i.Star? && !j.Star?
    requires i.exported == j.exported && ExplicitLeads(prog, m, i) != ExplicitLeads(prog, m, j)
    ensures exists a: nat, b: nat :: a < |prog[m].items| && b < |prog[m].items| && SwapShows(prog, m, a, b, i.exported)
  {
    hide Leads, ExplicitLeads, Linkable, SwapShows;
    var items, n := prog[m].items, i.exported;
    assert Names(i, n) && Names(j, n);
    var b := ExplicitAt(items, n);
    var other := if ExplicitLeads(prog, m, i) == ExplicitLeads(prog, m, items[b]) then j else i;
    var a: nat :| a < |items| && items[a] == other;
    SwapDiffers(prog, m, a, b, n);
  }

  lemma SwapDiffers(prog: Program, m: nat, a: nat, b: nat, n: string)
    requires Ordered(prog) && m < |prog| && Linkable(prog, m) && a < |prog[m].items| && b < |prog[m].items|
    requires Names(prog[m].items[a], n) && Names(prog[m].items[b], n)
    requires forall k :: b < k < |prog[m].items| ==> !Names(prog[m].items[k], n)
    requires ExplicitLeads(prog, m, prog[m].items[a]) != ExplicitLeads(prog, m, prog[m].items[b])
    ensures SwapShows(prog, m, a, b, n)
  {
    hide Leads, ExplicitLeads, Linkable, TableOf, Resolves, Swapped, Reordered, Ordered, Lookup;
    var other := Swapped(prog, m, a, b);
    SwappedIsReordered(prog, m, a, b);
    forall k: nat | k <= m && Linkable(prog, k) ensures Linkable(other, k) {
      SwappedLinks(prog, other, m, k);
    }
    SwapLeads(prog, m, a, b, n);
    LinkableIs(prog, m);
    var i, j := prog[m].items[a], prog[m].items[b];
    forall t, u | TableOf(prog, m, t) && TableOf(other, m, u) ensures Lookup(t, n) != Lookup(u, n) {
      TableShows(prog, m, t, n, prog, j);
      TableShows(other, m, u, n, prog, i);
    }
  }

  /** Exchanging the last export of `n` with an earlier one lets the earlier one decide. */
  lemma SwapLeads(prog: Program, m: nat, a: nat, b: nat, n: string)
    requires Ordered(prog) && m < |prog| && a < |prog[m].items| && b < |prog[m].items|
    requires Names(prog[m].items[a], n) && Names(prog[m].items[b], n) && Ordered(Swapped(prog, m, a, b))
    requires forall k :: b < k < |prog[m].items| ==> !Names(prog[m].items[k], n)
    ensures Leads(prog, m, n) == ExplicitLeads(prog, m, prog[m].items[b])
    ensures Leads(Swapped(prog, m, a, b), m, n) == ExplicitLeads(prog, m, prog[m].items[a])
  {
    hide Leads, ExplicitLeads, Explicit;
    var other, items := Swapped(prog, m, a, b), prog[m].items;
    SwappedIsReordered(prog, m, a, b);
    LeadsIs(prog, m, n);
    LeadsIs(other, m, n);
    ExplicitLast(items, n, b);
    ExplicitLast(other[m].items, n, b);
    SwappedLeads(prog, other, m, m, items[a]);
  }

  /** A name that leads where a resolving export leads is found there. */
  lemma TableShows(prog: Program, m: nat, t: Table, n: string, from: Program, i: Item)
    requires Ordered(prog) && m < |prog| && TableOf(prog, m, t)
    requires Ordered(from) && m < |from| && Resolves(from, m, i) && Leads(prog, m, n) == ExplicitLeads(from, m, i)
    ensures Lookup(t, n).Found? && ExplicitLeads(from, m, i) == {Lookup(t, n).binding}
  {
    hide Leads, ExplicitLeads;
    assert Shows(t.public, t.ambiguous, n, Leads(prog, m, n));
  }

  /** Where a name leads depends on the modules up to its own only. */
  lemma {:induction false} LeadsBelow(prog: Program, other: Program, limit: nat, m: nat, n: string)
    requires Ordered(prog) && Ordered(other) && m < limit <= |prog| == |other|
    requires forall k :: 0 <= k < limit ==> prog[k] == other[k]
    ensures Leads(prog, m, n) == Leads(other, m, n)
    decreases m
  {
    hide ExplicitLeads, Leads, LeadsFrom;
    LeadsIs(prog, m, n);
    LeadsIs(other, m, n);
    var e := Explicit(prog[m].items, n);
    if e.Some? {
      ExplicitIs(prog, m, e.value);
      ExplicitIs(other, m, e.value);
      if e.value.From? {
        LeadsBelow(prog, other, limit, e.value.source, e.value.original);
      }
    } else {
      forall i | i in prog[m].items && i.Star? ensures Leads(prog, i.source, n) == Leads(other, i.source, n) {
        LeadsBelow(prog, other, limit, i.source, n);
      }
      assert StarLeads(prog, prog[m].items, m, n) == StarLeads(other, other[m].items, m, n);
    }
  }

  lemma SameLookups(t: Table, u: Table)
    requires t.public.Keys !! t.ambiguous && u.public.Keys !! u.ambiguous && forall n :: Lookup(t, n) == Lookup(u, n)
    ensures t == u
  {
    forall n
      ensures (n in t.public <==> n in u.public) && (n in t.ambiguous <==> n in u.ambiguous)
      ensures n in t.public ==> t.public[n] == u.public[n]
    {
      assert Lookup(t, n) == Lookup(u, n);
    }
    assert t.public == u.public && t.ambiguous == u.ambiguous;
  }
}
