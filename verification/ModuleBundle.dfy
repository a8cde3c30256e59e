/**
 From the loaded modules to their export tables: the emission order renumbers the program so
 that every source of a re-export comes before the modules that use it.
 */
module ModuleBundle {
  import opened Wrappers
  import opened ModuleOrder
  import E = ModuleExports

  /** The position of `x` in `order`. */
  function Place(order: seq<nat>, x: nat): (i: nat)
    requires x in order
    ensures i < |order| && order[i] == x
  {
    if order[0] == x then 0 else 1 + Place(order[1..], x)
  }

  function RenumberItem(order: seq<nat>, i: E.Item): E.Item
    requires !i.Local? ==> i.source in order
  {
    match i
    case Local(_, _) => i
    case From(e, s, o) => E.From(e, Place(order, s), o)
    case Star(s) => E.Star(Place(order, s))
  }

  ghost predicate Within(order: seq<nat>, mods: seq<E.Module>) {
    && (forall k :: 0 <= k < |order| ==> order[k] < |mods|)
    && (forall m, i :: 0 <= m < |mods| && i in mods[m].items && !i.Local? ==> i.source in order)
  }

  /** Module `order[k]` becomes module `k`, sources included. */
  function Renumber(order: seq<nat>, mods: seq<E.Module>): (r: E.Program)
    requires Within(order, mods)
    ensures |r| == |order|
  {
    seq(|order|, k requires 0 <= k < |order| => RenumberModule(order, mods[order[k]]))
  }

  function RenumberModule(order: seq<nat>, m: E.Module): E.Module
    requires forall i :: i in m.items && !i.Local? ==> i.source in order
  {
    m.(items := seq(|m.items|, j requires 0 <= j < |m.items| => RenumberItem(order, m.items[j])))
  }

  /** Re-exports, by name or by star, are static dependencies of the loaded module. */
  ghost predicate Matching(ms: Modules, mods: seq<E.Module>) {
    && |ms| == |mods|
    && forall m, i :: 0 <= m < |mods| && i in mods[m].items && !i.Local? ==> i.source in ms[m].statics
  }

  lemma MatchingWithin(ms: Modules, mods: seq<E.Module>, order: seq<nat>)
    requires WellFormed(ms) && Matching(ms, mods) && IsEmissionOrder(ms, order)
    ensures Within(order, mods)
  {
    forall k | 0 <= k < |order| ensures order[k] < |mods| {
      assert order[k] in order;
    }
  }

  /** Along an emission order every source comes earlier. */
  lemma EmissionIsOrdered(ms: Modules, mods: seq<E.Module>, order: seq<nat>)
    requires WellFormed(ms) && Matching(ms, mods) && IsEmissionOrder(ms, order) && Within(order, mods)
    ensures E.Ordered(Renumber(order, mods))
  {
    var prog := Renumber(order, mods);
    forall k, i | 0 <= k < |prog| && i in prog[k].items && !i.Local? ensures i.source < k {
      var m := mods[order[k]];
      var j :| 0 <= j < |m.items| && RenumberItem(order, m.items[j]) == i;
      assert m.items[j] in m.items;
      EdgeDescends(ms, order, k, i.source);
    }
    forall k | 0 <= k < |prog| ensures E.OrderedItems(prog[k].items, k) {
    }
  }

  datatype BundleError = StaticCycle(path: seq<nat>) | Unresolved(m: nat, item: E.Item)

  /** Order, renumber, build the tables.  It stops at a static cycle exactly if there is one, and
      at an explicit export that names no binding; else the tables answer as ResolveExport. */
  method BundleExports(ms: Modules, mods: seq<E.Module>) returns (r: Result<(seq<nat>, seq<E.Table>), BundleError>)
    requires WellFormed(ms) && Matching(ms, mods)
    ensures r.Err? && r.error.StaticCycle? <==> !Acyclic(ms)
    ensures r.Err? && r.error.StaticCycle? ==> IsCycle(ms, r.error.path)
    ensures r.Ok? ==> Bundled(ms, mods, r.value.0, r.value.1)
    ensures r.Err? && r.error.Unresolved? ==> exists order :: Unlinkable(ms, mods, order)
  {
    var order := EmissionOrder(ms);
    if order.Err? {
      return Err(StaticCycle(order.error));
    }
    MatchingWithin(ms, mods, order.value);
    EmissionIsOrdered(ms, mods, order.value);
    var tables := E.ExportTables(Renumber(order.value, mods));
    if tables.Err? {
      assert Unlinkable(ms, mods, order.value);
      return Err(Unresolved(tables.error.0, tables.error.1));
    }
    return Ok((order.value, tables.value));
  }

  ghost predicate Bundled(ms: Modules, mods: seq<E.Module>, order: seq<nat>, tables: seq<E.Table>) {
    && IsEmissionOrder(ms, order) && IsPostOrder(ms, order)
    && Within(order, mods) && E.Ordered(Renumber(order, mods))
    && |tables| == |order| && (forall m: nat :: m < |order| ==> E.Linkable(Renumber(order, mods), m))
    && forall m: nat, n: string :: m < |order| ==>
         E.Lookup(tables[m], n) == E.Resolve(Renumber(order, mods), m, n, {}).0
  }

  ghost predicate Unlinkable(ms: Modules, mods: seq<E.Module>, order: seq<nat>) {
    && IsEmissionOrder(ms, order) && Within(order, mods) && E.Ordered(Renumber(order, mods))
    && exists m: nat :: m < |order| && !E.Linkable(Renumber(order, mods), m)
  }
}
