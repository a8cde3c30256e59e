/**
 The tracing bump arena seen through one simple map of records.

 `View` is what a client of the arena can observe: the record of every traced allocation
 (settled or still pending), the bytes each bump generation has handed out since its own last
 reset, side edges, roots, pins and hooks.  The functions here say what each operation does to
 a view; `ArenaHeap.Arena` carries the operations out on the real representation.

 Reads of raw memory are a parameter (`Memory`), and so is the address the bump allocator
 picks; `Fits` is the allocator's contract.
 */
module ArenaModel {
  import opened Wrappers
  import opened Closure

  const WORD: nat := 8
  const U64_MAX: nat := 0xFFFF_FFFF_FFFF_FFFF
  const AUTO_RESET_FLOOR: nat := 0x10_0000

  type Memory = nat -> nat

  datatype AllocationId = AllocationId(base: nat, serial: nat)

  /** `serial` 0 means that the serial counter ran out. */
  datatype AllocRecord = AllocRecord(size: nat, generation: nat, serial: nat)

  type Table = map<nat, AllocRecord>

  type EdgeKey = (AllocationId, nat)

  datatype View = View(
    retained: seq<set<nat>>,
    current: set<nat>,
    index: Table,
    nextId: nat,
    epoch: Option<nat>,
    roots: set<nat>,
    reclaimed: set<(nat, nat)>,
    references: map<nat, seq<nat>>,
    edges: map<EdgeKey, seq<nat>>,
    tracing: bool,
    pinned: map<nat, nat>,
    hooks: seq<nat>,
    metadataHooks: seq<nat>,
    active: bool,
    bytes: nat)

  // ---- lookup in a simple map of records ----------------------------------------------

  predicate IsNearest(t: Table, p: nat, b: nat) {
    b in t && b <= p && forall c :: c in t && c <= p ==> c <= b
  }

  lemma NearestExists(t: Table, p: nat)
    requires exists b :: b in t && b <= p
    ensures exists b :: IsNearest(t, p, b)
  {
    var s := set b | b in t && b <= p;
    var w :| w in t && w <= p;
    assert w in s;
    var m := Greatest(s);
    assert forall c :: c in t && c <= p ==> c in s;
    assert IsNearest(t, p, m);
  }

  /** The greatest element of a non-empty set. */
  lemma {:induction false} Greatest(s: set<nat>) returns (m: nat)
    requires s != {}
    ensures m in s && forall x :: x in s ==> x <= m
    decreases |s|
  {
    var y :| y in s;
    if s == {y} {
      m := y;
    } else {
      assert s - {y} != {};
      var z := Greatest(s - {y});
      m := if z < y then y else z;
      assert forall x :: x in s ==> x == y || x in s - {y};
    }
  }

  /** The greatest base `<= p`, as an ordered map's range query finds it. */
  function Nearest(t: Table, p: nat): (r: Option<nat>)
    ensures r.Some? ==> IsNearest(t, p, r.value)
    ensures r.None? ==> forall b :: b in t ==> p < b
  {
    if b :| b in t && b <= p then
      NearestExists(t, p);
      var n :| n in t && IsNearest(t, p, n);
      Some(n)
    else
      None
  }

  /** The base of the record containing `p`: the nearest base, if its extent reaches `p`. */
  function Find(t: Table, p: nat): (r: Option<nat>)
    ensures r.Some? ==> r.value in t && r.value <= p < r.value + t[r.value].size
  {
    match Nearest(t, p)
    case None => None
    case Some(b) => if p - b < t[b].size then Some(b) else None
  }

  function Identity(v: View, p: nat): (r: Option<AllocationId>)
    ensures r.Some? ==> r.value.serial != 0 && r.value.base in v.index
                        && v.index[r.value.base].serial == r.value.serial
  {
    if p == 0 || !v.tracing then None
    else match Find(v.index, p)
      case None => None
      case Some(b) =>
        if v.index[b].serial == 0 then None else Some(AllocationId(b, v.index[b].serial))
  }

  // ---- the graph a traced reset marks -------------------------------------------------

  function Elements(s: seq<nat>): set<nat> { set x | x in s }

  function Children<K>(m: map<K, seq<nat>>, k: K): set<nat> {
    if k in m then Elements(m[k]) else {}
  }

  /** The pointer-sized words that lie wholly inside an allocation. */
  function WordsOf(read: Memory, base: nat, size: nat): seq<nat> {
    seq(size / WORD, i requires 0 <= i => read(base + i * WORD))
  }

  /** Side edges of an allocation incarnation count only at its own byte addresses. */
  function EdgeChildren(v: View, p: nat): set<nat> {
    match Find(v.index, p)
    case None => {}
    case Some(b) =>
      if v.index[b].serial == 0 then {} else
      Children(v.edges, (AllocationId(b, v.index[b].serial), p))
  }

  function SideNodes(v: View, p: nat): set<nat> {
    Children(v.references, p) + EdgeChildren(v, p)
  }

  function HeapWords(t: Table, read: Memory, b: nat): set<nat> {
    if b in t then Elements(WordsOf(read, b, t[b].size)) else {}
  }

  /** Root contents, the root slots themselves, and pinned addresses. */
  function Start(v: View, read: Memory): set<nat> {
    (set s | s in v.roots :: read(s)) + v.roots + v.pinned.Keys
  }

  /** Nodes are byte addresses: an interior pointer keeps its allocation alive, but side edges
      are followed only from the exact owner address. */
  function GraphOf(v: View, read: Memory): Graph {
    Graph(Start(v, read), p => SideNodes(v, p), p => Find(v.index, p), b => HeapWords(v.index, read, b))
  }

  ghost predicate Visited(v: View, read: Memory, n: nat) {
    Reached(GraphOf(v, read), n)
  }

  ghost predicate Alive(v: View, read: Memory, b: nat) {
    exists n :: Visited(v, read, n) && Find(v.index, n) == Some(b)
  }

  ghost function Live(v: View, read: Memory): set<nat> {
    set b | b in v.index && Alive(v, read, b)
  }

  // ---- generations --------------------------------------------------------------------

  function Bumps(v: View): (r: seq<set<nat>>)
    ensures |r| == |v.retained| + 1
  {
    v.retained + [v.current]
  }

  /** How many kept generations precede `n`: the number a kept generation `n` gets. */
  function Rank(keep: set<nat>, n: nat): nat {
    if n == 0 then 0 else Rank(keep, n - 1) + if n - 1 in keep then 1 else 0
  }

  /** The first `n` bumps, those of unkept generations dropped. */
  function Kept(bumps: seq<set<nat>>, keep: set<nat>, n: nat): (r: seq<set<nat>>)
    requires n <= |bumps|
    ensures |r| == Rank(keep, n)
  {
    if n == 0 then []
    else Kept(bumps, keep, n - 1) + if n - 1 in keep then [bumps[n - 1]] else []
  }

  // ---- what a reset does, before its hooks run ----------------------------------------

  ghost function Generations(v: View, live: set<nat>): set<nat>
    requires live <= v.index.Keys
  {
    set b | b in live :: v.index[b].generation
  }

  ghost function Survivors(v: View, live: set<nat>): Table
    requires live <= v.index.Keys
  {
    map b | b in live ::
      v.index[b].(generation := Rank(Generations(v, live), v.index[b].generation))
  }

  ghost function DeadRanges(t: Table, live: set<nat>): set<(nat, nat)> {
    set b | b in t && b !in live :: (b, b + t[b].size)
  }

  ghost predicate EdgeSurvives(v: View, live: set<nat>, k: EdgeKey) {
    && k.0.base in live && k.0.base in v.index
    && v.index[k.0.base].serial == k.0.serial
    && k.0.base <= k.1 < k.0.base + v.index[k.0.base].size
  }

  ghost function TracedReset(v: View, read: Memory): View {
    var live := Live(v, read);
    var keep := Generations(v, live);
    v.(retained := Kept(Bumps(v), keep, |Bumps(v)|),
       current := {},
       index := Survivors(v, live),
       reclaimed := DeadRanges(v.index, live),
       references := map o | o in v.references && (o in live || Visited(v, read, o)) :: v.references[o],
       edges := map k | k in v.edges && EdgeSurvives(v, live, k) :: v.edges[k],
       bytes := 0)
  }

  /** Without tracing a reset is a plain bulk reset of the current bump. */
  ghost function ResetCore(v: View, read: Memory): View {
    if v.tracing then TracedReset(v, read)
    else v.(current := {}, edges := map[], bytes := 0)
  }

  // ---- the other operations -----------------------------------------------------------

  function Extent(base: nat, size: nat): (r: set<nat>)
    ensures forall x :: x in r <==> base <= x < base + size
  {
    if size == 0 then {} else Extent(base, size - 1) + {base + size - 1}
  }

  function Max(a: nat, b: nat): nat { if a < b then b else a }
  function SaturatingAdd(a: nat, b: nat): nat { if a + b > U64_MAX then U64_MAX else a + b }
  function SaturatingDouble(a: nat): nat { if 2 * a > U64_MAX then U64_MAX else 2 * a }

  /** The serial the next allocation gets: 0 once the 64-bit counter is exhausted. */
  function NextSerial(nextId: nat): nat { if nextId < U64_MAX then nextId + 1 else 0 }

  function BumpEpoch(epoch: Option<nat>): Option<nat> {
    match epoch
    case Some(e) => if e < U64_MAX then Some(e + 1) else None
    case None => None
  }

  /** The allocator's contract: fresh bytes are disjoint from every byte the current bump has
      handed out since its last reset, and from every retained bump. */
  predicate Fits(v: View, base: nat, size: nat) {
    && base != 0
    && Extent(base, size) !! v.current
    && forall i :: 0 <= i < |v.retained| ==> Extent(base, size) !! v.retained[i]
  }

  /** `answer` is what the bump allocator returns; `None` stands for a refused layout or an
      exhausted allocator. */
  function AllocStep(v: View, size: nat, answer: Option<nat>): View {
    match answer
    case None => v
    case Some(base) =>
      var w := v.(current := v.current + Extent(base, size), bytes := SaturatingAdd(v.bytes, size));
      if !v.tracing then w else
      w.(index := v.index[base := AllocRecord(Max(size, 1), |v.retained|, NextSerial(v.nextId))],
         nextId := if v.nextId < U64_MAX then v.nextId + 1 else v.nextId,
         epoch := BumpEpoch(v.epoch))
  }

  function Position(s: seq<nat>, x: nat): (r: Option<nat>)
    ensures r.None? ==> x !in s
    ensures r.Some? ==> r.value < |s| && s[r.value] == x && x !in s[..r.value]
  {
    if s == [] then None
    else if s[0] == x then Some(0)
    else
      var r := Position(s[1..], x);
      if r.None? then None else
        assert s[..r.value + 1] == [s[0]] + s[1..][..r.value];
        Some(r.value + 1)
  }

  function RemoveFirst(s: seq<nat>, x: nat): seq<nat> {
    match Position(s, x)
    case None => s
    case Some(i) => s[..i] + s[i + 1..]
  }

  /** Drops one occurrence of `previous` and appends `next` unless it is null. */
  function ReplaceChild(s: seq<nat>, previous: nat, next: nat): seq<nat> {
    RemoveFirst(s, previous) + if next != 0 then [next] else []
  }

  function Get<K>(m: map<K, seq<nat>>, k: K): seq<nat> { if k in m then m[k] else [] }

  /** An empty child list leaves no entry behind. */
  function PutOrDrop(m: map<EdgeKey, seq<nat>>, k: EdgeKey, s: seq<nat>): map<EdgeKey, seq<nat>> {
    if s == [] then m - {k} else m[k := s]
  }

  function PinStep(v: View, p: nat): View {
    if !v.tracing || p == 0 then v
    else v.(pinned := v.pinned[p := (if p in v.pinned then v.pinned[p] else 0) + 1])
  }

  function UnpinStep(v: View, p: nat): View {
    if p !in v.pinned then v
    else if v.pinned[p] <= 1 then v.(pinned := v.pinned - {p})
    else v.(pinned := v.pinned[p := v.pinned[p] - 1])
  }

  function ReplaceReferenceStep(v: View, owner: nat, previous: nat, next: nat): View {
    if !v.tracing then v
    else v.(references := v.references[owner := ReplaceChild(Get(v.references, owner), previous, next)])
  }

  function ReplaceEdgeStep(v: View, id: AllocationId, owner: nat, previous: nat, next: nat): View {
    if Identity(v, owner) != Some(id) then v
    else v.(edges := PutOrDrop(v.edges, (id, owner), ReplaceChild(Get(v.edges, (id, owner)), previous, next)))
  }

  function RemoveEdgeStep(v: View, id: AllocationId, owner: nat, child: nat): View {
    if (id, owner) !in v.edges then v
    else v.(edges := PutOrDrop(v.edges, (id, owner), RemoveFirst(v.edges[(id, owner)], child)))
  }

  function AddHook(hooks: seq<nat>, h: nat): seq<nat> {
    if h in hooks then hooks else hooks + [h]
  }

  datatype BaseOp =
    | Alloc(size: nat, answer: Option<nat>)
    | LookUp(pointer: nat)
    | TakeSnapshot
    | Pin(pointer: nat)
    | Unpin(pointer: nat)
    | ReplaceReference(owner: nat, previous: nat, next: nat)
    | ForgetReferences(owner: nat)
    | ReplaceEdge(id: AllocationId, owner: nat, previous: nat, next: nat)
    | RemoveEdge(id: AllocationId, owner: nat, child: nat)
    | RegisterRoot(slot: nat)
    | UnregisterRoot(slot: nat)
    | RegisterHook(hook: nat)
    | RegisterMetadataHook(hook: nat)
    | EnableTracing

  function BaseStep(v: View, op: BaseOp): View {
    match op
    case Alloc(size, answer) => AllocStep(v, size, answer)
    case LookUp(_) => v
    case TakeSnapshot => v
    case Pin(p) => PinStep(v, p)
    case Unpin(p) => UnpinStep(v, p)
    case ReplaceReference(o, prev, next) => ReplaceReferenceStep(v, o, prev, next)
    case ForgetReferences(o) => v.(references := v.references - {o})
    case ReplaceEdge(id, o, prev, next) => ReplaceEdgeStep(v, id, o, prev, next)
    case RemoveEdge(id, o, child) => RemoveEdgeStep(v, id, o, child)
    case RegisterRoot(s) => v.(roots := v.roots + {s}, tracing := true)
    case UnregisterRoot(s) =>
      if s in v.roots then v.(roots := v.roots - {s}, references := v.references - {s}) else v
    case RegisterHook(h) => v.(hooks := AddHook(v.hooks, h))
    case RegisterMetadataHook(h) => v.(metadataHooks := AddHook(v.metadataHooks, h))
    case EnableTracing => v.(tracing := true)
  }

  // ---- hooks --------------------------------------------------------------------------

  /** What a reset hook may do: any operation, and calls of reset, which are ignored. */
  datatype HookOp = Perform(op: BaseOp) | ResetAgain | ResetIfGrownAgain

  datatype Call = MetadataCall(hook: nat) | ReleaseCall(hook: nat)

  /** A run's hooks: the operations each call performs. */
  type Scripts = Call -> seq<HookOp>

  function HookStep(v: View, op: HookOp): View {
    if op.Perform? then BaseStep(v, op.op) else v
  }

  function RunScript(v: View, ops: seq<HookOp>): View {
    if ops == [] then v else HookStep(RunScript(v, ops[..|ops| - 1]), ops[|ops| - 1])
  }

  function RunCalls(v: View, calls: seq<Call>, scripts: Scripts): View {
    if calls == [] then v
    else RunScript(RunCalls(v, calls[..|calls| - 1], scripts), scripts(calls[|calls| - 1]))
  }

  function MetadataList(hooks: seq<nat>): (r: seq<Call>)
    ensures |r| == |hooks| && forall i :: 0 <= i < |hooks| ==> r[i] == MetadataCall(hooks[i])
  {
    seq(|hooks|, i requires 0 <= i < |hooks| => MetadataCall(hooks[i]))
  }

  function ReleaseList(hooks: seq<nat>): (r: seq<Call>)
    ensures |r| == |hooks| && forall i :: 0 <= i < |hooks| ==> r[i] == ReleaseCall(hooks[i])
  {
    seq(|hooks|, i requires 0 <= i < |hooks| => ReleaseCall(hooks[i]))
  }

  /** The release list is read only after the metadata hooks have run. */
  ghost function AfterMetadata(v: View, read: Memory, scripts: Scripts): View {
    var w := ResetCore(v, read).(active := true);
    RunCalls(w, MetadataList(w.metadataHooks), scripts)
  }

  ghost function ResetStep(v: View, read: Memory, scripts: Scripts): View {
    if v.active then v else
    var m := AfterMetadata(v, read, scripts);
    RunCalls(m, ReleaseList(m.hooks), scripts).(active := false)
  }

  ghost function ResetEvents(v: View, read: Memory, scripts: Scripts): seq<Call> {
    if v.active then [] else
    MetadataList(v.metadataHooks) + ReleaseList(AfterMetadata(v, read, scripts).hooks)
  }
}
