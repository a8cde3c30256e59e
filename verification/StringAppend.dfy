/**
 `s += right` in a loop: the string is grown in place while no one else can see its buffer.
 Strings are NUL-terminated buffers; a string with an embedded NUL has its length on record.
 */
module StringAppend {
  import opened Wrappers
  import opened Wtf8

  type Bytes = seq<Byte>

  /** The literal text of a null string pointer. */
  const UNDEFINED: Bytes := [0x75, 0x6E, 0x64, 0x65, 0x66, 0x69, 0x6E, 0x65, 0x64]

  /** The bytes before the first NUL. */
  function UpToNul(b: Bytes): (r: Bytes)
    ensures r <= b && 0 !in r
    ensures |r| < |b| ==> b[|r|] == 0
  {
    if b == [] || b[0] == 0 then [] else [b[0]] + UpToNul(b[1..])
  }

  lemma {:induction false} UpToNulIs(b: Bytes, n: nat)
    requires n < |b| && b[n] == 0 && 0 !in b[..n]
    ensures UpToNul(b) == b[..n]
  {
    if n > 0 {
      assert b[0] in b[..n] && b[1..][..n - 1] == b[..n][1..];
      UpToNulIs(b[1..], n - 1);
    }
  }

  /** The buffers handed out so far, by address, and the lengths on record. */
  datatype Store = Store(buffers: map<nat, Bytes>, lengths: map<nat, nat>)

  predicate Live(h: Store, p: nat) { p == 0 || p in h.buffers }

  ghost predicate StoreOk(h: Store) {
    && 0 !in h.buffers
    && (forall p :: p in h.lengths ==> p in h.buffers && h.lengths[p] <= |h.buffers[p]|)
  }

  /** What a program sees behind a string pointer. */
  function Text(h: Store, p: nat): Bytes
    requires StoreOk(h) && Live(h, p)
  {
    if p == 0 then UNDEFINED
    else if p in h.lengths then h.buffers[p][..h.lengths[p]]
    else UpToNul(h.buffers[p])
  }

  /** A buffer holding `text`, terminated, with room behind it. */
  ghost predicate Holds(h: Store, p: nat, text: Bytes, capacity: nat) {
    && p in h.buffers && p !in h.lengths && 0 !in text
    && |text| < capacity == |h.buffers[p]|
    && text <= h.buffers[p] && h.buffers[p][|text|] == 0
  }

  lemma HoldsText(h: Store, p: nat, text: Bytes, capacity: nat)
    requires StoreOk(h) && Holds(h, p, text, capacity)
    ensures Text(h, p) == text
  {
    UpToNulIs(h.buffers[p], |text|);
    assert h.buffers[p][..|text|] == text;
  }

  /** Nothing but buffer `p` differs. */
  ghost predicate SameExcept(h: Store, k: Store, p: nat) {
    && (forall q :: q in h.buffers && q != p ==> q in k.buffers && k.buffers[q] == h.buffers[q])
    && (forall q :: q in h.buffers && q != p ==> (q in k.lengths <==> q in h.lengths))
    && (forall q :: q in h.buffers && q != p && q in h.lengths ==> k.lengths[q] == h.lengths[q])
  }

  lemma SameText(h: Store, k: Store, p: nat, q: nat)
    requires StoreOk(h) && StoreOk(k) && SameExcept(h, k, p) && Live(h, q) && q != p
    ensures Live(k, q) && Text(k, q) == Text(h, q)
  {
  }

  /** Everyone who was handed a string still sees the same text. */
  ghost predicate Keeps(h: Store, held: map<nat, Bytes>)
    requires StoreOk(h)
  {
    forall p :: p in held ==> Live(h, p) && Text(h, p) == held[p]
  }

  lemma StillKeeps(h: Store, k: Store, p: nat, held: map<nat, Bytes>)
    requires StoreOk(h) && StoreOk(k) && SameExcept(h, k, p) && Keeps(h, held) && p !in held
    ensures Keeps(k, held)
  {
    forall q | q in held ensures Live(k, q) && Text(k, q) == held[q] {
      SameText(h, k, p, q);
    }
  }

  lemma NotHeld(h: Store, held: map<nat, Bytes>, p: nat)
    requires StoreOk(h) && Keeps(h, held) && p != 0 && p !in h.buffers
    ensures p !in held
  {
  }

  /** Costs: `moved` bytes went to fresh buffers while `n` bytes were gathered in `capacity`. */
  predicate Proportionate(moved: nat, n: nat, capacity: nat) {
    capacity > 0 && 2 * moved <= 5 * n && 4 * moved <= 5 * (capacity - 1)
  }

  /** A move that doubles pays for the moves before it. */
  lemma MoveIsProportionate(moved: nat, n: nat, capacity: nat, total: nat, wasOwned: bool)
    requires wasOwned ==> Proportionate(moved, n, capacity) && total >= capacity
    requires !wasOwned ==> moved == 0
    ensures Proportionate(moved + total, total, total + Spare(total, true, wasOwned) + 1)
  {
  }

  // ---- in place -----------------------------------------------------------------------

  function Overwritten(b: Bytes, n: nat, right: Bytes): (r: Bytes)
    requires n + |right| < |b|
    ensures |r| == |b|
  {
    b[..n] + right + [0] + b[n + |right| + 1..]
  }

  lemma OverwrittenHolds(h: Store, p: nat, text: Bytes, capacity: nat, right: Bytes)
    requires StoreOk(h) && Holds(h, p, text, capacity) && |text| + |right| < capacity && 0 !in right
    ensures var k := h.(buffers := h.buffers[p := Overwritten(h.buffers[p], |text|, right)]);
            StoreOk(k) && Holds(k, p, text + right, capacity) && SameExcept(h, k, p)
  {
    var b := h.buffers[p];
    var c := Overwritten(b, |text|, right);
    assert b[..|text|] == text;
    assert c == text + right + ([0] + b[|text| + |right| + 1..]);
    assert c[|text + right|] == 0;
  }

  // ---- a fresh buffer -----------------------------------------------------------------

  function Spare(total: nat, clean: bool, wasOwned: bool): nat {
    if !clean then 0 else if wasOwned then total else total / 8 + 16
  }

  lemma SpareIsModest(total: nat, clean: bool, wasOwned: bool)
    ensures Spare(total, clean, wasOwned) <= total + 16
  {
  }

  /** The store after a fresh buffer is written and registered. */
  function Allocated(h: Store, p: nat, text: Bytes, junk: Bytes): Store {
    Store(h.buffers[p := text + [0] + junk], if 0 in text then h.lengths[p := |text|] else h.lengths)
  }

  lemma AllocatedHolds(h: Store, p: nat, text: Bytes, junk: Bytes)
    requires StoreOk(h) && p != 0 && p !in h.buffers
    ensures var k := Allocated(h, p, text, junk);
            && StoreOk(k) && SameExcept(h, k, p) && Live(k, p) && Text(k, p) == text
            && (0 !in text ==> Holds(k, p, text, |text| + 1 + |junk|))
  {
    var k := Allocated(h, p, text, junk);
    var b := k.buffers[p];
    assert b == text + ([0] + junk) && b[|text|] == 0;
    assert b[..|text|] == text;
    if 0 !in text {
      assert p !in h.lengths;
      UpToNulIs(b, |text|);
    }
  }

  lemma AllocatedKeys(h: Store, p: nat, text: Bytes, junk: Bytes)
    ensures Allocated(h, p, text, junk).buffers.Keys == h.buffers.Keys + {p}
  {
  }

  // ---- the variable -------------------------------------------------------------------

  /** One string variable of a loop.  `held` are the strings others have seen, with the text they
      had then; `text` is what the variable should hold. */
  class StringVariable {
    var store: Store
    var owned: nat
    var length: nat
    var capacity: nat
    var current: nat
    ghost var text: Bytes
    ghost var held: map<nat, Bytes>

    /** Since the loop was entered: bytes copied in place and into fresh buffers, and whether
        the variable was left unread and everything was free of NULs. */
    ghost var inPlace: nat
    ghost var moved: nat
    ghost var plain: bool

    constructor (store: Store, start: nat, others: set<nat>)
      requires StoreOk(store) && Live(store, start) && forall p :: p in others ==> Live(store, p)
      ensures Valid() && this.store == store && current == start && text == Text(store, start)
      ensures held == map p | p in others + {start} :: Text(store, p)
      ensures inPlace == moved == 0 && plain == (0 !in text)
    {
      this.store, current := store, start;
      owned, length, capacity := 0, 0, 0;
      text := Text(store, start);
      held := map p | p in others + {start} :: Text(store, p);
      inPlace, moved, plain := 0, 0, 0 !in Text(store, start);
    }

    ghost predicate Valid()
      reads this
    {
      && StoreOk(store) && Live(store, current) && Text(store, current) == text
      && Keeps(store, held)
      && (owned != 0 ==> owned == current && owned !in held && length == |text| && Holds(store, owned, text, capacity))
      && (owned != 0 ==> capacity <= 2 * |text| + 17)
      && CostOk()
    }

    /** Fresh buffers double, so what was moved stays proportionate to the room gained. */
    ghost predicate CostOk()
      reads this
    {
      plain ==>
        && 0 !in text && inPlace <= |text|
        && if owned == 0 then moved == inPlace == 0
           else Proportionate(moved, |text|, capacity)
    }

    /** A read hands the string out and gives up the right to grow it in place. */
    method Read() returns (p: nat)
      requires Valid()
      modifies this
      ensures Valid() && p == current == old(current) && store == old(store) && text == old(text) && owned == 0
      ensures held == old(held)[p := text] && !plain
    {
      owned := 0;
      p := current;
      held := held[p := text];
      plain := false;
    }

    /** Appends the string at `right`.  A fresh buffer, if needed, is at `fresh`; 0 means that
        there is no memory, and then nothing changes. */
    method Append(right: nat, fresh_: nat, junk: nat -> Byte) returns (p: nat)
      requires Valid() && Live(store, right) && fresh_ !in store.buffers
      modifies this
      ensures Valid() && held == old(held)
      ensures p == 0 ==> current == old(current) && text == old(text) && store == old(store) && plain == old(plain)
      ensures p != 0 ==> p == current && text == old(text) + Text(old(store), right)
      ensures p != 0 ==> plain == (old(plain) && 0 !in Text(old(store), right))
      ensures p == 0 ==> fresh_ == 0
      ensures p != 0 ==>
                var stays := old(owned) != 0 && 0 !in Text(old(store), right) && |text| < old(capacity);
                if stays then
                  p == old(current) && inPlace == old(inPlace) + |Text(old(store), right)| && moved == old(moved)
                else p == fresh_ && inPlace == old(inPlace) && moved == old(moved) + |text|
      ensures store.buffers.Keys <= old(store).buffers.Keys + {fresh_}
    {
      var rightBytes := Text(store, right);
      var rightClean := 0 !in rightBytes;
      if owned != 0 && owned == current && rightClean {
        var total := length + |rightBytes|;
        if total < capacity {
          GrowInPlace(rightBytes);
          return current;
        }
      }
      p := Move(rightBytes, fresh_, junk);
    }

    method GrowInPlace(rightBytes: Bytes)
      requires Valid() && owned != 0 && 0 !in rightBytes && length + |rightBytes| < capacity
      modifies this
      ensures Valid() && held == old(held) && current == old(current) && text == old(text) + rightBytes &&
              plain == old(plain)
      ensures inPlace == old(inPlace) + |rightBytes| && moved == old(moved) &&
              store.buffers.Keys == old(store).buffers.Keys
    {
      OverwrittenHolds(store, owned, text, capacity, rightBytes);
      ghost var before := store;
      store := store.(buffers := store.buffers[owned := Overwritten(store.buffers[owned], length, rightBytes)]);
      length := length + |rightBytes|;
      text := text + rightBytes;
      inPlace := inPlace + |rightBytes|;
      HoldsText(store, owned, text, capacity);
      StillKeeps(before, store, owned, held);
    }

    method Move(rightBytes: Bytes, fresh_: nat, junk: nat -> Byte) returns (p: nat)
      requires Valid() && fresh_ !in store.buffers
      requires owned != 0 && 0 !in rightBytes ==> length + |rightBytes| >= capacity
      modifies this
      ensures Valid() && held == old(held) && p == fresh_
      ensures fresh_ == 0 ==> current == old(current) && text == old(text) && store == old(store) && plain == old(plain)
      ensures fresh_ != 0 ==>
                current == p && text == old(text) + rightBytes && plain == (old(plain) && 0 !in rightBytes)
      ensures fresh_ != 0 ==> moved == old(moved) + |text| && inPlace == old(inPlace)
      ensures store.buffers.Keys <= old(store).buffers.Keys + {fresh_}
    {
      var leftBytes := Text(store, current);
      var total := |leftBytes| + |rightBytes|;
      var wasOwned := owned != 0 && owned == current;
      var clean := 0 !in rightBytes && 0 !in leftBytes;
      var spare := Spare(total, clean, wasOwned);
      if fresh_ == 0 {
        return 0;
      }
      var all := leftBytes + rightBytes;
      var room := seq(spare, i requires 0 <= i < spare => junk(i));
      CleanParts(leftBytes, rightBytes);
      if clean {
        InstallOwned(fresh_, all, room, wasOwned);
      } else {
        InstallShared(fresh_, all, room);
      }
      return fresh_;
    }

    /** The variable moves to a fresh buffer of its own. */
    method InstallOwned(p: nat, all: Bytes, room: Bytes, ghost wasOwned: bool)
      requires Valid() && p != 0 && p !in store.buffers && 0 !in all && wasOwned == (owned != 0)
      requires |room| == Spare(|all|, true, wasOwned) && |text| <= |all| && (wasOwned ==> |all| >= capacity)
      modifies this
      ensures Valid() && held == old(held) && current == p && text == all && plain == old(plain)
      ensures moved == old(moved) + |all| && inPlace == old(inPlace) &&
              store.buffers.Keys == old(store).buffers.Keys + {p}
    {
      hide StoreOk, Holds, Keeps, SameExcept, Text, Allocated, Spare, Proportionate;
      var next := Allocated(store, p, all, room);
      NotHeld(store, held, p);
      AllocatedHolds(store, p, all, room);
      AllocatedKeys(store, p, all, room);
      SpareIsModest(|all|, true, wasOwned);
      StillKeeps(store, next, p, held);
      if plain {
        MoveIsProportionate(moved, |text|, capacity, |all|, wasOwned);
      }
      store, current, text := next, p, all;
      owned, length, capacity := p, |all|, |all| + |room| + 1;
      moved := moved + |all|;
    }

    /** A string with an embedded NUL is never grown in place. */
    method InstallShared(p: nat, all: Bytes, room: Bytes)
      requires Valid() && p != 0 && p !in store.buffers && 0 in all
      modifies this
      ensures Valid() && held == old(held) && current == p && text == all && !plain
      ensures moved == old(moved) + |all| && inPlace == old(inPlace) &&
              store.buffers.Keys == old(store).buffers.Keys + {p}
    {
      hide StoreOk, Holds, Keeps, SameExcept, Text, Allocated;
      var next := Allocated(store, p, all, room);
      NotHeld(store, held, p);
      AllocatedHolds(store, p, all, room);
      AllocatedKeys(store, p, all, room);
      StillKeeps(store, next, p, held);
      store, current, text := next, p, all;
      owned, plain, moved := 0, false, moved + |all|;
    }
  }

  lemma CleanParts(left: Bytes, right: Bytes)
    ensures 0 in left + right <==> 0 in left || 0 in right
  {
  }

  // ---- whole loops --------------------------------------------------------------------

  /** A loop body: append a string known from elsewhere, append what an earlier read of the same
      run handed out, or read the variable. */
  datatype Op = Add(right: nat) | AddSeen(read: nat) | See

  /** Operands exist: other strings are known at the start, reads come before their use. */
  ghost predicate Proper(ops: seq<Op>, others: map<nat, Bytes>) {
    forall k :: 0 <= k < |ops| ==>
      && (ops[k].Add? ==> ops[k].right in others)
      && (ops[k].AddSeen? ==> ops[k].read < k && ops[ops[k].read].See?)
  }

  /** The text of the variable after the operations, as concatenation gives it. */
  ghost function Gathered(text: Bytes, ops: seq<Op>, others: map<nat, Bytes>): Bytes
    requires Proper(ops, others)
    decreases |ops|
  {
    if ops == [] then text
    else Gathered(text, ops[..|ops| - 1], others) + Operand(text, ops, |ops| - 1, others)
  }

  /** What operation `k` appends. */
  ghost function Operand(text: Bytes, ops: seq<Op>, k: nat, others: map<nat, Bytes>): Bytes
    requires Proper(ops, others) && k < |ops|
    decreases k
  {
    match ops[k]
    case Add(right) => others[right]
    case AddSeen(j) => Gathered(text, ops[..j], others)
    case See => []
  }

  ghost predicate Plain(ops: seq<Op>, others: map<nat, Bytes>) {
    forall op :: op in ops ==> op.Add? && op.right in others && 0 !in others[op.right]
  }

  /** The pointers handed out by the first `k` operations are held with the text they had then. */
  ghost predicate Handed(held: map<nat, Bytes>, text: Bytes, ops: seq<Op>, k: nat, others: map<nat, Bytes>,
                         seen: seq<nat>)
    requires k <= |ops| && Proper(ops, others)
  {
    && |seen| == k
    && (forall p :: p in others ==> p in held && held[p] == others[p])
    && (forall i :: 0 <= i < k && ops[i].See? ==>
          seen[i] in held && held[seen[i]] == Gathered(text, ops[..i], others))
  }

  lemma HandedNext(before: map<nat, Bytes>, held: map<nat, Bytes>, text: Bytes, ops: seq<Op>, k: nat,
                   others: map<nat, Bytes>, seen: seq<nat>, p: nat)
    requires k < |ops| && Proper(ops, others) && Handed(before, text, ops, k, others, seen)
    requires forall q :: q in before ==> q in held && held[q] == before[q]
    requires ops[k].See? ==> p in held && held[p] == Gathered(text, ops[..k], others)
    ensures Handed(held, text, ops, k + 1, others, seen + [p])
  {
    hide Gathered;
  }

  /** The pointer that operation `k` appends from is held with the text it is to append. */
  lemma OperandHeld(held: map<nat, Bytes>, text: Bytes, ops: seq<Op>, k: nat, others: map<nat, Bytes>, seen: seq<nat>)
    requires k < |ops| && Proper(ops, others) && Handed(held, text, ops, k, others, seen) && !ops[k].See?
    ensures |seen| == k && (ops[k].AddSeen? ==> ops[k].read < k)
    ensures var right := if ops[k].Add? then ops[k].right else seen[ops[k].read];
            right in held && held[right] == Operand(text, ops, k, others)
  {
    hide Gathered;
  }

  lemma {:induction false} GatheredNext(text: Bytes, ops: seq<Op>, k: nat, others: map<nat, Bytes>)
    requires k < |ops| && Proper(ops, others)
    ensures Gathered(text, ops[..k + 1], others) == Gathered(text, ops[..k], others) + Operand(text, ops, k, others)
    ensures ops[k].See? ==> Operand(text, ops, k, others) == []
    ensures Plain(ops[..k + 1], others) ==>
              Plain(ops[..k], others) && ops[k].Add? && 0 !in Operand(text, ops, k, others)
  {
    assert ops[..k + 1][..k] == ops[..k] && ops[..k + 1][k] == ops[k];
    if ops[k].AddSeen? {
      assert ops[..k + 1][..ops[k].read] == ops[..ops[k].read];
    }
    if Plain(ops[..k + 1], others) {
      assert ops[k] in ops[..k + 1];
      assert forall op :: op in ops[..k] ==> op in ops[..k + 1];
    }
  }

  /** One operation of the loop; `right` is what an append takes. */
  method RunOp(v: StringVariable, op: Op, right: nat, address: nat, junk: nat -> Byte) returns (p: nat)
    requires v.Valid() && (!op.See? ==> right in v.held) && address != 0 && address !in v.store.buffers
    modifies v
    ensures v.Valid() && (forall q :: q in old(v.held) ==> q in v.held && v.held[q] == old(v.held)[q])
    ensures v.text == old(v.text) + if op.See? then [] else old(v.held)[right]
    ensures op.See? ==> p in v.held && v.held[p] == old(v.text)
    ensures old(v.plain) && !op.See? && 0 !in old(v.held)[right] ==> v.plain
    ensures v.store.buffers.Keys <= old(v.store).buffers.Keys + {address}
  {
    if op.See? {
      assert v.current in v.held ==> v.held[v.current] == v.text;
      p := v.Read();
    } else {
      assert Live(v.store, right) && Text(v.store, right) == v.held[right];
      p := v.Append(right, address, junk);
    }
  }

  /** The first `k` operations are done. */
  ghost predicate Done(v: StringVariable, text: Bytes, plain: bool, ops: seq<Op>, k: nat, others: map<nat, Bytes>,
                       seen: seq<nat>)
    requires k <= |ops| && Proper(ops, others)
    reads v
  {
    && v.text == Gathered(text, ops[..k], others)
    && Handed(v.held, text, ops, k, others, seen)
    && (plain && Plain(ops[..k], others) ==> v.plain)
  }

  method RunNext(v: StringVariable, ghost text: Bytes, ghost plain: bool, ops: seq<Op>, k: nat,
                 ghost others: map<nat, Bytes>, seen: seq<nat>, address: nat, junk: nat -> Byte)
    returns (p: nat)
    requires v.Valid() && k < |ops| && Proper(ops, others) && Done(v, text, plain, ops, k, others, seen)
    requires address != 0 && address !in v.store.buffers
    modifies v
    ensures v.Valid() && Done(v, text, plain, ops, k + 1, others, seen + [p])
    ensures v.store.buffers.Keys <= old(v.store).buffers.Keys + {address}
  {
    hide Gathered, Operand, Proper, Plain, Handed, Holds, Keeps, Text, StoreOk, Proportionate;
    GatheredNext(text, ops, k, others);
    ghost var before := v.held;
    var right := 0;
    if !ops[k].See? {
      OperandHeld(before, text, ops, k, others, seen);
      right := if ops[k].Add? then ops[k].right else seen[ops[k].read];
    }
    p := RunOp(v, ops[k], right, address, junk);
    HandedNext(before, v.held, text, ops, k, others, seen, p);
  }

  /** Any run: the variable ends up with the concatenation, every string handed out before or
      during the run keeps its text, and a run that only appends NUL-free strings copies at most
      three and a half times the final length. */
  method RunLoop(v: StringVariable, ops: seq<Op>, memory: seq<nat>, junk: nat -> Byte) returns (seen: seq<nat>)
    requires v.Valid() && |memory| == |ops| && Proper(ops, v.held)
    requires forall i :: 0 <= i < |memory| ==> memory[i] != 0 && memory[i] !in v.store.buffers
    requires Distinct(memory)
    modifies v
    ensures v.Valid() && Text(v.store, v.current) == Gathered(old(v.text), ops, old(v.held))
    ensures forall p :: p in old(v.held) ==> Live(v.store, p) && Text(v.store, p) == old(v.held)[p]
    ensures |seen| == |ops| && forall k :: 0 <= k < |ops| && ops[k].See? ==>
              Live(v.store, seen[k]) && Text(v.store, seen[k]) == Gathered(old(v.text), ops[..k], old(v.held))
    ensures old(v.plain) && Plain(ops, old(v.held)) ==> 2 * (v.inPlace + v.moved) <= 7 * |Text(v.store, v.current)|
  {
    ghost var others, text, plain := v.held, v.text, v.plain;
    seen := [];
    for k := 0 to |ops|
      invariant v.Valid() && Done(v, text, plain, ops, k, others, seen)
      invariant forall i :: k <= i < |memory| ==> memory[i] !in v.store.buffers
    {
      hide *;
      var p := RunNext(v, text, plain, ops, k, others, seen, memory[k], junk);
      seen := seen + [p];
    }
    assert ops[..|ops|] == ops;
  }
}
