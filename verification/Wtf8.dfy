/**
 WTF-8: UTF-8 generalised to lone surrogates.  Strings are stored as bytes and seen by programs
 as UTF-16 code units; the codec is the bridge.  Bit fields are written as arithmetic: a mask
 that drops known marker bits is a subtraction, a bitwise or of disjoint fields a sum.
 */
module Wtf8 {
  import opened Wrappers

  type Byte = b: int | 0 <= b < 0x100
  type Unit = u: int | 0 <= u < 0x10000
  type Code = c: int | 0 <= c <= 0x10FFFF

  predicate IsContinuation(b: Byte) { 0x80 <= b < 0xC0 }
  predicate IsHigh(u: int) { 0xD800 <= u <= 0xDBFF }
  predicate IsLow(u: int) { 0xDC00 <= u <= 0xDFFF }

  const REPLACEMENT: Unit := 0xFFFD

  /** A right shift by six bits, and the bits shifted out. */
  function Shift6(c: nat): (q: nat)
    ensures 0x40 * q <= c < 0x40 * q + 0x40
  {
    c / 0x40
  }

  function Bits6(c: nat): (r: nat)
    ensures r < 0x40
  {
    c - 0x40 * Shift6(c)
  }

  function Shift10(c: nat): (q: nat)
    ensures 0x400 * q <= c < 0x400 * q + 0x400
  {
    c / 0x400
  }

  /** The halves of a surrogate pair. */
  function High(c: Code): Unit
    requires c >= 0x10000
  {
    0xD800 + Shift10(c - 0x10000)
  }

  function Low(c: Code): Unit
    requires c >= 0x10000
  {
    0xDC00 + (c - 0x10000 - 0x400 * Shift10(c - 0x10000))
  }

  /** The code units of one code point. */
  function Utf16(c: Code): (r: seq<Unit>)
    ensures |r| == if c < 0x10000 then 1 else 2
  {
    if c < 0x10000 then [c] else [High(c), Low(c)]
  }

  /** The code point of a surrogate pair. */
  function Pair(high: Unit, low: Unit): (c: Code)
    requires IsHigh(high) && IsLow(low)
    ensures c >= 0x10000 && Utf16(c) == [high, low]
  {
    0x10000 + (high - 0xD800) * 0x400 + (low - 0xDC00)
  }

  // ---- one code point -----------------------------------------------------------------

  /** The bytes of one code point, a lone surrogate included. */
  function Push(c: Code): (r: seq<Byte>)
    ensures 1 <= |r| <= 4
  {
    if c < 0x80 then [c]
    else if c < 0x800 then [0xC0 + Shift6(c), 0x80 + Bits6(c)]
    else if c < 0x10000 then [0xE0 + Shift6(Shift6(c)), 0x80 + Bits6(Shift6(c)), 0x80 + Bits6(c)]
    else [0xF0 + Shift6(Shift6(Shift6(c))), 0x80 + Bits6(Shift6(Shift6(c))), 0x80 + Bits6(Shift6(c)), 0x80 + Bits6(c)]
  }

  datatype Step = Step(units: seq<Unit>, width: nat)

  const STRAY := Step([REPLACEMENT], 1)

  /** What the decoder makes of the front of `b`. */
  function DecodeStep(b: seq<Byte>): (r: Step)
    requires b != []
    ensures 1 <= r.width <= |b| && r.width <= 4 && 1 <= |r.units| <= 2
  {
    var first := b[0];
    if first < 0x80 then Step([first], 1)
    else if 0xC2 <= first <= 0xDF then
      if |b| > 1 && IsContinuation(b[1]) then Step([Code2(first, b[1])], 2) else STRAY
    else if 0xE0 <= first <= 0xEF then
      if |b| > 2 && IsContinuation(b[1]) && IsContinuation(b[2]) then Step([Code3(first, b[1], b[2])], 3) else STRAY
    else if 0xF0 <= first <= 0xF4 then
      if |b| > 3 && IsContinuation(b[1]) && IsContinuation(b[2]) && IsContinuation(b[3]) then
        var c := Code4(first, b[1], b[2], b[3]);
        if 0x10000 <= c <= 0x10FFFF then Step([High(c), Low(c)], 4) else STRAY
      else STRAY
    else STRAY
  }

  function Decode(b: seq<Byte>): seq<Unit> {
    if b == [] then [] else DecodeStep(b).units + Decode(b[DecodeStep(b).width..])
  }

  /** How many bytes a lead byte announces; 0 for a byte that leads nothing. */
  function Announced(first: Byte): nat {
    if first < 0x80 then 1
    else if first < 0xC2 then 0
    else if first < 0xE0 then 2
    else if first < 0xF0 then 3
    else if first < 0xF5 then 4
    else 0
  }

  /** The front of `b` is a whole sequence: its lead byte is followed by the continuation bytes it
      announces, and four bytes stay within U+10000 to U+10FFFF. */
  predicate WholeFront(b: seq<Byte>)
    requires b != []
  {
    var n := Announced(b[0]);
    && 1 <= n <= |b| && (forall k :: 1 <= k < n ==> 0x80 <= b[k] <= 0xBF)
    && (b[0] == 0xF0 ==> b[1] >= 0x90) && (b[0] == 0xF4 ==> b[1] < 0x90)
  }

  lemma WholeStep(b: seq<Byte>)
    requires b != []
    ensures if WholeFront(b) then DecodeStep(b).width == Announced(b[0]) else DecodeStep(b) == STRAY
  {
    if Announced(b[0]) > 1 && |b| > 1 {
      assert IsContinuation(b[1]) <==> 0x80 <= b[1] <= 0xBF;
    }
  }

  /** A byte that starts no whole sequence decodes to U+FFFD alone, and decoding goes on with the
      next byte; a whole sequence is consumed entirely. */
  lemma StrayByteReplaced(b: seq<Byte>)
    requires b != []
    ensures !WholeFront(b) ==> Decode(b) == [0xFFFD] + Decode(b[1..])
    ensures WholeFront(b) ==>
              exists units: seq<Unit> :: |units| == (if b[0] < 0xF0 then 1 else 2) &&
                Decode(b) == units + Decode(b[Announced(b[0])..])
  {
    WholeStep(b);
    hide WholeFront;
    assert Decode(b) == DecodeStep(b).units + Decode(b[DecodeStep(b).width..]);
  }

  /** Three bytes that spell a code point too long are taken for it all the same. */
  lemma OverlongDecodes(b: seq<Byte>)
    requires |b| >= 3 && b[0] == 0xE0 && 0x80 <= b[1] < 0xA0 && 0x80 <= b[2] <= 0xBF
    ensures var u: Unit := (b[1] as int - 0x80) * 0x40 + (b[2] as int - 0x80);
            Decode(b) == [u] + Decode(b[3..])
  {
    assert DecodeStep(b) == Step([Code3(b[0], b[1], b[2])], 3);
  }

  function Encode(u: seq<Unit>): seq<Byte> {
    if u == [] then []
    else if StartsPair(u) then Push(Pair(u[0], u[1])) + Encode(u[2..])
    else Push(u[0]) + Encode(u[1..])
  }

  predicate StartsPair(u: seq<Unit>) { |u| > 1 && IsHigh(u[0]) && IsLow(u[1]) }

  // ---- bit fields ---------------------------------------------------------------------

  function Code2(a: Byte, b: Byte): (c: int)
    requires 0xC0 <= a < 0xE0 && IsContinuation(b)
    ensures 0 <= c < 0x800
  {
    (a - 0xC0) * 0x40 + (b - 0x80)
  }

  function Code3(a: Byte, b: Byte, c: Byte): (r: int)
    requires 0xE0 <= a < 0xF0 && IsContinuation(b) && IsContinuation(c)
    ensures 0 <= r < 0x10000
  {
    (a - 0xE0) * 0x1000 + (b - 0x80) * 0x40 + (c - 0x80)
  }

  function Code4(a: Byte, b: Byte, c: Byte, d: Byte): (r: int)
    requires 0xF0 <= a < 0xF8 && IsContinuation(b) && IsContinuation(c) && IsContinuation(d)
    ensures 0 <= r < 0x200000
  {
    (a - 0xF0) * 0x40000 + (b - 0x80) * 0x1000 + (c - 0x80) * 0x40 + (d - 0x80)
  }

  /** Decoding one pushed code point, whatever follows it. */
  lemma PushDecodes(c: Code, s: seq<Byte>)
    ensures DecodeStep(Push(c) + s) == Step(Utf16(c), |Push(c)|)
  {
    var b := Push(c);
    var t := b + s;
    assert t[0] == b[0] && (|b| > 1 ==> t[1] == b[1]) && (|b| > 2 ==> t[2] == b[2]) && (|b| > 3 ==> t[3] == b[3]);
  }

  // ---- decoding inverts encoding ------------------------------------------------------

  /** The first code point encoded, and what is left. */
  lemma FirstCode(a: seq<Unit>) returns (c: Code, rest: seq<Unit>)
    requires a != []
    ensures a == Utf16(c) + rest && Encode(a) == Push(c) + Encode(rest) && |rest| < |a|
    ensures IsHigh(c) && rest != [] ==> !IsLow(rest[0])
    ensures c >= 0x10000 <==> StartsPair(a)
  {
    hide Push;
    if StartsPair(a) {
      c, rest := Pair(a[0], a[1]), a[2..];
    } else {
      c, rest := a[0], a[1..];
    }
  }

  /** Whatever follows an encoding, the units encoded come out first. */
  lemma {:induction false} DecodeEncoded(a: seq<Unit>, s: seq<Byte>)
    ensures Decode(Encode(a) + s) == a + Decode(s)
    decreases |a|
  {
    hide Push, Utf16, DecodeStep;
    if a == [] {
      assert Encode(a) + s == s;
    } else {
      var c, rest := FirstCode(a);
      var tail := Encode(rest) + s;
      assert Encode(a) + s == Push(c) + tail;
      PushDecodes(c, tail);
      assert (Push(c) + tail)[|Push(c)|..] == tail;
      DecodeEncoded(rest, s);
      assert Utf16(c) + (rest + Decode(s)) == a + Decode(s);
    }
  }

  lemma DecodeInvertsEncode(a: seq<Unit>)
    ensures Decode(Encode(a)) == a
  {
    DecodeEncoded(a, []);
    assert Encode(a) + [] == Encode(a);
  }

  /** Encodings may be concatenated, even between the halves of a surrogate pair. */
  lemma ConcatenationDecodes(a: seq<Unit>, b: seq<Unit>)
    ensures Decode(Encode(a) + Encode(b)) == a + b
  {
    DecodeEncoded(a, Encode(b));
    DecodeInvertsEncode(b);
  }

  // ---- canonical byte strings ---------------------------------------------------------

  /** The width of the character at the front of `b` and its code units, when it is well formed:
      section 4 of RFC 3629, with surrogates allowed. */
  function CharacterWidth(b: seq<Byte>): (r: Option<(nat, nat)>)
    ensures r.Some? ==> 1 <= r.value.0 <= |b| && r.value.0 <= 4 && r.value.1 == if r.value.0 == 4 then 2 else 1
  {
    if b == [] then None
    else
      var first := b[0];
      if first < 0x80 then Some((1, 1))
      else if 0xC2 <= first <= 0xDF then
        if |b| >= 2 && IsContinuation(b[1]) then Some((2, 1)) else None
      else if 0xE0 <= first <= 0xEF then
        if |b| >= 3 && IsContinuation(b[1]) && IsContinuation(b[2]) && !(first == 0xE0 && b[1] < 0xA0) then Some((3, 1))
        else None
      else if 0xF0 <= first <= 0xF4 then
        if |b| >= 4 && IsContinuation(b[1]) && IsContinuation(b[2]) && IsContinuation(b[3])
           && !(first == 0xF0 && b[1] < 0x90) && !(first == 0xF4 && b[1] > 0x8F) then Some((4, 2)) else None
      else None
  }

  predicate StartsHigh(b: seq<Byte>) { |b| >= 3 && b[0] == 0xED && 0xA0 <= b[1] < 0xB0 && IsContinuation(b[2]) }
  predicate StartsLow(b: seq<Byte>) { |b| >= 3 && b[0] == 0xED && 0xB0 <= b[1] < 0xC0 && IsContinuation(b[2]) }

  /** Well-formed WTF-8: shortest forms only, and no surrogate pair spelled as two surrogates. */
  predicate Canonical(b: seq<Byte>) {
    b == [] || (
      var w := CharacterWidth(b);
      w.Some? && !(StartsHigh(b) && StartsLow(b[w.value.0..])) && Canonical(b[w.value.0..]))
  }

  /** The code point at the front of `b`. */
  function CodeAt(b: seq<Byte>): (c: Code)
    requires CharacterWidth(b).Some?
    ensures 0 <= c <= 0x10FFFF
  {
    var w := CharacterWidth(b).value.0;
    if w == 1 then b[0]
    else if w == 2 then Code2(b[0], b[1])
    else if w == 3 then Code3(b[0], b[1], b[2])
    else Code4(b[0], b[1], b[2], b[3])
  }

  /** A well-formed character is the encoding of its code point. */
  lemma CharacterIsPush(b: seq<Byte>)
    requires CharacterWidth(b).Some?
    ensures b[..CharacterWidth(b).value.0] == Push(CodeAt(b))
    ensures CharacterWidth(b).value.1 == |Utf16(CodeAt(b))|
    ensures StartsHigh(b) <==> IsHigh(CodeAt(b))
    ensures StartsLow(b) <==> IsLow(CodeAt(b))
  {
    hide Code2, Code3, Code4, Shift6, Bits6, High, Low;
    var w := CharacterWidth(b).value.0;
    if w == 1 {
      assert b[..1] == [b[0]];
    } else if w == 2 {
      Fields2(b[0], b[1]);
      assert b[..2] == [b[0], b[1]];
    } else if w == 3 {
      Fields3(b[0], b[1], b[2]);
      assert b[..3] == [b[0], b[1], b[2]];
    } else {
      Fields4(b[0], b[1], b[2], b[3]);
      assert b[..4] == [b[0], b[1], b[2], b[3]];
    }
  }

  lemma Fields2(a: Byte, b: Byte)
    requires 0xC2 <= a <= 0xDF && IsContinuation(b)
    ensures var r := Code2(a, b); 0x80 <= r && 0xC0 + Shift6(r) == a && 0x80 + Bits6(r) == b
  {
  }

  lemma Fields3(a: Byte, b: Byte, c: Byte)
    requires 0xE0 <= a <= 0xEF && IsContinuation(b) && IsContinuation(c) && !(a == 0xE0 && b < 0xA0)
    ensures var r := Code3(a, b, c);
            && 0x800 <= r
            && 0xE0 + Shift6(Shift6(r)) == a && 0x80 + Bits6(Shift6(r)) == b && 0x80 + Bits6(r) == c
            && (IsHigh(r) <==> a == 0xED && 0xA0 <= b < 0xB0)
            && (IsLow(r) <==> a == 0xED && 0xB0 <= b < 0xC0)
  {
    assert Shift6(Code3(a, b, c)) == (a - 0xE0) * 0x40 + (b - 0x80);
  }

  lemma Fields4(a: Byte, b: Byte, c: Byte, d: Byte)
    requires 0xF0 <= a <= 0xF4 && IsContinuation(b) && IsContinuation(c) && IsContinuation(d)
    requires !(a == 0xF0 && b < 0x90) && !(a == 0xF4 && b > 0x8F)
    ensures var r := Code4(a, b, c, d);
            && 0x10000 <= r <= 0x10FFFF
            && 0xF0 + Shift6(Shift6(Shift6(r))) == a && 0x80 + Bits6(Shift6(Shift6(r))) == b
            && 0x80 + Bits6(Shift6(r)) == c && 0x80 + Bits6(r) == d
  {
    assert Shift6(Code4(a, b, c, d)) == (a - 0xF0) * 0x1000 + (b - 0x80) * 0x40 + (c - 0x80);
    assert Shift6(Shift6(Code4(a, b, c, d))) == (a - 0xF0) * 0x40 + (b - 0x80);
  }

  /** The decoder agrees on well-formed characters. */
  lemma CharacterDecodes(b: seq<Byte>)
    requires CharacterWidth(b).Some?
    ensures DecodeStep(b) == Step(Utf16(CodeAt(b)), CharacterWidth(b).value.0)
    ensures Decode(b) == Utf16(CodeAt(b)) + Decode(b[CharacterWidth(b).value.0..])
  {
    hide Push, DecodeStep, Utf16, CodeAt, CharacterWidth;
    var w := CharacterWidth(b).value.0;
    CharacterIsPush(b);
    PushDecodes(CodeAt(b), b[w..]);
    assert b == b[..w] + b[w..];
  }

  /** A pushed code point is a well-formed character, whatever follows it. */
  lemma PushIsCharacter(c: Code, s: seq<Byte>)
    ensures var b := Push(c) + s; CharacterWidth(b) == Some((|Push(c)|, |Utf16(c)|)) && CodeAt(b) == c
  {
    var p := Push(c);
    var t := p + s;
    assert t[0] == p[0] && (|p| > 1 ==> t[1] == p[1]) && (|p| > 2 ==> t[2] == p[2]) && (|p| > 3 ==> t[3] == p[3]);
  }

  lemma EmptyIsCanonical()
    ensures Canonical([]) && !StartsLow([])
  {
  }

  /** Encodings are canonical. */
  lemma {:induction false} EncodeIsCanonical(u: seq<Unit>)
    ensures Canonical(Encode(u))
    ensures StartsLow(Encode(u)) ==> u != [] && IsLow(u[0])
    decreases |u|
  {
    hide Push, CodeAt, CharacterWidth, StartsHigh, StartsLow;
    if u == [] {
      EmptyIsCanonical();
    } else {
      var c, rest := FirstCode(u);
      var tail := Encode(rest);
      EncodeIsCanonical(rest);
      PushIsCharacter(c, tail);
      CharacterIsPush(Encode(u));
      assert Encode(u)[|Push(c)|..] == tail;
    }
  }

  /** A canonical string is what its decoding encodes to. */
  lemma {:induction false} EncodeInvertsDecode(b: seq<Byte>)
    requires Canonical(b)
    ensures Encode(Decode(b)) == b
    ensures Decode(b) != [] && IsLow(Decode(b)[0]) ==> StartsLow(b)
    decreases |b|
  {
    hide Push, CodeAt, CharacterWidth, StartsHigh, StartsLow;
    if b != [] {
      var w, c := CharacterWidth(b).value.0, CodeAt(b);
      var rest := b[w..];
      CharacterIsPush(b);
      CharacterDecodes(b);
      EncodeInvertsDecode(rest);
      EncodeFirst(c, Decode(rest));
      assert b == b[..w] + rest;
    }
  }

  /** A code point in front of units it does not pair up with. */
  lemma EncodeFirst(c: Code, u: seq<Unit>)
    requires !(IsHigh(c) && u != [] && IsLow(u[0]))
    ensures Encode(Utf16(c) + u) == Push(c) + Encode(u)
    ensures IsLow((Utf16(c) + u)[0]) <==> IsLow(c)
  {
    hide Push;
    var all := Utf16(c) + u;
    if c >= 0x10000 {
      assert all[0] == Utf16(c)[0] && all[1] == Utf16(c)[1] && all[2..] == u;
      SamePair(c);
    } else {
      assert all[0] == c && all[1..] == u;
    }
  }

  lemma SamePair(c: Code)
    requires c >= 0x10000
    ensures IsHigh(Utf16(c)[0]) && IsLow(Utf16(c)[1]) && Pair(Utf16(c)[0], Utf16(c)[1]) == c
  {
  }

  /** Encoding inverts decoding exactly on canonical strings. */
  lemma RoundTripIffCanonical(b: seq<Byte>)
    ensures Encode(Decode(b)) == b <==> Canonical(b)
  {
    EncodeIsCanonical(Decode(b));
    if Canonical(b) {
      EncodeInvertsDecode(b);
    }
  }

  // ---- the loops ----------------------------------------------------------------------

  method DecodeUtf16(bytes: seq<Byte>) returns (units: seq<Unit>)
    ensures units == Decode(bytes)
  {
    hide DecodeStep;
    units := [];
    var index := 0;
    while index < |bytes|
      invariant index <= |bytes| && units + Decode(bytes[index..]) == Decode(bytes)
    {
      ghost var rest := bytes[index..];
      var found, width := Character(bytes, index);
      Advance(units, rest);
      assert rest[width..] == bytes[index + width..];
      units := units + found;
      index := index + width;
    }
    assert bytes[index..] == [];
  }

  /** The units and the width of what stands at `index`; a stray byte is U+FFFD. */
  method Character(bytes: seq<Byte>, index: nat) returns (found: seq<Unit>, width: nat)
    requires index < |bytes|
    ensures Step(found, width) == DecodeStep(bytes[index..])
  {
    hide Code2, Code3, Code4;
    var first := bytes[index];
    found, width := [REPLACEMENT], 1;
    if first < 0x80 {
      found := [first];
    } else if 0xC2 <= first <= 0xDF {
      if index + 1 < |bytes| && IsContinuation(bytes[index + 1]) {
        found, width := [Code2(first, bytes[index + 1])], 2;
      }
    } else if 0xE0 <= first <= 0xEF {
      if index + 2 < |bytes| && IsContinuation(bytes[index + 1]) && IsContinuation(bytes[index + 2]) {
        found, width := [Code3(first, bytes[index + 1], bytes[index + 2])], 3;
      }
    } else if 0xF0 <= first <= 0xF4 {
      if index + 3 < |bytes| && IsContinuation(bytes[index + 1]) && IsContinuation(bytes[index + 2]) &&
          IsContinuation(bytes[index + 3]) {
        var code := Code4(first, bytes[index + 1], bytes[index + 2], bytes[index + 3]);
        if 0x10000 <= code <= 0x10FFFF {
          found, width := [High(code), Low(code)], 4;
        }
      }
    }
  }

  lemma Advance(units: seq<Unit>, rest: seq<Byte>)
    requires rest != []
    ensures units + Decode(rest) == units + DecodeStep(rest).units + Decode(rest[DecodeStep(rest).width..])
  {
    hide DecodeStep;
  }

  method EncodeUtf16(units: seq<Unit>) returns (bytes: seq<Byte>)
    ensures bytes == Encode(units)
  {
    hide Push;
    bytes := [];
    var index := 0;
    while index < |units|
      invariant index <= |units| && bytes + Encode(units[index..]) == Encode(units)
    {
      var unit := units[index];
      ghost var rest := units[index..];
      if IsHigh(unit) && index + 1 < |units| && IsLow(units[index + 1]) {
        var code := Pair(unit, units[index + 1]);
        assert rest[2..] == units[index + 2..];
        assert Encode(rest) == Push(code) + Encode(units[index + 2..]);
        bytes := bytes + Push(code);
        index := index + 2;
      } else {
        assert rest[1..] == units[index + 1..];
        assert Encode(rest) == Push(unit) + Encode(units[index + 1..]);
        bytes := bytes + Push(unit);
        index := index + 1;
      }
    }
    assert units[index..] == [];
  }
}
