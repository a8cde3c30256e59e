/**
 The length-framed message segment of the tagged error string: a class chain, a display text and
 an optional original message whose extents are given in UTF-16 code units.
 */
module ErrorWire {
  import opened Wrappers
  import opened Wtf8

  const USIZE_MAX: nat := 0xFFFF_FFFF_FFFF_FFFF
  const HEADER: seq<Byte> := [0x1E, 0x45, 0x31, 0x3A]
  const COLON: Byte := 0x3A
  const MINUS: Byte := 0x2D

  datatype ErrorFrame = ErrorFrame(chain: seq<Byte>, display: seq<Byte>, original: Option<seq<Byte>>, suffix: seq<Byte>)

  function Checked(n: nat): Option<nat> { if n <= USIZE_MAX then Some(n) else None }

  // ---- counting units -----------------------------------------------------------------

  /** The code units of a string of well-formed characters. */
  function Units(b: seq<Byte>): Option<nat> {
    if b == [] then Some(0)
    else
      var w := CharacterWidth(b);
      if w.None? then None
      else
        var rest := Units(b[w.value.0..]);
        if rest.None? then None else Some(w.value.1 + rest.value)
  }

  /** How many bytes hold the first `n` code units. */
  function Boundary(b: seq<Byte>, n: nat): (r: Option<nat>)
    ensures r.Some? ==> r.value <= |b|
    decreases n
  {
    if n == 0 then Some(0)
    else
      var w := CharacterWidth(b);
      if w.None? || w.value.1 > n then None
      else
        var rest := Boundary(b[w.value.0..], n - w.value.1);
        if rest.None? then None else Some(w.value.0 + rest.value)
  }

  method Utf16Units(bytes: seq<Byte>) returns (r: Option<nat>)
    ensures r == if Units(bytes).Some? then Checked(Units(bytes).value) else None
  {
    hide CharacterWidth;
    var index, units := 0, 0;
    while index < |bytes|
      invariant index <= |bytes| && units <= USIZE_MAX
      invariant Units(bytes).Some? <==> Units(bytes[index..]).Some?
      invariant Units(bytes).Some? ==> Units(bytes).value == units + Units(bytes[index..]).value
    {
      ghost var rest := bytes[index..];
      var w := CharacterWidth(bytes[index..]);
      if w.None? {
        return None;
      }
      assert rest[w.value.0..] == bytes[index + w.value.0..];
      if units + w.value.1 > USIZE_MAX {
        return None;
      }
      index, units := index + w.value.0, units + w.value.1;
    }
    assert bytes[index..] == [];
    return Some(units);
  }

  method FindBoundary(bytes: seq<Byte>, expected: nat) returns (r: Option<nat>)
    requires expected <= USIZE_MAX
    ensures r == Boundary(bytes, expected)
  {
    hide CharacterWidth;
    var index, units := 0, 0;
    while units < expected
      invariant 0 <= index <= |bytes| && 0 <= units <= expected
      invariant Boundary(bytes, expected).Some? <==> Boundary(bytes[index..], expected - units).Some?
      invariant Boundary(bytes, expected).Some? ==>
                  Boundary(bytes, expected).value == index + Boundary(bytes[index..], expected - units).value
      decreases expected - units
    {
      ghost var rest := bytes[index..];
      var w := CharacterWidth(bytes[index..]);
      if w.None? {
        return None;
      }
      if units + w.value.1 > USIZE_MAX || units + w.value.1 > expected {
        return None;
      }
      assert rest[w.value.0..] == bytes[index + w.value.0..];
      index, units := index + w.value.0, units + w.value.1;
    }
    return Some(index);
  }

  /** A character is recognised by its own bytes. */
  lemma WidthIsLocal(b: seq<Byte>, s: seq<Byte>)
    requires CharacterWidth(b).Some?
    ensures CharacterWidth(b + s) == CharacterWidth(b)
  {
    var t := b + s;
    assert forall i :: 0 <= i < |b| ==> t[i] == b[i];
  }

  lemma WidthOfPrefix(b: seq<Byte>, k: nat)
    requires CharacterWidth(b).Some? && CharacterWidth(b).value.0 <= k <= |b|
    ensures CharacterWidth(b[..k]) == CharacterWidth(b)
  {
    var t := b[..k];
    assert forall i :: 0 <= i < k ==> t[i] == b[i];
  }

  /** The count is the number of units the decoder yields, and never more than the bytes. */
  lemma {:induction false} UnitsAreDecoded(b: seq<Byte>)
    requires Units(b).Some?
    ensures Units(b).value == |Decode(b)| <= |b|
    decreases |b|
  {
    hide CharacterWidth, CodeAt, Utf16, DecodeStep;
    if b != [] {
      var w := CharacterWidth(b).value;
      CharacterIsPush(b);
      CharacterDecodes(b);
      UnitsAreDecoded(b[w.0..]);
    }
  }

  /** Strings of whole characters decode independently of what follows. */
  lemma {:induction false} UnitsDecodeApart(b: seq<Byte>, s: seq<Byte>)
    requires Units(b).Some?
    ensures Decode(b + s) == Decode(b) + Decode(s)
    decreases |b|
  {
    hide CharacterWidth, CodeAt, Utf16, DecodeStep;
    if b == [] {
      assert b + s == s;
    } else {
      var w := CharacterWidth(b).value.0;
      WidthIsLocal(b, s);
      CharacterDecodes(b);
      CharacterDecodes(b + s);
      SameCode(b, s);
      assert (b + s)[w..] == b[w..] + s;
      UnitsDecodeApart(b[w..], s);
    }
  }

  lemma SameCode(b: seq<Byte>, s: seq<Byte>)
    requires CharacterWidth(b).Some? && CharacterWidth(b + s) == CharacterWidth(b)
    ensures CodeAt(b + s) == CodeAt(b)
  {
    hide Code2, Code3, Code4, CharacterWidth;
    var t := b + s;
    assert forall i :: 0 <= i < |b| ==> t[i] == b[i];
  }

  /** A counted string ends at its boundary, whatever follows. */
  lemma {:induction false} BoundaryOfCounted(b: seq<Byte>, s: seq<Byte>)
    requires Units(b).Some?
    ensures Boundary(b + s, Units(b).value) == Some(|b|)
    decreases |b|
  {
    hide CharacterWidth;
    if b != [] {
      var w := CharacterWidth(b).value.0;
      WidthIsLocal(b, s);
      assert (b + s)[w..] == b[w..] + s;
      BoundaryOfCounted(b[w..], s);
    }
  }

  /** What a boundary cuts off has exactly the units asked for. */
  lemma {:induction false} CutIsCounted(b: seq<Byte>, n: nat)
    requires Boundary(b, n).Some?
    ensures Units(b[..Boundary(b, n).value]) == Some(n)
    decreases n
  {
    hide CharacterWidth;
    var k := Boundary(b, n).value;
    if n > 0 {
      var w := CharacterWidth(b).value;
      var rest := b[w.0..];
      CutIsCounted(rest, n - w.1);
      WidthOfPrefix(b, k);
      assert b[..k][w.0..] == rest[..k - w.0];
    }
  }

  // ---- decimal numbers ----------------------------------------------------------------

  predicate IsDigit(b: Byte) { 0x30 <= b <= 0x39 }
  predicate AllDigits(b: seq<Byte>) { forall i :: 0 <= i < |b| ==> IsDigit(b[i]) }

  function Value(digits: seq<Byte>): nat
    requires AllDigits(digits)
  {
    if digits == [] then 0 else Value(digits[..|digits| - 1]) * 10 + (digits[|digits| - 1] - 0x30)
  }

  /** The shortest decimal spelling of `n`. */
  function Spell(n: nat): (r: seq<Byte>)
    ensures r != [] && AllDigits(r)
  {
    if n < 10 then [0x30 + n] else Spell(n / 10) + [0x30 + n % 10]
  }

  lemma {:induction false} SpellHasValue(n: nat)
    ensures Value(Spell(n)) == n
  {
    if n >= 10 {
      SpellHasValue(n / 10);
      assert Spell(n)[..|Spell(n)| - 1] == Spell(n / 10);
    }
  }

  /** Where `x` first stands in `b`. */
  function Find(b: seq<Byte>, x: Byte): (r: Option<nat>)
    ensures r.Some? ==> r.value < |b| && b[r.value] == x && x !in b[..r.value]
    ensures r.None? ==> x !in b
  {
    if b == [] then None
    else if b[0] == x then Some(0)
    else
      var rest := Find(b[1..], x);
      assert forall k :: 0 < k <= |b| ==> b[..k] == [b[0]] + b[1..][..k - 1];
      if rest.None? then None else Some(rest.value + 1)
  }

  lemma {:induction false} FindAfter(b: seq<Byte>, x: Byte, s: seq<Byte>)
    requires x !in b
    ensures Find(b + [x] + s, x) == Some(|b|)
  {
    if b != [] {
      assert (b + [x] + s)[1..] == b[1..] + [x] + s;
      FindAfter(b[1..], x, s);
    }
  }

  /** A number up to the next colon, and what follows the colon. */
  function Decimal(b: seq<Byte>): Option<(nat, seq<Byte>)> {
    var end := Find(b, COLON);
    if end.None? || end.value == 0 || !AllDigits(b[..end.value]) || Checked(Value(b[..end.value])).None? then None
    else Some((Value(b[..end.value]), b[end.value + 1..]))
  }

  lemma ValueGrows(digits: seq<Byte>, k: nat)
    requires AllDigits(digits) && k <= |digits|
    ensures Value(digits[..k]) <= Value(digits)
    decreases |digits| - k
  {
    if k < |digits| {
      ValueGrows(digits, k + 1);
      assert digits[..k + 1][..k] == digits[..k];
    } else {
      assert digits[..k] == digits;
    }
  }

  /** Digit by digit with checked arithmetic: nothing is accepted that overflows. */
  method ParseDecimal(bytes: seq<Byte>) returns (r: Option<(nat, seq<Byte>)>)
    ensures r == Decimal(bytes)
  {
    var end := Find(bytes, COLON);
    if end.None? || end.value == 0 || !AllDigits(bytes[..end.value]) {
      return None;
    }
    var digits := bytes[..end.value];
    var value := 0;
    for k := 0 to |digits|
      invariant value == Value(digits[..k]) <= USIZE_MAX
    {
      assert digits[..k + 1][..k] == digits[..k];
      ValueGrows(digits, k + 1);
      if value * 10 > USIZE_MAX || value * 10 + (digits[k] - 0x30) > USIZE_MAX {
        return None;
      }
      value := value * 10 + (digits[k] - 0x30);
    }
    assert digits[..|digits|] == digits;
    return Some((value, bytes[end.value + 1..]));
  }

  lemma DecimalReads(n: nat, s: seq<Byte>)
    requires n <= USIZE_MAX
    ensures Decimal(Spell(n) + [COLON] + s) == Some((n, s))
  {
    var d := Spell(n);
    var t := d + [COLON] + s;
    FindAfter(d, COLON, s);
    SpellHasValue(n);
    assert t[..|d|] == d && t[|d| + 1..] == s;
  }

  // ---- frames -------------------------------------------------------------------------

  /** The frame of parts whose units are counted. */
  function Frame(chain: seq<Byte>, display: seq<Byte>, original: Option<seq<Byte>>, d: nat, o: nat): seq<Byte> {
    var count := if original.Some? then Spell(o) else [MINUS];
    [1] + (chain + [1] + (HEADER + (Spell(d) + [COLON] + (count + [COLON] + Body(display, original)))))
  }

  function Body(display: seq<Byte>, original: Option<seq<Byte>>): seq<Byte> {
    display + if original.Some? then original.value else []
  }

  /** The layout byte by byte, for counts of one digit: byte 1 around the chain, a record separator
      and `E1:`, the display's units, a colon, a dash or the original's units, a colon, the texts. */
  lemma WireLayout(chain: seq<Byte>, display: seq<Byte>, original: seq<Byte>, d: nat, o: nat)
    requires d < 10 && o < 10
    ensures Frame(chain, display, None, d, o)
         == [0x01] + chain + [0x01, 0x1E, 'E' as int, '1' as int, ':' as int]
            + [0x30 + d, ':' as int, '-' as int, ':' as int] + display
    ensures Frame(chain, display, Some(original), d, o)
         == [0x01] + chain + [0x01, 0x1E, 'E' as int, '1' as int, ':' as int]
            + [0x30 + d, ':' as int, 0x30 + o, ':' as int] + display + original
  {
    assert Spell(d) == [0x30 + d] && Spell(o) == [0x30 + o];
  }

  function CheckedUnits(b: seq<Byte>): Option<nat> {
    if Units(b).Some? then Checked(Units(b).value) else None
  }

  method EncodeTagged(chain: seq<Byte>, display: seq<Byte>, original: Option<seq<Byte>>) returns (r: Option<seq<Byte>>)
    ensures r.Some? <==> CheckedUnits(display).Some? && (original.Some? ==> CheckedUnits(original.value).Some?)
    ensures r.Some? ==> r.value == Frame(chain, display, original, Units(display).value,
                                         if original.Some? then Units(original.value).value else 0)
  {
    hide Units, Spell;
    var displayUnits := Utf16Units(display);
    if displayUnits.None? {
      return None;
    }
    var originalUnits := None;
    if original.Some? {
      originalUnits := Utf16Units(original.value);
      if originalUnits.None? {
        return None;
      }
    }
    var output := [1];
    output := output + chain;
    output := output + [1];
    output := output + HEADER;
    output := output + Spell(displayUnits.value);
    output := output + [COLON];
    output := output + if originalUnits.Some? then Spell(originalUnits.value) else [MINUS];
    output := output + [COLON];
    output := output + display;
    if original.Some? {
      output := output + original.value;
    }
    return Some(output);
  }

  function StripPrefix(b: seq<Byte>, prefix: seq<Byte>): Option<seq<Byte>> {
    if prefix <= b then Some(b[|prefix|..]) else None
  }

  /** The declared unit counts and the bytes they govern. */
  function ParseCounts(framed: seq<Byte>): Option<(nat, Option<nat>, seq<Byte>)> {
    var d := Decimal(framed);
    if d.None? then None
    else
      var dash := StripPrefix(d.value.1, [MINUS, COLON]);
      if dash.Some? then Some((d.value.0, None, dash.value))
      else
        var o := Decimal(d.value.1);
        if o.None? then None else Some((d.value.0, Some(o.value.0), o.value.1))
  }

  function ParseBody(chain: seq<Byte>, d: nat, o: Option<nat>, framed: seq<Byte>): Option<ErrorFrame> {
    var end := Boundary(framed, d);
    if end.None? then None
    else
      var display, rest := framed[..end.value], framed[end.value..];
      if o.None? then Some(ErrorFrame(chain, display, None, rest))
      else
        var last := Boundary(rest, o.value);
        if last.None? then None
        else Some(ErrorFrame(chain, display, Some(rest[..last.value]), rest[last.value..]))
  }

  function ParseTagged(b: seq<Byte>): Option<ErrorFrame> {
    var rest := StripPrefix(b, [1]);
    if rest.None? then None
    else
      var end := Find(rest.value, 1);
      if end.None? then None
      else
        var framed := StripPrefix(rest.value[end.value + 1..], HEADER);
        if framed.None? then None
        else
          var counts := ParseCounts(framed.value);
          if counts.None? then None
          else ParseBody(rest.value[..end.value], counts.value.0, counts.value.1, counts.value.2)
  }

  // ---- round trip ---------------------------------------------------------------------

  lemma CountsRead(d: nat, original: bool, o: nat, body: seq<Byte>)
    requires d <= USIZE_MAX && o <= USIZE_MAX
    ensures ParseCounts(Spell(d) + [COLON] + ((if original then Spell(o) else [MINUS]) + [COLON] + body))
         == Some((d, if original then Some(o) else None, body))
  {
    hide Decimal, Spell;
    var second := (if original then Spell(o) else [MINUS]) + [COLON] + body;
    DecimalReads(d, second);
    if original {
      DecimalReads(o, body);
      SpellStarts(o);
      assert second[0] == Spell(o)[0];
    } else {
      assert second[..2] == [MINUS, COLON] && second[2..] == body;
    }
  }

  lemma SpellStarts(n: nat)
    ensures IsDigit(Spell(n)[0])
  {
  }

  lemma BodyReads(chain: seq<Byte>, display: seq<Byte>, original: Option<seq<Byte>>, suffix: seq<Byte>)
    requires Units(display).Some? && (original.Some? ==> Units(original.value).Some?)
    ensures ParseBody(chain, Units(display).value,
                      if original.Some? then Some(Units(original.value).value) else None,
                      Body(display, original) + suffix)
         == Some(ErrorFrame(chain, display, original, suffix))
  {
    hide Units, Boundary;
    var middle := if original.Some? then original.value else [];
    var all := Body(display, original) + suffix;
    assert all == display + (middle + suffix);
    BoundaryOfCounted(display, middle + suffix);
    assert all[..|display|] == display && all[|display|..] == middle + suffix;
    if original.Some? {
      BoundaryOfCounted(middle, suffix);
      assert (middle + suffix)[..|middle|] == middle && (middle + suffix)[|middle|..] == suffix;
    } else {
      assert middle + suffix == suffix;
    }
  }

  lemma FrameReads(chain: seq<Byte>, inner: seq<Byte>)
    requires 1 !in chain
    ensures var b := [1] + (chain + [1] + (HEADER + inner));
            ParseTagged(b) == (var c := ParseCounts(inner);
                               if c.None? then None else ParseBody(chain, c.value.0, c.value.1, c.value.2))
  {
    hide ParseCounts, ParseBody;
    var rest := chain + [1] + (HEADER + inner);
    var b := [1] + rest;
    assert b[1..] == rest;
    FindAfter(chain, 1, HEADER + inner);
    assert rest[..|chain|] == chain && rest[|chain| + 1..] == HEADER + inner;
    assert (HEADER + inner)[|HEADER|..] == inner;
  }

  /** Parsing inverts encoding in front of any suffix. */
  lemma RoundTrip(chain: seq<Byte>, display: seq<Byte>, original: Option<seq<Byte>>, suffix: seq<Byte>)
    requires 1 !in chain && CheckedUnits(display).Some? && (original.Some? ==> CheckedUnits(original.value).Some?)
    ensures var o := if original.Some? then Units(original.value).value else 0;
            ParseTagged(Frame(chain, display, original, Units(display).value, o) + suffix) ==
                Some(ErrorFrame(chain, display, original, suffix))
  {
    hide Units, Spell, ParseCounts, ParseBody, ParseTagged;
    var d, o := Units(display).value, if original.Some? then Units(original.value).value else 0;
    var body := Body(display, original) + suffix;
    var second := (if original.Some? then Spell(o) else [MINUS]) + [COLON] + body;
    var inner := Spell(d) + [COLON] + second;
    assert Frame(chain, display, original, d, o) + suffix == [1] + (chain + [1] + (HEADER + inner));
    FrameReads(chain, inner);
    CountsRead(d, original.Some?, o, body);
    BodyReads(chain, display, original, suffix);
  }

  // ---- accepted frames ----------------------------------------------------------------

  function DecodeOriginal(f: ErrorFrame): seq<Unit> { if f.original.Some? then Decode(f.original.value) else [] }

  /** `b` is the frame `f`, and declares `d` and `o` code units for its texts. */
  predicate Holds(b: seq<Byte>, f: ErrorFrame, inner: seq<Byte>, d: nat, o: Option<nat>) {
    && 1 !in f.chain
    && b == [1] + (f.chain + [1] + (HEADER + inner))
    && ParseCounts(inner) == Some((d, o, Body(f.display, f.original) + f.suffix))
    && Units(f.display) == Some(d) && d == |Decode(f.display)|
    && (o.Some? <==> f.original.Some?)
    && (o.Some? ==> Units(f.original.value) == o && o.value == |Decode(f.original.value)|)
  }

  /** An accepted frame is exactly its parts; its texts hold exactly the declared units, as whole
      characters, so that cutting there splits no surrogate pair. */
  lemma AcceptedIsExact(b: seq<Byte>)
    requires ParseTagged(b).Some?
    ensures exists inner, d, o :: Holds(b, ParseTagged(b).value, inner, d, o)
    ensures var f := ParseTagged(b).value;
            Decode(Body(f.display, f.original) + f.suffix) == Decode(f.display) + DecodeOriginal(f) + Decode(f.suffix)
  {
    hide Units, Boundary, Decode, ParseCounts, ParseBody;
    var f := ParseTagged(b).value;
    var rest := b[1..];
    var end := Find(rest, 1).value;
    var inner := rest[end + 1..][|HEADER|..];
    var (d, o, framed) := ParseCounts(inner).value;
    assert b == [1] + rest;
    assert rest == rest[..end] + [1] + rest[end + 1..];
    assert rest[end + 1..] == HEADER + inner;
    BodyIsExact(rest[..end], d, o, framed);
    assert Holds(b, f, inner, d, o);
  }

  lemma BodyIsExact(chain: seq<Byte>, d: nat, o: Option<nat>, framed: seq<Byte>)
    requires ParseBody(chain, d, o, framed).Some?
    ensures var f := ParseBody(chain, d, o, framed).value;
            && f.chain == chain && framed == Body(f.display, f.original) + f.suffix
            && Units(f.display) == Some(d) && d == |Decode(f.display)|
            && (o.Some? <==> f.original.Some?)
            && (o.Some? ==> Units(f.original.value) == o && o.value == |Decode(f.original.value)|)
            && Decode(framed) == Decode(f.display) + DecodeOriginal(f) + Decode(f.suffix)
  {
    hide Units, Boundary, Decode;
    var f := ParseBody(chain, d, o, framed).value;
    CutIsCounted(framed, d);
    UnitsAreDecoded(f.display);
    var rest := framed[|f.display|..];
    assert framed == f.display + rest;
    UnitsDecodeApart(f.display, rest);
    if o.Some? {
      CutIsCounted(rest, o.value);
      UnitsAreDecoded(f.original.value);
      UnitsDecodeApart(f.original.value, f.suffix);
      assert rest == f.original.value + f.suffix;
    }
  }

  /** The condition on the chain is exact: with byte 1 in it, no suffix parses back. */
  lemma RoundTripIffChainClean(chain: seq<Byte>, display: seq<Byte>, original: Option<seq<Byte>>, suffix: seq<Byte>)
    requires CheckedUnits(display).Some? && (original.Some? ==> CheckedUnits(original.value).Some?)
    ensures var o := if original.Some? then Units(original.value).value else 0;
            ParseTagged(Frame(chain, display, original, Units(display).value, o) + suffix) ==
                Some(ErrorFrame(chain, display, original, suffix))
            <==> 1 !in chain
  {
    hide ParseTagged, Units, Frame;
    var o := if original.Some? then Units(original.value).value else 0;
    var b := Frame(chain, display, original, Units(display).value, o) + suffix;
    if 1 !in chain {
      RoundTrip(chain, display, original, suffix);
    } else if ParseTagged(b) == Some(ErrorFrame(chain, display, original, suffix)) {
      AcceptedIsExact(b);
      assert false;
    }
  }
}
