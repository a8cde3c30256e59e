/**
 String.prototype.replace and replaceAll with a string pattern, on UTF-16 code units.  The one
 loop of the runtime is compared with the two-stage definition of ECMA-262 (2023): collect the
 match positions (sections 22.1.3.19 and 22.1.3.20), then substitute (section 22.1.3.19.1).
 */
module StringReplace {
  import opened Wrappers
  import opened Wtf8

  type Text = seq<Unit>

  const DOLLAR: Unit := 0x24
  const AMPERSAND: Unit := 0x26
  const QUOTE: Unit := 0x27
  const BACKTICK: Unit := 0x60
  const LESS: Unit := 0x3C

  predicate IsDigit(u: Unit) { 0x30 <= u <= 0x39 }

  // ---- the specification --------------------------------------------------------------

  predicate MatchesAt(value: Text, search: Text, i: nat) {
    i + |search| <= |value| && value[i..i + |search|] == search
  }

  /** StringIndexOf: the first match at or after `from`. */
  function IndexOf(value: Text, search: Text, from: nat): (r: Option<nat>)
    ensures r.Some? ==>
              from <= r.value && MatchesAt(value, search, r.value) &&
              forall i :: from <= i < r.value ==> !MatchesAt(value, search, i)
    ensures r.None? ==> forall i :: from <= i ==> !MatchesAt(value, search, i)
    decreases |value| - from
  {
    if from > |value| then None
    else if MatchesAt(value, search, from) then Some(from)
    else IndexOf(value, search, from + 1)
  }

  function AdvanceBy(search: Text): nat { if search == [] then 1 else |search| }

  /** The match positions of replaceAll, from `from` on. */
  function Positions(value: Text, search: Text, from: nat): seq<nat>
    decreases if from <= |value| then |value| - from + 1 else 0
  {
    var p := IndexOf(value, search, from);
    if p.None? then [] else [p.value] + Positions(value, search, p.value + AdvanceBy(search))
  }

  /** GetSubstitution without captures or named captures. */
  function GetSubstitution(matched: Text, value: Text, position: nat, template: Text): Text
    requires position <= |value|
    decreases |template|
  {
    if template == [] then []
    else
      var ref := Reference(template);
      Replacement(matched, value, position, template[..ref]) +
          GetSubstitution(matched, value, position, template[ref..])
  }

  /** The length of the reference at the front of the template. */
  function Reference(template: Text): (n: nat)
    requires template != []
    ensures 1 <= n <= |template|
  {
    if template[0] != DOLLAR || |template| == 1 then 1
    else if template[1] == DOLLAR || template[1] == BACKTICK || template[1] == AMPERSAND || template[1] == QUOTE then 2
    else if IsDigit(template[1]) then
      // without captures two digits name no capture: `$00` is taken whole, other `$nn` as `$n`
      if |template| > 2 && template[1] == 0x30 && template[2] == 0x30 then 3 else 2
    else if template[1] == LESS then 2
    else 1
  }

  function Replacement(matched: Text, value: Text, position: nat, ref: Text): Text
    requires position <= |value|
  {
    if ref == [DOLLAR, DOLLAR] then [DOLLAR]
    else if ref == [DOLLAR, BACKTICK] then value[..position]
    else if ref == [DOLLAR, AMPERSAND] then matched
    else if ref == [DOLLAR, QUOTE] then
      var tail := position + |matched|;
      value[if tail < |value| then tail else |value|..]
    else ref
  }

  /** `positions` are matches that start at or after `last` and do not overlap. */
  predicate Placed(value: Text, search: Text, positions: seq<nat>, last: nat)
    decreases |positions|
  {
    positions == [] || (
      last <= positions[0] && MatchesAt(value, search, positions[0])
      && Placed(value, search, positions[1..], positions[0] + |search|))
  }

  /** The preserved stretches and replacements, in order. */
  function Assemble(value: Text, search: Text, replacement: Text, positions: seq<nat>, last: nat): Text
    requires Placed(value, search, positions, last)
    decreases |positions|
  {
    if positions == [] then if last < |value| then value[last..] else []
    else
      var p := positions[0];
      value[last..p] + (GetSubstitution(search, value, p, replacement)
                        + Assemble(value, search, replacement, positions[1..], p + |search|))
  }

  lemma {:induction false} PositionsPlaced(value: Text, search: Text, from: nat, last: nat)
    requires last <= from
    ensures Placed(value, search, Positions(value, search, from), last)
    decreases if from <= |value| then |value| - from + 1 else 0
  {
    var p := IndexOf(value, search, from);
    if p.Some? {
      PositionsPlaced(value, search, p.value + AdvanceBy(search), p.value + |search|);
    }
  }

  /** No match is missed: each one overlaps some position, and empty ones are all taken. */
  lemma PositionsCover(value: Text, search: Text, i: nat)
    requires MatchesAt(value, search, i)
    ensures if search == [] then i in Positions(value, search, 0)
            else exists p :: p in Positions(value, search, 0) && p <= i < p + |search|
  {
    CoveredFrom(value, search, 0, i);
  }

  lemma {:induction false} CoveredFrom(value: Text, search: Text, from: nat, i: nat)
    requires from <= i && MatchesAt(value, search, i)
    ensures exists p :: p in Positions(value, search, from) && p <= i < p + AdvanceBy(search)
    decreases if from <= |value| then |value| - from + 1 else 0
  {
    hide MatchesAt;
    var p := IndexOf(value, search, from).value;
    var rest := Positions(value, search, p + AdvanceBy(search));
    PositionsFirst(value, search, from, p);
    hide Positions, IndexOf;
    if i < p + AdvanceBy(search) {
      assert p in Positions(value, search, from);
    } else {
      CoveredFrom(value, search, p + AdvanceBy(search), i);
      var q :| q in rest && q <= i < q + AdvanceBy(search);
      assert q in Positions(value, search, from);
    }
  }

  function Replaced(value: Text, search: Text, replacement: Text, all: bool): Text {
    var p := IndexOf(value, search, 0);
    if all then
      PositionsPlaced(value, search, 0, 0);
      Assemble(value, search, replacement, Positions(value, search, 0), 0)
    else if p.None? then value
    else value[..p.value] + GetSubstitution(search, value, p.value, replacement) + value[p.value + |search|..]
  }

  // ---- substitution, unit by unit -----------------------------------------------------

  lemma OneUnit(matched: Text, value: Text, position: nat, u: Text)
    requires position <= |value| && u != [] && Reference(u) == 1
    ensures GetSubstitution(matched, value, position, u) == [u[0]] + GetSubstitution(matched, value, position, u[1..])
  {
    assert u[..1] == [u[0]];
  }

  /** Anything but the four references stands for itself, one unit at a time. */
  lemma LiteralUnit(matched: Text, value: Text, position: nat, t: Text)
    requires position <= |value| && t != []
    requires t[0] == DOLLAR && |t| > 1 ==> t[1] !in {DOLLAR, BACKTICK, AMPERSAND, QUOTE}
    ensures GetSubstitution(matched, value, position, t) == [t[0]] + GetSubstitution(matched, value, position, t[1..])
  {
    hide GetSubstitution;
    var n := Reference(t);
    if n == 1 {
      OneUnit(matched, value, position, t);
    } else {
      LiteralReference(matched, value, position, t);
      OneUnit(matched, value, position, t[1..]);
      assert t[1..][1..] == t[2..];
      if n == 3 {
        OneUnit(matched, value, position, t[2..]);
        assert t[2..][1..] == t[3..];
        Regroup3(t, GetSubstitution(matched, value, position, t[3..]));
      } else {
        Regroup2(t, GetSubstitution(matched, value, position, t[2..]));
      }
    }
  }

  lemma Regroup2(t: Text, rest: Text)
    requires |t| > 1
    ensures t[..2] + rest == [t[0]] + ([t[1]] + rest)
  {
  }

  lemma Regroup3(t: Text, rest: Text)
    requires |t| > 2
    ensures t[..3] + rest == [t[0]] + ([t[1]] + ([t[2]] + rest))
  {
  }

  lemma LiteralReference(matched: Text, value: Text, position: nat, t: Text)
    requires position <= |value| && |t| > 1 && t[0] == DOLLAR && t[1] !in {DOLLAR, BACKTICK, AMPERSAND, QUOTE} &&
             Reference(t) > 1
    ensures GetSubstitution(matched, value, position, t) ==
            t[..Reference(t)] + GetSubstitution(matched, value, position, t[Reference(t)..])
  {
    var ref := t[..Reference(t)];
    assert ref[1] == t[1];
    assert Replacement(matched, value, position, ref) == ref;
  }

  lemma ReferenceUnit(matched: Text, value: Text, position: nat, t: Text)
    requires position <= |value| && |t| > 1 && t[0] == DOLLAR && t[1] in {DOLLAR, BACKTICK, AMPERSAND, QUOTE}
    ensures GetSubstitution(matched, value, position, t)
         == Replacement(matched, value, position, [DOLLAR, t[1]]) + GetSubstitution(matched, value, position, t[2..])
  {
    assert t[..2] == [t[0], t[1]];
  }

  // ---- what the references stand for --------------------------------------------------

  lemma ReplacementValues(value: Text, start: nat, end: nat)
    requires start <= end <= |value|
    ensures Replacement(value[start..end], value, start, [DOLLAR, BACKTICK]) == value[..start]
    ensures Replacement(value[start..end], value, start, [DOLLAR, QUOTE]) == value[end..]
    ensures Replacement(value[start..end], value, start, [DOLLAR, AMPERSAND]) == value[start..end]
    ensures Replacement(value[start..end], value, start, [DOLLAR, DOLLAR]) == [DOLLAR]
  {
    assert [DOLLAR, BACKTICK][1] == BACKTICK && [DOLLAR, QUOTE][1] == QUOTE && [DOLLAR, AMPERSAND][1] == AMPERSAND;
    assert [DOLLAR, DOLLAR][1] == DOLLAR;
  }

  /** The four references by value: what stands before the match, what follows it, the match
      itself, and a dollar sign. */
  lemma ReferenceValues(value: Text, start: nat, end: nat)
    requires start <= end <= |value|
    ensures GetSubstitution(value[start..end], value, start, ['$' as int, '`' as int]) == value[..start]
    ensures GetSubstitution(value[start..end], value, start, ['$' as int, '\'' as int]) == value[end..]
    ensures GetSubstitution(value[start..end], value, start, ['$' as int, '&' as int]) == value[start..end]
    ensures GetSubstitution(value[start..end], value, start, ['$' as int, '$' as int]) == ['$' as int]
  {
    var matched := value[start..end];
    OneReference(matched, value, start, BACKTICK);
    OneReference(matched, value, start, QUOTE);
    OneReference(matched, value, start, AMPERSAND);
    OneReference(matched, value, start, DOLLAR);
    ReplacementValues(value, start, end);
    hide GetSubstitution, Replacement;
  }

  lemma OneReference(matched: Text, value: Text, position: nat, u: Unit)
    requires position <= |value| && u in {DOLLAR, BACKTICK, AMPERSAND, QUOTE}
    ensures GetSubstitution(matched, value, position, [DOLLAR, u]) == Replacement(matched, value, position, [DOLLAR, u])
  {
    hide Replacement;
    assert [DOLLAR, u][2..] == [];
    ReferenceUnit(matched, value, position, [DOLLAR, u]);
  }

  /** A reference in front of a template contributes its value, and the rest follows. */
  lemma ReferenceThenRest(matched: Text, value: Text, position: nat, u: Unit, rest: Text)
    requires position <= |value| && u in {'`' as int, '\'' as int, '&' as int, '$' as int}
    ensures GetSubstitution(matched, value, position, ['$' as int, u] + rest)
         == GetSubstitution(matched, value, position, ['$' as int, u]) + GetSubstitution(matched, value, position, rest)
  {
    OneReference(matched, value, position, u);
    hide GetSubstitution, Replacement;
    var t := [DOLLAR, u] + rest;
    assert t[2..] == rest;
    ReferenceUnit(matched, value, position, t);
  }

  /** Everything else stands for itself: a unit that starts no reference is copied. */
  lemma LiteralThenRest(matched: Text, value: Text, position: nat, u: Unit, rest: Text)
    requires position <= |value|
    requires u == '$' as int && rest != [] ==> rest[0] !in {'`' as int, '\'' as int, '&' as int, '$' as int}
    ensures GetSubstitution(matched, value, position, [u] + rest)
         == [u] + GetSubstitution(matched, value, position, rest)
  {
    assert ([u] + rest)[1..] == rest;
    LiteralUnit(matched, value, position, [u] + rest);
  }

  /** A template without a dollar sign stands for itself, in front of any other. */
  lemma {:induction false} LiteralTemplate(matched: Text, value: Text, position: nat, t: Text, rest: Text)
    requires position <= |value| && '$' as int !in t
    ensures GetSubstitution(matched, value, position, t + rest)
         == t + GetSubstitution(matched, value, position, rest)
  {
    hide GetSubstitution;
    if t == [] {
      assert t + rest == rest;
      assert t + GetSubstitution(matched, value, position, rest) == GetSubstitution(matched, value, position, rest);
    } else {
      assert forall u :: u in t[1..] ==> u in t;
      LiteralTemplate(matched, value, position, t[1..], rest);
      assert t + rest == [t[0]] + (t[1..] + rest);
      LiteralThenRest(matched, value, position, t[0], t[1..] + rest);
      Appended([t[0]], t[1..], GetSubstitution(matched, value, position, rest));
      assert t == [t[0]] + t[1..];
    }
  }

  lemma Appended(output: Text, fragment: Text, rest: Text)
    ensures output + (fragment + rest) == (output + fragment) + rest
  {
  }

  /** The value of one of the four references. */
  method Fragment(value: Text, start: nat, end: nat, next: Unit) returns (fragment: Text)
    requires start <= end <= |value| && next in {DOLLAR, BACKTICK, AMPERSAND, QUOTE}
    ensures fragment == Replacement(value[start..end], value, start, [DOLLAR, next])
  {
    if next == DOLLAR {
      fragment := [DOLLAR];
    } else if next == AMPERSAND {
      fragment := value[start..end];
    } else if next == BACKTICK {
      fragment := value[..start];
    } else {
      fragment := value[end..];
    }
  }

  method Substitute(value: Text, start: nat, end: nat, replacement: Text) returns (output: Text)
    requires start <= end <= |value|
    ensures output == GetSubstitution(value[start..end], value, start, replacement)
  {
    hide Replacement;
    ghost var matched := value[start..end];
    output := [];
    var index := 0;
    assert replacement[0..] == replacement;
    while index < |replacement|
      invariant 0 <= index <= |replacement|
      invariant output + GetSubstitution(matched, value, start, replacement[index..]) ==
                GetSubstitution(matched, value, start, replacement)
    {
      hide GetSubstitution;
      ghost var t := replacement[index..];
      if replacement[index] == DOLLAR && index + 1 < |replacement| &&
          replacement[index + 1] in {DOLLAR, BACKTICK, AMPERSAND, QUOTE} {
        ReferenceUnit(matched, value, start, t);
        assert t[2..] == replacement[index + 2..];
        var fragment := Fragment(value, start, end, replacement[index + 1]);
        Appended(output, fragment, GetSubstitution(matched, value, start, t[2..]));
        output := output + fragment;
        index := index + 2;
      } else {
        LiteralUnit(matched, value, start, t);
        assert t[1..] == replacement[index + 1..];
        Appended(output, [replacement[index]], GetSubstitution(matched, value, start, t[1..]));
        output := output + [replacement[index]];
        index := index + 1;
      }
    }
    assert replacement[index..] == [];
  }

  /** The leftmost match at or after `cursor`. */
  method Locate(value: Text, search: Text, cursor: nat) returns (r: Option<nat>)
    requires cursor <= |value|
    ensures r == IndexOf(value, search, cursor)
  {
    if search == [] {
      assert value[cursor..cursor] == [];
      return Some(cursor);
    }
    var i := cursor;
    while i + |search| <= |value|
      invariant cursor <= i <= |value| && IndexOf(value, search, cursor) == IndexOf(value, search, i)
      decreases |value| - i
    {
      if value[i..i + |search|] == search {
        return Some(i);
      }
      i := i + 1;
    }
    return None;
  }

  // ---- the loop -----------------------------------------------------------------------

  /** What is still to be written when everything before `cursor` is done. */
  function Remaining(value: Text, search: Text, replacement: Text, cursor: nat): Text
    requires cursor <= |value|
  {
    PositionsPlaced(value, search, cursor, cursor);
    Assemble(value, search, replacement, Positions(value, search, cursor), cursor)
  }

  /** What follows a match that ends at `end`. */
  function AfterMatch(value: Text, search: Text, replacement: Text, end: nat): Text
    requires end <= |value|
  {
    if search != [] then Remaining(value, search, replacement, end)
    else if end == |value| then []
    else [value[end]] + Remaining(value, search, replacement, end + 1)
  }

  lemma RemainingMatch(value: Text, search: Text, replacement: Text, cursor: nat, start: nat)
    requires cursor <= |value| && IndexOf(value, search, cursor) == Some(start)
    ensures Remaining(value, search, replacement, cursor)
         == value[cursor..start] + (GetSubstitution(search, value, start, replacement) +
                                    AfterMatch(value, search, replacement, start + |search|))
  {
    hide GetSubstitution, Assemble, Placed, IndexOf, Positions, AfterMatch;
    var positions := Positions(value, search, cursor);
    PositionsPlaced(value, search, cursor, cursor);
    PositionsFirst(value, search, cursor, start);
    assert positions[1..] == Positions(value, search, start + AdvanceBy(search));
    AssembleFirst(value, search, replacement, positions, cursor);
    RestIsAfter(value, search, replacement, start + |search|);
  }

  lemma RestIsAfter(value: Text, search: Text, replacement: Text, end: nat)
    requires end <= |value|
    requires |search| <= end
    ensures var rest := Positions(value, search, end - |search| + AdvanceBy(search));
            Placed(value, search, rest, end) &&
            Assemble(value, search, replacement, rest, end) == AfterMatch(value, search, replacement, end)
  {
    hide GetSubstitution, Assemble, Placed, IndexOf;
    PositionsPlaced(value, search, end - |search| + AdvanceBy(search), end);
    if search == [] && end < |value| {
      EmptyMatches(value, search, end + 1);
      PositionsPlaced(value, search, end + 1, end + 1);
      AssembleLater(value, search, replacement, Positions(value, search, end + 1), end, end + 1);
      assert value[end..end + 1] == [value[end]];
    } else if search == [] {
      PastEnd(value, search, end + 1);
      AssembleNone(value, search, replacement, end);
    }
  }

  lemma PastEnd(value: Text, search: Text, from: nat)
    requires from > |value|
    ensures Positions(value, search, from) == []
  {
  }

  lemma AssembleNone(value: Text, search: Text, replacement: Text, last: nat)
    requires last >= |value|
    ensures Placed(value, search, [], last) && Assemble(value, search, replacement, [], last) == []
  {
  }

  lemma AssembleLater(value: Text, search: Text, replacement: Text, positions: seq<nat>, last: nat, mid: nat)
    requires positions != [] && last <= mid <= positions[0] && Placed(value, search, positions, last) &&
             Placed(value, search, positions, mid)
    ensures mid <= |value| && Assemble(value, search, replacement, positions, last) ==
            value[last..mid] + Assemble(value, search, replacement, positions, mid)
  {
    hide GetSubstitution, Assemble, Placed;
    AssembleFirst(value, search, replacement, positions, last);
    AssembleFirst(value, search, replacement, positions, mid);
    var p := positions[0];
    assert value[last..p] == value[last..mid] + value[mid..p];
    Appended(value[last..mid], value[mid..p], AfterFirst(value, search, replacement, positions));
  }

  /** The first replacement and everything after it. */
  function AfterFirst(value: Text, search: Text, replacement: Text, positions: seq<nat>): Text
    requires positions != [] && MatchesAt(value, search, positions[0]) &&
             Placed(value, search, positions[1..], positions[0] + |search|)
  {
    GetSubstitution(search, value, positions[0], replacement) +
        Assemble(value, search, replacement, positions[1..], positions[0] + |search|)
  }

  lemma AssembleFirst(value: Text, search: Text, replacement: Text, positions: seq<nat>, last: nat)
    requires positions != [] && Placed(value, search, positions, last)
    ensures last <= positions[0] <= |value| && MatchesAt(value, search, positions[0])
    ensures Placed(value, search, positions[1..], positions[0] + |search|)
    ensures Assemble(value, search, replacement, positions, last) ==
            value[last..positions[0]] + AfterFirst(value, search, replacement, positions)
  {
    hide GetSubstitution;
  }

  lemma PositionsFirst(value: Text, search: Text, from: nat, start: nat)
    requires IndexOf(value, search, from) == Some(start)
    ensures Positions(value, search, from) == [start] + Positions(value, search, start + AdvanceBy(search))
  {
  }

  lemma EmptyMatches(value: Text, search: Text, i: nat)
    requires search == [] && i <= |value|
    ensures IndexOf(value, search, i) == Some(i)
  {
    assert value[i..i] == [];
  }

  lemma RemainingNone(value: Text, search: Text, replacement: Text, cursor: nat)
    requires cursor <= |value| && IndexOf(value, search, cursor).None?
    ensures Remaining(value, search, replacement, cursor) == value[cursor..]
  {
  }

  method Replace(value: Text, search: Text, replacement: Text, all: bool) returns (output: Text)
    ensures output == Replaced(value, search, replacement, all)
  {
    hide GetSubstitution, Remaining, Replaced, IndexOf, AfterMatch;
    output := [];
    var cursor := 0;
    ghost var goal := Replaced(value, search, replacement, true);
    RemainingStart(value, search, replacement);
    while cursor <= |value|
      invariant 0 <= cursor <= |value|
      invariant all ==> output + Remaining(value, search, replacement, cursor) == goal
      invariant !all ==> cursor == 0 && output == []
      decreases |value| - cursor
    {
      ghost var written := output;
      var found := Locate(value, search, cursor);
      if found.None? {
        RemainingNone(value, search, replacement, cursor);
        if !all {
          FirstOnly(value, search, replacement);
        }
        break;
      }
      var start := found.value;
      var end := start + |search|;
      output := output + value[cursor..start];
      var substituted := Substitute(value, start, end, replacement);
      output := output + substituted;
      MatchWritten(value, search, replacement, cursor, start, written, substituted);
      cursor := end;
      if !all {
        FirstOnly(value, search, replacement);
        break;
      }
      AfterNonempty(value, search, replacement, cursor);
      if search == [] {
        if cursor == |value| {
          break;
        }
        AfterEmpty(value, search, replacement, cursor, output);
        output := output + [value[cursor]];
        cursor := cursor + 1;
      }
    }
    output := output + value[cursor..];
  }

  lemma MatchWritten(value: Text, search: Text, replacement: Text, cursor: nat, start: nat, written: Text,
                     substituted: Text)
    requires cursor <= |value| && IndexOf(value, search, cursor) == Some(start)
    requires substituted == GetSubstitution(search, value, start, replacement)
    ensures written + Remaining(value, search, replacement, cursor)
         == written + value[cursor..start] + substituted + AfterMatch(value, search, replacement, start + |search|)
  {
    hide GetSubstitution, Remaining, AfterMatch;
    var after := AfterMatch(value, search, replacement, start + |search|);
    RemainingMatch(value, search, replacement, cursor, start);
    Appended(written, value[cursor..start], substituted + after);
    Appended(written + value[cursor..start], substituted, after);
  }

  lemma AfterNonempty(value: Text, search: Text, replacement: Text, end: nat)
    requires end <= |value|
    ensures search != [] ==> AfterMatch(value, search, replacement, end) == Remaining(value, search, replacement, end)
    ensures search == [] && end == |value| ==> AfterMatch(value, search, replacement, end) == value[end..]
  {
  }

  lemma AfterEmpty(value: Text, search: Text, replacement: Text, end: nat, output: Text)
    requires end < |value| && search == []
    ensures output + AfterMatch(value, search, replacement, end) ==
            output + [value[end]] + Remaining(value, search, replacement, end + 1)
  {
    Appended(output, [value[end]], Remaining(value, search, replacement, end + 1));
  }

  lemma FirstOnly(value: Text, search: Text, replacement: Text)
    ensures var p := IndexOf(value, search, 0);
            Replaced(value, search, replacement, false) ==
            if p.None? then value
            else value[0..p.value] + GetSubstitution(search, value, p.value, replacement) + value[p.value + |search|..]
  {
  }

  // ---- whole replacements -------------------------------------------------------------

  /** Nothing is lost, moved or repeated: replacing every match by itself changes nothing. */
  lemma ReplaceByItself(value: Text, search: Text, all: bool)
    ensures Replaced(value, search, ['$' as int, '&' as int], all) == value
  {
    var template := [DOLLAR, AMPERSAND];
    if all {
      PositionsPlaced(value, search, 0, 0);
      AssembledByItself(value, search, Positions(value, search, 0), 0);
      assert value[0..] == value;
    } else {
      var p := IndexOf(value, search, 0);
      if p.Some? {
        var end := p.value + |search|;
        ReferenceValues(value, p.value, end);
        assert value[p.value..end] == search;
        assert value == value[..p.value] + value[p.value..end] + value[end..];
      }
    }
  }

  lemma {:induction false} AssembledByItself(value: Text, search: Text, positions: seq<nat>, last: nat)
    requires last <= |value| && Placed(value, search, positions, last)
    ensures Assemble(value, search, ['$' as int, '&' as int], positions, last) == value[last..]
    decreases |positions|
  {
    hide GetSubstitution;
    if positions != [] {
      var p := positions[0];
      var end := p + |search|;
      ReferenceValues(value, p, end);
      AssembledByItself(value, search, positions[1..], end);
      assert value[last..] == value[last..p] + (value[p..end] + value[end..]);
    }
  }

  /** A match replaced by a template without a dollar sign: only the match goes. */
  lemma ReplaceFirst(value: Text, search: Text, template: Text, p: nat)
    requires MatchesAt(value, search, p) && (forall i :: 0 <= i < p ==> !MatchesAt(value, search, i))
    requires '$' as int !in template
    ensures Replaced(value, search, template, false) == value[..p] + template + value[p + |search|..]
  {
    LiteralTemplate(search, value, p, template, []);
    assert template + [] == template;
    var q := IndexOf(value, search, 0);
    assert q == Some(p);
  }

  /** Without a match the value comes back, in both modes. */
  lemma ReplaceNothing(value: Text, search: Text, template: Text, all: bool)
    requires forall i :: 0 <= i ==> !MatchesAt(value, search, i)
    ensures Replaced(value, search, template, all) == value
  {
    assert IndexOf(value, search, 0).None?;
    assert value == [] || value[0..] == value;
  }

  lemma RemainingStart(value: Text, search: Text, replacement: Text)
    ensures Replaced(value, search, replacement, true) == Remaining(value, search, replacement, 0)
  {
  }
}
