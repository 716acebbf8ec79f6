/**
 The grammar that the JSON parser of the C# client accepts, as a relation between spans of a text and values (RFC
 8259, sections 2 to 7, with what the parser lets through besides: control characters in strings, and a sign and a
 prefix in an escaped code).
 */
module JsonGrammar {
  import opened Wrappers
  import opened Sequences
  import opened JsonText

  // The grammar

  ghost predicate Spaces(s: Text, i: nat, j: nat) { i <= j <= |s| && forall k :: i <= k < j ==> IsSpace(s[k]) }

  ghost predicate DigitRun(s: Text, i: nat, j: nat) { i < j <= |s| && forall k :: i <= k < j ==> IsDigit(s[k]) }

  /** A zero, or digits that do not start with one. */
  ghost predicate Whole(s: Text, i: nat, j: nat) { DigitRun(s, i, j) && (s[i] == ZERO ==> j == i + 1) }

  ghost predicate Fraction(s: Text, i: nat, j: nat) { i == j || (i < j <= |s| && s[i] == DOT && DigitRun(s, i + 1, j)) }

  ghost predicate Exponent(s: Text, i: nat, j: nat) {
    || i == j
    || (i + 1 < j <= |s| && (s[i] == 0x65 || s[i] == 0x45)
        && (DigitRun(s, i + 1, j) || ((s[i + 1] == PLUS || s[i + 1] == MINUS) && DigitRun(s, i + 2, j))))
  }

  ghost predicate NumberParts(s: Text, i: nat, b: nat, c: nat, j: nat) {
    i < b <= c <= j <= |s| && Whole(s, if s[i] == MINUS then i + 1 else i, b) && Fraction(s, b, c) && Exponent(s, c, j)
  }

  ghost predicate NumberSpan(s: Text, i: nat, j: nat, v: Json) {
    exists b: nat, c: nat :: NumberParts(s, i, b, c, j) && v == MakeNumber(s[i..j], b < j)
  }

  predicate HexDigitIs(u: Unit, d: nat) {
    (d < 10 && u == ZERO + d) || (10 <= d < 16 && (u == 0x61 + d - 10 || u == 0x41 + d - 10))
  }

  /** What may stand in front of the hexadecimal digits of an escaped code, which fill the four places. */
  predicate CodePrefix(t: Text) {
    || t == [] || t == [PLUS]
    || t == [ZERO, 0x78] || t == [ZERO, 0x58] || t == [PLUS, ZERO, 0x78] || t == [PLUS, ZERO, 0x58]
  }

  ghost predicate CodeIs(hex: Text, c: Unit) {
    exists p: nat, a: nat, b: nat, d: nat, e: nat ::
      PlacesAre(hex, p, a, b, d, e) && c == 0x1000 * a + 0x100 * b + 0x10 * d + e
  }

  ghost predicate PlacesAre(hex: Text, p: nat, a: nat, b: nat, d: nat, e: nat) {
    && |hex| == 4 && p <= 3 && CodePrefix(hex[..p])
    && PlaceIs(hex, p, 0, a) && PlaceIs(hex, p, 1, b) && PlaceIs(hex, p, 2, d) && PlaceIs(hex, p, 3, e)
  }

  /** A place behind the prefix holds the digit, and one in the prefix counts as zero. */
  predicate PlaceIs(hex: Text, p: nat, k: nat, d: nat)
    requires k < |hex|
  {
    if k < p then d == 0 else HexDigitIs(hex[k], d)
  }

  /** The two-unit escapes. */
  predicate ShortIs(e: Unit, c: Unit) {
    || (e == c && (e == QUOTE || e == BACKSLASH || e == SLASH))
    || (e == 0x62 && c == 0x08) || (e == 0x66 && c == 0x0C) || (e == 0x6E && c == 0x0A)
    || (e == 0x72 && c == 0x0D) || (e == 0x74 && c == 0x09)
  }

  /** One unit of a string, escaped or not. */
  ghost predicate UnitSpan(s: Text, i: nat, k: nat, c: Unit) {
    || (k == i + 1 <= |s| && s[i] == c && c != QUOTE && c != BACKSLASH)
    || (k == i + 2 <= |s| && s[i] == BACKSLASH && ShortIs(s[i + 1], c))
    || (k == i + 6 <= |s| && s[i] == BACKSLASH && s[i + 1] == 0x75 && CodeIs(s[i + 2..i + 6], c))
  }

  ghost predicate UnitsSpan(s: Text, i: nat, j: nat, t: Text)
    decreases |t|
  {
    if t == [] then i == j
    else exists k: nat :: i < k <= j && UnitSpan(s, i, k, t[0]) && UnitsSpan(s, k, j, t[1..])
  }

  ghost predicate StringSpan(s: Text, i: nat, j: nat, t: Text) {
    i + 2 <= j <= |s| && s[i] == QUOTE && s[j - 1] == QUOTE && UnitsSpan(s, i + 1, j - 1, t)
  }

  predicate TokenSpan(s: Text, i: nat, j: nat, token: Text) { i <= j <= |s| && s[i..j] == token }

  /** A value from i to j. */
  ghost predicate ValueSpan(s: Text, i: nat, j: nat, v: Json)
    decreases j - i, 0
  {
    match v
    case Null => TokenSpan(s, i, j, NULL)
    case Bool(b) => TokenSpan(s, i, j, if b then TRUE else FALSE)
    case Integer(_) => NumberSpan(s, i, j, v)
    case Rounded(_, _) => NumberSpan(s, i, j, v)
    case Str(t) => StringSpan(s, i, j, t)
    case Arr(items) =>
      && i + 2 <= j <= |s| && s[i] == OPEN_BRACKET && s[j - 1] == CLOSE_BRACKET
      && if items == [] then Spaces(s, i + 1, j - 1) else ItemsSpan(s, i + 1, j - 1, items)
    case Obj(members) =>
      && i + 2 <= j <= |s| && s[i] == OPEN_BRACE && s[j - 1] == CLOSE_BRACE
      && exists written: seq<(Text, Json)> ::
           && members == Dictionary(written)
           && if written == [] then Spaces(s, i + 1, j - 1) else MembersSpan(s, i + 1, j - 1, written)
  }

  /** A value with spaces around it. */
  ghost predicate ElementSpan(s: Text, i: nat, j: nat, v: Json)
    decreases j - i, 1
  {
    exists a: nat, b: nat :: i <= a <= b <= j && Spaces(s, i, a) && ValueSpan(s, a, b, v) && Spaces(s, b, j)
  }

  ghost predicate ItemsSpan(s: Text, i: nat, j: nat, items: seq<Json>)
    requires items != []
    decreases j - i, 2
  {
    if |items| == 1 then ElementSpan(s, i, j, items[0])
    else
      exists c: nat ::
        && i <= c < j <= |s| && s[c] == COMMA
        && ElementSpan(s, i, c, items[0]) && ItemsSpan(s, c + 1, j, items[1..])
  }

  /** A key with spaces around it, and its colon. */
  ghost predicate KeySpan(s: Text, i: nat, j: nat, key: Text) {
    exists a: nat, b: nat ::
      i <= a < b < j <= |s| && s[j - 1] == COLON && Spaces(s, i, a) && StringSpan(s, a, b, key) && Spaces(s, b, j - 1)
  }

  ghost predicate MemberSpan(s: Text, i: nat, j: nat, m: (Text, Json))
    decreases j - i, 2
  {
    exists k: nat :: i < k <= j && KeySpan(s, i, k, m.0) && ElementSpan(s, k, j, m.1)
  }

  ghost predicate MembersSpan(s: Text, i: nat, j: nat, members: seq<(Text, Json)>)
    requires members != []
    decreases j - i, 3
  {
    if |members| == 1 then MemberSpan(s, i, j, members[0])
    else
      exists c: nat ::
        && i <= c < j <= |s| && s[c] == COMMA
        && MemberSpan(s, i, c, members[0]) && MembersSpan(s, c + 1, j, members[1..])
  }

  /** What an object with these members stands for: a key that is written again keeps its place and gets the value. */
  function Dictionary(written: seq<(Text, Json)>): seq<(Text, Json)> {
    if written == [] then []
    else
      var last := written[|written| - 1];
      SetMember(Dictionary(written[..|written| - 1]), last.0, last.1)
  }

  /** A text is a value with spaces around it. */
  ghost predicate IsDocument(s: Text, v: Json) { ElementSpan(s, 0, |s|, v) }

  // Spaces and digits

  lemma {:induction false} SpacesSkipped(s: Text, i: nat)
    requires i <= |s|
    ensures Spaces(s, i, SkipSpace(s, i)) && (SkipSpace(s, i) < |s| ==> !IsSpace(s[SkipSpace(s, i)]))
    decreases |s| - i
  {
    if i < |s| && IsSpace(s[i]) { SpacesSkipped(s, i + 1); }
  }

  lemma {:induction false} SkipsSpaces(s: Text, i: nat, j: nat)
    requires Spaces(s, i, j) && (j < |s| ==> !IsSpace(s[j]))
    ensures SkipSpace(s, i) == j
    decreases j - i
  {
    if i < j { SkipsSpaces(s, i + 1, j); }
  }

  lemma {:induction false} DigitsSkipped(s: Text, i: nat)
    requires i <= |s|
    ensures var j := SkipDigits(s, i); (forall k :: i <= k < j ==> IsDigit(s[k])) && !IsDigit(Peek(s, j))
    decreases |s| - i
  {
    if IsDigit(Peek(s, i)) { DigitsSkipped(s, i + 1); }
  }

  lemma {:induction false} SkipsDigits(s: Text, i: nat, j: nat)
    requires i <= j <= |s| && (forall k :: i <= k < j ==> IsDigit(s[k])) && !IsDigit(Peek(s, j))
    ensures SkipDigits(s, i) == j
    decreases j - i
  {
    if i < j { SkipsDigits(s, i + 1, j); }
  }

  // Numbers

  /** What may stand behind a value: the end, a space, or a sign that goes on with what it is in. */
  predicate Ends(s: Text, j: nat) {
    j == |s| || (j < |s| && (IsSpace(s[j]) || s[j] == COMMA || s[j] == CLOSE_BRACKET || s[j] == CLOSE_BRACE))
  }

  lemma WholeFound(s: Text, i: nat)
    requires i <= |s| && IntegerPart(s, i).Some?
    ensures Whole(s, i, IntegerPart(s, i).value)
    ensures s[i] != ZERO ==> !IsDigit(Peek(s, IntegerPart(s, i).value))
  {
    if Peek(s, i) != ZERO { DigitsSkipped(s, i + 1); }
  }

  lemma WholeRead(s: Text, i: nat, b: nat)
    requires Whole(s, i, b) && !IsDigit(Peek(s, b))
    ensures IntegerPart(s, i) == Some(b)
  {
    if s[i] != ZERO { SkipsDigits(s, i + 1, b); }
  }

  lemma ExponentFound(s: Text, start: nat, i: nat, hasFraction: bool)
    requires start < i <= |s| && ExponentAt(s, start, i, hasFraction).Parsed?
    ensures var r := ExponentAt(s, start, i, hasFraction);
      Exponent(s, i, r.next) && r.value == MakeNumber(s[start..r.next], hasFraction || i < r.next)
  {
    hide MakeNumber;
    if Peek(s, i) == 0x65 || Peek(s, i) == 0x45 { DigitsSkipped(s, ExponentStart(s, i)); }
  }

  lemma ExponentRead(s: Text, start: nat, i: nat, hasFraction: bool, j: nat)
    requires start < i <= j <= |s| && Exponent(s, i, j) && Ends(s, j)
    ensures ExponentAt(s, start, i, hasFraction) == Parsed(MakeNumber(s[start..j], hasFraction || i < j), j)
  {
    hide MakeNumber;
    if i < j {
      assert !IsDigit(s[i]);
      SkipsDigits(s, ExponentStart(s, i), j);
    }
  }

  lemma NumberFound(s: Text, i: nat)
    requires i < |s| && NumberAt(s, i).Parsed?
    ensures NumberSpan(s, i, NumberAt(s, i).next, NumberAt(s, i).value)
  {
    hide MakeNumber, IntegerPart, ExponentAt, Exponent;
    var start := if s[i] == MINUS then i + 1 else i;
    WholeFound(s, start);
    var b := IntegerPart(s, start).value;
    var r := NumberAt(s, i);
    if Peek(s, b) == DOT {
      DigitsSkipped(s, b + 1);
      var c := SkipDigits(s, b + 1);
      ExponentFound(s, i, c, true);
      assert Fraction(s, b, c);
      assert NumberParts(s, i, b, c, r.next);
    } else {
      ExponentFound(s, i, b, false);
      assert NumberParts(s, i, b, b, r.next);
    }
  }

  lemma NumberRead(s: Text, i: nat, j: nat, v: Json)
    requires NumberSpan(s, i, j, v) && Ends(s, j)
    ensures NumberAt(s, i) == Parsed(v, j) && (s[i] == MINUS || IsDigit(s[i]))
  {
    hide MakeNumber, IntegerPart, ExponentAt;
    var b: nat, c: nat :| NumberParts(s, i, b, c, j) && v == MakeNumber(s[i..j], b < j);
    var start := if s[i] == MINUS then i + 1 else i;
    WholeRead(s, start, b);
    if b < c {
      SkipsDigits(s, b + 1, c);
      ExponentRead(s, i, c, true, j);
    } else {
      ExponentRead(s, i, b, false, j);
    }
  }

  // Strings

  lemma HexDigitMeans(u: Unit)
    ensures match HexValue(u)
      case Some(d) => d < 16 && HexDigitIs(u, d) && forall e: nat :: HexDigitIs(u, e) ==> e == d
      case None => forall d: nat :: !HexDigitIs(u, d)
  {
  }

  lemma {:induction false} HexNumberFails(digits: Text, k: nat)
    requires k < |digits| && HexValue(digits[k]).None?
    ensures HexNumber(digits).None?
  {
    if k < |digits| - 1 { HexNumberFails(digits[..|digits| - 1], k); }
  }

  lemma {:induction false} HexNumberOf(digits: Text)
    requires 1 <= |digits| <= 4 && forall k :: 0 <= k < |digits| ==> HexValue(digits[k]).Some?
    ensures HexNumber(digits) == Some(
      (if |digits| >= 4 then 0x1000 * HexValue(digits[|digits| - 4]).value else 0)
      + (if |digits| >= 3 then 0x100 * HexValue(digits[|digits| - 3]).value else 0)
      + (if |digits| >= 2 then 0x10 * HexValue(digits[|digits| - 2]).value else 0)
      + HexValue(digits[|digits| - 1]).value)
  {
    hide HexValue;
    var front := digits[..|digits| - 1];
    assert forall k :: 0 <= k < |front| ==> front[k] == digits[k];
    if front == [] {
      assert HexNumber(front) == Some(0);
    } else {
      HexNumberOf(front);
    }
  }

  /** How many places the sign and the prefix take. */
  function PrefixLength(hex: Text): (p: nat)
    requires |hex| == 4
    ensures p <= 3
  {
    var sign := if hex[0] == PLUS then 1 else 0;
    sign + if hex[sign] == ZERO && (hex[sign + 1] == 0x78 || hex[sign + 1] == 0x58) then 2 else 0
  }

  lemma PrefixFound(hex: Text)
    requires |hex| == 4
    ensures CodePrefix(hex[..PrefixLength(hex)]) && ToInt32(hex) == HexNumber(hex[PrefixLength(hex)..])
  {
    hide HexNumber;
  }

  /** The digits begin right behind the longest prefix: neither a sign nor an x is one. */
  lemma PrefixIs(hex: Text, p: nat)
    requires |hex| == 4 && p <= 3 && CodePrefix(hex[..p])
    requires forall k :: p <= k < 4 ==> HexValue(hex[k]).Some?
    ensures p == PrefixLength(hex)
  {
    if p >= 1 { assert hex[..p][0] == hex[0]; }
    if p >= 2 { assert hex[..p][1] == hex[1]; }
    if p >= 3 { assert hex[..p][2] == hex[2]; }
  }

  lemma CodeFound(hex: Text)
    requires |hex| == 4 && ToInt32(hex).Some?
    ensures CodeIs(hex, ToInt32(hex).value)
  {
    var p := PrefixLength(hex);
    PrefixFound(hex);
    var digits := hex[p..];
    forall k | 0 <= k < |digits| ensures HexValue(digits[k]).Some? {
      if HexValue(digits[k]).None? { HexNumberFails(digits, k); }
    }
    HexNumberOf(digits);
    assert forall k :: p <= k < 4 ==> hex[k] == digits[k - p];
    hide ToInt32, HexNumber, HexValue, CodePrefix, PrefixLength;
    PlacesFound(hex, p, ToInt32(hex).value);
  }

  lemma PlacesFound(hex: Text, p: nat, c: Unit)
    requires |hex| == 4 && p <= 3 && CodePrefix(hex[..p]) && forall k :: p <= k < 4 ==> HexValue(hex[k]).Some?
    requires c == (if p == 0 then 0x1000 * HexValue(hex[0]).value else 0)
      + (if p <= 1 then 0x100 * HexValue(hex[1]).value else 0)
      + (if p <= 2 then 0x10 * HexValue(hex[2]).value else 0) + HexValue(hex[3]).value
    ensures CodeIs(hex, c)
  {
    var a := if p == 0 then HexValue(hex[0]).value else 0;
    var b := if p <= 1 then HexValue(hex[1]).value else 0;
    var d := if p <= 2 then HexValue(hex[2]).value else 0;
    var e := HexValue(hex[3]).value;
    forall k | p <= k < 4 ensures HexDigitIs(hex[k], HexValue(hex[k]).value) { HexDigitMeans(hex[k]); }
    hide HexValue, CodePrefix, HexDigitIs;
    assert PlacesAre(hex, p, a, b, d, e);
  }

  lemma CodeRead(hex: Text, c: Unit)
    requires CodeIs(hex, c)
    ensures |hex| == 4 && ToInt32(hex) == Some(c)
  {
    hide ToInt32, HexValue, HexDigitIs, CodePrefix, PlaceIs;
    var p: nat, a: nat, b: nat, d: nat, e: nat :|
      PlacesAre(hex, p, a, b, d, e) && c == 0x1000 * a + 0x100 * b + 0x10 * d + e;
    DigitsRead(hex, p, a, b, d, e);
    PrefixIs(hex, p);
    PrefixFound(hex);
    hide PrefixLength;
    PlacesRead(hex, p, a, b, d, e);
  }

  lemma DigitsRead(hex: Text, p: nat, a: nat, b: nat, d: nat, e: nat)
    requires PlacesAre(hex, p, a, b, d, e)
    ensures if p > 0 then a == 0 else HexValue(hex[0]) == Some(a)
    ensures if p > 1 then b == 0 else HexValue(hex[1]) == Some(b)
    ensures if p > 2 then d == 0 else HexValue(hex[2]) == Some(d)
    ensures HexValue(hex[3]) == Some(e)
  {
    hide HexValue, CodePrefix;
    PlaceRead(hex, p, 0, a);
    PlaceRead(hex, p, 1, b);
    PlaceRead(hex, p, 2, d);
    PlaceRead(hex, p, 3, e);
  }

  lemma PlacesRead(hex: Text, p: nat, a: nat, b: nat, d: nat, e: nat)
    requires |hex| == 4 && p <= 3
    requires if p > 0 then a == 0 else HexValue(hex[0]) == Some(a)
    requires if p > 1 then b == 0 else HexValue(hex[1]) == Some(b)
    requires if p > 2 then d == 0 else HexValue(hex[2]) == Some(d)
    requires HexValue(hex[3]) == Some(e)
    ensures HexNumber(hex[p..]) == Some(0x1000 * a + 0x100 * b + 0x10 * d + e)
  {
    hide HexValue, HexNumber;
    var digits := hex[p..];
    assert forall k :: 0 <= k < |digits| ==> digits[k] == hex[k + p];
    HexNumberOf(digits);
  }

  lemma PlaceRead(hex: Text, p: nat, k: nat, d: nat)
    requires k < |hex| && PlaceIs(hex, p, k, d)
    ensures if k < p then d == 0 else HexValue(hex[k]) == Some(d)
  {
    HexDigitMeans(hex[k]);
  }

  lemma ShortMeans(e: Unit, c: Unit)
    ensures ShortIs(e, c) <==> Unescape(e) == Some(c)
  {
  }

  /** Reading one unit of a string, in front of the rest. */
  lemma UnitRead(s: Text, i: nat, k: nat, c: Unit, done: Text)
    requires UnitSpan(s, i, k, c)
    ensures i < k <= |s| && StringRest(s, i, done) == StringRest(s, k, done + [c])
  {
    hide StringRest, ToInt32, Unescape, ShortIs, CodeIs;
    if k == i + 1 && s[i] == c && c != QUOTE && c != BACKSLASH {
      PlainReads(s, i, c, done);
    } else if k == i + 2 && ShortIs(s[i + 1], c) {
      ShortMeans(s[i + 1], c);
      assert s[i + 1] != 0x75 by { assert Unescape(0x75) == None by { NoShortU(); } }
      ShortReads(s, i, s[i + 1], c, done);
    } else {
      CodeRead(s[i + 2..i + 6], c);
      HexReads(s, i, c, done);
    }
  }

  lemma NoShortU()
    ensures Unescape(0x75) == None
  {
  }

  /** The first unit of a string that is read, and where it ends. */
  lemma UnitFound(s: Text, i: nat, done: Text) returns (k: nat, c: Unit)
    requires i < |s| && s[i] != QUOTE && StringRest(s, i, done).Parsed?
    ensures i < k <= |s| && UnitSpan(s, i, k, c) && StringRest(s, i, done) == StringRest(s, k, done + [c])
  {
    hide ToInt32, Unescape, ShortIs, CodeIs;
    if s[i] != BACKSLASH {
      k, c := i + 1, s[i];
    } else if s[i + 1] == 0x75 {
      k, c := i + 6, ToInt32(s[i + 2..i + 6]).value;
      CodeFound(s[i + 2..i + 6]);
    } else {
      k, c := i + 2, Unescape(s[i + 1]).value;
      ShortMeans(s[i + 1], c);
    }
  }

  lemma {:induction false} UnitsRead(s: Text, i: nat, j: nat, t: Text, done: Text)
    requires i <= j < |s| && s[j] == QUOTE && UnitsSpan(s, i, j, t)
    ensures StringRest(s, i, done) == Parsed(done + t, j + 1)
    decreases |t|
  {
    hide UnitSpan;
    if t == [] {
      assert done + [] == done;
    } else {
      var k: nat :| i < k <= j && UnitSpan(s, i, k, t[0]) && UnitsSpan(s, k, j, t[1..]);
      hide StringRest;
      UnitRead(s, i, k, t[0], done);
      UnitsRead(s, k, j, t[1..], done + [t[0]]);
      SplitFirst(done, t);
    }
  }

  lemma {:induction false} UnitsFound(s: Text, i: nat, done: Text) returns (t: Text)
    requires i <= |s| && StringRest(s, i, done).Parsed?
    ensures var r := StringRest(s, i, done);
      r.value == done + t && s[r.next - 1] == QUOTE && UnitsSpan(s, i, r.next - 1, t)
    decreases |s| - i
  {
    hide UnitSpan;
    if s[i] == QUOTE {
      t := [];
      assert done + [] == done;
    } else {
      var k, c := UnitFound(s, i, done);
      hide StringRest;
      var rest := UnitsFound(s, k, done + [c]);
      t := [c] + rest;
      assert t[1..] == rest && done + [c] + rest == done + t;
    }
  }

  lemma StringRead(s: Text, i: nat, j: nat, t: Text)
    requires StringSpan(s, i, j, t)
    ensures i < |s| && s[i] == QUOTE && StringRest(s, i + 1, []) == Parsed(t, j)
  {
    hide UnitsSpan, StringRest;
    UnitsRead(s, i + 1, j - 1, t, []);
    assert [] + t == t;
  }

  lemma StringFound(s: Text, i: nat)
    requires i < |s| && s[i] == QUOTE && StringRest(s, i + 1, []).Parsed?
    ensures StringSpan(s, i, StringRest(s, i + 1, []).next, StringRest(s, i + 1, []).value)
  {
    hide UnitsSpan, StringRest;
    var t := UnitsFound(s, i + 1, []);
    assert [] + t == t;
  }

  // Whatever is parsed is in the grammar

  lemma {:induction false} ValueFound(s: Text, i: nat)
    requires i <= |s| && ValueAt(s, i).Parsed?
    ensures SkipSpace(s, i) < ValueAt(s, i).next
    ensures ValueSpan(s, SkipSpace(s, i), ValueAt(s, i).next, ValueAt(s, i).value)
    decreases |s| - i, 1
  {
    var j := SkipSpace(s, i);
    hide StringRest, NumberAt, ArrayAt, ObjectAt, StringSpan, NumberSpan, ItemsSpan, MembersSpan;
    if s[j] == OPEN_BRACE {
      ObjectFound(s, j);
    } else if s[j] == OPEN_BRACKET {
      ArrayFound(s, j);
    } else if s[j] == QUOTE {
      StringFound(s, j);
    } else if s[j] == MINUS || IsDigit(s[j]) {
      NumberFound(s, j);
      NumberIsNumber(s, j);
    }
  }

  lemma NumberIsNumber(s: Text, i: nat)
    requires i < |s| && NumberAt(s, i).Parsed?
    ensures NumberAt(s, i).value.Integer? || NumberAt(s, i).value.Rounded?
  {
    hide IntegerPart, SkipDigits;
  }

  lemma ListSpan(s: Text, i: nat, j: nat, items: seq<Json>)
    ensures ValueSpan(s, i, j, Arr(items)) <==>
            && i + 2 <= j <= |s| && s[i] == OPEN_BRACKET && s[j - 1] == CLOSE_BRACKET
            && if items == [] then Spaces(s, i + 1, j - 1) else ItemsSpan(s, i + 1, j - 1, items)
  {
    hide ItemsSpan, Spaces;
  }

  ghost predicate Written(s: Text, i: nat, j: nat, written: seq<(Text, Json)>) {
    && i + 2 <= j <= |s| && s[i] == OPEN_BRACE && s[j - 1] == CLOSE_BRACE
    && if written == [] then Spaces(s, i + 1, j - 1) else MembersSpan(s, i + 1, j - 1, written)
  }

  lemma WrittenSpan(s: Text, i: nat, j: nat, written: seq<(Text, Json)>)
    requires Written(s, i, j, written)
    ensures ValueSpan(s, i, j, Obj(Dictionary(written)))
  {
    hide MembersSpan, Spaces, Dictionary;
  }

  lemma SpanWritten(s: Text, i: nat, j: nat, members: seq<(Text, Json)>) returns (written: seq<(Text, Json)>)
    requires ValueSpan(s, i, j, Obj(members))
    ensures Written(s, i, j, written) && members == Dictionary(written)
  {
    hide MembersSpan, Spaces, Dictionary;
    written :| members == Dictionary(written)
      && if written == [] then Spaces(s, i + 1, j - 1) else MembersSpan(s, i + 1, j - 1, written);
  }

  lemma {:induction false} ArrayFound(s: Text, i: nat)
    requires i < |s| && s[i] == OPEN_BRACKET && ArrayAt(s, i).Parsed?
    ensures ValueSpan(s, i, ArrayAt(s, i).next, ArrayAt(s, i).value)
    decreases |s| - i, 0
  {
    hide ItemsAt, ItemsSpan, ValueSpan, SkipSpace;
    var j := SkipSpace(s, i + 1);
    SpacesSkipped(s, i + 1);
    if Peek(s, j) != CLOSE_BRACKET {
      var items := ItemsFound(s, i + 1, j, []);
      assert [] + items == items;
      ListSpan(s, i, ArrayAt(s, i).next, items);
    } else {
      ListSpan(s, i, j + 1, []);
    }
  }

  lemma {:induction false} ItemsFound(s: Text, start: nat, i: nat, done: seq<Json>) returns (items: seq<Json>)
    requires Spaces(s, start, i) && ItemsAt(s, i, done).Parsed?
    ensures var r := ItemsAt(s, i, done);
      && items != [] && r.value == Arr(done + items) && start < r.next && s[r.next - 1] == CLOSE_BRACKET
      && ItemsSpan(s, start, r.next - 1, items)
    decreases |s| - i, 2
  {
    hide ValueAt, ElementSpan, Spaces, SkipSpace;
    var v := ValueAt(s, i).value;
    var j := ElementFound(s, start, i);
    if Peek(s, j) == COMMA {
      NoSpaces(s, j + 1);
      var rest := ItemsFound(s, j + 1, j + 1, done + [v]);
      items := [v] + rest;
      assert items[1..] == rest && done + [v] + rest == done + items;
    } else {
      items := [v];
    }
  }

  lemma NoSpaces(s: Text, i: nat)
    requires i <= |s|
    ensures Spaces(s, i, i)
  {
  }

  /** A value that is read, with the spaces around it. */
  lemma {:induction false} ElementFound(s: Text, start: nat, i: nat) returns (j: nat)
    requires Spaces(s, start, i) && ValueAt(s, i).Parsed?
    ensures start <= i <= j <= |s| && j == SkipSpace(s, ValueAt(s, i).next)
    ensures ElementSpan(s, start, j, ValueAt(s, i).value)
    decreases |s| - i, 2, 0
  {
    j := SkipSpace(s, ValueAt(s, i).next);
    ValueFound(s, i);
    SpacesSkipped(s, i);
    SpacesSkipped(s, ValueAt(s, i).next);
    var a := SkipSpace(s, i);
    assert Spaces(s, start, a);
    hide ValueSpan, ValueAt, SkipSpace, Spaces;
  }

  lemma KeyFound(s: Text, start: nat, i: nat)
    requires Spaces(s, start, i) && KeyAt(s, i).Parsed?
    ensures start < KeyAt(s, i).next && KeySpan(s, start, KeyAt(s, i).next, KeyAt(s, i).value)
  {
    hide StringRest, StringSpan;
    var a := SkipSpace(s, i);
    SpacesSkipped(s, i);
    StringFound(s, a);
    var b := StringRest(s, a + 1, []).next;
    SpacesSkipped(s, b);
    assert Spaces(s, start, a) && Spaces(s, b, KeyAt(s, i).next - 1);
  }

  lemma {:induction false} ObjectFound(s: Text, i: nat)
    requires i < |s| && s[i] == OPEN_BRACE && ObjectAt(s, i).Parsed?
    ensures ValueSpan(s, i, ObjectAt(s, i).next, ObjectAt(s, i).value)
    decreases |s| - i, 0
  {
    hide MembersAt, MembersSpan, ValueSpan, SkipSpace, Dictionary;
    var j := SkipSpace(s, i + 1);
    SpacesSkipped(s, i + 1);
    NoMembers();
    if Peek(s, j) != CLOSE_BRACE {
      var written := MembersFound(s, i + 1, j, []);
      assert [] + written == written;
      WrittenSpan(s, i, ObjectAt(s, i).next, written);
    } else {
      WrittenSpan(s, i, j + 1, []);
    }
  }

  lemma DictionaryNext(written: seq<(Text, Json)>, key: Text, v: Json)
    ensures Dictionary(written + [(key, v)]) == SetMember(Dictionary(written), key, v)
  {
    assert (written + [(key, v)])[..|written|] == written;
  }

  lemma {:induction false} MembersFound(s: Text, start: nat, i: nat, before: seq<(Text, Json)>)
    returns (written: seq<(Text, Json)>)
    requires Spaces(s, start, i) && MembersAt(s, i, Dictionary(before)).Parsed?
    ensures var r := MembersAt(s, i, Dictionary(before));
      && written != [] && r.value == Obj(Dictionary(before + written)) && start < r.next
      && s[r.next - 1] == CLOSE_BRACE && MembersSpan(s, start, r.next - 1, written)
    decreases |s| - i, 2
  {
    hide Dictionary, SetMember, KeyAt, ValueAt, ElementSpan, KeySpan, Spaces;
    var key, k := KeyAt(s, i).value, KeyAt(s, i).next;
    KeyFound(s, start, i);
    NoSpaces(s, k);
    var v := ValueAt(s, k).value;
    var j := ElementFound(s, k, k);
    var m := (key, v);
    assert MemberSpan(s, start, j, m);
    DictionaryNext(before, key, v);
    hide MemberSpan;
    if Peek(s, j) == COMMA {
      NoSpaces(s, j + 1);
      var rest := MembersFound(s, j + 1, j + 1, before + [m]);
      written := [m] + rest;
      assert written[1..] == rest && before + [m] + rest == before + written;
    } else {
      written := [m];
    }
  }

  // Whatever is in the grammar is parsed

  /** The first unit of a value, which is neither a space nor a closing sign. */
  lemma ValueStarts(s: Text, i: nat, j: nat, v: Json)
    requires ValueSpan(s, i, j, v)
    ensures i < j <= |s| && !IsSpace(s[i]) && s[i] != CLOSE_BRACKET && s[i] != CLOSE_BRACE
    ensures match v
      case Null => s[i] == NULL[0]
      case Bool(b) => s[i] == if b then TRUE[0] else FALSE[0]
      case Integer(_) => s[i] == MINUS || IsDigit(s[i])
      case Rounded(_, _) => s[i] == MINUS || IsDigit(s[i])
      case Str(_) => s[i] == QUOTE
      case Arr(_) => s[i] == OPEN_BRACKET
      case Obj(_) => s[i] == OPEN_BRACE
  {
    hide UnitsSpan, ItemsSpan, MembersSpan, Spaces, MakeNumber;
    if v.Null? || v.Bool? { assert s[i..j][0] == s[i]; }
  }

  lemma TokenRead(s: Text, i: nat, j: nat, token: Text, v: Json)
    requires TokenSpan(s, i, j, token) && token != []
    ensures Expect(s, i, token, v) == Parsed(v, j)
  {
  }

  lemma {:induction false} ValueRead(s: Text, i: nat, a: nat, j: nat, v: Json)
    requires Spaces(s, i, a) && ValueSpan(s, a, j, v) && Ends(s, j)
    ensures ValueAt(s, i) == Parsed(v, j)
    decreases j - a, 1
  {
    ValueStarts(s, a, j, v);
    SkipsSpaces(s, i, a);
    hide StringRest, NumberAt, ArrayAt, ObjectAt, StringSpan, NumberSpan, ItemsSpan, MembersSpan, Expect, Ends, Spaces;
    match v
    case Null => TokenRead(s, a, j, NULL, v);
    case Bool(b) => TokenRead(s, a, j, if b then TRUE else FALSE, v);
    case Integer(_) => NumberRead(s, a, j, v);
    case Rounded(_, _) => NumberRead(s, a, j, v);
    case Str(t) => StringRead(s, a, j, t);
    case Arr(items) => ArrayRead(s, a, j, items);
    case Obj(members) => ObjectRead(s, a, j, members);
  }

  lemma {:induction false} ArrayRead(s: Text, i: nat, j: nat, items: seq<Json>)
    requires ValueSpan(s, i, j, Arr(items))
    ensures ArrayAt(s, i) == Parsed(Arr(items), j)
    decreases j - i, 0
  {
    hide ItemsSpan, ItemsAt, ValueSpan, SkipSpace;
    ListSpan(s, i, j, items);
    if items == [] {
      SkipsSpaces(s, i + 1, j - 1);
    } else {
      ItemsStarts(s, i + 1, j - 1, items);
      ItemsRead(s, i + 1, SkipSpace(s, i + 1), j - 1, items, []);
      assert [] + items == items;
    }
  }

  /** Behind the spaces an element starts with its value. */
  lemma ElementStarts(s: Text, i: nat, j: nat, v: Json)
    requires ElementSpan(s, i, j, v)
    ensures var a := SkipSpace(s, i); a < |s| && s[a] != CLOSE_BRACKET && s[a] != CLOSE_BRACE
  {
    hide ValueSpan;
    var a: nat, b: nat :| i <= a <= b <= j && Spaces(s, i, a) && ValueSpan(s, a, b, v) && Spaces(s, b, j);
    ValueStarts(s, a, b, v);
    SkipsSpaces(s, i, a);
  }

  lemma ItemsStarts(s: Text, i: nat, j: nat, items: seq<Json>)
    requires items != [] && ItemsSpan(s, i, j, items)
    ensures i <= |s| && var a := SkipSpace(s, i); a < |s| && s[a] != CLOSE_BRACKET
  {
    hide ElementSpan, SkipSpace;
    if |items| == 1 {
      ElementInText(s, i, j, items[0]);
      ElementStarts(s, i, j, items[0]);
    } else {
      var c: nat :| i <= c < j <= |s| && ElementSpan(s, i, c, items[0]);
      ElementStarts(s, i, c, items[0]);
    }
  }

  lemma ElementInText(s: Text, i: nat, j: nat, v: Json)
    requires ElementSpan(s, i, j, v)
    ensures i <= j <= |s|
  {
    hide ValueSpan;
  }

  /** An element is read from anywhere in the spaces it starts with. */
  lemma {:induction false} ElementRead(s: Text, start: nat, i: nat, j: nat, v: Json) returns (next: nat)
    requires ElementSpan(s, start, j, v) && start <= i <= SkipSpace(s, start)
    requires j < |s| ==> s[j] == COMMA || s[j] == CLOSE_BRACKET || s[j] == CLOSE_BRACE
    ensures next <= |s| && ValueAt(s, i) == Parsed(v, next) && SkipSpace(s, next) == j
    decreases j - start, 2
  {
    hide ValueSpan, ValueAt;
    var a: nat, b: nat :| start <= a <= b <= j && Spaces(s, start, a) && ValueSpan(s, a, b, v) && Spaces(s, b, j);
    ValueStarts(s, a, b, v);
    SkipsSpaces(s, start, a);
    SkipsSpaces(s, b, j);
    ValueRead(s, i, a, b, v);
    next := b;
  }

  lemma {:induction false} ItemsRead(s: Text, start: nat, i: nat, j: nat, items: seq<Json>, done: seq<Json>)
    requires items != [] && ItemsSpan(s, start, j, items) && start <= |s| && start <= i <= SkipSpace(s, start)
    requires j < |s| && s[j] == CLOSE_BRACKET
    ensures ItemsAt(s, i, done) == Parsed(Arr(done + items), j + 1)
    decreases j - start, 3
  {
    hide ElementSpan, ValueAt, SkipSpace;
    if |items| == 1 {
      var next := ElementRead(s, start, i, j, items[0]);
      assert items == [items[0]];
    } else {
      var c: nat :| start <= c < j && s[c] == COMMA && ElementSpan(s, start, c, items[0])
        && ItemsSpan(s, c + 1, j, items[1..]);
      var next := ElementRead(s, start, i, c, items[0]);
      ItemsRead(s, c + 1, c + 1, j, items[1..], done + [items[0]]);
      SplitFirst(done, items);
    }
  }

  lemma KeyRead(s: Text, start: nat, i: nat, j: nat, key: Text)
    requires KeySpan(s, start, j, key) && start <= i <= SkipSpace(s, start)
    ensures KeyAt(s, i) == Parsed(key, j)
  {
    hide StringSpan, StringRest;
    var a: nat, b: nat :|
      start <= a < b < j <= |s| && s[j - 1] == COLON && Spaces(s, start, a) && StringSpan(s, a, b, key)
      && Spaces(s, b, j - 1);
    StringRead(s, a, b, key);
    SkipsSpaces(s, start, a);
    SkipsSpaces(s, i, a);
    SkipsSpaces(s, b, j - 1);
  }

  lemma {:induction false} ObjectRead(s: Text, i: nat, j: nat, members: seq<(Text, Json)>)
    requires ValueSpan(s, i, j, Obj(members))
    ensures ObjectAt(s, i) == Parsed(Obj(members), j)
    decreases j - i, 0
  {
    hide MembersSpan, MembersAt, Dictionary, ValueSpan, SkipSpace;
    var written := SpanWritten(s, i, j, members);
    NoMembers();
    if written == [] {
      SkipsSpaces(s, i + 1, j - 1);
    } else {
      MembersStarts(s, i + 1, j - 1, written);
      MembersRead(s, i + 1, SkipSpace(s, i + 1), j - 1, written, []);
      assert [] + written == written;
    }
  }

  lemma NoMembers()
    ensures Dictionary([]) == []
  {
  }

  lemma MembersStarts(s: Text, i: nat, j: nat, written: seq<(Text, Json)>)
    requires written != [] && i <= |s| && MembersSpan(s, i, j, written)
    ensures var a := SkipSpace(s, i); a < |s| && s[a] == QUOTE
  {
    hide MemberSpan, SkipSpace;
    if |written| == 1 {
      MemberStarts(s, i, j, written[0]);
    } else {
      var c: nat :| i <= c < j <= |s| && s[c] == COMMA && MemberSpan(s, i, c, written[0])
        && MembersSpan(s, c + 1, j, written[1..]);
      MemberStarts(s, i, c, written[0]);
    }
  }

  lemma MemberStarts(s: Text, i: nat, j: nat, m: (Text, Json))
    requires MemberSpan(s, i, j, m)
    ensures i <= |s| && var a := SkipSpace(s, i); a < |s| && s[a] == QUOTE
  {
    hide KeySpan, SkipSpace, ElementSpan;
    var k: nat :| i < k <= j && KeySpan(s, i, k, m.0) && ElementSpan(s, k, j, m.1);
    KeyStarts(s, i, k, m.0);
  }

  lemma KeyStarts(s: Text, i: nat, j: nat, key: Text)
    requires KeySpan(s, i, j, key)
    ensures i <= |s| && var a := SkipSpace(s, i); a < |s| && s[a] == QUOTE
  {
    hide StringSpan;
    var a: nat, b: nat :| i <= a < b < j <= |s| && Spaces(s, i, a) && StringSpan(s, a, b, key);
    StringRead(s, a, b, key);
    SkipsSpaces(s, i, a);
  }

  /** A member is read from anywhere in the spaces it starts with. */
  lemma {:induction false} MemberRead(s: Text, start: nat, i: nat, j: nat, m: (Text, Json)) returns (k: nat, next: nat)
    requires MemberSpan(s, start, j, m) && start <= |s| && start <= i <= SkipSpace(s, start)
    requires j < |s| && (s[j] == COMMA || s[j] == CLOSE_BRACE)
    ensures KeyAt(s, i) == Parsed(m.0, k) && k <= |s|
    ensures next <= |s| && ValueAt(s, k) == Parsed(m.1, next) && SkipSpace(s, next) == j
    decreases j - start, 3
  {
    hide KeySpan, ElementSpan, KeyAt, ValueAt;
    k :| start < k <= j && KeySpan(s, start, k, m.0) && ElementSpan(s, k, j, m.1);
    KeyRead(s, start, i, k, m.0);
    SpacesSkipped(s, k);
    next := ElementRead(s, k, k, j, m.1);
  }

  lemma {:induction false} MembersRead(s: Text, start: nat, i: nat, j: nat, written: seq<(Text, Json)>,
                                       before: seq<(Text, Json)>)
    requires written != [] && MembersSpan(s, start, j, written) && start <= |s| && start <= i <= SkipSpace(s, start)
    requires j < |s| && s[j] == CLOSE_BRACE
    ensures MembersAt(s, i, Dictionary(before)) == Parsed(Obj(Dictionary(before + written)), j + 1)
    decreases j - start, 4
  {
    hide MemberSpan, KeyAt, ValueAt, SkipSpace, Dictionary, SetMember;
    DictionaryNext(before, written[0].0, written[0].1);
    if |written| == 1 {
      var k, next := MemberRead(s, start, i, j, written[0]);
      assert written == [(written[0].0, written[0].1)];
    } else {
      var c: nat :| start <= c < j && s[c] == COMMA && MemberSpan(s, start, c, written[0])
        && MembersSpan(s, c + 1, j, written[1..]);
      var k, next := MemberRead(s, start, i, c, written[0]);
      SplitFirst(before, written);
      MembersRead(s, c + 1, c + 1, j, written[1..], before + [written[0]]);
    }
  }

  // What an object with repeated keys stands for

  lemma {:induction false} SetMemberMeans(members: seq<(Text, Json)>, key: Text, v: Json)
    requires DistinctKeys(members)
    ensures DistinctKeys(SetMember(members, key, v))
    ensures forall m :: m in SetMember(members, key, v) <==> if m.0 == key then m == (key, v) else m in members
  {
    if members != [] {
      assert members == [members[0]] + members[1..];
      assert forall i :: 0 <= i < |members[1..]| ==> members[1..][i] == members[i + 1];
      if members[0].0 == key {
        forall m | m in members[1..] ensures m.0 != key { }
      } else {
        SetMemberMeans(members[1..], key, v);
        forall m | m in SetMember(members[1..], key, v) ensures m.0 != members[0].0 { }
      }
    }
  }

  /** The last member with its key. */
  ghost predicate IsLast(written: seq<(Text, Json)>, m: (Text, Json), i: nat) {
    i < |written| && written[i] == m && forall j :: i < j < |written| ==> written[j].0 != m.0
  }

  /** An object has each of its keys once, with the value that was written last. */
  lemma {:induction false} DictionaryMeans(written: seq<(Text, Json)>)
    ensures DistinctKeys(Dictionary(written))
    ensures forall m :: m in Dictionary(written) <==> exists i: nat :: IsLast(written, m, i)
  {
    if written != [] {
      var n := |written| - 1;
      var before, last := written[..n], written[n];
      DictionaryMeans(before);
      SetMemberMeans(Dictionary(before), last.0, last.1);
      forall m ensures (exists i: nat :: IsLast(written, m, i)) <==>
                       if m.0 == last.0 then m == last else exists i: nat :: IsLast(before, m, i)
      {
        if m == last { assert IsLast(written, m, n); }
        forall i: nat ensures m.0 != last.0 ==> (IsLast(written, m, i) <==> IsLast(before, m, i)) {
          assert i < n ==> before[i] == written[i];
        }
      }
      hide SetMember, IsLast;
    }
  }

  /** The parser accepts exactly the texts of the grammar, each with its value. */
  lemma ParsesExactly(s: Text, v: Json)
    ensures Parse(s) == Ok(v) <==> IsDocument(s, v)
  {
    hide ValueAt;
    if Parse(s) == Ok(v) {
      NoSpaces(s, 0);
      var j := ElementFound(s, 0, 0);
    }
    if IsDocument(s, v) {
      SpacesSkipped(s, 0);
      var next := ElementRead(s, 0, 0, |s|, v);
    }
  }
}
