/**
 The hand-written JSON printer and parser of the C# client (RFC 8259, sections 2 to 7). Text is a sequence of
 UTF-16 code units, so strings with lone surrogates are included.
 */
module JsonText {
  import opened Wrappers
  import opened Sequences

  type Unit = u: nat | u < 0x1_0000

  type Text = seq<Unit>

  const QUOTE: Unit := 0x22
  const BACKSLASH: Unit := 0x5C
  const SLASH: Unit := 0x2F
  const COMMA: Unit := 0x2C
  const COLON: Unit := 0x3A
  const OPEN_BRACKET: Unit := 0x5B
  const CLOSE_BRACKET: Unit := 0x5D
  const OPEN_BRACE: Unit := 0x7B
  const CLOSE_BRACE: Unit := 0x7D
  const MINUS: Unit := 0x2D
  const PLUS: Unit := 0x2B
  const DOT: Unit := 0x2E
  const ZERO: Unit := 0x30
  const NINE: Unit := 0x39

  const TRUE: Text := [0x74, 0x72, 0x75, 0x65]
  const FALSE: Text := [0x66, 0x61, 0x6C, 0x73, 0x65]
  const NULL: Text := [0x6E, 0x75, 0x6C, 0x6C]

  /**
   A dictionary is the list of its entries in the order they were added. An integer is exact up to 2^53; of
   any other number only the text is known, since its value depends on rounding.
   */
  datatype Json =
    | Null
    | Bool(flag: bool)
    | Integer(n: int)
    | Rounded(text: Text, wasFloat: bool)
    | Str(text: Text)
    | Arr(items: seq<Json>)
    | Obj(members: seq<(Text, Json)>)

  const EXACT: int := 0x20_0000_0000_0000

  predicate IsExact(n: int) { -EXACT <= n <= EXACT }

  ghost predicate DistinctKeys(members: seq<(Text, Json)>) {
    forall i, j :: 0 <= i < j < |members| ==> members[i].0 != members[j].0
  }

  /** The trees that survive printing and parsing. */
  ghost predicate Printable(v: Json) {
    match v
    case Null => true
    case Bool(_) => true
    case Integer(n) => IsExact(n)
    case Rounded(_, _) => false
    case Str(_) => true
    case Arr(items) => forall i :: 0 <= i < |items| ==> Printable(items[i])
    case Obj(members) => DistinctKeys(members) && forall i :: 0 <= i < |members| ==> Printable(members[i].1)
  }

  // Printing

  function Digits(n: nat): Text {
    if n < 10 then [ZERO + n] else Digits(n / 10) + [ZERO + n % 10]
  }

  function PrintInteger(n: int): Text { if n < 0 then [MINUS] + Digits(-n) else Digits(n) }

  function HexDigit(d: nat): Unit
    requires d < 16
  {
    if d < 10 then ZERO + d else 0x61 + d - 10
  }

  function Escape(c: Unit): Text {
    if c == QUOTE || c == BACKSLASH then [BACKSLASH, c]
    else if c == 0x08 then [BACKSLASH, 0x62]
    else if c == 0x0C then [BACKSLASH, 0x66]
    else if c == 0x0A then [BACKSLASH, 0x6E]
    else if c == 0x0D then [BACKSLASH, 0x72]
    else if c == 0x09 then [BACKSLASH, 0x74]
    else if c < 0x20 then [BACKSLASH, 0x75, ZERO, ZERO, HexDigit(c / 16), HexDigit(c % 16)]
    else [c]
  }

  function Escaped(s: Text): Text { if s == [] then [] else Escape(s[0]) + Escaped(s[1..]) }

  function PrintString(s: Text): Text { [QUOTE] + Escaped(s) + [QUOTE] }

  function Print(v: Json): Text
    decreases v, 0
  {
    match v
    case Null => NULL
    case Bool(b) => if b then TRUE else FALSE
    case Integer(n) => PrintInteger(n)
    case Rounded(text, _) => text
    case Str(s) => PrintString(s)
    case Arr(items) => [OPEN_BRACKET] + PrintItems(items) + [CLOSE_BRACKET]
    case Obj(members) => [OPEN_BRACE] + PrintMembers(members) + [CLOSE_BRACE]
  }

  function PrintItems(items: seq<Json>): Text
    decreases items, 1
  {
    if items == [] then []
    else if |items| == 1 then Print(items[0])
    else Print(items[0]) + [COMMA] + PrintItems(items[1..])
  }

  function PrintMember(m: (Text, Json)): Text
    decreases m, 1
  {
    PrintString(m.0) + [COLON] + Print(m.1)
  }

  function PrintMembers(members: seq<(Text, Json)>): Text
    decreases members, 2
  {
    if members == [] then []
    else if |members| == 1 then PrintMember(members[0])
    else PrintMember(members[0]) + [COMMA] + PrintMembers(members[1..])
  }

  // Parsing

  datatype Parsed<T> = Parsed(value: T, next: nat) | Failed(error: string)

  function Peek(s: Text, i: nat): Unit { if i < |s| then s[i] else 0 }

  predicate IsSpace(c: Unit) { c == 0x20 || c == 0x0A || c == 0x0D || c == 0x09 }

  predicate IsDigit(c: Unit) { ZERO <= c <= NINE }

  function SkipSpace(s: Text, i: nat): (j: nat)
    requires i <= |s|
    ensures i <= j <= |s|
    decreases |s| - i
  {
    if i < |s| && IsSpace(s[i]) then SkipSpace(s, i + 1) else i
  }

  function Expect(s: Text, i: nat, token: Text, v: Json): (r: Parsed<Json>)
    requires i <= |s| && token != []
    ensures r.Parsed? ==> i < r.next <= |s|
  {
    if i + |token| > |s| || s[i..i + |token|] != token then Failed("expected token") else Parsed(v, i + |token|)
  }

  function HexValue(c: Unit): Option<nat> {
    if IsDigit(c) then Some(c - ZERO)
    else if 0x61 <= c <= 0x66 then Some(c - 0x61 + 10)
    else if 0x41 <= c <= 0x46 then Some(c - 0x41 + 10)
    else None
  }

  function HexNumber(digits: Text): (r: Option<nat>)
    ensures r.Some? && |digits| <= 4 ==> r.value < if |digits| == 0 then 1 else if |digits| == 1 then 16 else
      if |digits| == 2 then 0x100 else if |digits| == 3 then 0x1000 else 0x1_0000
  {
    if digits == [] then Some(0)
    else
      var high, low := HexNumber(digits[..|digits| - 1]), HexValue(digits[|digits| - 1]);
      if high.None? || low.None? then None else Some(high.value * 16 + low.value)
  }

  /** Convert.ToInt32(hex, 16), which also takes a plus sign and a 0x prefix, in this order. */
  function ToInt32(hex: Text): (r: Option<Unit>)
    requires |hex| == 4
  {
    var sign := if hex[0] == PLUS then 1 else 0;
    var prefix := if hex[sign] == ZERO && (hex[sign + 1] == 0x78 || hex[sign + 1] == 0x58) then 2 else 0;
    var r := HexNumber(hex[sign + prefix..]);
    if r.None? then None else Some(r.value)
  }

  /** The unit that a short escape stands for. */
  function Unescape(e: Unit): Option<Unit> {
    if e == QUOTE || e == BACKSLASH || e == SLASH then Some(e)
    else if e == 0x62 then Some(0x08)
    else if e == 0x66 then Some(0x0C)
    else if e == 0x6E then Some(0x0A)
    else if e == 0x72 then Some(0x0D)
    else if e == 0x74 then Some(0x09)
    else None
  }

  /** The rest of a string, behind its opening quote or any later unit. */
  function StringRest(s: Text, i: nat, done: Text): (r: Parsed<Text>)
    requires i <= |s|
    ensures r.Parsed? ==> i < r.next <= |s|
    decreases |s| - i
  {
    if i == |s| then Failed("unterminated string")
    else if s[i] == QUOTE then Parsed(done, i + 1)
    else if s[i] != BACKSLASH then StringRest(s, i + 1, done + [s[i]])
    else if i + 1 == |s| then Failed("unterminated string escape")
    else if s[i + 1] == 0x75 then
      if i + 6 > |s| then Failed("bad unicode escape")
      else
        var c := ToInt32(s[i + 2..i + 6]);
        if c.None? then Failed("bad hex digits") else StringRest(s, i + 6, done + [c.value])
    else
      var c := Unescape(s[i + 1]);
      if c.None? then Failed("bad string escape") else StringRest(s, i + 2, done + [c.value])
  }

  function SkipDigits(s: Text, i: nat): (j: nat)
    requires i <= |s|
    ensures i <= j <= |s|
    decreases |s| - i
  {
    if IsDigit(Peek(s, i)) then SkipDigits(s, i + 1) else i
  }

  function DigitsValue(digits: Text): int {
    if digits == [] then 0 else DigitsValue(digits[..|digits| - 1]) * 10 + (digits[|digits| - 1] - ZERO)
  }

  function NumberValue(text: Text): int
    requires text != []
  {
    if text[0] == MINUS then -DigitsValue(text[1..]) else DigitsValue(text)
  }

  /** The integer part: one zero, or digits that do not start with one. */
  function IntegerPart(s: Text, i: nat): (r: Option<nat>)
    requires i <= |s|
    ensures r.Some? ==> i < r.value <= |s|
  {
    if Peek(s, i) == ZERO then Some(i + 1)
    else if !IsDigit(Peek(s, i)) then None
    else Some(SkipDigits(s, i + 1))
  }

  function ExponentStart(s: Text, i: nat): (j: nat)
    requires i < |s|
    ensures i < j <= |s|
  {
    if Peek(s, i + 1) == PLUS || Peek(s, i + 1) == MINUS then i + 2 else i + 1
  }

  function MakeNumber(text: Text, isFloat: bool): Json
    requires text != []
  {
    if !isFloat && IsExact(NumberValue(text)) then Integer(NumberValue(text)) else Rounded(text, isFloat)
  }

  /** The exponent of the number that starts at `start`, if any stands at i. */
  function ExponentAt(s: Text, start: nat, i: nat, hasFraction: bool): (r: Parsed<Json>)
    requires start < i <= |s|
    ensures r.Parsed? ==> i <= r.next <= |s|
  {
    var hasExponent := Peek(s, i) == 0x65 || Peek(s, i) == 0x45;
    if hasExponent && !IsDigit(Peek(s, ExponentStart(s, i))) then Failed("bad number exponent")
    else
      var end := if hasExponent then SkipDigits(s, ExponentStart(s, i)) else i;
      Parsed(MakeNumber(s[start..end], hasFraction || hasExponent), end)
  }

  function NumberAt(s: Text, i: nat): (r: Parsed<Json>)
    requires i < |s|
    ensures r.Parsed? ==> i < r.next <= |s|
  {
    var whole := IntegerPart(s, if s[i] == MINUS then i + 1 else i);
    if whole.None? then Failed("bad number")
    else if Peek(s, whole.value) != DOT then ExponentAt(s, i, whole.value, false)
    else if !IsDigit(Peek(s, whole.value + 1)) then Failed("bad number fraction")
    else ExponentAt(s, i, SkipDigits(s, whole.value + 1), true)
  }

  /** Setting a key of a dictionary. */
  function SetMember(members: seq<(Text, Json)>, key: Text, v: Json): seq<(Text, Json)> {
    if members == [] then [(key, v)]
    else if members[0].0 == key then [(key, v)] + members[1..]
    else [members[0]] + SetMember(members[1..], key, v)
  }

  function ValueAt(s: Text, i: nat): (r: Parsed<Json>)
    requires i <= |s|
    ensures r.Parsed? ==> i < r.next <= |s|
    decreases |s| - i, 1
  {
    var j := SkipSpace(s, i);
    if j == |s| then Failed("unexpected end of JSON")
    else if s[j] == OPEN_BRACE then ObjectAt(s, j)
    else if s[j] == OPEN_BRACKET then ArrayAt(s, j)
    else if s[j] == QUOTE then
      match StringRest(s, j + 1, [])
      case Failed(e) => Failed(e)
      case Parsed(text, next) => Parsed(Str(text), next)
    else if s[j] == TRUE[0] then Expect(s, j, TRUE, Bool(true))
    else if s[j] == FALSE[0] then Expect(s, j, FALSE, Bool(false))
    else if s[j] == NULL[0] then Expect(s, j, NULL, Null)
    else if s[j] == MINUS || IsDigit(s[j]) then NumberAt(s, j)
    else Failed("unexpected JSON")
  }

  function ArrayAt(s: Text, i: nat): (r: Parsed<Json>)
    requires i < |s|
    ensures r.Parsed? ==> i < r.next <= |s|
    decreases |s| - i, 0
  {
    var j := SkipSpace(s, i + 1);
    if Peek(s, j) == CLOSE_BRACKET then Parsed(Arr([]), j + 1) else ItemsAt(s, j, [])
  }

  /** An item and those behind it; `done` are the items before. */
  function ItemsAt(s: Text, i: nat, done: seq<Json>): (r: Parsed<Json>)
    requires i <= |s|
    ensures r.Parsed? ==> i < r.next <= |s|
    decreases |s| - i, 2
  {
    match ValueAt(s, i)
    case Failed(e) => Failed(e)
    case Parsed(v, next) =>
      var j := SkipSpace(s, next);
      if Peek(s, j) == COMMA then ItemsAt(s, j + 1, done + [v])
      else if Peek(s, j) == CLOSE_BRACKET then Parsed(Arr(done + [v]), j + 1)
      else Failed("expected comma or end of array")
  }

  function ObjectAt(s: Text, i: nat): (r: Parsed<Json>)
    requires i < |s|
    ensures r.Parsed? ==> i < r.next <= |s|
    decreases |s| - i, 0
  {
    var j := SkipSpace(s, i + 1);
    if Peek(s, j) == CLOSE_BRACE then Parsed(Obj([]), j + 1) else MembersAt(s, j, [])
  }

  function KeyAt(s: Text, i: nat): (r: Parsed<Text>)
    requires i <= |s|
    ensures r.Parsed? ==> i < r.next <= |s|
  {
    var j := SkipSpace(s, i);
    if Peek(s, j) != QUOTE then Failed("expected object key")
    else
      match StringRest(s, j + 1, [])
      case Failed(e) => Failed(e)
      case Parsed(key, next) =>
        var colon := SkipSpace(s, next);
        if Peek(s, colon) != COLON then Failed("expected colon") else Parsed(key, colon + 1)
  }

  function MembersAt(s: Text, i: nat, done: seq<(Text, Json)>): (r: Parsed<Json>)
    requires i <= |s|
    ensures r.Parsed? ==> i < r.next <= |s|
    decreases |s| - i, 2
  {
    match KeyAt(s, i)
    case Failed(e) => Failed(e)
    case Parsed(key, start) =>
      match ValueAt(s, start)
      case Failed(e) => Failed(e)
      case Parsed(v, next) =>
        var j := SkipSpace(s, next);
        if Peek(s, j) == COMMA then MembersAt(s, j + 1, SetMember(done, key, v))
        else if Peek(s, j) == CLOSE_BRACE then Parsed(Obj(SetMember(done, key, v)), j + 1)
        else Failed("expected comma or end of object")
  }

  function Parse(s: Text): Result<Json, string> {
    match ValueAt(s, 0)
    case Failed(e) => Err(e)
    case Parsed(v, next) => if SkipSpace(s, next) < |s| then Err("unexpected trailing JSON") else Ok(v)
  }

  // The round trip

  /** `t` stands in `s` at position i. */
  ghost predicate Holds(s: Text, i: nat, t: Text) { i + |t| <= |s| && s[i..i + |t|] == t }

  /** Nothing that could continue a value: the end, a comma or a closing bracket or brace. */
  predicate Stops(s: Text, i: nat) {
    i == |s| || (i < |s| && (s[i] == COMMA || s[i] == CLOSE_BRACKET || s[i] == CLOSE_BRACE))
  }

  lemma HoldsParts(s: Text, i: nat, a: Text, b: Text)
    requires Holds(s, i, a + b)
    ensures Holds(s, i, a) && Holds(s, i + |a|, b)
  {
    assert s[i..i + |a| + |b|][..|a|] == s[i..i + |a|] && (a + b)[..|a|] == a;
    assert s[i..i + |a| + |b|][|a|..] == s[i + |a|..i + |a| + |b|] && (a + b)[|a|..] == b;
  }

  lemma HoldsUnit(s: Text, i: nat, c: Unit, t: Text)
    requires Holds(s, i, [c] + t)
    ensures i < |s| && s[i] == c && Holds(s, i + 1, t)
  {
    HoldsParts(s, i, [c], t);
    assert s[i..i + 1] == [c] && s[i] == s[i..i + 1][0];
  }

  // Numbers

  lemma {:induction false} DigitsAreDigits(n: nat)
    ensures |Digits(n)| >= 1 && forall k :: 0 <= k < |Digits(n)| ==> IsDigit(Digits(n)[k])
    ensures DigitsValue(Digits(n)) == n
    ensures Digits(n)[0] == ZERO <==> n == 0
  {
    if n >= 10 {
      DigitsAreDigits(n / 10);
      assert Digits(n)[..|Digits(n)| - 1] == Digits(n / 10);
    } else {
      assert Digits(n)[..0] == [];
    }
  }

  lemma {:induction false} SkipAll(s: Text, i: nat, t: Text)
    requires Holds(s, i, t) && forall k :: 0 <= k < |t| ==> IsDigit(t[k])
    requires !IsDigit(Peek(s, i + |t|))
    ensures SkipDigits(s, i) == i + |t|
    decreases t
  {
    if t != [] {
      assert t == [t[0]] + t[1..];
      HoldsUnit(s, i, t[0], t[1..]);
      SkipAll(s, i + 1, t[1..]);
    }
  }

  /** Printed digits are one integer part. */
  lemma IntegerPartReads(s: Text, i: nat, n: nat)
    requires Holds(s, i, Digits(n)) && Stops(s, i + |Digits(n)|)
    ensures IntegerPart(s, i) == Some(i + |Digits(n)|)
  {
    var t := Digits(n);
    DigitsAreDigits(n);
    assert t == [t[0]] + t[1..];
    hide Digits;
    HoldsUnit(s, i, t[0], t[1..]);
    if n != 0 {
      SkipAll(s, i + 1, t[1..]);
    } else {
      assert Digits(0) == [ZERO] by { SmallDigits(); }
    }
  }

  lemma SmallDigits()
    ensures Digits(0) == [ZERO]
  {
  }

  lemma PrintedValue(n: int)
    ensures PrintInteger(n) != [] && NumberValue(PrintInteger(n)) == n
    ensures PrintInteger(n)[0] == MINUS <==> n < 0
  {
    var size := if n < 0 then -n else n;
    DigitsAreDigits(size);
    hide Digits, DigitsValue;
    if n < 0 { assert PrintInteger(n)[1..] == Digits(size); }
  }

  /** The integer part behind the sign, where a printed integer stands. */
  lemma WholeReads(s: Text, i: nat, n: int)
    requires Holds(s, i, PrintInteger(n)) && Stops(s, i + |PrintInteger(n)|)
    ensures i < |s| && IntegerPart(s, if s[i] == MINUS then i + 1 else i) == Some(i + |PrintInteger(n)|)
  {
    PrintedValue(n);
    hide Digits, NumberValue, IntegerPart;
    if n < 0 {
      HoldsUnit(s, i, MINUS, Digits(-n));
      IntegerPartReads(s, i + 1, -n);
    } else {
      assert s[i] == PrintInteger(n)[0] by { assert s[i..i + |PrintInteger(n)|][0] == s[i]; }
      IntegerPartReads(s, i, n);
    }
  }

  /** A number of an integer part only, in front of what cannot continue it. */
  lemma NumberStops(s: Text, i: nat, end: nat)
    requires i < end <= |s| && Stops(s, end) && IntegerPart(s, if s[i] == MINUS then i + 1 else i) == Some(end)
    ensures NumberAt(s, i) == Parsed(MakeNumber(s[i..end], false), end)
  {
    hide IntegerPart, SkipDigits, MakeNumber;
    assert Peek(s, end) != DOT && Peek(s, end) != 0x65 && Peek(s, end) != 0x45;
  }

  lemma NumberReads(s: Text, i: nat, n: int)
    requires IsExact(n) && Holds(s, i, PrintInteger(n)) && Stops(s, i + |PrintInteger(n)|)
    ensures NumberAt(s, i) == Parsed(Integer(n), i + |PrintInteger(n)|)
  {
    PrintedValue(n);
    WholeReads(s, i, n);
    hide PrintInteger, NumberValue, IntegerPart, NumberAt;
    NumberStops(s, i, i + |PrintInteger(n)|);
  }

  // Strings

  lemma HexRoundTrip(c: Unit)
    requires c < 0x20
    ensures ToInt32([ZERO, ZERO, HexDigit(c / 16), HexDigit(c % 16)]) == Some(c)
  {
    var a, b := HexDigit(c / 16), HexDigit(c % 16);
    var hex := [ZERO, ZERO, a, b];
    assert HexValue(a) == Some(c / 16) && HexValue(b) == Some(c % 16);
    assert hex[..3] == [ZERO, ZERO, a] && hex[..3][..2] == [ZERO, ZERO] && hex[..3][..2][..1] == [ZERO];
    assert [ZERO][..0] == [];
    assert HexNumber([]) == Some(0);
    assert HexNumber([ZERO]) == Some(0);
    assert HexNumber([ZERO, ZERO]) == Some(0);
    assert HexNumber([ZERO, ZERO, a]) == Some(c / 16);
    assert HexNumber(hex) == Some(c);
  }

  lemma UnitsAt(s: Text, i: nat, t: Text)
    requires Holds(s, i, t)
    ensures i + |t| <= |s| && forall k :: 0 <= k < |t| ==> s[i + k] == t[k]
  {
    forall k | 0 <= k < |t| ensures s[i + k] == t[k] {
      assert s[i..i + |t|][k] == t[k];
    }
  }

  lemma PlainReads(s: Text, i: nat, c: Unit, done: Text)
    requires i < |s| && s[i] == c && c != QUOTE && c != BACKSLASH
    ensures StringRest(s, i, done) == StringRest(s, i + 1, done + [c])
  {
    hide ToInt32, Unescape;
  }

  lemma ShortReads(s: Text, i: nat, e: Unit, c: Unit, done: Text)
    requires i + 2 <= |s| && s[i] == BACKSLASH && s[i + 1] == e && e != 0x75 && Unescape(e) == Some(c)
    ensures StringRest(s, i, done) == StringRest(s, i + 2, done + [c])
  {
    hide ToInt32, Unescape;
  }

  lemma HexReads(s: Text, i: nat, c: Unit, done: Text)
    requires i + 6 <= |s| && s[i] == BACKSLASH && s[i + 1] == 0x75 && ToInt32(s[i + 2..i + 6]) == Some(c)
    ensures StringRest(s, i, done) == StringRest(s, i + 6, done + [c])
  {
    hide ToInt32, Unescape;
  }

  /** One escaped unit is read back. */
  lemma EscapeReads(s: Text, i: nat, c: Unit, done: Text)
    requires Holds(s, i, Escape(c))
    ensures StringRest(s, i, done) == StringRest(s, i + |Escape(c)|, done + [c])
  {
    hide StringRest, ToInt32, HexNumber, HexDigit, Holds;
    var t := Escape(c);
    UnitsAt(s, i, t);
    if |t| == 1 {
      assert s[i] == t[0];
      PlainReads(s, i, c, done);
    } else if |t| == 2 {
      assert s[i] == t[0] && s[i + 1] == t[1];
      ShortReads(s, i, t[1], c, done);
    } else {
      HexRoundTrip(c);
      assert s[i] == t[0] && s[i + 1] == t[1];
      assert s[i + 2..i + 6] == [t[2], t[3], t[4], t[5]];
      HexReads(s, i, c, done);
    }
  }

  lemma EscapedText(t: Text)
    requires t != []
    ensures Escaped(t) + [QUOTE] == Escape(t[0]) + (Escaped(t[1..]) + [QUOTE])
    ensures |Escaped(t)| == |Escape(t[0])| + |Escaped(t[1..])|
  {
    Reassociate(Escape(t[0]), Escaped(t[1..]), [QUOTE]);
    hide Escape;
  }

  lemma {:induction false} StringReads(s: Text, i: nat, t: Text, done: Text)
    requires Holds(s, i, Escaped(t) + [QUOTE])
    ensures StringRest(s, i, done) == Parsed(done + t, i + |Escaped(t)| + 1)
    decreases t
  {
    hide *;
    if t == [] {
      StringEnds(s, i, done);
    } else {
      EscapedText(t);
      HoldsParts(s, i, Escape(t[0]), Escaped(t[1..]) + [QUOTE]);
      InText(s, i, Escape(t[0]));
      EscapeReads(s, i, t[0], done);
      StringReads(s, i + |Escape(t[0])|, t[1..], done + [t[0]]);
      SplitFirst(done, t);
    }
  }

  lemma StringEnds(s: Text, i: nat, done: Text)
    requires Holds(s, i, Escaped([]) + [QUOTE])
    ensures StringRest(s, i, done) == Parsed(done + [], i + |Escaped([])| + 1)
  {
    assert Escaped([]) + [QUOTE] == [QUOTE] + [];
    HoldsUnit(s, i, QUOTE, []);
    assert done + [] == done;
  }

  lemma InText(s: Text, i: nat, t: Text)
    requires Holds(s, i, t)
    ensures i + |t| <= |s|
  {
  }

  /** A printed string is read back, up to and with its closing quote. */
  lemma QuotedReads(s: Text, i: nat, t: Text)
    requires Holds(s, i, PrintString(t))
    ensures i < |s| && s[i] == QUOTE && StringRest(s, i + 1, []) == Parsed(t, i + |PrintString(t)|)
  {
    assert PrintString(t) == [QUOTE] + (Escaped(t) + [QUOTE]);
    HoldsUnit(s, i, QUOTE, Escaped(t) + [QUOTE]);
    StringReads(s, i + 1, t, []);
    assert [] + t == t;
  }

  // Values

  lemma NoSpace(s: Text, i: nat)
    requires i <= |s| && (i == |s| || !IsSpace(s[i]))
    ensures SkipSpace(s, i) == i
  {
  }

  /** The first unit of a printed value decides how it is read, and is neither a space nor a closing sign. */
  lemma PrintStarts(v: Json)
    requires Printable(v)
    ensures Print(v) != [] && !IsSpace(Print(v)[0]) && Print(v)[0] != CLOSE_BRACKET && Print(v)[0] != CLOSE_BRACE
    ensures match v
      case Null => Print(v)[0] == NULL[0]
      case Bool(b) => Print(v)[0] == if b then TRUE[0] else FALSE[0]
      case Integer(n) => Print(v)[0] == MINUS || IsDigit(Print(v)[0])
      case Rounded(_, _) => true
      case Str(_) => Print(v)[0] == QUOTE
      case Arr(_) => Print(v)[0] == OPEN_BRACKET
      case Obj(_) => Print(v)[0] == OPEN_BRACE
  {
    if v.Integer? { DigitsAreDigits(if v.n < 0 then -v.n else v.n); }
  }

  lemma HoldsFirst(s: Text, i: nat, t: Text)
    requires Holds(s, i, t) && t != []
    ensures i < |s| && s[i] == t[0]
  {
    assert s[i..i + |t|][0] == t[0];
  }

  lemma StopsAt(s: Text, i: nat)
    requires i < |s| && (s[i] == COMMA || s[i] == CLOSE_BRACKET || s[i] == CLOSE_BRACE)
    ensures Stops(s, i)
  {
  }

  lemma StopsNoSpace(s: Text, i: nat)
    requires Stops(s, i)
    ensures i <= |s| && SkipSpace(s, i) == i
  {
  }

  lemma AtomReads(s: Text, i: nat, v: Json)
    requires Printable(v) && !v.Arr? && !v.Obj? && Holds(s, i, Print(v)) && Stops(s, i + |Print(v)|)
    ensures ValueAt(s, i) == Parsed(v, i + |Print(v)|)
  {
    PrintStarts(v);
    HoldsFirst(s, i, Print(v));
    NoSpace(s, i);
    match v
    case Null =>
    case Bool(b) =>
    case Integer(n) => NumberReads(s, i, n); hide NumberAt, PrintInteger;
    case Str(t) => QuotedReads(s, i, t); hide StringRest, PrintString;
  }

  lemma {:induction false} ValueReads(s: Text, i: nat, v: Json)
    requires Printable(v) && Holds(s, i, Print(v)) && Stops(s, i + |Print(v)|)
    ensures ValueAt(s, i) == Parsed(v, i + |Print(v)|)
    decreases v, 0
  {
    match v
    case Arr(items) =>
      ArrayReads(s, i, items);
      ArrayStarts(s, i, v);
    case Obj(members) =>
      ObjectReads(s, i, members);
      ArrayStarts(s, i, v);
    case _ => AtomReads(s, i, v);
  }

  lemma ArrayStarts(s: Text, i: nat, v: Json)
    requires (v.Arr? || v.Obj?) && Holds(s, i, Print(v))
    ensures i < |s| && ValueAt(s, i) == if v.Arr? then ArrayAt(s, i) else ObjectAt(s, i)
  {
    HoldsFirst(s, i, Print(v));
    NoSpace(s, i);
    hide ArrayAt, ObjectAt;
  }

  lemma {:induction false} ArrayReads(s: Text, i: nat, items: seq<Json>)
    requires Printable(Arr(items)) && Holds(s, i, Print(Arr(items)))
    ensures i < |s| && ArrayAt(s, i) == Parsed(Arr(items), i + |Print(Arr(items))|)
    decreases items, 3
  {
    var t := PrintItems(items) + [CLOSE_BRACKET];
    assert Print(Arr(items)) == [OPEN_BRACKET] + t;
    HoldsUnit(s, i, OPEN_BRACKET, t);
    HoldsFirst(s, i + 1, t);
    if items == [] {
      NoSpace(s, i + 1);
    } else {
      ItemsStart(items);
      NoSpace(s, i + 1);
      hide Print, PrintItems;
      ItemsRead(s, i + 1, items, []);
      assert [] + items == items;
    }
  }

  lemma ItemsStart(items: seq<Json>)
    requires items != [] && Printable(items[0])
    ensures PrintItems(items) != [] && PrintItems(items)[0] == Print(items[0])[0]
    ensures !IsSpace(Print(items[0])[0]) && Print(items[0])[0] != CLOSE_BRACKET
  {
    PrintStarts(items[0]);
  }

  lemma Regroup(a: Text, b: Text, c: Text, d: Text)
    ensures a + b + c + d == a + (b + (c + d))
  {
  }

  /** A text, a unit and more text. */
  lemma HoldsThree(s: Text, i: nat, a: Text, c: Unit, more: Text)
    requires Holds(s, i, a + ([c] + more))
    ensures Holds(s, i, a) && i + |a| < |s| && s[i + |a|] == c && Holds(s, i + |a| + 1, more)
  {
    HoldsParts(s, i, a, [c] + more);
    HoldsUnit(s, i + |a|, c, more);
  }

  /** The text of items is the first one, then a comma and the others, or the closing bracket. */
  lemma ItemsText(items: seq<Json>) returns (c: Unit, more: Text)
    requires items != []
    ensures PrintItems(items) + [CLOSE_BRACKET] == Print(items[0]) + ([c] + more)
    ensures |items| == 1 ==> c == CLOSE_BRACKET && |PrintItems(items)| == |Print(items[0])|
    ensures |items| > 1 ==> c == COMMA && more == PrintItems(items[1..]) + [CLOSE_BRACKET]
    ensures |items| > 1 ==> |PrintItems(items)| == |Print(items[0])| + 1 + |PrintItems(items[1..])|
  {
    if |items| > 1 {
      c, more := COMMA, PrintItems(items[1..]) + [CLOSE_BRACKET];
      Regroup(Print(items[0]), [COMMA], PrintItems(items[1..]), [CLOSE_BRACKET]);
    } else {
      c, more := CLOSE_BRACKET, [];
      assert [CLOSE_BRACKET] + [] == [CLOSE_BRACKET];
    }
    hide Print;
  }

  lemma ItemStep(s: Text, i: nat, done: seq<Json>, v: Json, next: nat)
    requires i <= |s| && ValueAt(s, i) == Parsed(v, next) && next < |s| && Stops(s, next)
    ensures s[next] == COMMA ==> ItemsAt(s, i, done) == ItemsAt(s, next + 1, done + [v])
    ensures s[next] == CLOSE_BRACKET ==> ItemsAt(s, i, done) == Parsed(Arr(done + [v]), next + 1)
  {
    StopsNoSpace(s, next);
    hide ValueAt;
  }

  lemma SplitFirst<T>(done: seq<T>, s: seq<T>)
    requires s != []
    ensures done + [s[0]] + s[1..] == done + s && (|s| == 1 ==> s == [s[0]])
  {
  }

  lemma FirstPrintable(items: seq<Json>)
    requires items != [] && Printable(Arr(items))
    ensures Printable(items[0]) && Printable(Arr(items[1..]))
  {
    assert forall k :: 0 <= k < |items[1..]| ==> items[1..][k] == items[k + 1];
  }

  lemma {:induction false} ItemsRead(s: Text, i: nat, items: seq<Json>, done: seq<Json>)
    requires items != [] && Printable(Arr(items)) && Holds(s, i, PrintItems(items) + [CLOSE_BRACKET])
    ensures ItemsAt(s, i, done) == Parsed(Arr(done + items), i + |PrintItems(items)| + 1)
    decreases items, 2
  {
    hide *;
    FirstPrintable(items);
    var c, more := ItemsText(items);
    HoldsThree(s, i, Print(items[0]), c, more);
    StopsAt(s, i + |Print(items[0])|);
    ValueReads(s, i, items[0]);
    ItemStep(s, i, done, items[0], i + |Print(items[0])|);
    SplitFirst(done, items);
    if |items| > 1 {
      ItemsRead(s, i + |Print(items[0])| + 1, items[1..], done + [items[0]]);
    }
  }

  ghost predicate HasKey(members: seq<(Text, Json)>, key: Text)
  {
    exists i :: 0 <= i < |members| && members[i].0 == key
  }

  lemma {:induction false} SetNew(members: seq<(Text, Json)>, key: Text, v: Json)
    requires !HasKey(members, key)
    ensures SetMember(members, key, v) == members + [(key, v)]
  {
    if members != [] {
      assert members[0].0 != key;
      assert forall i :: 0 <= i < |members[1..]| ==> members[1..][i] == members[i + 1];
      SetNew(members[1..], key, v);
    }
  }

  lemma {:induction false} ObjectReads(s: Text, i: nat, members: seq<(Text, Json)>)
    requires Printable(Obj(members)) && Holds(s, i, Print(Obj(members)))
    ensures i < |s| && ObjectAt(s, i) == Parsed(Obj(members), i + |Print(Obj(members))|)
    decreases members, 3
  {
    var t := PrintMembers(members) + [CLOSE_BRACE];
    assert Print(Obj(members)) == [OPEN_BRACE] + t;
    HoldsUnit(s, i, OPEN_BRACE, t);
    HoldsFirst(s, i + 1, t);
    if members == [] {
      NoSpace(s, i + 1);
    } else {
      MembersStart(members);
      NoSpace(s, i + 1);
      assert [] + members == members;
      hide Print, PrintMembers;
      MembersRead(s, i + 1, members, []);
    }
  }

  lemma MembersStart(members: seq<(Text, Json)>)
    requires members != []
    ensures PrintMembers(members) != [] && PrintMembers(members)[0] == QUOTE
  {
  }

  lemma KeyReads(s: Text, i: nat, key: Text)
    requires Holds(s, i, PrintString(key) + [COLON])
    ensures KeyAt(s, i) == Parsed(key, i + |PrintString(key)| + 1)
  {
    var t := PrintString(key);
    HoldsParts(s, i, t, [COLON]);
    QuotedReads(s, i, key);
    NoSpace(s, i);
    hide PrintString, StringRest;
    assert [COLON] == [COLON] + [];
    HoldsUnit(s, i + |t|, COLON, []);
    NoSpace(s, i + |t|);
  }

  /** The text of members is the first key, its value, then a comma and the others, or the closing brace. */
  lemma MembersText(members: seq<(Text, Json)>) returns (c: Unit, more: Text)
    requires members != []
    ensures PrintMembers(members) + [CLOSE_BRACE] ==
      PrintString(members[0].0) + [COLON] + (Print(members[0].1) + ([c] + more))
    ensures var n := |PrintString(members[0].0)| + 1 + |Print(members[0].1)|;
      var rest := PrintMembers(members[1..]);
      if |members| == 1 then c == CLOSE_BRACE && |PrintMembers(members)| == n
      else c == COMMA && more == rest + [CLOSE_BRACE] && |PrintMembers(members)| == n + 1 + |rest|
  {
    var a, b := PrintString(members[0].0) + [COLON], Print(members[0].1);
    if |members| > 1 {
      c, more := COMMA, PrintMembers(members[1..]) + [CLOSE_BRACE];
      Regroup(a + b, [COMMA], PrintMembers(members[1..]), [CLOSE_BRACE]);
    } else {
      c, more := CLOSE_BRACE, [];
      assert [CLOSE_BRACE] + [] == [CLOSE_BRACE];
    }
    hide Print, PrintString;
    Reassociate(a, b, [c] + more);
  }

  lemma MemberStep(s: Text, i: nat, done: seq<(Text, Json)>, key: Text, start: nat, v: Json, next: nat)
    requires i <= |s| && KeyAt(s, i) == Parsed(key, start) && ValueAt(s, start) == Parsed(v, next)
    requires next < |s| && Stops(s, next) && !HasKey(done, key)
    ensures s[next] == COMMA ==> MembersAt(s, i, done) == MembersAt(s, next + 1, done + [(key, v)])
    ensures s[next] == CLOSE_BRACE ==> MembersAt(s, i, done) == Parsed(Obj(done + [(key, v)]), next + 1)
  {
    StopsNoSpace(s, next);
    SetNew(done, key, v);
    hide ValueAt, KeyAt, SetMember;
  }

  lemma NewKey(done: seq<(Text, Json)>, members: seq<(Text, Json)>)
    requires members != [] && DistinctKeys(done + members) && Printable(Obj(members))
    ensures !HasKey(done, members[0].0) && Printable(members[0].1)
    ensures DistinctKeys(done + [members[0]] + members[1..]) && Printable(Obj(members[1..]))
  {
    var all := done + members;
    assert all[|done|] == members[0];
    assert forall i :: 0 <= i < |done| ==> all[i] == done[i];
    assert forall i :: 0 <= i < |members[1..]| ==> members[1..][i] == members[i + 1];
    SplitFirst(done, members);
  }

  lemma {:induction false} MembersRead(s: Text, i: nat, members: seq<(Text, Json)>, done: seq<(Text, Json)>)
    requires members != [] && Printable(Obj(members)) && DistinctKeys(done + members)
    requires Holds(s, i, PrintMembers(members) + [CLOSE_BRACE])
    ensures MembersAt(s, i, done) == Parsed(Obj(done + members), i + |PrintMembers(members)| + 1)
    decreases members, 2
  {
    hide *;
    var key, v := members[0].0, members[0].1;
    NewKey(done, members);
    var c, more := MembersText(members);
    var j := i + |PrintString(key)| + 1;
    HoldsParts(s, i, PrintString(key) + [COLON], Print(v) + ([c] + more));
    HoldsThree(s, j, Print(v), c, more);
    StopsAt(s, j + |Print(v)|);
    KeyReads(s, i, key);
    ValueReads(s, j, v);
    MemberStep(s, i, done, key, j, v, j + |Print(v)|);
    SplitFirst(done, members);
    assert members[0] == (key, v);
    if |members| > 1 {
      MembersRead(s, j + |Print(v)| + 1, members[1..], done + [members[0]]);
    }
  }

  /** Parsing what was printed gives the value back and consumes the whole text. */
  lemma RoundTrip(v: Json)
    requires Printable(v)
    ensures Parse(Print(v)) == Ok(v)
  {
    var s := Print(v);
    assert s[0..0 + |s|] == s;
    ValueReads(s, 0, v);
    hide Print;
    StopsNoSpace(s, |s|);
  }

  /** So no two values print alike. */
  lemma PrintIsInjective(v: Json, w: Json)
    requires Printable(v) && Printable(w) && Print(v) == Print(w)
    ensures v == w
  {
    RoundTrip(v);
    RoundTrip(w);
  }
}
