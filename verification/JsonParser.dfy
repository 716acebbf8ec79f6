/** The printer that appends to a buffer, and the parser that moves a cursor. */
module JsonParser {
  import opened Wrappers
  import opened Sequences
  import opened JsonText

  // Printing

  lemma {:induction false} PrintItemsAppend(items: seq<Json>, v: Json)
    ensures PrintItems(items + [v]) == PrintItems(items) + (if items == [] then [] else [COMMA]) + Print(v)
  {
    if |items| == 0 {
      assert items + [v] == [v];
      assert [] + [] + Print(v) == Print(v);
    } else if |items| == 1 {
      assert (items + [v])[0] == items[0] && (items + [v])[1..] == [v];
    } else {
      PrintItemsAppend(items[1..], v);
      assert (items + [v])[0] == items[0] && (items + [v])[1..] == items[1..] + [v];
      var head, rest, last := Print(items[0]) + [COMMA], PrintItems(items[1..]), [COMMA] + Print(v);
      hide Print, PrintItems;
      Reassociate(rest, [COMMA], Print(v));
      Reassociate(head, rest, last);
      Reassociate(head + rest, [COMMA], Print(v));
    }
  }

  lemma {:induction false} PrintMembersAppend(members: seq<(Text, Json)>, m: (Text, Json))
    ensures PrintMembers(members + [m]) ==
      PrintMembers(members) + (if members == [] then [] else [COMMA]) + PrintMember(m)
  {
    if |members| == 0 {
      assert members + [m] == [m];
      assert [] + [] + PrintMember(m) == PrintMember(m);
    } else if |members| == 1 {
      assert (members + [m])[0] == members[0] && (members + [m])[1..] == [m];
    } else {
      PrintMembersAppend(members[1..], m);
      assert (members + [m])[0] == members[0] && (members + [m])[1..] == members[1..] + [m];
      var head, rest, last := PrintMember(members[0]) + [COMMA], PrintMembers(members[1..]), [COMMA] + PrintMember(m);
      hide PrintMember, PrintMembers;
      Reassociate(rest, [COMMA], PrintMember(m));
      Reassociate(head, rest, last);
      Reassociate(head + rest, [COMMA], PrintMember(m));
    }
  }

  lemma {:induction false} EscapedAppend(s: Text, c: Unit)
    ensures Escaped(s + [c]) == Escaped(s) + Escape(c)
  {
    if s == [] {
      assert [c][1..] == [] && s + [c] == [c];
      assert Escape(c) + [] == [] + Escape(c);
    } else {
      EscapedAppend(s[1..], c);
      assert (s + [c])[1..] == s[1..] + [c] && (s + [c])[0] == s[0];
      Reassociate(Escape(s[0]), Escaped(s[1..]), Escape(c));
      hide Escape;
    }
  }

  class Printer {
    var sb: Text

    constructor ()
      ensures sb == []
    {
      sb := [];
    }

    method WriteString(s: Text)
      modifies this
      ensures sb == old(sb) + PrintString(s)
    {
      hide Escape;
      sb := sb + [QUOTE];
      for i := 0 to |s|
        invariant sb == old(sb) + [QUOTE] + Escaped(s[..i])
      {
        EscapedAppend(s[..i], s[i]);
        assert s[..i + 1] == s[..i] + [s[i]];
        Reassociate(old(sb) + [QUOTE], Escaped(s[..i]), Escape(s[i]));
        sb := sb + Escape(s[i]);
      }
      assert s[..|s|] == s;
      Wrapped(old(sb), [QUOTE], Escaped(s), [QUOTE]);
      sb := sb + [QUOTE];
    }

    method Write(v: Json)
      modifies this
      ensures sb == old(sb) + Print(v)
      decreases v, 0
    {
      match v
      case Null => sb := sb + NULL;
      case Bool(b) => sb := sb + (if b then TRUE else FALSE);
      case Integer(n) => sb := sb + PrintInteger(n);
      case Rounded(text, _) => sb := sb + text;
      case Str(s) => WriteString(s);
      case Arr(items) => WriteArray(items); Wrapped(old(sb), [OPEN_BRACKET], PrintItems(items), [CLOSE_BRACKET]);
      case Obj(members) => WriteObject(members); Wrapped(old(sb), [OPEN_BRACE], PrintMembers(members), [CLOSE_BRACE]);
    }

    method WriteArray(items: seq<Json>)
      modifies this
      ensures sb == old(sb) + [OPEN_BRACKET] + PrintItems(items) + [CLOSE_BRACKET]
      decreases items, 1
    {
      sb := sb + [OPEN_BRACKET];
      ghost var start := sb;
      var first := true;
      assert start + [] == start;
      hide Print;
      for i := 0 to |items|
        invariant first <==> i == 0
        invariant sb == start + PrintItems(items[..i])
      {
        ghost var before := sb;
        if !first { sb := sb + [COMMA]; }
        first := false;
        Write(items[i]);
        PrintItemsAppend(items[..i], items[i]);
        assert items[..i + 1] == items[..i] + [items[i]];
        hide PrintItems;
        AppendPart(start, PrintItems(items[..i]), if i == 0 then [] else [COMMA], Print(items[i]));
      }
      assert items[..|items|] == items;
      sb := sb + [CLOSE_BRACKET];
    }

    method WriteMember(m: (Text, Json))
      modifies this
      ensures sb == old(sb) + PrintMember(m)
      decreases m, 1
    {
      hide Print, PrintString;
      WriteString(m.0);
      sb := sb + [COLON];
      Write(m.1);
      MemberText(old(sb), m);
    }

    method WriteObject(members: seq<(Text, Json)>)
      modifies this
      ensures sb == old(sb) + [OPEN_BRACE] + PrintMembers(members) + [CLOSE_BRACE]
      decreases members, 2
    {
      sb := sb + [OPEN_BRACE];
      ghost var start := sb;
      var first := true;
      assert start + [] == start;
      hide PrintMember;
      for i := 0 to |members|
        invariant first <==> i == 0
        invariant sb == start + PrintMembers(members[..i])
      {
        if !first { sb := sb + [COMMA]; }
        first := false;
        WriteMember(members[i]);
        PrintMembersAppend(members[..i], members[i]);
        assert members[..i + 1] == members[..i] + [members[i]];
        hide PrintMembers;
        AppendPart(start, PrintMembers(members[..i]), if i == 0 then [] else [COMMA], PrintMember(members[i]));
      }
      assert members[..|members|] == members;
      sb := sb + [CLOSE_BRACE];
    }
  }

  lemma MemberText(before: Text, m: (Text, Json))
    ensures before + PrintString(m.0) + [COLON] + Print(m.1) == before + PrintMember(m)
  {
    hide PrintString, Print;
  }

  lemma Wrapped(before: Text, open: Text, inside: Text, close: Text)
    ensures before + open + inside + close == before + (open + inside + close)
  {
  }

  lemma AppendPart(start: Text, before: Text, comma: Text, part: Text)
    ensures start + before + comma + part == start + (before + comma + part)
    ensures start + before + [] == start + before
  {
  }

  // Parsing

  /** The outcome of a method is that of the function, and the cursor is behind what was read. */
  ghost predicate Agrees<T>(r: Result<T, string>, cursor: nat, p: Parsed<T>) {
    match p
    case Parsed(v, next) => r == Ok(v) && cursor == next
    case Failed(e) => r == Err(e)
  }

  class Parser {
    const s: Text
    var i: nat

    constructor (s: Text)
      ensures this.s == s && i == 0
    {
      this.s, i := s, 0;
    }

    method SkipWs()
      requires i <= |s|
      modifies this
      ensures i == SkipSpace(s, old(i))
    {
      while i < |s| && IsSpace(s[i])
        invariant i <= |s| && SkipSpace(s, i) == SkipSpace(s, old(i))
      {
        i := i + 1;
      }
    }

    /** From the opening quote. */
    method ParseString() returns (r: Result<Text, string>)
      requires i < |s|
      modifies this
      ensures i <= |s| && Agrees(r, i, StringRest(s, old(i) + 1, []))
    {
      i := i + 1;
      var sb: Text := [];
      while i < |s|
        invariant i <= |s| && StringRest(s, i, sb) == StringRest(s, old(i) + 1, [])
        decreases |s| - i
      {
        var c := s[i];
        if c == QUOTE {
          i := i + 1;
          return Ok(sb);
        }
        if c != BACKSLASH {
          i, sb := i + 1, sb + [c];
          continue;
        }
        if i + 1 >= |s| { return Err("unterminated string escape"); }
        var e := s[i + 1];
        if e == 0x75 {
          if i + 6 > |s| { return Err("bad unicode escape"); }
          var unit := ToInt32(s[i + 2..i + 6]);
          if unit.None? { return Err("bad hex digits"); }
          i, sb := i + 6, sb + [unit.value];
        } else {
          var unit := Unescape(e);
          if unit.None? { return Err("bad string escape"); }
          i, sb := i + 2, sb + [unit.value];
        }
      }
      return Err("unterminated string");
    }

    method SkipNumberDigits()
      requires i <= |s|
      modifies this
      ensures i == SkipDigits(s, old(i))
    {
      while IsDigit(Peek(s, i))
        invariant i <= |s| && SkipDigits(s, i) == SkipDigits(s, old(i))
        decreases |s| - i
      {
        i := i + 1;
      }
    }

    /** The integer part of a number. */
    method ScanInteger() returns (ok: bool)
      requires i <= |s|
      modifies this
      ensures i <= |s|
      ensures IntegerPart(s, old(i)) == if ok then Some(i) else None
    {
      hide SkipDigits;
      if Peek(s, i) == ZERO {
        i := i + 1;
      } else {
        if !IsDigit(Peek(s, i)) { return false; }
        i := i + 1;
        SkipNumberDigits();
      }
      ok := true;
    }

    /** Digits that must be there, behind a dot or an exponent sign. */
    method ScanDigits() returns (ok: bool)
      requires i <= |s|
      modifies this
      ensures i <= |s|
      ensures ok <==> IsDigit(Peek(s, old(i)))
      ensures ok ==> i == SkipDigits(s, old(i))
    {
      if !IsDigit(Peek(s, i)) { return false; }
      SkipNumberDigits();
      ok := true;
    }

    method ParseNumber() returns (r: Result<Json, string>)
      requires i < |s|
      modifies this
      ensures i <= |s| && Agrees(r, i, NumberAt(s, old(i)))
    {
      hide MakeNumber, SkipDigits, IntegerPart, IsDigit, ExponentAt;
      var start := i;
      if s[i] == MINUS { i := i + 1; }
      var ok := ScanInteger();
      if !ok { return Err("bad number"); }
      var isFloat := false;
      if Peek(s, i) == DOT {
        isFloat := true;
        i := i + 1;
        ok := ScanDigits();
        if !ok { return Err("bad number fraction"); }
      }
      r := ParseExponent(start, isFloat);
    }

    /** The rest of ParseNumber, behind the fraction. */
    method ParseExponent(start: nat, hasFraction: bool) returns (r: Result<Json, string>)
      requires start < i <= |s|
      modifies this
      ensures i <= |s| && Agrees(r, i, ExponentAt(s, start, old(i), hasFraction))
    {
      hide MakeNumber, SkipDigits, IsDigit;
      var isFloat := hasFraction;
      if Peek(s, i) == 0x65 || Peek(s, i) == 0x45 {
        isFloat := true;
        i := i + 1;
        if Peek(s, i) == PLUS || Peek(s, i) == MINUS { i := i + 1; }
        var ok := ScanDigits();
        if !ok { return Err("bad number exponent"); }
      }
      return Ok(MakeNumber(s[start..i], isFloat));
    }

    method ExpectToken(token: Text, v: Json) returns (r: Result<Json, string>)
      requires i <= |s| && token != []
      modifies this
      ensures i <= |s| && Agrees(r, i, Expect(s, old(i), token, v))
    {
      if i + |token| > |s| || s[i..i + |token|] != token { return Err("expected token"); }
      i := i + |token|;
      return Ok(v);
    }

    method ParseValue() returns (r: Result<Json, string>)
      requires i <= |s|
      modifies this
      ensures i <= |s| && Agrees(r, i, ValueAt(s, old(i)))
      decreases |s| - i, 1
    {
      hide StringRest, NumberAt, Expect, ArrayAt, ObjectAt, SkipSpace;
      SkipWs();
      if i >= |s| { return Err("unexpected end of JSON"); }
      var c := s[i];
      if c == OPEN_BRACE {
        r := ParseObject();
      } else if c == OPEN_BRACKET {
        r := ParseArray();
      } else if c == QUOTE {
        var text := ParseString();
        r := match text case Ok(t) => Ok(Str(t)) case Err(e) => Err(e);
      } else if c == TRUE[0] {
        r := ExpectToken(TRUE, Bool(true));
      } else if c == FALSE[0] {
        r := ExpectToken(FALSE, Bool(false));
      } else if c == NULL[0] {
        r := ExpectToken(NULL, Null);
      } else if c == MINUS || IsDigit(c) {
        r := ParseNumber();
      } else {
        r := Err("unexpected JSON");
      }
    }

    method ParseArray() returns (r: Result<Json, string>)
      requires i < |s|
      modifies this
      ensures i <= |s| && Agrees(r, i, ArrayAt(s, old(i)))
      decreases |s| - i, 0
    {
      hide ValueAt, SkipSpace;
      var start := i;
      i := i + 1;
      SkipWs();
      if Peek(s, i) == CLOSE_BRACKET {
        i := i + 1;
        return Ok(Arr([]));
      }
      var list: seq<Json> := [];
      while true
        invariant start < i <= |s|
        invariant ItemsAt(s, i, list) == ArrayAt(s, start)
        decreases |s| - i
      {
        ghost var before := i;
        var item := ParseValue();
        if item.Err? { return Err(item.error); }
        list := list + [item.value];
        SkipWs();
        if Peek(s, i) == COMMA {
          i := i + 1;
        } else if Peek(s, i) == CLOSE_BRACKET {
          i := i + 1;
          return Ok(Arr(list));
        } else {
          return Err("expected comma or end of array");
        }
      }
    }

    method ParseKey() returns (r: Result<Text, string>)
      requires i <= |s|
      modifies this
      ensures i <= |s| && Agrees(r, i, KeyAt(s, old(i)))
    {
      hide StringRest, SkipSpace;
      SkipWs();
      if Peek(s, i) != QUOTE { return Err("expected object key"); }
      r := ParseString();
      if r.Err? { return; }
      SkipWs();
      if Peek(s, i) != COLON { return Err("expected colon"); }
      i := i + 1;
    }

    method ParseObject() returns (r: Result<Json, string>)
      requires i < |s|
      modifies this
      ensures i <= |s| && Agrees(r, i, ObjectAt(s, old(i)))
      decreases |s| - i, 0
    {
      hide ValueAt, KeyAt, SkipSpace;
      var start := i;
      i := i + 1;
      SkipWs();
      if Peek(s, i) == CLOSE_BRACE {
        i := i + 1;
        return Ok(Obj([]));
      }
      var obj: seq<(Text, Json)> := [];
      while true
        invariant start < i <= |s|
        invariant MembersAt(s, i, obj) == ObjectAt(s, start)
        decreases |s| - i
      {
        var key := ParseKey();
        if key.Err? { return Err(key.error); }
        var value := ParseValue();
        if value.Err? { return Err(value.error); }
        obj := SetMember(obj, key.value, value.value);
        SkipWs();
        if Peek(s, i) == COMMA {
          i := i + 1;
        } else if Peek(s, i) == CLOSE_BRACE {
          i := i + 1;
          return Ok(Obj(obj));
        } else {
          return Err("expected comma or end of object");
        }
      }
    }
  }

  method Stringify(v: Json) returns (text: Text)
    ensures text == Print(v)
  {
    var printer := new Printer();
    printer.Write(v);
    text := printer.sb;
    assert [] + Print(v) == Print(v);
  }

  method ParseText(json: Text) returns (r: Result<Json, string>)
    ensures r == Parse(json)
  {
    var parser := new Parser(json);
    r := parser.ParseValue();
    if r.Err? { return; }
    parser.SkipWs();
    if parser.i < |json| { return Err("unexpected trailing JSON"); }
  }

  /** What is printed parses back to the same value. */
  method PrintThenParse(v: Json) returns (r: Result<Json, string>)
    requires Printable(v)
    ensures r == Ok(v)
  {
    var text := Stringify(v);
    r := ParseText(text);
    RoundTrip(v);
  }
}
