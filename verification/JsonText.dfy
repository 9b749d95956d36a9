/** JSON texts (RFC 8259): writing strings as `JSON.stringify` does, and reading any text as `JSON.parse` does. */
module JsonText {
  import opened Common

  datatype Json =
    | Null
    | Boolean(b: bool)
    | Number(text: string)
    | Text(s: string)
    | Array(items: seq<Json>)
    | Object(members: seq<(string, Json)>)

  // ---- writing strings, section 7 ----

  function HexDigit(n: nat): char
    requires n < 16
  {
    if n < 10 then ('0' as int + n) as char else ('a' as int + n - 10) as char
  }

  function EscapeChar(c: char): string {
    if c == '\"' then ['\\', '\"']
    else if c == '\\' then ['\\', '\\']
    else if c as int == 8 then ['\\', 'b']
    else if c as int == 9 then ['\\', 't']
    else if c as int == 10 then ['\\', 'n']
    else if c as int == 12 then ['\\', 'f']
    else if c as int == 13 then ['\\', 'r']
    else if c as int < 0x20 then ['\\', 'u', '0', '0', HexDigit(c as int / 16), HexDigit(c as int % 16)]
    else [c]
  }

  function Escape(s: string): string {
    if s == "" then "" else EscapeChar(s[0]) + Escape(s[1..])
  }

  function Quote(s: string): string {
    ['\"'] + Escape(s) + ['\"']
  }

  /** How characters are escaped: quotes, backslashes and control characters, and no others. */
  lemma EscapesExactly(c: char)
    ensures EscapeChar(c) == [c] <==> c as int >= 32 && c != '\"' && c != '\\'
    ensures Quote("a\n\"") == ['\"', 'a', '\\', 'n', '\\', '\"', '\"']
    ensures EscapeChar(0x1F as char) == ['\\', 'u', '0', '0', '1', 'f']
  {
    assert "a\n\""[1..] == "\n\"" && "\n\""[1..] == "\"";
  }

  // ---- reading ----

  datatype Read<+T> = Fail | Done(value: T, rest: string)

  predicate IsSpace(c: char) {
    c == ' ' || c as int == 9 || c as int == 10 || c as int == 13
  }

  function SkipSpace(s: string): (r: string)
    ensures |r| <= |s|
  {
    if s != "" && IsSpace(s[0]) then SkipSpace(s[1..]) else s
  }

  function HexValue(c: char): Option<nat> {
    if '0' <= c <= '9' then Some(c as int - '0' as int)
    else if 'a' <= c <= 'f' then Some(c as int - 'a' as int + 10)
    else if 'A' <= c <= 'F' then Some(c as int - 'A' as int + 10)
    else None
  }

  function Hex4(s: string): Option<nat>
    ensures Hex4(s).Some? ==> |s| >= 4 && Hex4(s).value < 65536
  {
    if |s| < 4 then None
    else
      var a, b, c, d := HexValue(s[0]), HexValue(s[1]), HexValue(s[2]), HexValue(s[3]);
      if a.Some? && b.Some? && c.Some? && d.Some?
      then Some(a.value * 4096 + b.value * 256 + c.value * 16 + d.value) else None
  }

  /** After a backslash: the character it stands for. A lone surrogate reads as U+FFFD. */
  function ReadEscape(s: string): Read<char>
    ensures ReadEscape(s).Done? ==> |ReadEscape(s).rest| < |s|
  {
    if s == "" then Fail
    else if s[0] == '\"' || s[0] == '\\' || s[0] == '/' then Done(s[0], s[1..])
    else if s[0] == 'b' then Done(8 as char, s[1..])
    else if s[0] == 'f' then Done(12 as char, s[1..])
    else if s[0] == 'n' then Done(10 as char, s[1..])
    else if s[0] == 'r' then Done(13 as char, s[1..])
    else if s[0] == 't' then Done(9 as char, s[1..])
    else if s[0] == 'u' then
      var h := Hex4(s[1..]);
      if h.None? then Fail
      else if h.value < 0xD800 || 0xE000 <= h.value then Done(h.value as char, s[5..])
      else if h.value < 0xDC00 && |s| >= 7 && s[5] == '\\' && s[6] == 'u' && Hex4(s[7..]).Some?
              && 0xDC00 <= Hex4(s[7..]).value < 0xE000 then
        Done((0x10000 + (h.value - 0xD800) * 1024 + (Hex4(s[7..]).value - 0xDC00)) as char, s[11..])
      else Done('\U{FFFD}', s[5..])
    else Fail
  }

  /** The rest of a string literal after its opening quote. */
  function ReadString(s: string): Read<string>
    ensures ReadString(s).Done? ==> |ReadString(s).rest| < |s|
    decreases |s|
  {
    if s == "" then Fail
    else if s[0] == '\"' then Done("", s[1..])
    else if s[0] == '\\' then
      var e := ReadEscape(s[1..]);
      if e.Fail? then Fail
      else
        var r := ReadString(e.rest);
        if r.Fail? then Fail else Done([e.value] + r.value, r.rest)
    else if s[0] as int < 0x20 then Fail
    else
      var r := ReadString(s[1..]);
      if r.Fail? then Fail else Done([s[0]] + r.value, r.rest)
  }

  /** One or more digits. */
  function ReadDigits(s: string): Read<string>
    ensures ReadDigits(s).Done? ==> |ReadDigits(s).rest| < |s|
  {
    if s == "" || !IsDigit(s[0]) then Fail
    else
      var r := ReadDigits(s[1..]);
      if r.Done? then Done([s[0]] + r.value, r.rest) else Done([s[0]], s[1..])
  }

  function ReadFraction(s: string): Read<string>
    ensures ReadFraction(s).Done? ==> |ReadFraction(s).rest| <= |s|
  {
    if s == "" || s[0] != '.' then Done("", s)
    else
      var d := ReadDigits(s[1..]);
      if d.Fail? then Fail else Done("." + d.value, d.rest)
  }

  function ReadExponent(s: string): Read<string>
    ensures ReadExponent(s).Done? ==> |ReadExponent(s).rest| <= |s|
  {
    if s == "" || (s[0] != 'e' && s[0] != 'E') then Done("", s)
    else
      var signed := |s| > 1 && (s[1] == '+' || s[1] == '-');
      var d := ReadDigits(if signed then s[2..] else s[1..]);
      if d.Fail? then Fail else Done((if signed then s[..2] else s[..1]) + d.value, d.rest)
  }

  function ReadNumber(s: string): Read<Json>
    ensures ReadNumber(s).Done? ==> |ReadNumber(s).rest| < |s|
  {
    var t := if s != "" && s[0] == '-' then s[1..] else s;
    var whole := if t != "" && t[0] == '0' then Done("0", t[1..]) else ReadDigits(t);
    if whole.Fail? then Fail
    else
      var f := ReadFraction(whole.rest);
      if f.Fail? then Fail
      else
        var e := ReadExponent(f.rest);
        if e.Fail? then Fail else Done(Number(s[..|s| - |e.rest|]), e.rest)
  }

  function ReadValue(s: string): Read<Json>
    ensures ReadValue(s).Done? ==> |ReadValue(s).rest| < |s|
    decreases |s|, 0
  {
    var t := SkipSpace(s);
    if t == "" then Fail
    else if t[0] == '\"' then
      var r := ReadString(t[1..]);
      if r.Fail? then Fail else Done(Text(r.value), r.rest)
    else if t[0] == '{' then
      var u := SkipSpace(t[1..]);
      if u != "" && u[0] == '}' then Done(Object([]), u[1..])
      else
        var r := ReadMembers(t[1..]);
        if r.Fail? then Fail else Done(Object(r.value), r.rest)
    else if t[0] == '[' then
      var u := SkipSpace(t[1..]);
      if u != "" && u[0] == ']' then Done(Array([]), u[1..])
      else
        var r := ReadItems(t[1..]);
        if r.Fail? then Fail else Done(Array(r.value), r.rest)
    else if "true" <= t then Done(Boolean(true), t[4..])
    else if "false" <= t then Done(Boolean(false), t[5..])
    else if "null" <= t then Done(Null, t[4..])
    else ReadNumber(t)
  }

  /** `"key" : value` up to the closing brace. */
  function ReadMembers(s: string): Read<seq<(string, Json)>>
    ensures ReadMembers(s).Done? ==> |ReadMembers(s).rest| < |s|
    decreases |s|, 1
  {
    var t := SkipSpace(s);
    if t == "" || t[0] != '\"' then Fail
    else
      var k := ReadString(t[1..]);
      if k.Fail? then Fail
      else
        var c := SkipSpace(k.rest);
        if c == "" || c[0] != ':' then Fail
        else
          var v := ReadValue(c[1..]);
          if v.Fail? then Fail
          else
            var e := SkipSpace(v.rest);
            if e == "" then Fail
            else if e[0] == '}' then Done([(k.value, v.value)], e[1..])
            else if e[0] == ',' then
              var m := ReadMembers(e[1..]);
              if m.Fail? then Fail else Done([(k.value, v.value)] + m.value, m.rest)
            else Fail
  }

  function ReadItems(s: string): Read<seq<Json>>
    ensures ReadItems(s).Done? ==> |ReadItems(s).rest| < |s|
    decreases |s|, 1
  {
    var v := ReadValue(s);
    if v.Fail? then Fail
    else
      var e := SkipSpace(v.rest);
      if e == "" then Fail
      else if e[0] == ']' then Done([v.value], e[1..])
      else if e[0] == ',' then
        var m := ReadItems(e[1..]);
        if m.Fail? then Fail else Done([v.value] + m.value, m.rest)
      else Fail
  }

  /** A whole text: one value, with nothing but space around it. */
  function Parse(s: string): Option<Json> {
    var r := ReadValue(s);
    if r.Done? && SkipSpace(r.rest) == "" then Some(r.value) else None
  }

  /** The last member with a name wins. */
  function Member(members: seq<(string, Json)>, key: string): Option<Json> {
    if members == [] then None
    else if members[|members| - 1].0 == key then Some(members[|members| - 1].1)
    else Member(members[..|members| - 1], key)
  }

  // ---- reading back what was written ----

  lemma HexRoundTrip(n: nat)
    requires n < 16
    ensures HexValue(HexDigit(n)) == Some(n)
  {}

  lemma ReadEscaped(c: char, rest: string)
    ensures var e := EscapeChar(c);
            && e != "" && e[0] != '\"'
            && (e[0] == '\\' ==> ReadEscape((e + rest)[1..]) == Done(c, rest))
            && (e[0] != '\\' ==> e == [c] && c as int >= 0x20)
  {
    var n := c as int;
    var e := EscapeChar(c);
    var s := (e + rest)[1..];
    if n < 0x20 && n != 8 && n != 9 && n != 10 && n != 12 && n != 13 {
      HexRoundTrip(n / 16);
      HexRoundTrip(n % 16);
      assert s == ['u', '0', '0', HexDigit(n / 16), HexDigit(n % 16)] + rest;
      assert s[1..] == ['0', '0', HexDigit(n / 16), HexDigit(n % 16)] + rest;
      assert Hex4(s[1..]) == Some(n);
      assert s[5..] == rest;
    } else if e[0] == '\\' {
      assert s == [e[1]] + rest;
      assert s[1..] == rest;
    }
  }

  /** One character's escape is read back, followed by the string after it. */
  lemma ReadEscapedChar(c: char, tail: string, s: string, rest: string)
    requires ReadString(tail) == Done(s, rest)
    ensures ReadString(EscapeChar(c) + tail) == Done([c] + s, rest)
  {
    ReadEscaped(c, tail);
    var e := EscapeChar(c);
    var t := e + tail;
    assert t != "" && t[0] == e[0];
    if e[0] != '\\' {
      assert t[1..] == tail;
    }
  }

  lemma EscapeSplits(s: string, rest: string)
    requires s != ""
    ensures Escape(s) + ['\"'] + rest == EscapeChar(s[0]) + (Escape(s[1..]) + ['\"'] + rest)
  {}

  /** Any string is read back from its escaped form, up to the closing quote. */
  lemma {:induction false} ReadQuoted(s: string, rest: string)
    ensures ReadString(Escape(s) + ['\"'] + rest) == Done(s, rest)
  {
    if s == "" {
      var t := Escape(s) + ['\"'] + rest;
      assert t == ['\"'] + rest && t[1..] == rest;
    } else {
      ReadQuoted(s[1..], rest);
      ReadEscapedChar(s[0], Escape(s[1..]) + ['\"'] + rest, s[1..], rest);
      EscapeSplits(s, rest);
      assert [s[0]] + s[1..] == s;
    }
  }

  lemma QuoteOpens(s: string, rest: string)
    ensures var t := Quote(s) + rest;
            && t != "" && t[0] == '\"' && ReadString(t[1..]) == Done(s, rest)
  {
    assert (Quote(s) + rest)[1..] == Escape(s) + ['\"'] + rest;
    ReadQuoted(s, rest);
  }

  lemma ReadQuotedValue(s: string, rest: string)
    ensures ReadValue(Quote(s) + rest) == Done(Text(s), rest)
  {
    QuoteOpens(s, rest);
  }

  lemma Regroup(a: string, b: string, c: string, d: string)
    ensures a + b + c + d == a + (b + c + d)
    ensures |b| == 1 ==> (b + c + d)[1..] == c + d
  {
    if |b| == 1 {
      assert (b + c + d)[1..] == c + d;
    }
  }

  /** Writing one member: its quoted name, a colon, its quoted value. */
  function MemberText(key: string, s: string): string {
    Quote(key) + [':'] + Quote(s)
  }

  lemma NoSpace(s: string)
    requires s != "" ==> !IsSpace(s[0])
    ensures SkipSpace(s) == s
  {}

  /** A written member's text is its opening quote, then what ReadString reads up to the colon. */
  lemma MemberSplits(key: string, s: string, rest: string)
    ensures var t, c := MemberText(key, s) + rest, [':'] + Quote(s) + rest;
            && t != "" && t[0] == '\"' && ReadString(t[1..]) == Done(key, c)
            && c[1..] == Quote(s) + rest && ReadValue(c[1..]) == Done(Text(s), rest)
  {
    var c := [':'] + Quote(s) + rest;
    Regroup(Quote(key), [':'], Quote(s), rest);
    QuoteOpens(key, c);
    ReadQuotedValue(s, rest);
  }

  /** How a member is read, once the text splits into its key, its value and what follows. */
  lemma ReadMember(t: string, key: string, c: string, v: Json, e: string)
    requires t != "" && t[0] == '\"' && ReadString(t[1..]) == Done(key, c)
    requires c != "" && c[0] == ':' && ReadValue(c[1..]) == Done(v, e) && e != ""
    ensures e[0] == '}' ==> ReadMembers(t) == Done([(key, v)], e[1..])
    ensures e[0] == ',' ==>
              var m := ReadMembers(e[1..]);
              ReadMembers(t) == if m.Fail? then Fail else Done([(key, v)] + m.value, m.rest)
  {
    NoSpace(t);
    NoSpace(c);
    if e[0] == '}' || e[0] == ',' { NoSpace(e); }
  }

  /** The last member of an object is read back. */
  lemma ReadLastMember(key: string, s: string, rest: string)
    ensures ReadMembers(MemberText(key, s) + (['}'] + rest)) == Done([(key, Text(s))], rest)
  {
    var e := ['}'] + rest;
    MemberSplits(key, s, e);
    ReadMember(MemberText(key, s) + e, key, [':'] + Quote(s) + e, Text(s), e);
    assert e[1..] == rest;
  }

  /** An earlier member is read back, followed by the members after its comma. */
  lemma ReadNextMember(key: string, s: string, more: string, m: seq<(string, Json)>, rest: string)
    requires ReadMembers(more) == Done(m, rest)
    ensures ReadMembers(MemberText(key, s) + ([','] + more)) == Done([(key, Text(s))] + m, rest)
  {
    var e := [','] + more;
    MemberSplits(key, s, e);
    ReadMember(MemberText(key, s) + e, key, [':'] + Quote(s) + e, Text(s), e);
    assert e[1..] == more;
  }

  lemma ReadObject(body: string, m: seq<(string, Json)>)
    requires body != "" && body[0] == '\"' && ReadMembers(body) == Done(m, "")
    ensures Parse(['{'] + body) == Some(Object(m))
  {
    var t := ['{'] + body;
    assert t[1..] == body;
    NoSpace(t);
    NoSpace(body);
    assert ReadValue(t) == Done(Object(m), "");
  }

  lemma PairShape(m1: string, m2: string)
    ensures ['{'] + (m1 + ([','] + (m2 + ['}']))) == ['{'] + m1 + [','] + m2 + ['}']
    ensures m1 != "" ==> (m1 + ([','] + (m2 + ['}'])))[0] == m1[0]
  {}

  /** `JSON.stringify` of an object with two string members. */
  function PairText(k1: string, s1: string, k2: string, s2: string): string {
    ['{'] + MemberText(k1, s1) + [','] + MemberText(k2, s2) + ['}']
  }

  lemma PairReads(m1: string, m2: string, m: seq<(string, Json)>)
    requires m1 != "" && m1[0] == '\"'
    requires ReadMembers(m1 + ([','] + (m2 + ['}']))) == Done(m, "")
    ensures Parse(['{'] + m1 + [','] + m2 + ['}']) == Some(Object(m))
  {
    PairShape(m1, m2);
    ReadObject(m1 + ([','] + (m2 + ['}'])), m);
  }

  /** An object of two written members parses back to exactly those members. */
  lemma ParsePair(k1: string, s1: string, k2: string, s2: string)
    ensures Parse(PairText(k1, s1, k2, s2)) == Some(Object([(k1, Text(s1)), (k2, Text(s2))]))
  {
    var m1, m2 := MemberText(k1, s1), MemberText(k2, s2);
    ReadLastMember(k2, s2, "");
    assert ['}'] + "" == ['}'];
    ReadNextMember(k1, s1, m2 + ['}'], [(k2, Text(s2))], "");
    assert [(k1, Text(s1))] + [(k2, Text(s2))] == [(k1, Text(s1)), (k2, Text(s2))];
    PairReads(m1, m2, [(k1, Text(s1)), (k2, Text(s2))]);
  }

  lemma PairMembers(k1: string, v1: Json, k2: string, v2: Json)
    requires k1 != k2
    ensures Member([(k1, v1), (k2, v2)], k1) == Some(v1)
    ensures Member([(k1, v1), (k2, v2)], k2) == Some(v2)
  {
    assert [(k1, v1), (k2, v2)][..1] == [(k1, v1)];
  }

  /** No JSON text starts with a character outside ASCII. */
  lemma AsciiStart(s: string)
    requires s != "" && s[0] as int >= 0x80
    ensures Parse(s) == None
  {
    assert SkipSpace(s) == s;
  }

  lemma EmptyText()
    ensures Parse("") == None
  {}
}
