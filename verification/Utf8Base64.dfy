/** UTF-8 and base64url as `Buffer` applies them: encoding is exact, decoding accepts anything. */
module Utf8Base64 {
  import opened Common

  newtype Byte = n: int | 0 <= n < 256

  // ---- UTF-8 ----

  function EncodeChar(c: char): seq<Byte> {
    var n := c as int;
    if n < 0x80 then [n as Byte]
    else if n < 0x800 then [(0xC0 + n / 64) as Byte, (0x80 + n % 64) as Byte]
    else if n < 0x10000 then [(0xE0 + n / 4096) as Byte, (0x80 + n / 64 % 64) as Byte, (0x80 + n % 64) as Byte]
    else [(0xF0 + n / 262144) as Byte, (0x80 + n / 4096 % 64) as Byte, (0x80 + n / 64 % 64) as Byte,
        (0x80 + n % 64) as Byte]
  }

  function EncodeUtf8(s: string): seq<Byte> {
    if s == "" then [] else EncodeChar(s[0]) + EncodeUtf8(s[1..])
  }

  predicate Continuation(b: Byte) {
    0x80 <= b < 0xC0
  }

  predicate Scalar(n: int) {
    0 <= n < 0xD800 || 0xE000 <= n < 0x110000
  }

  const REPLACEMENT: char := '\U{FFFD}'

  /** The first character and how many bytes it takes; U+FFFD for a byte that starts nothing valid. */
  function FirstChar(b: seq<Byte>): (char, nat)
    requires b != []
    ensures 1 <= FirstChar(b).1 <= |b|
    ensures b[0] >= 0x80 ==> FirstChar(b).0 as int >= 0x80
  {
    if b[0] < 0x80 then (b[0] as int as char, 1)
    else if 0xC2 <= b[0] < 0xE0 && |b| >= 2 && Continuation(b[1]) then
      (((b[0] as int - 0xC0) * 64 + (b[1] as int - 0x80)) as char, 2)
    else if 0xE0 <= b[0] < 0xF0 && |b| >= 3 && Continuation(b[1]) && Continuation(b[2]) then
      var n := (b[0] as int - 0xE0) * 4096 + (b[1] as int - 0x80) * 64 + (b[2] as int - 0x80);
      if n >= 0x800 && Scalar(n) then (n as char, 3) else (REPLACEMENT, 1)
    else if 0xF0 <= b[0] < 0xF5 && |b| >= 4 && Continuation(b[1]) && Continuation(b[2]) && Continuation(b[3]) then
      var n := (b[0] as int - 0xF0) * 262144 + (b[1] as int - 0x80) * 4096 + (b[2] as int - 0x80) * 64
          + (b[3] as int - 0x80);
      if n >= 0x10000 && Scalar(n) then (n as char, 4) else (REPLACEMENT, 1)
    else (REPLACEMENT, 1)
  }

  function DecodeUtf8(b: seq<Byte>): string
    decreases |b|
  {
    if b == [] then "" else [FirstChar(b).0] + DecodeUtf8(b[FirstChar(b).1..])
  }

  lemma TwoBytes(n: int)
    requires 0x80 <= n < 0x800
    ensures 0xC2 <= 0xC0 + n / 64 < 0xE0 && 0x80 <= 0x80 + n % 64 < 0xC0
    ensures (0xC0 + n / 64 - 0xC0) * 64 + (0x80 + n % 64 - 0x80) == n
  {}

  lemma ThreeBytes(n: int)
    requires 0x800 <= n < 0x10000
    ensures 0xE0 <= 0xE0 + n / 4096 < 0xF0 && 0x80 <= 0x80 + n / 64 % 64 < 0xC0 && 0x80 <= 0x80 + n % 64 < 0xC0
    ensures n / 4096 * 4096 + n / 64 % 64 * 64 + n % 64 == n
  {
    assert n / 64 / 64 == n / 4096;
  }

  lemma FourBytes(n: int)
    requires 0x10000 <= n < 0x110000
    ensures 0xF0 <= 0xF0 + n / 262144 < 0xF5 && 0x80 <= 0x80 + n / 4096 % 64 < 0xC0
    ensures 0x80 <= 0x80 + n / 64 % 64 < 0xC0 && 0x80 <= 0x80 + n % 64 < 0xC0
    ensures n / 262144 * 262144 + n / 4096 % 64 * 4096 + n / 64 % 64 * 64 + n % 64 == n
  {
    assert n / 64 / 64 == n / 4096 && n / 4096 / 64 == n / 262144;
  }

  lemma FirstCharOfEncoding(c: char, rest: seq<Byte>)
    ensures FirstChar(EncodeChar(c) + rest) == (c, |EncodeChar(c)|)
  {
    var n := c as int;
    var e := EncodeChar(c);
    var b := e + rest;
    assert forall i :: 0 <= i < |e| ==> b[i] == e[i];
    if 0x80 <= n < 0x800 {
      TwoBytes(n);
    } else if 0x800 <= n < 0x10000 {
      ThreeBytes(n);
      assert (b[0] as int - 0xE0) * 4096 + (b[1] as int - 0x80) * 64 + (b[2] as int - 0x80) == n;
    } else if 0x10000 <= n {
      FourBytes(n);
      assert (b[0] as int - 0xF0) * 262144 + (b[1] as int - 0x80) * 4096 + (b[2] as int - 0x80) * 64
          + (b[3] as int - 0x80) == n;
    }
  }

  lemma {:induction false} Utf8RoundTrip(s: string)
    ensures DecodeUtf8(EncodeUtf8(s)) == s
  {
    if s != "" {
      Utf8RoundTrip(s[1..]);
      FirstCharOfEncoding(s[0], EncodeUtf8(s[1..]));
      var b := EncodeUtf8(s);
      assert b[|EncodeChar(s[0])|..] == EncodeUtf8(s[1..]);
    }
  }

  // ---- base64url, section 5 of RFC 4648 ----

  const ALPHABET: string := "ABCDEFGHIJKLMNOPQRSTUVWXYZabcdefghijklmnopqrstuvwxyz0123456789-_"

  type Sextet = n: int | 0 <= n < 64

  function SextetChar(n: Sextet): (c: char)
    ensures ValueOf(c) == Some(n)
  {
    if n < 26 then ('A' as int + n) as char
    else if n < 52 then ('a' as int + n - 26) as char
    else if n < 62 then ('0' as int + n - 52) as char
    else if n == 62 then '-'
    else '_'
  }

  /** Decoding also takes the two characters of plain base64 and passes over all others. */
  function ValueOf(c: char): Option<Sextet> {
    if 'A' <= c <= 'Z' then Some(c as int - 'A' as int)
    else if 'a' <= c <= 'z' then Some(c as int - 'a' as int + 26)
    else if '0' <= c <= '9' then Some(c as int - '0' as int + 52)
    else if c == '-' || c == '+' then Some(62)
    else if c == '_' || c == '/' then Some(63)
    else None
  }

  function Pack(b: seq<Byte>): seq<Sextet>
    decreases |b|
  {
    if b == [] then []
    else if |b| == 1 then [b[0] as int / 4, b[0] as int % 4 * 16]
    else if |b| == 2 then [b[0] as int / 4, b[0] as int % 4 * 16 + b[1] as int / 16, b[1] as int % 16 * 4]
    else
      [b[0] as int / 4, b[0] as int % 4 * 16 + b[1] as int / 16, b[1] as int % 16 * 4 + b[2] as int / 64,
          b[2] as int % 64]
      + Pack(b[3..])
  }

  function Octet0(a: int, b: int): Byte
    requires 0 <= a < 64 && 0 <= b < 64
  {
    (a * 4 + b / 16) as Byte
  }

  function Octet1(b: int, c: int): Byte
    requires 0 <= b < 64 && 0 <= c < 64
  {
    (b % 16 * 16 + c / 4) as Byte
  }

  function Octet2(c: int, d: int): Byte
    requires 0 <= c < 64 && 0 <= d < 64
  {
    (c % 4 * 64 + d) as Byte
  }

  function Unpack(s: seq<Sextet>): seq<Byte>
    decreases |s|
  {
    if |s| < 2 then []
    else if |s| == 2 then [Octet0(s[0], s[1])]
    else if |s| == 3 then [Octet0(s[0], s[1]), Octet1(s[1], s[2])]
    else
      [Octet0(s[0], s[1]), Octet1(s[1], s[2]), Octet2(s[2], s[3])]
      + Unpack(s[4..])
  }

  function Print(s: seq<Sextet>): string {
    if s == [] then "" else [SextetChar(s[0])] + Print(s[1..])
  }

  function Sextets(raw: string): seq<Sextet> {
    if raw == "" then []
    else
      var v := ValueOf(raw[0]);
      if v.Some? then [v.value] + Sextets(raw[1..]) else Sextets(raw[1..])
  }

  function ToBase64Url(b: seq<Byte>): string {
    Print(Pack(b))
  }

  function FromBase64Url(raw: string): seq<Byte> {
    Unpack(Sextets(raw))
  }

  lemma {:induction false} PrintRoundTrip(s: seq<Sextet>)
    ensures Sextets(Print(s)) == s
  {
    if s != [] {
      PrintRoundTrip(s[1..]);
      assert Print(s)[1..] == Print(s[1..]);
    }
  }

  lemma {:induction false} PackRoundTrip(b: seq<Byte>)
    ensures Unpack(Pack(b)) == b
    decreases |b|
  {
    if |b| >= 3 {
      PackRoundTrip(b[3..]);
      var s := Pack(b);
      assert s[4..] == Pack(b[3..]);
      assert Octet0(s[0], s[1]) == b[0];
      assert Octet1(s[1], s[2]) == b[1];
      assert Octet2(s[2], s[3]) == b[2];
      assert b == [b[0], b[1], b[2]] + b[3..];
    } else if |b| == 2 {
      var s := Pack(b);
      assert Octet0(s[0], s[1]) == b[0];
      assert Octet1(s[1], s[2]) == b[1];
    }
  }

  /** Decoding inverts encoding on all bytes. */
  lemma Base64RoundTrip(b: seq<Byte>)
    ensures FromBase64Url(ToBase64Url(b)) == b
  {
    PrintRoundTrip(Pack(b));
    PackRoundTrip(b);
  }

  /** What starts with a digit, '+' or '-' decodes to nothing or to bytes that start at 0xD0 or above. */
  lemma LateFirstByte(raw: string)
    requires raw != "" && ('0' <= raw[0] <= '9' || raw[0] == '+' || raw[0] == '-')
    ensures FromBase64Url(raw) != [] ==> FromBase64Url(raw)[0] >= 0xD0
  {
    var s := Sextets(raw);
    assert s[0] >= 52;
  }

  /** Test vectors of section 10 of RFC 4648, without padding, and the two characters of section 5. */
  lemma Vectors()
    ensures ToBase64Url([0x66]) == "Zg"
    ensures ToBase64Url([0x66, 0x6F]) == "Zm8"
    ensures ToBase64Url([0x66, 0x6F, 0x6F]) == "Zm9v"
    ensures ToBase64Url([0x66, 0x6F, 0x6F, 0x62]) == "Zm9vYg"
    ensures ToBase64Url([0xFB, 0xFF]) == "-_8"
  {
    assert [0x66 as Byte, 0x6F, 0x6F, 0x62][3..] == [0x62];
    assert [0x66 as Byte, 0x6F, 0x6F][3..] == [];
  }

  /** Examples of section 7 of RFC 3629. */
  lemma Utf8Examples()
    ensures EncodeUtf8("A") == [0x41]
    ensures EncodeUtf8("\U{0391}") == [0xCE, 0x91]
    ensures EncodeUtf8("\U{2262}") == [0xE2, 0x89, 0xA2]
    ensures EncodeUtf8("\U{233B4}") == [0xF0, 0xA3, 0x8E, 0xB4]
  {}
}
