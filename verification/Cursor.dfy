/** The opaque pagination cursor: base64url of a JSON object, with bare ISO dates still understood. */
module Cursor {
  import opened Common
  import opened Utf8Base64
  import opened JsonText

  /** `new Date(s)`: the ISO form of the instant, or None for an invalid date. */
  type Dates = string -> Option<string>

  datatype Decoded = InvalidCursor | Cursor(createdAt: string, id: Option<string>)

  const CREATED_AT: string := "createdAt"
  const ID: string := "id"

  /** `JSON.stringify({ createdAt, id })`; `iso` is the date's ISO form. */
  function CursorJson(iso: string, id: string): string {
    PairText(CREATED_AT, iso, ID, id)
  }

  function EncodeCursor(iso: string, id: string): string {
    ToBase64Url(EncodeUtf8(CursorJson(iso, id)))
  }

  /** The text inside a token: an object of the two names, in this order, with the two values quoted. */
  lemma CursorText(iso: string, id: string)
    ensures CursorJson(iso, id)
            == "{\"" + "createdAt" + "\":" + Quote(iso) + ",\"" + "id" + "\":" + Quote(id) + "}"
  {
    PlainPair("createdAt", iso, "id", id);
  }

  predicate Plain(s: string) {
    forall i :: 0 <= i < |s| ==> 'A' <= s[i] <= 'z' && s[i] != '\\'
  }

  lemma PlainPair(k1: string, s1: string, k2: string, s2: string)
    requires Plain(k1) && Plain(k2)
    ensures PairText(k1, s1, k2, s2) == "{\"" + k1 + "\":" + Quote(s1) + ",\"" + k2 + "\":" + Quote(s2) + "}"
  {
    Unescaped(k1);
    Unescaped(k2);
  }

  lemma Unescaped(s: string)
    requires Plain(s)
    ensures Escape(s) == s
  {
    if s != "" { Unescaped(s[1..]); }
  }

  /** The members of a parsed token that is an object with a string `createdAt`. */
  function Composite(parsed: Option<Json>): Option<seq<(string, Json)>> {
    if parsed.Some? && parsed.value.Object?
       && Member(parsed.value.members, CREATED_AT).Some? && Member(parsed.value.members, CREATED_AT).value.Text?
    then Some(parsed.value.members) else None
  }

  function ParseToken(raw: string): Option<Json> {
    Parse(DecodeUtf8(FromBase64Url(raw)))
  }

  function FromMembers(m: seq<(string, Json)>, dates: Dates): Decoded
    requires Member(m, CREATED_AT).Some? && Member(m, CREATED_AT).value.Text?
  {
    var createdAt, id := Member(m, CREATED_AT).value.s, Member(m, ID);
    if dates(createdAt).None? then InvalidCursor
    else Cursor(createdAt, if id.Some? && id.value.Text? then Some(id.value.s) else None)
  }

  function DecodeCursor(raw: string, dates: Dates): Decoded {
    var m := Composite(ParseToken(raw));
    if m.Some? then FromMembers(m.value, dates)
    else if dates(raw).Some? then Cursor(dates(raw).value, None)
    else InvalidCursor
  }

  /** Any object of two string members survives the trip through bytes and base64url. */
  lemma PairTravels(k1: string, s1: string, k2: string, s2: string)
    ensures ParseToken(ToBase64Url(EncodeUtf8(PairText(k1, s1, k2, s2))))
            == Some(Object([(k1, Text(s1)), (k2, Text(s2))]))
  {
    var json := PairText(k1, s1, k2, s2);
    Base64RoundTrip(EncodeUtf8(json));
    Utf8RoundTrip(json);
    ParsePair(k1, s1, k2, s2);
  }

  /** A cursor decodes to exactly the date and id it was made from, whatever the id. */
  lemma CursorRoundTrip(iso: string, id: string, dates: Dates)
    requires dates(iso).Some?
    ensures DecodeCursor(EncodeCursor(iso, id), dates) == Cursor(iso, Some(id))
  {
    PairTravels(CREATED_AT, iso, ID, id);
    PairMembers(CREATED_AT, Text(iso), ID, Text(id));
    var m := [(CREATED_AT, Text(iso)), (ID, Text(id))];
    assert Composite(Some(Object(m))) == Some(m);
    assert FromMembers(m, dates) == Cursor(iso, Some(id));
  }

  /** Cursors are equal only for the same row. */
  lemma CursorInjective(iso: string, id: string, iso': string, id': string)
    ensures EncodeCursor(iso, id) == EncodeCursor(iso', id') <==> iso == iso' && id == id'
  {
    var dates: Dates := s => Some(s);
    CursorRoundTrip(iso, id, dates);
    CursorRoundTrip(iso', id', dates);
  }

  /**
   * A legacy cursor is a bare ISO date, which starts with a digit or, for expanded years, a sign. It is never
   * mistaken for a token: read as base64url it can only start with a byte of 0xD0 or above, and no JSON text does.
   */
  lemma LegacyNeverComposite(raw: string, dates: Dates)
    requires raw != "" && ('0' <= raw[0] <= '9' || raw[0] == '+' || raw[0] == '-')
    ensures Composite(ParseToken(raw)) == None
    ensures DecodeCursor(raw, dates) == if dates(raw).Some? then Cursor(dates(raw).value, None) else InvalidCursor
  {
    LateFirstByte(raw);
    var b := FromBase64Url(raw);
    if b == [] {
      EmptyText();
    } else {
      var text := DecodeUtf8(b);
      assert text[0] == FirstChar(b).0;
      AsciiStart(text);
    }
  }
}
