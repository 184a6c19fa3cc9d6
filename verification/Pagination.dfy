/** The opaque page cursor: its text form, and that decoding inverts it. */
module Pagination {
  import B = Base64url
  import opened Text
  import opened Json
  import opened Encodings
  import opened HashedBytes
  import opened Jcs

  datatype Cursor = Cursor(createdAt: SafeInt, id: Units)

  /** TextDecoder and JSON.parse. */
  datatype Platform = Platform(textDecode: seq<B.Byte> -> Units, jsonParse: Units -> Option<Value>)

  const CREATED_AT: Units := [99, 114, 101, 97, 116, 101, 100, 95, 97, 116]
  const ID: Units := [105, 100]

  function Payload(c: Cursor): Value { Obj([Entry(CREATED_AT, Num(c.createdAt)), Entry(ID, Str(c.id))]) }

  function EncodeCursor(c: Cursor): string { B.Encode(TextEncode(Print(Payload(c)))) }

  function Member(entries: seq<Entry>, key: Units): Value {
    if entries == [] then Undefined
    else if entries[0].key == key then entries[0].value
    else Member(entries[1..], key)
  }

  /** None for a cursor that is not base64url, not JSON or not of the right shape. */
  function DecodeCursor(p: Platform, cursor: string): Option<Cursor> {
    match B.Decode(cursor)
    case None => None
    case Some(bytes) =>
      match p.jsonParse(p.textDecode(bytes))
      case Some(Obj(entries)) =>
        var createdAt, id := Member(entries, CREATED_AT), Member(entries, ID);
        if createdAt.Num? && id.Str? then Some(Cursor(createdAt.n, id.s)) else None
      case _ => None
  }

  /**
    What is asked of the two: the decoder undoes the encoder on text that does not begin with
    a byte order mark, and the parser recovers every cursor payload from its own text.
  */
  ghost predicate Standard(p: Platform) {
    && (forall s: Scalars :: (s == [] || s[0] != BYTE_ORDER_MARK) ==> p.textDecode(Utf8(s)) == Utf16(s))
    && (forall c: Cursor :: p.jsonParse(Print(Payload(c))) == Some(Payload(c)))
  }

  const BYTE_ORDER_MARK := 0xFEFF

  /** Whatever the id contains, a decoded cursor is the one that was encoded. */
  lemma CursorRoundTrip(p: Platform, c: Cursor)
    requires Standard(p)
    ensures DecodeCursor(p, EncodeCursor(c)) == Some(c)
  {
    var v := Payload(c);
    var text := Print(v);
    assert CREATED_AT[0] != ID[0];
    assert p.jsonParse(text) == Some(v);
    B.RoundTrip(TextEncode(text));
    PayloadText(c);
    assert p.textDecode(TextEncode(text)) == text;
    hide B.Decode, B.Encode, Print, TextEncode;
    assert Member(v.entries[1..], ID) == Str(c.id);
  }

  /** A payload's text has no lone surrogate and begins with a brace. */
  lemma PayloadText(c: Cursor)
    ensures var text := Print(Payload(c));
            Utf16(Decode16(text)) == text && Decode16(text) != [] && Decode16(text)[0] == OPEN_BRACE
  {
    var text := Print(Payload(c));
    PrintNoLone(Payload(c));
    EncodeDecoded(text);
    assert text[0] == OPEN_BRACE;
  }

  /** Some inverse of the encoder. */
  ghost function Undo(bytes: seq<B.Byte>): Units {
    if exists s: Scalars :: Utf8(s) == bytes then (var s: Scalars :| Utf8(s) == bytes; Utf16(s)) else []
  }

  /** The reader of printed values. */
  function ReadWhole(t: Units): Option<Value> {
    var r := ReadValue(t);
    if r.Some? && r.value.1 == [] then Some(r.value.0) else None
  }

  lemma UndoInverts(s: Scalars)
    ensures Undo(Utf8(s)) == Utf16(s)
  {
    hide Encode;
    forall t: Scalars | Utf8(t) == Utf8(s) ensures t == s { EncodingsInjective(t, s); }
  }

  lemma PayloadReads(c: Cursor)
    ensures ReadWhole(Print(Payload(c))) == Some(Payload(c))
  {
    var v := Payload(c);
    EntriesCleanAll(v.entries);
    ValueReads(v, []);
    assert Print(v) + [] == Print(v);
    hide ReadValue, Print;
  }

  /** A platform that meets this exists. */
  lemma StandardExists()
    ensures exists p :: Standard(p)
  {
    hide Undo, ReadWhole, Print;
    var p := Platform(bytes => Undo(bytes), ReadWhole);
    forall s: Scalars ensures p.textDecode(Utf8(s)) == Utf16(s) { UndoInverts(s); }
    forall c: Cursor ensures p.jsonParse(Print(Payload(c))) == Some(Payload(c)) { PayloadReads(c); }
    assert Standard(p);
  }

  lemma CursorNotEmpty(c: Cursor)
    ensures EncodeCursor(c) != ""
  {
    PayloadText(c);
    hide Decode16, Print, B.Encode;
    B.EncodeShape(TextEncode(Print(Payload(c))));
  }
}
