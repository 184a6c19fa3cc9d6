/** The Python and Go canonicalisers in their own form, and when all three SDKs agree. */
module SdkTexts {
  import opened Order
  import opened Json
  import opened Encodings
  import opened Canonicalisers
  import opened HashedBytes
  import Jcs

  // ---- Python: a recursion over sorted keys ----

  datatype Pair = Pair(key: Scalars, text: Scalars)

  function PairKey(): Pair -> seq<int> { (p: Pair) => p.key }

  function JcsCanonicalize(v: SValue): Scalars {
    match v
    case SNull => Plain(NULL_TEXT)
    case SBool(b) => if b then Plain(TRUE_TEXT) else Plain(FALSE_TEXT)
    case SNum(n) => DecimalText(n)
    case SStr(s) => Quoted(s)
    case SArr(elems) => [OPEN_BRACKET] + JoinTexts(Elements(elems)) + [CLOSE_BRACKET]
    case SObj(entries) => [OPEN_BRACE] + JoinTexts(Map(PairText, Sort(Pairs(entries), PairKey()))) + [CLOSE_BRACE]
  }

  function Elements(elems: seq<SValue>): (r: seq<Scalars>)
    ensures |r| == |elems| && forall i :: 0 <= i < |elems| ==> r[i] == JcsCanonicalize(elems[i])
  {
    if elems == [] then [] else [JcsCanonicalize(elems[0])] + Elements(elems[1..])
  }

  function Pairs(entries: seq<SEntry>): (r: seq<Pair>)
    ensures |r| == |entries|
    ensures forall i :: 0 <= i < |entries| ==> r[i] == Pair(entries[i].key, JcsCanonicalize(entries[i].value))
  {
    if entries == [] then [] else [Pair(entries[0].key, JcsCanonicalize(entries[0].value))] + Pairs(entries[1..])
  }

  function PairText(p: Pair): Scalars { Quoted(p.key) + [COLON] + p.text }

  /** `",".join(parts)` */
  function JoinTexts(parts: seq<Scalars>): Scalars {
    if parts == [] then []
    else if |parts| == 1 then parts[0]
    else parts[0] + [COMMA] + JoinTexts(parts[1..])
  }

  function Printed(e: SEntry): Pair { Pair(e.key, Shown(e.value)) }

  lemma {:induction false} JoinsElems(elems: seq<SValue>, parts: seq<Scalars>)
    requires |parts| == |elems| && forall i :: 0 <= i < |elems| ==> parts[i] == Shown(elems[i])
    ensures JoinTexts(parts) == ShownElems(elems)
    decreases |elems|
  {
    hide Shown;
    if |elems| > 1 { JoinsElems(elems[1..], parts[1..]); }
  }

  lemma {:induction false} JoinsEntries(entries: seq<SEntry>, parts: seq<Scalars>)
    requires |parts| == |entries| && forall i :: 0 <= i < |entries| ==> parts[i] == ShownEntry(entries[i])
    ensures JoinTexts(parts) == ShownEntries(entries)
    decreases |entries|
  {
    hide ShownEntry;
    if |entries| > 1 { JoinsEntries(entries[1..], parts[1..]); }
  }

  /** Python prints the value with its keys sorted by code point. */
  lemma {:induction false} PythonSortsByCodePoint(v: SValue)
    ensures JcsCanonicalize(v) == Shown(Ordered(v, CodePoints()))
    decreases v
  {
    match v {
      case SArr(elems) =>
        forall i | 0 <= i < |elems| ensures JcsCanonicalize(elems[i]) == Shown(Ordered(elems[i], CodePoints())) {
          PythonSortsByCodePoint(elems[i]);
        }
        JoinsElems(OrderedAll(elems, CodePoints()), Elements(elems));
      case SObj(entries) =>
        forall i | 0 <= i < |entries| ensures JcsCanonicalize(entries[i].value) == Shown(Ordered(entries[i].value, CodePoints())) {
          PythonSortsByCodePoint(entries[i].value);
        }
        PairsSorted(entries);
      case _ =>
    }
  }

  lemma PairsSorted(entries: seq<SEntry>)
    requires forall i :: 0 <= i < |entries| ==> JcsCanonicalize(entries[i].value) == Shown(Ordered(entries[i].value, CodePoints()))
    ensures JoinTexts(Map(PairText, Sort(Pairs(entries), PairKey())))
         == ShownEntries(Sort(OrderedEntries(entries, CodePoints()), KeyBy(CodePoints())))
  {
    hide JcsCanonicalize, Shown, Ordered;
    var s := OrderedEntries(entries, CodePoints());
    assert Pairs(entries) == Map(Printed, s);
    SortMapped(s, Printed, KeyBy(CodePoints()), PairKey());
    var t := Sort(s, KeyBy(CodePoints()));
    JoinsEntries(t, Map(PairText, Map(Printed, t)));
  }

  // ---- Go: a builder ----

  class Builder {
    var bytes: seq<int>

    constructor ()
      ensures bytes == []
    {
      bytes := [];
    }

    method WriteByte(c: int)
      modifies this
      ensures bytes == old(bytes) + [c]
    {
      bytes := bytes + [c];
    }

    method WriteString(s: seq<int>)
      modifies this
      ensures bytes == old(bytes) + s
    {
      bytes := bytes + s;
    }

    method WriteRune(r: Scalar)
      modifies this
      ensures bytes == old(bytes) + Utf8Char(r)
    {
      bytes := bytes + Utf8Char(r);
    }
  }

  method JcsWriteString(b: Builder, s: Scalars)
    modifies b
    ensures b.bytes == old(b.bytes) + Utf8(Quoted(s))
  {
    NothingEscaped();
    hide Encode, Escaped, EscapeChar, EscapeUnit, Utf8Char, ShortEscape, Hex4;
    b.WriteByte(QUOTE);
    assert s[..0] == [];
    for i := 0 to |s|
      invariant b.bytes == old(b.bytes) + [QUOTE] + Utf8(Escaped(s[..i]))
    {
      var r := s[i];
      EscapedCharInUtf8(r);
      EscapedGrows(s, i);
      if r < 0x80 && ShortEscape(r).Some? {
        b.WriteString([BACKSLASH, ShortEscape(r).value]);
      } else if r < 0x20 {
        b.WriteString([BACKSLASH, LETTER_U] + Hex4(r));
      } else {
        b.WriteRune(r);
      }
    }
    assert s[..|s|] == s;
    b.WriteByte(QUOTE);
    QuotedBytes(s);
  }

  lemma NothingEscaped()
    ensures Utf8(Escaped([])) == []
  {
  }

  lemma QuotedBytes(s: Scalars)
    ensures Utf8(Quoted(s)) == [QUOTE] + Utf8(Escaped(s)) + [QUOTE]
  {
    Wrapped(Utf8Char, QUOTE, Escaped(s), QUOTE);
  }

  lemma EscapedCharInUtf8(r: Scalar)
    ensures Utf8(EscapeChar(r))
         == if r < 0x80 && ShortEscape(r).Some? then [BACKSLASH, ShortEscape(r).value]
            else if r < 0x20 then [BACKSLASH, LETTER_U] + Hex4(r)
            else Utf8Char(r)
  {
    if r < 0x80 {
      EscapedCharInUtf16(r);
      PlainUnits(Plain(EscapeUnit(r)));
    } else {
      EncodeOne(Utf8Char, r);
    }
  }

  lemma EscapedGrows(s: Scalars, i: nat)
    requires i < |s|
    ensures Utf8(Escaped(s[..i + 1])) == Utf8(Escaped(s[..i])) + Utf8(EscapeChar(s[i]))
  {
    assert s[..i + 1] == s[..i] + [s[i]];
    EncodeConcat(EscapeChar, s[..i], [s[i]]);
    EncodeOne(EscapeChar, s[i]);
    EncodeConcat(Utf8Char, Escaped(s[..i]), EscapeChar(s[i]));
  }

  /** What Go has written once every key is sorted by its bytes. */
  function GoText(v: SValue): seq<int> { Utf8(Shown(Ordered(v, Bytes()))) }

  lemma {:induction false} ShownElemsAppend(elems: seq<SValue>, e: SValue)
    ensures ShownElems(elems + [e]) == (if elems == [] then [] else ShownElems(elems) + [COMMA]) + Shown(e)
    decreases |elems|
  {
    hide Shown;
    if elems == [] {
      assert elems + [e] == [e];
    } else {
      assert (elems + [e])[1..] == elems[1..] + [e];
      ShownElemsAppend(elems[1..], e);
    }
  }

  lemma {:induction false} ShownEntriesAppend(entries: seq<SEntry>, e: SEntry)
    ensures ShownEntries(entries + [e]) == (if entries == [] then [] else ShownEntries(entries) + [COMMA]) + ShownEntry(e)
    decreases |entries|
  {
    hide ShownEntry;
    if entries == [] {
      assert entries + [e] == [e];
    } else {
      assert (entries + [e])[1..] == entries[1..] + [e];
      ShownEntriesAppend(entries[1..], e);
    }
  }

  lemma ElemWritten(elems: seq<SValue>, e: SValue)
    ensures Utf8(ShownElems(elems + [e])) == Utf8(ShownElems(elems)) + (if elems == [] then [] else [COMMA]) + Utf8(Shown(e))
  {
    ShownElemsAppend(elems, e);
    if elems != [] { Joined(Utf8Char, ShownElems(elems), COMMA, Shown(e)); }
  }

  lemma EntryWritten(entries: seq<SEntry>, e: SEntry)
    ensures Utf8(ShownEntries(entries + [e]))
         == Utf8(ShownEntries(entries)) + (if entries == [] then [] else [COMMA]) + Utf8(Quoted(e.key)) + [COLON] + Utf8(Shown(e.value))
  {
    ShownEntriesAppend(entries, e);
    EntryBytes(e);
    if entries != [] { Joined(Utf8Char, ShownEntries(entries), COMMA, ShownEntry(e)); }
    hide ShownEntries, ShownEntry, Shown, Quoted, Encode;
  }

  lemma EntryBytes(e: SEntry)
    ensures Utf8(ShownEntry(e)) == Utf8(Quoted(e.key)) + [COLON] + Utf8(Shown(e.value))
  {
    hide Shown, Quoted, Encode;
    Joined(Utf8Char, Quoted(e.key), COLON, Shown(e.value));
  }

  /** Sorting the entries and then their values, or the other way round. */
  lemma GoEntriesSorted(entries: seq<SEntry>)
    ensures OrderedEntries(Sort(entries, KeyBy(Bytes())), Bytes()) == Sort(OrderedEntries(entries, Bytes()), KeyBy(Bytes()))
  {
    assert OrderedEntries(entries, Bytes()) == Map(OrderedEntry, entries);
    SortMapped(entries, OrderedEntry, KeyBy(Bytes()), KeyBy(Bytes()));
  }

  function OrderedEntry(e: SEntry): SEntry { SEntry(e.key, Ordered(e.value, Bytes())) }

  method JcsWrite(b: Builder, value: SValue)
    modifies b
    ensures b.bytes == old(b.bytes) + GoText(value)
    decreases value
  {
    match value {
      case SNull =>
        b.WriteString(NULL_TEXT);
        PlainUnits(Plain(NULL_TEXT));
      case SBool(v) =>
        b.WriteString(if v then TRUE_TEXT else FALSE_TEXT);
        PlainUnits(Plain(TRUE_TEXT));
        PlainUnits(Plain(FALSE_TEXT));
      case SNum(n) =>
        b.WriteString(DecimalUnits(n));
        PlainUnits(DecimalText(n));
      case SStr(s) =>
        JcsWriteString(b, s);
      case SArr(elems) =>
        WriteArray(b, value);
      case SObj(entries) =>
        WriteObject(b, value);
    }
  }

  method WriteArray(b: Builder, value: SValue)
    requires value.SArr?
    modifies b
    ensures b.bytes == old(b.bytes) + GoText(value)
    decreases value, 0
  {
    NothingWritten();
    hide Shown, Encode, Utf8Char, ShownElems;
    var elems := value.elems;
    ghost var ordered := OrderedAll(elems, Bytes());
    assert ordered[..0] == [];
    b.WriteByte(OPEN_BRACKET);
    for i := 0 to |elems|
      invariant b.bytes == old(b.bytes) + [OPEN_BRACKET] + Utf8(ShownElems(ordered[..i]))
    {
      if i > 0 {
        b.WriteByte(COMMA);
      }
      JcsWrite(b, elems[i]);
      assert ordered[..i + 1] == ordered[..i] + [ordered[i]];
      ElemWritten(ordered[..i], ordered[i]);
    }
    b.WriteByte(CLOSE_BRACKET);
    assert ordered[..|elems|] == ordered;
    ArrayText(value);
  }

  lemma ArrayText(value: SValue)
    requires value.SArr?
    ensures GoText(value) == [OPEN_BRACKET] + Utf8(ShownElems(OrderedAll(value.elems, Bytes()))) + [CLOSE_BRACKET]
  {
    Wrapped(Utf8Char, OPEN_BRACKET, ShownElems(OrderedAll(value.elems, Bytes())), CLOSE_BRACKET);
  }

  lemma ObjectText(value: SValue)
    requires value.SObj?
    ensures GoText(value)
         == [OPEN_BRACE] + Utf8(ShownEntries(OrderedEntries(Sort(value.entries, KeyBy(Bytes())), Bytes()))) + [CLOSE_BRACE]
  {
    GoEntriesSorted(value.entries);
    Wrapped(Utf8Char, OPEN_BRACE, ShownEntries(OrderedEntries(Sort(value.entries, KeyBy(Bytes())), Bytes())), CLOSE_BRACE);
  }

  method WriteObject(b: Builder, value: SValue)
    requires value.SObj?
    modifies b
    ensures b.bytes == old(b.bytes) + GoText(value)
    decreases value, 0
  {
    NothingWritten();
    hide Shown, Encode, Quoted, Sort, Utf8Char, ShownEntries;
    var sorted := Sort(value.entries, KeyBy(Bytes()));
    ghost var ordered := OrderedEntries(sorted, Bytes());
    assert ordered[..0] == [];
    b.WriteByte(OPEN_BRACE);
    var first := true;
    for i := 0 to |sorted|
      invariant first == (i == 0)
      invariant b.bytes == old(b.bytes) + [OPEN_BRACE] + Utf8(ShownEntries(ordered[..i]))
    {
      SortedMember(value.entries, i);
      var e := sorted[i];
      assert e.value < value by {
        var k :| 0 <= k < |value.entries| && value.entries[k] == e;
      }
      if !first {
        b.WriteByte(COMMA);
      }
      first := false;
      JcsWriteString(b, e.key);
      b.WriteByte(COLON);
      JcsWrite(b, e.value);
      EntryAdded(ordered, i);
    }
    b.WriteByte(CLOSE_BRACE);
    assert ordered[..|sorted|] == ordered;
    ObjectText(value);
  }

  lemma NothingWritten()
    ensures Utf8(ShownEntries([])) == [] && Utf8(ShownElems([])) == []
  {
  }

  lemma SortedMember(entries: seq<SEntry>, i: nat)
    requires i < |Sort(entries, KeyBy(Bytes()))|
    ensures Sort(entries, KeyBy(Bytes()))[i] in entries
  {
    SortMember(entries, KeyBy(Bytes()), Sort(entries, KeyBy(Bytes()))[i]);
  }

  lemma EntryAdded(ordered: seq<SEntry>, i: nat)
    requires i < |ordered|
    ensures Utf8(ShownEntries(ordered[..i + 1]))
         == Utf8(ShownEntries(ordered[..i])) + (if i == 0 then [] else [COMMA])
            + Utf8(Quoted(ordered[i].key)) + [COLON] + Utf8(Shown(ordered[i].value))
  {
    assert ordered[..i + 1] == ordered[..i] + [ordered[i]];
    EntryWritten(ordered[..i], ordered[i]);
  }

  method JcsCanonicalise(value: SValue) returns (text: seq<int>)
    ensures text == GoText(value)
  {
    var b := new Builder();
    JcsWrite(b, value);
    text := b.bytes;
  }

  // ---- When they agree ----

  /** The bytes each implementation hashes or signs. */
  function PythonBytes(v: SValue): seq<int> { Utf8(JcsCanonicalize(v)) }

  function NodeBytes(v: SValue): seq<int> { TextEncode(Jcs.Canon(ToNode(v))) }

  lemma NodeShows(v: SValue)
    ensures NodeBytes(v) == Utf8(Shown(Ordered(v, Units16())))
  {
    NodeOrdered(v);
    ShownInUtf16(Ordered(v, Units16()));
    DecodeEncoded(Shown(Ordered(v, Units16())));
  }

  /** No object has two keys whose first difference straddles the end of the basic plane. */
  ghost predicate NoCrossing(v: SValue) {
    match v
    case SArr(elems) => forall i :: 0 <= i < |elems| ==> NoCrossing(elems[i])
    case SObj(entries) =>
      && (forall i, j :: 0 <= i < |entries| && 0 <= j < |entries| ==> !Crosses(entries[i].key, entries[j].key))
      && forall i :: 0 <= i < |entries| ==> NoCrossing(entries[i].value)
    case _ => true
  }

  lemma {:induction false} CrossingDecides(v: SValue)
    ensures NoCrossing(v) <==> Agree(CodePoints(), Units16(), v)
    decreases v
  {
    match v {
      case SArr(elems) =>
        forall i | 0 <= i < |elems| ensures NoCrossing(elems[i]) <==> Agree(CodePoints(), Units16(), elems[i]) {
          CrossingDecides(elems[i]);
        }
      case SObj(entries) =>
        forall i | 0 <= i < |entries| ensures NoCrossing(entries[i].value) <==> Agree(CodePoints(), Units16(), entries[i].value) {
          CrossingDecides(entries[i].value);
        }
        forall i, j | 0 <= i < |entries| && 0 <= j < |entries|
          ensures Crosses(entries[i].key, entries[j].key) <==> !AgreeOn(CodePoints(), Units16(), entries[i].key, entries[j].key)
        {
          Utf16Order(entries[i].key, entries[j].key);
        }
      case _ =>
    }
  }

  lemma OrdersFaithful()
    ensures Canonicalisers.Faithful(CodePoints()) && Canonicalisers.Faithful(Units16()) && Canonicalisers.Faithful(Bytes())
  {
    forall a: Scalars, b: Scalars | Units16()(a) == Units16()(b) ensures a == b { EncodingsInjective(a, b); }
    forall a: Scalars, b: Scalars | Bytes()(a) == Bytes()(b) ensures a == b { EncodingsInjective(a, b); }
  }

  lemma {:induction false} BytesAgree(v: SValue)
    ensures Agree(CodePoints(), Bytes(), v)
    decreases v
  {
    match v {
      case SArr(elems) =>
        forall i | 0 <= i < |elems| ensures Agree(CodePoints(), Bytes(), elems[i]) { BytesAgree(elems[i]); }
      case SObj(entries) =>
        forall i | 0 <= i < |entries| ensures Agree(CodePoints(), Bytes(), entries[i].value) { BytesAgree(entries[i].value); }
        forall i, j | 0 <= i < |entries| && 0 <= j < |entries|
          ensures AgreeOn(CodePoints(), Bytes(), entries[i].key, entries[j].key)
        {
          Utf8KeepsOrder(entries[i].key, entries[j].key);
        }
      case _ =>
    }
  }

  /** Python and Go give the same bytes for every value. */
  lemma PythonIsGo(v: SValue)
    ensures PythonBytes(v) == GoText(v)
  {
    PythonSortsByCodePoint(v);
    BytesAgree(v);
    AgreeSuffices(v, CodePoints(), Bytes());
  }

  /**
    The server and the Node SDK give the same bytes as they do exactly when no object has two
    keys whose first difference is a character above U+FFFF against one from U+E000 to U+FFFF.
  */
  lemma NodeAgreesExactly(v: SValue)
    requires Canonicalisers.Proper(v)
    ensures NodeBytes(v) == PythonBytes(v) <==> NoCrossing(v)
  {
    NodeShows(v);
    PythonSortsByCodePoint(v);
    CrossingDecides(v);
    OrdersFaithful();
    var p, n := Ordered(v, CodePoints()), Ordered(v, Units16());
    if NoCrossing(v) {
      AgreeSuffices(v, CodePoints(), Units16());
    }
    if NodeBytes(v) == PythonBytes(v) {
      EncodingsInjective(Shown(n), Shown(p));
      ShownInjective(n, p);
      AgreeNecessary(v, CodePoints(), Units16());
    }
  }

  ghost predicate AllBmp(v: SValue) {
    match v
    case SStr(s) => Bmp(s)
    case SArr(elems) => forall i :: 0 <= i < |elems| ==> AllBmp(elems[i])
    case SObj(entries) => forall i :: 0 <= i < |entries| ==> Bmp(entries[i].key) && AllBmp(entries[i].value)
    case _ => true
  }

  lemma {:induction false} BmpNoCrossing(v: SValue)
    requires AllBmp(v)
    ensures NoCrossing(v)
    decreases v
  {
    match v {
      case SArr(elems) => forall i | 0 <= i < |elems| ensures NoCrossing(elems[i]) { BmpNoCrossing(elems[i]); }
      case SObj(entries) =>
        forall i | 0 <= i < |entries| ensures NoCrossing(entries[i].value) { BmpNoCrossing(entries[i].value); }
        forall i, j | 0 <= i < |entries| && 0 <= j < |entries| ensures !Crosses(entries[i].key, entries[j].key) {
          BmpNeverCrosses(entries[i].key, entries[j].key);
        }
      case _ =>
    }
  }

  /** In the basic plane all of them give the same bytes. */
  lemma AllAgreeInBmp(v: SValue)
    requires Canonicalisers.Proper(v) && AllBmp(v)
    ensures NodeBytes(v) == PythonBytes(v) == GoText(v)
  {
    BmpNoCrossing(v);
    NodeAgreesExactly(v);
    PythonIsGo(v);
  }

  /** A value on which they part: a key from the private use area beside a key beyond the plane. */
  lemma AstralKeysDisagree(a: SValue, b: SValue)
    requires Canonicalisers.Proper(a) && Canonicalisers.Proper(b)
    ensures var v := SObj([SEntry([0xFFFF], a), SEntry([0x10000], b)]);
            Canonicalisers.Proper(v) && NodeBytes(v) != PythonBytes(v)
  {
    var v := SObj([SEntry([0xFFFF], a), SEntry([0x10000], b)]);
    assert Crosses(v.entries[0].key, v.entries[1].key);
    NodeAgreesExactly(v);
  }
}
