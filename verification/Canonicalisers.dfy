/**
  The canonicalisers of the Python and Go SDKs beside the one shared by the server and the
  Node SDK: over well-formed text, which values do they give the same bytes to hash and sign?
*/
module Canonicalisers {
  import opened Text
  import opened Order
  import opened Json
  import opened Encodings
  import Jcs

  /**
    JSON over scalar values; Python and Go have no undefined member. In the range of the
    numbers Python prints an int, and Go an int or a json.Number by way of float64, as the
    integer's decimal digits, which is what JavaScript does.
  */
  datatype SEntry = SEntry(key: Scalars, value: SValue)

  datatype SValue =
    | SNull
    | SBool(b: bool)
    | SNum(n: SafeInt)
    | SStr(s: Scalars)
    | SArr(elems: seq<SValue>)
    | SObj(entries: seq<SEntry>)

  ghost predicate Proper(v: SValue) {
    match v
    case SArr(elems) => forall i :: 0 <= i < |elems| ==> Proper(elems[i])
    case SObj(entries) => DistinctKeys(entries) && forall i :: 0 <= i < |entries| ==> Proper(entries[i].value)
    case _ => true
  }

  ghost predicate DistinctKeys(entries: seq<SEntry>) {
    forall i, j :: 0 <= i < j < |entries| ==> entries[i].key != entries[j].key
  }

  // ---- The text of a value whose keys are in place ----

  function Plain(t: Units): (r: Scalars)
    requires forall i :: 0 <= i < |t| ==> t[i] < 0x80
    ensures r == t
  {
    seq(|t|, i requires 0 <= i < |t| && t[i] < 0x80 => t[i])
  }

  function EscapeChar(c: Scalar): Scalars {
    if c < 0x80 then Plain(EscapeUnit(c)) else [c]
  }

  function Escaped(s: Scalars): Scalars { Encode(EscapeChar, s) }

  function Quoted(s: Scalars): Scalars { [QUOTE] + Escaped(s) + [QUOTE] }

  function DecimalText(n: int): (r: Scalars)
    ensures r == DecimalUnits(n)
  {
    Plain(DecimalUnits(n))
  }

  function Shown(v: SValue): Scalars {
    match v
    case SNull => Plain(NULL_TEXT)
    case SBool(b) => if b then Plain(TRUE_TEXT) else Plain(FALSE_TEXT)
    case SNum(n) => DecimalText(n)
    case SStr(s) => Quoted(s)
    case SArr(elems) => [OPEN_BRACKET] + ShownElems(elems) + [CLOSE_BRACKET]
    case SObj(entries) => [OPEN_BRACE] + ShownEntries(entries) + [CLOSE_BRACE]
  }

  function ShownElems(elems: seq<SValue>): Scalars {
    if elems == [] then []
    else if |elems| == 1 then Shown(elems[0])
    else Shown(elems[0]) + [COMMA] + ShownElems(elems[1..])
  }

  function ShownEntry(e: SEntry): Scalars { Quoted(e.key) + [COLON] + Shown(e.value) }

  function ShownEntries(entries: seq<SEntry>): Scalars {
    if entries == [] then []
    else if |entries| == 1 then ShownEntry(entries[0])
    else ShownEntry(entries[0]) + [COMMA] + ShownEntries(entries[1..])
  }

  // ---- Putting the keys in place, by a given order ----

  type KeyOrder = Scalars -> seq<int>

  function CodePoints(): KeyOrder { (s: Scalars) => s }
  function Bytes(): KeyOrder { (s: Scalars) => Utf8(s) }
  function Units16(): KeyOrder { (s: Scalars) => Utf16(s) }

  function KeyBy(order: KeyOrder): SEntry -> seq<int> { (e: SEntry) => order(e.key) }

  function Ordered(v: SValue, order: KeyOrder): SValue {
    match v
    case SArr(elems) => SArr(OrderedAll(elems, order))
    case SObj(entries) => SObj(Sort(OrderedEntries(entries, order), KeyBy(order)))
    case _ => v
  }

  function OrderedAll(elems: seq<SValue>, order: KeyOrder): (r: seq<SValue>)
    ensures |r| == |elems| && forall i :: 0 <= i < |elems| ==> r[i] == Ordered(elems[i], order)
  {
    if elems == [] then [] else [Ordered(elems[0], order)] + OrderedAll(elems[1..], order)
  }

  function OrderedEntries(entries: seq<SEntry>, order: KeyOrder): (r: seq<SEntry>)
    ensures |r| == |entries|
    ensures forall i :: 0 <= i < |entries| ==> r[i] == SEntry(entries[i].key, Ordered(entries[i].value, order))
  {
    if entries == [] then []
    else [SEntry(entries[0].key, Ordered(entries[0].value, order))] + OrderedEntries(entries[1..], order)
  }

  // ---- Two orders give the same arrangement exactly when they agree on every pair of keys ----

  predicate AgreeOn(o: KeyOrder, p: KeyOrder, a: Scalars, b: Scalars) { Less(o(a), o(b)) == Less(p(a), p(b)) }

  ghost predicate AgreeOnKeys(o: KeyOrder, p: KeyOrder, entries: seq<SEntry>) {
    forall i, j :: 0 <= i < |entries| && 0 <= j < |entries| ==> AgreeOn(o, p, entries[i].key, entries[j].key)
  }

  ghost predicate Agree(o: KeyOrder, p: KeyOrder, v: SValue) {
    match v
    case SArr(elems) => forall i :: 0 <= i < |elems| ==> Agree(o, p, elems[i])
    case SObj(entries) => AgreeOnKeys(o, p, entries) && forall i :: 0 <= i < |entries| ==> Agree(o, p, entries[i].value)
    case _ => true
  }

  /** An order never takes two strings for the same. */
  ghost predicate Faithful(o: KeyOrder) { forall a, b :: o(a) == o(b) ==> a == b }

  lemma {:induction false} InsertAgrees(e: SEntry, s: seq<SEntry>, o: KeyOrder, p: KeyOrder)
    requires forall x :: x in s ==> AgreeOn(o, p, x.key, e.key)
    ensures Insert(e, s, KeyBy(o)) == Insert(e, s, KeyBy(p))
    decreases |s|
  {
    if s != [] {
      assert s[0] in s;
      InsertAgrees(e, s[1..], o, p);
    }
  }

  lemma {:induction false} SortAgrees(s: seq<SEntry>, o: KeyOrder, p: KeyOrder)
    requires AgreeOnKeys(o, p, s)
    ensures Sort(s, KeyBy(o)) == Sort(s, KeyBy(p))
    decreases |s|
  {
    if s != [] {
      SortAgrees(s[1..], o, p);
      forall x | x in Sort(s[1..], KeyBy(p)) ensures AgreeOn(o, p, x.key, s[0].key) {
        SortMember(s[1..], KeyBy(p), x);
        var i :| 0 <= i < |s[1..]| && s[1..][i] == x;
        assert AgreeOn(o, p, s[i + 1].key, s[0].key);
      }
      InsertAgrees(s[0], Sort(s[1..], KeyBy(p)), o, p);
    }
  }

  /** In a sorted arrangement, being before is being less. */
  lemma BeforeIsLess(t: seq<SEntry>, o: KeyOrder, i: nat, j: nat)
    requires Sorted(t, KeyBy(o)) && Faithful(o) && DistinctKeys(t) && i < |t| && j < |t|
    ensures Less(o(t[i].key), o(t[j].key)) <==> i < j
  {
    LessTotal(o(t[i].key), o(t[j].key));
    LessIrreflexive(o(t[i].key));
    if i < j {
      assert !Less(KeyBy(o)(t[j]), KeyBy(o)(t[i])) && t[i].key != t[j].key;
    } else if j < i {
      assert !Less(KeyBy(o)(t[i]), KeyBy(o)(t[j]));
    }
  }

  lemma SortedKeysDistinct(s: seq<SEntry>, key: SEntry -> seq<int>)
    requires DistinctKeys(s)
    ensures DistinctKeys(Sort(s, key))
  {
    SortDistinct(s, key, (e: SEntry) => e.key);
  }

  /** The arrangement tells the order: two orders that arrange alike agree on the keys. */
  lemma SameKeysAgree(s: seq<SEntry>, t: seq<SEntry>, o: KeyOrder, p: KeyOrder)
    requires DistinctKeys(s) && DistinctKeys(t) && Faithful(o) && Faithful(p)
    requires |s| == |t| && forall i :: 0 <= i < |s| ==> s[i].key == t[i].key
    requires |Sort(s, KeyBy(o))| == |Sort(t, KeyBy(p))|
    requires forall k :: 0 <= k < |Sort(s, KeyBy(o))| ==> Sort(s, KeyBy(o))[k].key == Sort(t, KeyBy(p))[k].key
    ensures AgreeOnKeys(o, p, s)
  {
    var a, b := Sort(s, KeyBy(o)), Sort(t, KeyBy(p));
    SortSorted(s, KeyBy(o));
    SortSorted(t, KeyBy(p));
    SortedKeysDistinct(s, KeyBy(o));
    SortedKeysDistinct(t, KeyBy(p));
    hide Sorted, DistinctKeys, Less;
    forall i, j | 0 <= i < |s| && 0 <= j < |s| ensures AgreeOn(o, p, s[i].key, s[j].key) {
      SortMember(s, KeyBy(o), s[i]);
      SortMember(s, KeyBy(o), s[j]);
      var x :| 0 <= x < |a| && a[x] == s[i];
      var y :| 0 <= y < |a| && a[y] == s[j];
      BeforeIsLess(a, o, x, y);
      BeforeIsLess(b, p, x, y);
    }
  }

  lemma {:induction false} AgreeSuffices(v: SValue, o: KeyOrder, p: KeyOrder)
    requires Agree(o, p, v)
    ensures Ordered(v, o) == Ordered(v, p)
    decreases v
  {
    match v {
      case SArr(elems) =>
        forall i | 0 <= i < |elems| ensures Ordered(elems[i], o) == Ordered(elems[i], p) { AgreeSuffices(elems[i], o, p); }
        assert OrderedAll(elems, o) == OrderedAll(elems, p);
      case SObj(entries) =>
        forall i | 0 <= i < |entries| ensures Ordered(entries[i].value, o) == Ordered(entries[i].value, p) {
          AgreeSuffices(entries[i].value, o, p);
        }
        assert OrderedEntries(entries, o) == OrderedEntries(entries, p);
        var s := OrderedEntries(entries, o);
        forall i, j | 0 <= i < |s| && 0 <= j < |s| ensures AgreeOn(o, p, s[i].key, s[j].key) {
          assert AgreeOn(o, p, entries[i].key, entries[j].key);
        }
        SortAgrees(s, o, p);
      case _ =>
    }
  }

  lemma ValuesMatch(s: seq<SEntry>, t: seq<SEntry>, o: KeyOrder, p: KeyOrder, i: nat)
    requires DistinctKeys(s) && DistinctKeys(t) && |s| == |t| && i < |s|
    requires forall k :: 0 <= k < |s| ==> s[k].key == t[k].key
    requires Sort(s, KeyBy(o)) == Sort(t, KeyBy(p))
    ensures s[i] == t[i]
  {
    var a := Sort(s, KeyBy(o));
    SortMember(s, KeyBy(o), s[i]);
    SortMember(t, KeyBy(p), s[i]);
    var j :| 0 <= j < |t| && t[j] == s[i];
    assert t[i].key == s[i].key == t[j].key;
    assert i == j;
  }

  lemma {:induction false} AgreeNecessary(v: SValue, o: KeyOrder, p: KeyOrder)
    requires Proper(v) && Faithful(o) && Faithful(p) && Ordered(v, o) == Ordered(v, p)
    ensures Agree(o, p, v)
    decreases v
  {
    match v {
      case SArr(elems) =>
        forall i | 0 <= i < |elems| ensures Agree(o, p, elems[i]) {
          assert OrderedAll(elems, o)[i] == OrderedAll(elems, p)[i];
          AgreeNecessary(elems[i], o, p);
        }
      case SObj(entries) =>
        var s, t := OrderedEntries(entries, o), OrderedEntries(entries, p);
        SameKeysAgree(s, t, o, p);
        forall i, j | 0 <= i < |entries| && 0 <= j < |entries| ensures AgreeOn(o, p, entries[i].key, entries[j].key) {
          assert AgreeOn(o, p, s[i].key, s[j].key);
        }
        forall i | 0 <= i < |entries| ensures Agree(o, p, entries[i].value) {
          ValuesMatch(s, t, o, p, i);
          AgreeNecessary(entries[i].value, o, p);
        }
      case _ =>
    }
  }

  // ---- The server and the Node SDK ----

  /** The JavaScript value. */
  function ToNode(v: SValue): Value {
    match v
    case SNull => Null
    case SBool(b) => Bool(b)
    case SNum(n) => Num(n)
    case SStr(s) => Str(Utf16(s))
    case SArr(elems) => Arr(ToNodeAll(elems))
    case SObj(entries) => Obj(ToNodeEntries(entries))
  }

  function ToNodeAll(elems: seq<SValue>): (r: seq<Value>)
    ensures |r| == |elems| && forall i :: 0 <= i < |elems| ==> r[i] == ToNode(elems[i])
  {
    if elems == [] then [] else [ToNode(elems[0])] + ToNodeAll(elems[1..])
  }

  function ToNodeEntry(e: SEntry): Entry { Entry(Utf16(e.key), ToNode(e.value)) }

  function ToNodeEntries(entries: seq<SEntry>): (r: seq<Entry>)
    ensures |r| == |entries| && forall i :: 0 <= i < |entries| ==> r[i] == ToNodeEntry(entries[i])
  {
    if entries == [] then [] else [ToNodeEntry(entries[0])] + ToNodeEntries(entries[1..])
  }

  lemma EscapedCharInUtf16(c: Scalar)
    ensures Utf16(EscapeChar(c)) == if c < 0x10000 then EscapeUnit(c) else Utf16Char(c)
    ensures c < 0x80 ==> forall i :: 0 <= i < |EscapeUnit(c)| ==> EscapeUnit(c)[i] < 0x80
  {
    if c < 0x80 {
      PlainUnits(Plain(EscapeUnit(c)));
    } else {
      EncodeOne(Utf16Char, c);
    }
  }

  lemma {:induction false} EscapedInUtf16(s: Scalars)
    ensures Utf16(Escaped(s)) == Escape(Utf16(s))
    decreases |s|
  {
    if s != [] {
      hide EscapeUnit, EscapeChar, Utf16Char, Escape;
      var c, rest := s[0], s[1..];
      EscapedInUtf16(rest);
      EncodeConcat(Utf16Char, EscapeChar(c), Escaped(rest));
      EscapedCharInUtf16(c);
      EscapeFirst(c, Utf16(rest));
    }
  }

  lemma EscapeFirst(c: Scalar, rest: Units)
    ensures Escape(Utf16Char(c) + rest) == (if c < 0x10000 then EscapeUnit(c) else Utf16Char(c)) + Escape(rest)
  {
    hide EscapeUnit;
    assert (Utf16Char(c) + rest)[|Utf16Char(c)|..] == rest;
  }

  lemma QuotedInUtf16(s: Scalars)
    ensures Utf16(Quoted(s)) == Quote(Utf16(s))
  {
    EscapedInUtf16(s);
    Wrapped(Utf16Char, QUOTE, Escaped(s), QUOTE);
  }

  lemma Wrapped<T>(code: Scalar -> seq<T>, a: Scalar, s: Scalars, b: Scalar)
    ensures Encode(code, [a] + s + [b]) == code(a) + Encode(code, s) + code(b)
  {
    EncodeConcat(code, [a] + s, [b]);
    EncodeConcat(code, [a], s);
    EncodeOne(code, a);
    EncodeOne(code, b);
  }

  /** `x + [sep] + y` piece by piece. */
  lemma Joined<T>(code: Scalar -> seq<T>, x: Scalars, sep: Scalar, y: Scalars)
    ensures Encode(code, x + [sep] + y) == Encode(code, x) + code(sep) + Encode(code, y)
  {
    EncodeConcat(code, x + [sep], y);
    EncodeConcat(code, x, [sep]);
    EncodeOne(code, sep);
  }

  lemma BracketUnits()
    ensures Utf16Char(OPEN_BRACKET) == [OPEN_BRACKET] && Utf16Char(CLOSE_BRACKET) == [CLOSE_BRACKET]
    ensures Utf16Char(OPEN_BRACE) == [OPEN_BRACE] && Utf16Char(CLOSE_BRACE) == [CLOSE_BRACE]
  {
  }

  lemma {:induction false} ShownInUtf16(v: SValue)
    ensures Utf16(Shown(v)) == Print(ToNode(v))
    decreases v, 1
  {
    hide Encode, Quote, Quoted, Decimal, PrintElems, PrintEntries, ShownElems, ShownEntries, Utf16Char;
    BracketUnits();
    match v {
      case SNull => PlainUnits(Plain(NULL_TEXT));
      case SBool(b) =>
        PlainUnits(Plain(TRUE_TEXT));
        PlainUnits(Plain(FALSE_TEXT));
      case SNum(n) => PlainUnits(DecimalText(n));
      case SStr(s) => QuotedInUtf16(s);
      case SArr(elems) =>
        ElemsInUtf16(v, elems);
        Wrapped(Utf16Char, OPEN_BRACKET, ShownElems(elems), CLOSE_BRACKET);
      case SObj(entries) =>
        EntriesInUtf16(v, entries);
        Wrapped(Utf16Char, OPEN_BRACE, ShownEntries(entries), CLOSE_BRACE);
    }
  }

  lemma {:induction false} ElemsInUtf16(v: SValue, elems: seq<SValue>)
    requires v.SArr? && forall e :: e in elems ==> e in v.elems
    ensures Utf16(ShownElems(elems)) == PrintElems(ToNodeAll(elems))
    decreases v, 0, |elems|
  {
    hide Shown, Print, ToNode;
    if elems != [] {
      assert elems[0] in v.elems;
      ShownInUtf16(elems[0]);
      if |elems| > 1 {
        ElemsInUtf16(v, elems[1..]);
        Joined(Utf16Char, Shown(elems[0]), COMMA, ShownElems(elems[1..]));
        assert ToNodeAll(elems)[1..] == ToNodeAll(elems[1..]);
      }
    }
  }

  lemma {:induction false} EntryInUtf16(e: SEntry)
    ensures Utf16(ShownEntry(e)) == PrintEntry(ToNodeEntry(e))
    decreases e, 2
  {
    hide Shown, Print, ToNode, Quoted, Quote;
    QuotedInUtf16(e.key);
    ShownInUtf16(e.value);
    Joined(Utf16Char, Quoted(e.key), COLON, Shown(e.value));
  }

  lemma {:induction false} EntriesInUtf16(v: SValue, entries: seq<SEntry>)
    requires v.SObj? && forall e :: e in entries ==> e in v.entries
    ensures Utf16(ShownEntries(entries)) == PrintEntries(ToNodeEntries(entries))
    decreases v, 0, |entries|
  {
    hide ShownEntry, PrintEntry, ToNodeEntry;
    if entries != [] {
      assert entries[0] in v.entries;
      EntryInUtf16(entries[0]);
      if |entries| > 1 {
        EntriesInUtf16(v, entries[1..]);
        Joined(Utf16Char, ShownEntry(entries[0]), COMMA, ShownEntries(entries[1..]));
        assert ToNodeEntries(entries)[1..] == ToNodeEntries(entries[1..]);
      }
    }
  }

  lemma MappedToNode(entries: seq<SEntry>)
    ensures ToNodeEntries(entries) == Map(ToNodeEntry, entries)
  {
  }

  /** JavaScript sorts the keys by their units and drops nothing. */
  lemma {:induction false} NodeOrdered(v: SValue)
    ensures Jcs.Norm(ToNode(v)) == ToNode(Ordered(v, Units16()))
    decreases v
  {
    match v {
      case SArr(elems) =>
        forall i | 0 <= i < |elems| ensures Jcs.Norm(ToNode(elems[i])) == ToNode(Ordered(elems[i], Units16())) {
          NodeOrdered(elems[i]);
        }
        assert Jcs.NormAll(ToNodeAll(elems)) == ToNodeAll(OrderedAll(elems, Units16()));
      case SObj(entries) =>
        forall i | 0 <= i < |entries| ensures Jcs.Norm(ToNode(entries[i].value)) == ToNode(Ordered(entries[i].value, Units16())) {
          NodeOrdered(entries[i].value);
        }
        NodeEntries(entries);
        var s := OrderedEntries(entries, Units16());
        MappedToNode(s);
        MappedToNode(Sort(s, KeyBy(Units16())));
        SortMapped(s, ToNodeEntry, KeyBy(Units16()), Jcs.ByKey());
      case _ =>
    }
  }

  lemma {:induction false} NodeEntries(entries: seq<SEntry>)
    requires forall i :: 0 <= i < |entries| ==> Jcs.Norm(ToNode(entries[i].value)) == ToNode(Ordered(entries[i].value, Units16()))
    ensures Jcs.NormEntries(ToNodeEntries(entries)) == ToNodeEntries(OrderedEntries(entries, Units16()))
    decreases |entries|
  {
    hide Jcs.Norm, Ordered;
    if entries != [] {
      NodeEntries(entries[1..]);
      assert ToNodeEntries(entries)[1..] == ToNodeEntries(entries[1..]);
      assert !ToNode(entries[0].value).Undefined?;
    }
  }

  lemma {:induction false} ToNodeInjective(v: SValue, w: SValue)
    requires ToNode(v) == ToNode(w)
    ensures v == w
    decreases v
  {
    match v {
      case SStr(s) => EncodingsInjective(s, w.s);
      case SArr(elems) =>
        forall i | 0 <= i < |elems| ensures elems[i] == w.elems[i] {
          assert ToNodeAll(elems)[i] == ToNodeAll(w.elems)[i];
          ToNodeInjective(elems[i], w.elems[i]);
        }
        assert |elems| == |ToNodeAll(elems)| == |ToNodeAll(w.elems)| == |w.elems|;
      case SObj(entries) =>
        assert |entries| == |ToNodeEntries(entries)| == |ToNodeEntries(w.entries)| == |w.entries|;
        forall i | 0 <= i < |entries| ensures entries[i] == w.entries[i] {
          assert ToNodeEntries(entries)[i] == ToNodeEntries(w.entries)[i];
          EncodingsInjective(entries[i].key, w.entries[i].key);
          ToNodeInjective(entries[i].value, w.entries[i].value);
        }
      case _ =>
    }
  }

  lemma {:induction false} ToNodeClean(v: SValue)
    ensures Clean(ToNode(v))
    decreases v
  {
    match v {
      case SArr(elems) =>
        forall i | 0 <= i < |elems| ensures Clean(ToNodeAll(elems)[i]) { ToNodeClean(elems[i]); }
        Jcs.AllCleanAll(ToNodeAll(elems));
      case SObj(entries) =>
        forall e | e in ToNodeEntries(entries) ensures Clean(e.value) {
          var i :| 0 <= i < |entries| && ToNodeEntries(entries)[i] == e;
          ToNodeClean(entries[i].value);
        }
        Jcs.EntriesCleanAll(ToNodeEntries(entries));
      case _ =>
    }
  }

  lemma ShownInjective(v: SValue, w: SValue)
    requires Shown(v) == Shown(w)
    ensures v == w
  {
    ShownInUtf16(v);
    ShownInUtf16(w);
    ToNodeClean(v);
    ToNodeClean(w);
    PrintInjective(ToNode(v), ToNode(w));
    ToNodeInjective(v, w);
  }
}
