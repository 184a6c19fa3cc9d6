/** From the canonical text to the bytes that are hashed: nothing is lost on the way. */
module HashedBytes {
  import B = Base64url
  import opened Json
  import opened Encodings
  import opened Jcs

  const REPLACEMENT: Scalar := 0xFFFD

  /** The scalars a UTF-16 text stands for; an unpaired surrogate is replaced, as TextEncoder does. */
  function Decode16(t: Units): Scalars {
    if t == [] then []
    else if |t| > 1 && High(t[0]) && Low(t[1]) then
      [0x10000 + (t[0] - 0xD800) * 1024 + (t[1] - 0xDC00)] + Decode16(t[2..])
    else if High(t[0]) || Low(t[0]) then [REPLACEMENT] + Decode16(t[1..])
    else [t[0]] + Decode16(t[1..])
  }

  function TextEncode(t: Units): seq<B.Byte> { Utf8(Decode16(t)) }

  lemma {:induction false} DecodeEncoded(s: Scalars)
    ensures Decode16(Utf16(s)) == s
    decreases |s|
  {
    if s != [] {
      DecodeEncoded(s[1..]);
      assert Utf16(s) == Utf16Char(s[0]) + Utf16(s[1..]);
      assert Utf16(s)[|Utf16Char(s[0])|..] == Utf16(s[1..]);
      assert s == [s[0]] + s[1..];
    }
  }

  ghost predicate NoLone(t: Units) {
    t == []
    || (|t| > 1 && High(t[0]) && Low(t[1]) && NoLone(t[2..]))
    || (!High(t[0]) && !Low(t[0]) && NoLone(t[1..]))
  }

  lemma {:induction false} EncodeDecoded(t: Units)
    requires NoLone(t)
    ensures Utf16(Decode16(t)) == t
    decreases |t|
  {
    if t != [] {
      if High(t[0]) {
        EncodeDecoded(t[2..]);
        assert t == [t[0], t[1]] + t[2..];
      } else {
        EncodeDecoded(t[1..]);
        assert t == [t[0]] + t[1..];
      }
    }
  }

  lemma {:induction false} NoLoneConcat(a: Units, b: Units)
    requires NoLone(a) && NoLone(b)
    ensures NoLone(a + b)
    decreases |a|
  {
    if a == [] {
      assert a + b == b;
    } else if High(a[0]) {
      assert (a + b)[2..] == a[2..] + b;
      NoLoneConcat(a[2..], b);
    } else {
      assert (a + b)[1..] == a[1..] + b;
      NoLoneConcat(a[1..], b);
    }
  }

  lemma {:induction false} PlainNoLone(t: Units)
    requires forall i :: 0 <= i < |t| ==> t[i] < 0x80
    ensures NoLone(t)
    decreases |t|
  {
    if t != [] { PlainNoLone(t[1..]); }
  }

  lemma EscapeUnitNoLone(u: Unit)
    ensures NoLone(EscapeUnit(u))
  {
    if u < 0x80 || High(u) || Low(u) { PlainNoLone(EscapeUnit(u)); } else { assert EscapeUnit(u)[1..] == []; }
  }

  lemma {:induction false} EscapeNoLone(s: Units)
    ensures NoLone(Escape(s))
    decreases |s|
  {
    if s == [] {
    } else if |s| > 1 && High(s[0]) && Low(s[1]) {
      EscapeNoLone(s[2..]);
      assert ([s[0], s[1]] + Escape(s[2..]))[2..] == Escape(s[2..]);
    } else {
      EscapeUnitNoLone(s[0]);
      EscapeNoLone(s[1..]);
      NoLoneConcat(EscapeUnit(s[0]), Escape(s[1..]));
    }
  }

  lemma Between(a: Unit, t: Units, b: Unit)
    requires a < 0x80 && b < 0x80 && NoLone(t)
    ensures NoLone([a] + t + [b])
  {
    PlainNoLone([a]);
    PlainNoLone([b]);
    NoLoneConcat([a], t);
    NoLoneConcat([a] + t, [b]);
  }

  lemma Separated(x: Units, sep: Unit, y: Units)
    requires NoLone(x) && sep < 0x80 && NoLone(y)
    ensures NoLone(x + [sep] + y)
  {
    PlainNoLone([sep]);
    NoLoneConcat(x, [sep]);
    NoLoneConcat(x + [sep], y);
  }

  lemma {:induction false} PrintNoLone(v: Value)
    ensures NoLone(Print(v))
    decreases v, 1
  {
    hide NoLone, Escape;
    match v {
      case Str(s) =>
        EscapeNoLone(s);
        Between(QUOTE, Escape(s), QUOTE);
      case Arr(elems) =>
        ElemsNoLone(v, elems);
        Between(OPEN_BRACKET, PrintElems(elems), CLOSE_BRACKET);
      case Obj(entries) =>
        EntriesNoLone(v, entries);
        Between(OPEN_BRACE, PrintEntries(entries), CLOSE_BRACE);
      case _ => PlainNoLone(Print(v));
    }
  }

  lemma {:induction false} ElemsNoLone(v: Value, elems: seq<Value>)
    requires v.Arr? && forall e :: e in elems ==> e in v.elems
    ensures NoLone(PrintElems(elems))
    decreases v, 0, |elems|
  {
    hide Print;
    if elems != [] {
      assert elems[0] in v.elems;
      PrintNoLone(elems[0]);
      if |elems| > 1 {
        ElemsNoLone(v, elems[1..]);
        Separated(Print(elems[0]), COMMA, PrintElems(elems[1..]));
      }
    }
  }

  lemma {:induction false} EntriesNoLone(v: Value, entries: seq<Entry>)
    requires v.Obj? && forall e :: e in entries ==> e in v.entries
    ensures NoLone(PrintEntries(entries))
    decreases v, 0, |entries|
  {
    hide Print, NoLone, Escape;
    if entries == [] {
      PlainNoLone([]);
    } else {
      var e := entries[0];
      assert e in v.entries;
      PrintNoLone(e.value);
      EscapeNoLone(e.key);
      Between(QUOTE, Escape(e.key), QUOTE);
      Separated(Quote(e.key), COLON, Print(e.value));
      if |entries| > 1 {
        EntriesNoLone(v, entries[1..]);
        Separated(PrintEntry(e), COMMA, PrintEntries(entries[1..]));
      }
    }
  }

  /** Encoding a canonical text loses nothing, even when strings hold unpaired surrogates. */
  lemma CanonEncodes(v: Value)
    ensures Utf16(Decode16(Canon(v))) == Canon(v)
  {
    PrintNoLone(Norm(v));
    EncodeDecoded(Canon(v));
  }

  /** The bytes under a payload hash or a signature decide the value up to key order. */
  lemma BytesDecide(v: Value, w: Value)
    requires Proper(v) && Proper(w)
    ensures TextEncode(Canon(v)) == TextEncode(Canon(w)) <==> MeaningOf(v) == MeaningOf(w)
  {
    hide Canon, MeaningOf, Decode16;
    CanonDecides(v, w);
    CanonEncodes(v);
    CanonEncodes(w);
    EncodingsInjective(Decode16(Canon(v)), Decode16(Canon(w)));
  }

  /** Encoding alone would not do: an unpaired surrogate and U+FFFD have the same bytes. */
  lemma RawTextsCollide()
    ensures TextEncode([0xD800]) == TextEncode([REPLACEMENT])
  {
    assert Decode16([0xD800]) == [REPLACEMENT] == Decode16([REPLACEMENT]);
  }

  /** A lone surrogate is written as the replacement character's three bytes. */
  lemma LoneIsReplaced(u: Unit)
    requires High(u) || Low(u)
    ensures TextEncode([u]) == [0xEF, 0xBF, 0xBD]
  {
    assert [u][1..] == [];
    assert Decode16([u]) == [REPLACEMENT];
    EncodeOne(Utf8Char, REPLACEMENT);
  }
}
