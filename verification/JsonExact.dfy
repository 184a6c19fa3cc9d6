/** JSON texts to the letter (sections 3.2.2.1 to 3.2.2.4 of RFC 8785), where module Json proves them readable. */
module JsonExact {
  import opened Text
  import opened Json

  // ---- Strings ----

  /** Written as they are: no control, no quote, no backslash, no surrogate. */
  predicate Unescaped(u: Unit) { u >= 0x20 && u != '"' as int && u != '\\' as int && !(0xD800 <= u <= 0xDFFF) }

  lemma {:induction false} EscapePlain(s: Units)
    requires forall i :: 0 <= i < |s| ==> Unescaped(s[i])
    ensures Escape(s) == s
  {
    if s != [] { EscapePlain(s[1..]); }
  }

  /** A string of such units is written between quotes. */
  lemma QuotePlain(s: Units)
    requires forall i :: 0 <= i < |s| ==> Unescaped(s[i])
    ensures Quote(s) == ['"' as int] + s + ['"' as int]
  {
    EscapePlain(s);
  }

  const HEX := "0123456789abcdef"

  function HexUnit(d: int): Unit
    requires 0 <= d < 16
  {
    HEX[d] as int
  }

  lemma HexUnits()
    ensures forall d :: 0 <= d < 16 ==> Hex(d) == HexUnit(d)
  {
    assert HEX[0] == '0' && HEX[1] == '1' && HEX[2] == '2' && HEX[3] == '3' && HEX[4] == '4' && HEX[5] == '5' && HEX[6] == '6' && HEX[7] == '7';
    assert HEX[8] == '8' && HEX[9] == '9' && HEX[10] == 'a' && HEX[11] == 'b' && HEX[12] == 'c' && HEX[13] == 'd' && HEX[14] == 'e' && HEX[15] == 'f';
  }

  /** The seven units with an escape of two letters, and the four hexadecimal digits of the other controls and of a lone surrogate. */
  lemma EscapeExactly(u: Unit)
    requires !Unescaped(u)
    ensures Escape([u]) == ['\\' as int] +
              if u == 8 then ['b' as int] else if u == 9 then ['t' as int] else if u == 10 then ['n' as int]
              else if u == 12 then ['f' as int] else if u == 13 then ['r' as int]
              else if u == '"' as int then ['"' as int] else if u == '\\' as int then ['\\' as int]
              else ['u' as int, HexUnit(u / 4096), HexUnit(u / 256 % 16), HexUnit(u / 16 % 16), HexUnit(u % 16)]
  {
    HexUnits();
    assert [u][1..] == [];
    hide Hex;
  }

  predicate EndsHigh(s: Units) { s != [] && 0xD800 <= s[|s| - 1] <= 0xDBFF }

  predicate BeginsLow(t: Units) { t != [] && 0xDC00 <= t[0] <= 0xDFFF }

  /** Unit by unit, but for a surrogate pair, which is written as it is. */
  lemma {:induction false} EscapeConcat(s: Units, t: Units)
    requires !(EndsHigh(s) && BeginsLow(t))
    ensures Escape(s + t) == Escape(s) + Escape(t)
    decreases |s|
  {
    hide EscapeUnit;
    if s == [] {
      assert s + t == t;
    } else if |s| > 1 && High(s[0]) && Low(s[1]) {
      assert (s + t)[2..] == s[2..] + t;
      EscapeConcat(s[2..], t);
    } else {
      assert (s + t)[1..] == s[1..] + t;
      EscapeConcat(s[1..], t);
    }
  }

  lemma EscapePair(high: Unit, low: Unit)
    requires EndsHigh([high]) && BeginsLow([low])
    ensures Escape([high, low]) == [high, low]
  {
    assert [high, low][2..] == [];
  }

  // ---- Values ----

  /** Literals and numbers, to the letter. */
  lemma ScalarsExactly(b: bool, n: SafeInt, s: Units)
    ensures Print(Undefined) == Print(Null) == Codes("null")
    ensures Print(Bool(b)) == Codes(if b then "true" else "false")
    ensures Print(Num(n)) == Codes(Decimal(n))
    ensures Print(Str(s)) == Codes("\"") + Escape(s) + Codes("\"")
  {
    hide Escape;
  }

  /** All but the closing bracket or brace. */
  function Open(t: Units): Units { if t == [] then [] else t[..|t| - 1] }

  lemma OpenOf(a: Units, c: Unit)
    ensures Open(a + [c]) == a
  {
  }

  /** An array grows by a comma and its new element before the closing bracket. */
  lemma ArrayExactly(elems: seq<Value>, v: Value)
    ensures Print(Arr([])) == Codes("[]")
    ensures Print(Arr(elems + [v]))
         == Open(Print(Arr(elems))) + (if elems == [] then [] else Codes(",")) + Print(v) + Codes("]")
  {
    hide Print, PrintElems, Open;
    ArrayShape([]);
    ArrayShape(elems);
    ArrayShape(elems + [v]);
    ElemsGrow(elems, v);
    OpenOf([OPEN_BRACKET] + PrintElems(elems), CLOSE_BRACKET);
    Splice([OPEN_BRACKET], PrintElems(elems), if elems == [] then [] else Codes(","), Print(v), Codes("]"));
  }

  lemma ArrayShape(elems: seq<Value>)
    ensures Print(Arr(elems)) == [OPEN_BRACKET] + PrintElems(elems) + Codes("]")
    ensures PrintElems([]) == [] && [OPEN_BRACKET] + [] + Codes("]") == Codes("[]")
    ensures Codes(",") == [COMMA] && Codes("]") == [CLOSE_BRACKET]
  {
    assert Codes("]") == [CLOSE_BRACKET];
    hide PrintElems;
    assert PrintElems([]) == [] by { ElemsOfNone(); }
  }

  lemma ElemsOfNone()
    ensures PrintElems([]) == [] && PrintEntries([]) == []
  {
  }

  lemma Splice(a: Units, b: Units, c: Units, d: Units, e: Units)
    ensures a + (b + c + d) + e == (a + b) + c + d + e
  {
  }

  lemma {:induction false} ElemsGrow(elems: seq<Value>, v: Value)
    ensures PrintElems(elems + [v]) == PrintElems(elems) + (if elems == [] then [] else [COMMA]) + Print(v)
    decreases |elems|
  {
    hide Print;
    if elems == [] {
      assert elems + [v] == [v];
    } else {
      var rest := elems[1..];
      assert (elems + [v])[0] == elems[0] && (elems + [v])[1..] == rest + [v];
      ElemsGrow(rest, v);
      ElemsCons(elems);
      ElemsCons(elems + [v]);
      hide PrintElems;
      Regroup(Print(elems[0]), PrintElems(rest), [COMMA], Print(v));
    }
  }

  lemma ElemsCons(elems: seq<Value>)
    requires elems != []
    ensures PrintElems(elems) == if |elems| == 1 then Print(elems[0]) else Print(elems[0]) + [COMMA] + PrintElems(elems[1..])
  {
  }

  lemma Regroup(a: Units, b: Units, c: Units, d: Units)
    ensures a + c + (b + c + d) == (a + c + b) + c + d
  {
  }

  /** An object grows by a comma, its new key, a colon and its value before the closing brace. */
  lemma ObjectExactly(entries: seq<Entry>, e: Entry)
    ensures Print(Obj([])) == Codes("{}")
    ensures Print(Obj(entries + [e]))
         == Open(Print(Obj(entries))) + (if entries == [] then [] else Codes(",")) + MemberText(e) + Codes("}")
  {
    MemberIs(e);
    hide Print, PrintEntries, PrintEntry, MemberText, Open;
    ObjectShape([]);
    ObjectShape(entries);
    ObjectShape(entries + [e]);
    EntriesGrow(entries, e);
    OpenOf([OPEN_BRACE] + PrintEntries(entries), CLOSE_BRACE);
    Splice([OPEN_BRACE], PrintEntries(entries), if entries == [] then [] else Codes(","), MemberText(e), Codes("}"));
  }

  lemma ObjectShape(entries: seq<Entry>)
    ensures Print(Obj(entries)) == [OPEN_BRACE] + PrintEntries(entries) + Codes("}")
    ensures PrintEntries([]) == [] && [OPEN_BRACE] + [] + Codes("}") == Codes("{}")
    ensures Codes(",") == [COMMA] && Codes("}") == [CLOSE_BRACE]
  {
    assert Codes("}") == [CLOSE_BRACE];
    hide PrintEntries;
    assert PrintEntries([]) == [] by { ElemsOfNone(); }
  }

  function MemberText(e: Entry): Units { Print(Str(e.key)) + Codes(":") + Print(e.value) }

  lemma MemberIs(e: Entry)
    ensures PrintEntry(e) == MemberText(e)
  {
    assert Print(Str(e.key)) == Quote(e.key) && Codes(":") == [COLON];
    hide Print, Quote;
  }

  lemma {:induction false} EntriesGrow(entries: seq<Entry>, e: Entry)
    ensures PrintEntries(entries + [e]) == PrintEntries(entries) + (if entries == [] then [] else [COMMA]) + PrintEntry(e)
    decreases |entries|
  {
    hide PrintEntry;
    if entries == [] {
      assert entries + [e] == [e];
    } else {
      var rest := entries[1..];
      assert (entries + [e])[0] == entries[0] && (entries + [e])[1..] == rest + [e];
      EntriesGrow(rest, e);
      EntriesCons(entries);
      EntriesCons(entries + [e]);
      hide PrintEntries;
      Regroup(PrintEntry(entries[0]), PrintEntries(rest), [COMMA], PrintEntry(e));
    }
  }

  lemma EntriesCons(entries: seq<Entry>)
    requires entries != []
    ensures PrintEntries(entries)
         == if |entries| == 1 then PrintEntry(entries[0]) else PrintEntry(entries[0]) + [COMMA] + PrintEntries(entries[1..])
  {
  }
}
