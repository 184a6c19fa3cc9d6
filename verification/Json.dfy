/**
  JSON values and their text as JSON.stringify writes it, over UTF-16 units, with a reader
  that recovers the value. Numbers are the safe integers, up to 2^53 - 1 in magnitude: beyond
  them JavaScript rounds, and the digits it prints are no longer those of the integer.
*/
module Json {
  import opened Text

  type Unit = u: int | 0 <= u < 0x10000
  type Units = seq<Unit>

  datatype Entry = Entry(key: Units, value: Value)

  /** `Undefined` is JavaScript's: it never reaches the text. */
  datatype Value =
    | Undefined
    | Null
    | Bool(b: bool)
    | Num(n: SafeInt)
    | Str(s: Units)
    | Arr(elems: seq<Value>)
    | Obj(entries: seq<Entry>)

  const QUOTE: Unit := 34
  const BACKSLASH: Unit := 92
  const COMMA: Unit := 44
  const COLON: Unit := 58
  const MINUS: Unit := 45
  const OPEN_BRACKET: Unit := 91
  const CLOSE_BRACKET: Unit := 93
  const OPEN_BRACE: Unit := 123
  const CLOSE_BRACE: Unit := 125
  const LETTER_U: Unit := 117
  const NULL_TEXT: Units := [110, 117, 108, 108]
  const TRUE_TEXT: Units := [116, 114, 117, 101]
  const FALSE_TEXT: Units := [102, 97, 108, 115, 101]

  // ---- Writing ----

  predicate High(u: Unit) { 0xD800 <= u <= 0xDBFF }
  predicate Low(u: Unit) { 0xDC00 <= u <= 0xDFFF }

  function Hex(d: int): Unit
    requires 0 <= d < 16
  {
    if d < 10 then 48 + d else 87 + d
  }

  function Hex4(u: Unit): Units { [Hex(u / 4096), Hex(u / 256 % 16), Hex(u / 16 % 16), Hex(u % 16)] }

  /** The letter after the backslash, for the units that have one. */
  function ShortEscape(u: Unit): Option<Unit> {
    if u == QUOTE || u == BACKSLASH then Some(u)
    else if u == 8 then Some(98)
    else if u == 12 then Some(102)
    else if u == 10 then Some(110)
    else if u == 13 then Some(114)
    else if u == 9 then Some(116)
    else None
  }

  function EscapeUnit(u: Unit): Units {
    if ShortEscape(u).Some? then [BACKSLASH, ShortEscape(u).value]
    else if u < 0x20 || High(u) || Low(u) then [BACKSLASH, LETTER_U] + Hex4(u)
    else [u]
  }

  /** Surrogate pairs are written as they are, lone surrogates as escapes. */
  function Escape(s: Units): Units {
    if s == [] then []
    else if |s| > 1 && High(s[0]) && Low(s[1]) then [s[0], s[1]] + Escape(s[2..])
    else EscapeUnit(s[0]) + Escape(s[1..])
  }

  function Quote(s: Units): Units { [QUOTE] + Escape(s) + [QUOTE] }

  function DecimalUnits(n: int): (r: Units)
    ensures |r| == |Decimal(n)| && forall i :: 0 <= i < |r| ==> r[i] == Decimal(n)[i] as int
  {
    seq(|Decimal(n)|, i requires 0 <= i < |Decimal(n)| => Decimal(n)[i] as int)
  }

  function Print(v: Value): Units {
    match v
    case Undefined => NULL_TEXT
    case Null => NULL_TEXT
    case Bool(b) => if b then TRUE_TEXT else FALSE_TEXT
    case Num(n) => DecimalUnits(n)
    case Str(s) => Quote(s)
    case Arr(elems) => [OPEN_BRACKET] + PrintElems(elems) + [CLOSE_BRACKET]
    case Obj(entries) => [OPEN_BRACE] + PrintEntries(entries) + [CLOSE_BRACE]
  }

  function PrintElems(elems: seq<Value>): Units {
    if elems == [] then []
    else if |elems| == 1 then Print(elems[0])
    else Print(elems[0]) + [COMMA] + PrintElems(elems[1..])
  }

  function PrintEntry(e: Entry): Units { Quote(e.key) + [COLON] + Print(e.value) }

  function PrintEntries(entries: seq<Entry>): Units {
    if entries == [] then []
    else if |entries| == 1 then PrintEntry(entries[0])
    else PrintEntry(entries[0]) + [COMMA] + PrintEntries(entries[1..])
  }

  // ---- Reading ----

  function HexValue(u: Unit): Option<int> {
    if 48 <= u <= 57 then Some(u - 48)
    else if 97 <= u <= 102 then Some(u - 87)
    else if 65 <= u <= 70 then Some(u - 55)
    else None
  }

  function ReadHex4(t: Units): (r: Option<Unit>)
    requires |t| == 4
  {
    var a, b, c, d := HexValue(t[0]), HexValue(t[1]), HexValue(t[2]), HexValue(t[3]);
    if a.None? || b.None? || c.None? || d.None? then None
    else Some(a.value * 4096 + b.value * 256 + c.value * 16 + d.value)
  }

  function ReadShort(u: Unit): Option<Unit> {
    if u == QUOTE || u == BACKSLASH || u == 47 then Some(u)
    else if u == 98 then Some(8)
    else if u == 102 then Some(12)
    else if u == 110 then Some(10)
    else if u == 114 then Some(13)
    else if u == 116 then Some(9)
    else None
  }

  /** One unit of a string literal: the unit and how many units of text it took. */
  function ReadUnit(t: Units): Option<(Unit, nat)>
    requires t != []
  {
    if t[0] != BACKSLASH then (if t[0] < 0x20 then None else Some((t[0], 1)))
    else if |t| < 2 then None
    else if t[1] == LETTER_U then
      (if |t| < 6 || ReadHex4(t[2..6]).None? then None else Some((ReadHex4(t[2..6]).value, 6)))
    else if ReadShort(t[1]).Some? then Some((ReadShort(t[1]).value, 2))
    else None
  }

  /** Up to and including the closing quote. */
  function ReadString(t: Units): (r: Option<(Units, Units)>)
    ensures r.Some? ==> |r.value.1| < |t|
    decreases |t|
  {
    if t == [] then None
    else if t[0] == QUOTE then Some(([], t[1..]))
    else
      var one := ReadUnit(t);
      if one.None? then None
      else
        var rest := ReadString(t[one.value.1..]);
        if rest.None? then None else Some(([one.value.0] + rest.value.0, rest.value.1))
  }

  predicate DigitUnit(u: Unit) { 48 <= u <= 57 }

  function DigitRun(t: Units): (k: nat)
    ensures k <= |t| && forall i :: 0 <= i < k ==> DigitUnit(t[i])
  {
    if t == [] || !DigitUnit(t[0]) then 0 else 1 + DigitRun(t[1..])
  }

  function DigitChars(t: Units): (s: string)
    requires forall i :: 0 <= i < |t| ==> DigitUnit(t[i])
    ensures |s| == |t| && forall i :: 0 <= i < |s| ==> IsDigit(s[i]) && s[i] as int == t[i]
  {
    seq(|t|, i requires 0 <= i < |t| && DigitUnit(t[i]) => t[i] as char)
  }

  function ReadDigits(t: Units): (r: Option<(nat, Units)>)
    ensures r.Some? ==> |r.value.1| < |t|
  {
    var k := DigitRun(t);
    if k == 0 then None else Some((DigitsValue(DigitChars(t[..k])), t[k..]))
  }

  /** Refuses a numeral that JSON.parse would round. */
  function ReadNumber(t: Units): (r: Option<(SafeInt, Units)>)
    requires t != []
    ensures r.Some? ==> |r.value.1| < |t|
  {
    var d := ReadDigits(if t[0] == MINUS then t[1..] else t);
    if d.None? || d.value.0 > 0x1F_FFFF_FFFF_FFFF then None
    else Some((if t[0] == MINUS then -(d.value.0 as int) else d.value.0, d.value.1))
  }

  function ReadValue(t: Units): (r: Option<(Value, Units)>)
    ensures r.Some? ==> |r.value.1| < |t|
    decreases |t|, 1
  {
    if t == [] then None
    else if NULL_TEXT <= t then Some((Null, t[4..]))
    else if TRUE_TEXT <= t then Some((Bool(true), t[4..]))
    else if FALSE_TEXT <= t then Some((Bool(false), t[5..]))
    else if t[0] == QUOTE then
      var s := ReadString(t[1..]);
      if s.None? then None else Some((Str(s.value.0), s.value.1))
    else if t[0] == OPEN_BRACKET then
      (if |t| > 1 && t[1] == CLOSE_BRACKET then Some((Arr([]), t[2..]))
       else
         var es := ReadElems(t[1..]);
         if es.None? then None else Some((Arr(es.value.0), es.value.1)))
    else if t[0] == OPEN_BRACE then
      (if |t| > 1 && t[1] == CLOSE_BRACE then Some((Obj([]), t[2..]))
       else
         var es := ReadEntries(t[1..]);
         if es.None? then None else Some((Obj(es.value.0), es.value.1)))
    else
      var n := ReadNumber(t);
      if n.None? then None else Some((Num(n.value.0), n.value.1))
  }

  /** One value or more, then the closing bracket. */
  function ReadElems(t: Units): (r: Option<(seq<Value>, Units)>)
    ensures r.Some? ==> |r.value.1| < |t|
    decreases |t|, 2
  {
    var v := ReadValue(t);
    if v.None? || v.value.1 == [] then None
    else
      var rest := v.value.1;
      if rest[0] == CLOSE_BRACKET then Some(([v.value.0], rest[1..]))
      else if rest[0] != COMMA then None
      else
        var more := ReadElems(rest[1..]);
        if more.None? then None else Some(([v.value.0] + more.value.0, more.value.1))
  }

  function ReadEntry(t: Units): (r: Option<(Entry, Units)>)
    ensures r.Some? ==> |r.value.1| < |t|
    decreases |t|, 2
  {
    if t == [] || t[0] != QUOTE then None
    else
      var k := ReadString(t[1..]);
      if k.None? || k.value.1 == [] || k.value.1[0] != COLON then None
      else
        var v := ReadValue(k.value.1[1..]);
        if v.None? then None else Some((Entry(k.value.0, v.value.0), v.value.1))
  }

  function ReadEntries(t: Units): (r: Option<(seq<Entry>, Units)>)
    ensures r.Some? ==> |r.value.1| < |t|
    decreases |t|, 3
  {
    var e := ReadEntry(t);
    if e.None? || e.value.1 == [] then None
    else
      var rest := e.value.1;
      if rest[0] == CLOSE_BRACE then Some(([e.value.0], rest[1..]))
      else if rest[0] != COMMA then None
      else
        var more := ReadEntries(rest[1..]);
        if more.None? then None else Some(([e.value.0] + more.value.0, more.value.1))
  }

  // ---- Reading back what was written ----

  lemma HexReads(d: int)
    requires 0 <= d < 16
    ensures HexValue(Hex(d)) == Some(d)
  {
  }

  lemma HexParts(u: Unit)
    ensures u == u / 4096 * 4096 + u / 256 % 16 * 256 + u / 16 % 16 * 16 + u % 16
  {
    assert u / 256 == u / 256 / 16 * 16 + u / 256 % 16 && u / 256 / 16 == u / 4096;
    assert u / 16 == u / 16 / 16 * 16 + u / 16 % 16 && u / 16 / 16 == u / 256;
  }

  lemma Hex4Reads(u: Unit)
    ensures ReadHex4(Hex4(u)) == Some(u)
  {
    HexReads(u / 4096);
    HexReads(u / 256 % 16);
    HexReads(u / 16 % 16);
    HexReads(u % 16);
    HexParts(u);
    hide Hex, HexValue;
  }

  lemma UnitReads(u: Unit, rest: Units)
    ensures ReadUnit(EscapeUnit(u) + rest) == Some((u, |EscapeUnit(u)|)) && EscapeUnit(u)[0] != QUOTE
  {
    var t := EscapeUnit(u) + rest;
    if ShortEscape(u).None? && (u < 0x20 || High(u) || Low(u)) {
      Hex4Reads(u);
      assert t[2..6] == Hex4(u);
    }
  }

  /** One escaped unit is read before the rest of the string. */
  lemma UnitThenString(u: Unit, tail: Units, s: Units, rest: Units)
    requires ReadString(tail) == Some((s, rest))
    ensures ReadString(EscapeUnit(u) + tail) == Some(([u] + s, rest))
  {
    UnitReads(u, tail);
    var t := EscapeUnit(u) + tail;
    assert t[0] == EscapeUnit(u)[0] && t[|EscapeUnit(u)|..] == tail;
    hide EscapeUnit, ReadUnit;
  }

  /** The halves of a surrogate pair are read one after the other. */
  lemma PairThenString(a: Unit, b: Unit, tail: Units, s: Units, rest: Units)
    requires High(a) && Low(b) && ReadString(tail) == Some((s, rest))
    ensures ReadString([a, b] + tail) == Some(([a, b] + s, rest))
  {
    var t := [a, b] + tail;
    assert t[1..] == [b] + tail && t[1..][1..] == tail;
    assert ReadString(t[1..]) == Some(([b] + s, rest));
    assert [a] + ([b] + s) == [a, b] + s;
  }

  lemma {:induction false} StringReads(s: Units, rest: Units)
    ensures ReadString(Escape(s) + [QUOTE] + rest) == Some((s, rest))
    decreases |s|
  {
    hide ReadString, EscapeUnit;
    var t := Escape(s) + [QUOTE] + rest;
    if s == [] {
      assert t == [QUOTE] + rest;
      ClosingQuote(rest);
    } else if |s| > 1 && High(s[0]) && Low(s[1]) {
      var tail := Escape(s[2..]) + [QUOTE] + rest;
      StringReads(s[2..], rest);
      PairThenString(s[0], s[1], tail, s[2..], rest);
      assert t == [s[0], s[1]] + tail && s == [s[0], s[1]] + s[2..];
    } else {
      var tail := Escape(s[1..]) + [QUOTE] + rest;
      StringReads(s[1..], rest);
      UnitThenString(s[0], tail, s[1..], rest);
      assert t == EscapeUnit(s[0]) + tail && s == [s[0]] + s[1..];
    }
  }

  lemma ClosingQuote(rest: Units)
    ensures ReadString([QUOTE] + rest) == Some(([], rest))
  {
    assert ([QUOTE] + rest)[1..] == rest;
  }

  lemma {:induction false} RunReads(a: Units, rest: Units)
    requires forall i :: 0 <= i < |a| ==> DigitUnit(a[i])
    requires rest == [] || !DigitUnit(rest[0])
    ensures DigitRun(a + rest) == |a|
  {
    if a == [] {
      assert a + rest == rest;
    } else {
      assert (a + rest)[1..] == a[1..] + rest;
      RunReads(a[1..], rest);
    }
  }

  /** The digits of a numeral and its sign. */
  lemma NumeralParts(n: int)
    ensures var m := if n < 0 then -n else n; var a := if n < 0 then DecimalUnits(n)[1..] else DecimalUnits(n);
            && |a| == |Digits(m)| && (forall i :: 0 <= i < |a| ==> DigitUnit(a[i]) && a[i] == Digits(m)[i] as int)
            && (n < 0 <==> DecimalUnits(n)[0] == MINUS)
  {
    hide Digits;
  }

  lemma DigitsRead(m: nat, a: Units, rest: Units)
    requires |a| == |Digits(m)| && forall i :: 0 <= i < |a| ==> DigitUnit(a[i]) && a[i] == Digits(m)[i] as int
    requires rest == [] || !DigitUnit(rest[0])
    ensures ReadDigits(a + rest) == Some((m, rest))
  {
    DigitsDenote(m);
    RunReads(a, rest);
    hide Digits, DigitsValue, DigitRun;
    assert (a + rest)[..|a|] == a && (a + rest)[|a|..] == rest;
    assert DigitChars(a) == Digits(m);
  }

  lemma NumberReads(n: SafeInt, rest: Units)
    requires rest == [] || !DigitUnit(rest[0])
    ensures ReadNumber(DecimalUnits(n) + rest) == Some((n, rest))
  {
    NumeralParts(n);
    hide ReadDigits, Digits, DigitRun, Decimal;
    if n < 0 {
      DigitsRead(-n, DecimalUnits(n)[1..], rest);
      assert (DecimalUnits(n) + rest)[1..] == DecimalUnits(n)[1..] + rest;
    } else {
      DigitsRead(n, DecimalUnits(n), rest);
    }
  }

  /** No `Undefined` inside. */
  ghost predicate Clean(v: Value) {
    match v
    case Undefined => false
    case Arr(elems) => AllClean(elems)
    case Obj(entries) => EntriesClean(entries)
    case _ => true
  }

  ghost predicate AllClean(elems: seq<Value>) { elems == [] || (Clean(elems[0]) && AllClean(elems[1..])) }

  ghost predicate EntriesClean(entries: seq<Entry>) {
    entries == [] || (Clean(entries[0].value) && EntriesClean(entries[1..]))
  }

  /** What may follow a number. */
  ghost predicate Follows(rest: Units) { rest == [] || !DigitUnit(rest[0]) }

  lemma ConstantReads(rest: Units)
    ensures ReadValue(NULL_TEXT + rest) == Some((Null, rest))
    ensures ReadValue(TRUE_TEXT + rest) == Some((Bool(true), rest))
    ensures ReadValue(FALSE_TEXT + rest) == Some((Bool(false), rest))
  {
    assert (NULL_TEXT + rest)[4..] == rest;
    assert (TRUE_TEXT + rest)[4..] == rest && (TRUE_TEXT + rest)[0] != NULL_TEXT[0];
    assert (FALSE_TEXT + rest)[5..] == rest && (FALSE_TEXT + rest)[0] != NULL_TEXT[0] && (FALSE_TEXT + rest)[0] != TRUE_TEXT[0];
  }

  /** Which kind of value a text starts with is told by its first unit. */
  lemma FirstUnit(t: Units)
    requires t != [] && t[0] != 110 && t[0] != 116 && t[0] != 102
    ensures !(NULL_TEXT <= t) && !(TRUE_TEXT <= t) && !(FALSE_TEXT <= t)
  {
    assert NULL_TEXT[0] == 110 && TRUE_TEXT[0] == 116 && FALSE_TEXT[0] == 102;
  }

  lemma PrintedStart(v: Value)
    ensures Print(v) != [] && Print(v)[0] != CLOSE_BRACKET && Print(v)[0] != CLOSE_BRACE && Print(v)[0] != COMMA
  {
  }

  lemma NumReads(n: SafeInt, rest: Units)
    requires Follows(rest)
    ensures ReadValue(DecimalUnits(n) + rest) == Some((Num(n), rest))
  {
    NumberReads(n, rest);
    hide ReadNumber, Decimal;
    FirstUnit(DecimalUnits(n) + rest);
  }

  lemma StrReads(s: Units, rest: Units)
    ensures ReadValue(Quote(s) + rest) == Some((Str(s), rest))
  {
    var t := Quote(s) + rest;
    StringReads(s, rest);
    FirstUnit(t);
    assert t[1..] == Escape(s) + [QUOTE] + rest;
  }

  lemma ArrReads(elems: seq<Value>, body: Units, rest: Units)
    requires if elems == [] then body == [CLOSE_BRACKET] + rest
             else body != [] && body[0] != CLOSE_BRACKET && ReadElems(body) == Some((elems, rest))
    ensures ReadValue([OPEN_BRACKET] + body) == Some((Arr(elems), rest))
  {
    var t := [OPEN_BRACKET] + body;
    FirstUnit(t);
    assert t[1..] == body && (elems == [] ==> t[2..] == rest);
  }

  lemma ObjReads(entries: seq<Entry>, body: Units, rest: Units)
    requires if entries == [] then body == [CLOSE_BRACE] + rest
             else body != [] && body[0] != CLOSE_BRACE && ReadEntries(body) == Some((entries, rest))
    ensures ReadValue([OPEN_BRACE] + body) == Some((Obj(entries), rest))
  {
    var t := [OPEN_BRACE] + body;
    FirstUnit(t);
    assert t[1..] == body && (entries == [] ==> t[2..] == rest);
  }

  lemma {:induction false} ValueReads(v: Value, rest: Units)
    requires Clean(v) && Follows(rest)
    ensures ReadValue(Print(v) + rest) == Some((v, rest))
    decreases v, 1
  {
    hide ReadValue, ReadElems, ReadEntries, Follows, DecimalUnits, Escape;
    match v {
      case Null => ConstantReads(rest);
      case Bool(_) => ConstantReads(rest);
      case Num(n) => NumReads(n, rest);
      case Str(s) => StrReads(s, rest);
      case Arr(elems) =>
        var body := PrintElems(elems) + [CLOSE_BRACKET] + rest;
        assert Print(v) + rest == [OPEN_BRACKET] + body;
        if elems != [] {
          PrintedStart(elems[0]);
          ElemsRead(v, elems, rest);
        }
        ArrReads(elems, body, rest);
      case Obj(entries) =>
        var body := PrintEntries(entries) + [CLOSE_BRACE] + rest;
        assert Print(v) + rest == [OPEN_BRACE] + body;
        if entries != [] { EntriesRead(v, entries, rest); }
        ObjReads(entries, body, rest);
    }
  }

  lemma {:induction false} ElemsRead(v: Value, elems: seq<Value>, rest: Units)
    requires v.Arr? && elems != [] && AllClean(elems) && forall e :: e in elems ==> e in v.elems
    ensures ReadElems(PrintElems(elems) + [CLOSE_BRACKET] + rest) == Some((elems, rest))
    decreases v, 0, |elems|
  {
    hide ReadValue, Print, Clean;
    assert elems[0] in v.elems;
    if |elems| == 1 {
      ValueReads(elems[0], [CLOSE_BRACKET] + rest);
      assert PrintElems(elems) + [CLOSE_BRACKET] + rest == Print(elems[0]) + ([CLOSE_BRACKET] + rest);
      assert elems == [elems[0]] && ([CLOSE_BRACKET] + rest)[1..] == rest;
    } else {
      var more := PrintElems(elems[1..]) + [CLOSE_BRACKET] + rest;
      ValueReads(elems[0], [COMMA] + more);
      assert PrintElems(elems) + [CLOSE_BRACKET] + rest == Print(elems[0]) + ([COMMA] + more);
      assert ([COMMA] + more)[1..] == more;
      ElemsRead(v, elems[1..], rest);
      assert elems == [elems[0]] + elems[1..];
    }
  }

  lemma {:induction false} EntryReads(e: Entry, rest: Units)
    requires Clean(e.value) && Follows(rest)
    ensures ReadEntry(PrintEntry(e) + rest) == Some((e, rest))
    decreases e, 2
  {
    var after := [COLON] + (Print(e.value) + rest);
    KeyReads(e, rest);
    ValueReads(e.value, rest);
    hide ReadValue, ReadString, Print, PrintEntry;
    assert after[1..] == Print(e.value) + rest;
  }

  lemma KeyReads(e: Entry, rest: Units)
    ensures var t := PrintEntry(e) + rest;
            t != [] && t[0] == QUOTE && ReadString(t[1..]) == Some((e.key, [COLON] + (Print(e.value) + rest)))
  {
    hide Escape, Print, ReadString;
    var t := PrintEntry(e) + rest;
    var after := [COLON] + (Print(e.value) + rest);
    assert t[1..] == Escape(e.key) + [QUOTE] + after;
    StringReads(e.key, after);
  }

  lemma {:induction false} EntriesRead(v: Value, entries: seq<Entry>, rest: Units)
    requires v.Obj? && entries != [] && EntriesClean(entries) && forall e :: e in entries ==> e in v.entries
    ensures ReadEntries(PrintEntries(entries) + [CLOSE_BRACE] + rest) == Some((entries, rest))
    decreases v, 0, |entries|
  {
    hide ReadEntry, PrintEntry, Clean;
    assert entries[0] in v.entries;
    if |entries| == 1 {
      EntryReads(entries[0], [CLOSE_BRACE] + rest);
      assert PrintEntries(entries) + [CLOSE_BRACE] + rest == PrintEntry(entries[0]) + ([CLOSE_BRACE] + rest);
      assert entries == [entries[0]] && ([CLOSE_BRACE] + rest)[1..] == rest;
    } else {
      var more := PrintEntries(entries[1..]) + [CLOSE_BRACE] + rest;
      EntryReads(entries[0], [COMMA] + more);
      assert PrintEntries(entries) + [CLOSE_BRACE] + rest == PrintEntry(entries[0]) + ([COMMA] + more);
      assert ([COMMA] + more)[1..] == more;
      EntriesRead(v, entries[1..], rest);
      assert entries == [entries[0]] + entries[1..];
    }
  }

  /** A reader recovers the value from its text, so distinct values have distinct texts. */
  lemma PrintInjective(v: Value, w: Value)
    requires Clean(v) && Clean(w) && Print(v) == Print(w)
    ensures v == w
  {
    ValueReads(v, []);
    ValueReads(w, []);
    assert Print(v) + [] == Print(v) && Print(w) + [] == Print(w);
  }
}
