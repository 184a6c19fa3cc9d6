/** Decimal numerals, separators and character codes: the text under every hash and key. */
module Text {

  datatype Option<+T> = None | Some(value: T)

  /** The integers that a JavaScript number holds exactly and prints in plain decimal. */
  type SafeInt = n: int | -0x1F_FFFF_FFFF_FFFF <= n <= 0x1F_FFFF_FFFF_FFFF

  /** The units of an ASCII string, in the form `Order.Less` compares. */
  function Codes(s: string): (r: seq<int>)
    ensures |r| == |s| && forall i :: 0 <= i < |s| ==> r[i] == s[i] as int
  {
    seq(|s|, i requires 0 <= i < |s| => s[i] as int)
  }

  lemma CodesInjective(a: string, b: string)
    requires Codes(a) == Codes(b)
    ensures a == b
  {
    assert |a| == |Codes(a)| == |Codes(b)| == |b|;
    forall i | 0 <= i < |a| ensures a[i] == b[i] {
      assert Codes(a)[i] == Codes(b)[i];
    }
  }

  predicate IsDigit(c: char) { '0' <= c <= '9' }

  function Digit(d: int): (c: char)
    requires 0 <= d < 10
    ensures IsDigit(c) && c as int - 48 == d
  {
    (48 + d) as char
  }

  function DigitValue(c: char): nat
    requires IsDigit(c)
  {
    c as int - 48
  }

  function Digits(n: nat): (s: string)
    ensures |s| >= 1 && forall i :: 0 <= i < |s| ==> IsDigit(s[i])
  {
    if n < 10 then [Digit(n)] else Digits(n / 10) + [Digit(n % 10)]
  }

  /** `${n}` for an integer. */
  function Decimal(n: int): (s: string)
    ensures |s| >= 1 && (IsDigit(s[0]) || (s[0] == '-' && n < 0))
    ensures forall i :: 0 <= i < |s| ==> IsDigit(s[i]) || s[i] == '-'
  {
    if n < 0 then "-" + Digits(-n) else Digits(n)
  }

  /** The number a digit string denotes. */
  function DigitsValue(s: string): nat
    requires forall i :: 0 <= i < |s| ==> IsDigit(s[i])
  {
    if s == [] then 0 else 10 * DigitsValue(s[..|s| - 1]) + DigitValue(s[|s| - 1])
  }

  lemma {:induction false} DigitsDenote(n: nat)
    ensures DigitsValue(Digits(n)) == n
  {
    if n >= 10 {
      DigitsDenote(n / 10);
      assert Digits(n)[..|Digits(n)| - 1] == Digits(n / 10);
    } else {
      assert Digits(n)[..0] == [];
    }
  }

  lemma DecimalInjective(m: int, n: int)
    requires Decimal(m) == Decimal(n)
    ensures m == n
  {
    assert m < 0 <==> Decimal(m)[0] == '-';
    assert n < 0 <==> Decimal(n)[0] == '-';
    if m < 0 {
      assert Digits(-m) == Decimal(m)[1..] == Decimal(n)[1..] == Digits(-n);
      DigitsDenote(-m);
      DigitsDenote(-n);
    } else {
      DigitsDenote(m);
      DigitsDenote(n);
    }
  }

  /** Digits without a leading zero. */
  predicate Numeral(s: string) { s != "" && (forall i :: 0 <= i < |s| ==> IsDigit(s[i])) && (|s| > 1 ==> s[0] != '0') }

  lemma {:induction false} DigitsAreNumeral(n: nat)
    ensures Numeral(Digits(n)) && (n > 0 ==> Digits(n)[0] != '0')
  {
    if n >= 10 { DigitsAreNumeral(n / 10); }
  }

  lemma {:induction false} NumeralPositive(s: string)
    requires Numeral(s) && s[0] != '0'
    ensures DigitsValue(s) > 0
  {
    if |s| > 1 {
      NumeralPositive(s[..|s| - 1]);
    } else {
      assert s[..0] == [];
    }
  }

  /** There is one numeral for every number. */
  lemma {:induction false} NumeralUnique(s: string)
    requires Numeral(s)
    ensures Digits(DigitsValue(s)) == s
    decreases |s|
  {
    var init, last := s[..|s| - 1], s[|s| - 1];
    assert s == init + [last];
    if |s| > 1 {
      NumeralUnique(init);
      NumeralPositive(init);
    } else {
      assert DigitsValue(init) == 0;
    }
  }

  /** The decimal form of an integer is its one numeral, after a minus sign where it is negative. */
  lemma DecimalExactly(n: int, s: string)
    ensures s == Decimal(n) <==>
              if n < 0 then s != "" && s[0] == '-' && Numeral(s[1..]) && DigitsValue(s[1..]) == -n
              else Numeral(s) && DigitsValue(s) == n
  {
    var t := if n < 0 && s != "" then s[1..] else s;
    DigitsDenote(if n < 0 then -n else n);
    DigitsAreNumeral(if n < 0 then -n else n);
    if Numeral(t) { NumeralUnique(t); }
    if n < 0 && s != "" { assert s == [s[0]] + s[1..]; }
  }

  predicate Free(sep: char, s: string) { sep !in s }

  /** Position of the first separator; the length when there is none. */
  function FirstIndex(sep: char, s: string): nat {
    if s == [] || s[0] == sep then 0 else 1 + FirstIndex(sep, s[1..])
  }

  function LastIndex(sep: char, s: string): int {
    if s == [] || s[|s| - 1] == sep then |s| - 1 else LastIndex(sep, s[..|s| - 1])
  }

  lemma {:induction false} FirstIndexIs(sep: char, a: string, b: string)
    requires Free(sep, a)
    ensures FirstIndex(sep, a + [sep] + b) == |a|
  {
    if a == [] {
      assert a + [sep] + b == [sep] + b;
    } else {
      assert a + [sep] + b == [a[0]] + (a[1..] + [sep] + b);
      FirstIndexIs(sep, a[1..], b);
    }
  }

  lemma {:induction false} LastIndexIs(sep: char, a: string, b: string)
    requires Free(sep, b)
    ensures LastIndex(sep, a + [sep] + b) == |a|
  {
    var s := a + [sep] + b;
    if b == [] {
      assert s == a + [sep];
    } else {
      var b' := b[..|b| - 1];
      assert s[|s| - 1] == b[|b| - 1];
      assert s[..|s| - 1] == a + [sep] + b';
      LastIndexIs(sep, a, b');
    }
  }

  lemma SplitAt(sep: char, a: string, b: string, a': string, b': string)
    requires a + [sep] + b == a' + [sep] + b' && |a| == |a'|
    ensures a == a' && b == b'
  {
    var s, t := a + [sep] + b, a' + [sep] + b';
    assert a == s[..|a|] == t[..|a|] == a';
    assert b == s[|a| + 1..] == t[|a| + 1..] == b';
  }

  /** Text before the first separator is determined. */
  lemma SplitFirst(sep: char, a: string, b: string, a': string, b': string)
    requires Free(sep, a) && Free(sep, a')
    requires a + [sep] + b == a' + [sep] + b'
    ensures a == a' && b == b'
  {
    FirstIndexIs(sep, a, b);
    FirstIndexIs(sep, a', b');
    SplitAt(sep, a, b, a', b');
  }

  /** Text after the last separator is determined. */
  lemma SplitLast(sep: char, a: string, b: string, a': string, b': string)
    requires Free(sep, b) && Free(sep, b')
    requires a + [sep] + b == a' + [sep] + b'
    ensures a == a' && b == b'
  {
    LastIndexIs(sep, a, b);
    LastIndexIs(sep, a', b');
    SplitAt(sep, a, b, a', b');
  }

  /** `parts.join(sep)` */
  function Join(sep: string, parts: seq<string>): string {
    if |parts| == 0 then ""
    else if |parts| == 1 then parts[0]
    else parts[0] + sep + Join(sep, parts[1..])
  }

  /** Each part after the first comes after a separator. */
  lemma {:induction false} JoinExactly(sep: string, parts: seq<string>, x: string)
    ensures Join(sep, []) == "" && Join(sep, [x]) == x
    ensures parts != [] ==> Join(sep, parts + [x]) == Join(sep, parts) + sep + x
    decreases |parts|
  {
    if |parts| == 1 {
      assert (parts + [x])[1..] == [x];
    } else if parts != [] {
      assert (parts + [x])[1..] == parts[1..] + [x];
      JoinExactly(sep, parts[1..], x);
    }
  }
}
