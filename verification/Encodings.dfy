/**
  Unicode scalar values in UTF-8 and UTF-16, and how the three orders in which the canonicalisers
  sort keys (code points, UTF-8 bytes, UTF-16 units) compare.
*/
module Encodings {
  import opened Order
  import B = Base64url
  import J = Json

  type Scalar = c: int | 0 <= c < 0x110000 && !(0xD800 <= c < 0xE000)
  type Scalars = seq<Scalar>

  /** The scalar values of a string. */
  function FromString(s: string): (r: Scalars)
    ensures |r| == |s| && forall i :: 0 <= i < |s| ==> r[i] == s[i] as int
  {
    seq(|s|, i requires 0 <= i < |s| => s[i] as int)
  }

  function Encode<T>(code: Scalar -> seq<T>, s: Scalars): seq<T> {
    if s == [] then [] else code(s[0]) + Encode(code, s[1..])
  }

  function Utf8Char(c: Scalar): (r: seq<B.Byte>)
    ensures |r| > 0
  {
    if c < 0x80 then [c]
    else if c < 0x800 then [0xC0 + c / 64, 0x80 + c % 64]
    else if c < 0x10000 then [0xE0 + c / 4096, 0x80 + c / 64 % 64, 0x80 + c % 64]
    else [0xF0 + c / 262144, 0x80 + c / 4096 % 64, 0x80 + c / 64 % 64, 0x80 + c % 64]
  }

  function Utf16Char(c: Scalar): (r: J.Units)
    ensures |r| > 0
  {
    if c < 0x10000 then [c]
    else [0xD800 + (c - 0x10000) / 1024, 0xDC00 + (c - 0x10000) % 1024]
  }

  predicate Continues(b: B.Byte) { 0x80 <= b <= 0xBF }

  /** The four forms of section 3 of RFC 3629, each with the number its bits make. */
  lemma Utf8Exactly(c: Scalar)
    ensures var r := Utf8Char(c);
            if c < 0x80 then r == [c]
            else if c < 0x800 then
              |r| == 2 && 0xC0 <= r[0] <= 0xDF && Continues(r[1]) && c == (r[0] as int - 0xC0) * 0x40 + (r[1] as int - 0x80)
            else if c < 0x10000 then
              && |r| == 3 && 0xE0 <= r[0] <= 0xEF && Continues(r[1]) && Continues(r[2])
              && c == (r[0] as int - 0xE0) * 0x1000 + (r[1] as int - 0x80) * 0x40 + (r[2] as int - 0x80)
            else
              && |r| == 4 && 0xF0 <= r[0] <= 0xF7 && Continues(r[1]) && Continues(r[2]) && Continues(r[3])
              && c == (r[0] as int - 0xF0) * 0x4_0000 + (r[1] as int - 0x80) * 0x1000 + (r[2] as int - 0x80) * 0x40 + (r[3] as int - 0x80)
  {
    Quotients(c);
  }

  /** The two forms of section 2 of RFC 2781. */
  lemma Utf16Exactly(c: Scalar)
    ensures var r := Utf16Char(c);
            if c < 0x10000 then r == [c]
            else |r| == 2 && J.High(r[0]) && J.Low(r[1]) && c == 0x10000 + (r[0] as int - 0xD800) * 0x400 + (r[1] as int - 0xDC00)
  {
  }

  function Utf8(s: Scalars): seq<B.Byte> { Encode(Utf8Char, s) }

  function Utf16(s: Scalars): J.Units { Encode(Utf16Char, s) }

  lemma {:induction false} EncodeConcat<T>(code: Scalar -> seq<T>, a: Scalars, b: Scalars)
    ensures Encode(code, a + b) == Encode(code, a) + Encode(code, b)
    decreases |a|
  {
    if a == [] {
      assert a + b == b;
    } else {
      assert (a + b)[1..] == a[1..] + b;
      EncodeConcat(code, a[1..], b);
    }
  }

  lemma EncodeOne<T>(code: Scalar -> seq<T>, c: Scalar)
    ensures Encode(code, [c]) == code(c)
  {
    assert Encode(code, [c][1..]) == [];
  }

  // ---- Lexicographic order of concatenated codes ----

  lemma {:induction false} LessSamePrefix(p: seq<int>, s: seq<int>, t: seq<int>)
    ensures Less(p + s, p + t) <==> Less(s, t)
    decreases |p|
  {
    if p == [] {
      assert p + s == s && p + t == t;
    } else {
      assert (p + s)[1..] == p[1..] + s && (p + t)[1..] == p[1..] + t;
      LessSamePrefix(p[1..], s, t);
    }
  }

  lemma {:induction false} LessAt(a: seq<int>, b: seq<int>, k: nat)
    requires k < |a| && k < |b| && a[..k] == b[..k] && a[k] < b[k]
    ensures Less(a, b)
    decreases k
  {
    if k > 0 {
      assert a[0] == a[..k][0] == b[..k][0] == b[0];
      assert a[1..][..k - 1] == a[..k][1..] && b[1..][..k - 1] == b[..k][1..];
      LessAt(a[1..], b[1..], k - 1);
    }
  }

  /** Codes of distinct scalars differ at a place where both still have a unit. */
  ghost predicate DifferAt(a: seq<int>, b: seq<int>, k: nat) {
    k < |a| && k < |b| && a[..k] == b[..k] && a[k] < b[k]
  }

  lemma LessOfCodes(a: seq<int>, b: seq<int>, k: nat, s: seq<int>, t: seq<int>)
    requires DifferAt(a, b, k)
    ensures Less(a + s, b + t) && !Less(b + t, a + s)
  {
    assert (a + s)[..k] == a[..k] && (b + t)[..k] == b[..k];
    LessAt(a + s, b + t, k);
    LessAsymmetric(a + s, b + t);
  }

  lemma Utf8LongerIsGreater(x: Scalar, y: Scalar)
    requires |Utf8Char(x)| < |Utf8Char(y)|
    ensures x < y && Utf8Char(x)[0] < Utf8Char(y)[0]
  {
  }

  lemma Quotients(c: Scalar)
    ensures c == c / 64 * 64 + c % 64
    ensures c / 64 == c / 4096 * 64 + c / 64 % 64
    ensures c / 4096 == c / 262144 * 64 + c / 4096 % 64
  {
    assert c / 64 / 64 == c / 4096 && c / 4096 / 64 == c / 262144;
  }

  lemma Utf8SameLength(x: Scalar, y: Scalar) returns (k: nat)
    requires x < y && |Utf8Char(x)| == |Utf8Char(y)|
    ensures DifferAt(Utf8Char(x), Utf8Char(y), k)
  {
    if y < 0x80 {
      k := 0;
    } else if y < 0x800 {
      k := if x / 64 < y / 64 then 0 else 1;
      assert k == 1 ==> Utf8Char(x)[..1] == Utf8Char(y)[..1];
    } else if y < 0x10000 {
      k := Utf8Three(x, y);
    } else {
      k := Utf8Four(x, y);
    }
  }

  lemma Utf8Three(x: Scalar, y: Scalar) returns (k: nat)
    requires 0x800 <= x < y < 0x10000
    ensures DifferAt(Utf8Char(x), Utf8Char(y), k)
  {
    Quotients(x);
    Quotients(y);
    if x / 4096 < y / 4096 {
      k := 0;
    } else if x / 64 < y / 64 {
      k := 1;
      assert Utf8Char(x)[..1] == Utf8Char(y)[..1];
    } else {
      k := 2;
      assert Utf8Char(x)[..2] == Utf8Char(y)[..2];
    }
  }

  lemma Utf8Four(x: Scalar, y: Scalar) returns (k: nat)
    requires 0x10000 <= x < y
    ensures DifferAt(Utf8Char(x), Utf8Char(y), k)
  {
    Quotients(x);
    Quotients(y);
    if x / 262144 < y / 262144 {
      k := 0;
    } else if x / 4096 < y / 4096 {
      k := 1;
      assert Utf8Char(x)[..1] == Utf8Char(y)[..1];
    } else if x / 64 < y / 64 {
      k := 2;
      assert Utf8Char(x)[..2] == Utf8Char(y)[..2];
    } else {
      k := 3;
      assert Utf8Char(x)[..3] == Utf8Char(y)[..3];
    }
  }

  lemma Utf8CharOrder(x: Scalar, y: Scalar, s: seq<int>, t: seq<int>)
    requires x < y
    ensures Less(Utf8Char(x) + s, Utf8Char(y) + t) && !Less(Utf8Char(y) + t, Utf8Char(x) + s)
  {
    hide Utf8Char;
    if |Utf8Char(x)| == |Utf8Char(y)| {
      var k := Utf8SameLength(x, y);
      LessOfCodes(Utf8Char(x), Utf8Char(y), k, s, t);
    } else {
      if |Utf8Char(y)| < |Utf8Char(x)| { Utf8LongerIsGreater(y, x); }
      Utf8LongerIsGreater(x, y);
      LessOfCodes(Utf8Char(x), Utf8Char(y), 0, s, t);
    }
  }

  /** UTF-8 bytes sort as code points do. */
  lemma {:induction false} Utf8KeepsOrder(a: Scalars, b: Scalars)
    ensures Less(Utf8(a), Utf8(b)) <==> Less(a, b)
    decreases |a|
  {
    hide Utf8Char;
    if a != [] && b != [] {
      if a[0] == b[0] {
        LessSamePrefix(Utf8Char(a[0]), Utf8(a[1..]), Utf8(b[1..]));
        Utf8KeepsOrder(a[1..], b[1..]);
      } else if a[0] < b[0] {
        Utf8CharOrder(a[0], b[0], Utf8(a[1..]), Utf8(b[1..]));
      } else {
        Utf8CharOrder(b[0], a[0], Utf8(b[1..]), Utf8(a[1..]));
      }
    }
  }

  /** One is beyond the basic plane, the other in the part of it above the surrogates. */
  predicate Crossing(x: Scalar, y: Scalar) {
    (0xE000 <= x < 0x10000 && 0x10000 <= y) || (0xE000 <= y < 0x10000 && 0x10000 <= x)
  }

  /** The first difference of the two strings is such a pair. */
  predicate Crosses(a: Scalars, b: Scalars) {
    a != [] && b != [] && if a[0] != b[0] then Crossing(a[0], b[0]) else Crosses(a[1..], b[1..])
  }

  lemma Utf16CharOrder(x: Scalar, y: Scalar, s: seq<int>, t: seq<int>)
    requires x < y
    ensures Less(Utf16Char(x) + s, Utf16Char(y) + t) <==> !Crossing(x, y)
    ensures Less(Utf16Char(y) + t, Utf16Char(x) + s) <==> Crossing(x, y)
  {
    var a, b := Utf16Char(x), Utf16Char(y);
    if x < 0x10000 {
      if Crossing(x, y) { LessOfCodes(b, a, 0, t, s); } else { LessOfCodes(a, b, 0, s, t); }
    } else {
      var k := if (x - 0x10000) / 1024 < (y - 0x10000) / 1024 then 0 else 1;
      LessOfCodes(a, b, k, s, t);
    }
  }

  /** UTF-16 units sort as code points do, except across that boundary, where they sort backwards. */
  lemma {:induction false} Utf16Order(a: Scalars, b: Scalars)
    ensures Less(Utf16(a), Utf16(b)) <==> (Less(a, b) != Crosses(a, b))
    decreases |a|
  {
    hide Utf16Char;
    if a != [] && b != [] {
      if a[0] == b[0] {
        LessSamePrefix(Utf16Char(a[0]), Utf16(a[1..]), Utf16(b[1..]));
        Utf16Order(a[1..], b[1..]);
      } else if a[0] < b[0] {
        Utf16CharOrder(a[0], b[0], Utf16(a[1..]), Utf16(b[1..]));
      } else {
        Utf16CharOrder(b[0], a[0], Utf16(b[1..]), Utf16(a[1..]));
      }
    }
  }

  /** Different strings have different encodings. */
  lemma EncodingsInjective(a: Scalars, b: Scalars)
    ensures Utf8(a) == Utf8(b) ==> a == b
    ensures Utf16(a) == Utf16(b) ==> a == b
  {
    LessTotal(a, b);
    Utf8KeepsOrder(a, b);
    Utf8KeepsOrder(b, a);
    Utf16Order(a, b);
    Utf16Order(b, a);
    CrossesSymmetric(a, b);
    LessIrreflexive(Utf8(a));
    LessIrreflexive(Utf16(a));
    LessAsymmetric(a, b);
  }

  lemma {:induction false} CrossesSymmetric(a: Scalars, b: Scalars)
    ensures Crosses(a, b) == Crosses(b, a)
    decreases |a|
  {
    if a != [] && b != [] && a[0] == b[0] { CrossesSymmetric(a[1..], b[1..]); }
  }

  predicate Bmp(s: Scalars) { forall i :: 0 <= i < |s| ==> s[i] < 0x10000 }

  lemma {:induction false} BmpNeverCrosses(a: Scalars, b: Scalars)
    requires Bmp(a) && Bmp(b)
    ensures !Crosses(a, b)
    decreases |a|
  {
    if a != [] && b != [] && a[0] == b[0] { BmpNeverCrosses(a[1..], b[1..]); }
  }

  /** ASCII text is its own encoding in both forms. */
  lemma {:induction false} PlainUnits(s: Scalars)
    requires forall i :: 0 <= i < |s| ==> s[i] < 0x80
    ensures Utf16(s) == s && Utf8(s) == s
    decreases |s|
  {
    if s != [] {
      PlainUnits(s[1..]);
      assert s == [s[0]] + s[1..];
    }
  }
}
