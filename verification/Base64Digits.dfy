/**
  base64url by numbers (RFC 4648 sections 4 and 5): three bytes and four symbols are one
  number below 2^24, written to base 256 and to base 64.
*/
module Base64Digits {
  import opened Text
  import opened Base64url
  import Chain

  /** Table 2 of RFC 4648. */
  function UrlDigit(d: int): char
    requires 0 <= d < 64
  {
    if d < 26 then 'A' + d as char
    else if d < 52 then 'a' + (d - 26) as char
    else if d < 62 then '0' + (d - 52) as char
    else if d == 62 then '-' else '_'
  }

  function UrlValue(c: char): (d: int)
    requires UrlSymbol(c)
    ensures 0 <= d < 64 && UrlDigit(d) == c
  {
    if 'A' <= c <= 'Z' then (c - 'A') as int
    else if 'a' <= c <= 'z' then (c - 'a') as int + 26
    else if '0' <= c <= '9' then (c - '0') as int + 52
    else if c == '-' then 62 else 63
  }

  function ByteAt(b: seq<Byte>, i: nat): Byte { if i < |b| then b[i] else 0 }

  /** The g-th three bytes as a number, bytes that are not there being zero. */
  function Triple(b: seq<Byte>, g: nat): (v: nat)
    ensures v < 0x100_0000
  {
    ByteAt(b, 3 * g) * 0x1_0000 + ByteAt(b, 3 * g + 1) * 0x100 + ByteAt(b, 3 * g + 2)
  }

  /** Its digits to base 64, from the left. */
  function Digit64(v: nat, j: nat): (d: int)
    requires v < 0x100_0000 && j < 4
    ensures 0 <= d < 64
  {
    if j == 0 then v / 0x4_0000 else if j == 1 then v / 0x1000 % 64 else if j == 2 then v / 64 % 64 else v % 64
  }

  lemma DigitsOfBytes(x: Byte, y: Byte, z: Byte)
    ensures var v := x * 0x1_0000 + y * 0x100 + z;
            && Digit64(v, 0) == x / 4 && Digit64(v, 1) == x % 4 * 16 + y / 16
            && Digit64(v, 2) == y % 16 * 4 + z / 64 && Digit64(v, 3) == z % 64
  {
    var a, b, c, d := x / 4, x % 4 * 16 + y / 16, y % 16 * 4 + z / 64, z % 64;
    assert x * 0x1_0000 + y * 0x100 + z == a * 0x4_0000 + b * 0x1000 + c * 64 + d;
    FourDigits(a, b, c, d);
  }

  lemma FourDigits(a: int, b: int, c: int, d: int)
    requires 0 <= a < 64 && 0 <= b < 64 && 0 <= c < 64 && 0 <= d < 64
    ensures var v := a * 0x4_0000 + b * 0x1000 + c * 64 + d;
            v < 0x100_0000 && Digit64(v, 0) == a && Digit64(v, 1) == b && Digit64(v, 2) == c && Digit64(v, 3) == d
  {
    var v := a * 0x4_0000 + b * 0x1000 + c * 64 + d;
    assert v / 0x1000 == a * 64 + b && v / 64 == (a * 64 + b) * 64 + c;
  }

  lemma ToUrlSymbol(d: int)
    requires 0 <= d < 64
    ensures ToUrl([Symbol(d)]) == [UrlDigit(d)]
  {
  }

  lemma ShiftTriple(b: seq<Byte>, g: nat)
    requires |b| >= 3
    ensures Triple(b[3..], g) == Triple(b, g + 1)
  {
    assert forall i: nat :: ByteAt(b[3..], i) == ByteAt(b, i + 3);
  }

  lemma {:induction false} BodyDigits(b: seq<Byte>, k: nat)
    requires k < |Body(b)|
    ensures Body(b)[k] == Symbol(Digit64(Triple(b, k / 4), k % 4))
    decreases |b|
  {
    hide Symbol, Digit64;
    if k < 4 {
      DigitsOfBytes(ByteAt(b, 0), ByteAt(b, 1), ByteAt(b, 2));
    } else {
      hide Triple;
      BodyDigits(b[3..], k - 4);
      ShiftTriple(b, (k - 4) / 4);
      assert (k - 4) / 4 + 1 == k / 4 && (k - 4) % 4 == k % 4;
    }
  }

  /** Each symbol of an encoding is the url digit of its place in the number of its three bytes. */
  lemma EncodeDigits(b: seq<Byte>, k: nat)
    requires k < |Encode(b)|
    ensures Encode(b)[k] == UrlDigit(Digit64(Triple(b, k / 4), k % 4))
  {
    hide Encode, Symbol, UrlDigit, Digit64, Triple, Body, ToUrl;
    EncodeIsBody(b);
    ToUrlLength(Body(b));
    ToUrlAt(Body(b), k);
    BodyDigits(b, k);
    ToUrlSymbol(Digit64(Triple(b, k / 4), k % 4));
  }

  lemma ToUrlLength(s: string)
    ensures |ToUrl(s)| == |s|
  {
  }

  lemma ToUrlAt(s: string, k: nat)
    requires k < |s|
    ensures |ToUrl(s)| == |s| && [ToUrl(s)[k]] == ToUrl([s[k]])
  {
  }

  // ---- Decoding ----

  predicate AllUrl(s: string) { forall i :: 0 <= i < |s| ==> UrlSymbol(s[i]) }

  function ValueAt(s: string, i: nat): (d: int)
    requires AllUrl(s)
    ensures 0 <= d < 64
  {
    if i < |s| then UrlValue(s[i]) else 0
  }

  /** The g-th four symbols as a number, symbols that are not there being zero. */
  function Quadruple(s: string, g: nat): (v: nat)
    requires AllUrl(s)
    ensures v < 0x100_0000
  {
    ValueAt(s, 4 * g) * 0x4_0000 + ValueAt(s, 4 * g + 1) * 0x1000 + ValueAt(s, 4 * g + 2) * 64 + ValueAt(s, 4 * g + 3)
  }

  function Digit256(v: nat, j: nat): (d: Byte)
    requires v < 0x100_0000 && j < 3
  {
    if j == 0 then v / 0x1_0000 else if j == 1 then v / 0x100 % 0x100 else v % 0x100
  }

  lemma DigitsOfSextets(a: int, b: int, c: int, d: int)
    requires 0 <= a < 64 && 0 <= b < 64 && 0 <= c < 64 && 0 <= d < 64
    ensures var v := a * 0x4_0000 + b * 0x1000 + c * 64 + d;
            && v < 0x100_0000 && Digit256(v, 0) == a * 4 + b / 16
            && Digit256(v, 1) == b % 16 * 16 + c / 4 && Digit256(v, 2) == c % 4 * 64 + d
  {
    var x, y, z := a * 4 + b / 16, b % 16 * 16 + c / 4, c % 4 * 64 + d;
    assert a * 0x4_0000 + b * 0x1000 + c * 64 + d == x * 0x1_0000 + y * 0x100 + z;
    ThreeDigits(x, y, z);
  }

  lemma ThreeDigits(x: Byte, y: Byte, z: Byte)
    ensures var v := x * 0x1_0000 + y * 0x100 + z;
            v < 0x100_0000 && Digit256(v, 0) == x && Digit256(v, 1) == y && Digit256(v, 2) == z
  {
    assert (x * 0x1_0000 + y * 0x100 + z) / 0x100 == x * 0x100 + y;
  }

  /** What a text of the url alphabet is to the platform's decoder. */
  lemma SextetOfUrl(s: string, i: nat)
    requires AllUrl(s) && i < |s|
    ensures Sextet(FromUrl(s)[i]) == Some(ValueAt(s, i))
  {
  }

  lemma ShiftQuadruple(s: string, g: nat)
    requires AllUrl(s) && |s| >= 4
    ensures AllUrl(s[4..]) && Quadruple(s[4..], g) == Quadruple(s, g + 1)
  {
    assert forall i: nat :: ValueAt(s[4..], i) == ValueAt(s, i + 4);
  }

  /** How many bytes n symbols hold. */
  function Held(n: nat): nat { n / 4 * 3 + (if n % 4 == 0 then 0 else n % 4 - 1) }

  /** The bytes that the symbols stand for, by number. */
  function BytesOf(s: string): (b: seq<Byte>)
    requires AllUrl(s)
    ensures |b| == Held(|s|) && forall k :: 0 <= k < |b| ==> b[k] == Digit256(Quadruple(s, k / 3), k % 3)
  {
    seq(Held(|s|), k requires 0 <= k => Digit256(Quadruple(s, k / 3), k % 3))
  }

  lemma {:induction false} GroupsDigits(s: string)
    requires AllUrl(s)
    ensures Groups(FromUrl(s)) == if |s| % 4 == 1 then None else Some(BytesOf(s))
    decreases |s|
  {
    hide Groups, BytesOf, Quadruple, Digit256, ValueAt, FromUrl;
    if |s| >= 4 {
      ShiftQuadruple(s, 0);
      GroupsDigits(s[4..]);
      GroupsCons(s);
    } else {
      GroupsShort(s);
    }
  }

  lemma FirstGroup(s: string)
    requires AllUrl(s)
    ensures var v, a, b, c, d := Quadruple(s, 0), ValueAt(s, 0), ValueAt(s, 1), ValueAt(s, 2), ValueAt(s, 3);
            && Digit256(v, 0) == a * 4 + b / 16 && Digit256(v, 1) == b % 16 * 16 + c / 4 && Digit256(v, 2) == c % 4 * 64 + d
  {
    hide ValueAt;
    DigitsOfSextets(ValueAt(s, 0), ValueAt(s, 1), ValueAt(s, 2), ValueAt(s, 3));
  }

  lemma GroupsShort(s: string)
    requires AllUrl(s) && |s| < 4
    ensures Groups(FromUrl(s)) == if |s| % 4 == 1 then None else Some(BytesOf(s))
  {
    FirstGroup(s);
    forall i | 0 <= i < |s| ensures Sextet(FromUrl(s)[i]) == Some(ValueAt(s, i)) { SextetOfUrl(s, i); }
    hide Sextet, Quadruple, Digit256, ValueAt, BytesOf;
    var v := Quadruple(s, 0);
    if |s| == 0 {
      assert BytesOf(s) == [];
    } else if |s| == 2 {
      assert BytesOf(s) == [Digit256(v, 0)];
    } else if |s| == 3 {
      assert BytesOf(s) == [Digit256(v, 0), Digit256(v, 1)];
    }
  }

  lemma GroupsCons(s: string)
    requires AllUrl(s) && |s| >= 4 && AllUrl(s[4..])
    requires Groups(FromUrl(s[4..])) == if |s| % 4 == 1 then None else Some(BytesOf(s[4..]))
    ensures Groups(FromUrl(s)) == if |s| % 4 == 1 then None else Some(BytesOf(s))
  {
    hide Groups, ValueAt, Sextet, Quadruple, Digit256, FromUrl, BytesOf;
    UrlTail(s);
    FirstGroup(s);
    SextetOfUrl(s, 0);
    SextetOfUrl(s, 1);
    SextetOfUrl(s, 2);
    SextetOfUrl(s, 3);
    BytesCons(s);
    GroupsFirst(FromUrl(s));
  }

  lemma UrlTail(s: string)
    requires |s| >= 4
    ensures |FromUrl(s)| == |s| && FromUrl(s)[4..] == FromUrl(s[4..])
  {
  }

  lemma GroupsFirst(t: string)
    requires |t| >= 4 && Sextet(t[0]).Some? && Sextet(t[1]).Some? && Sextet(t[2]).Some? && Sextet(t[3]).Some?
    ensures var a, b, c, d := Sextet(t[0]).value, Sextet(t[1]).value, Sextet(t[2]).value, Sextet(t[3]).value;
            Groups(t) == if Groups(t[4..]).None? then None
                         else Some([a * 4 + b / 16, b % 16 * 16 + c / 4, c % 4 * 64 + d] + Groups(t[4..]).value)
  {
    hide Sextet;
  }

  lemma BytesCons(s: string)
    requires AllUrl(s) && |s| >= 4 && AllUrl(s[4..])
    ensures var v := Quadruple(s, 0); BytesOf(s) == [Digit256(v, 0), Digit256(v, 1), Digit256(v, 2)] + BytesOf(s[4..])
  {
    hide Quadruple, Digit256, ValueAt, BytesOf;
    var b, v := BytesOf(s), Quadruple(s, 0);
    var c := [Digit256(v, 0), Digit256(v, 1), Digit256(v, 2)] + BytesOf(s[4..]);
    assert |b| == |c|;
    forall k | 0 <= k < |b| ensures b[k] == c[k] {
      if k >= 3 {
        ShiftQuadruple(s, (k - 3) / 3);
        assert (k - 3) / 3 + 1 == k / 3 && (k - 3) % 3 == k % 3;
      }
    }
  }

  /**
    A text of the url alphabet decodes unless its length leaves one symbol over, and then each
    byte is the digit of its place in the number of its four symbols; what the last symbol has
    beyond whole bytes is dropped.
  */
  lemma DecodeDigits(s: string)
    requires AllUrl(s)
    ensures |s| % 4 == 1 <==> Decode(s).None?
    ensures |s| % 4 != 1 ==> |Decode(s).value| == Held(|s|)
    ensures |s| % 4 != 1 ==> forall k :: 0 <= k < Held(|s|) ==> Decode(s).value[k] == Digit256(Quadruple(s, k / 3), k % 3)
  {
    var t := FromUrl(s);
    GroupsDigits(s);
    UrlIsClean(s);
    hide Groups, Quadruple, Digit256;
    if |s| % 4 == 1 {
      OneOver(s);
    } else {
      PaddingComesOff(t);
    }
  }

  lemma UrlIsClean(s: string)
    requires AllUrl(s)
    ensures var t := FromUrl(s);
            && |t| == |s| && (forall c :: c in t ==> Sextet(c).Some?) && WithoutSpaces(PadTo4(t)) == PadTo4(t)
            && (t != [] ==> t[|t| - 1] != '=')
  {
    var t := FromUrl(s);
    forall c | c in t ensures Sextet(c).Some? {
      var i :| 0 <= i < |t| && t[i] == c;
      SextetOfUrl(s, i);
    }
    PaddedHasNoSpaces(t);
    if t != [] { assert t[|t| - 1] in t; }
  }

  /** Three equals signs are one more than the decoder takes off. */
  lemma OneOver(s: string)
    requires AllUrl(s) && |s| % 4 == 1
    ensures Groups(WithoutPadding(PadTo4(FromUrl(s)))).None?
  {
    var t := FromUrl(s);
    assert PadTo4(t) == t + "===";
    assert WithoutPadding(PadTo4(t)) == t + "=";
    EqualsFails(t);
  }

  lemma {:induction false} EqualsFails(t: string)
    requires |t| % 4 == 1
    ensures Groups(t + "=").None?
    decreases |t|
  {
    var u := t + "=";
    if |t| == 1 {
      assert u[1] == '=';
    } else {
      assert u[4..] == t[4..] + "=";
      EqualsFails(t[4..]);
    }
  }

  // ---- Other texts ----

  /** Neither of an alphabet, nor padding, nor a space that the platform skips. */
  predicate Foreign(c: char) {
    && !UrlSymbol(c) && c != '+' && c != '/' && c != '='
    && c as int !in {9, 10, 12, 13, 32}
  }

  lemma {:induction false} SpacesGo(s: string, c: char)
    requires c in s && Foreign(c)
    ensures c in WithoutSpaces(s)
  {
    if s[0] != c { SpacesGo(s[1..], c); }
  }

  lemma {:induction false} ForeignGroups(t: string, c: char)
    requires c in t && Foreign(c)
    ensures Groups(t).None?
    decreases |t|
  {
    if |t| > 4 && c in t[4..] {
      ForeignGroups(t[4..], c);
    } else if |t| > 1 {
      assert c in t[..if |t| < 4 then |t| else 4];
    }
  }

  lemma PaddingStays(t: string, c: char)
    requires c in t && c != '='
    ensures c in WithoutPadding(t)
  {
    var i :| 0 <= i < |t| && t[i] == c;
    if i < |WithoutPadding(t)| { assert WithoutPadding(t)[i] == c; }
  }

  /** A text with any other character in it does not decode. */
  lemma ForeignFails(s: string, i: nat)
    requires i < |s| && Foreign(s[i])
    ensures Decode(s).None?
  {
    var c := s[i];
    assert FromUrl(s)[i] == c && FromUrl(s)[i] in FromUrl(s);
    assert c in PadTo4(FromUrl(s));
    hide Groups, WithoutSpaces, WithoutPadding, PadTo4, FromUrl, Foreign;
    SpacesGo(PadTo4(FromUrl(s)), c);
    assert c != '=' by { ForeignIsNoPad(c); }
    PaddingStays(WithoutSpaces(PadTo4(FromUrl(s))), c);
    ForeignGroups(WithoutPadding(WithoutSpaces(PadTo4(FromUrl(s)))), c);
  }

  lemma ForeignIsNoPad(c: char)
    requires Foreign(c)
    ensures c != '='
  {
  }

  /** The text that stands for no predecessor is 32 zero bytes, the length of a digest. */
  lemma GenesisIsZero()
    ensures Chain.GENESIS == Encode(seq(32, i => 0))
    ensures |Chain.GENESIS| == 43 && forall i :: 0 <= i < 43 ==> Chain.GENESIS[i] == 'A'
  {
    var z: seq<Byte> := seq(32, i => 0);
    GenesisText();
    hide Encode;
    EncodeShape(z);
    forall k | 0 <= k < 43 ensures Encode(z)[k] == 'A' {
      EncodeDigits(z, k);
      assert Triple(z, k / 4) == 0;
    }
  }

  lemma GenesisText()
    ensures |Chain.GENESIS| == 43 && forall i :: 0 <= i < 43 ==> Chain.GENESIS[i] == 'A'
  {
    assert forall i :: 0 <= i < |Chain.GENESIS| ==> Chain.GENESIS[i] == 'A';
  }
}
