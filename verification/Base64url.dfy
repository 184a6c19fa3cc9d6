/** base64url without padding (RFC 4648 section 5), as the server and the hook use it. */
module Base64url {
  import opened Text

  type Byte = x: int | 0 <= x < 256

  /** The RFC 4648 section 4 alphabet, which `btoa` and `atob` speak. */
  function Symbol(d: int): (c: char)
    requires 0 <= d < 64
  {
    if d < 26 then (65 + d) as char
    else if d < 52 then (71 + d) as char
    else if d < 62 then (d - 4) as char
    else if d == 62 then '+' else '/'
  }

  function Sextet(c: char): (r: Option<int>)
    ensures r.Some? ==> 0 <= r.value < 64 && Symbol(r.value) == c
  {
    if 'A' <= c <= 'Z' then Some(c as int - 65)
    else if 'a' <= c <= 'z' then Some(c as int - 71)
    else if '0' <= c <= '9' then Some(c as int + 4)
    else if c == '+' then Some(62)
    else if c == '/' then Some(63)
    else None
  }

  lemma SextetOfSymbol(d: int)
    requires 0 <= d < 64
    ensures Sextet(Symbol(d)) == Some(d)
  {
  }

  /** The sextets of a byte sequence, as symbols, without padding. */
  function Body(b: seq<Byte>): (s: string)
    ensures forall c :: c in s ==> Sextet(c).Some?
  {
    if |b| == 0 then []
    else if |b| == 1 then [Symbol(b[0] / 4), Symbol(b[0] % 4 * 16)]
    else if |b| == 2 then
      [Symbol(b[0] / 4), Symbol(b[0] % 4 * 16 + b[1] / 16), Symbol(b[1] % 16 * 4)]
    else
      [Symbol(b[0] / 4), Symbol(b[0] % 4 * 16 + b[1] / 16),
       Symbol(b[1] % 16 * 4 + b[2] / 64), Symbol(b[2] % 64)] + Body(b[3..])
  }

  function Pad(n: nat): string {
    if n % 4 == 0 then "" else if n % 4 == 3 then "=" else if n % 4 == 2 then "==" else "==="
  }

  function PadTo4(s: string): string { s + Pad(|s|) }

  function Btoa(b: seq<Byte>): string { PadTo4(Body(b)) }

  predicate IsSpace(c: char) { c == '\t' || c == '\n' || c as int == 12 || c == '\r' || c == ' ' }

  function WithoutSpaces(s: string): string {
    if s == [] then [] else (if IsSpace(s[0]) then [] else [s[0]]) + WithoutSpaces(s[1..])
  }

  /** One or two trailing `=` go when the length is a multiple of four. */
  function WithoutPadding(s: string): string {
    if |s| % 4 != 0 || |s| == 0 || s[|s| - 1] != '=' then s
    else if s[|s| - 2] == '=' then s[..|s| - 2]
    else s[..|s| - 1]
  }

  function Groups(s: string): Option<seq<Byte>> {
    if |s| == 0 then Some([])
    else if |s| == 1 then None
    else
      var a, b := Sextet(s[0]), Sextet(s[1]);
      if a.None? || b.None? then None
      else if |s| == 2 then Some([a.value * 4 + b.value / 16])
      else
        var c := Sextet(s[2]);
        if c.None? then None
        else if |s| == 3 then Some([a.value * 4 + b.value / 16, b.value % 16 * 16 + c.value / 4])
        else
          var d, rest := Sextet(s[3]), Groups(s[4..]);
          if d.None? || rest.None? then None
          else Some([a.value * 4 + b.value / 16, b.value % 16 * 16 + c.value / 4,
                     c.value % 4 * 64 + d.value] + rest.value)
  }

  /** The platform's forgiving decoder. */
  function Atob(s: string): Option<seq<Byte>> {
    Groups(WithoutPadding(WithoutSpaces(s)))
  }

  function Replace(s: string, from: char, to: char): (r: string)
    ensures |r| == |s| && forall i :: 0 <= i < |s| ==> r[i] == if s[i] == from then to else s[i]
  {
    seq(|s|, i requires 0 <= i < |s| => if s[i] == from then to else s[i])
  }

  function FromUrl(s: string): string { Replace(Replace(s, '-', '+'), '_', '/') }

  function ToUrl(s: string): string { Replace(Replace(s, '+', '-'), '/', '_') }

  function StripTrailing(s: string, c: char): string {
    if s == [] || s[|s| - 1] != c then s else StripTrailing(s[..|s| - 1], c)
  }

  function Decode(input: string): Option<seq<Byte>> { Atob(PadTo4(FromUrl(input))) }

  function Encode(bytes: seq<Byte>): string { StripTrailing(ToUrl(Btoa(bytes)), '=') }

  lemma PadOne(s: string)
    requires |s| % 4 != 0
    ensures PadTo4(s + "=") == PadTo4(s)
  {
    assert s + Pad(|s|) == s + "=" + Pad(|s| + 1) by {
      assert Pad(|s|) == "=" + Pad(|s| + 1);
    }
  }

  method Base64urlDecode(input: string) returns (r: Option<seq<Byte>>)
    ensures r == Decode(input)
  {
    var base64 := FromUrl(input);
    while |base64| % 4 != 0
      invariant PadTo4(base64) == PadTo4(FromUrl(input))
      decreases (4 - |base64| % 4) % 4
    {
      PadOne(base64);
      base64 := base64 + "=";
    }
    assert base64 == PadTo4(base64);
    match Atob(base64)
    case None => r := None;
    case Some(binary) =>
      var bytes: seq<Byte> := [];
      for i := 0 to |binary|
        invariant bytes == binary[..i]
      {
        bytes := bytes + [binary[i]];
      }
      assert bytes == binary;
      r := Some(bytes);
  }

  method Base64urlEncode(bytes: seq<Byte>) returns (s: string)
    ensures s == Encode(bytes)
  {
    var binary: seq<Byte> := [];
    for i := 0 to |bytes|
      invariant binary == bytes[..i]
    {
      binary := binary + [bytes[i]];
    }
    assert binary == bytes;
    s := StripTrailing(Replace(Replace(Btoa(binary), '+', '-'), '/', '_'), '=');
  }

  lemma GroupOfThree(x: Byte, y: Byte, z: Byte, rest: string)
    requires Groups(rest).Some?
    ensures Groups([Symbol(x / 4), Symbol(x % 4 * 16 + y / 16),
                    Symbol(y % 16 * 4 + z / 64), Symbol(z % 64)] + rest) == Some([x, y, z] + Groups(rest).value)
  {
    hide Symbol, Sextet;
    var s := [Symbol(x / 4), Symbol(x % 4 * 16 + y / 16), Symbol(y % 16 * 4 + z / 64), Symbol(z % 64)] + rest;
    SextetOfSymbol(x / 4);
    SextetOfSymbol(x % 4 * 16 + y / 16);
    SextetOfSymbol(y % 16 * 4 + z / 64);
    SextetOfSymbol(z % 64);
    assert s[4..] == rest;
    assert (x % 4 * 16 + y / 16) / 16 == x % 4 && (x % 4 * 16 + y / 16) % 16 == y / 16;
    assert (y % 16 * 4 + z / 64) / 4 == y % 16 && (y % 16 * 4 + z / 64) % 4 == z / 64;
  }

  lemma {:induction false} GroupsOfBody(b: seq<Byte>)
    ensures Groups(Body(b)) == Some(b)
  {
    hide Groups, Symbol;
    if |b| >= 3 {
      GroupsOfBody(b[3..]);
      GroupOfThree(b[0], b[1], b[2], Body(b[3..]));
      assert b == [b[0], b[1], b[2]] + b[3..];
    } else {
      GroupsOfShort(b);
    }
  }

  lemma GroupsOfShort(b: seq<Byte>)
    requires |b| < 3
    ensures Groups(Body(b)) == Some(b)
  {
    hide Groups, Body;
    if |b| == 2 {
      assert b == [b[0], b[1]];
      GroupOfTwo(b[0], b[1]);
    } else if |b| == 1 {
      assert b == [b[0]];
      GroupOfOne(b[0]);
    } else {
      assert b == [];
      GroupOfNone();
    }
  }

  lemma GroupOfNone()
    ensures Groups(Body([])) == Some([])
  {
    hide Sextet, Symbol;
  }

  lemma GroupOfTwo(x: Byte, y: Byte)
    ensures Groups(Body([x, y])) == Some([x, y])
  {
    hide Symbol, Sextet;
    assert Body([x, y]) == [Symbol(x / 4), Symbol(x % 4 * 16 + y / 16), Symbol(y % 16 * 4)];
    SextetOfSymbol(x / 4);
    SextetOfSymbol(x % 4 * 16 + y / 16);
    SextetOfSymbol(y % 16 * 4);
    assert (x % 4 * 16 + y / 16) / 16 == x % 4 && (x % 4 * 16 + y / 16) % 16 == y / 16;
  }

  lemma GroupOfOne(x: Byte)
    ensures Groups(Body([x])) == Some([x])
  {
    hide Symbol, Sextet;
    assert Body([x]) == [Symbol(x / 4), Symbol(x % 4 * 16)];
    SextetOfSymbol(x / 4);
    SextetOfSymbol(x % 4 * 16);
  }

  lemma {:induction false} BodyLength(b: seq<Byte>)
    ensures |Body(b)| == (4 * |b| + 2) / 3
    ensures |Body(b)| % 4 != 1
  {
    if |b| >= 3 { BodyLength(b[3..]); }
  }

  lemma {:induction false} StripTrailingIs(s: string, pad: string, c: char)
    requires s == [] || s[|s| - 1] != c
    requires forall x :: x in pad ==> x == c
    ensures StripTrailing(s + pad, c) == s
  {
    if pad != [] {
      var t := s + pad;
      assert t[|t| - 1] == pad[|pad| - 1] && pad[|pad| - 1] in pad;
      assert t[..|t| - 1] == s + pad[..|pad| - 1];
      assert forall i :: 0 <= i < |pad| - 1 ==> pad[i] in pad;
      StripTrailingIs(s, pad[..|pad| - 1], c);
    } else {
      assert s + pad == s;
    }
  }

  lemma ToUrlConcat(s: string, pad: string)
    requires forall c :: c in pad ==> c == '='
    ensures ToUrl(s + pad) == ToUrl(s) + pad
  {
    forall i | 0 <= i < |s + pad| ensures ToUrl(s + pad)[i] == (ToUrl(s) + pad)[i] {
      if i >= |s| { assert pad[i - |s|] in pad; }
    }
  }

  lemma BodyUnpadded(b: seq<Byte>)
    requires b != []
    ensures Body(b) != [] && Body(b)[|Body(b)| - 1] != '='
    ensures ToUrl(Body(b))[|Body(b)| - 1] != '='
  {
    var s := Body(b);
    assert s[|s| - 1] in s;
  }

  /** The encoding is the body in the url alphabet: the padding is gone. */
  lemma EncodeIsBody(b: seq<Byte>)
    ensures Encode(b) == ToUrl(Body(b))
  {
    var s := Body(b);
    ToUrlConcat(s, Pad(|s|));
    if b != [] { BodyUnpadded(b); }
    StripTrailingIs(ToUrl(s), Pad(|s|), '=');
  }

  lemma {:induction false} NoSpaces(s: string)
    requires forall c :: c in s ==> !IsSpace(c)
    ensures WithoutSpaces(s) == s
  {
    if s != [] {
      assert s[0] in s;
      forall c | c in s[1..] ensures c in s { }
      NoSpaces(s[1..]);
    }
  }

  lemma UrlAlphabetInverts(s: string)
    requires forall c :: c in s ==> Sextet(c).Some?
    ensures FromUrl(ToUrl(s)) == s
  {
    forall i | 0 <= i < |s| ensures FromUrl(ToUrl(s))[i] == s[i] { assert s[i] in s; }
  }

  lemma PaddingComesOff(s: string)
    requires |s| % 4 != 1 && (s != [] ==> s[|s| - 1] != '=')
    ensures WithoutPadding(PadTo4(s)) == s
  {
    var p := PadTo4(s);
    assert p == s + Pad(|s|);
    if |s| % 4 == 3 {
      assert p[|p| - 2] == s[|s| - 1] && p[|p| - 1] == '=';
      assert p[..|p| - 1] == s;
    } else if |s| % 4 == 2 {
      assert p[|p| - 2] == '=' && p[|p| - 1] == '=';
      assert p[..|p| - 2] == s;
    } else {
      assert p == s;
    }
  }

  lemma PaddedHasNoSpaces(s: string)
    requires forall c :: c in s ==> Sextet(c).Some?
    ensures WithoutSpaces(PadTo4(s)) == PadTo4(s)
  {
    forall c | c in PadTo4(s) ensures !IsSpace(c) {
      assert c in s || c in Pad(|s|);
    }
    NoSpaces(PadTo4(s));
  }

  /** Decoding inverts encoding, for every byte sequence. */
  lemma RoundTrip(b: seq<Byte>)
    ensures Decode(Encode(b)) == Some(b)
  {
    EncodeIsBody(b);
    UrlAlphabetInverts(Body(b));
    BodyLength(b);
    if b != [] { BodyUnpadded(b); }
    PaddedHasNoSpaces(Body(b));
    PaddingComesOff(Body(b));
    GroupsOfBody(b);
  }

  /** Two byte sequences never share an encoding. */
  lemma EncodeInjective(a: seq<Byte>, b: seq<Byte>)
    requires Encode(a) == Encode(b)
    ensures a == b
  {
    RoundTrip(a);
    RoundTrip(b);
  }

  predicate UrlSymbol(c: char) {
    'A' <= c <= 'Z' || 'a' <= c <= 'z' || '0' <= c <= '9' || c == '-' || c == '_'
  }

  /** Length ceil(4n/3), and only symbols of the url alphabet: no padding, bar, slash or newline. */
  lemma EncodeShape(b: seq<Byte>)
    ensures |Encode(b)| == (4 * |b| + 2) / 3
    ensures forall c :: c in Encode(b) ==> UrlSymbol(c)
  {
    EncodeIsBody(b);
    BodyLength(b);
    var s := Body(b);
    forall i | 0 <= i < |s| ensures UrlSymbol(ToUrl(s)[i]) { assert s[i] in s; }
  }

  lemma TwoSymbols(s: string)
    requires |s| == 2 && Sextet(s[0]).Some? && Sextet(s[1]).Some?
    ensures Decode(s) == Some([Sextet(s[0]).value * 4 + Sextet(s[1]).value / 16])
  {
    hide PadTo4, WithoutSpaces, WithoutPadding, Symbol;
    assert s[0] in s && s[1] in s;
    assert FromUrl(s) == s;
    PaddedHasNoSpaces(s);
    LastIsNoPad(s[1]);
    PaddingComesOff(s);
    hide Sextet;
    assert Groups(s) == Some([Sextet(s[0]).value * 4 + Sextet(s[1]).value / 16]);
  }

  lemma LastIsNoPad(c: char)
    requires Sextet(c).Some?
    ensures c != '='
  {
  }

  /** The inverse does not go through on every text: spare bits of the last symbol are dropped. */
  lemma SpareBitsAreDropped()
    ensures Decode("AA") == Decode("AB") == Some([0])
  {
    TwoSymbols("AA");
    TwoSymbols("AB");
  }

  // ---- The hook's private key file ----

  function EndsWith(s: string, tail: string): bool {
    |tail| <= |s| && s[|s| - |tail|..] == tail
  }

  /** The key text with one line ending taken off. */
  function Line(raw: string): string {
    if EndsWith(raw, "\r\n") then raw[..|raw| - 2]
    else if EndsWith(raw, "\n") then raw[..|raw| - 1]
    else raw
  }

  /**
    `decode` is Node's lenient base64url reader, of which only this is assumed: it reads
    back what the encoder wrote.
  */
  ghost predicate ReadsBack(decode: string -> seq<Byte>) {
    forall b: seq<Byte> :: decode(Encode(b)) == b
  }

  function ParsePrivateKey(decode: string -> seq<Byte>, raw: string): Option<seq<Byte>> {
    var value := Line(raw);
    if value == "" || '\r' in value || '\n' in value || '\0' in value then None
    else
      var seed := decode(value);
      if |seed| != 32 || Encode(seed) != value then None else Some(seed)
  }

  /** A key file is accepted exactly when its line is the encoding of a 32-byte seed. */
  lemma KeyAcceptedExactly(decode: string -> seq<Byte>, raw: string, seed: seq<Byte>)
    requires ReadsBack(decode)
    ensures ParsePrivateKey(decode, raw) == Some(seed) <==> |seed| == 32 && Line(raw) == Encode(seed)
  {
    if |seed| == 32 && Line(raw) == Encode(seed) {
      EncodeShape(seed);
      assert decode(Encode(seed)) == seed;
    }
  }

  /** The key file: the seed's text, alone or with one line ending after it. */
  lemma KeyFileExactly(decode: string -> seq<Byte>, raw: string, seed: seq<Byte>)
    requires ReadsBack(decode)
    ensures ParsePrivateKey(decode, raw) == Some(seed) <==>
              |seed| == 32 && raw in {Encode(seed), Encode(seed) + "\n", Encode(seed) + "\r\n"}
  {
    hide Encode, ParsePrivateKey, Line, ReadsBack;
    EncodeShape(seed);
    KeyAcceptedExactly(decode, raw, seed);
    LineExactly(raw, Encode(seed));
  }

  lemma LineExactly(raw: string, key: string)
    requires forall c :: c in key ==> UrlSymbol(c)
    ensures Line(raw) == key <==> raw in {key, key + "\n", key + "\r\n"}
  {
    if EndsWith(raw, "\r\n") {
      assert raw == raw[..|raw| - 2] + "\r\n";
    } else if EndsWith(raw, "\n") {
      assert raw == raw[..|raw| - 1] + "\n";
    }
    if key != "" { assert key[|key| - 1] in key; }
  }
}
