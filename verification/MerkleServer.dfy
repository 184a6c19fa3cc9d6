/**
  Merkle proofs under the server's own pair hash, which decodes both texts, joins the bytes and
  hashes them. The joined bytes do not say where the left part ends, so a proof need not start
  at a leaf; stated here is exactly where it may start. The byte hash is a parameter with
  32-byte results, free of collisions on the byte strings that the tree and the proof hash.
*/
module MerkleServer {
  import opened Text
  import opened Merkle
  import B = Base64url

  type Bytes = seq<B.Byte>
  type ByteHash = Bytes -> Bytes

  /** Undefined when a decode throws. */
  function HashPair(sha: ByteHash, left: string, right: string): Option<string> {
    var l, r := B.Decode(left), B.Decode(right);
    if l.None? || r.None? then None else Some(B.Encode(sha(l.value + r.value)))
  }

  predicate Decodes(s: string) { B.Decode(s).Some? }

  function BytesOf(s: string): Bytes { if Decodes(s) then B.Decode(s).value else [] }

  function PairBytes(pair: (string, string)): Bytes { BytesOf(pair.0) + BytesOf(pair.1) }

  /** The same on texts that decode; no other text gets past a check. */
  function ServerPair(sha: ByteHash): PairHash { (l, r) => B.Encode(sha(PairBytes((l, r)))) }

  lemma ServerPairIs(sha: ByteHash, left: string, right: string)
    ensures HashPair(sha, left, right).Some? <==> Decodes(left) && Decodes(right)
    ensures Decodes(left) && Decodes(right) ==> HashPair(sha, left, right) == Some(ServerPair(sha)(left, right))
  {
    hide B.Decode, B.Encode;
    if Decodes(left) && Decodes(right) {
      assert PairBytes((left, right)) == B.Decode(left).value + B.Decode(right).value;
    }
  }

  ghost predicate DigestSized(sha: ByteHash) { forall x :: |sha(x)| == 32 }

  ghost predicate ByteFree(sha: ByteHash, inputs: set<Bytes>) {
    forall x, y :: x in inputs && y in inputs && sha(x) == sha(y) ==> x == y
  }

  /** The 43-character text of a 32-byte digest. */
  ghost predicate IsDigest(h: string) { exists d: Bytes :: |d| == 32 && h == B.Encode(d) }

  lemma DigestBytes(h: string)
    requires IsDigest(h)
    ensures Decodes(h) && |BytesOf(h)| == 32 && h == B.Encode(BytesOf(h))
  {
    var d: Bytes :| |d| == 32 && h == B.Encode(d);
    B.RoundTrip(d);
  }

  /** Two pairs of texts hash alike exactly when their decoded bytes join to the same string. */
  lemma PairsAlikeExactly(sha: ByteHash, a: string, b: string, c: string, d: string)
    requires Decodes(a) && Decodes(b) && Decodes(c) && Decodes(d)
    requires ByteFree(sha, {PairBytes((a, b)), PairBytes((c, d))})
    ensures HashPair(sha, a, b) == HashPair(sha, c, d) <==> BytesOf(a) + BytesOf(b) == BytesOf(c) + BytesOf(d)
  {
    if HashPair(sha, a, b) == HashPair(sha, c, d) {
      B.EncodeInjective(sha(PairBytes((a, b))), sha(PairBytes((c, d))));
    }
  }

  /** On digests equal pair hashes mean the same pair or a collision of the byte hash. */
  lemma PairCollisionIsHashCollision(sha: ByteHash, a: string, b: string, c: string, d: string)
    requires IsDigest(a) && IsDigest(b) && IsDigest(c) && IsDigest(d)
    ensures HashPair(sha, a, b).Some? && HashPair(sha, c, d).Some?
    ensures HashPair(sha, a, b) == HashPair(sha, c, d) && (a, b) != (c, d) ==>
      PairBytes((a, b)) != PairBytes((c, d)) && sha(PairBytes((a, b))) == sha(PairBytes((c, d)))
  {
    DigestBytes(a);
    DigestBytes(b);
    DigestBytes(c);
    DigestBytes(d);
    if HashPair(sha, a, b) == HashPair(sha, c, d) {
      B.EncodeInjective(sha(PairBytes((a, b))), sha(PairBytes((c, d))));
      JoinedHalves(BytesOf(a), BytesOf(b), BytesOf(c), BytesOf(d));
    }
  }

  lemma JoinedHalves(a: Bytes, b: Bytes, c: Bytes, d: Bytes)
    requires |a| == |c|
    ensures a + b == c + d <==> a == c && b == d
  {
    if a + b == c + d { assert a == (a + b)[..|a|] == c && b == (a + b)[|a|..] == d; }
  }

  /** Off digests they need not be one pair: the decoder drops spare bits ... */
  lemma SpareBitsPairAlike(sha: ByteHash, right: string)
    ensures HashPair(sha, "AA", right) == HashPair(sha, "AB", right)
  {
    B.SpareBitsAreDropped();
  }

  /** ... and the joined bytes can be split elsewhere. */
  lemma ShiftedSplitPairsAlike(sha: ByteHash, a: Bytes, b: Bytes, cut: nat)
    requires cut <= |a + b|
    ensures HashPair(sha, B.Encode((a + b)[..cut]), B.Encode((a + b)[cut..])) == HashPair(sha, B.Encode(a), B.Encode(b))
  {
    var x, y := (a + b)[..cut], (a + b)[cut..];
    assert x + y == a + b;
    B.RoundTrip(a);
    B.RoundTrip(b);
    B.RoundTrip(x);
    B.RoundTrip(y);
    hide B.Decode, B.Encode;
  }

  // ---- Every node above the leaves is a digest ----

  ghost predicate AllDigests(layer: seq<string>) { forall i :: 0 <= i < |layer| ==> IsDigest(layer[i]) }

  lemma HashedIsDigest(sha: ByteHash, pair: (string, string))
    requires DigestSized(sha)
    ensures IsDigest(ServerPair(sha)(pair.0, pair.1)) && BytesOf(ServerPair(sha)(pair.0, pair.1)) == sha(PairBytes(pair))
  {
    var d := sha(PairBytes(pair));
    assert ServerPair(sha)(pair.0, pair.1) == B.Encode(d) && |d| == 32;
    B.RoundTrip(d);
  }

  lemma {:induction false} LayersAreDigests(sha: ByteHash, layers: seq<seq<string>>, k: nat)
    requires DigestSized(sha) && Chained(ServerPair(sha), layers) && AllDigests(layers[0]) && k < |layers|
    ensures AllDigests(layers[k])
  {
    hide Next, IsDigest;
    if k > 0 {
      LayersAreDigests(sha, layers, k - 1);
      assert layers[k - 1 + 1] == Next(ServerPair(sha), layers[k - 1]);
      forall j | 0 <= j < |layers[k]| ensures IsDigest(layers[k][j]) {
        NextAt(ServerPair(sha), layers[k - 1], j);
        HashedIsDigest(sha, PairAt(layers[k - 1], j));
      }
    }
  }

  // ---- What the tree and a check hash ----

  ghost function TreeInputs(layers: seq<seq<string>>): set<Bytes> {
    set k, j | 0 <= k < |layers| && 0 <= j < (|layers[k]| + 1) / 2 :: PairBytes(PairAt(layers[k], j))
  }

  ghost function FoldInputs(sha: ByteHash, current: string, siblings: seq<string>, directions: seq<Direction>): set<Bytes>
    decreases |siblings|
  {
    if siblings == [] then {}
    else
      var d := Heading(directions);
      {PairBytes(StepPair(current, siblings[0], d))}
      + FoldInputs(sha, Combine(ServerPair(sha), current, siblings[0], d), siblings[1..], Tail(directions))
  }

  /** A full-length proof of a text that the server's check accepts; every part of it decodes. */
  ghost predicate Proves(sha: ByteHash, leaves: seq<string>, h: string, inputs: set<Bytes>, p: Proof) {
    && p.leaf == h && p.root == Root(ServerPair(sha), leaves)
    && |p.siblings| == |Layers(ServerPair(sha), leaves)| - 1
    && (forall i :: 0 <= i < |p.siblings| ==> Decodes(p.siblings[i]))
    && FoldInputs(sha, h, p.siblings, p.directions) <= inputs
    && Verifies(ServerPair(sha), p)
  }

  // ---- Where an accepted proof can start ----

  /** One of the two ends of a joined pair. */
  predicate EndOf(b: Bytes, joined: Bytes) {
    |b| <= |joined| && (joined[..|b|] == b || joined[|joined| - |b|..] == b)
  }

  /** A text whose bytes are an end of a pair of neighbouring leaves. */
  ghost predicate StartsProof(leaves: seq<string>, h: string) {
    exists j: nat :: j < (|leaves| + 1) / 2 && EndOf(BytesOf(h), PairBytes(PairAt(leaves, j)))
  }

  lemma LeafPairBytes(leaves: seq<string>, j: nat)
    requires AllDigests(leaves) && j < (|leaves| + 1) / 2
    ensures var pair := PairAt(leaves, j);
            && pair.0 in leaves && pair.1 in leaves && IsDigest(pair.0) && IsDigest(pair.1)
            && |BytesOf(pair.0)| == |BytesOf(pair.1)| == 32
  {
    var pair := PairAt(leaves, j);
    assert pair.0 in Padded(leaves) && pair.1 in Padded(leaves);
    DigestBytes(pair.0);
    DigestBytes(pair.1);
  }

  /** A digest that is an end of a pair of digests is one of the two. */
  lemma DigestEnd(h: string, a: string, b: string)
    requires IsDigest(h) && IsDigest(a) && IsDigest(b) && EndOf(BytesOf(h), PairBytes((a, b)))
    ensures h == a || h == b
  {
    DigestBytes(h);
    DigestBytes(a);
    DigestBytes(b);
    var both := PairBytes((a, b));
    assert both[..32] == BytesOf(a) && both[32..] == BytesOf(b);
  }

  /** The text and its sibling hash to a node exactly when they join to the pair below it. */
  lemma JoinedBelow(sha: ByteHash, layer: seq<string>, pair: (string, string), inputs: set<Bytes>)
    requires ServerPair(sha)(pair.0, pair.1) in Next(ServerPair(sha), layer)
    requires ByteFree(sha, inputs) && PairBytes(pair) in inputs
    requires forall j :: 0 <= j < (|layer| + 1) / 2 ==> PairBytes(PairAt(layer, j)) in inputs
    ensures exists j: nat :: j < (|layer| + 1) / 2 && PairBytes(PairAt(layer, j)) == PairBytes(pair)
  {
    var n := Next(ServerPair(sha), layer);
    var j: nat :| j < |n| && n[j] == ServerPair(sha)(pair.0, pair.1);
    NextAt(ServerPair(sha), layer, j);
    B.EncodeInjective(sha(PairBytes(PairAt(layer, j))), sha(PairBytes(pair)));
  }

  lemma LayerInputs(layers: seq<seq<string>>, k: nat, inputs: set<Bytes>)
    requires k < |layers| && TreeInputs(layers) <= inputs
    ensures forall j :: 0 <= j < (|layers[k]| + 1) / 2 ==> PairBytes(PairAt(layers[k], j)) in inputs
  {
    forall j | 0 <= j < (|layers[k]| + 1) / 2 ensures PairBytes(PairAt(layers[k], j)) in inputs {
      assert PairBytes(PairAt(layers[k], j)) in TreeInputs(layers);
    }
  }

  lemma EndsOfJoined(a: Bytes, b: Bytes)
    ensures EndOf(a, a + b) && EndOf(b, a + b)
  {
    assert (a + b)[..|a|] == a && (a + b)[|a|..] == b;
  }

  lemma EndsMeet(current: string, sibling: string, d: Direction, joined: Bytes)
    requires PairBytes(StepPair(current, sibling, d)) == joined
    ensures EndOf(BytesOf(current), joined)
  {
    hide BytesOf, EndOf;
    EndsOfJoined(BytesOf(StepPair(current, sibling, d).0), BytesOf(StepPair(current, sibling, d).1));
  }

  /** One step of the check: it lands on a node only from an end of the pair below that node. */
  lemma StepEnds(sha: ByteHash, layers: seq<seq<string>>, k: nat, current: string, sibling: string, d: Direction,
                 inputs: set<Bytes>)
    requires Chained(ServerPair(sha), layers) && k < |layers| - 1
    requires TreeInputs(layers) <= inputs && ByteFree(sha, inputs)
    requires PairBytes(StepPair(current, sibling, d)) in inputs
    requires Combine(ServerPair(sha), current, sibling, d) in layers[k + 1]
    ensures StartsProof(layers[k], current)
  {
    hide Next, PairAt, ByteFree;
    var pair := StepPair(current, sibling, d);
    LayerInputs(layers, k, inputs);
    assert layers[k + 1] == Next(ServerPair(sha), layers[k]);
    JoinedBelow(sha, layers[k], pair, inputs);
    var j: nat :| j < (|layers[k]| + 1) / 2 && PairBytes(PairAt(layers[k], j)) == PairBytes(pair);
    EndsMeet(current, sibling, d, PairBytes(pair));
  }

  /** From a digest on, an accepted check passes through nodes only, whatever the siblings. */
  lemma {:induction false} FoldFromDigest(sha: ByteHash, layers: seq<seq<string>>, k: nat, current: string,
                                          siblings: seq<string>, directions: seq<Direction>, inputs: set<Bytes>)
    requires DigestSized(sha) && Chained(ServerPair(sha), layers) && |Last(layers)| == 1 && AllDigests(layers[0])
    requires k + |siblings| == |layers| - 1 && IsDigest(current)
    requires TreeInputs(layers) + FoldInputs(sha, current, siblings, directions) <= inputs && ByteFree(sha, inputs)
    requires Fold(ServerPair(sha), current, siblings, directions) == Last(layers)[0]
    ensures current in layers[k]
    decreases |siblings|
  {
    if siblings != [] {
      var d := Heading(directions);
      var pair := StepPair(current, siblings[0], d);
      var up := Combine(ServerPair(sha), current, siblings[0], d);
      HashedIsDigest(sha, pair);
      assert PairBytes(pair) in FoldInputs(sha, current, siblings, directions);
      hide PairAt, TreeInputs, ByteFree, Next, IsDigest, DigestSized, PairBytes, Padded;
      FoldFromDigest(sha, layers, k + 1, up, siblings[1..], Tail(directions), inputs);
      StepEnds(sha, layers, k, current, siblings[0], d, inputs);
      LayersAreDigests(sha, layers, k);
      EndIsNode(layers[k], current);
    }
  }

  lemma EndIsNode(layer: seq<string>, h: string)
    requires AllDigests(layer) && IsDigest(h)
    ensures StartsProof(layer, h) <==> h in layer
  {
    hide BytesOf, PairBytes, EndOf, PairAt, IsDigest;
    if StartsProof(layer, h) {
      var j: nat :| j < (|layer| + 1) / 2 && EndOf(BytesOf(h), PairBytes(PairAt(layer, j)));
      LeafPairBytes(layer, j);
      DigestEnd(h, PairAt(layer, j).0, PairAt(layer, j).1);
    }
    if h in layer {
      var i :| 0 <= i < |layer| && layer[i] == h;
      NodeIsEnd(layer, i);
    }
  }

  lemma NodeIsEnd(layer: seq<string>, i: nat)
    requires i < |layer|
    ensures EndOf(BytesOf(layer[i]), PairBytes(PairAt(layer, i / 2)))
  {
    hide BytesOf, EndOf, Padded;
    var j := i / 2;
    var pair := PairAt(layer, j);
    assert i == 2 * j || i == 2 * j + 1;
    assert Padded(layer)[i] == layer[i];
    EndsOfJoined(BytesOf(pair.0), BytesOf(pair.1));
  }

  // ---- The theorem ----

  /** The sibling that completes an end of a pair, and the side it goes to. */
  function Complement(b: Bytes, joined: Bytes): (string, Direction)
    requires EndOf(b, joined)
  {
    if joined[..|b|] == b then (B.Encode(joined[|b|..]), Right) else (B.Encode(joined[..|joined| - |b|]), Left)
  }

  lemma EncodedBytes(b: Bytes)
    ensures Decodes(B.Encode(b)) && BytesOf(B.Encode(b)) == b
  {
    B.RoundTrip(b);
    hide B.Decode, B.Encode;
  }

  lemma ComplementJoins(h: string, joined: Bytes)
    requires EndOf(BytesOf(h), joined)
    ensures var (sibling, d) := Complement(BytesOf(h), joined);
            Decodes(sibling) && PairBytes(StepPair(h, sibling, d)) == joined
  {
    var b := BytesOf(h);
    hide BytesOf, Decodes;
    if joined[..|b|] == b {
      EncodedBytes(joined[|b|..]);
      assert joined == b + joined[|b|..];
    } else {
      EncodedBytes(joined[..|joined| - |b|]);
      assert joined[|joined| - |b|..] == b;
      assert joined == joined[..|joined| - |b|] + b;
    }
  }

  /** The proof that starts at an end of leaf pair j and goes on as that of the node above it. */
  function Forged(sha: ByteHash, leaves: seq<string>, h: string, j: nat): Proof
    requires |leaves| > 1 && j < (|leaves| + 1) / 2 && EndOf(BytesOf(h), PairBytes(PairAt(leaves, j)))
    requires Halving(Layers(ServerPair(sha), leaves))
  {
    var layers := Layers(ServerPair(sha), leaves);
    var (sibling, d) := Complement(BytesOf(h), PairBytes(PairAt(leaves, j)));
    Proof(h, [sibling] + SiblingsFrom(layers, j, 1), [d] + DirectionsFrom(j, |layers| - 2), Root(ServerPair(sha), leaves))
  }

  ghost function ClimbInputs(sha: ByteHash, layers: seq<seq<string>>, index: nat, k: nat): set<Bytes>
    requires Halving(layers) && k < |layers| && index < |layers[k]|
  {
    FoldInputs(sha, layers[k][index], SiblingsFrom(layers, index, k), DirectionsFrom(index, |layers| - 1 - k))
  }

  lemma ClimbInputsOne(sha: ByteHash, layers: seq<seq<string>>, index: nat, k: nat)
    requires Chained(ServerPair(sha), layers) && Halving(layers) && k < |layers| - 1 && index < |layers[k]|
    ensures index / 2 < |layers[k + 1]|
    ensures ClimbInputs(sha, layers, index, k)
         == {PairBytes(PairAt(layers[k], index / 2))} + ClimbInputs(sha, layers, index / 2, k + 1)
  {
    hide Next, Padded, PairAt, Halving, PairBytes, ServerPair, Combine;
    StepUp(ServerPair(sha), layers[k], index);
    assert layers[k + 1] == Next(ServerPair(sha), layers[k]);
    assert SiblingsFrom(layers, index, k)[1..] == SiblingsFrom(layers, index / 2, k + 1);
    assert Tail(DirectionsFrom(index, |layers| - 1 - k)) == DirectionsFrom(index / 2, |layers| - 1 - (k + 1));
  }

  lemma {:induction false} PathInputs(sha: ByteHash, layers: seq<seq<string>>, index: nat, k: nat)
    requires Chained(ServerPair(sha), layers) && Halving(layers) && k < |layers| && index < |layers[k]|
    ensures ClimbInputs(sha, layers, index, k) <= TreeInputs(layers)
    decreases |layers| - k
  {
    hide Padded, Next, PairBytes, PairAt;
    if k < |layers| - 1 {
      hide ClimbInputs;
      ClimbInputsOne(sha, layers, index, k);
      PathInputs(sha, layers, index / 2, k + 1);
      assert PairBytes(PairAt(layers[k], index / 2)) in TreeInputs(layers);
    } else {
      assert SiblingsFrom(layers, index, k) == [];
    }
  }

  lemma {:induction false} PathDecodes(layers: seq<seq<string>>, index: nat, k: nat)
    requires Halving(layers) && k < |layers| && index < |layers[k]|
    requires forall i :: 0 <= i < |layers| ==> AllDigests(layers[i])
    ensures forall s :: s in SiblingsFrom(layers, index, k) ==> Decodes(s)
    decreases |layers| - k
  {
    if k < |layers| - 1 {
      PathDecodes(layers, index / 2, k + 1);
      var s := Padded(layers[k])[SiblingIndex(index)];
      assert s in layers[k];
      DigestBytes(s);
    }
  }

  /** Its first step lands on the node above the pair. */
  lemma ForgedStep(sha: ByteHash, leaves: seq<string>, h: string, j: nat)
    requires |leaves| > 1 && j < (|leaves| + 1) / 2 && EndOf(BytesOf(h), PairBytes(PairAt(leaves, j)))
    ensures var layers := Layers(ServerPair(sha), leaves);
            var (sibling, d) := Complement(BytesOf(h), PairBytes(PairAt(leaves, j)));
            && Decodes(sibling) && PairBytes(StepPair(h, sibling, d)) in TreeInputs(layers)
            && |layers| > 1 && j < |layers[1]| && Combine(ServerPair(sha), h, sibling, d) == layers[1][j]
  {
    var hp := ServerPair(sha);
    var layers := Layers(hp, leaves);
    LayersChained(hp, leaves);
    assert layers[0 + 1] == Next(hp, layers[0]);
    NextAt(hp, leaves, j);
    var joined := PairBytes(PairAt(leaves, j));
    hide BytesOf, EndOf, Next, Layers, Complement, Padded;
    ComplementJoins(h, joined);
    assert PairBytes(PairAt(layers[0], j)) in TreeInputs(layers);
  }

  /** The path above it is the tree's own. */
  lemma PathAbove(sha: ByteHash, leaves: seq<string>, j: nat)
    requires DigestSized(sha) && AllDigests(leaves) && |leaves| > 1 && j < (|leaves| + 1) / 2
    ensures var hp := ServerPair(sha); var layers := Layers(hp, leaves);
            && Halving(layers) && |layers| > 1 && j < |layers[1]|
            && var s, ds := SiblingsFrom(layers, j, 1), DirectionsFrom(j, |layers| - 2);
            && |s| == |layers| - 2 && (forall i :: 0 <= i < |s| ==> Decodes(s[i]))
            && FoldInputs(sha, layers[1][j], s, ds) <= TreeInputs(layers)
            && Some(Fold(hp, layers[1][j], s, ds)) == Root(hp, leaves)
  {
    var hp := ServerPair(sha);
    var layers := Layers(hp, leaves);
    LayersChained(hp, leaves);
    hide Next, Padded, PairAt, PairBytes, Layers, ServerPair, SiblingsFrom, DirectionsFrom, FoldInputs, Fold, TreeInputs;
    FoldReachesTop(hp, layers, j, 1);
    PathInputs(sha, layers, j, 1);
    forall i | 0 <= i < |layers| ensures AllDigests(layers[i]) { LayersAreDigests(sha, layers, i); }
    PathDecodes(layers, j, 1);
    SiblingCount(layers, j, 1);
  }

  lemma ForgedVerifies(sha: ByteHash, leaves: seq<string>, h: string, j: nat)
    requires DigestSized(sha) && AllDigests(leaves) && |leaves| > 1
    requires j < (|leaves| + 1) / 2 && EndOf(BytesOf(h), PairBytes(PairAt(leaves, j)))
    ensures Halving(Layers(ServerPair(sha), leaves))
    ensures Proves(sha, leaves, h, TreeInputs(Layers(ServerPair(sha), leaves)), Forged(sha, leaves, h, j))
  {
    hide Layers, PairAt, PairBytes, Complement, EndOf, BytesOf, ServerPair, Combine, TreeInputs;
    hide SiblingsFrom, DirectionsFrom, AllDigests, DigestSized, Root, Decodes, StepPair;
    PathAbove(sha, leaves, j);
    ForgedStep(sha, leaves, h, j);
    var layers := Layers(ServerPair(sha), leaves);
    var p := Forged(sha, leaves, h, j);
    var s, ds := SiblingsFrom(layers, j, 1), DirectionsFrom(j, |layers| - 2);
    assert p.siblings[1..] == s && Tail(p.directions) == ds;
    forall i | 0 <= i < |p.siblings| ensures Decodes(p.siblings[i]) { if i > 0 { assert p.siblings[i] == s[i - 1]; } }
  }

  /**
    Exactly which texts have a full-length proof that the server's check accepts: those whose
    bytes are an end of the joined bytes of two neighbouring leaves. The leaves themselves are
    such texts, and among digests they are the only ones.
  */
  lemma ServerProvableExactly(sha: ByteHash, leaves: seq<string>, h: string, inputs: set<Bytes>)
    requires DigestSized(sha) && AllDigests(leaves) && |leaves| > 1
    requires TreeInputs(Layers(ServerPair(sha), leaves)) <= inputs && ByteFree(sha, inputs)
    ensures (exists p :: Proves(sha, leaves, h, inputs, p)) <==> StartsProof(leaves, h)
    ensures IsDigest(h) ==> (StartsProof(leaves, h) <==> h in leaves)
  {
    hide Forged, TreeInputs, ByteFree, IsDigest, DigestSized, PairBytes, Next, EndOf;
    if StartsProof(leaves, h) {
      var j: nat :| j < (|leaves| + 1) / 2 && EndOf(BytesOf(h), PairBytes(PairAt(leaves, j)));
      ForgedVerifies(sha, leaves, h, j);
      assert Proves(sha, leaves, h, inputs, Forged(sha, leaves, h, j));
    }
    forall p | Proves(sha, leaves, h, inputs, p) ensures StartsProof(leaves, h) { StartIsEnd(sha, leaves, h, inputs, p); }
    if IsDigest(h) { EndIsNode(leaves, h); }
  }

  lemma StartIsEnd(sha: ByteHash, leaves: seq<string>, h: string, inputs: set<Bytes>, p: Proof)
    requires DigestSized(sha) && AllDigests(leaves) && |leaves| > 1
    requires TreeInputs(Layers(ServerPair(sha), leaves)) <= inputs && ByteFree(sha, inputs)
    requires Proves(sha, leaves, h, inputs, p)
    ensures StartsProof(leaves, h)
  {
    var hp := ServerPair(sha);
    var layers := Layers(hp, leaves);
    LayersChained(hp, leaves);
    var d := Heading(p.directions);
    var pair := StepPair(h, p.siblings[0], d);
    var up := Combine(hp, h, p.siblings[0], d);
    HashedIsDigest(sha, pair);
    assert PairBytes(pair) in FoldInputs(sha, h, p.siblings, p.directions);
    hide TreeInputs, ByteFree, IsDigest, DigestSized, PairBytes, Next, PairAt, StartsProof, Padded;
    FoldFromDigest(sha, layers, 1, up, p.siblings[1..], Tail(p.directions), inputs);
    StepEnds(sha, layers, 0, h, p.siblings[0], d, inputs);
  }

  /** Soundness for digests: an accepted full-length proof of a digest proves a leaf, whatever its siblings. */
  lemma ServerProofSound(sha: ByteHash, leaves: seq<string>, h: string, inputs: set<Bytes>, p: Proof)
    requires DigestSized(sha) && AllDigests(leaves) && leaves != [] && IsDigest(h)
    requires TreeInputs(Layers(ServerPair(sha), leaves)) <= inputs && ByteFree(sha, inputs)
    requires Proves(sha, leaves, h, inputs, p)
    ensures h in leaves
  {
    var layers := Layers(ServerPair(sha), leaves);
    LayersChained(ServerPair(sha), leaves);
    hide TreeInputs, ByteFree, IsDigest, DigestSized, Next;
    FoldFromDigest(sha, layers, 0, h, p.siblings, p.directions, inputs);
  }

  /**
    The failing family: the first 31 bytes of two neighbouring leaves are no leaf, yet their
    text has a full-length proof that is accepted.
  */
  lemma ShiftedSplitProves(sha: ByteHash, leaves: seq<string>, j: nat)
    requires DigestSized(sha) && AllDigests(leaves) && |leaves| > 1 && j < (|leaves| + 1) / 2
    ensures |PairBytes(PairAt(leaves, j))| == 64
    ensures var h := B.Encode(PairBytes(PairAt(leaves, j))[..31]);
            && h !in leaves
            && exists p :: Proves(sha, leaves, h, TreeInputs(Layers(ServerPair(sha), leaves)), p)
  {
    LeafPairBytes(leaves, j);
    var joined := PairBytes(PairAt(leaves, j));
    var h := B.Encode(joined[..31]);
    B.RoundTrip(joined[..31]);
    assert EndOf(BytesOf(h), joined);
    if h in leaves {
      var i :| 0 <= i < |leaves| && leaves[i] == h;
      DigestBytes(h);
      assert false;
    }
    ForgedVerifies(sha, leaves, h, j);
  }
}
