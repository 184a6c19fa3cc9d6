/**
  Merkle trees over chain hashes. The pair hash is a parameter `hp`; results that need it
  to be collision free say so for the finite set of pairs that the trees and proofs at hand
  really hash.
*/
module Merkle {
  import opened Text
  import opened Order

  type PairHash = (string, string) -> string

  datatype Paired = Paired(hash: string, opId: string)

  datatype Tree = Tree(
    root: Option<string>, leaves: seq<string>, leafOps: seq<string>, layers: seq<seq<string>>)

  datatype Direction = Left | Right

  datatype Proof = Proof(
    leaf: string, siblings: seq<string>, directions: seq<Direction>, root: Option<string>)

  // ---- The tree ----

  /** An odd layer repeats its last node. */
  function Padded(layer: seq<string>): (r: seq<string>)
    ensures |r| % 2 == 0 && |r| / 2 == (|layer| + 1) / 2
    ensures forall i :: 0 <= i < |layer| ==> r[i] == layer[i]
    ensures forall x :: x in r ==> x in layer
  {
    if |layer| % 2 != 0 then layer + [layer[|layer| - 1]] else layer
  }

  function Next(hp: PairHash, layer: seq<string>): (r: seq<string>)
    ensures |r| == (|layer| + 1) / 2
  {
    var p := Padded(layer);
    seq(|p| / 2, i requires 0 <= i < |p| / 2 => hp(p[2 * i], p[2 * i + 1]))
  }

  function Layers(hp: PairHash, layer: seq<string>): (r: seq<seq<string>>)
    ensures |r| >= 1 && r[0] == layer
    decreases |layer|
  {
    if |layer| <= 1 then [layer] else [layer] + Layers(hp, Next(hp, layer))
  }

  function Last<T>(s: seq<T>): T
    requires s != []
  {
    s[|s| - 1]
  }

  /** `layer[0]`, which is undefined for an empty layer. */
  function First(layer: seq<string>): Option<string> {
    if layer == [] then None else Some(layer[0])
  }

  function Root(hp: PairHash, leaves: seq<string>): Option<string> {
    First(Last(Layers(hp, leaves)))
  }

  /** Successive layers of `Layers`, read off by index. */
  ghost predicate Chained(hp: PairHash, layers: seq<seq<string>>) {
    && layers != []
    && forall k :: 0 <= k < |layers| - 1 ==> |layers[k]| > 1 && layers[k + 1] == Next(hp, layers[k])
  }

  lemma {:induction false} LayersChained(hp: PairHash, leaves: seq<string>)
    ensures Chained(hp, Layers(hp, leaves))
    ensures |Last(Layers(hp, leaves))| <= 1
    ensures leaves != [] ==> |Last(Layers(hp, leaves))| == 1
    decreases |leaves|
  {
    if |leaves| > 1 {
      var rest := Layers(hp, Next(hp, leaves));
      LayersChained(hp, Next(hp, leaves));
      var all := Layers(hp, leaves);
      forall k | 0 <= k < |all| - 1
        ensures |all[k]| > 1 && all[k + 1] == Next(hp, all[k])
      {
        if k > 0 { assert all[k] == rest[k - 1] && all[k + 1] == rest[k]; }
      }
      assert Last(all) == Last(rest);
    }
  }

  function HashKey(): Paired -> seq<int> { (p: Paired) => Codes(p.hash) }

  function TextKey(): string -> seq<int> { (s: string) => Codes(s) }

  function Zip(hashes: seq<string>, ops: seq<string>): seq<Paired>
    requires |hashes| == |ops|
  {
    seq(|hashes|, i requires 0 <= i < |hashes| => Paired(hashes[i], ops[i]))
  }

  function Hashes(ps: seq<Paired>): seq<string> {
    seq(|ps|, i requires 0 <= i < |ps| => ps[i].hash)
  }

  function OpIds(ps: seq<Paired>): seq<string> {
    seq(|ps|, i requires 0 <= i < |ps| => ps[i].opId)
  }

  function TreeOf(hp: PairHash, hashes: seq<string>, ops: seq<string>): Tree
    requires |hashes| == |ops|
  {
    var sorted := Sort(Zip(hashes, ops), HashKey());
    var leaves := Hashes(sorted);
    Tree(Root(hp, leaves), leaves, OpIds(sorted), Layers(hp, leaves))
  }

  method BuildLayer(hp: PairHash, currentLayer: seq<string>) returns (nextLayer: seq<string>)
    ensures nextLayer == Next(hp, currentLayer)
  {
    nextLayer := [];
    var padded := currentLayer;
    if |currentLayer| % 2 != 0 {
      padded := currentLayer + [currentLayer[|currentLayer| - 1]];
    }
    var i := 0;
    while i < |padded|
      invariant i % 2 == 0 && 0 <= i <= |padded| && |nextLayer| == i / 2
      invariant forall k :: 0 <= k < |nextLayer| ==> nextLayer[k] == hp(padded[2 * k], padded[2 * k + 1])
    {
      nextLayer := nextLayer + [hp(padded[i], padded[i + 1])];
      i := i + 2;
    }
  }

  method BuildMerkleTree(hp: PairHash, leafHashes: seq<string>, operationIds: seq<string>)
    returns (tree: Tree)
    requires |leafHashes| == |operationIds|
    ensures tree == TreeOf(hp, leafHashes, operationIds)
  {
    var paired := Sort(Zip(leafHashes, operationIds), HashKey());
    var sortedLeaves := Hashes(paired);
    var layers := [sortedLeaves];
    var currentLayer := sortedLeaves;
    ghost var done: seq<seq<string>> := [];
    assert done + Layers(hp, currentLayer) == Layers(hp, sortedLeaves);
    while |currentLayer| > 1
      invariant layers == done + [currentLayer]
      invariant done + Layers(hp, currentLayer) == Layers(hp, sortedLeaves)
      decreases |currentLayer|
    {
      var nextLayer := BuildLayer(hp, currentLayer);
      PrependOne(done, currentLayer, Layers(hp, nextLayer));
      done := done + [currentLayer];
      layers := layers + [nextLayer];
      currentLayer := nextLayer;
    }
    assert Layers(hp, currentLayer) == [currentLayer];
    assert Last(layers) == currentLayer;
    tree := Tree(First(currentLayer), sortedLeaves, OpIds(paired), layers);
  }

  // ---- Proofs ----

  predicate Halving(layers: seq<seq<string>>) {
    forall k :: 0 <= k < |layers| - 1 ==> |layers[k + 1]| == (|layers[k]| + 1) / 2
  }

  /** What the proof routines take for granted of a tree: layer sizes that halve, rounding up. */
  predicate Shaped(tree: Tree) {
    tree.layers != [] && tree.layers[0] == tree.leaves && Halving(tree.layers)
  }

  function IndexOf(s: seq<string>, x: string): (r: Option<nat>)
    ensures r.Some? ==> r.value < |s| && s[r.value] == x && x !in s[..r.value]
    ensures r.None? ==> x !in s
  {
    if s == [] then None
    else if s[0] == x then Some(0)
    else
      match IndexOf(s[1..], x)
      case None => None
      case Some(i) => Some(i + 1)
  }

  function SiblingIndex(index: nat): nat { if index % 2 == 0 then index + 1 else index - 1 }

  function DirectionOf(index: nat): Direction { if index % 2 == 0 then Right else Left }

  /** Siblings from layer `k` up, for the node at `index` of that layer. */
  function SiblingsFrom(layers: seq<seq<string>>, index: nat, k: nat): seq<string>
    requires k < |layers| && index < |layers[k]|
    requires Halving(layers)
    decreases |layers| - k
  {
    if k == |layers| - 1 then []
    else [Padded(layers[k])[SiblingIndex(index)]] + SiblingsFrom(layers, index / 2, k + 1)
  }

  function DirectionsFrom(index: nat, steps: nat): seq<Direction> {
    if steps == 0 then [] else [DirectionOf(index)] + DirectionsFrom(index / 2, steps - 1)
  }

  /** The proof for the node at `index` of layer `k`. */
  function ProofAt(tree: Tree, index: nat, k: nat): Proof
    requires Shaped(tree) && k < |tree.layers| && index < |tree.layers[k]|
  {
    Proof(tree.layers[k][index], SiblingsFrom(tree.layers, index, k),
          DirectionsFrom(index, |tree.layers| - 1 - k), tree.root)
  }

  lemma ProofStep(layers: seq<seq<string>>, index: nat, k: nat, siblings: seq<string>, directions: seq<Direction>)
    requires Halving(layers) && k < |layers| - 1 && index < |layers[k]|
    ensures index / 2 < |layers[k + 1]| && SiblingIndex(index) < |Padded(layers[k])|
    ensures siblings + SiblingsFrom(layers, index, k)
         == siblings + [Padded(layers[k])[SiblingIndex(index)]] + SiblingsFrom(layers, index / 2, k + 1)
    ensures directions + DirectionsFrom(index, |layers| - 1 - k)
         == directions + [DirectionOf(index)] + DirectionsFrom(index / 2, |layers| - 1 - (k + 1))
  {
    PrependOne(siblings, Padded(layers[k])[SiblingIndex(index)], SiblingsFrom(layers, index / 2, k + 1));
    PrependOne(directions, DirectionOf(index), DirectionsFrom(index / 2, |layers| - 1 - (k + 1)));
  }

  method CollectPath(layers: seq<seq<string>>, start: nat)
    returns (siblings: seq<string>, directions: seq<Direction>)
    requires Halving(layers) && layers != [] && start < |layers[0]|
    ensures siblings == SiblingsFrom(layers, start, 0)
    ensures directions == DirectionsFrom(start, |layers| - 1)
  {
    hide SiblingsFrom, DirectionsFrom, Halving;
    var index: nat := start;
    siblings, directions := [], [];
    var layerIdx := 0;
    while layerIdx < |layers| - 1
      invariant 0 <= layerIdx < |layers| && index < |layers[layerIdx]|
      invariant siblings + SiblingsFrom(layers, index, layerIdx) == SiblingsFrom(layers, start, 0)
      invariant directions + DirectionsFrom(index, |layers| - 1 - layerIdx) == DirectionsFrom(start, |layers| - 1)
    {
      ProofStep(layers, index, layerIdx, siblings, directions);
      var layer := layers[layerIdx];
      if |layer| % 2 != 0 {
        layer := layer + [layer[|layer| - 1]];
      }
      assert layer == Padded(layers[layerIdx]);
      var siblingIndex := if index % 2 == 0 then index + 1 else index - 1;
      siblings := siblings + [layer[siblingIndex]];
      directions := directions + [if index % 2 == 0 then Right else Left];
      index := index / 2;
      layerIdx := layerIdx + 1;
    }
    TopHasNoSiblings(layers, index);
  }

  method GetMerkleProof(tree: Tree, leafHash: string) returns (proof: Option<Proof>)
    requires Shaped(tree)
    ensures proof == match IndexOf(tree.leaves, leafHash)
                     case None => None
                     case Some(i) => Some(ProofAt(tree, i, 0))
  {
    var index := IndexOf(tree.leaves, leafHash);
    if index.None? {
      return None;
    }
    var siblings, directions := CollectPath(tree.layers, index.value);
    proof := Some(Proof(leafHash, siblings, directions, tree.root));
  }

  lemma TopHasNoSiblings(layers: seq<seq<string>>, index: nat)
    requires Halving(layers) && layers != [] && index < |Last(layers)|
    ensures SiblingsFrom(layers, index, |layers| - 1) == [] && DirectionsFrom(index, 0) == []
  {
  }

  lemma PrependOne<T>(s: seq<T>, x: T, t: seq<T>)
    ensures s + ([x] + t) == s + [x] + t
  {
  }

  /** A missing direction reads as "right". */
  function Heading(directions: seq<Direction>): Direction {
    if directions == [] then Right else directions[0]
  }

  function StepPair(current: string, sibling: string, d: Direction): (string, string) {
    if d == Left then (sibling, current) else (current, sibling)
  }

  function Combine(hp: PairHash, current: string, sibling: string, d: Direction): string {
    var pair := StepPair(current, sibling, d);
    hp(pair.0, pair.1)
  }

  function Tail<T>(s: seq<T>): seq<T> { if s == [] then [] else s[1..] }

  function Fold(hp: PairHash, current: string, siblings: seq<string>, directions: seq<Direction>): string
    decreases |siblings|
  {
    if siblings == [] then current
    else Fold(hp, Combine(hp, current, siblings[0], Heading(directions)), siblings[1..], Tail(directions))
  }

  function Verifies(hp: PairHash, p: Proof): bool {
    Some(Fold(hp, p.leaf, p.siblings, p.directions)) == p.root
  }

  method VerifyMerkleProof(hp: PairHash, proof: Proof) returns (ok: bool)
    ensures ok == Verifies(hp, proof)
  {
    var current := proof.leaf;
    for i := 0 to |proof.siblings|
      invariant Fold(hp, current, proof.siblings[i..], DropUpTo(proof.directions, i))
             == Fold(hp, proof.leaf, proof.siblings, proof.directions)
    {
      var sibling := proof.siblings[i];
      assert proof.siblings[i..][1..] == proof.siblings[i + 1..];
      assert Tail(DropUpTo(proof.directions, i)) == DropUpTo(proof.directions, i + 1);
      if i < |proof.directions| && proof.directions[i] == Left {
        current := hp(sibling, current);
      } else {
        current := hp(current, sibling);
      }
    }
    ok := Some(current) == proof.root;
  }

  function DropUpTo<T>(s: seq<T>, n: nat): seq<T> { if n <= |s| then s[n..] else [] }

  // ---- Completeness: every node proves itself ----

  /** One layer up: a node and its sibling combine to the node above. */
  lemma StepUp(hp: PairHash, layer: seq<string>, index: nat)
    requires index < |layer| && |layer| > 1
    ensures var p := Padded(layer);
            && SiblingIndex(index) < |p|
            && StepPair(layer[index], p[SiblingIndex(index)], DirectionOf(index)) == PairAt(layer, index / 2)
            && Combine(hp, layer[index], p[SiblingIndex(index)], DirectionOf(index)) == Next(hp, layer)[index / 2]
  {
    if index % 2 == 0 {
      assert index == 2 * (index / 2);
    } else {
      assert index == 2 * (index / 2) + 1;
    }
  }

  function PairAt(layer: seq<string>, j: nat): (string, string)
    requires j < (|layer| + 1) / 2
  {
    (Padded(layer)[2 * j], Padded(layer)[2 * j + 1])
  }

  lemma NextAt(hp: PairHash, layer: seq<string>, j: nat)
    requires j < (|layer| + 1) / 2
    ensures Next(hp, layer)[j] == hp(PairAt(layer, j).0, PairAt(layer, j).1)
  {
  }

  /** What checking a node's generated proof computes. */
  ghost function Climb(hp: PairHash, layers: seq<seq<string>>, index: nat, k: nat): string
    requires Halving(layers) && k < |layers| && index < |layers[k]|
  {
    Fold(hp, layers[k][index], SiblingsFrom(layers, index, k), DirectionsFrom(index, |layers| - 1 - k))
  }

  lemma ClimbUp(hp: PairHash, layers: seq<seq<string>>, index: nat, k: nat)
    requires Chained(hp, layers) && Halving(layers)
    requires k < |layers| - 1 && index < |layers[k]|
    ensures index / 2 < |layers[k + 1]|
    ensures Climb(hp, layers, index, k) == Climb(hp, layers, index / 2, k + 1)
  {
    hide Next, Padded, PairAt, Halving, Combine, StepPair;
    StepUp(hp, layers[k], index);
    assert layers[k + 1] == Next(hp, layers[k]);
    assert SiblingsFrom(layers, index, k)[1..] == SiblingsFrom(layers, index / 2, k + 1);
    assert Tail(DirectionsFrom(index, |layers| - 1 - k)) == DirectionsFrom(index / 2, |layers| - 1 - (k + 1));
  }

  lemma {:induction false} FoldReachesTop(hp: PairHash, layers: seq<seq<string>>, index: nat, k: nat)
    requires Chained(hp, layers) && Halving(layers) && |Last(layers)| == 1
    requires k < |layers| && index < |layers[k]|
    ensures Climb(hp, layers, index, k) == Last(layers)[0]
    decreases |layers| - k
  {
    if k < |layers| - 1 {
      hide Climb, Chained, Halving;
      ClimbUp(hp, layers, index, k);
      FoldReachesTop(hp, layers, index / 2, k + 1);
    }
  }

  /** The generated proof of a leaf verifies against the built root, for every leaf count. */
  lemma ProofsVerify(hp: PairHash, hashes: seq<string>, ops: seq<string>, index: nat, k: nat)
    requires |hashes| == |ops| && hashes != []
    requires var t := TreeOf(hp, hashes, ops); k < |t.layers| && index < |t.layers[k]|
    ensures Shaped(TreeOf(hp, hashes, ops))
    ensures Verifies(hp, ProofAt(TreeOf(hp, hashes, ops), index, k))
  {
    hide Next, Padded, SiblingsFrom, DirectionsFrom, Fold, Sort;
    var t := TreeOf(hp, hashes, ops);
    SortPermutes(Zip(hashes, ops), HashKey());
    assert |t.leaves| == |hashes|;
    LayersChained(hp, t.leaves);
    assert Chained(hp, t.layers);
    FoldReachesTop(hp, t.layers, index, k);
  }

  // ---- Soundness: only nodes have proofs ----

  /** Every pair the tree hashes. */
  ghost function TreePairs(layers: seq<seq<string>>): set<(string, string)> {
    set k, j | 0 <= k < |layers| && 0 <= j < (|layers[k]| + 1) / 2 :: PairAt(layers[k], j)
  }

  /** Every pair a proof check hashes. */
  ghost function FoldPairs(hp: PairHash, current: string, siblings: seq<string>, directions: seq<Direction>)
    : set<(string, string)>
    decreases |siblings|
  {
    if siblings == [] then {}
    else
      var d := Heading(directions);
      {StepPair(current, siblings[0], d)}
      + FoldPairs(hp, Combine(hp, current, siblings[0], d), siblings[1..], Tail(directions))
  }

  ghost predicate CollisionFree(hp: PairHash, pairs: set<(string, string)>) {
    forall a, b :: a in pairs && b in pairs && hp(a.0, a.1) == hp(b.0, b.1) ==> a == b
  }

  /** The only pair that hashes to a node is the pair below it, so both its parts are nodes. */
  lemma PairsBelow(hp: PairHash, layers: seq<seq<string>>, k: nat, pair: (string, string))
    requires k < |layers| - 1 && hp(pair.0, pair.1) in Next(hp, layers[k])
    requires CollisionFree(hp, TreePairs(layers) + {pair})
    ensures pair.0 in layers[k] && pair.1 in layers[k]
  {
    var n := Next(hp, layers[k]);
    var j :| 0 <= j < |n| && n[j] == hp(pair.0, pair.1);
    NextAt(hp, layers[k], j);
    assert PairAt(layers[k], j) in TreePairs(layers);
    assert pair == PairAt(layers[k], j);
    assert PairAt(layers[k], j).0 in Padded(layers[k]) && PairAt(layers[k], j).1 in Padded(layers[k]);
  }

  lemma {:induction false} FoldStaysInside(hp: PairHash, layers: seq<seq<string>>, k: nat,
                                           current: string, siblings: seq<string>, directions: seq<Direction>)
    requires Chained(hp, layers) && |Last(layers)| == 1
    requires k + |siblings| == |layers| - 1
    requires CollisionFree(hp, TreePairs(layers) + FoldPairs(hp, current, siblings, directions))
    requires Fold(hp, current, siblings, directions) == Last(layers)[0]
    ensures current in layers[k]
    decreases |siblings|
  {
    hide Next, Padded, PairAt, TreePairs;
    if siblings != [] {
      var d := Heading(directions);
      var up := Combine(hp, current, siblings[0], d);
      var pair := StepPair(current, siblings[0], d);
      assert pair in FoldPairs(hp, current, siblings, directions);
      FoldStaysInside(hp, layers, k + 1, up, siblings[1..], Tail(directions));
      assert layers[k + 1] == Next(hp, layers[k]);
      PairsBelow(hp, layers, k, pair);
    }
  }

  /**
    Soundness: a verified proof of length depth - k proves a node of layer k; of full length,
    a leaf. The leaf count is arbitrary, so paths through repeated odd nodes are included.
  */
  lemma ProofSound(hp: PairHash, leaves: seq<string>, k: nat, p: Proof)
    requires leaves != []
    requires k + |p.siblings| == |Layers(hp, leaves)| - 1
    requires p.root == Root(hp, leaves)
    requires CollisionFree(hp, TreePairs(Layers(hp, leaves)) + FoldPairs(hp, p.leaf, p.siblings, p.directions))
    ensures Verifies(hp, p) ==> p.leaf in Layers(hp, leaves)[k]
  {
    if Verifies(hp, p) {
      LayersChained(hp, leaves);
      FoldStaysInside(hp, Layers(hp, leaves), k, p.leaf, p.siblings, p.directions);
    }
  }

  ghost predicate ProvesIn(hp: PairHash, t: Tree, h: string, pairs: set<(string, string)>, p: Proof) {
    && p.leaf == h && p.root == t.root && |p.siblings| == |t.layers| - 1
    && FoldPairs(hp, h, p.siblings, p.directions) <= pairs && Verifies(hp, p)
  }

  /** Full-length proofs decide membership: a hash has one that verifies exactly when it is a leaf. */
  lemma ProvableExactly(hp: PairHash, hashes: seq<string>, ops: seq<string>, h: string, pairs: set<(string, string)>)
    requires |hashes| == |ops| && hashes != []
    requires TreePairs(TreeOf(hp, hashes, ops).layers) <= pairs && CollisionFree(hp, pairs)
    ensures h in hashes <==> exists p :: ProvesIn(hp, TreeOf(hp, hashes, ops), h, pairs, p)
  {
    var t := TreeOf(hp, hashes, ops);
    LeavesAreSorted(hp, hashes, ops);
    SortMember(hashes, TextKey(), h);
    if h in hashes {
      var i :| 0 <= i < |t.leaves| && t.leaves[i] == h;
      LeafProves(hp, hashes, ops, i);
      assert ProvesIn(hp, t, h, pairs, ProofAt(t, i, 0));
    }
    forall p | ProvesIn(hp, t, h, pairs, p)
      ensures h in hashes
    {
      ProofSound(hp, t.leaves, 0, p);
    }
  }

  lemma LeafProves(hp: PairHash, hashes: seq<string>, ops: seq<string>, i: nat)
    requires |hashes| == |ops| && hashes != [] && i < |TreeOf(hp, hashes, ops).leaves|
    ensures var t := TreeOf(hp, hashes, ops);
            Shaped(t) && ProvesIn(hp, t, t.leaves[i], TreePairs(t.layers), ProofAt(t, i, 0))
  {
    var t := TreeOf(hp, hashes, ops);
    ProofsVerify(hp, hashes, ops, i, 0);
    SiblingCount(t.layers, i, 0);
    LayersChained(hp, t.leaves);
    PathPairs(hp, t.layers, i, 0);
  }

  lemma {:induction false} SiblingCount(layers: seq<seq<string>>, index: nat, k: nat)
    requires k < |layers| && index < |layers[k]|
    requires Halving(layers)
    ensures |SiblingsFrom(layers, index, k)| == |layers| - 1 - k
    decreases |layers| - k
  {
    if k < |layers| - 1 { SiblingCount(layers, index / 2, k + 1); }
  }

  /** The pairs hashed on the way up from a node. */
  ghost function ClimbPairs(hp: PairHash, layers: seq<seq<string>>, index: nat, k: nat): set<(string, string)>
    requires Halving(layers) && k < |layers| && index < |layers[k]|
  {
    FoldPairs(hp, layers[k][index], SiblingsFrom(layers, index, k), DirectionsFrom(index, |layers| - 1 - k))
  }

  lemma ClimbOne(hp: PairHash, layers: seq<seq<string>>, index: nat, k: nat)
    requires Chained(hp, layers) && Halving(layers)
    requires k < |layers| - 1 && index < |layers[k]|
    ensures index / 2 < |layers[k + 1]|
    ensures ClimbPairs(hp, layers, index, k)
         == {PairAt(layers[k], index / 2)} + ClimbPairs(hp, layers, index / 2, k + 1)
  {
    hide Next, Padded, PairAt, Halving;
    StepUp(hp, layers[k], index);
    assert layers[k + 1] == Next(hp, layers[k]);
    assert SiblingsFrom(layers, index, k)[1..] == SiblingsFrom(layers, index / 2, k + 1);
    assert Tail(DirectionsFrom(index, |layers| - 1 - k)) == DirectionsFrom(index / 2, |layers| - 1 - (k + 1));
  }

  lemma {:induction false} PathPairs(hp: PairHash, layers: seq<seq<string>>, index: nat, k: nat)
    requires Chained(hp, layers) && Halving(layers)
    requires k < |layers| && index < |layers[k]|
    ensures ClimbPairs(hp, layers, index, k) <= TreePairs(layers)
    decreases |layers| - k
  {
    if k < |layers| - 1 {
      hide ClimbPairs, Padded, Next;
      ClimbOne(hp, layers, index, k);
      PathPairs(hp, layers, index / 2, k + 1);
      assert PairAt(layers[k], index / 2) in TreePairs(layers);
    } else {
      assert SiblingsFrom(layers, index, k) == [];
    }
  }

  /** A shorter proof proves an inner node: the length check is the caller's. */
  lemma InnerNodeVerifies(hp: PairHash, a: string, b: string, c: string, d: string)
    ensures var leaves := [a, b, c, d];
            Verifies(hp, Proof(hp(a, b), [hp(c, d)], [Right], Root(hp, leaves)))
  {
    var leaves := [a, b, c, d];
    var top := hp(hp(a, b), hp(c, d));
    assert Next(hp, leaves) == [hp(a, b), hp(c, d)];
    assert Next(hp, [hp(a, b), hp(c, d)]) == [top];
    assert Layers(hp, [hp(a, b), hp(c, d)]) == [[hp(a, b), hp(c, d)]] + [[top]];
    assert Last(Layers(hp, leaves)) == [top];
    assert Fold(hp, top, [], []) == top;
  }

  // ---- Root binding ----

  lemma {:induction false} HashesOfInsert(p: Paired, s: seq<Paired>)
    ensures Hashes(Insert(p, s, HashKey())) == Insert(p.hash, Hashes(s), TextKey())
  {
    if s == [] || !Less(HashKey()(s[0]), HashKey()(p)) {
      assert Hashes([p] + s) == [p.hash] + Hashes(s);
    } else {
      HashesOfInsert(p, s[1..]);
      assert Hashes(s)[1..] == Hashes(s[1..]);
      assert Hashes([s[0]] + Insert(p, s[1..], HashKey()))
          == [s[0].hash] + Hashes(Insert(p, s[1..], HashKey()));
    }
  }

  lemma {:induction false} HashesOfSort(s: seq<Paired>)
    ensures Hashes(Sort(s, HashKey())) == Sort(Hashes(s), TextKey())
  {
    if s != [] {
      HashesOfSort(s[1..]);
      HashesOfInsert(s[0], Sort(s[1..], HashKey()));
      assert Hashes(s)[1..] == Hashes(s[1..]);
    }
  }

  /** Leaves come out sorted, and every operation id stays paired with its leaf. */
  lemma LeavesAreSorted(hp: PairHash, hashes: seq<string>, ops: seq<string>)
    requires |hashes| == |ops|
    ensures var t := TreeOf(hp, hashes, ops);
            && t.leaves == Sort(hashes, TextKey())
            && |t.leaves| == |t.leafOps| == |hashes|
            && multiset(Zip(t.leaves, t.leafOps)) == multiset(Zip(hashes, ops))
  {
    var z := Zip(hashes, ops);
    var sorted := Sort(z, HashKey());
    SortPermutes(z, HashKey());
    HashesOfSort(z);
    assert Hashes(z) == hashes;
    assert Zip(Hashes(sorted), OpIds(sorted)) == sorted;
  }

  /** The root is a function of the multiset of leaf hashes. */
  lemma RootIgnoresOrder(hp: PairHash, a: seq<string>, opsA: seq<string>, b: seq<string>, opsB: seq<string>)
    requires |a| == |opsA| && |b| == |opsB|
    requires multiset(a) == multiset(b)
    ensures TreeOf(hp, a, opsA).root == TreeOf(hp, b, opsB).root
    ensures TreeOf(hp, a, opsA).layers == TreeOf(hp, b, opsB).layers
  {
    LeavesAreSorted(hp, a, opsA);
    LeavesAreSorted(hp, b, opsB);
    assert KeyDetermines(a, TextKey()) by {
      forall x, y | x in a && y in a && TextKey()(x) == TextKey()(y) ensures x == y { CodesInjective(x, y); }
    }
    SortIgnoresOrder(a, b, TextKey());
  }

  function Pow2(k: nat): nat { if k == 0 then 1 else 2 * Pow2(k - 1) }

  /** Layer k over n leaves has ceil(n / 2^k) nodes. */
  lemma {:induction false} LayerSize(hp: PairHash, leaves: seq<string>, k: nat)
    requires k < |Layers(hp, leaves)|
    ensures var m := |Layers(hp, leaves)[k]|;
            (m - 1) * Pow2(k) < |leaves| <= m * Pow2(k)
  {
    hide Layers, Next, Padded;
    if k > 0 {
      LayersChained(hp, leaves);
      LayerSize(hp, leaves, k - 1);
      NextSize(hp, Layers(hp, leaves), k - 1);
      HalvedCeiling(|Layers(hp, leaves)[k - 1]|, Pow2(k - 1), |leaves|);
    }
  }

  lemma NextSize(hp: PairHash, layers: seq<seq<string>>, k: nat)
    requires Chained(hp, layers) && k < |layers| - 1
    ensures |layers[k + 1]| == (|layers[k]| + 1) / 2
  {
  }

  lemma HalvedCeiling(m: nat, p: nat, n: nat)
    requires (m - 1) * p < n <= m * p
    ensures ((m + 1) / 2 - 1) * (2 * p) < n <= (m + 1) / 2 * (2 * p)
  {
    var h := (m + 1) / 2;
    assert h * (2 * p) == 2 * h * p && (h - 1) * (2 * p) == (2 * h - 2) * p;
    if m == 2 * h {
      assert (2 * h - 2) * p == (m - 1) * p - p;
    } else {
      assert m == 2 * h - 1;
      assert 2 * h * p == m * p + p;
    }
  }

  lemma {:induction false} SameLayersBelow(hp: PairHash, a: seq<seq<string>>, b: seq<seq<string>>, k: nat)
    requires Chained(hp, a) && Chained(hp, b) && |a| == |b| && k < |a|
    requires Last(a) == Last(b)
    requires forall j :: 0 <= j < |a| ==> |a[j]| == |b[j]|
    requires CollisionFree(hp, TreePairs(a) + TreePairs(b))
    ensures a[k] == b[k]
    decreases |a| - k
  {
    hide Padded, Next;
    if k < |a| - 1 {
      SameLayersBelow(hp, a, b, k + 1);
      assert a[k + 1] == Next(hp, a[k]) && b[k + 1] == Next(hp, b[k]);
      forall i | 0 <= i < |a[k]| ensures a[k][i] == b[k][i] {
        var j := i / 2;
        NextAt(hp, a[k], j);
        NextAt(hp, b[k], j);
        assert PairAt(a[k], j) in TreePairs(a) && PairAt(b[k], j) in TreePairs(b);
        assert PairAt(a[k], j) == PairAt(b[k], j);
      }
    }
  }

  lemma {:induction false} SameCountSameShape(hp: PairHash, a: seq<string>, b: seq<string>)
    requires |a| == |b|
    ensures |Layers(hp, a)| == |Layers(hp, b)|
    ensures forall k :: 0 <= k < |Layers(hp, a)| ==> |Layers(hp, a)[k]| == |Layers(hp, b)[k]|
    decreases |a|
  {
    if |a| > 1 { SameCountSameShape(hp, Next(hp, a), Next(hp, b)); }
  }

  /** Leaf count and root determine the sorted leaves. */
  lemma RootBinds(hp: PairHash, a: seq<string>, b: seq<string>)
    requires |a| == |b| && Root(hp, a) == Root(hp, b)
    requires CollisionFree(hp, TreePairs(Layers(hp, a)) + TreePairs(Layers(hp, b)))
    ensures a == b
  {
    if a != [] {
      LayersChained(hp, a);
      LayersChained(hp, b);
      SameCountSameShape(hp, a, b);
      var top, top' := Last(Layers(hp, a)), Last(Layers(hp, b));
      assert top == [top[0]] && top' == [top'[0]];
      SameLayersBelow(hp, Layers(hp, a), Layers(hp, b), 0);
    }
  }

  /** The count cannot be dropped: repeating the odd leaf keeps the root. */
  lemma RootAloneDoesNotBind(hp: PairHash, a: string, b: string, c: string)
    ensures Root(hp, [a, b, c]) == Root(hp, [a, b, c, c])
  {
    assert Next(hp, [a, b, c]) == Next(hp, [a, b, c, c]);
  }
}
