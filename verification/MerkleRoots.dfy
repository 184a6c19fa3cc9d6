/**
  Which leaf sequences share a root. Repeating the last node of an odd layer makes a tree over
  some leaves the same as one over more, so the root alone does not determine the leaves; it
  determines exactly what they come to when every repetition is written out.
*/
module MerkleRoots {
  import opened Text
  import opened Order
  import opened Merkle

  /** Blocks of leaves, paired as the layers pair nodes: an odd last block is repeated. */
  function NextBlocks(bs: seq<seq<string>>): (r: seq<seq<string>>)
    ensures |r| == (|bs| + 1) / 2
  {
    seq((|bs| + 1) / 2, i requires 0 <= i < (|bs| + 1) / 2 => bs[2 * i] + bs[Second(|bs|, i)])
  }

  /** The right part of pair i among n nodes. */
  function Second(n: nat, i: nat): (j: nat)
    requires i < (n + 1) / 2
    ensures j < n
  {
    if 2 * i + 1 < n then 2 * i + 1 else 2 * i
  }

  /** The leaves below each node of layer k, repetitions written out. */
  function Blocks(leaves: seq<string>, k: nat): seq<seq<string>> {
    if k == 0 then seq(|leaves|, i requires 0 <= i < |leaves| => [leaves[i]]) else NextBlocks(Blocks(leaves, k - 1))
  }

  function Depth(n: nat): nat { if n <= 1 then 0 else 1 + Depth((n + 1) / 2) }

  lemma {:induction false} LayerCount(hp: PairHash, leaves: seq<string>)
    ensures |Layers(hp, leaves)| == Depth(|leaves|) + 1
    decreases |leaves|
  {
    if |leaves| > 1 { LayerCount(hp, Next(hp, leaves)); }
  }

  /** Blocks and layers have the same number of nodes, and the blocks of a layer one size. */
  lemma {:induction false} BlocksFit(hp: PairHash, leaves: seq<string>, k: nat)
    requires k < |Layers(hp, leaves)|
    ensures |Blocks(leaves, k)| == |Layers(hp, leaves)[k]|
    ensures forall i :: 0 <= i < |Blocks(leaves, k)| ==> |Blocks(leaves, k)[i]| == Pow2(k)
  {
    hide Next, Layers;
    if k > 0 {
      BlocksFit(hp, leaves, k - 1);
      LayersChained(hp, leaves);
      NextSize(hp, Layers(hp, leaves), k - 1);
    } else {
      LayersChained(hp, leaves);
      FirstLayer(hp, leaves);
    }
  }

  lemma FirstLayer(hp: PairHash, leaves: seq<string>)
    ensures Layers(hp, leaves)[0] == leaves
  {
  }

  /** The leaves with every repetition written out: 2^depth of them. */
  function Full(leaves: seq<string>): seq<string>
    requires leaves != []
  {
    var top := Blocks(leaves, Depth(|leaves|));
    if top == [] then [] else top[0]
  }

  lemma PairIs(layer: seq<string>, i: nat)
    requires i < (|layer| + 1) / 2
    ensures PairAt(layer, i) == (layer[2 * i], layer[Second(|layer|, i)])
  {
  }

  lemma SameConcat(x: seq<string>, y: seq<string>, u: seq<string>, v: seq<string>)
    requires |x| == |u|
    ensures x + y == u + v <==> x == u && y == v
  {
    if x + y == u + v { assert x == (x + y)[..|x|] == u && y == (x + y)[|x|..] == v; }
  }

  /** Two nodes of one height are equal exactly when the leaves below them are. */
  lemma {:induction false} NodesAgree(hp: PairHash, a: seq<string>, b: seq<string>, k: nat, i: nat, j: nat)
    requires k < |Layers(hp, a)| && k < |Layers(hp, b)| && i < |Layers(hp, a)[k]| && j < |Layers(hp, b)[k]|
    requires CollisionFree(hp, TreePairs(Layers(hp, a)) + TreePairs(Layers(hp, b)))
    ensures i < |Blocks(a, k)| && j < |Blocks(b, k)|
    ensures Layers(hp, a)[k][i] == Layers(hp, b)[k][j] <==> Blocks(a, k)[i] == Blocks(b, k)[j]
    decreases k
  {
    hide Layers, Next, TreePairs, PairAt, Second, Pow2, Blocks, CollisionFree;
    if k == 0 {
      LeafBlock(hp, a, i);
      LeafBlock(hp, b, j);
    } else {
      var c, c2 := NodeBelow(hp, a, k, i);
      var d, d2 := NodeBelow(hp, b, k, j);
      NodesAgree(hp, a, b, k - 1, c, d);
      NodesAgree(hp, a, b, k - 1, c2, d2);
      var la, lb, x, y := Layers(hp, a)[k - 1], Layers(hp, b)[k - 1], Blocks(a, k - 1), Blocks(b, k - 1);
      PairsAgree(hp, TreePairs(Layers(hp, a)) + TreePairs(Layers(hp, b)), (la[c], la[c2]), (lb[d], lb[d2]), x[c], x[c2], y[d], y[d2]);
    }
  }

  lemma LeafBlock(hp: PairHash, leaves: seq<string>, i: nat)
    requires i < |Layers(hp, leaves)[0]|
    ensures i < |Blocks(leaves, 0)| && Blocks(leaves, 0)[i] == [Layers(hp, leaves)[0][i]]
  {
    FirstLayer(hp, leaves);
    hide Layers;
  }

  lemma BlockSize(hp: PairHash, leaves: seq<string>, k: nat, i: nat)
    requires k < |Layers(hp, leaves)| && i < |Layers(hp, leaves)[k]|
    ensures i < |Blocks(leaves, k)| && |Blocks(leaves, k)[i]| == Pow2(k)
  {
    hide Layers, Blocks, Pow2;
    BlocksFit(hp, leaves, k);
  }

  /** Pairs whose parts agree with their blocks agree with the joined blocks. */
  lemma PairsAgree(hp: PairHash, pairs: set<(string, string)>, p: (string, string), q: (string, string),
                   x: seq<string>, x2: seq<string>, y: seq<string>, y2: seq<string>)
    requires CollisionFree(hp, pairs) && p in pairs && q in pairs && |x| == |y|
    requires (p.0 == q.0 <==> x == y) && (p.1 == q.1 <==> x2 == y2)
    ensures hp(p.0, p.1) == hp(q.0, q.1) <==> x + x2 == y + y2
  {
    SameConcat(x, x2, y, y2);
  }

  /** A node of layer k is the pair of two nodes below it, and its block their blocks joined. */
  lemma NodeBelow(hp: PairHash, leaves: seq<string>, k: nat, i: nat) returns (c: nat, c2: nat)
    requires 0 < k < |Layers(hp, leaves)| && i < |Layers(hp, leaves)[k]|
    ensures var l, bs := Layers(hp, leaves), Blocks(leaves, k - 1);
            && c < |l[k - 1]| == |bs| && c2 < |bs| && i < |Blocks(leaves, k)| && |bs[c]| == Pow2(k - 1)
            && l[k][i] == hp(l[k - 1][c], l[k - 1][c2]) && (l[k - 1][c], l[k - 1][c2]) in TreePairs(l)
            && Blocks(leaves, k)[i] == bs[c] + bs[c2]
  {
    hide Layers, PairAt, Padded, Pow2;
    var l := Layers(hp, leaves);
    LayersChained(hp, leaves);
    assert l[k - 1 + 1] == Next(hp, l[k - 1]);
    hide Next;
    NextAt(hp, l[k - 1], i);
    PairIs(l[k - 1], i);
    c, c2 := 2 * i, Second(|l[k - 1]|, i);
    BlockSize(hp, leaves, k - 1, c);
    BlocksFit(hp, leaves, k - 1);
    assert PairAt(l[k - 1], i) in TreePairs(l);
    hide TreePairs, Second;
  }

  lemma {:induction false} LayersFrom(hp: PairHash, leaves: seq<string>, m: nat)
    requires m < |Layers(hp, leaves)|
    ensures Layers(hp, Layers(hp, leaves)[m]) == Layers(hp, leaves)[m..]
    decreases m
  {
    if m > 0 {
      var rest := Layers(hp, Next(hp, leaves));
      assert |leaves| > 1;
      LayersFrom(hp, Next(hp, leaves), m - 1);
      assert Layers(hp, leaves)[m..] == rest[m - 1..];
    }
  }

  lemma SuffixPairs(layers: seq<seq<string>>, m: nat)
    requires m <= |layers|
    ensures TreePairs(layers[m..]) <= TreePairs(layers)
  {
    hide PairAt;
    forall x | x in TreePairs(layers[m..]) ensures x in TreePairs(layers) {
      var k, j :| 0 <= k < |layers[m..]| && 0 <= j < (|layers[m..][k]| + 1) / 2 && x == PairAt(layers[m..][k], j);
      assert layers[m..][k] == layers[m + k];
    }
  }

  /** Among trees of one depth. */
  lemma SameDepthRoots(hp: PairHash, a: seq<string>, b: seq<string>)
    requires a != [] && b != [] && |Layers(hp, a)| == |Layers(hp, b)|
    requires CollisionFree(hp, TreePairs(Layers(hp, a)) + TreePairs(Layers(hp, b)))
    ensures Root(hp, a) == Root(hp, b) <==> Full(a) == Full(b)
  {
    LayersChained(hp, a);
    LayersChained(hp, b);
    LayerCount(hp, a);
    LayerCount(hp, b);
    hide Layers, TreePairs, CollisionFree, Blocks, Depth, Chained;
    var k: nat := Depth(|a|);
    NodesAgree(hp, a, b, k, 0, 0);
  }

  /**
    Exactly when two leaf sequences share a root, where the pair hash does not collide: when
    the first, written out, is the second written out from the layer at which that is as deep.
  */
  lemma RootsAgreeExactly(hp: PairHash, a: seq<string>, b: seq<string>)
    requires a != [] && b != [] && |Layers(hp, a)| <= |Layers(hp, b)|
    requires CollisionFree(hp, TreePairs(Layers(hp, a)) + TreePairs(Layers(hp, b)))
    ensures var below := Layers(hp, b)[|Layers(hp, b)| - |Layers(hp, a)|];
            below != [] && (Root(hp, a) == Root(hp, b) <==> Full(a) == Full(below))
  {
    var m: nat := |Layers(hp, b)| - |Layers(hp, a)|;
    FromLayer(hp, b, m);
    hide Layers, TreePairs, Full, Root;
    SameDepthRoots(hp, a, Layers(hp, b)[m]);
  }

  /** The tree over a layer is the upper part of the tree. */
  lemma FromLayer(hp: PairHash, b: seq<string>, m: nat)
    requires b != [] && m < |Layers(hp, b)|
    ensures var below := Layers(hp, b)[m];
            && below != [] && |Layers(hp, below)| == |Layers(hp, b)| - m && Root(hp, below) == Root(hp, b)
            && TreePairs(Layers(hp, below)) <= TreePairs(Layers(hp, b))
  {
    hide Layers, TreePairs, Next;
    var lb := Layers(hp, b);
    LayersFrom(hp, b, m);
    SuffixPairs(lb, m);
    LayersChained(hp, b);
    FirstLayer(hp, b);
    NodesInEveryLayer(hp, lb, m);
    assert Last(lb[m..]) == Last(lb);
  }

  lemma {:induction false} NodesInEveryLayer(hp: PairHash, layers: seq<seq<string>>, m: nat)
    requires Chained(hp, layers) && m < |layers| && layers[0] != []
    ensures layers[m] != []
  {
    if m > 0 { assert |layers[m - 1]| > 1 && layers[m - 1 + 1] == Next(hp, layers[m - 1]); }
  }

  /** An odd tree and its padded form come to the same leaves, whatever the hash. */
  lemma FullOfPadded(leaves: seq<string>)
    requires |leaves| > 1
    ensures Full(Padded(leaves)) == Full(leaves)
  {
    var p := Padded(leaves);
    assert (|p| + 1) / 2 == (|leaves| + 1) / 2;
    assert Depth(|p|) == Depth(|leaves|);
    assert Blocks(p, 1) == NextBlocks(Blocks(p, 0)) && Blocks(leaves, 1) == NextBlocks(Blocks(leaves, 0));
    assert Blocks(p, 1) == Blocks(leaves, 1);
    SameBlocksAbove(p, leaves, Depth(|leaves|));
  }

  lemma {:induction false} SameBlocksAbove(a: seq<string>, b: seq<string>, k: nat)
    requires k >= 1 && Blocks(a, 1) == Blocks(b, 1)
    ensures Blocks(a, k) == Blocks(b, k)
  {
    if k > 1 { SameBlocksAbove(a, b, k - 1); }
  }

  // ---- Nodes by index ----

  /** A node is the pair hash of the two below it, in that order, the last standing for a missing one. */
  lemma NodeAbove(hp: PairHash, leaves: seq<string>, k: nat, i: nat)
    requires k + 1 < |Layers(hp, leaves)| && i < |Layers(hp, leaves)[k + 1]|
    ensures var below := Layers(hp, leaves)[k];
            && 2 * i < |below|
            && Layers(hp, leaves)[k + 1][i] == hp(below[2 * i], if 2 * i + 1 < |below| then below[2 * i + 1] else below[2 * i])
  {
    hide Layers;
    LayersChained(hp, leaves);
    var below := Layers(hp, leaves)[k];
    assert Layers(hp, leaves)[k + 1] == Next(hp, below);
  }

  /** The root: none of nothing, the leaf of one, otherwise the one node above all. */
  lemma RootIsTop(hp: PairHash, leaves: seq<string>)
    ensures leaves == [] ==> Root(hp, leaves) == None
    ensures |leaves| == 1 ==> Root(hp, leaves) == Some(leaves[0])
    ensures leaves != [] ==>
      var layers := Layers(hp, leaves);
      |layers[|layers| - 1]| == 1 && Root(hp, leaves) == Some(layers[|layers| - 1][0])
  {
    LayersChained(hp, leaves);
  }

  /** One text comes before another: smaller at the first difference, or a proper beginning. */
  ghost predicate TextBefore(a: string, b: string) {
    exists k: nat :: k <= |a| && k < |b| && a[..k] == b[..k] && (k < |a| ==> a[k] < b[k])
  }

  lemma BeforeExactly(a: string, b: string)
    ensures TextBefore(a, b) <==> Less(Codes(a), Codes(b))
  {
    var x, y := Codes(a), Codes(b);
    LessExactly(x, y);
    if TextBefore(a, b) {
      var k: nat :| k <= |a| && k < |b| && a[..k] == b[..k] && (k < |a| ==> a[k] < b[k]);
      assert forall i :: 0 <= i < k ==> a[..k][i] == b[..k][i];
      assert DiffersAt(x, y, k);
    }
    if k: nat :| DiffersAt(x, y, k) {
      assert forall i :: 0 <= i < k ==> x[..k][i] == y[..k][i];
      assert a[..k] == b[..k];
    }
  }

  /** The leaves of a tree ascend, each with its own operation id beside it. */
  lemma LeavesAscend(hp: PairHash, hashes: seq<string>, ops: seq<string>)
    requires |hashes| == |ops|
    ensures var t := TreeOf(hp, hashes, ops);
            && |t.leaves| == |t.leafOps| && multiset(Zip(t.leaves, t.leafOps)) == multiset(Zip(hashes, ops))
            && forall i, j :: 0 <= i < j < |t.leaves| ==> !TextBefore(t.leaves[j], t.leaves[i])
  {
    LeavesAreSorted(hp, hashes, ops);
    SortSorted(hashes, TextKey());
    var leaves := Sort(hashes, TextKey());
    hide Sort, Less, TreeOf, Zip, TextBefore;
    forall i, j | 0 <= i < j < |leaves| ensures !TextBefore(leaves[j], leaves[i]) {
      BeforeExactly(leaves[j], leaves[i]);
      assert !Less(TextKey()(leaves[j]), TextKey()(leaves[i]));
    }
  }
}
