/**
  The hash chain of one agent. SHA-256 in base64url is a parameter `sha`; what a result
  needs of it is stated on the finite set of texts the chains at hand really hash, since no
  function into 43 characters is injective on all texts.
*/
module Chain {
  import opened Text

  const GENESIS := "AAAAAAAAAAAAAAAAAAAAAAAAAAAAAAAAAAAAAAAAAAA"

  datatype Link = Link(
    prev: string, payloadHash: string, operationId: string, issuedAt: int, chainHash: string)

  function ChainInput(prev: string, payloadHash: string, operationId: string, issuedAt: int): string {
    prev + "|" + payloadHash + "|" + operationId + "|" + Decimal(issuedAt)
  }

  function InputOf(l: Link): string {
    ChainInput(l.prev, l.payloadHash, l.operationId, l.issuedAt)
  }

  /** The chain hash a prefix ends in; genesis for the empty chain. */
  function Head(chain: seq<Link>): string {
    if chain == [] then GENESIS else chain[|chain| - 1].chainHash
  }

  ghost predicate WellLinked(sha: string -> string, chain: seq<Link>) {
    forall i :: 0 <= i < |chain| ==>
      chain[i].prev == Head(chain[..i]) && chain[i].chainHash == sha(InputOf(chain[i]))
  }

  ghost predicate CollisionFree(sha: string -> string, inputs: set<string>) {
    forall x, y :: x in inputs && y in inputs && sha(x) == sha(y) ==> x == y
  }

  ghost function Inputs(chain: seq<Link>): set<string> {
    set i | 0 <= i < |chain| :: InputOf(chain[i])
  }

  ghost predicate GenesisFresh(chain: seq<Link>) {
    forall i :: 0 <= i < |chain| ==> chain[i].chainHash != GENESIS
  }

  predicate BarFree(l: Link) {
    Free('|', l.prev) && Free('|', l.payloadHash) && Free('|', l.operationId)
  }

  ghost predicate AllBarFree(chain: seq<Link>) {
    forall i :: 0 <= i < |chain| ==> BarFree(chain[i])
  }

  /** What the joined text pins down whatever the payload hash and the operation id contain. */
  lemma InputPinsDown(prev: string, p: string, o: string, t: int,
                      prev': string, p': string, o': string, t': int)
    requires Free('|', prev) && Free('|', prev')
    ensures ChainInput(prev, p, o, t) == ChainInput(prev', p', o', t')
       <==> prev == prev' && t == t' && p + "|" + o == p' + "|" + o'
  {
    var rest, rest' := p + "|" + o + "|" + Decimal(t), p' + "|" + o' + "|" + Decimal(t');
    assert ChainInput(prev, p, o, t) == prev + ['|'] + rest;
    assert ChainInput(prev', p', o', t') == prev' + ['|'] + rest';
    if ChainInput(prev, p, o, t) == ChainInput(prev', p', o', t') {
      SplitFirst('|', prev, rest, prev', rest');
      assert rest == (p + "|" + o) + ['|'] + Decimal(t);
      assert rest' == (p' + "|" + o') + ['|'] + Decimal(t');
      SplitLast('|', p + "|" + o, Decimal(t), p' + "|" + o', Decimal(t'));
      DecimalInjective(t, t');
    }
  }

  /** The bar is a real hypothesis: nothing in the server keeps it out of a payload hash. */
  lemma BarAmbiguity(prev: string, t: int)
    ensures ChainInput(prev, "a|b", "c", t) == ChainInput(prev, "a", "b|c", t)
  {
    assert "a|b" + "|" + "c" == "a" + "|" + "b|c";
    assert ChainInput(prev, "a|b", "c", t) == prev + "|" + ("a|b" + "|" + "c") + "|" + Decimal(t);
    assert ChainInput(prev, "a", "b|c", t) == prev + "|" + ("a" + "|" + "b|c") + "|" + Decimal(t);
  }

  lemma InputInjective(l: Link, m: Link)
    requires BarFree(l) && BarFree(m)
    requires InputOf(l) == InputOf(m)
    ensures l.prev == m.prev && l.payloadHash == m.payloadHash
    ensures l.operationId == m.operationId && l.issuedAt == m.issuedAt
  {
    InputPinsDown(l.prev, l.payloadHash, l.operationId, l.issuedAt,
                  m.prev, m.payloadHash, m.operationId, m.issuedAt);
    assert l.payloadHash + ['|'] + l.operationId == m.payloadHash + ['|'] + m.operationId;
    SplitFirst('|', l.payloadHash, l.operationId, m.payloadHash, m.operationId);
  }

  ghost predicate Trusted(sha: string -> string, a: seq<Link>, b: seq<Link>) {
    && WellLinked(sha, a) && WellLinked(sha, b)
    && AllBarFree(a) && AllBarFree(b)
    && GenesisFresh(a) && GenesisFresh(b)
    && CollisionFree(sha, Inputs(a) + Inputs(b))
  }

  lemma WellLinkedPrefix(sha: string -> string, a: seq<Link>, m: nat)
    requires WellLinked(sha, a) && m <= |a|
    ensures WellLinked(sha, a[..m])
  {
    forall i | 0 <= i < m
      ensures a[..m][i].prev == Head(a[..m][..i]) && a[..m][i].chainHash == sha(InputOf(a[..m][i]))
    {
      assert a[..m][..i] == a[..i];
    }
  }

  lemma InputsPrefix(a: seq<Link>, m: nat)
    requires m <= |a|
    ensures Inputs(a[..m]) <= Inputs(a)
  {
    forall x | x in Inputs(a[..m]) ensures x in Inputs(a) {
      var i :| 0 <= i < m && x == InputOf(a[..m][i]);
      assert a[..m][i] == a[i];
    }
  }

  lemma TrustedPrefix(sha: string -> string, a: seq<Link>, b: seq<Link>, m: nat, n: nat)
    requires Trusted(sha, a, b) && m <= |a| && n <= |b|
    ensures Trusted(sha, a[..m], b[..n])
  {
    WellLinkedPrefix(sha, a, m);
    WellLinkedPrefix(sha, b, n);
    InputsPrefix(a, m);
    InputsPrefix(b, n);
  }

  lemma OnlyEmptyEndsInGenesis(sha: string -> string, a: seq<Link>, b: seq<Link>)
    requires Trusted(sha, a, b) && Head(a) == Head(b)
    ensures a == [] <==> b == []
  {
  }

  lemma LastLinksAgree(sha: string -> string, a: seq<Link>, b: seq<Link>)
    requires Trusted(sha, a, b) && a != [] && b != []
    requires Head(a) == Head(b)
    ensures a[|a| - 1] == b[|b| - 1]
    ensures Head(a[..|a| - 1]) == Head(b[..|b| - 1])
  {
    var l, l' := a[|a| - 1], b[|b| - 1];
    assert InputOf(l) in Inputs(a) && InputOf(l') in Inputs(b);
    InputInjective(l, l');
  }

  /**
    Tamper evidence: two chains that end in the same hash are the same chain, operation by
    operation. Nothing can be inserted, deleted, reordered or rewritten below a known head.
  */
  lemma {:induction false} TamperEvidence(sha: string -> string, a: seq<Link>, b: seq<Link>)
    requires Trusted(sha, a, b)
    requires Head(a) == Head(b)
    ensures a == b
    decreases |a|
  {
    hide Trusted, Head;
    OnlyEmptyEndsInGenesis(sha, a, b);
    if a != [] {
      LastLinksAgree(sha, a, b);
      TrustedPrefix(sha, a, b, |a| - 1, |b| - 1);
      TamperEvidence(sha, a[..|a| - 1], b[..|b| - 1]);
      assert a == a[..|a| - 1] + [a[|a| - 1]] && b == b[..|b| - 1] + [b[|b| - 1]];
    }
  }

  /** Hence no hash occurs twice in a chain, and every prefix has its own head. */
  lemma HeadsDistinct(sha: string -> string, chain: seq<Link>, i: nat, j: nat)
    requires Trusted(sha, chain, chain)
    requires i <= |chain| && j <= |chain|
    requires Head(chain[..i]) == Head(chain[..j])
    ensures i == j
  {
    TrustedPrefix(sha, chain, chain, i, j);
    TamperEvidence(sha, chain[..i], chain[..j]);
    assert |chain[..i]| == i && |chain[..j]| == j;
  }

  /** Rewriting any one operation of a chain moves its head. */
  lemma RewriteMovesHead(sha: string -> string, a: seq<Link>, b: seq<Link>, i: nat)
    requires Trusted(sha, a, b)
    requires i < |a| && i < |b| && a[i] != b[i]
    ensures Head(a) != Head(b)
  {
    if Head(a) == Head(b) { TamperEvidence(sha, a, b); }
  }
}
