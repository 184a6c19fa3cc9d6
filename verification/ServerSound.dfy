/** What a valid verdict means, in the stores' own terms, and that tampering with any of them ends it. */
module ServerSound {
  import opened Text
  import opened Chain
  import opened Server
  import opened ServerInvariants
  import opened ServerVerify
  import M = Merkle

  // ---- A valid verdict ----

  /** The object at the row's key is a record whose signature verifies under the key it names. */
  ghost predicate SignedRecord(h: Host, s: State, r: Row) {
    && r.payloadKey in s.objects && s.objects[r.payloadKey].Evidence?
    && var e := s.objects[r.payloadKey].eor;
    && e.body.kid in s.keys && s.keys[e.body.kid].agentId == e.body.agentId
    && h.verify(s.keys[e.body.kid].publicKey, e.signature, e.body)
  }

  /** The row's chain hash is that of its own columns, and its predecessor is the row before it. */
  ghost predicate LinkedRow(h: Host, s: State, r: Row) {
    && r.chainHash == h.sha(r.prevChainHash + "|" + r.payloadHash + "|" + r.operationId + "|" + Decimal(r.issuedAt))
    && (r.seqNo > 1 && FindBySeq(s.ops, r.agentId, r.seqNo - 1).Some? ==>
          FindBySeq(s.ops, r.agentId, r.seqNo - 1).value.chainHash == r.prevChainHash)
  }

  /** The receipt stored for it hashes to the hash stored with it. */
  ghost predicate HashedReceipt(h: Host, s: State, r: Row) {
    && FindReceipt(s.receipts, r.operationId).Some?
    && var key := FindReceipt(s.receipts, r.operationId).value.receiptKey;
    && key in s.objects
    && match s.objects[key]
       case ReceiptDoc(ear) => ear.receiptHash == h.receiptHash(ear.fields)
       case Evidence(e) => e.extra.receiptHash.Some? && e.extra.receiptHash.value == h.viewHash(e.body, e.extra.receipt)
       case EpochDoc(_, _, _, _) => false
  }

  /** A verdict is valid exactly when signature, chain hash and receipt hash recompute from what is stored. */
  lemma ValidExactly(h: Host, s: State, r: Row)
    ensures Valid(h, s, r) <==> r.payloadKey != "" && SignedRecord(h, s, r) && LinkedRow(h, s, r) && HashedReceipt(h, s, r)
    ensures Readable(s, r) ==> && (SignatureHolds(h, s, r) <==> SignedRecord(h, s, r))
                               && (ChainHolds(h, s, r) <==> LinkedRow(h, s, r))
                               && (ReceiptHolds(h, s, r) <==> HashedReceipt(h, s, r))
  {
    hide FindBySeq, FindReceipt;
  }

  // ---- Tampering ----

  /** Whatever record is put in the row's place, the verdict is invalid unless its own signature verifies. */
  lemma ForgedRecordFails(h: Host, s: State, r: Row, e: Eor)
    requires e.body.kid in s.keys ==>
               s.keys[e.body.kid].agentId != e.body.agentId || !h.verify(s.keys[e.body.kid].publicKey, e.signature, e.body)
    ensures !Valid(h, s.(objects := s.objects[r.payloadKey := Evidence(e)]), r)
  {
    var s' := s.(objects := s.objects[r.payloadKey := Evidence(e)]);
    ValidExactly(h, s', r);
    hide Valid, LinkedRow, HashedReceipt;
  }

  /** Anything that is not a record, or nothing at all, makes it invalid too. */
  lemma MissingRecordFails(h: Host, s: State, r: Row)
    requires r.payloadKey in s.objects ==> !s.objects[r.payloadKey].Evidence?
    ensures !Valid(h, s, r)
  {
    ValidExactly(h, s, r);
    hide Valid, LinkedRow, HashedReceipt;
  }

  /**
    A row changed in any column that its chain hash covers, the hash left alone, is invalid
    in every state of the stores, as long as the hash does not collide on the two texts.
  */
  lemma AlteredRowFails(h: Host, s: State, s': State, r: Row, r': Row)
    requires Valid(h, s, r) && r'.chainHash == r.chainHash
    requires (r'.prevChainHash, r'.payloadHash, r'.operationId, r'.issuedAt) != (r.prevChainHash, r.payloadHash, r.operationId, r.issuedAt)
    requires BarFree(LinkOf(r)) && BarFree(LinkOf(r'))
    requires CollisionFree(h.sha, {InputOf(LinkOf(r)), InputOf(LinkOf(r'))})
    ensures !Valid(h, s', r')
  {
    ValidExactly(h, s, r);
    ValidExactly(h, s', r');
    hide Valid, SignedRecord, HashedReceipt, FindBySeq;
    if LinkedRow(h, s', r') { InputInjective(LinkOf(r), LinkOf(r')); }
  }

  /** A row whose predecessor in the table has another hash than it names is invalid. */
  lemma BrokenLinkFails(h: Host, s: State, r: Row, p: Row)
    requires r.seqNo > 1 && FindBySeq(s.ops, r.agentId, r.seqNo - 1) == Some(p) && p.chainHash != r.prevChainHash
    ensures !Valid(h, s, r)
  {
    ValidExactly(h, s, r);
    hide Valid, SignedRecord, HashedReceipt, FindBySeq;
  }

  /** A receipt that does not hash to the hash beside it makes the verdict invalid, and so does none at all. */
  lemma ForgedReceiptFails(h: Host, s: State, r: Row, ear: Ear)
    requires FindReceipt(s.receipts, r.operationId).Some? && ear.receiptHash != h.receiptHash(ear.fields)
    ensures var key := FindReceipt(s.receipts, r.operationId).value.receiptKey;
            !Valid(h, s.(objects := s.objects[key := ReceiptDoc(ear)]), r)
  {
    var key := FindReceipt(s.receipts, r.operationId).value.receiptKey;
    ValidExactly(h, s.(objects := s.objects[key := ReceiptDoc(ear)]), r);
    hide Valid, SignedRecord, LinkedRow, FindReceipt;
  }

  /** A valid row's receipt changed in any member, its hash left alone, where the receipt hash does not collide. */
  lemma AlteredReceiptFails(h: Host, s: State, r: Row, ear: Ear, f: ReceiptFields)
    requires Valid(h, s, r) && f != ear.fields && (h.receiptHash(f) == h.receiptHash(ear.fields) ==> f == ear.fields)
    requires var key := FindReceipt(s.receipts, r.operationId).value.receiptKey; s.objects[key] == ReceiptDoc(ear)
    ensures var key := FindReceipt(s.receipts, r.operationId).value.receiptKey;
            !Valid(h, s.(objects := s.objects[key := ReceiptDoc(ear.(fields := f))]), r)
  {
    ValidExactly(h, s, r);
    ForgedReceiptFails(h, s, r, ear.(fields := f));
  }

  lemma LostReceiptFails(h: Host, s: State, r: Row)
    requires FindReceipt(s.receipts, r.operationId).None? || FindReceipt(s.receipts, r.operationId).value.receiptKey !in s.objects
    ensures !Valid(h, s, r)
  {
    ValidExactly(h, s, r);
    hide Valid, SignedRecord, LinkedRow, FindReceipt;
  }

  // ---- Complaints ----

  /** When a verdict carries a complaint. */
  ghost predicate Complains(h: Host, s: State, r: Row, orgId: string, c: Complaint) {
    var readable := r.payloadKey != "" && r.payloadKey in s.objects;
    var held := && readable && s.objects[r.payloadKey].Evidence?
                && var b := s.objects[r.payloadKey].eor.body; b.kid in s.keys && s.keys[b.kid].agentId == b.agentId;
    var before, receipt := FindBySeq(s.ops, r.agentId, r.seqNo - 1), FindReceipt(s.receipts, r.operationId);
    var stored := receipt.Some? && receipt.value.receiptKey in s.objects;
    match c
    case NoPayloadKey => r.payloadKey == ""
    case EvidenceMissing => r.payloadKey != "" && r.payloadKey !in s.objects
    case SigningKeyMissing => readable && !held
    case SignatureFailed => held && !SignedRecord(h, s, r)
    case ChainHashMismatch =>
      readable && r.chainHash != h.sha(r.prevChainHash + "|" + r.payloadHash + "|" + r.operationId + "|" + Decimal(r.issuedAt))
    case PrevLinkMismatch => readable && r.seqNo > 1 && before.Some? && before.value.chainHash != r.prevChainHash
    case ReceiptMissing => readable && receipt.None?
    case ReceiptEvidenceMissing => readable && receipt.Some? && !stored
    case ReceiptHashMismatch => readable && stored && !HashedReceipt(h, s, r)
    case NotAmongLeaves => readable && MerkleVerdict(h, s, r, orgId) == Some(false) && !AmongLeaves(s, r, orgId)
    case InclusionFailed => readable && MerkleVerdict(h, s, r, orgId) == Some(false) && AmongLeaves(s, r, orgId)
  }

  lemma OfSignature(h: Host, s: State, r: Row, orgId: string, c: Complaint)
    requires Readable(s, r)
    ensures c in SignatureComplaints(h, s, r) <==> c in {SigningKeyMissing, SignatureFailed} && Complains(h, s, r, orgId, c)
    ensures SignatureComplaints(h, s, r) == [] <==> SignatureHolds(h, s, r)
  {
    hide MerkleVerdict, AmongLeaves, FindBySeq, FindReceipt, HashedReceipt;
  }

  lemma OfChain(h: Host, s: State, r: Row, orgId: string, c: Complaint)
    requires Readable(s, r)
    ensures c in ChainComplaints(h, s, r) <==> c in {ChainHashMismatch, PrevLinkMismatch} && Complains(h, s, r, orgId, c)
    ensures ChainComplaints(h, s, r) == [] <==> ChainHolds(h, s, r)
  {
    hide MerkleVerdict, AmongLeaves, FindBySeq, FindReceipt, InputOf, LinkOf, SignedRecord, HashedReceipt;
    InputText(r);
  }

  lemma OfReceipt(h: Host, s: State, r: Row, orgId: string, c: Complaint)
    requires Readable(s, r)
    ensures c in ReceiptComplaints(h, s, r) <==>
              c in {ReceiptMissing, ReceiptEvidenceMissing, ReceiptHashMismatch} && Complains(h, s, r, orgId, c)
    ensures ReceiptComplaints(h, s, r) == [] <==> ReceiptHolds(h, s, r)
  {
    hide MerkleVerdict, AmongLeaves, FindBySeq, FindReceipt, InputOf, LinkOf, SignedRecord;
  }

  lemma OfInclusion(h: Host, s: State, r: Row, orgId: string, c: Complaint)
    requires Readable(s, r)
    ensures c in InclusionComplaints(h, s, r, orgId) <==>
              c in {NotAmongLeaves, InclusionFailed} && Complains(h, s, r, orgId, c)
    ensures InclusionComplaints(h, s, r, orgId) == [] <==> MerkleVerdict(h, s, r, orgId) != Some(false)
  {
    hide MerkleVerdict, AmongLeaves, FindBySeq, FindReceipt, InputOf, LinkOf, SignedRecord, HashedReceipt;
  }

  lemma Unreadable(h: Host, s: State, r: Row, orgId: string, c: Complaint)
    requires !Readable(s, r)
    ensures Complains(h, s, r, orgId, c) <==> c == if r.payloadKey == "" then NoPayloadKey else EvidenceMissing
  {
    hide MerkleVerdict, AmongLeaves, FindBySeq, FindReceipt, InputOf, LinkOf, SignedRecord, HashedReceipt;
  }

  lemma ReadableHasNeither(h: Host, s: State, r: Row, orgId: string)
    requires Readable(s, r)
    ensures !Complains(h, s, r, orgId, NoPayloadKey) && !Complains(h, s, r, orgId, EvidenceMissing)
  {
    hide MerkleVerdict, AmongLeaves, FindBySeq, FindReceipt, InputOf, LinkOf, SignedRecord, HashedReceipt;
  }

  /** Every complaint of a verdict has its own cause, and every cause its complaint. */
  lemma ComplaintsExactly(h: Host, s: State, r: Row, orgId: string, c: Complaint)
    ensures c in Complaints(h, s, r, orgId) <==> Complains(h, s, r, orgId, c)
    ensures Complaints(h, s, r, orgId) == [] <==> Valid(h, s, r) && MerkleVerdict(h, s, r, orgId) != Some(false)
  {
    hide MerkleVerdict, Complains, SignatureComplaints, ChainComplaints, ReceiptComplaints, InclusionComplaints;
    hide SignatureHolds, ChainHolds, ReceiptHolds;
    if Readable(s, r) {
      OfSignature(h, s, r, orgId, c);
      OfChain(h, s, r, orgId, c);
      OfReceipt(h, s, r, orgId, c);
      OfInclusion(h, s, r, orgId, c);
      ReadableHasNeither(h, s, r, orgId);
    } else {
      Unreadable(h, s, r, orgId, c);
    }
  }

  lemma InputText(r: Row)
    ensures InputOf(LinkOf(r)) == r.prevChainHash + "|" + r.payloadHash + "|" + r.operationId + "|" + Decimal(r.issuedAt)
  {
  }

  // ---- Inclusion ----

  /** The path that an inclusion check follows. */
  function PathOf(s: State, r: Row, orgId: string): M.Proof
    requires MayInclude(s, r, orgId)
  {
    var e := FindEpoch(s.epochs, orgId, r.createdAt).value;
    var (leafOps, layers) := StoredLayers(s.objects[e.epochKey]).value;
    M.ProofAt(M.Tree(e.rootHash, layers[0], leafOps, layers), M.IndexOf(layers[0], r.chainHash).value, 0)
  }

  /** An epoch covers the row, and its stored tree, of the right shape, has the row's hash among its leaves. */
  predicate MayInclude(s: State, r: Row, orgId: string) {
    && AmongLeaves(s, r, orgId)
    && var (leafOps, layers) := StoredLayers(s.objects[FindEpoch(s.epochs, orgId, r.createdAt).value.epochKey]).value;
    M.Halving(layers)
  }

  /** The check is true exactly when the stored siblings lead from the row's own hash to the root in the epochs' table. */
  lemma InclusionExactly(h: Host, s: State, r: Row, orgId: string)
    ensures MerkleVerdict(h, s, r, orgId) == Some(true) <==>
              && MayInclude(s, r, orgId)
              && var p := PathOf(s, r, orgId);
              && p.leaf == r.chainHash && p.root == FindEpoch(s.epochs, orgId, r.createdAt).value.rootHash
              && p.root == Some(M.Fold(h.pair, r.chainHash, p.siblings, p.directions))
    ensures MerkleVerdict(h, s, r, orgId) == Some(false) ==> FindEpoch(s.epochs, orgId, r.createdAt).Some?
  {
    hide FindEpoch, M.Fold, M.SiblingsFrom, M.DirectionsFrom, M.Halving;
  }

  /**
    Soundness of inclusion: whatever has been put at the epoch's key, if the root in the table
    is that of some leaves and the stored tree is as deep as theirs, a true check means that the
    row is one of those leaves, as long as the pair hash does not collide.
  */
  lemma InclusionSound(h: Host, s: State, r: Row, orgId: string, leaves: seq<string>)
    requires MerkleVerdict(h, s, r, orgId) == Some(true) && leaves != []
    requires var e := FindEpoch(s.epochs, orgId, r.createdAt);
             && e.Some? && e.value.rootHash == M.Root(h.pair, leaves)
             && StoredLayers(s.objects[e.value.epochKey]).Some?
             && |StoredLayers(s.objects[e.value.epochKey]).value.1| == |M.Layers(h.pair, leaves)|
    requires MayInclude(s, r, orgId)
    requires var p := PathOf(s, r, orgId);
             M.CollisionFree(h.pair, M.TreePairs(M.Layers(h.pair, leaves)) + M.FoldPairs(h.pair, p.leaf, p.siblings, p.directions))
    ensures r.chainHash in leaves
  {
    InclusionExactly(h, s, r, orgId);
    var p := PathOf(s, r, orgId);
    PathLength(s, r, orgId);
    hide FindEpoch, M.Fold, M.Layers, M.TreePairs, M.FoldPairs, PathOf, MerkleVerdict, MayInclude, M.Root;
    M.ProofSound(h.pair, leaves, 0, p);
  }

  lemma PathLength(s: State, r: Row, orgId: string)
    requires MayInclude(s, r, orgId)
    ensures |PathOf(s, r, orgId).siblings| + 1 == |StoredLayers(s.objects[FindEpoch(s.epochs, orgId, r.createdAt).value.epochKey]).value.1|
  {
    var (leafOps, layers) := StoredLayers(s.objects[FindEpoch(s.epochs, orgId, r.createdAt).value.epochKey]).value;
    SiblingCount(layers, M.IndexOf(layers[0], r.chainHash).value, 0);
  }

  lemma {:induction false} SiblingCount(layers: seq<seq<string>>, index: nat, k: nat)
    requires M.Halving(layers) && k < |layers| && index < |layers[k]|
    ensures |M.SiblingsFrom(layers, index, k)| == |layers| - 1 - k
    decreases |layers| - k
  {
    if k < |layers| - 1 { SiblingCount(layers, index / 2, k + 1); }
  }
}
