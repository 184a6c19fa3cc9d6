/** Re-verification of a committed operation, and what it finds in every reachable state. */
module ServerVerify {
  import opened Text
  import opened Chain
  import opened Server
  import opened ServerInvariants
  import opened ServerEvidence
  import M = Merkle

  datatype Complaint =
    | NoPayloadKey | EvidenceMissing
    | SignatureFailed | SigningKeyMissing
    | ChainHashMismatch | PrevLinkMismatch
    | ReceiptHashMismatch | ReceiptEvidenceMissing | ReceiptMissing
    | InclusionFailed | NotAmongLeaves

  datatype Checks = Checks(signature: bool, chain: bool, receipt: bool, merkle: Option<bool>)

  datatype Verdict =
    | NotFound
    | Verified(valid: bool, checks: Checks, complaints: seq<Complaint>)

  // ---- What each check establishes ----

  predicate SignatureHolds(h: Host, s: State, r: Row) {
    && HasEvidence(s.objects, r.payloadKey)
    && var e := s.objects[r.payloadKey].eor;
    && FindKey(s.keys, e.body.kid, e.body.agentId).Some?
    && h.verify(FindKey(s.keys, e.body.kid, e.body.agentId).value.publicKey, e.signature, e.body)
  }

  predicate LinkHolds(s: State, r: Row) {
    r.seqNo > 1 ==>
      var p := FindBySeq(s.ops, r.agentId, r.seqNo - 1);
      p.Some? ==> p.value.chainHash == r.prevChainHash
  }

  predicate ChainHolds(h: Host, s: State, r: Row) {
    h.sha(InputOf(LinkOf(r))) == r.chainHash && LinkHolds(s, r)
  }

  predicate ReceiptHolds(h: Host, s: State, r: Row) {
    && var rr := FindReceipt(s.receipts, r.operationId);
    && rr.Some? && rr.value.receiptKey in s.objects && ReadsAsReceipt(h, s.objects[rr.value.receiptKey])
  }

  /** Whether the receipt members of an object hash to its `receipt_hash` member. */
  predicate ReadsAsReceipt(h: Host, obj: StoredObject) {
    match obj
    case ReceiptDoc(ear) => h.receiptHash(ear.fields) == ear.receiptHash
    case Evidence(e) => e.extra.receiptHash == Some(h.viewHash(e.body, e.extra.receipt))
    case EpochDoc(_, _, _, _) => false
  }

  /** The `merkle` member of an object, if it has one. */
  function StoredLayers(obj: StoredObject): Option<(seq<string>, seq<seq<string>>)> {
    match obj
    case EpochDoc(_, _, leafOps, layers) => Some((leafOps, layers))
    case Evidence(e) => if e.extra.layers.Some? then Some((e.extra.leafOps, e.extra.layers.value)) else None
    case ReceiptDoc(_) => None
  }

  /** None while no epoch covers the operation, or when the epoch object cannot be read. */
  function MerkleVerdict(h: Host, s: State, r: Row, orgId: string): Option<bool> {
    var e := FindEpoch(s.epochs, orgId, r.createdAt);
    if e.None? || e.value.epochKey !in s.objects || StoredLayers(s.objects[e.value.epochKey]).None? then None
    else
      var (leafOps, layers) := StoredLayers(s.objects[e.value.epochKey]).value;
      if layers == [] || r.chainHash !in layers[0] then Some(false)
      else
        var tree := M.Tree(e.value.rootHash, layers[0], leafOps, layers);
        if !M.Shaped(tree) then None
        else Some(M.Verifies(h.pair, M.ProofAt(tree, M.IndexOf(tree.leaves, r.chainHash).value, 0)))
  }

  predicate Readable(s: State, r: Row) { r.payloadKey != "" && r.payloadKey in s.objects }

  /** Everything that a verdict calls valid. */
  predicate Valid(h: Host, s: State, r: Row) {
    Readable(s, r) && SignatureHolds(h, s, r) && ChainHolds(h, s, r) && ReceiptHolds(h, s, r)
  }

  /** The epoch's stored leaves hold the row's chain hash. */
  predicate AmongLeaves(s: State, r: Row, orgId: string) {
    var e := FindEpoch(s.epochs, orgId, r.createdAt);
    && e.Some? && e.value.epochKey in s.objects && StoredLayers(s.objects[e.value.epochKey]).Some?
    && var layers := StoredLayers(s.objects[e.value.epochKey]).value.1;
    layers != [] && r.chainHash in layers[0]
  }

  // ---- What each check complains of ----

  function SignatureComplaints(h: Host, s: State, r: Row): seq<Complaint>
    requires r.payloadKey in s.objects
  {
    match s.objects[r.payloadKey]
    case Evidence(e) =>
      if FindKey(s.keys, e.body.kid, e.body.agentId).None? then [SigningKeyMissing]
      else if SignatureHolds(h, s, r) then [] else [SignatureFailed]
    case _ => [SigningKeyMissing]
  }

  function ChainComplaints(h: Host, s: State, r: Row): seq<Complaint> {
    (if h.sha(InputOf(LinkOf(r))) == r.chainHash then [] else [ChainHashMismatch])
    + (if LinkHolds(s, r) then [] else [PrevLinkMismatch])
  }

  function ReceiptComplaints(h: Host, s: State, r: Row): seq<Complaint> {
    var receipt := FindReceipt(s.receipts, r.operationId);
    if receipt.None? then [ReceiptMissing]
    else if receipt.value.receiptKey !in s.objects then [ReceiptEvidenceMissing]
    else if ReceiptHolds(h, s, r) then [] else [ReceiptHashMismatch]
  }

  function InclusionComplaints(h: Host, s: State, r: Row, orgId: string): seq<Complaint> {
    if MerkleVerdict(h, s, r, orgId) != Some(false) then []
    else if AmongLeaves(s, r, orgId) then [InclusionFailed] else [NotAmongLeaves]
  }

  function Complaints(h: Host, s: State, r: Row, orgId: string): seq<Complaint> {
    if r.payloadKey == "" then [NoPayloadKey]
    else if r.payloadKey !in s.objects then [EvidenceMissing]
    else SignatureComplaints(h, s, r) + ChainComplaints(h, s, r) + ReceiptComplaints(h, s, r) + InclusionComplaints(h, s, r, orgId)
  }

  // ---- The checks ----

  method CheckSignature(h: Host, s: State, r: Row) returns (signatureCheck: bool, complaints: seq<Complaint>)
    requires r.payloadKey in s.objects
    ensures signatureCheck == SignatureHolds(h, s, r) && complaints == SignatureComplaints(h, s, r)
  {
    signatureCheck, complaints := false, [];
    match s.objects[r.payloadKey] {
      case Evidence(eor) =>
        var agentKey := FindKey(s.keys, eor.body.kid, eor.body.agentId);
        if agentKey.Some? {
          signatureCheck := h.verify(agentKey.value.publicKey, eor.signature, eor.body);
          if !signatureCheck {
            complaints := complaints + [SignatureFailed];
          }
        } else {
          complaints := complaints + [SigningKeyMissing];
        }
      case _ =>
        complaints := complaints + [SigningKeyMissing];
    }
  }

  method CheckChain(h: Host, s: State, r: Row) returns (chainCheck: bool, complaints: seq<Complaint>)
    ensures chainCheck == ChainHolds(h, s, r) && complaints == ChainComplaints(h, s, r)
  {
    complaints := [];
    chainCheck := h.sha(InputOf(LinkOf(r))) == r.chainHash;
    if !chainCheck {
      complaints := complaints + [ChainHashMismatch];
    }
    if r.seqNo > 1 {
      var prevOp := FindBySeq(s.ops, r.agentId, r.seqNo - 1);
      if prevOp.Some? && prevOp.value.chainHash != r.prevChainHash {
        chainCheck := false;
        complaints := complaints + [PrevLinkMismatch];
      }
    }
  }

  method CheckReceipt(h: Host, s: State, r: Row) returns (receiptCheck: bool, complaints: seq<Complaint>)
    ensures receiptCheck == ReceiptHolds(h, s, r) && complaints == ReceiptComplaints(h, s, r)
  {
    receiptCheck, complaints := false, [];
    var receiptRow := FindReceipt(s.receipts, r.operationId);
    if receiptRow.Some? {
      if receiptRow.value.receiptKey in s.objects {
        receiptCheck := ReadsAsReceipt(h, s.objects[receiptRow.value.receiptKey]);
        if !receiptCheck {
          complaints := complaints + [ReceiptHashMismatch];
        }
      } else {
        complaints := complaints + [ReceiptEvidenceMissing];
      }
    } else {
      complaints := complaints + [ReceiptMissing];
    }
  }

  method CheckInclusion(h: Host, s: State, r: Row, orgId: string)
    returns (merkleCheck: Option<bool>, complaints: seq<Complaint>)
    ensures merkleCheck == MerkleVerdict(h, s, r, orgId)
    ensures complaints == InclusionComplaints(h, s, r, orgId)
  {
    merkleCheck, complaints := None, [];
    var epochRecord := FindEpoch(s.epochs, orgId, r.createdAt);
    if epochRecord.Some? && epochRecord.value.epochKey in s.objects {
      var epochData := StoredLayers(s.objects[epochRecord.value.epochKey]);
      if epochData.Some? {
        var (leafOps, layers) := epochData.value;
        if layers != [] && r.chainHash in layers[0] {
          var tree := M.Tree(epochRecord.value.rootHash, layers[0], leafOps, layers);
          if M.Shaped(tree) {
            var proof := M.GetMerkleProof(tree, r.chainHash);
            var ok := M.VerifyMerkleProof(h.pair, proof.value);
            merkleCheck := Some(ok);
            if !ok {
              complaints := [InclusionFailed];
            }
          }
        } else {
          merkleCheck, complaints := Some(false), [NotAmongLeaves];
        }
      }
    }
  }

  method VerifyOperation(h: Host, s: State, operationId: string, orgId: string) returns (v: Verdict)
    ensures v.NotFound? <==> FindOp(s.ops, operationId, orgId).None?
    ensures v.Verified? ==>
      var r := FindOp(s.ops, operationId, orgId).value;
      && v.checks == (if !Readable(s, r) then Checks(false, false, false, None)
                      else Checks(SignatureHolds(h, s, r), ChainHolds(h, s, r), ReceiptHolds(h, s, r),
                                  MerkleVerdict(h, s, r, orgId)))
      && v.valid == Valid(h, s, r) && v.complaints == Complaints(h, s, r, orgId)
  {
    hide FindOp, FindKey, MerkleVerdict, SignatureHolds, ChainHolds, ReceiptHolds;
    hide SignatureComplaints, ChainComplaints, ReceiptComplaints, InclusionComplaints;
    var operation := FindOp(s.ops, operationId, orgId);
    if operation.None? {
      return NotFound;
    }
    var r := operation.value;
    var nothing := Checks(false, false, false, None);
    if r.payloadKey == "" {
      return Verified(false, nothing, [NoPayloadKey]);
    }
    if r.payloadKey !in s.objects {
      return Verified(false, nothing, [EvidenceMissing]);
    }
    var signatureCheck, ofSignature := CheckSignature(h, s, r);
    var chainCheck, ofChain := CheckChain(h, s, r);
    var receiptCheck, ofReceipt := CheckReceipt(h, s, r);
    var merkleCheck, ofInclusion := CheckInclusion(h, s, r, orgId);
    v := Verified(signatureCheck && chainCheck && receiptCheck,
                  Checks(signatureCheck, chainCheck, receiptCheck, merkleCheck),
                  ofSignature + ofChain + ofReceipt + ofInclusion);
  }

  // ---- Lookups find what the tables hold ----

  lemma {:induction false} FindOpFinds(ops: seq<Row>, operationId: string, orgId: string)
    ensures var f := FindOp(ops, operationId, orgId);
            && (f.Some? ==> f.value in ops && f.value.operationId == operationId && f.value.orgId == orgId)
            && (f.None? ==> forall r :: r in ops ==> !(r.operationId == operationId && r.orgId == orgId))
  {
    if ops != [] {
      FindOpFinds(ops[1..], operationId, orgId);
      assert ops == [ops[0]] + ops[1..];
    }
  }

  lemma {:induction false} FindBySeqFinds(ops: seq<Row>, agentId: string, n: int)
    ensures var f := FindBySeq(ops, agentId, n);
            && (f.Some? ==> f.value in ops && f.value.agentId == agentId && f.value.seqNo == n)
            && (f.None? ==> forall r :: r in ops ==> !(r.agentId == agentId && r.seqNo == n))
  {
    if ops != [] {
      FindBySeqFinds(ops[1..], agentId, n);
      assert ops == [ops[0]] + ops[1..];
    }
  }

  lemma {:induction false} FindReceiptFinds(rs: seq<ReceiptRow>, operationId: string)
    ensures var f := FindReceipt(rs, operationId);
            && (f.Some? ==> f.value in rs && f.value.operationId == operationId)
            && (f.None? ==> forall r :: r in rs ==> r.operationId != operationId)
  {
    if rs != [] {
      FindReceiptFinds(rs[1..], operationId);
      assert rs == [rs[0]] + rs[1..];
    }
  }

  lemma {:induction false} FindEpochFinds(es: seq<EpochRow>, orgId: string, at: int)
    ensures var f := FindEpoch(es, orgId, at);
            && (f.Some? ==> f.value in es && f.value.orgId == orgId && f.value.startTime <= at < f.value.endTime)
            && (f.None? ==> forall e :: e in es ==> !(e.orgId == orgId && e.startTime <= at < e.endTime))
  {
    if es != [] {
      FindEpochFinds(es[1..], orgId, at);
      assert es == [es[0]] + es[1..];
    }
  }

  lemma RowFound(h: Host, s: State, r: Row)
    requires Core(h, s) && r in s.ops
    ensures FindOp(s.ops, r.operationId, r.orgId) == Some(r)
  {
    FindOpFinds(s.ops, r.operationId, r.orgId);
    var f := FindOp(s.ops, r.operationId, r.orgId).value;
    var i :| 0 <= i < |s.ops| && s.ops[i] == r;
    var j :| 0 <= j < |s.ops| && s.ops[j] == f;
    assert i == j;
  }

  lemma ReceiptFound(h: Host, s: State, r: Row)
    requires Core(h, s) && r in s.ops
    ensures var f := FindReceipt(s.receipts, r.operationId);
            f.Some? && f.value.receiptKey == ReceiptKey(r.orgId, r.agentId, r.operationId)
  {
    FindReceiptFinds(s.receipts, r.operationId);
    var i :| 0 <= i < |s.ops| && s.ops[i] == r;
    assert s.receipts[i] in s.receipts && s.receipts[i].operationId == r.operationId;
    var f := FindReceipt(s.receipts, r.operationId).value;
    var j :| 0 <= j < |s.receipts| && s.receipts[j] == f;
    assert s.ops[j].operationId == s.ops[i].operationId;
    assert i == j;
  }

  // ---- Verification completeness ----

  /** An agent's row with a given number is the one at that place in the chain. */
  lemma RowAt(h: Host, ops: seq<Row>, r: Row)
    requires ChainOk(h, ops) && r in ops
    ensures var chain := AgentChain(ops, r.agentId);
            && 1 <= r.seqNo <= |chain| && chain[r.seqNo - 1] == LinkOf(r)
            && r.prevChainHash == Head(chain[..r.seqNo - 1])
            && r.chainHash == h.sha(InputOf(LinkOf(r)))
  {
    var a := r.agentId;
    RowsNumbered(h, ops, a);
    ChainWellLinked(h, ops, a);
    var rows := AgentRows(ops, a);
    var i :| 0 <= i < |rows| && rows[i] == r;
    assert AgentChain(ops, a)[i] == LinkOf(r);
  }

  lemma ChainAlwaysHolds(h: Host, s: State, r: Row)
    requires Core(h, s) && r in s.ops
    ensures ChainHolds(h, s, r)
  {
    hide AgentChain, ChainOk, TablesOk, ThreadsOk;
    RowAt(h, s.ops, r);
    FindBySeqFinds(s.ops, r.agentId, r.seqNo - 1);
    var chain := AgentChain(s.ops, r.agentId);
    var p := FindBySeq(s.ops, r.agentId, r.seqNo - 1);
    if r.seqNo > 1 && p.Some? {
      RowAt(h, s.ops, p.value);
      assert chain[..r.seqNo - 1][r.seqNo - 2] == chain[r.seqNo - 2];
    }
  }

  lemma SignatureAlwaysHolds(h: Host, s: State, r: Row)
    requires Core(h, s) && Evid(h, s) && r in s.ops
    ensures Readable(s, r) && SignatureHolds(h, s, r)
  {
    var i :| 0 <= i < |s.ops| && s.ops[i] == r;
    assert RowStored(s.objects, s.ops[i]);
    assert r.payloadKey == PayloadKey(r.orgId, r.agentId, r.operationId);
    assert |r.payloadKey| >= 2;
    assert ObjectOk(h, s.keys, r.payloadKey, s.objects[r.payloadKey]);
  }

  lemma ReceiptAlwaysHolds(h: Host, s: State, r: Row)
    requires Core(h, s) && Evid(h, s) && r in s.ops
    ensures ReceiptHolds(h, s, r)
  {
    ReceiptFound(h, s, r);
    var i :| 0 <= i < |s.ops| && s.ops[i] == r;
    assert RowStored(s.objects, s.ops[i]);
    var key := ReceiptKey(r.orgId, r.agentId, r.operationId);
    assert ObjectOk(h, s.keys, key, s.objects[key]);
  }

  /**
    After any run, verification returns valid for every committed operation: after its key
    was revoked or its agent frozen, and whatever losing submissions wrote beside it. Asked of
    the written records is that no evidence key can be a receipt key; module ServerOverwrite
    has the runs in which one is.
  */
  lemma CommittedVerifies(h: Host, run: seq<Label>, r: Row)
    requires Writes(h, Initial, run, Apart) && r in Exec(h, Initial, run).ops
    ensures var s := Exec(h, Initial, run);
            && FindOp(s.ops, r.operationId, r.orgId) == Some(r) && Readable(s, r)
            && SignatureHolds(h, s, r) && ChainHolds(h, s, r) && ReceiptHolds(h, s, r)
  {
    InitialCore(h);
    RunKeepsCore(h, Initial, run);
    RunKeepsEvid(h, Initial, run);
    var s := Exec(h, Initial, run);
    RowFound(h, s, r);
    SignatureAlwaysHolds(h, s, r);
    ChainAlwaysHolds(h, s, r);
    ReceiptAlwaysHolds(h, s, r);
  }

  // ---- Epoch completeness ----

  /** The whole window an instant falls in. */
  function WindowOf(at: int): int { at / EPOCH_INTERVAL_MS * EPOCH_INTERVAL_MS }

  lemma WindowsDisjoint(start: int, at: int)
    requires start % EPOCH_INTERVAL_MS == 0
    ensures start <= at < start + EPOCH_INTERVAL_MS <==> start == WindowOf(at)
  {
  }

  /** The scheduler only ever closes the window that ended last. */
  lemma TickClosesLastWindow(now: int)
    ensures EpochStart(now) == WindowOf(now) - EPOCH_INTERVAL_MS
    ensures EpochStart(now) % EPOCH_INTERVAL_MS == 0
    ensures EpochStart(now) + EPOCH_INTERVAL_MS <= now < EpochStart(now) + 2 * EPOCH_INTERVAL_MS
  {
  }

  ghost predicate SchedulerHas(q: Scheduler, r: Row) {
    (q.Queried? || q.Stored?) && q.org == r.orgId && q.start == WindowOf(r.createdAt) ==>
      if q.Queried? then r in q.found else r.chainHash in q.tree.leaves
  }

  /** Whatever has been built, or read, for the row's window has the row in it. */
  ghost predicate Covered(s: State, r: Row) {
    && r in s.ops
    && SchedulerHas(s.scheduler, r)
    && (forall i :: 0 <= i < |s.epochs| && s.epochs[i].orgId == r.orgId && s.epochs[i].startTime == WindowOf(r.createdAt)
          ==> EpochHas(s.objects, s.epochs[i], r.chainHash))
  }

  ghost predicate EpochHas(objects: map<string, StoredObject>, e: EpochRow, hash: string) {
    && EpochSide(e.epochKey) && e.epochKey in objects && objects[e.epochKey].EpochDoc?
    && objects[e.epochKey].layers != [] && hash in objects[e.epochKey].layers[0]
  }

  lemma StepKeepsCovered(h: Host, s: State, l: Label, r: Row)
    requires Core(h, s) && EpochEvid(h, s) && WindowsOk(s.epochs, s.scheduler)
    requires WriteOk(s, l, OffEpochs) && Covered(s, r)
    ensures Covered(Step(h, s, l), r)
  {
    var s' := Step(h, s, l);
    StepOps(h, s, l);
    StepKeepsEpochSide(h, s, l);
    if !l.EpochInsert? { SubmissionSparesEpochs(h, s, l); }
    hide EpochSide, WriteOk;
    assert r in s'.ops by {
      var i :| 0 <= i < |s.ops| && s.ops[i] == r;
      assert s'.ops[i] == r;
    }
    forall i | 0 <= i < |s'.epochs| && s'.epochs[i].orgId == r.orgId && s'.epochs[i].startTime == WindowOf(r.createdAt)
      ensures EpochHas(s'.objects, s'.epochs[i], r.chainHash)
    {
      if i < |s.epochs| {
        assert s'.epochs[i] == s.epochs[i];
        assert EpochHas(s.objects, s.epochs[i], r.chainHash);
      } else {
        InsertCovered(h, s, r);
      }
    }
    SchedulerCovered(h, s, l, r);
  }

  lemma InsertCovered(h: Host, s: State, r: Row)
    requires EpochEvid(h, s) && Covered(s, r) && s.scheduler.Stored?
    ensures var e := StepEpochInsert(s).epochs[|s.epochs|];
            e.orgId == r.orgId && e.startTime == WindowOf(r.createdAt) ==> EpochHas(s.objects, e, r.chainHash)
  {
    hide M.TreeOf, M.Root, EpochsOk;
    assert s.scheduler.tree.layers[0] == s.scheduler.tree.leaves;
  }

  lemma SchedulerCovered(h: Host, s: State, l: Label, r: Row)
    requires EpochEvid(h, s) && WindowsOk(s.epochs, s.scheduler) && Covered(s, r)
    requires l.Advance? ==> Step(h, s, l).scheduler == s.scheduler
    ensures SchedulerHas(Step(h, s, l).scheduler, r)
  {
    hide Written, NextPhase, M.TreeOf, M.Layers, M.Root, EpochsOk;
    if l.EpochPut? && s.scheduler.Queried? {
      TreeOfOk(h, s.scheduler.found);
    } else if l.EpochQuery? && s.scheduler.Checked? {
      WindowsDisjoint(s.scheduler.start, r.createdAt);
    }
  }

  lemma {:induction false} RunKeepsCovered(h: Host, s: State, run: seq<Label>, r: Row)
    requires Core(h, s) && EpochEvid(h, s) && WindowsOk(s.epochs, s.scheduler)
    requires Writes(h, s, run, OffEpochs) && Covered(s, r)
    ensures Covered(Exec(h, s, run), r)
    decreases |run|
  {
    hide Core, EpochEvid, WindowsOk, Step, WriteOk, Covered;
    if run != [] {
      StepKeepsCore(h, s, run[0]);
      StepKeepsEpochs(h, s, run[0]);
      StepKeepsWindows(h, s, run[0]);
      StepKeepsCovered(h, s, run[0], r);
      RunKeepsCovered(h, Step(h, s, run[0]), run[1..], r);
    }
  }

  /** No epoch of the row's window is there, and none is past its query. */
  predicate NotYetBuilt(s: State, r: Row) {
    && !((s.scheduler.Queried? || s.scheduler.Stored?) && s.scheduler.org == r.orgId
         && s.scheduler.start == WindowOf(r.createdAt))
    && forall i :: 0 <= i < |s.epochs| ==> !(s.epochs[i].orgId == r.orgId && s.epochs[i].startTime == WindowOf(r.createdAt))
  }

  lemma InclusionHolds(h: Host, s: State, r: Row)
    requires EpochEvid(h, s) && WindowsOk(s.epochs, s.scheduler) && Covered(s, r)
    ensures MerkleVerdict(h, s, r, r.orgId) == if FindEpoch(s.epochs, r.orgId, r.createdAt).Some? then Some(true) else None
  {
    var f := FindEpoch(s.epochs, r.orgId, r.createdAt);
    FindEpochFinds(s.epochs, r.orgId, r.createdAt);
    if f.Some? {
      var i :| 0 <= i < |s.epochs| && s.epochs[i] == f.value;
      assert EpochOk(h, s.objects, s.epochs[i]) && EpochTimesOk(s.epochs[i]);
      WindowsDisjoint(f.value.startTime, r.createdAt);
      var doc := s.objects[f.value.epochKey];
      assert StoredLayers(doc) == Some((doc.leafOps, doc.layers));
      hide M.Layers, M.Root, M.Shaped, M.ProofAt, M.Verifies, M.IndexOf, FindEpoch, Covered, EpochsOk, SchedulerOk, WindowsOk;
      StoredTreeProves(h.pair, doc.layers, doc.leafOps, f.value.rootHash, r.chainHash);
    }
  }

  lemma StoredTreeProves(hp: M.PairHash, layers: seq<seq<string>>, leafOps: seq<string>, root: Option<string>, hash: string)
    requires layers != [] && hash in layers[0] && layers == M.Layers(hp, layers[0]) && root == M.Root(hp, layers[0])
    ensures var tree := M.Tree(root, layers[0], leafOps, layers);
            && M.Shaped(tree) && M.IndexOf(tree.leaves, hash).Some?
            && M.Verifies(hp, M.ProofAt(tree, M.IndexOf(tree.leaves, hash).value, 0))
  {
    hide M.Layers, M.Next, M.Padded, M.SiblingsFrom, M.DirectionsFrom, M.Fold;
    M.LayersChained(hp, layers[0]);
    assert M.Halving(layers);
    M.FoldReachesTop(hp, layers, M.IndexOf(layers[0], hash).value, 0);
  }

  /**
    Epoch completeness: an operation committed before its window's epoch read the table gets
    a true inclusion check as soon as that epoch exists, and ever after. The written records
    are only asked not to lie under the epochs' own key prefix.
  */
  lemma EpochComplete(h: Host, before: seq<Label>, after: seq<Label>, r: Row)
    requires var s := Exec(h, Initial, before); r in s.ops && NotYetBuilt(s, r)
    requires Writes(h, Initial, before, OffEpochs) && Writes(h, Exec(h, Initial, before), after, OffEpochs)
    ensures var s' := Exec(h, Exec(h, Initial, before), after);
            MerkleVerdict(h, s', r, r.orgId)
              == if FindEpoch(s'.epochs, r.orgId, r.createdAt).Some? then Some(true) else None
  {
    hide MerkleVerdict, FindEpoch, Step, Writes, Core, WindowsOk;
    var s := Exec(h, Initial, before);
    var s' := Exec(h, s, after);
    InitialCore(h);
    RunKeepsCore(h, Initial, before);
    RunKeepsEpochs(h, Initial, before);
    WindowsKept(h, before);
    assert Covered(s, r);
    RunKeepsCovered(h, s, after, r);
    RunKeepsEpochs(h, s, after);
    RunKeepsWindows(h, s, after);
    InclusionHolds(h, s', r);
  }

  lemma WindowsKept(h: Host, run: seq<Label>)
    ensures var s := Exec(h, Initial, run); WindowsOk(s.epochs, s.scheduler)
  {
    RunKeepsWindows(h, Initial, run);
  }

  /** The windows of an organisation's epochs never overlap, in any reachable state. */
  lemma EpochWindowsDisjoint(h: Host, run: seq<Label>, i: nat, j: nat, at: int)
    requires var es := Exec(h, Initial, run).epochs;
             && i < |es| && j < |es| && es[i].orgId == es[j].orgId
             && es[i].startTime <= at < es[i].endTime && es[j].startTime <= at < es[j].endTime
    ensures i == j
  {
    WindowsKept(h, run);
    var es := Exec(h, Initial, run).epochs;
    assert EpochTimesOk(es[i]) && EpochTimesOk(es[j]);
    WindowsDisjoint(es[i].startTime, at);
    WindowsDisjoint(es[j].startTime, at);
  }
}
