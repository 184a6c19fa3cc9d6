/**
  How the stored objects relate to the committed rows. A put replaces whatever is under its
  key and comes before the commit, so a submission can replace the objects of a committed
  operation: stated here are exactly the lone submissions that do, what verification then
  finds, and a condition under which no interleaving does.
*/
module ServerOverwrite {
  import opened Text
  import opened Chain
  import opened Server
  import opened ServerInvariants
  import opened ServerEvidence
  import opened ServerSubmit
  import opened ServerVerify
  import M = Merkle

  // ---- A row and its own objects ----

  ghost predicate FaithfulRecord(objects: map<string, StoredObject>, r: Row) {
    && HasEvidence(objects, r.payloadKey)
    && RowOf(objects[r.payloadKey].eor, r.seqNo, r.chainHash, r.createdAt) == r
  }

  predicate ReceiptOf(f: ReceiptFields, r: Row) {
    && f.operationId == r.operationId && f.orgId == r.orgId && f.agentId == r.agentId
    && f.seqNo == r.seqNo && f.chainHash == r.chainHash && f.serverReceivedAt == r.createdAt
  }

  function RowReceiptKey(r: Row): string { ReceiptKey(r.orgId, r.agentId, r.operationId) }

  /** The stored record and receipt are the ones the row was committed with. */
  ghost predicate Faithful(objects: map<string, StoredObject>, r: Row) {
    && FaithfulRecord(objects, r)
    && HasReceipt(objects, RowReceiptKey(r)) && ReceiptOf(objects[RowReceiptKey(r)].ear.fields, r)
  }

  // ---- Exactly which lone submissions replace them ----

  function EorReceiptKey(e: Eor): string { ReceiptKey(e.body.orgId, e.body.agentId, e.body.operationId) }

  /** One of the two keys a submission writes is one of the two a row relies on. */
  predicate KeysMeet(e: Eor, r: Row) {
    || EorKey(e) == r.payloadKey || EorKey(e) == RowReceiptKey(r)
    || EorReceiptKey(e) == r.payloadKey || EorReceiptKey(e) == RowReceiptKey(r)
  }

  /** The state after a submission that nobody interrupts. */
  function Lone(h: Host, s: State, tid: nat, e: Eor, now: SafeInt, rid: string, qid: string): State {
    Run(h, StepArrive(h, s, tid, e, now), tid, rid, qid, 9)
  }

  lemma OwnKeysDiffer(e: Eor)
    ensures EorKey(e) != EorReceiptKey(e)
  {
    assert |EorReceiptKey(e)| == |EorKey(e)| + 9;
  }

  lemma RowKeysDiffer(h: Host, s: State, r: Row)
    requires Core(h, s) && r in s.ops
    ensures r.payloadKey == PayloadKey(r.orgId, r.agentId, r.operationId) && r.payloadKey != RowReceiptKey(r)
  {
    var i :| 0 <= i < |s.ops| && s.ops[i] == r;
    assert |RowReceiptKey(r)| == |r.payloadKey| + 9;
  }

  /** A record that names the current head is not one that is already in the chain. */
  lemma HeadIsUnspent(h: Host, s: State, r: Row, e: Eor)
    requires Core(h, s) && r in s.ops && ChainTrusted(h, s.ops, r.agentId) && AtOwnHead(s, e)
    ensures RowOf(e, r.seqNo, r.chainHash, r.createdAt) != r
  {
    RowIsBelowHead(h, s.ops, r);
    hide Core, ChainTrusted, AgentChain;
  }

  lemma RowIsBelowHead(h: Host, ops: seq<Row>, r: Row)
    requires ChainOk(h, ops) && r in ops && ChainTrusted(h, ops, r.agentId)
    ensures r.prevChainHash != Head(AgentChain(ops, r.agentId))
  {
    var chain := AgentChain(ops, r.agentId);
    RowAt(h, ops, r);
    TrustedChain(h, ops, r.agentId);
    hide ChainOk, ChainTrusted, AgentChain, Trusted;
    assert chain[..|chain|] == chain;
    if r.prevChainHash == Head(chain) { HeadsDistinct(h.sha, chain, r.seqNo - 1, |chain|); }
  }

  /** Nor is the receipt it is given one of a committed row. */
  lemma ReceiptIsNew(h: Host, s: State, r: Row, e: Eor, now: SafeInt, rid: string, qid: string)
    requires Core(h, s) && r in s.ops
    ensures !ReceiptOf(OwnReceipt(h, s, e, now, rid, qid).fields, r)
  {
    RowAt(h, s.ops, r);
  }

  /** The two puts, and nothing else. */
  ghost predicate PutBoth(before: map<string, StoredObject>, after: map<string, StoredObject>, e: Eor, ear: Ear) {
    && EorKey(e) in after && after[EorKey(e)] == Evidence(e)
    && EorReceiptKey(e) in after && after[EorReceiptKey(e)] == ReceiptDoc(ear)
    && forall k :: k != EorKey(e) && k != EorReceiptKey(e) ==>
         (k in after <==> k in before) && (k in after ==> after[k] == before[k])
  }

  lemma StoredObjects(h: Host, s: State, e: Eor, now: SafeInt, rid: string, qid: string)
    ensures var after := StoredBy(h, s, e, now, rid, qid);
            && (!AtOwnHead(s, e) ==> after == s.objects)
            && (AtOwnHead(s, e) ==> PutBoth(s.objects, after, e, OwnReceipt(h, s, e, now, rid, qid)))
  {
    OwnKeysDiffer(e);
    hide PayloadKey, ReceiptKey, EorInput, AgentChain;
  }

  /**
    Exactly when a submission leaves a committed row's objects its own: when it does not name
    the current head, or writes under other keys. Both can be told before it is sent. Whether
    the submission is itself accepted makes no difference.
  */
  lemma FaithfulExactly(h: Host, s: State, tid: nat, e: Eor, now: SafeInt, rid: string, qid: string, r: Row)
    requires Core(h, s) && tid !in s.threads && Admissible(h, s, e, now)
    requires r in s.ops && Faithful(s.objects, r) && ChainTrusted(h, s.ops, r.agentId)
    ensures Faithful(Lone(h, s, tid, e, now, rid, qid).objects, r) <==> !AtOwnHead(s, e) || !KeysMeet(e, r)
  {
    hide Core, Run, StepArrive, Admissible, AtOwnHead, OwnReceipt, ChainTrusted, StoredBy, Faithful, KeysMeet, PutBoth, RowOf, ReceiptOf;
    SubmitAlone(h, s, tid, e, now, rid, qid);
    StoredObjects(h, s, e, now, rid, qid);
    if AtOwnHead(s, e) {
      RowKeysDiffer(h, s, r);
      HeadIsUnspent(h, s, r, e);
      ReceiptIsNew(h, s, r, e, now, rid, qid);
      PutBothReplaces(s.objects, StoredBy(h, s, e, now, rid, qid), e, OwnReceipt(h, s, e, now, rid, qid), r);
    }
  }

  /** Putting objects that are not the row's own replaces its objects exactly when the keys meet. */
  lemma PutBothReplaces(before: map<string, StoredObject>, after: map<string, StoredObject>, e: Eor, ear: Ear, r: Row)
    requires PutBoth(before, after, e, ear) && Faithful(before, r) && r.payloadKey != RowReceiptKey(r)
    requires RowOf(e, r.seqNo, r.chainHash, r.createdAt) != r && !ReceiptOf(ear.fields, r)
    ensures Faithful(after, r) <==> !KeysMeet(e, r)
  {
    OwnKeysDiffer(e);
    hide RowOf, RowReceiptKey, EorReceiptKey, EorKey, ReceiptOf;
  }

  /** With slash-free owners the keys meet on reused operation ids and on ids that begin with "receipts/". */
  lemma KeysMeetExactly(e: Eor, r: Row)
    requires OwnerFree(e.body.orgId, e.body.agentId) && OwnerFree(r.orgId, r.agentId)
    requires r.payloadKey == PayloadKey(r.orgId, r.agentId, r.operationId)
    ensures KeysMeet(e, r) <==>
              && e.body.orgId == r.orgId && e.body.agentId == r.agentId
              && (|| e.body.operationId == r.operationId
                  || e.body.operationId == "receipts/" + r.operationId
                  || r.operationId == "receipts/" + e.body.operationId)
  {
    var b := e.body;
    PayloadKeyInjective(b.orgId, b.agentId, b.operationId, r.orgId, r.agentId, r.operationId);
    ReceiptKeyInjective(b.orgId, b.agentId, b.operationId, r.orgId, r.agentId, r.operationId);
    PayloadMeetsReceipt(b.orgId, b.agentId, b.operationId, r.orgId, r.agentId, r.operationId);
    PayloadMeetsReceipt(r.orgId, r.agentId, r.operationId, b.orgId, b.agentId, b.operationId);
  }

  /**
    The failing family: a resubmission that reuses a committed operation id and names the
    current head is refused, yet the committed row's stored record is no longer its own.
  */
  lemma ReusedIdReplacesEvidence(h: Host, s: State, tid: nat, e: Eor, now: SafeInt, rid: string, qid: string, r: Row)
    requires Core(h, s) && tid !in s.threads && Admissible(h, s, e, now)
    requires r in s.ops && r.payloadKey == EorKey(e) && r.operationId == e.body.operationId
    requires AtOwnHead(s, e) && ChainTrusted(h, s.ops, r.agentId)
    ensures var s' := Lone(h, s, tid, e, now, rid, qid);
            && tid in s'.threads && s'.threads[tid].phase == Done(Failed) && s'.ops == s.ops
            && !FaithfulRecord(s'.objects, r)
  {
    SubmitAlone(h, s, tid, e, now, rid, qid);
    StoredObjects(h, s, e, now, rid, qid);
    HeadIsUnspent(h, s, r, e);
    assert IdTaken(s.ops, e.body.operationId) by {
      var i :| 0 <= i < |s.ops| && s.ops[i] == r;
      assert s.ops[i].operationId == e.body.operationId;
    }
    hide Core, Run, StepArrive, AtOwnHead, IdTaken, ReceiptTaken, RowOf, StoredBy, OwnReceipt;
  }

  // ---- What verification finds after it ----

  /** The parts of a verdict that read the object store. */
  predicate ObjectChecks(h: Host, s: State, r: Row) { SignatureHolds(h, s, r) && ReceiptHolds(h, s, r) }

  /**
    An evidence key of one of the two is a receipt key of the other, unless the record that
    lands on a receipt key carries receipt members of its own that hash to its `receipt_hash`.
  */
  predicate KindsMeet(h: Host, e: Eor, r: Row) {
    || (EorKey(e) == RowReceiptKey(r) && !ReadsAsReceipt(h, Evidence(e)))
    || EorReceiptKey(e) == r.payloadKey
  }

  lemma LoneCore(h: Host, s: State, tid: nat, e: Eor, now: SafeInt, rid: string, qid: string)
    requires Core(h, s) && tid !in s.threads
    ensures var s' := Lone(h, s, tid, e, now, rid, qid);
            && Core(h, s') && s.ops <= s'.ops && (forall r :: r in s.ops ==> r in s'.ops) && s'.agents == s.agents && s'.keys == s.keys
            && s'.nonces <= s.nonces + {NonceKey(e)} && s'.threads.Keys == s.threads.Keys + {tid}
  {
    var arrived := StepArrive(h, s, tid, e, now);
    assert arrived.threads[tid].eor == e && arrived.threads.Keys == s.threads.Keys + {tid};
    StepKeepsCore(h, s, Arrive(tid, e, now));
    RunAround(h, arrived, tid, rid, qid, 9);
    hide Core, Run, NonceKey, ValidateEor;
    LoneKeepsCore(h, arrived, tid, rid, qid, 9);
  }

  lemma AdmittedSigOk(h: Host, s: State, e: Eor, now: SafeInt)
    requires Admissible(h, s, e, now)
    ensures FindKey(s.keys, e.body.kid, e.body.agentId).Some?
    ensures h.verify(FindKey(s.keys, e.body.kid, e.body.agentId).value.publicKey, e.signature, e.body)
  {
  }

  lemma ReceiptCheck(h: Host, s: State, r: Row)
    requires Core(h, s) && r in s.ops
    ensures ReceiptHolds(h, s, r) <==>
              RowReceiptKey(r) in s.objects && ReadsAsReceipt(h, s.objects[RowReceiptKey(r)])
  {
    ReceiptFound(h, s, r);
  }

  lemma SignatureAfter(h: Host, s: State, s': State, e: Eor, ear: Ear, r: Row)
    requires SignatureHolds(h, s, r) && s'.keys == s.keys && PutBoth(s.objects, s'.objects, e, ear)
    requires FindKey(s.keys, e.body.kid, e.body.agentId).Some?
    requires h.verify(FindKey(s.keys, e.body.kid, e.body.agentId).value.publicKey, e.signature, e.body)
    ensures SignatureHolds(h, s', r) <==> EorReceiptKey(e) != r.payloadKey
  {
    OwnKeysDiffer(e);
    hide EorReceiptKey, EorKey, FindKey;
  }

  lemma ReceiptAfter(h: Host, s: State, s': State, e: Eor, ear: Ear, r: Row)
    requires Core(h, s) && Core(h, s') && r in s.ops && r in s'.ops && ReceiptHolds(h, s, r)
    requires PutBoth(s.objects, s'.objects, e, ear) && ear.receiptHash == h.receiptHash(ear.fields)
    ensures ReceiptHolds(h, s', r) <==> EorKey(e) != RowReceiptKey(r) || ReadsAsReceipt(h, Evidence(e))
  {
    ReceiptCheck(h, s, r);
    ReceiptCheck(h, s', r);
    OwnKeysDiffer(e);
    hide Core, EorReceiptKey, EorKey, RowReceiptKey, ReceiptHolds;
  }

  /**
    Exactly when verification of a committed row survives a lone submission: when that does
    not name the current head, or neither stores its receipt under the row's evidence key nor
    its record, where that does not read as a receipt, under the row's receipt key. All of it
    can be told before the submission is sent; no hypothesis on ids or hashes is left.
  */
  lemma VerifiesExactly(h: Host, s: State, tid: nat, e: Eor, now: SafeInt, rid: string, qid: string, r: Row)
    requires Core(h, s) && tid !in s.threads && Admissible(h, s, e, now) && r in s.ops && ObjectChecks(h, s, r)
    ensures ObjectChecks(h, Lone(h, s, tid, e, now, rid, qid), r) <==> !AtOwnHead(s, e) || !KindsMeet(h, e, r)
  {
    var s' := Lone(h, s, tid, e, now, rid, qid);
    SubmitAlone(h, s, tid, e, now, rid, qid);
    StoredObjects(h, s, e, now, rid, qid);
    LoneCore(h, s, tid, e, now, rid, qid);
    AdmittedSigOk(h, s, e, now);
    var ear := OwnReceipt(h, s, e, now, rid, qid);
    assert ear.receiptHash == h.receiptHash(ear.fields);
    hide Core, Lone, Admissible, AtOwnHead, SignatureHolds, ReceiptHolds, FindKey, StoredBy, OwnReceipt, PutBoth;
    if AtOwnHead(s, e) {
      SignatureAfter(h, s, s', e, ear, r);
      ReceiptAfter(h, s, s', e, ear, r);
    } else {
      SameObjects(h, s, s', r);
    }
  }

  lemma SameObjects(h: Host, s: State, s': State, r: Row)
    requires Core(h, s) && Core(h, s') && r in s.ops && r in s'.ops && ObjectChecks(h, s, r)
    requires s'.keys == s.keys && s'.objects == s.objects
    ensures ObjectChecks(h, s', r)
  {
    ReceiptCheck(h, s, r);
    ReceiptCheck(h, s', r);
    hide Core, ReceiptHolds, RowReceiptKey;
  }

  /**
    The failing family for verification, as a run: an operation with the id "receipts/" and x
    is committed and verifies; the next submission of its agent has the id x. Accepted or not,
    its receipt has replaced the first's evidence, whose signature can no longer be verified.
  */
  lemma ReceiptReplacesEvidence(h: Host, s: State, a: Eor, b: Eor, ta: nat, tb: nat, now: SafeInt,
                                ra: string, rb: string, qa: string, qb: string)
    requires Core(h, s) && ta !in s.threads && tb !in s.threads && ta != tb
    requires Admissible(h, s, a, now) && Insertable(s, a, ra)
    requires Admissible(h, s, b, now) && NonceKey(a) != NonceKey(b)
    requires a.body.orgId == b.body.orgId && a.body.agentId == b.body.agentId
    requires a.body.operationId == "receipts/" + b.body.operationId
    requires b.body.prevChainHash == h.sha(EorInput(a))
    ensures var s1 := Lone(h, s, ta, a, now, ra, qa);
            var s2 := Lone(h, s1, tb, b, now, rb, qb);
            var row := CommittedRow(h, s, a, now);
            && row in s1.ops && ObjectChecks(h, s1, row)
            && row in s2.ops && !SignatureHolds(h, s2, row)
  {
    var s1 := Lone(h, s, ta, a, now, ra, qa);
    var row := CommittedRow(h, s, a, now);
    FirstVerifies(h, s, a, ta, now, ra, qa);
    SecondAdmitted(h, s, a, b, ta, tb, now, ra, qa);
    ReceiptIsPayload(b.body.orgId, b.body.agentId, b.body.operationId);
    SubmitAlone(h, s1, tb, b, now, rb, qb);
    StoredObjects(h, s1, b, now, rb, qb);
    LoneCore(h, s1, tb, b, now, rb, qb);
    hide Core, Lone, Admissible, AtOwnHead, StoredBy, AgentChain, EorInput, ReceiptHolds, PayloadKey, ReceiptKey;
  }

  /** An operation accepted alone verifies. */
  lemma FirstVerifies(h: Host, s: State, a: Eor, ta: nat, now: SafeInt, ra: string, qa: string)
    requires Core(h, s) && ta !in s.threads && Admissible(h, s, a, now) && Insertable(s, a, ra)
    ensures var s1 := Lone(h, s, ta, a, now, ra, qa);
            var row := CommittedRow(h, s, a, now);
            s1.ops == s.ops + [row] && row in s1.ops && ObjectChecks(h, s1, row)
  {
    var s1 := Lone(h, s, ta, a, now, ra, qa);
    var row := CommittedRow(h, s, a, now);
    SubmitAlone(h, s, ta, a, now, ra, qa);
    StoredObjects(h, s, a, now, ra, qa);
    AdmittedSigOk(h, s, a, now);
    assert s1.ops[|s.ops|] == row;
    LoneCore(h, s, ta, a, now, ra, qa);
    ReceiptCheck(h, s1, row);
    hide Core, Lone, Admissible, AtOwnHead, StoredBy, AgentChain, EorInput, ReceiptHolds, PayloadKey, ReceiptKey, FindKey;
  }

  lemma SecondAdmitted(h: Host, s: State, a: Eor, b: Eor, ta: nat, tb: nat, now: SafeInt, ra: string, qa: string)
    requires Core(h, s) && ta !in s.threads && tb !in s.threads && ta != tb
    requires Admissible(h, s, a, now) && Insertable(s, a, ra)
    requires Admissible(h, s, b, now) && NonceKey(a) != NonceKey(b)
    requires a.body.agentId == b.body.agentId && b.body.prevChainHash == h.sha(EorInput(a))
    ensures var s1 := Lone(h, s, ta, a, now, ra, qa);
            Core(h, s1) && tb !in s1.threads && Admissible(h, s1, b, now) && AtOwnHead(s1, b)
  {
    var s1 := Lone(h, s, ta, a, now, ra, qa);
    FirstVerifies(h, s, a, ta, now, ra, qa);
    LoneCore(h, s, ta, a, now, ra, qa);
    hide Core, Lone, AtOwnHead, ObjectChecks, CommittedRow, Insertable, Admissible;
    HeadAfter(h, s, s1, a, b, now);
    StillAdmissible(h, s, s1, a, b, now);
    assert tb !in s1.threads.Keys;
  }

  lemma HeadAfter(h: Host, s: State, s1: State, a: Eor, b: Eor, now: SafeInt)
    requires s1.ops == s.ops + [CommittedRow(h, s, a, now)]
    requires a.body.agentId == b.body.agentId && b.body.prevChainHash == h.sha(EorInput(a))
    ensures AtOwnHead(s1, b)
  {
    RowsGrow(s.ops, CommittedRow(h, s, a, now), b.body.agentId);
    hide AgentChain, EorInput;
  }

  lemma StillAdmissible(h: Host, s: State, s1: State, a: Eor, b: Eor, now: SafeInt)
    requires Admissible(h, s, b, now) && NonceKey(a) != NonceKey(b)
    requires s1.agents == s.agents && s1.keys == s.keys && s1.nonces <= s.nonces + {NonceKey(a)}
    ensures Admissible(h, s1, b, now)
  {
    hide NonceKey, ValidateEor, AfterReadKey;
  }

  // ---- When no record is put over another, rows keep their objects in every interleaving ----

  /** A record is put under a key that holds nothing yet, and no evidence key can be a receipt key. */
  ghost predicate AsNew(s: State, t: Thread) {
    EorIdsFree(t.eor) && (t.phase.PutPayload? ==> EorKey(t.eor) !in s.objects)
  }

  lemma {:induction false} NewIsApart(h: Host, s: State, run: seq<Label>)
    requires Writes(h, s, run, AsNew)
    ensures Writes(h, s, run, Apart)
    decreases |run|
  {
    hide Step;
    if run != [] { NewIsApart(h, Step(h, s, run[0]), run[1..]); }
  }

  /** Between its first put and its commit. */
  predicate InFlight(t: Thread) { t.phase.PutReceipt? || t.phase.Commit? }

  predicate HoldsRecord(objects: map<string, StoredObject>, e: Eor) {
    EorKey(e) in objects && objects[EorKey(e)] == Evidence(e)
  }

  ghost predicate OwnObjects(objects: map<string, StoredObject>, t: Thread) {
    && (InFlight(t) ==> HoldsRecord(objects, t.eor))
    && (t.phase.Commit? ==> EarKey(t.phase.ear.fields) in objects && objects[EarKey(t.phase.ear.fields)] == ReceiptDoc(t.phase.ear))
  }

  /** No two hold the same evidence key, be they submissions in flight or committed rows. */
  ghost predicate KeysOwned(s: State) {
    && (forall t, u :: t in s.threads && u in s.threads && t != u && InFlight(s.threads[t]) && InFlight(s.threads[u])
          ==> EorKey(s.threads[t].eor) != EorKey(s.threads[u].eor))
    && (forall t, i :: t in s.threads && InFlight(s.threads[t]) && 0 <= i < |s.ops|
          ==> EorKey(s.threads[t].eor) != s.ops[i].payloadKey)
  }

  ghost predicate Matched(s: State) {
    && (forall i :: 0 <= i < |s.ops| ==> Faithful(s.objects, s.ops[i]))
    && (forall tid :: tid in s.threads ==> OwnObjects(s.objects, s.threads[tid]))
    && KeysOwned(s)
  }

  /** A write leaves every object under another key as it was. */
  ghost predicate OnlyAt(a: map<string, StoredObject>, b: map<string, StoredObject>, key: string) {
    forall k :: k in a && k != key ==> k in b && b[k] == a[k]
  }

  function WriteKey(t: Thread): string {
    match t.phase
    case PutReceipt(ear) => EarKey(ear.fields)
    case _ => EorKey(t.eor)
  }

  lemma WritesOnlyAt(s: State, t: Thread, next: Phase)
    ensures OnlyAt(s.objects, Written(s, t, next).objects, WriteKey(t))
    ensures !Puts(t.phase) ==> Written(s, t, next).objects == s.objects
  {
    hide RowOf;
  }

  /** The write of a new record or of its receipt misses the keys of every other stored record. */
  lemma WriteMisses(h: Host, s: State, t: Thread, c: Eor)
    requires ThreadOk(h, s.keys, s.ops, t) && ObjectsOk(h, s.keys, s.objects) && HoldsRecord(s.objects, c)
    requires Puts(t.phase) && AsNew(s, t) && (t.phase.PutReceipt? ==> EorKey(t.eor) != EorKey(c))
    ensures WriteKey(t) != EorKey(c)
    ensures EorReceiptKey(c) in s.objects ==> WriteKey(t) != EorReceiptKey(c)
  {
    assert ObjectOk(h, s.keys, EorKey(c), Evidence(c));
    if t.phase.PutReceipt? {
      var b, d := t.eor.body, c.body;
      EvidenceIsNoReceipt(c, t.phase.ear);
      ReceiptKeyInjective(b.orgId, b.agentId, b.operationId, d.orgId, d.agentId, d.operationId);
      PayloadKeyInjective(b.orgId, b.agentId, b.operationId, d.orgId, d.agentId, d.operationId);
    }
  }

  lemma RowStaysFaithful(h: Host, s: State, tid: nat, next: Phase, i: nat)
    requires Core(h, s) && Evid(h, s) && Matched(s) && tid in s.threads && i < |s.ops|
    requires Puts(s.threads[tid].phase) ==> AsNew(s, s.threads[tid])
    ensures Faithful(Written(s, s.threads[tid], next).objects, s.ops[i])
  {
    var t, r := s.threads[tid], s.ops[i];
    var c := s.objects[r.payloadKey].eor;
    assert Faithful(s.objects, r);
    assert EorKey(c) == r.payloadKey && EorReceiptKey(c) == RowReceiptKey(r);
    WritesOnlyAt(s, t, next);
    if Puts(t.phase) {
      assert ThreadOk(h, s.keys, s.ops, t);
      hide EorKey, EorReceiptKey, RowReceiptKey, RowOf, ThreadOk, ObjectsOk, ChainOk, TablesOk, AsNew, WriteKey, ReceiptOf;
      WriteMisses(h, s, t, c);
    }
  }

  lemma OtherKeepsObjects(h: Host, s: State, tid: nat, next: Phase, other: nat)
    requires Core(h, s) && Evid(h, s) && Matched(s) && tid in s.threads && other in s.threads && other != tid
    requires Puts(s.threads[tid].phase) ==> AsNew(s, s.threads[tid])
    ensures OwnObjects(Written(s, s.threads[tid], next).objects, s.threads[other])
  {
    var t, u := s.threads[tid], s.threads[other];
    assert ThreadOk(h, s.keys, s.ops, t) && ThreadOk(h, s.keys, s.ops, u) && OwnObjects(s.objects, u);
    WritesOnlyAt(s, t, next);
    if Puts(t.phase) && InFlight(u) {
      assert u.phase.Commit? ==> EarKey(u.phase.ear.fields) == EorReceiptKey(u.eor);
      hide EorKey, EorReceiptKey, EarKey, RowOf, ThreadOk, ObjectsOk, ChainOk, TablesOk, AsNew, WriteKey;
      WriteMisses(h, s, t, u.eor);
    }
  }

  lemma OwnStep(h: Host, s: State, t: Thread, rid: string, qid: string, pk: bool)
    requires ThreadOk(h, s.keys, s.ops, t) && OwnObjects(s.objects, t)
    ensures var next := NextPhase(h, s, t, rid, qid, pk);
            OwnObjects(Written(s, t, next).objects, t.(phase := next))
  {
    if t.phase.PutReceipt? {
      OwnKeysDiffer(t.eor);
      assert EarKey(t.phase.ear.fields) == EorReceiptKey(t.eor);
    }
    hide SigOk, HeadSeen, FindAgent, FindKey, LatestOp, EorInput, RowOf, IdTaken, SeqTaken, ReceiptTaken;
    hide PayloadKey, ReceiptKey;
  }

  /** The row a commit adds is faithful to the objects its submission wrote. */
  lemma NewRowFaithful(h: Host, s: State, t: Thread, ear: Ear)
    requires ThreadOk(h, s.keys, s.ops, t) && t.phase == Commit(ear) && OwnObjects(s.objects, t)
    ensures Faithful(s.objects, OwnRow(t, ear))
  {
  }

  /** Who is in flight after a submission's step was in flight before, or has just put a new record. */
  lemma StaysInFlight(h: Host, s: State, t: Thread, rid: string, qid: string, pk: bool)
    ensures var next := NextPhase(h, s, t, rid, qid, pk);
            InFlight(t.(phase := next)) ==> InFlight(t) || t.phase.PutPayload?
    ensures var next := NextPhase(h, s, t, rid, qid, pk);
            t.phase.Commit? && next.Enqueue? ==> !InFlight(t.(phase := next))
  {
    hide FindAgent, FindKey, LatestOp, EorInput, IdTaken, SeqTaken, ReceiptTaken;
  }

  /** One submission goes on, and comes to hold its evidence key only by putting its record at an unused one. */
  ghost predicate GoesOn(s: State, s': State, tid: nat) {
    && tid in s.threads && tid in s'.threads && s'.threads == s.threads[tid := s'.threads[tid]]
    && s'.threads[tid].eor == s.threads[tid].eor
    && (InFlight(s'.threads[tid]) ==> InFlight(s.threads[tid])
                                      || (s.threads[tid].phase.PutPayload? && EorKey(s.threads[tid].eor) !in s.objects))
  }

  lemma SubmissionGoesOn(h: Host, s: State, l: Label)
    requires l.Advance? && l.tid in s.threads && WriteOk(s, l, AsNew)
    ensures GoesOn(s, Step(h, s, l), l.tid)
  {
    var t := s.threads[l.tid];
    var next := NextPhase(h, s, t, l.receiptId, l.queueId, l.pkFirst);
    WritesGrow(s, t, next);
    StaysInFlight(h, s, t, l.receiptId, l.queueId, l.pkFirst);
    hide NextPhase, Written, PayloadKey;
  }

  /** A row that appears has the key of the submission that goes on, which then lets go of it. */
  ghost predicate HandsOver(s: State, s': State, tid: nat) {
    && tid in s.threads && tid in s'.threads
    && (s'.ops == s.ops
        || (&& |s'.ops| == |s.ops| + 1 && s.ops <= s'.ops && s'.ops[|s.ops|].payloadKey == EorKey(s.threads[tid].eor)
            && InFlight(s.threads[tid]) && !InFlight(s'.threads[tid])))
  }

  lemma SubmissionHandsOver(h: Host, s: State, l: Label)
    requires l.Advance? && l.tid in s.threads
    ensures HandsOver(s, Step(h, s, l), l.tid)
  {
    var t := s.threads[l.tid];
    var next := NextPhase(h, s, t, l.receiptId, l.queueId, l.pkFirst);
    RowIsWritten(s, t, next);
    hide NextPhase, Written, PayloadKey;
  }

  lemma RowIsWritten(s: State, t: Thread, next: Phase)
    ensures var w := Written(s, t, next);
            || w.ops == s.ops
            || (&& |w.ops| == |s.ops| + 1 && s.ops <= w.ops && w.ops[|s.ops|].payloadKey == EorKey(t.eor)
                && t.phase.Commit? && next.Enqueue?)
  {
    hide PayloadKey;
  }

  lemma KeysStayOwned(h: Host, s: State, l: Label)
    requires Matched(s) && l.Advance? && l.tid in s.threads
    requires WriteOk(s, l, AsNew)
    ensures KeysOwned(Step(h, s, l))
  {
    hide Step, EorKey, RowReceiptKey, RowOf, ReceiptOf, WriteOk;
    var s' := Step(h, s, l);
    SubmissionGoesOn(h, s, l);
    SubmissionHandsOver(h, s, l);
    forall u | u in s'.threads && u != l.tid && InFlight(s'.threads[u])
      ensures InFlight(s'.threads[l.tid]) ==> EorKey(s'.threads[u].eor) != EorKey(s'.threads[l.tid].eor)
    {
      assert OwnObjects(s.objects, s.threads[u]);
    }
    forall u, i | u in s'.threads && InFlight(s'.threads[u]) && 0 <= i < |s'.ops|
      ensures EorKey(s'.threads[u].eor) != s'.ops[i].payloadKey
    {
      if i < |s.ops| { assert Faithful(s.objects, s.ops[i]) && s'.ops[i] == s.ops[i]; }
    }
  }

  lemma InsertedIsFaithful(h: Host, s: State, tid: nat, next: Phase, i: nat)
    requires Core(h, s) && Matched(s) && tid in s.threads
    requires |s.ops| <= i < |Written(s, s.threads[tid], next).ops|
    ensures Faithful(Written(s, s.threads[tid], next).objects, Written(s, s.threads[tid], next).ops[i])
  {
    var t := s.threads[tid];
    InsertedRow(s, t, next, i);
    assert ThreadOk(h, s.keys, s.ops, t) && OwnObjects(s.objects, t);
    NewRowFaithful(h, s, t, t.phase.ear);
  }

  lemma SubmissionKeepsMatched(h: Host, s: State, l: Label)
    requires Core(h, s) && Evid(h, s) && Matched(s) && WriteOk(s, l, AsNew)
    requires l.Advance? && l.tid in s.threads
    ensures Matched(Step(h, s, l))
  {
    var s' := Step(h, s, l);
    var t := s.threads[l.tid];
    var next := NextPhase(h, s, t, l.receiptId, l.queueId, l.pkFirst);
    var w := Written(s, t, next);
    WritesGrow(s, t, next);
    KeysStayOwned(h, s, l);
    assert ThreadOk(h, s.keys, s.ops, t) && OwnObjects(s.objects, t);
    OwnStep(h, s, t, l.receiptId, l.queueId, l.pkFirst);
    hide Written, NextPhase, Evid, ChainOk, TablesOk, ThreadOk, Faithful, OwnObjects, KeysOwned, AsNew;
    assert s' == w.(threads := w.threads[l.tid := t.(phase := next)]);
    forall i | 0 <= i < |s'.ops| ensures Faithful(s'.objects, s'.ops[i]) {
      if i < |s.ops| {
        RowStaysFaithful(h, s, l.tid, next, i);
      } else {
        InsertedIsFaithful(h, s, l.tid, next, i);
      }
    }
    forall tid | tid in s'.threads ensures OwnObjects(s'.objects, s'.threads[tid]) {
      if tid != l.tid { OtherKeepsObjects(h, s, l.tid, next, tid); }
    }
  }

  lemma OtherKeepsMatched(h: Host, s: State, l: Label)
    requires Matched(s) && !(l.Advance? && l.tid in s.threads)
    ensures Matched(Step(h, s, l))
  {
    var s' := Step(h, s, l);
    StepOps(h, s, l);
    OtherObjects(h, s, l);
    hide Step, OwnObjects, RowOf, EorKey, RowReceiptKey, ReceiptOf;
    forall tid | tid in s'.threads
      ensures OwnObjects(s'.objects, s'.threads[tid])
      ensures InFlight(s'.threads[tid]) ==> tid in s.threads && s'.threads[tid] == s.threads[tid]
    {
      ThreadsAfterOther(h, s, l, tid);
    }
    forall i | 0 <= i < |s'.ops| ensures Faithful(s'.objects, s'.ops[i]) {
      assert Faithful(s.objects, s.ops[i]);
    }
  }

  /** The step puts nobody in flight and takes no object away. */
  lemma ThreadsAfterOther(h: Host, s: State, l: Label, tid: nat)
    requires !(l.Advance? && l.tid in s.threads) && tid in Step(h, s, l).threads
    requires tid in s.threads ==> OwnObjects(s.objects, s.threads[tid])
    ensures var s' := Step(h, s, l);
            && OwnObjects(s'.objects, s'.threads[tid])
            && (InFlight(s'.threads[tid]) ==> tid in s.threads && s'.threads[tid] == s.threads[tid])
  {
    if tid in s.threads && !(l.Fail? && l.tid == tid) {
      OthersUntouched(h, s, l, tid);
      OtherObjects(h, s, l);
      hide Step, EorKey, EarKey;
    } else {
      NewThreadIsIdle(h, s, l, tid);
    }
  }

  lemma NewThreadIsIdle(h: Host, s: State, l: Label, tid: nat)
    requires tid in Step(h, s, l).threads && (tid !in s.threads || (l.Fail? && l.tid == tid))
    requires !(l.Advance? && l.tid in s.threads)
    requires tid in s.threads ==> OwnObjects(s.objects, s.threads[tid])
    ensures OwnObjects(Step(h, s, l).objects, Step(h, s, l).threads[tid])
    ensures InFlight(Step(h, s, l).threads[tid]) ==> tid in s.threads && Step(h, s, l).threads[tid] == s.threads[tid]
  {
    hide Written, NextPhase, M.TreeOf, ValidateEor, InWindow;
  }

  lemma {:induction false} RunKeepsMatched(h: Host, s: State, run: seq<Label>)
    requires Core(h, s) && Evid(h, s) && Matched(s) && Writes(h, s, run, AsNew)
    ensures Matched(Exec(h, s, run))
    decreases |run|
  {
    hide Core, Evid, Step, Matched, WriteOk;
    if run != [] {
      var l := run[0];
      StepKeepsCore(h, s, l);
      NewIsApart(h, s, run);
      StepKeepsEvid(h, s, l);
      if l.Advance? && l.tid in s.threads {
        SubmissionKeepsMatched(h, s, l);
      } else {
        OtherKeepsMatched(h, s, l);
      }
      RunKeepsMatched(h, Step(h, s, l), run[1..]);
    }
  }

  /**
    When no record is put over another, the stored record and receipt of every committed
    operation are, in every reachable state, those of the row itself: verification then speaks
    about the committed record. Refused submissions, which store nothing, may reuse any id.
  */
  lemma EvidenceMatchesRow(h: Host, run: seq<Label>, r: Row)
    requires Writes(h, Initial, run, AsNew) && r in Exec(h, Initial, run).ops
    ensures Faithful(Exec(h, Initial, run).objects, r)
  {
    InitialCore(h);
    assert Evid(h, Initial) && Matched(Initial);
    RunKeepsMatched(h, Initial, run);
    var s := Exec(h, Initial, run);
    var i :| 0 <= i < |s.ops| && s.ops[i] == r;
  }

  // ---- Over interleavings, write by write ----

  ghost predicate RowsFaithful(s: State) { forall i :: 0 <= i < |s.ops| ==> Faithful(s.objects, s.ops[i]) }

  /** The put meets neither of the row's keys, or puts there what the row was made from. */
  predicate Harmless(t: Thread, r: Row) {
    match t.phase
    case PutPayload(_, _) =>
      || (EorKey(t.eor) != r.payloadKey && EorKey(t.eor) != RowReceiptKey(r))
      || (EorKey(t.eor) == r.payloadKey && RowOf(t.eor, r.seqNo, r.chainHash, r.createdAt) == r)
    case PutReceipt(ear) =>
      || (EarKey(ear.fields) != r.payloadKey && EarKey(ear.fields) != RowReceiptKey(r))
      || (EarKey(ear.fields) == RowReceiptKey(r) && ReceiptOf(ear.fields, r))
    case _ => true
  }

  /** Whether the step's put is harmless to every committed row, and its insert finds its own objects in place. */
  ghost predicate Clean(h: Host, s: State, l: Label) {
    l.Advance? && l.tid in s.threads ==>
      var t := s.threads[l.tid];
      && (forall i :: 0 <= i < |s.ops| ==> Harmless(t, s.ops[i]))
      && (t.phase.Commit? && AfterCommit(s, t.eor, t.phase.ear, l.pkFirst).Enqueue? ==> Faithful(s.objects, OwnRow(t, t.phase.ear)))
  }

  lemma PutIsHarmless(h: Host, s: State, t: Thread, next: Phase, i: nat)
    requires Core(h, s) && RowsFaithful(s) && i < |s.ops|
    ensures Faithful(Written(s, t, next).objects, s.ops[i]) <==> Harmless(t, s.ops[i])
  {
    var r := s.ops[i];
    assert Faithful(s.objects, r);
    RowKeysDiffer(h, s, r);
    WritesOnlyAt(s, t, next);
    hide Core, RowOf, EorKey, EarKey, RowReceiptKey, ReceiptOf, RowsFaithful;
  }

  lemma InsertIsFaithful(h: Host, s: State, l: Label)
    requires l.Advance? && l.tid in s.threads
    ensures var s' := Step(h, s, l); var t := s.threads[l.tid];
            && s'.objects == Written(s, t, NextPhase(h, s, t, l.receiptId, l.queueId, l.pkFirst)).objects
            && (forall i :: 0 <= i < |s.ops| ==> i < |s'.ops| && s'.ops[i] == s.ops[i])
            && if t.phase.Commit? && AfterCommit(s, t.eor, t.phase.ear, l.pkFirst).Enqueue?
               then |s'.ops| == |s.ops| + 1 && s'.ops[|s.ops|] == OwnRow(t, t.phase.ear) && s'.objects == s.objects
               else |s'.ops| == |s.ops|
  {
    hide AfterCommit, RowOf, AfterReadAgent, AfterReadKey, AfterReadHead, AfterReadWinner, EarOf;
  }

  /** A step keeps every row's objects its own exactly when it is clean. */
  lemma StepFaithfulExactly(h: Host, s: State, l: Label)
    requires Core(h, s) && RowsFaithful(s)
    ensures RowsFaithful(Step(h, s, l)) <==> Clean(h, s, l)
  {
    var s' := Step(h, s, l);
    if l.Advance? && l.tid in s.threads {
      var t := s.threads[l.tid];
      var next := NextPhase(h, s, t, l.receiptId, l.queueId, l.pkFirst);
      InsertIsFaithful(h, s, l);
      hide Step, Written, NextPhase, AfterCommit, Faithful, Harmless, Core, OwnRow;
      forall i | 0 <= i < |s.ops| ensures Faithful(s'.objects, s'.ops[i]) <==> Harmless(t, s.ops[i]) {
        PutIsHarmless(h, s, t, next, i);
      }
    } else {
      StepOps(h, s, l);
      OtherObjects(h, s, l);
      hide Step, RowOf, ReceiptOf, RowReceiptKey;
      forall i | 0 <= i < |s'.ops| ensures Faithful(s'.objects, s'.ops[i]) { assert Faithful(s.objects, s.ops[i]); }
    }
  }

  ghost predicate FaithfulAlong(h: Host, s: State, run: seq<Label>)
    decreases |run|
  {
    RowsFaithful(s) && (run == [] || FaithfulAlong(h, Step(h, s, run[0]), run[1..]))
  }

  ghost predicate CleanRun(h: Host, s: State, run: seq<Label>)
    decreases |run|
  {
    run == [] || (Clean(h, s, run[0]) && CleanRun(h, Step(h, s, run[0]), run[1..]))
  }

  /**
    Over any interleaving every row's objects are its own in every state exactly when every put
    is harmless to the rows committed so far and every insert finds its own objects in place.
    Both can be told before the step.
  */
  lemma {:induction false} FaithfulRunsExactly(h: Host, s: State, run: seq<Label>)
    requires Core(h, s) && RowsFaithful(s)
    ensures FaithfulAlong(h, s, run) <==> CleanRun(h, s, run)
    decreases |run|
  {
    hide Core, Step, RowsFaithful, Clean;
    if run != [] {
      StepKeepsCore(h, s, run[0]);
      StepFaithfulExactly(h, s, run[0]);
      if Clean(h, s, run[0]) {
        FaithfulRunsExactly(h, Step(h, s, run[0]), run[1..]);
      } else {
        NotFaithfulNow(h, Step(h, s, run[0]), run[1..]);
      }
    }
  }

  lemma NotFaithfulNow(h: Host, s: State, run: seq<Label>)
    requires !RowsFaithful(s)
    ensures !FaithfulAlong(h, s, run)
  {
    hide Step, RowsFaithful;
  }
}
