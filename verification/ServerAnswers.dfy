/** What a submission is answered and what it leaves in the stores, by its own fields and the tables' alone. */
module ServerAnswers {
  import opened Text
  import opened Chain
  import opened Server
  import opened ServerInvariants
  import opened ServerSubmit
  import opened ServerStanding

  // ---- Validation ----

  /** The characters that String.prototype.trim takes off. */
  lemma BlankExactly(s: string)
    ensures Blank(s) <==> forall i :: 0 <= i < |s| ==>
              s[i] as int in {9, 10, 11, 12, 13, 32, 160, 0x1680,
                              0x2000, 0x2001, 0x2002, 0x2003, 0x2004, 0x2005, 0x2006, 0x2007, 0x2008, 0x2009, 0x200A,
                              0x2028, 0x2029, 0x202F, 0x205F, 0x3000, 0xFEFF}
  {
    if Blank(s) {
      forall i | 0 <= i < |s| ensures IsTrimmed(s[i]) { assert s[i] in s; }
    }
  }

  function RequiredTexts(e: Eor): seq<string> {
    [e.body.operationId, e.body.orgId, e.body.agentId, e.body.nonce, e.body.operationType,
     e.body.payloadHash, e.body.prevChainHash, e.body.kid, e.signature]
  }

  /** None of the nine texts a record must have is blank, and the numbers are in range. */
  predicate WellFormed(e: Eor) {
    && e.body.opVersion == "1.0" && |e.body.nonce| <= 64 && e.body.issuedAt > 0 && 1000 <= e.body.ttlMs <= 300_000
    && forall s :: s in RequiredTexts(e) ==> !Blank(s)
  }

  /** Each refusal of a record by its fields, and its acceptance. */
  lemma ValidationExactly(h: Host, e: Eor, at: int)
    ensures var v := ValidateEor(h, e, at);
            var inTime := e.body.issuedAt + e.body.ttlMs >= at;
            var small := e.body.payload.None? || h.payloadBytes(e.body.payload.value) <= 262_144;
            && (v == Some(ValidationError) <==> !WellFormed(e))
            && (v == Some(TtlExpired) <==> WellFormed(e) && !inTime)
            && (v == Some(PayloadTooLarge) <==> WellFormed(e) && inTime && !small)
            && (v == None <==> WellFormed(e) && inTime && small)
  {
    hide Blank;
  }

  // ---- The answer to a submission that nobody interrupts ----

  /** What the cache, the agents' and the keys' tables hold for a record. */
  predicate Replayed(s: State, e: Eor) { "nonce:" + e.body.orgId + ":" + e.body.nonce in s.nonces }

  predicate Known(s: State, e: Eor) { e.body.agentId in s.agents && s.agents[e.body.agentId].orgId == e.body.orgId }

  predicate Held(s: State, e: Eor) { e.body.kid in s.keys && s.keys[e.body.kid].agentId == e.body.agentId }

  /** The state with the submission as given. */
  function With(s: State, tid: nat, t: Thread): State { s.(threads := s.threads[tid := t]) }

  function Noted(s: State, e: Eor): State { s.(nonces := s.nonces + {NonceKey(e)}) }

  predicate BeforeHead(p: Phase) { p.GetNonce? || p.PutNonce? || p.ReadAgent? || p.ReadKey? }

  lemma EarlyStep(h: Host, s: State, tid: nat, t: Thread, rid: string, qid: string)
    requires BeforeHead(t.phase)
    ensures StepThread(h, With(s, tid, t), tid, rid, qid, true)
         == With(if t.phase.PutNonce? then Noted(s, t.eor) else s, tid, t.(phase := NextPhase(h, s, t, rid, qid, true)))
  {
    hide NonceKey;
    var a := With(s, tid, t);
    assert NextPhase(h, a, t, rid, qid, true) == NextPhase(h, s, t, rid, qid, true);
    assert a.threads[tid] == t && s.threads[tid := t][tid := t.(phase := NextPhase(h, s, t, rid, qid, true))]
      == s.threads[tid := t.(phase := NextPhase(h, s, t, rid, qid, true))];
  }

  lemma EarlyRun(h: Host, s: State, tid: nat, t: Thread, rid: string, qid: string, n: nat)
    requires BeforeHead(t.phase) && n > 0
    ensures Run(h, With(s, tid, t), tid, rid, qid, n)
         == Run(h, With(if t.phase.PutNonce? then Noted(s, t.eor) else s, tid, t.(phase := NextPhase(h, s, t, rid, qid, true))),
                tid, rid, qid, n - 1)
  {
    hide StepThread, NextPhase, Run, NonceKey;
    EarlyStep(h, s, tid, t, rid, qid);
    RunOne(h, With(s, tid, t), tid, rid, qid, n);
  }

  lemma OverNow(h: Host, s: State, tid: nat, t: Thread, rid: string, qid: string, n: nat)
    requires t.phase.Done?
    ensures Run(h, With(s, tid, t), tid, rid, qid, n) == With(s, tid, t)
  {
    hide Run;
    DoneStays(h, With(s, tid, t), tid, rid, qid, n);
  }

  /** The phase that the checks after the nonce lead to. */
  function Checked(h: Host, s: State, e: Eor): Phase {
    if AfterReadAgent(s, e) == ReadKey then AfterReadKey(h, s.keys, e) else AfterReadAgent(s, e)
  }

  /** A submission is refused by the checks, or reaches the head read; its nonce is noted once it is valid. */
  lemma UpToChecks(h: Host, s: State, tid: nat, e: Eor, now: SafeInt, rid: string, qid: string)
    requires tid !in s.threads
    ensures var s' := Run(h, StepArrive(h, s, tid, e, now), tid, rid, qid, 9);
            if ValidateEor(h, e, now).Some? then
              s' == With(s, tid, Thread(e, now, Done(Refused(ValidateEor(h, e, now).value))))
            else if NonceKey(e) in s.nonces then s' == With(s, tid, Thread(e, now, Done(Refused(ReplayDetected))))
            else if Checked(h, s, e).Done? then s' == With(Noted(s, e), tid, Thread(e, now, Checked(h, s, e)))
            else Checked(h, s, e) == ReadHead && s' == Run(h, With(Noted(s, e), tid, Thread(e, now, ReadHead)), tid, rid, qid, 5)
  {
    hide ValidateEor, FindAgent, FindKey, Run, NonceKey;
    var t := Thread(e, now, GetNonce);
    if ValidateEor(h, e, now).Some? {
      OverNow(h, s, tid, Thread(e, now, Done(Refused(ValidateEor(h, e, now).value))), rid, qid, 9);
    } else {
      assert StepArrive(h, s, tid, e, now) == With(s, tid, t);
      EarlyRun(h, s, tid, t, rid, qid, 9);
      if NonceKey(e) in s.nonces {
        OverNow(h, s, tid, Thread(e, now, Done(Refused(ReplayDetected))), rid, qid, 8);
      } else {
        EarlyRun(h, s, tid, t.(phase := PutNonce), rid, qid, 8);
        EarlyRun(h, Noted(s, e), tid, t.(phase := ReadAgent), rid, qid, 7);
        FromAgentRead(h, s, tid, e, now, rid, qid);
      }
    }
  }

  lemma FromAgentRead(h: Host, s: State, tid: nat, e: Eor, now: SafeInt, rid: string, qid: string)
    ensures var n := Noted(s, e); var s' := Run(h, With(n, tid, Thread(e, now, AfterReadAgent(n, e))), tid, rid, qid, 6);
            if Checked(h, s, e).Done? then s' == With(n, tid, Thread(e, now, Checked(h, s, e)))
            else Checked(h, s, e) == ReadHead && s' == Run(h, With(n, tid, Thread(e, now, ReadHead)), tid, rid, qid, 5)
  {
    hide Run, NonceKey;
    var n := Noted(s, e);
    var p := AfterReadAgent(n, e);
    assert p == AfterReadAgent(s, e);
    if p == ReadKey {
      EarlyRun(h, n, tid, Thread(e, now, ReadKey), rid, qid, 6);
      if Checked(h, s, e).Done? { OverNow(h, n, tid, Thread(e, now, Checked(h, s, e)), rid, qid, 5); }
    } else {
      OverNow(h, n, tid, Thread(e, now, p), rid, qid, 6);
    }
  }

  // ---- From the head read on ----

  /** Past the nonce for good. */
  predicate Late(p: Phase) {
    p.ReadHead? || p.PutPayload? || p.PutReceipt? || p.Commit? || p.Enqueue? || p.ReadWinner? || p.Done?
  }

  /** What the steps from the head read on leave alone. */
  ghost predicate Aside(s: State, s': State, tid: nat) {
    && s'.nonces == s.nonces && s'.agents == s.agents && s'.keys == s.keys && s'.epochs == s.epochs
    && s'.scheduler == s.scheduler && s'.threads.Keys == s.threads.Keys
    && forall u :: u in s.threads && u != tid ==> s'.threads[u] == s.threads[u]
  }

  lemma LateStep(h: Host, s: State, tid: nat, rid: string, qid: string)
    requires tid in s.threads && Late(s.threads[tid].phase)
    ensures var s' := StepThread(h, s, tid, rid, qid, true);
            Aside(s, s', tid) && tid in s'.threads && Late(s'.threads[tid].phase)
  {
    var t := s.threads[tid];
    LateNext(h, s, t, rid, qid);
    LateWrites(s, t, NextPhase(h, s, t, rid, qid, true));
    hide NextPhase, Written;
  }

  lemma LateNext(h: Host, s: State, t: Thread, rid: string, qid: string)
    requires Late(t.phase)
    ensures Late(NextPhase(h, s, t, rid, qid, true))
  {
    hide LatestOp, IdTaken, SeqTaken, ReceiptTaken, EorInput;
  }

  lemma LateWrites(s: State, t: Thread, next: Phase)
    requires Late(t.phase)
    ensures var w := Written(s, t, next);
            && w.nonces == s.nonces && w.agents == s.agents && w.keys == s.keys && w.epochs == s.epochs
            && w.scheduler == s.scheduler && w.threads == s.threads
  {
    hide RowOf, EorKey, EarKey;
  }

  lemma {:induction false} LateRun(h: Host, s: State, tid: nat, rid: string, qid: string, n: nat)
    requires tid in s.threads && Late(s.threads[tid].phase)
    ensures Aside(s, Run(h, s, tid, rid, qid, n), tid)
    decreases n
  {
    hide Run, StepThread;
    if n == 0 {
      RunNone(h, s, tid, rid, qid);
    } else {
      LateStep(h, s, tid, rid, qid);
      RunOne(h, s, tid, rid, qid, n);
      LateRun(h, StepThread(h, s, tid, rid, qid, true), tid, rid, qid, n - 1);
    }
  }

  // ---- The whole answer ----

  /** The submission handled from its arrival to its end. */
  function Handled(h: Host, s: State, tid: nat, e: Eor, now: SafeInt, rid: string, qid: string): State {
    Run(h, StepArrive(h, s, tid, e, now), tid, rid, qid, 9)
  }

  /** The signature is the agent's, who is active, under a key that is. */
  predicate Authentic(h: Host, s: State, e: Eor) {
    && Known(s, e) && s.agents[e.body.agentId].status == Active
    && Held(s, e) && s.keys[e.body.kid].status == KeyActive && h.verify(s.keys[e.body.kid].publicKey, e.signature, e.body)
  }

  lemma CheckedExactly(h: Host, s: State, e: Eor)
    ensures Checked(h, s, e).Done? || Checked(h, s, e) == ReadHead
    ensures Checked(h, s, e) == ReadHead <==> Authentic(h, s, e)
    ensures Checked(h, s, e) == ReadHead <==> AfterReadAgent(s, e) == ReadKey && AfterReadKey(h, s.keys, e) == ReadHead
  {
  }

  /** A valid, new and authentic record goes through to the head read and beyond. */
  lemma PassedEnds(h: Host, s: State, tid: nat, e: Eor, now: SafeInt, rid: string, qid: string)
    requires Core(h, s) && tid !in s.threads
    requires ValidateEor(h, e, now).None? && !Replayed(s, e) && Authentic(h, s, e)
    ensures var s' := Handled(h, s, tid, e, now, rid, qid);
            && Ends(h, s, s', tid, e, now, rid, qid)
            && Aside(With(Noted(s, e), tid, Thread(e, now, ReadHead)), s', tid)
  {
    hide Core, ValidateEor, Run, Ends, Aside, AfterReadAgent, AfterReadKey;
    CheckedExactly(h, s, e);
    SubmitAlone(h, s, tid, e, now, rid, qid);
    UpToChecks(h, s, tid, e, now, rid, qid);
    LateRun(h, With(Noted(s, e), tid, Thread(e, now, ReadHead)), tid, rid, qid, 5);
  }

  /**
    Which refusal a submission gets, by its fields and the tables: the replay when its
    organisation's nonce is in the cache, then the agent's standing, then the key's, then the
    signature. Nothing else is ever refused by a code.
  */
  lemma RefusedExactly(h: Host, s: State, tid: nat, e: Eor, now: SafeInt, rid: string, qid: string)
    requires Core(h, s) && tid !in s.threads
    ensures var s' := Handled(h, s, tid, e, now, rid, qid);
            var invalid := ValidateEor(h, e, now);
            var passed := invalid.None? && !Replayed(s, e);
            var active := passed && Known(s, e) && s.agents[e.body.agentId].status == Active;
            && tid in s'.threads && s'.threads[tid].eor == e && s'.threads[tid].phase.Done?
            && var o := s'.threads[tid].phase.outcome;
            && (invalid.Some? ==> o == Refused(invalid.value))
            && (o == Refused(ReplayDetected) <==> invalid.None? && Replayed(s, e))
            && (o == Refused(UnknownAgent) <==> passed && !Known(s, e))
            && (o == Refused(AgentFrozen) <==> passed && Known(s, e) && s.agents[e.body.agentId].status == Frozen)
            && (o == Refused(AgentRevoked) <==> passed && Known(s, e) && s.agents[e.body.agentId].status == Revoked)
            && (o == Refused(SigningKeyRevoked) <==> active && Held(s, e) && s.keys[e.body.kid].status == KeyRevoked)
            && (o == Refused(SigningKeyRetired) <==> active && Held(s, e) && s.keys[e.body.kid].status == KeyRetired)
            && (o == Refused(InvalidSignature) <==>
                  active && (!Held(s, e) || (s.keys[e.body.kid].status == KeyActive
                                             && !h.verify(s.keys[e.body.kid].publicKey, e.signature, e.body))))
            && (o.Refused? <==> !passed || !Authentic(h, s, e))
  {
    hide Core, Run, Ends, StepArrive;
    ValidationCodes(h, e, now);
    hide ValidateEor;
    UpToChecks(h, s, tid, e, now, rid, qid);
    CheckedExactly(h, s, e);
    if ValidateEor(h, e, now).None? && !Replayed(s, e) && Authentic(h, s, e) {
      PassedEnds(h, s, tid, e, now, rid, qid);
      EndsUnrefused(h, s, Handled(h, s, tid, e, now, rid, qid), tid, e, now, rid, qid);
    }
  }

  lemma EndsUnrefused(h: Host, s: State, s': State, tid: nat, e: Eor, now: SafeInt, rid: string, qid: string)
    requires Ends(h, s, s', tid, e, now, rid, qid)
    ensures tid in s'.threads && s'.threads[tid].eor == e && s'.threads[tid].phase.Done? && !s'.threads[tid].phase.outcome.Refused?
  {
    hide AgentChain, IdTaken, ReceiptTaken, RowOf, EorInput, EorKey, EarKey;
  }

  /** No row has the operation id, and no receipt the receipt id. */
  ghost predicate IdsNew(s: State, e: Eor, rid: string) {
    && (forall r :: r in s.ops ==> r.operationId != e.body.operationId)
    && (forall r :: r in s.receipts ==> r.receiptId != rid)
  }

  lemma IdsNewExactly(h: Host, s: State, e: Eor, rid: string)
    requires Core(h, s)
    ensures IdsNew(s, e, rid) <==> !IdTaken(s.ops, e.body.operationId) && !ReceiptTaken(s.receipts, rid, e.body.operationId)
  {
    hide ChainOk, ThreadsOk;
    if ReceiptTaken(s.receipts, rid, e.body.operationId) {
      var i :| 0 <= i < |s.receipts| && (s.receipts[i].receiptId == rid || s.receipts[i].operationId == e.body.operationId);
      assert s.ops[i] in s.ops && s.receipts[i] in s.receipts;
    }
  }

  /** And an authentic record is answered by its predecessor and its ids. */
  lemma DecidedExactly(h: Host, s: State, tid: nat, e: Eor, now: SafeInt, rid: string, qid: string)
    requires Core(h, s) && tid !in s.threads
    requires ValidateEor(h, e, now).None? && !Replayed(s, e) && Authentic(h, s, e)
    ensures var s' := Handled(h, s, tid, e, now, rid, qid);
            var head := Head(AgentChain(s.ops, e.body.agentId));
            && tid in s'.threads && s'.threads[tid].phase.Done?
            && var o := s'.threads[tid].phase.outcome;
            && (o.PrevHashMismatch? <==> e.body.prevChainHash != head)
            && (o.PrevHashMismatch? ==> o == PrevHashMismatch(head, e.body.prevChainHash))
            && (o.Accepted? <==> e.body.prevChainHash == head && IdsNew(s, e, rid))
            && (o == Failed <==> e.body.prevChainHash == head && !IdsNew(s, e, rid))
  {
    hide Core, Run, StepArrive, ValidateEor, AgentChain, StoredBy, CommittedRow, OwnReceipt, Aside, Authentic, Replayed, IdsNew;
    IdsNewExactly(h, s, e, rid);
    PassedEnds(h, s, tid, e, now, rid, qid);
  }

  /** The receipt that goes with the row, hashed and signed by the server. */
  predicate ReceiptFor(h: Host, ear: Ear, r: Row, rid: string, qid: string) {
    && ear.fields.version == "1.0" && ear.fields.receiptId == rid && ear.fields.queueMessageId == qid
    && ear.fields.operationId == r.operationId && ear.fields.orgId == r.orgId && ear.fields.agentId == r.agentId
    && ear.fields.serverReceivedAt == r.createdAt && ear.fields.seqNo == r.seqNo && ear.fields.chainHash == r.chainHash
    && ear.receiptHash == h.receiptHash(ear.fields) && ear.signature == h.signReceipt(ear.receiptHash)
  }

  /** An accepted record's row at the end of its chain, its receipt, and the two objects that hold them. */
  ghost predicate Leaves(h: Host, s: State, s': State, e: Eor, now: SafeInt, rid: string, qid: string, ear: Ear) {
    var owner := e.body.orgId + "/" + e.body.agentId + "/";
    var payloadKey, receiptKey := owner + e.body.operationId, owner + "receipts/" + e.body.operationId;
    && |s'.ops| == |s.ops| + 1 && s.ops <= s'.ops
    && var r := s'.ops[|s.ops|];
    && MadeFrom(r, e, now) && r.seqNo == |AgentChain(s.ops, e.body.agentId)| + 1
    && r.chainHash == h.sha(e.body.prevChainHash + "|" + e.body.payloadHash + "|" + e.body.operationId + "|" + Decimal(e.body.issuedAt))
    && ReceiptFor(h, ear, r, rid, qid)
    && s'.receipts == s.receipts + [ReceiptRow(rid, e.body.operationId, receiptKey)]
    && s'.objects == s.objects[payloadKey := Evidence(e)][receiptKey := ReceiptDoc(ear)]
  }

  lemma AcceptedLeaves(h: Host, s: State, tid: nat, e: Eor, now: SafeInt, rid: string, qid: string)
    requires Core(h, s) && tid !in s.threads
    requires ValidateEor(h, e, now).None? && !Replayed(s, e) && Authentic(h, s, e)
    requires e.body.prevChainHash == Head(AgentChain(s.ops, e.body.agentId)) && IdsNew(s, e, rid)
    ensures var s' := Handled(h, s, tid, e, now, rid, qid);
            && tid in s'.threads && s'.threads[tid].phase.Done? && s'.threads[tid].phase.outcome.Accepted?
            && Leaves(h, s, s', e, now, rid, qid, s'.threads[tid].phase.outcome.receipt)
  {
    hide Core, Run, StepArrive, ValidateEor, AgentChain, Aside, Authentic, Replayed, IdsNew;
    IdsNewExactly(h, s, e, rid);
    PassedEnds(h, s, tid, e, now, rid, qid);
    LeavesText(h, e);
  }

  lemma LeavesText(h: Host, e: Eor)
    ensures ReceiptKey(e.body.orgId, e.body.agentId, e.body.operationId)
         == e.body.orgId + "/" + e.body.agentId + "/" + "receipts/" + e.body.operationId
    ensures PayloadKey(e.body.orgId, e.body.agentId, e.body.operationId)
         == e.body.orgId + "/" + e.body.agentId + "/" + e.body.operationId
  {
  }

  /**
    What a submission changes at all: its nonce, from when it is valid; the tables, when it is
    accepted; the objects, when it comes as far as its predecessor being the head. Every other
    table and every other submission is as it was.
  */
  lemma TouchesExactly(h: Host, s: State, tid: nat, e: Eor, now: SafeInt, rid: string, qid: string)
    requires Core(h, s) && tid !in s.threads
    ensures var s' := Handled(h, s, tid, e, now, rid, qid);
            && s'.nonces == s.nonces + (if ValidateEor(h, e, now).None? then {"nonce:" + e.body.orgId + ":" + e.body.nonce} else {})
            && s'.agents == s.agents && s'.keys == s.keys && s'.epochs == s.epochs && s'.scheduler == s.scheduler
            && s'.threads.Keys == s.threads.Keys + {tid}
            && (forall u :: u in s.threads ==> s'.threads[u] == s.threads[u]) && s'.threads[tid].phase.Done?
            && (!s'.threads[tid].phase.outcome.Accepted? ==> s'.ops == s.ops && s'.receipts == s.receipts)
            && (s'.threads[tid].phase.outcome.Refused? || s'.threads[tid].phase.outcome.PrevHashMismatch? ==> s'.objects == s.objects)
  {
    hide Core, Run, StepArrive, ValidateEor, AgentChain, Ends, Authentic;
    RefusedExactly(h, s, tid, e, now, rid, qid);
    UpToChecks(h, s, tid, e, now, rid, qid);
    CheckedExactly(h, s, e);
    if ValidateEor(h, e, now).None? && !Replayed(s, e) && Authentic(h, s, e) {
      PassedEnds(h, s, tid, e, now, rid, qid);
      EndsTouches(h, s, Handled(h, s, tid, e, now, rid, qid), tid, e, now, rid, qid);
    }
  }

  lemma EndsTouches(h: Host, s: State, s': State, tid: nat, e: Eor, now: SafeInt, rid: string, qid: string)
    requires Ends(h, s, s', tid, e, now, rid, qid)
    ensures !s'.threads[tid].phase.outcome.Accepted? ==> s'.ops == s.ops && s'.receipts == s.receipts
    ensures s'.threads[tid].phase.outcome.PrevHashMismatch? ==> s'.objects == s.objects
  {
    hide AgentChain, IdTaken, ReceiptTaken, RowOf, EorInput, EorKey, EarKey;
  }

  // ---- The end of a submission among others ----

  /**
    The commit, whatever has happened since the head was read: late exactly when the chain has
    got that far already, a row of its own fields when neither number nor ids are taken.
  */
  lemma CommitExactly(h: Host, s: State, tid: nat, rid: string, qid: string, pk: bool)
    requires Core(h, s) && tid in s.threads && s.threads[tid].phase.Commit?
    ensures var t := s.threads[tid]; var ear := t.phase.ear; var s' := StepThread(h, s, tid, rid, qid, pk);
            var late := ear.fields.seqNo <= |AgentChain(s.ops, t.eor.body.agentId)|;
            var repeated := exists r :: r in s.ops && r.operationId == t.eor.body.operationId;
            var receiptTaken := exists r :: r in s.receipts && r.receiptId == ear.fields.receiptId;
            && tid in s'.threads && s'.threads[tid].eor == t.eor
            && s'.threads[tid].phase == (if repeated && (pk || !late) then Done(Failed)
                                         else if late then ReadWinner(ear.fields.seqNo)
                                         else if receiptTaken then Done(Failed)
                                         else Enqueue(ear))
            && (!s'.threads[tid].phase.Enqueue? ==> s'.ops == s.ops)
            && (s'.threads[tid].phase.Enqueue? ==>
                  |s'.ops| == |s.ops| + 1 && s.ops <= s'.ops && MadeFrom(s'.ops[|s.ops|], t.eor, t.receivedAt)
                  && s'.ops[|s.ops|].seqNo == ear.fields.seqNo == |AgentChain(s.ops, t.eor.body.agentId)| + 1)
  {
    var t := s.threads[tid];
    assert ThreadOk(h, s.keys, s.ops, t);
    SeqTakenExactly(h, s.ops, t.eor.body.agentId, t.phase.ear.fields.seqNo);
    IdsNewExactly(h, s, t.eor, t.phase.ear.fields.receiptId);
    IdTakenExactly(s.ops, t.eor.body.operationId);
    LeavesText(h, t.eor);
    CommitAnswers(s, t.eor, t.phase.ear, pk);
    hide ChainOk, TablesOk, ThreadsOk, ThreadOk, AgentChain, IdTaken, SeqTaken, ReceiptTaken, EorInput, EarMatches, AfterCommit;
  }

  /** Which of the constraints that a batch meets is the one it fails on. */
  lemma CommitAnswers(s: State, e: Eor, ear: Ear, pk: bool)
    ensures var repeated, late := IdTaken(s.ops, e.body.operationId), SeqTaken(s.ops, e.body.agentId, ear.fields.seqNo);
            && (AfterCommit(s, e, ear, pk) == ReadWinner(ear.fields.seqNo) <==> late && !(repeated && pk))
            && (AfterCommit(s, e, ear, pk) == Enqueue(ear) <==>
                  !repeated && !late && !ReceiptTaken(s.receipts, ear.fields.receiptId, e.body.operationId))
            && (AfterCommit(s, e, ear, pk) == Done(Failed) <==>
                  || (repeated && (pk || !late))
                  || (!late && ReceiptTaken(s.receipts, ear.fields.receiptId, e.body.operationId)))
  {
    hide IdTaken, SeqTaken, ReceiptTaken;
  }

  lemma IdTakenExactly(ops: seq<Row>, operationId: string)
    ensures IdTaken(ops, operationId) <==> exists r :: r in ops && r.operationId == operationId
  {
    if r :| r in ops && r.operationId == operationId {
      var i :| 0 <= i < |ops| && ops[i] == r;
    }
  }

  /** A lost race is always answered with the head of the chain as it now is, which is not the one the record names. */
  lemma LostRaceExactly(h: Host, s: State, tid: nat, rid: string, qid: string, pk: bool)
    requires Core(h, s) && tid in s.threads && s.threads[tid].phase.ReadWinner?
    ensures var b := s.threads[tid].eor.body; var s' := StepThread(h, s, tid, rid, qid, pk);
            && s'.ops == s.ops && tid in s'.threads
            && s'.threads[tid].phase == Done(PrevHashMismatch(Head(AgentChain(s.ops, b.agentId)), b.prevChainHash))
            && AgentChain(s.ops, b.agentId) != []
    ensures ChainTrusted(h, s.ops, s.threads[tid].eor.body.agentId) ==>
              Head(AgentChain(s.ops, s.threads[tid].eor.body.agentId)) != s.threads[tid].eor.body.prevChainHash
  {
    hide Core, AgentChain, ChainTrusted, StepThread;
    WinnerStep(h, s, tid, rid, qid, pk);
    if ChainTrusted(h, s.ops, s.threads[tid].eor.body.agentId) { HeadHasMoved(h, s, tid); }
  }

  lemma WinnerStep(h: Host, s: State, tid: nat, rid: string, qid: string, pk: bool)
    requires Core(h, s) && tid in s.threads && s.threads[tid].phase.ReadWinner?
    ensures var b := s.threads[tid].eor.body; var s' := StepThread(h, s, tid, rid, qid, pk);
            && s'.ops == s.ops && tid in s'.threads
            && s'.threads[tid].phase == Done(PrevHashMismatch(Head(AgentChain(s.ops, b.agentId)), b.prevChainHash))
            && AgentChain(s.ops, b.agentId) != []
  {
    hide ChainOk, TablesOk, LatestOp, AgentChain;
    var t := s.threads[tid];
    assert ThreadOk(h, s.keys, s.ops, t);
    LatestIsHead(h, s.ops, t.eor.body.agentId);
    hide ThreadsOk, ThreadOk;
  }

  /** The record's predecessor is the hash after fewer operations than there are. */
  lemma HeadHasMoved(h: Host, s: State, tid: nat)
    requires Core(h, s) && tid in s.threads && s.threads[tid].phase.ReadWinner?
    requires ChainTrusted(h, s.ops, s.threads[tid].eor.body.agentId)
    ensures Head(AgentChain(s.ops, s.threads[tid].eor.body.agentId)) != s.threads[tid].eor.body.prevChainHash
  {
    hide ChainOk, TablesOk, AgentChain, ChainTrusted;
    var t := s.threads[tid];
    assert ThreadOk(h, s.keys, s.ops, t);
    hide ThreadsOk, ThreadOk;
    SeenIsNotHead(h, s.ops, t.eor.body.agentId, t.phase.seqNo);
  }

  lemma SeenIsNotHead(h: Host, ops: seq<Row>, agentId: string, n: int)
    requires ChainOk(h, ops) && ChainTrusted(h, ops, agentId) && 1 <= n <= |AgentChain(ops, agentId)|
    ensures Head(AgentChain(ops, agentId)[..n - 1]) != Head(AgentChain(ops, agentId))
  {
    TrustedChain(h, ops, agentId);
    hide ChainOk, ChainTrusted, AgentChain, Trusted, Head;
    var chain := AgentChain(ops, agentId);
    assert chain[..|chain|] == chain;
    if Head(chain[..n - 1]) == Head(chain) { HeadsDistinct(h.sha, chain, n - 1, |chain|); }
  }

  // ---- Freezing and revoking take effect ----

  /** From when its agent is frozen until it is unfrozen, a new record that passes the earlier checks is refused for that. */
  lemma FrozenIsRefused(h: Host, s: State, run: seq<Label>, tid: nat, e: Eor, now: SafeInt, rid: string, qid: string)
    requires Core(h, s) && Known(s, e) && s.agents[e.body.agentId].status != Revoked
    requires run != [] && run[0] == Freeze(e.body.agentId) && Unfreeze(e.body.agentId) !in run
    requires var later := Exec(h, s, run); tid !in later.threads && ValidateEor(h, e, now).None? && !Replayed(later, e)
    ensures var s' := Handled(h, Exec(h, s, run), tid, e, now, rid, qid);
            tid in s'.threads && s'.threads[tid].phase == Done(Refused(AgentFrozen))
  {
    hide Core, Step, ValidateEor, Handled, Replayed, Exec;
    FrozenUntilUnfrozen(h, s, run, e.body.agentId);
    RunKeepsCore(h, s, run);
    RefusedExactly(h, Exec(h, s, run), tid, e, now, rid, qid);
  }

  /** From when a key is revoked, a new record under it by its active agent is refused for that. */
  lemma RevokedKeyIsRefused(h: Host, s: State, run: seq<Label>, tid: nat, e: Eor, now: SafeInt, rid: string, qid: string)
    requires Core(h, s) && Held(s, e) && run != [] && run[0] == RevokeKey(e.body.kid)
    requires var later := Exec(h, s, run);
             && tid !in later.threads && ValidateEor(h, e, now).None? && !Replayed(later, e)
             && Known(later, e) && later.agents[e.body.agentId].status == Active
    ensures var s' := Handled(h, Exec(h, s, run), tid, e, now, rid, qid);
            tid in s'.threads && s'.threads[tid].phase == Done(Refused(SigningKeyRevoked))
  {
    hide Core, Step, ValidateEor, Handled, Replayed, Exec;
    RevokedForGood(h, s, run, e.body.kid);
    RunKeepsCore(h, s, run);
    RefusedExactly(h, Exec(h, s, run), tid, e, now, rid, qid);
  }

  /**
    Over every run: a submission that has been accepted has its row in the table, made of its
    own fields, and was given the row's receipt, with the hash of the receipt's own fields and
    the server's signature over that hash.
  */
  lemma AcceptedEverywhere(h: Host, run: seq<Label>, tid: nat)
    returns (r: Row)
    requires var s := Exec(h, Initial, run);
             tid in s.threads && s.threads[tid].phase.Done? && s.threads[tid].phase.outcome.Accepted?
    ensures var s := Exec(h, Initial, run); var t := s.threads[tid]; var ear := t.phase.outcome.receipt;
            && r in s.ops && MadeFrom(r, t.eor, t.receivedAt) && r.chainHash == h.sha(EorInput(t.eor))
            && ReceiptFor(h, ear, r, ear.fields.receiptId, ear.fields.queueMessageId)
  {
    InitialCore(h);
    RunKeepsCore(h, Initial, run);
    var s := Exec(h, Initial, run);
    var t := s.threads[tid];
    hide Exec;
    assert ThreadOk(h, s.keys, s.ops, t);
    r := OwnRow(t, t.phase.outcome.receipt);
    hide ChainOk, TablesOk;
  }
}
