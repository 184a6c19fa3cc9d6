/** One submission run to its end without interference, and where committed rows come from. */
module ServerSubmit {
  import opened Text
  import opened Chain
  import opened Server
  import opened ServerInvariants
  import M = Merkle

  // ---- A submission on its own ----

  function Advances(tid: nat, rid: string, qid: string, n: nat): seq<Label> {
    if n == 0 then [] else [Advance(tid, rid, qid, true)] + Advances(tid, rid, qid, n - 1)
  }

  /** The submission's next n steps, nobody else moving. */
  function Run(h: Host, s: State, tid: nat, rid: string, qid: string, n: nat): State {
    Exec(h, s, Advances(tid, rid, qid, n))
  }

  lemma RunOne(h: Host, s: State, tid: nat, rid: string, qid: string, n: nat)
    requires tid in s.threads && n > 0
    ensures Run(h, s, tid, rid, qid, n) == Run(h, StepThread(h, s, tid, rid, qid, true), tid, rid, qid, n - 1)
  {
    hide StepThread;
    assert Advances(tid, rid, qid, n)[1..] == Advances(tid, rid, qid, n - 1);
  }

  lemma {:induction false} DoneStays(h: Host, s: State, tid: nat, rid: string, qid: string, n: nat)
    requires tid in s.threads && s.threads[tid].phase.Done?
    ensures Run(h, s, tid, rid, qid, n) == s
  {
    if n > 0 {
      RunOne(h, s, tid, rid, qid, n);
      assert StepThread(h, s, tid, rid, qid, true).threads == s.threads;
      DoneStays(h, s, tid, rid, qid, n - 1);
    }
  }

  lemma LoneKeepsCore(h: Host, s: State, tid: nat, rid: string, qid: string, n: nat)
    requires Core(h, s)
    ensures Core(h, Run(h, s, tid, rid, qid, n))
  {
    hide Core, Advances;
    RunKeepsCore(h, s, Advances(tid, rid, qid, n));
  }

  /** What a submission's head, id and receipt id must meet, the earlier checks having passed. */
  ghost predicate Insertable(s: State, e: Eor, rid: string) {
    && AtOwnHead(s, e)
    && !IdTaken(s.ops, e.body.operationId) && !ReceiptTaken(s.receipts, rid, e.body.operationId)
  }

  /** What is asked of it before the head is read. */
  ghost predicate Admissible(h: Host, s: State, e: Eor, now: SafeInt) {
    && ValidateEor(h, e, now).None? && NonceKey(e) !in s.nonces
    && AfterReadAgent(s, e) == ReadKey && AfterReadKey(h, s.keys, e) == ReadHead
  }

  function CommittedRow(h: Host, s: State, e: Eor, now: SafeInt): Row {
    RowOf(e, |AgentChain(s.ops, e.body.agentId)| + 1, h.sha(EorInput(e)), now)
  }

  function OwnReceipt(h: Host, s: State, e: Eor, now: SafeInt, rid: string, qid: string): Ear {
    EarOf(h, e, |AgentChain(s.ops, e.body.agentId)| + 1, h.sha(EorInput(e)), now, rid, qid)
  }

  predicate AtOwnHead(s: State, e: Eor) { e.body.prevChainHash == Head(AgentChain(s.ops, e.body.agentId)) }

  ghost function LoneOutcome(h: Host, s: State, e: Eor, now: SafeInt, rid: string, qid: string): Outcome {
    if !AtOwnHead(s, e) then PrevHashMismatch(Head(AgentChain(s.ops, e.body.agentId)), e.body.prevChainHash)
    else if Insertable(s, e, rid) then Accepted(OwnReceipt(h, s, e, now, rid, qid))
    else Failed
  }

  function OwnReceiptRow(e: Eor, rid: string): ReceiptRow {
    ReceiptRow(rid, e.body.operationId, ReceiptKey(e.body.orgId, e.body.agentId, e.body.operationId))
  }

  /** Record and receipt are stored before the commit, whether or not it goes through. */
  function StoredBy(h: Host, s: State, e: Eor, now: SafeInt, rid: string, qid: string): map<string, StoredObject> {
    var ear := OwnReceipt(h, s, e, now, rid, qid);
    if AtOwnHead(s, e) then s.objects[EorKey(e) := Evidence(e)][EarKey(ear.fields) := ReceiptDoc(ear)] else s.objects
  }

  ghost predicate Ends(h: Host, s: State, s': State, tid: nat, e: Eor, now: SafeInt, rid: string, qid: string) {
    var outcome := LoneOutcome(h, s, e, now, rid, qid);
    && tid in s'.threads && s'.threads[tid] == Thread(e, now, Done(outcome))
    && s'.ops == (if outcome.Accepted? then s.ops + [CommittedRow(h, s, e, now)] else s.ops)
    && s'.receipts == (if outcome.Accepted? then s.receipts + [OwnReceiptRow(e, rid)] else s.receipts)
    && s'.objects == StoredBy(h, s, e, now, rid, qid)
  }

  lemma CommitStep(h: Host, s: State, tid: nat, rid: string, qid: string)
    requires Core(h, s) && tid in s.threads && s.threads[tid].phase.Commit?
    requires var t := s.threads[tid];
             t.phase.ear.fields.seqNo == |AgentChain(s.ops, t.eor.body.agentId)| + 1
    ensures var t := s.threads[tid]; var ear := t.phase.ear;
            AfterCommit(s, t.eor, ear, true)
              == if IdTaken(s.ops, t.eor.body.operationId) then Done(Failed)
                 else if ReceiptTaken(s.receipts, ear.fields.receiptId, t.eor.body.operationId) then Done(Failed)
                 else Enqueue(ear)
  {
    var t := s.threads[tid];
    SeqTakenExactly(h, s.ops, t.eor.body.agentId, t.phase.ear.fields.seqNo);
    hide IdTaken, ReceiptTaken, SeqTaken;
  }

  ghost predicate CommitEnds(h: Host, s: State, s': State, tid: nat, t: Thread, ear: Ear) {
    var done := !IdTaken(s.ops, t.eor.body.operationId) && !ReceiptTaken(s.receipts, ear.fields.receiptId, t.eor.body.operationId);
    && tid in s'.threads && s'.objects == s.objects
    && s'.threads[tid] == t.(phase := Done(if done then Accepted(ear) else Failed))
    && s'.ops == (if done then s.ops + [CommittedRow(h, s, t.eor, t.receivedAt)] else s.ops)
    && s'.receipts == (if done then s.receipts + [OwnReceiptRow(t.eor, ear.fields.receiptId)] else s.receipts)
  }

  /** The thread's ear, made at the head of the chain as it still is. */
  ghost predicate AtHead(h: Host, s: State, t: Thread) {
    && t.phase.Commit?
    && t.phase.ear.fields.seqNo == |AgentChain(s.ops, t.eor.body.agentId)| + 1
    && t.phase.ear.fields.chainHash == h.sha(EorInput(t.eor))
    && EarKey(t.phase.ear.fields) == ReceiptKey(t.eor.body.orgId, t.eor.body.agentId, t.eor.body.operationId)
  }

  /** The commit itself: both inserts, or the submission is over and nothing is written. */
  lemma CommitAlone(h: Host, s: State, tid: nat, rid: string, qid: string)
    requires Core(h, s) && tid in s.threads && AtHead(h, s, s.threads[tid])
    ensures var t := s.threads[tid]; var s1 := StepThread(h, s, tid, rid, qid, true);
            && tid in s1.threads && s1.threads[tid].eor == t.eor && s1.threads[tid].receivedAt == t.receivedAt
            && s1.objects == s.objects
            && if !IdTaken(s.ops, t.eor.body.operationId) && !ReceiptTaken(s.receipts, t.phase.ear.fields.receiptId, t.eor.body.operationId)
               then && s1.threads[tid].phase == Enqueue(t.phase.ear) && s1.ops == s.ops + [CommittedRow(h, s, t.eor, t.receivedAt)]
                    && s1.receipts == s.receipts + [OwnReceiptRow(t.eor, t.phase.ear.fields.receiptId)]
               else s1.threads[tid].phase == Done(Failed) && s1.ops == s.ops && s1.receipts == s.receipts
  {
    CommitStep(h, s, tid, rid, qid);
    hide Core, IdTaken, ReceiptTaken, RowOf, AgentChain, AfterCommit, EorInput, EarKey;
  }

  lemma FromCommit(h: Host, s: State, tid: nat, rid: string, qid: string)
    requires Core(h, s) && tid in s.threads && AtHead(h, s, s.threads[tid])
    ensures CommitEnds(h, s, Run(h, s, tid, rid, qid, 2), tid, s.threads[tid], s.threads[tid].phase.ear)
  {
    CommitAlone(h, s, tid, rid, qid);
    var s1 := StepThread(h, s, tid, rid, qid, true);
    RunOne(h, s, tid, rid, qid, 2);
    hide Core, IdTaken, ReceiptTaken, CommittedRow, AtHead, Run, StepThread;
    if s1.threads[tid].phase.Done? {
      DoneStays(h, s1, tid, rid, qid, 1);
    } else {
      RunOne(h, s1, tid, rid, qid, 1);
      EnqueueEnds(h, s1, tid, rid, qid);
      RunNone(h, StepThread(h, s1, tid, rid, qid, true), tid, rid, qid);
    }
  }

  lemma EnqueueEnds(h: Host, s: State, tid: nat, rid: string, qid: string)
    requires tid in s.threads && s.threads[tid].phase.Enqueue?
    ensures var s' := StepThread(h, s, tid, rid, qid, true);
            s' == s.(threads := s.threads[tid := s.threads[tid].(phase := Done(Accepted(s.threads[tid].phase.ear)))])
  {
  }

  lemma AdvanceKeepsCore(h: Host, s: State, tid: nat, rid: string, qid: string)
    requires Core(h, s) && tid in s.threads
    ensures Core(h, StepThread(h, s, tid, rid, qid, true))
  {
    hide Core, StepThread;
    StepKeepsCore(h, s, Advance(tid, rid, qid, true));
  }

  /** The two puts: the record first, then the receipt under a key that is always longer. */
  lemma PutSteps(h: Host, s: State, tid: nat, rid: string, qid: string)
    requires tid in s.threads
    requires var t := s.threads[tid];
             t.phase == PutPayload(|AgentChain(s.ops, t.eor.body.agentId)| + 1, h.sha(EorInput(t.eor)))
    ensures var t := s.threads[tid];
            var s1 := StepThread(h, s, tid, rid, qid, true);
            var ear := OwnReceipt(h, s, t.eor, t.receivedAt, rid, qid);
            && tid in s1.threads
            && var s2 := StepThread(h, s1, tid, rid, qid, true);
            && s2.objects == s.objects[EorKey(t.eor) := Evidence(t.eor)][EarKey(ear.fields) := ReceiptDoc(ear)]
            && s2.ops == s.ops && s2.receipts == s.receipts
            && tid in s2.threads && s2.threads[tid] == t.(phase := Commit(ear))
  {
    hide AgentChain, EorInput;
  }

  lemma FromPutPayload(h: Host, s: State, tid: nat, rid: string, qid: string)
    requires Core(h, s) && tid in s.threads && AtOwnHead(s, s.threads[tid].eor)
    requires var t := s.threads[tid];
             t.phase == PutPayload(|AgentChain(s.ops, t.eor.body.agentId)| + 1, h.sha(EorInput(t.eor)))
    ensures var t := s.threads[tid];
            Ends(h, s, Run(h, s, tid, rid, qid, 4), tid, t.eor, t.receivedAt, rid, qid)
  {
    var t := s.threads[tid];
    var s1 := StepThread(h, s, tid, rid, qid, true);
    PutSteps(h, s, tid, rid, qid);
    var s2 := StepThread(h, s1, tid, rid, qid, true);
    AdvanceKeepsCore(h, s, tid, rid, qid);
    AdvanceKeepsCore(h, s1, tid, rid, qid);
    RunOne(h, s, tid, rid, qid, 4);
    RunOne(h, s1, tid, rid, qid, 3);
    hide StepThread, Core, AgentChain, Run, EorInput, EorKey, EarKey, Ends, CommitEnds;
    FromCommit(h, s2, tid, rid, qid);
    EndsFromCommit(h, s, s2, Run(h, s2, tid, rid, qid, 2), tid, t, rid, qid);
  }

  lemma EndsFromCommit(h: Host, s: State, s2: State, s': State, tid: nat, t: Thread, rid: string, qid: string)
    requires AtOwnHead(s, t.eor) && s2.ops == s.ops && s2.receipts == s.receipts
    requires var ear := OwnReceipt(h, s, t.eor, t.receivedAt, rid, qid);
             && s2.objects == s.objects[EorKey(t.eor) := Evidence(t.eor)][EarKey(ear.fields) := ReceiptDoc(ear)]
             && CommitEnds(h, s2, s', tid, t.(phase := Commit(ear)), ear)
    ensures Ends(h, s, s', tid, t.eor, t.receivedAt, rid, qid)
  {
    hide AgentChain, IdTaken, ReceiptTaken, RowOf, EorInput, EorKey, EarKey;
  }

  /** The head read decides: a wrong predecessor ends the submission, the right one goes on. */
  lemma ReadHeadStep(h: Host, s: State, tid: nat, rid: string, qid: string)
    requires Core(h, s) && tid in s.threads && s.threads[tid].phase == ReadHead
    ensures var t := s.threads[tid]; var s1 := StepThread(h, s, tid, rid, qid, true);
            var chain := AgentChain(s.ops, t.eor.body.agentId);
            && s1 == s.(threads := s.threads[tid := t.(phase := s1.threads[tid].phase)])
            && s1.threads[tid].phase
               == if t.eor.body.prevChainHash != Head(chain) then Done(PrevHashMismatch(Head(chain), t.eor.body.prevChainHash))
                  else PutPayload(|chain| + 1, h.sha(EorInput(t.eor)))
  {
    LatestIsHead(h, s.ops, s.threads[tid].eor.body.agentId);
    hide Core, AgentChain, EorInput, LatestOp;
  }

  lemma FromReadHead(h: Host, s: State, tid: nat, rid: string, qid: string)
    requires Core(h, s) && tid in s.threads && s.threads[tid].phase == ReadHead
    ensures var t := s.threads[tid];
            Ends(h, s, Run(h, s, tid, rid, qid, 5), tid, t.eor, t.receivedAt, rid, qid)
  {
    hide Core, IdTaken, ReceiptTaken, CommittedRow, OwnReceipt, AgentChain, Run, EorInput, StepThread;
    var t := s.threads[tid];
    ReadHeadStep(h, s, tid, rid, qid);
    var s1 := StepThread(h, s, tid, rid, qid, true);
    AdvanceKeepsCore(h, s, tid, rid, qid);
    RunOne(h, s, tid, rid, qid, 5);
    if s1.threads[tid].phase.Done? {
      DoneStays(h, s1, tid, rid, qid, 4);
    } else {
      hide Ends;
      FromPutPayload(h, s1, tid, rid, qid);
      EndsFrame(h, s1, s, Run(h, s1, tid, rid, qid, 4), tid, t.eor, t.receivedAt, rid, qid);
    }
  }

  /** Validation has codes of its own. */
  lemma ValidationCodes(h: Host, e: Eor, at: int)
    ensures ValidateEor(h, e, at).Some? ==> ValidateEor(h, e, at).value in {ValidationError, TtlExpired, PayloadTooLarge}
  {
    hide Blank;
  }

  /** Up to the head read a submission only stores its nonce. */
  lemma UpToReadHead(h: Host, s: State, tid: nat, e: Eor, now: SafeInt, rid: string, qid: string)
    requires Core(h, s) && tid !in s.threads && Admissible(h, s, e, now)
    ensures var s1 := StepArrive(h, s, tid, e, now);
            var s2 := Run(h, s1, tid, rid, qid, 4);
            && tid in s2.threads && s2.threads[tid] == Thread(e, now, ReadHead)
            && s2.ops == s.ops && s2.receipts == s.receipts && s2.objects == s.objects && Core(h, s2)
            && forall n: nat :: n >= 4 ==> Run(h, s1, tid, rid, qid, n) == Run(h, s2, tid, rid, qid, n - 4)
  {
    hide Core, AgentChain, Advances, Exec, ValidateEor, FindAgent, FindKey, AfterReadAgent, AfterReadKey;
    var s1 := StepArrive(h, s, tid, e, now);
    assert s1 == Step(h, s, Arrive(tid, e, now));
    StepKeepsCore(h, s, Arrive(tid, e, now));
    var a := StepThread(h, s1, tid, rid, qid, true);
    var b := StepThread(h, a, tid, rid, qid, true);
    assert AfterReadAgent(b, e) == AfterReadAgent(s, e) by { ReadsSameAgent(b, s, e); }
    var c := StepThread(h, b, tid, rid, qid, true);
    var d := StepThread(h, c, tid, rid, qid, true);
    AdvanceKeepsCore(h, s1, tid, rid, qid);
    AdvanceKeepsCore(h, a, tid, rid, qid);
    AdvanceKeepsCore(h, b, tid, rid, qid);
    AdvanceKeepsCore(h, c, tid, rid, qid);
    forall n: nat | n >= 4 ensures Run(h, s1, tid, rid, qid, n) == Run(h, d, tid, rid, qid, n - 4) {
      RunOne(h, s1, tid, rid, qid, n);
      RunOne(h, a, tid, rid, qid, n - 1);
      RunOne(h, b, tid, rid, qid, n - 2);
      RunOne(h, c, tid, rid, qid, n - 3);
    }
    RunNone(h, d, tid, rid, qid);
  }

  lemma RunNone(h: Host, s: State, tid: nat, rid: string, qid: string)
    ensures Run(h, s, tid, rid, qid, 0) == s
  {
  }

  lemma ReadsSameAgent(a: State, b: State, e: Eor)
    requires a.agents == b.agents
    ensures AfterReadAgent(a, e) == AfterReadAgent(b, e)
  {
  }

  /**
    The sequential meaning of a submission that passes the first checks, whatever its ids: it
    is accepted exactly when it names the current head and its ids are new; then one row is
    appended at the end of the agent's chain, otherwise the table is as it was. A wrong
    predecessor is answered with the current head and leaves the objects as they were; the
    right one stores record and receipt.
  */
  lemma SubmitAlone(h: Host, s: State, tid: nat, e: Eor, now: SafeInt, rid: string, qid: string)
    requires Core(h, s) && tid !in s.threads && Admissible(h, s, e, now)
    ensures Ends(h, s, Run(h, StepArrive(h, s, tid, e, now), tid, rid, qid, 9), tid, e, now, rid, qid)
  {
    hide Core, Ends, Run, StepArrive, Admissible;
    UpToReadHead(h, s, tid, e, now, rid, qid);
    var s1 := StepArrive(h, s, tid, e, now);
    var s2 := Run(h, s1, tid, rid, qid, 4);
    FromReadHead(h, s2, tid, rid, qid);
    assert Run(h, s1, tid, rid, qid, 9) == Run(h, s2, tid, rid, qid, 5);
    EndsFrame(h, s2, s, Run(h, s2, tid, rid, qid, 5), tid, e, now, rid, qid);
  }

  /** What a lone run leaves alone besides. */
  ghost predicate Around(s: State, s': State, nonce: string) {
    && s'.agents == s.agents && s'.keys == s.keys && s'.nonces <= s.nonces + {nonce}
    && s.ops <= s'.ops && (s'.ops == s.ops ==> s'.receipts == s.receipts)
  }

  lemma {:induction false} RunAround(h: Host, s: State, tid: nat, rid: string, qid: string, n: nat)
    requires tid in s.threads
    ensures var s' := Run(h, s, tid, rid, qid, n);
            Around(s, s', NonceKey(s.threads[tid].eor)) && s'.threads.Keys == s.threads.Keys
    decreases n
  {
    if n == 0 {
      RunNone(h, s, tid, rid, qid);
    } else {
      RunOne(h, s, tid, rid, qid, n);
      StepAround(h, s, tid, rid, qid);
      hide StepThread, Run, NonceKey;
      RunAround(h, StepThread(h, s, tid, rid, qid, true), tid, rid, qid, n - 1);
    }
  }

  lemma StepAround(h: Host, s: State, tid: nat, rid: string, qid: string)
    requires tid in s.threads
    ensures var s' := StepThread(h, s, tid, rid, qid, true);
            && Around(s, s', NonceKey(s.threads[tid].eor)) && s'.threads.Keys == s.threads.Keys
            && s'.threads[tid].eor == s.threads[tid].eor
  {
    var t := s.threads[tid];
    var next := NextPhase(h, s, t, rid, qid, true);
    WrittenAround(s, t, next);
    WritesGrow(s, t, next);
    hide NextPhase, Written, NonceKey;
  }

  lemma WrittenAround(s: State, t: Thread, next: Phase)
    ensures var w := Written(s, t, next);
            && w.agents == s.agents && w.keys == s.keys && w.nonces <= s.nonces + {NonceKey(t.eor)}
            && (w.ops == s.ops ==> w.receipts == s.receipts)
  {
    hide RowOf, NonceKey;
  }

  lemma EndsFrame(h: Host, a: State, b: State, s': State, tid: nat, e: Eor, now: SafeInt, rid: string, qid: string)
    requires a.ops == b.ops && a.receipts == b.receipts && a.objects == b.objects
    requires Ends(h, a, s', tid, e, now, rid, qid)
    ensures Ends(h, b, s', tid, e, now, rid, qid)
  {
    hide AgentChain, EorInput, EorKey, EarKey, RowOf, EarOf, IdTaken, ReceiptTaken;
  }

  // ---- Committed rows and the submissions they come from ----

  /** Where a submission whose insert went through can be: a crash may follow it. */
  predicate PastCommit(p: Phase) { p.Enqueue? || (p.Done? && (p.outcome.Accepted? || p.outcome.Failed?)) }

  ghost predicate CameFrom(t: Thread, r: Row) {
    t.eor.body.operationId == r.operationId && PastCommit(t.phase)
  }

  ghost predicate HasOrigin(threads: map<nat, Thread>, r: Row) {
    exists tid :: tid in threads && CameFrom(threads[tid], r)
  }

  /** Every committed row was inserted by a submission that is past its commit. */
  ghost predicate Origins(s: State) {
    forall i :: 0 <= i < |s.ops| ==> HasOrigin(s.threads, s.ops[i])
  }

  lemma InsertedRow(s: State, t: Thread, next: Phase, i: nat)
    requires |s.ops| <= i < |Written(s, t, next).ops|
    ensures t.phase.Commit? && next.Enqueue? && Written(s, t, next).ops[i] == OwnRow(t, t.phase.ear)
    ensures Written(s, t, next).objects == s.objects
  {
  }

  lemma OriginsKept(h: Host, s: State, l: Label, r: Row)
    requires HasOrigin(s.threads, r)
    ensures HasOrigin(Step(h, s, l).threads, r)
  {
    var tid :| tid in s.threads && CameFrom(s.threads[tid], r);
    hide Written, NextPhase, M.TreeOf;
    if l.Advance? && l.tid == tid {
      AdvancedPastCommit(h, s, tid, l);
    } else {
      if l.Fail? && l.tid == tid {
      } else {
        OthersUntouched(h, s, l, tid);
      }
      assert CameFrom(Step(h, s, l).threads[tid], r);
    }
  }

  lemma AdvancedPastCommit(h: Host, s: State, tid: nat, l: Label)
    requires tid in s.threads && PastCommit(s.threads[tid].phase) && l.Advance? && l.tid == tid
    ensures tid in Step(h, s, l).threads && PastCommit(Step(h, s, l).threads[tid].phase)
    ensures Step(h, s, l).threads[tid].eor == s.threads[tid].eor
  {
  }

  lemma StepKeepsOrigins(h: Host, s: State, l: Label)
    requires Origins(s)
    ensures Origins(Step(h, s, l))
  {
    var s' := Step(h, s, l);
    StepOps(h, s, l);
    hide Step, HasOrigin;
    forall i | 0 <= i < |s'.ops| ensures HasOrigin(s'.threads, s'.ops[i]) {
      if i < |s.ops| {
        assert s'.ops[i] == s.ops[i];
        OriginsKept(h, s, l, s.ops[i]);
      } else {
        InsertHasOrigin(h, s, l, i);
      }
    }
  }

  lemma InsertHasOrigin(h: Host, s: State, l: Label, i: nat)
    requires |s.ops| <= i < |Step(h, s, l).ops|
    ensures HasOrigin(Step(h, s, l).threads, Step(h, s, l).ops[i])
  {
    StepOps(h, s, l);
    var t := s.threads[l.tid];
    var next := NextPhase(h, s, t, l.receiptId, l.queueId, l.pkFirst);
    WritesGrow(s, t, next);
    InsertedRow(s, t, next, i);
    hide NextPhase, Written;
    assert CameFrom(Step(h, s, l).threads[l.tid], Step(h, s, l).ops[i]);
  }

  lemma {:induction false} RunKeepsOrigins(h: Host, s: State, run: seq<Label>)
    requires Origins(s)
    ensures Origins(Exec(h, s, run))
    decreases |run|
  {
    hide Origins, Step;
    if run != [] {
      StepKeepsOrigins(h, s, run[0]);
      RunKeepsOrigins(h, Step(h, s, run[0]), run[1..]);
    }
  }
}
