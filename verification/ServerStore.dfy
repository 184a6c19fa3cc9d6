/**
  The services as they are written, over stores that they update in place. Each method is one
  uninterrupted run of the step machine, so what is proved of the machine holds of it.
*/
module ServerStore {
  import opened Text
  import opened Chain
  import opened Server
  import opened ServerInvariants
  import opened ServerSubmit
  import M = Merkle

  /** The end of a submission that nobody interrupts. */
  ghost predicate EndsAs(h: Host, start: State, s: State, rid: string, qid: string, k: nat, outcome: Outcome) {
    0 in start.threads && Run(h, start, 0, rid, qid, k) == s && 0 in s.threads && s.threads[0].phase == Done(outcome)
  }

  function Moved(s: State, phase: Phase): State
    requires 0 in s.threads
  {
    s.(threads := s.threads[0 := s.threads[0].(phase := phase)])
  }

  /** One step of the machine, and how much of the run is left. */
  lemma NextStep(h: Host, s: State, rid: string, qid: string, k: nat)
    requires 0 in s.threads && k > 0
    ensures var t := s.threads[0]; var next := NextPhase(h, s, t, rid, qid, true);
            && Run(h, s, 0, rid, qid, k) == Run(h, Moved(Written(s, t, next), next), 0, rid, qid, k - 1)
            && Written(s, t, next).threads == s.threads
  {
    hide NextPhase, Run, Written;
    RunOne(h, s, 0, rid, qid, k);
    WritesGrow(s, s.threads[0], NextPhase(h, s, s.threads[0], rid, qid, true));
  }

  /** A submission that is done stays as it is for the rest of the run. */
  lemma Stopped(h: Host, start: State, n: nat, s: State, k: nat, rid: string, qid: string, outcome: Outcome)
    requires 0 in start.threads && 0 in s.threads && s.threads[0].phase == Done(outcome)
    requires Run(h, start, 0, rid, qid, n) == Run(h, s, 0, rid, qid, k)
    ensures EndsAs(h, start, s, rid, qid, n, outcome)
  {
    hide Run;
    DoneStays(h, s, 0, rid, qid, k);
  }

  lemma Joined(h: Host, start: State, n: nat, mid: State, s: State, k: nat, rid: string, qid: string, outcome: Outcome)
    requires 0 in start.threads && EndsAs(h, mid, s, rid, qid, k, outcome)
    requires Run(h, start, 0, rid, qid, n) == Run(h, mid, 0, rid, qid, k)
    ensures EndsAs(h, start, s, rid, qid, n, outcome)
  {
    hide Run;
  }

  class Store {
    var agents: map<string, Agent>
    var keys: map<string, AgentKey>
    var ops: seq<Row>
    var receipts: seq<ReceiptRow>
    var epochs: seq<EpochRow>
    var objects: map<string, StoredObject>
    var nonces: set<string>

    constructor ()
      ensures View() == Initial
    {
      agents, keys, ops, receipts := map[], map[], [], [];
      epochs, objects, nonces := [], map[], {};
    }

    /** The stores as a state of the machine with nothing in flight. */
    function View(): State
      reads this
    {
      State(agents, keys, ops, receipts, epochs, objects, nonces, map[], Idle)
    }

    /** The state's stores are these; what is in flight is the state's own business. */
    ghost predicate Shows(s: State)
      reads this
    {
      s.(threads := map[], scheduler := Idle) == View()
    }

    method SubmitOperation(h: Host, eor: Eor, receivedAt: SafeInt, receiptId: string, queueMessageId: string)
      returns (outcome: Outcome)
      modifies this
      ensures var arrived := StepArrive(h, old(View()), 0, eor, receivedAt);
              exists s :: EndsAs(h, arrived, s, receiptId, queueMessageId, 9, outcome) && Shows(s)
      ensures var key := "nonce:" + eor.body.orgId + ":" + eor.body.nonce;
              && (outcome == Refused(ReplayDetected) <==> ValidateEor(h, eor, receivedAt).None? && key in old(nonces))
              && nonces == old(nonces) + (if ValidateEor(h, eor, receivedAt).None? then {key} else {})
    {
      ValidationCodes(h, eor, receivedAt);
      assert NonceKey(eor) == "nonce:" + eor.body.orgId + ":" + eor.body.nonce;
      hide Run, EndsAs, ValidateEor, NonceKey, LatestOp, EorKey, EarKey, EarOf, EorInput, AfterReadAgent, AfterReadKey, AfterCommit, RowOf;
      ghost var arrived := StepArrive(h, View(), 0, eor, receivedAt);
      ghost var s := arrived;
      var invalid := ValidateEor(h, eor, receivedAt);
      if invalid.Some? {
        outcome := Refused(invalid.value);
        Stopped(h, arrived, 9, s, 9, receiptId, queueMessageId, outcome);
        return;
      }
      NextStep(h, s, receiptId, queueMessageId, 9);
      var nonceKey := NonceKey(eor);
      if nonceKey in nonces {
        outcome := Refused(ReplayDetected);
        s := Moved(s, Done(outcome));
        Stopped(h, arrived, 9, s, 8, receiptId, queueMessageId, outcome);
        return;
      }
      s := Moved(s, PutNonce);
      NextStep(h, s, receiptId, queueMessageId, 8);
      nonces := nonces + {nonceKey};
      s := Moved(s.(nonces := nonces), ReadAgent);
      ghost var checking := s;
      var refusal := Authenticate(h, s, eor, receivedAt, receiptId, queueMessageId);
      if refusal.Some? {
        outcome := Refused(refusal.value);
        s :| EndsAs(h, checking, s, receiptId, queueMessageId, 7, outcome) && Shows(s);
        Joined(h, arrived, 9, checking, s, 7, receiptId, queueMessageId, outcome);
        return;
      }
      s := Moved(s, ReadHead);
      ghost var reading := s;
      outcome := Append(h, s, eor, receivedAt, receiptId, queueMessageId);
      s :| EndsAs(h, reading, s, receiptId, queueMessageId, 5, outcome) && Shows(s);
      Joined(h, arrived, 9, reading, s, 5, receiptId, queueMessageId, outcome);
    }

    /** The agent's and the key's standing, and the signature. */
    method Authenticate(h: Host, ghost start: State, eor: Eor, receivedAt: SafeInt, receiptId: string, queueMessageId: string)
      returns (refusal: Option<ErrorCode>)
      requires Shows(start) && 0 in start.threads && start.threads[0] == Thread(eor, receivedAt, ReadAgent)
      ensures refusal != Some(ReplayDetected)
      ensures refusal.Some? ==>
        exists s :: EndsAs(h, start, s, receiptId, queueMessageId, 7, Refused(refusal.value)) && Shows(s)
      ensures refusal.None? ==>
        Run(h, start, 0, receiptId, queueMessageId, 7) == Run(h, Moved(start, ReadHead), 0, receiptId, queueMessageId, 5)
    {
      hide Run, EndsAs;
      ghost var s := start;
      NextStep(h, s, receiptId, queueMessageId, 7);
      var agent := FindAgent(View(), eor.body.agentId, eor.body.orgId);
      if agent.None? || agent.value.status != Active {
        refusal := Some(if agent.None? then UnknownAgent else if agent.value.status == Frozen then AgentFrozen else AgentRevoked);
        s := Moved(s, Done(Refused(refusal.value)));
        Stopped(h, start, 7, s, 6, receiptId, queueMessageId, Refused(refusal.value));
        return;
      }
      s := Moved(s, ReadKey);
      NextStep(h, s, receiptId, queueMessageId, 6);
      var agentKey := FindKey(keys, eor.body.kid, eor.body.agentId);
      if agentKey.None? || agentKey.value.status != KeyActive || !h.verify(agentKey.value.publicKey, eor.signature, eor.body) {
        refusal := Some(if agentKey.None? then InvalidSignature
                        else if agentKey.value.status == KeyRevoked then SigningKeyRevoked
                        else if agentKey.value.status == KeyRetired then SigningKeyRetired
                        else InvalidSignature);
        s := Moved(s, Done(Refused(refusal.value)));
        Stopped(h, start, 7, s, 5, receiptId, queueMessageId, Refused(refusal.value));
        return;
      }
      assert Moved(s, ReadHead) == Moved(start, ReadHead);
      return None;
    }

    /** The head, then the rest. */
    method Append(h: Host, ghost start: State, eor: Eor, receivedAt: SafeInt, receiptId: string, queueMessageId: string)
      returns (outcome: Outcome)
      requires Shows(start) && 0 in start.threads && start.threads[0] == Thread(eor, receivedAt, ReadHead)
      modifies this
      ensures exists s :: EndsAs(h, start, s, receiptId, queueMessageId, 5, outcome) && Shows(s)
      ensures !outcome.Refused? && nonces == old(nonces)
    {
      hide Run, EndsAs, LatestOp, EorKey, EarKey, EarOf, EorInput, AfterReadAgent, AfterReadKey, AfterCommit, AfterReadWinner, RowOf, NonceKey;
      ghost var s := start;
      NextStep(h, s, receiptId, queueMessageId, 5);
      var latestOp := LatestOp(ops, eor.body.agentId);
      var expectedPrevHash := if latestOp.Some? then latestOp.value.chainHash else GENESIS;
      var nextSeqNo := if latestOp.Some? then latestOp.value.seqNo + 1 else 1;
      if eor.body.prevChainHash != expectedPrevHash {
        outcome := PrevHashMismatch(expectedPrevHash, eor.body.prevChainHash);
        s := Moved(s, Done(outcome));
        Stopped(h, start, 5, s, 4, receiptId, queueMessageId, outcome);
        return;
      }
      var chainHash := h.sha(EorInput(eor));
      s := Moved(s, PutPayload(nextSeqNo, chainHash));
      ghost var putting := s;
      outcome := Record(h, s, eor, receivedAt, nextSeqNo, chainHash, receiptId, queueMessageId);
      s :| EndsAs(h, putting, s, receiptId, queueMessageId, 4, outcome) && Shows(s);
      Joined(h, start, 5, putting, s, 4, receiptId, queueMessageId, outcome);
    }

    /** The evidence objects and the commit. */
    method Record(h: Host, ghost start: State, eor: Eor, receivedAt: SafeInt, nextSeqNo: int, chainHash: string,
                  receiptId: string, queueMessageId: string)
      returns (outcome: Outcome)
      requires Shows(start) && 0 in start.threads
      requires start.threads[0] == Thread(eor, receivedAt, PutPayload(nextSeqNo, chainHash))
      modifies this
      ensures exists s :: EndsAs(h, start, s, receiptId, queueMessageId, 4, outcome) && Shows(s)
      ensures !outcome.Refused? && nonces == old(nonces)
    {
      hide Run, EndsAs, EorKey, EarKey, EarOf, AfterReadAgent, AfterReadKey, AfterReadHead, AfterCommit, AfterReadWinner, RowOf;
      ghost var s := start;
      NextStep(h, s, receiptId, queueMessageId, 4);
      objects := objects[EorKey(eor) := Evidence(eor)];
      var ear := EarOf(h, eor, nextSeqNo, chainHash, receivedAt, receiptId, queueMessageId);
      s := Moved(s.(objects := objects), PutReceipt(ear));
      NextStep(h, s, receiptId, queueMessageId, 3);
      objects := objects[EarKey(ear.fields) := ReceiptDoc(ear)];
      s := Moved(s.(objects := objects), Commit(ear));
      ghost var committing := s;
      outcome := Persist(h, s, eor, receivedAt, ear, receiptId, queueMessageId);
      s :| EndsAs(h, committing, s, receiptId, queueMessageId, 2, outcome) && Shows(s);
      Joined(h, start, 4, committing, s, 2, receiptId, queueMessageId, outcome);
    }

    /** Both inserts in one batch; a lost race for the sequence number answers with the winner. */
    method Persist(h: Host, ghost start: State, eor: Eor, receivedAt: SafeInt, ear: Ear, receiptId: string, queueMessageId: string)
      returns (outcome: Outcome)
      requires Shows(start) && 0 in start.threads && start.threads[0] == Thread(eor, receivedAt, Commit(ear))
      modifies this
      ensures exists s :: EndsAs(h, start, s, receiptId, queueMessageId, 2, outcome) && Shows(s)
      ensures !outcome.Refused? && nonces == old(nonces)
    {
      hide Run, EndsAs, LatestOp, EarKey, RowOf, IdTaken, SeqTaken, ReceiptTaken;
      ghost var s := start;
      NextStep(h, s, receiptId, queueMessageId, 2);
      var idTaken := IdTaken(ops, eor.body.operationId);
      var seqTaken := SeqTaken(ops, eor.body.agentId, ear.fields.seqNo);
      if idTaken || seqTaken || ReceiptTaken(receipts, ear.fields.receiptId, eor.body.operationId) {
        if idTaken || !seqTaken {
          outcome := Failed;
          s := Moved(s, Done(outcome));
          Stopped(h, start, 2, s, 1, receiptId, queueMessageId, outcome);
          return;
        }
        s := Moved(s, ReadWinner(ear.fields.seqNo));
        NextStep(h, s, receiptId, queueMessageId, 1);
        var winner := LatestOp(ops, eor.body.agentId);
        outcome := if winner.Some? then PrevHashMismatch(winner.value.chainHash, eor.body.prevChainHash) else Failed;
        s := Moved(s, Done(outcome));
        Stopped(h, start, 2, s, 0, receiptId, queueMessageId, outcome);
        return;
      }
      ops := ops + [RowOf(eor, ear.fields.seqNo, ear.fields.chainHash, receivedAt)];
      receipts := receipts + [ReceiptRow(ear.fields.receiptId, eor.body.operationId, EarKey(ear.fields))];
      s := Moved(s.(ops := ops, receipts := receipts), Enqueue(ear));
      NextStep(h, s, receiptId, queueMessageId, 1);
      outcome := Accepted(ear);
      s := Moved(s, Done(outcome));
      Stopped(h, start, 2, s, 0, receiptId, queueMessageId, outcome);
    }

    method FreezeAgent(agentId: string, orgId: string) returns (done: bool)
      modifies this
      ensures done <==> agentId in old(agents) && old(agents)[agentId] == Agent(orgId, Active)
      ensures agents == if done then old(agents)[agentId := Agent(orgId, Frozen)] else old(agents)
      ensures View() == old(View()).(agents := agents)
      ensures done ==> View() == SetStatus(old(View()), agentId, Frozen)
    {
      var agent := FindAgent(View(), agentId, orgId);
      if agent.None? || agent.value.status == Frozen || agent.value.status == Revoked { return false; }
      agents := agents[agentId := agent.value.(status := Frozen)];
      return true;
    }

    method UnfreezeAgent(agentId: string, orgId: string) returns (done: bool)
      modifies this
      ensures done <==> agentId in old(agents) && old(agents)[agentId] == Agent(orgId, Frozen)
      ensures agents == if done then old(agents)[agentId := Agent(orgId, Active)] else old(agents)
      ensures View() == old(View()).(agents := agents)
      ensures done ==> View() == SetStatus(old(View()), agentId, Active)
    {
      var agent := FindAgent(View(), agentId, orgId);
      if agent.None? || agent.value.status == Active || agent.value.status == Revoked { return false; }
      agents := agents[agentId := agent.value.(status := Active)];
      return true;
    }

    method RevokeKey(agentId: string, kid: string, orgId: string) returns (done: bool)
      modifies this
      ensures done <==> && agentId in old(agents) && old(agents)[agentId].orgId == orgId
                        && kid in old(keys) && old(keys)[kid].agentId == agentId && old(keys)[kid].status != KeyRevoked
      ensures keys == if done then old(keys)[kid := old(keys)[kid].(status := KeyRevoked)] else old(keys)
      ensures View() == old(View()).(keys := keys)
      ensures done ==> View() == StepRevokeKey(old(View()), kid)
    {
      var agent := FindAgent(View(), agentId, orgId);
      if agent.None? { return false; }
      var key := FindKey(keys, kid, agentId);
      if key.None? || key.value.status == KeyRevoked { return false; }
      keys := keys[kid := key.value.(status := KeyRevoked)];
      return true;
    }

    /** One organisation's epoch: nothing when it exists or the window is empty. */
    method CreateEpoch(h: Host, orgId: string, startTime: int, epochId: string) returns (created: bool)
      requires FreshEpochId(View(), orgId, epochId)
      modifies this
      ensures View().(scheduler := Window(startTime)) == Exec(h, old(View()).(scheduler := Window(startTime)), EpochSteps(orgId, epochId))
      ensures created <==> !EpochExists(old(epochs), orgId, startTime, startTime + EPOCH_INTERVAL_MS)
                           && InWindow(old(ops), orgId, startTime) != []
      ensures ops == old(ops) && objects.Keys == old(objects).Keys + (if created then {EpochKey(orgId, epochId)} else {})
      ensures if !created then epochs == old(epochs)
              else && |epochs| == |old(epochs)| + 1 && old(epochs) <= epochs
                   && NamesWindow(epochs[|old(epochs)|], epochId, orgId, startTime)
    {
      hide M.TreeOf, EpochExists, InWindow, ChainHashes, OperationIds, FreshEpochId, EpochKey, Exec, EpochSteps;
      EpochRunIs(h, View(), startTime, orgId, epochId);
      if EpochExists(epochs, orgId, startTime, startTime + EPOCH_INTERVAL_MS) { return false; }
      var found := InWindow(ops, orgId, startTime);
      if |found| == 0 { return false; }
      var tree := M.BuildMerkleTree(h.pair, ChainHashes(found), OperationIds(found));
      var key := EpochKey(orgId, epochId);
      objects := objects[key := EpochDoc(orgId, epochId, tree.leafOps, tree.layers)];
      epochs := epochs + [EpochRow(epochId, orgId, startTime, startTime + EPOCH_INTERVAL_MS, tree.root, |tree.leaves|, key)];
      return true;
    }

    /** One pass of the scheduler over the window that ended last. */
    method RunEpochCreation(h: Host, now: SafeInt, ids: nat -> string)
      requires forall k, org :: FreshEpochId(View(), org, ids(k))
      requires forall k, l :: ids(k) == ids(l) ==> k == l
      modifies this
      ensures ops == old(ops) && old(epochs) <= epochs
      ensures forall r :: r in ops && EpochStart(now) <= r.createdAt < EpochStart(now) + EPOCH_INTERVAL_MS ==>
                EpochExists(epochs, r.orgId, EpochStart(now), EpochStart(now) + EPOCH_INTERVAL_MS)
    {
      hide FreshEpochId, EpochStart, InWindow, EpochExists, DistinctOrgs;
      var start := EpochStart(now);
      var orgs := DistinctOrgs(ops, start);
      for k := 0 to |orgs|
        invariant ops == old(ops) && old(epochs) <= epochs
        invariant forall l, org :: l >= k ==> FreshEpochId(View(), org, ids(l))
        invariant forall j :: 0 <= j < k ==> EpochExists(epochs, orgs[j], start, start + EPOCH_INTERVAL_MS)
      {
        ghost var before := View();
        var created := CreateEpoch(h, orgs[k], start, ids(k));
        ghost var after := View();
        HasOperations(ops, start, orgs[k]);
        Exists(before.epochs, epochs, ids(k), orgs[k], start);
        forall j | 0 <= j < k ensures EpochExists(epochs, orgs[j], start, start + EPOCH_INTERVAL_MS) {
          StillExists(before.epochs, epochs, orgs[j], start);
        }
        forall l, org | l >= k + 1 ensures FreshEpochId(View(), org, ids(l)) {
          StillFresh(before, after, orgs[k], ids(k), org, ids(l));
        }
      }
      forall r | r in ops && start <= r.createdAt < start + EPOCH_INTERVAL_MS
        ensures EpochExists(epochs, r.orgId, start, start + EPOCH_INTERVAL_MS)
      {
        assert r.orgId in orgs;
        var j :| 0 <= j < |orgs| && orgs[j] == r.orgId;
      }
    }
  }

  /** An epoch of the organisation for the window. */
  predicate NamesWindow(e: EpochRow, epochId: string, orgId: string, start: int) {
    e.epochId == epochId && e.orgId == orgId && e.startTime == start && e.endTime == start + EPOCH_INTERVAL_MS
  }

  /** SELECT DISTINCT org_id ... in the window. */
  function DistinctOrgs(ops: seq<Row>, start: int): (orgs: seq<string>)
    ensures forall o :: o in orgs <==> exists r :: r in ops && r.orgId == o && start <= r.createdAt < start + EPOCH_INTERVAL_MS
    ensures forall i, j :: 0 <= i < j < |orgs| ==> orgs[i] != orgs[j]
  {
    if ops == [] then []
    else
      var rest := DistinctOrgs(ops[1..], start);
      var r := ops[0];
      assert ops == [r] + ops[1..];
      if start <= r.createdAt < start + EPOCH_INTERVAL_MS && r.orgId !in rest then [r.orgId] + rest else rest
  }

  lemma HasOperations(ops: seq<Row>, start: int, org: string)
    requires org in DistinctOrgs(ops, start)
    ensures InWindow(ops, org, start) != []
  {
    var r :| r in ops && r.orgId == org && start <= r.createdAt < start + EPOCH_INTERVAL_MS;
    assert r in InWindow(ops, org, start);
  }

  lemma Exists(before: seq<EpochRow>, after: seq<EpochRow>, epochId: string, org: string, start: int)
    requires before <= after && (EpochExists(before, org, start, start + EPOCH_INTERVAL_MS)
                                 || (|after| == |before| + 1 && NamesWindow(after[|before|], epochId, org, start)))
    ensures EpochExists(after, org, start, start + EPOCH_INTERVAL_MS)
  {
    if EpochExists(before, org, start, start + EPOCH_INTERVAL_MS) { StillExists(before, after, org, start); }
  }

  lemma StillExists(before: seq<EpochRow>, after: seq<EpochRow>, org: string, start: int)
    requires before <= after && EpochExists(before, org, start, start + EPOCH_INTERVAL_MS)
    ensures EpochExists(after, org, start, start + EPOCH_INTERVAL_MS)
  {
    var i :| 0 <= i < |before| && before[i].orgId == org && before[i].startTime == start && before[i].endTime == start + EPOCH_INTERVAL_MS;
    assert after[i] == before[i];
  }

  /** Another epoch does not spend this id. */
  lemma StillFresh(before: State, after: State, org: string, epochId: string, other: string, id: string)
    requires FreshEpochId(before, other, id) && FreshEpochId(before, org, epochId) && id != epochId
    requires after.objects.Keys <= before.objects.Keys + {EpochKey(org, epochId)}
    requires after.epochs == before.epochs
             || (|after.epochs| == |before.epochs| + 1 && before.epochs <= after.epochs && after.epochs[|before.epochs|].epochId == epochId)
    ensures FreshEpochId(after, other, id)
  {
    if EpochKey(other, id) == EpochKey(org, epochId) {
      assert EpochKey(other, id) == "epochs/" + other + ['/'] + id;
      assert EpochKey(org, epochId) == "epochs/" + org + ['/'] + epochId;
      SplitLast('/', "epochs/" + other, id, "epochs/" + org, epochId);
    }
    assert EpochKey(other, id) !in after.objects.Keys;
  }

  // ---- The scheduler's pass over the organisations ----

  /** The four steps of one organisation's turn; what is not enabled does nothing. */
  function EpochSteps(org: string, epochId: string): seq<Label> {
    [EpochCheck(org), EpochQuery, EpochPut(epochId), EpochInsert]
  }

  lemma ExecOne(h: Host, s: State, run: seq<Label>)
    requires run != []
    ensures Exec(h, s, run) == Exec(h, Step(h, s, run[0]), run[1..])
  {
    hide Step;
  }

  lemma EpochRun(h: Host, s: State, org: string, epochId: string)
    ensures Exec(h, s, EpochSteps(org, epochId))
         == StepEpochInsert(StepEpochPut(h, StepEpochQuery(StepEpochCheck(s, org)), epochId))
  {
    hide StepEpochInsert, StepEpochPut, StepEpochQuery, StepEpochCheck, Exec;
    var run := EpochSteps(org, epochId);
    var a := StepEpochCheck(s, org);
    var b := StepEpochQuery(a);
    var c := StepEpochPut(h, b, epochId);
    ExecOne(h, s, run);
    ExecOne(h, a, run[1..]);
    ExecOne(h, b, run[1..][1..]);
    ExecOne(h, c, run[1..][1..][1..]);
    assert run[1..] == [EpochQuery, EpochPut(epochId), EpochInsert];
    assert run[1..][1..] == [EpochPut(epochId), EpochInsert] && run[1..][1..][1..] == [EpochInsert];
    assert run[1..][1..][1..][1..] == [];
    ExecNone(h, StepEpochInsert(c));
  }

  /** The pass over one organisation, in the tables' terms. */
  lemma EpochRunIs(h: Host, s: State, start: int, org: string, epochId: string)
    requires FreshEpochId(s, org, epochId)
    ensures var s0 := s.(scheduler := Window(start)); var s' := Exec(h, s0, EpochSteps(org, epochId));
            var found := InWindow(s.ops, org, start);
            if EpochExists(s.epochs, org, start, start + EPOCH_INTERVAL_MS) || found == [] then s' == s0
            else
              var tree, key := M.TreeOf(h.pair, ChainHashes(found), OperationIds(found)), EpochKey(org, epochId);
              s' == s0.(objects := s.objects[key := EpochDoc(org, epochId, tree.leafOps, tree.layers)],
                        epochs := s.epochs + [EpochRow(epochId, org, start, start + EPOCH_INTERVAL_MS, tree.root, |tree.leaves|, key)])
  {
    EpochRun(h, s.(scheduler := Window(start)), org, epochId);
    hide M.TreeOf, EpochExists, InWindow, ChainHashes, OperationIds, EpochKey, Exec;
  }

  lemma ExecNone(h: Host, s: State)
    ensures Exec(h, s, []) == s
  {
  }
}
