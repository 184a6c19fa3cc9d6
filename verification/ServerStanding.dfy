/** What freezing an agent and revoking a key stop, over every continuation. */
module ServerStanding {
  import opened Server
  import opened ServerInvariants
  import M = Merkle

  /** Past the look at the agent, and not yet over. */
  predicate PastAgentRead(p: Phase) { p.ReadKey? || PastKeyRead(p) }

  /** Past the look at the key, and not yet committed or over. */
  predicate PastKeyRead(p: Phase) { p.ReadHead? || p.PutPayload? || p.PutReceipt? || p.Commit? }

  predicate AgentBarred(s: State, agentId: string) { agentId in s.agents && s.agents[agentId].status != Active }

  predicate KeyBarred(s: State, kid: string) { kid in s.keys && s.keys[kid].status == KeyRevoked }

  /** Every column but the two the chain decides is the record's own or its time of arrival. */
  predicate MadeFrom(r: Row, e: Eor, receivedAt: int) {
    && r.operationId == e.body.operationId && r.orgId == e.body.orgId && r.agentId == e.body.agentId
    && r.operationType == e.body.operationType && r.issuedAt == e.body.issuedAt && r.ttlMs == e.body.ttlMs
    && r.nonce == e.body.nonce && r.subject == e.body.subject && r.action == e.body.action
    && r.payloadHash == e.body.payloadHash && r.prevChainHash == e.body.prevChainHash
    && r.kid == e.body.kid && r.signature == e.signature && r.createdAt == receivedAt
    && r.payloadKey == e.body.orgId + "/" + e.body.agentId + "/" + e.body.operationId
  }

  /** The row is one that the submission inserts. */
  predicate InsertedBy(r: Row, t: Thread) { MadeFrom(r, t.eor, t.receivedAt) }

  /** A row that a step adds is its own submission's. */
  lemma AddedRow(h: Host, s: State, l: Label, k: nat)
    requires |s.ops| <= k < |Step(h, s, l).ops|
    ensures l.Advance? && l.tid in s.threads && s.threads[l.tid].phase.Commit?
    ensures InsertedBy(Step(h, s, l).ops[k], s.threads[l.tid])
    ensures Step(h, s, l).ops == s.ops + [Step(h, s, l).ops[k]]
  {
    StepOps(h, s, l);
    hide NextPhase, M.TreeOf;
  }

  lemma NextAgentPhase(h: Host, s: State, t: Thread, rid: string, qid: string, pk: bool)
    requires AgentBarred(s, t.eor.body.agentId) && !PastAgentRead(t.phase)
    ensures !PastAgentRead(NextPhase(h, s, t, rid, qid, pk))
  {
  }

  lemma NextKeyPhase(h: Host, s: State, t: Thread, rid: string, qid: string, pk: bool)
    requires KeyBarred(s, t.eor.body.kid) && !PastKeyRead(t.phase)
    ensures !PastKeyRead(NextPhase(h, s, t, rid, qid, pk))
  {
  }

  /** A thread after a step: as before, moved on by itself, just arrived, or failed. */
  lemma ThreadAfter(h: Host, s: State, l: Label, tid: nat)
    requires tid in Step(h, s, l).threads
    ensures var t' := Step(h, s, l).threads[tid];
            if tid !in s.threads then t'.phase.GetNonce? || t'.phase.Done?
            else
              var t := s.threads[tid];
              t'.eor == t.eor && t'.receivedAt == t.receivedAt &&
              (t' == t || t'.phase.Done?
               || (l.Advance? && t'.phase == NextPhase(h, s, t, l.receiptId, l.queueId, l.pkFirst)))
  {
    hide NextPhase, Written, M.TreeOf, ValidateEor;
    if l.Advance? && l.tid in s.threads {
      WritesGrow(s, s.threads[l.tid], NextPhase(h, s, s.threads[l.tid], l.receiptId, l.queueId, l.pkFirst));
    }
  }

  /** Submissions touch neither agents nor keys. */
  lemma AdvanceKeepsStanding(h: Host, s: State, l: Label)
    requires l.Advance?
    ensures Step(h, s, l).agents == s.agents && Step(h, s, l).keys == s.keys
  {
    hide NextPhase, RowOf;
  }

  /** The scheduler's steps over its window. */
  predicate OverWindow(l: Label) { l.EpochPut? || l.EpochInsert? || l.EpochQuery? || l.EpochCheck? }

  lemma WindowKeepsStanding(h: Host, s: State, l: Label)
    requires OverWindow(l)
    ensures Step(h, s, l).agents == s.agents && Step(h, s, l).keys == s.keys
  {
    hide M.TreeOf, InWindow;
  }

  lemma RegisterStatus(h: Host, s: State, l: Label, a: string, k: string)
    requires l.Register?
    ensures StatusStep(s, Step(h, s, l), l, a) && KeyStep(s, Step(h, s, l), l, k)
  {
    assert l.newKeys.Keys !! s.keys.Keys <==> !exists k :: k in l.newKeys && k in s.keys;
    assert l.newKeys != map[] <==> |l.newKeys| != 0;
  }

  lemma OtherStatus(h: Host, s: State, l: Label, a: string)
    requires !l.Advance? && !OverWindow(l) && !l.Register?
    ensures StatusStep(s, Step(h, s, l), l, a)
  {
    hide StepThread, ValidateEor, StepRegister, StepEpochPut, StepEpochInsert, StepEpochQuery, StepEpochCheck, StepRevokeKey;
    if l.RevokeKey? { RevokeSparesAgents(s, l.kid); }
  }

  lemma RevokeSparesAgents(s: State, kid: string)
    ensures StepRevokeKey(s, kid).agents == s.agents
  {
  }

  lemma OtherKeyStatus(h: Host, s: State, l: Label, k: string)
    requires !l.Advance? && !OverWindow(l) && !l.Register?
    ensures KeyStep(s, Step(h, s, l), l, k)
  {
    hide StepThread, ValidateEor, StepRegister, StepEpochPut, StepEpochInsert, StepEpochQuery, StepEpochCheck, SetStatus;
    if l.Freeze? { StatusSparesKeys(s, l.agentId, Frozen); }
    if l.Unfreeze? { StatusSparesKeys(s, l.agentId, Active); }
  }

  lemma StatusSparesKeys(s: State, agentId: string, status: AgentStatus)
    ensures SetStatus(s, agentId, status).keys == s.keys
  {
  }

  /** What a step does to one agent, in the two tables' own terms. */
  predicate StatusStep(s: State, s': State, l: Label, a: string) {
    if a in s.agents then
      && a in s'.agents && s'.agents[a].orgId == s.agents[a].orgId
      && s'.agents[a].status == (if s.agents[a].status == Revoked then Revoked
                                 else if l == Freeze(a) then Frozen
                                 else if l == Unfreeze(a) then Active
                                 else s.agents[a].status)
    else
      var joins := l.Register? && l.agentId == a && l.newKeys != map[] && l.newKeys.Keys !! s.keys.Keys;
      (a in s'.agents <==> joins) && (joins ==> s'.agents[a] == Agent(l.orgId, Active))
  }

  /**
    Freezing freezes, unfreezing reactivates, and neither touches a revoked agent, another
    agent or an organisation; nothing else changes an agent, and only its registration, with
    keys that nobody has, makes one.
  */
  lemma StatusAfter(h: Host, s: State, l: Label, a: string)
    ensures StatusStep(s, Step(h, s, l), l, a)
  {
    hide Step;
    if l.Advance? {
      AdvanceKeepsStanding(h, s, l);
    } else if OverWindow(l) {
      WindowKeepsStanding(h, s, l);
    } else if l.Register? {
      RegisterStatus(h, s, l, a, "");
    } else {
      OtherStatus(h, s, l, a);
    }
  }

  /** What a step does to one key. */
  predicate KeyStep(s: State, s': State, l: Label, k: string) {
    if k in s.keys then
      && k in s'.keys && s'.keys[k].agentId == s.keys[k].agentId && s'.keys[k].publicKey == s.keys[k].publicKey
      && s'.keys[k].status == (if l == RevokeKey(k) then KeyRevoked else s.keys[k].status)
    else
      var joins := l.Register? && k in l.newKeys && l.agentId !in s.agents && l.newKeys.Keys !! s.keys.Keys;
      (k in s'.keys <==> joins) && (joins ==> s'.keys[k] == AgentKey(l.agentId, l.newKeys[k], KeyActive))
  }

  /** Revoking a key revokes it and no other; its owner and its text never change. */
  lemma KeyStatusAfter(h: Host, s: State, l: Label, k: string)
    ensures KeyStep(s, Step(h, s, l), l, k)
  {
    hide Step;
    if l.Advance? {
      AdvanceKeepsStanding(h, s, l);
    } else if OverWindow(l) {
      WindowKeepsStanding(h, s, l);
    } else if l.Register? {
      RegisterStatus(h, s, l, "", k);
    } else {
      OtherKeyStatus(h, s, l, k);
    }
  }

  /** A registered agent that is frozen is frozen until it is unfrozen, whatever runs meanwhile, unless it was revoked. */
  lemma {:induction false} FrozenUntilUnfrozen(h: Host, s: State, run: seq<Label>, a: string)
    requires a in s.agents && Unfreeze(a) !in run
    requires s.agents[a].status == Frozen || (s.agents[a].status != Revoked && run != [] && run[0] == Freeze(a))
    ensures a in Exec(h, s, run).agents
    ensures Exec(h, s, run).agents[a] == Agent(s.agents[a].orgId, Frozen)
    decreases |run|
  {
    hide Step;
    if run != [] {
      assert run[0] in run && forall x :: x in run[1..] ==> x in run;
      StatusAfter(h, s, run[0], a);
      FrozenUntilUnfrozen(h, Step(h, s, run[0]), run[1..], a);
    }
  }

  /** A key is revoked for good. */
  lemma {:induction false} RevokedForGood(h: Host, s: State, run: seq<Label>, k: string)
    requires k in s.keys && (s.keys[k].status == KeyRevoked || (run != [] && run[0] == RevokeKey(k)))
    ensures k in Exec(h, s, run).keys
    ensures Exec(h, s, run).keys[k] == AgentKey(s.keys[k].agentId, s.keys[k].publicKey, KeyRevoked)
    decreases |run|
  {
    hide Step;
    if run != [] {
      KeyStatusAfter(h, s, run[0], k);
      RevokedForGood(h, Step(h, s, run[0]), run[1..], k);
    }
  }

  lemma AgentAfter(h: Host, s: State, l: Label, agentId: string)
    requires AgentBarred(s, agentId) && l != Unfreeze(agentId)
    ensures AgentBarred(Step(h, s, l), agentId)
  {
    hide Step;
    StatusAfter(h, s, l, agentId);
  }

  lemma KeyAfter(h: Host, s: State, l: Label, kid: string)
    requires KeyBarred(s, kid)
    ensures KeyBarred(Step(h, s, l), kid)
  {
    hide Step;
    KeyStatusAfter(h, s, l, kid);
  }

  /** While the agent is barred nobody gets past that check: who is past it was so before. */
  lemma NobodyPassesAgentRead(h: Host, s: State, l: Label, tid: nat)
    requires tid in Step(h, s, l).threads
    requires AgentBarred(s, Step(h, s, l).threads[tid].eor.body.agentId) && PastAgentRead(Step(h, s, l).threads[tid].phase)
    ensures tid in s.threads && PastAgentRead(s.threads[tid].phase)
    ensures s.threads[tid].eor == Step(h, s, l).threads[tid].eor && s.threads[tid].receivedAt == Step(h, s, l).threads[tid].receivedAt
  {
    ThreadAfter(h, s, l, tid);
    hide Step, NextPhase;
    if tid in s.threads && l.Advance? && !PastAgentRead(s.threads[tid].phase) {
      NextAgentPhase(h, s, s.threads[tid], l.receiptId, l.queueId, l.pkFirst);
    }
  }

  lemma NobodyPassesKeyRead(h: Host, s: State, l: Label, tid: nat)
    requires tid in Step(h, s, l).threads
    requires KeyBarred(s, Step(h, s, l).threads[tid].eor.body.kid) && PastKeyRead(Step(h, s, l).threads[tid].phase)
    ensures tid in s.threads && PastKeyRead(s.threads[tid].phase)
    ensures s.threads[tid].eor == Step(h, s, l).threads[tid].eor && s.threads[tid].receivedAt == Step(h, s, l).threads[tid].receivedAt
  {
    ThreadAfter(h, s, l, tid);
    hide Step, NextPhase;
    if tid in s.threads && l.Advance? && !PastKeyRead(s.threads[tid].phase) {
      NextKeyPhase(h, s, s.threads[tid], l.receiptId, l.queueId, l.pkFirst);
    }
  }

  /**
    Whatever runs while an agent stays frozen or revoked, every operation it gains is of a
    submission that was already past the check when the run began.
  */
  lemma {:induction false} OnlyPastSubmissionsCommit(h: Host, s: State, run: seq<Label>, agentId: string, k: nat)
    returns (tid: nat)
    requires AgentBarred(s, agentId) && Unfreeze(agentId) !in run
    requires |s.ops| <= k < |Exec(h, s, run).ops| && Exec(h, s, run).ops[k].agentId == agentId
    ensures tid in s.threads && s.threads[tid].eor.body.agentId == agentId && PastAgentRead(s.threads[tid].phase)
    ensures InsertedBy(Exec(h, s, run).ops[k], s.threads[tid])
    decreases |run|
  {
    hide AgentBarred, Step, InsertedBy, PastAgentRead;
    assert run != [];
    var l, one := run[0], Step(h, s, run[0]);
    assert l in run && forall x :: x in run[1..] ==> x in run;
    LogOnlyGrows(h, one, run[1..]);
    if k < |one.ops| {
      AddedRow(h, s, l, k);
      tid := l.tid;
      CommitterIsPast(one.ops[k], s.threads[tid]);
    } else {
      AgentAfter(h, s, l, agentId);
      tid := OnlyPastSubmissionsCommit(h, one, run[1..], agentId, k);
      NobodyPassesAgentRead(h, s, l, tid);
      SameInsert(Exec(h, s, run).ops[k], one.threads[tid], s.threads[tid]);
    }
  }

  lemma CommitterIsPast(r: Row, t: Thread)
    requires t.phase.Commit? && InsertedBy(r, t)
    ensures PastAgentRead(t.phase) && PastKeyRead(t.phase) && t.eor.body.agentId == r.agentId && t.eor.body.kid == r.kid
  {
  }

  lemma SameInsert(r: Row, a: Thread, b: Thread)
    requires InsertedBy(r, a) && a.eor == b.eor && a.receivedAt == b.receivedAt
    ensures InsertedBy(r, b)
  {
  }

  /** Hence an agent with no submission past the check gains nothing. */
  lemma BarredAgentCommitsNothing(h: Host, s: State, run: seq<Label>, agentId: string)
    requires AgentBarred(s, agentId) && Unfreeze(agentId) !in run
    requires forall tid :: tid in s.threads && s.threads[tid].eor.body.agentId == agentId ==> !PastAgentRead(s.threads[tid].phase)
    ensures AgentRows(Exec(h, s, run).ops, agentId) == AgentRows(s.ops, agentId)
  {
    hide AgentBarred, PastAgentRead, InsertedBy;
    LogOnlyGrows(h, s, run);
    var ops, more := s.ops, Exec(h, s, run).ops;
    forall k | |ops| <= k < |more| ensures more[k].agentId != agentId {
      if more[k].agentId == agentId { var tid := OnlyPastSubmissionsCommit(h, s, run, agentId, k); }
    }
    NoNewRows(ops, more, agentId);
  }

  lemma {:induction false} NoNewRows(ops: seq<Row>, more: seq<Row>, agentId: string)
    requires ops <= more && forall k :: |ops| <= k < |more| ==> more[k].agentId != agentId
    ensures AgentRows(more, agentId) == AgentRows(ops, agentId)
    decreases |more|
  {
    if |ops| < |more| {
      var init, last := more[..|more| - 1], more[|more| - 1];
      assert more == init + [last];
      RowsGrow(init, last, agentId);
      NoNewRows(ops, init, agentId);
    } else {
      assert ops == more;
    }
  }

  /**
    Revocation is for good: every operation that any run commits under a revoked key is of a
    submission that was already past the key check when the run began.
  */
  lemma {:induction false} OnlyPastKeyReadersCommit(h: Host, s: State, run: seq<Label>, kid: string, k: nat)
    returns (tid: nat)
    requires KeyBarred(s, kid)
    requires |s.ops| <= k < |Exec(h, s, run).ops| && Exec(h, s, run).ops[k].kid == kid
    ensures tid in s.threads && s.threads[tid].eor.body.kid == kid && PastKeyRead(s.threads[tid].phase)
    ensures InsertedBy(Exec(h, s, run).ops[k], s.threads[tid])
    decreases |run|
  {
    hide KeyBarred, Step, InsertedBy, PastKeyRead;
    assert run != [];
    var l, one := run[0], Step(h, s, run[0]);
    LogOnlyGrows(h, one, run[1..]);
    if k < |one.ops| {
      AddedRow(h, s, l, k);
      tid := l.tid;
      CommitterIsPast(one.ops[k], s.threads[tid]);
    } else {
      KeyAfter(h, s, l, kid);
      tid := OnlyPastKeyReadersCommit(h, one, run[1..], kid, k);
      NobodyPassesKeyRead(h, s, l, tid);
      SameInsert(Exec(h, s, run).ops[k], one.threads[tid], s.threads[tid]);
    }
  }

  /** Hence a key with no submission past its check commits nothing more. */
  lemma RevokedKeyCommitsNothing(h: Host, s: State, run: seq<Label>, kid: string, k: nat)
    requires KeyBarred(s, kid) && |s.ops| <= k < |Exec(h, s, run).ops|
    requires forall tid :: tid in s.threads && s.threads[tid].eor.body.kid == kid ==> !PastKeyRead(s.threads[tid].phase)
    ensures Exec(h, s, run).ops[k].kid != kid
  {
    hide KeyBarred, PastKeyRead, InsertedBy;
    if Exec(h, s, run).ops[k].kid == kid { var tid := OnlyPastKeyReadersCommit(h, s, run, kid, k); }
  }
}
