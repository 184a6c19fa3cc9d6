/** What an epoch commits to: the operations of one organisation in one window, as the table had them at one moment. */
module ServerEpochs {
  import opened Server
  import opened ServerInvariants
  import opened ServerEvidence
  import M = Merkle

  /** The leaves that the rows of a window make, with their operations. */
  function WindowLeaves(ops: seq<Row>, orgId: string, start: int): multiset<M.Paired> {
    if ops == [] then multiset{}
    else
      (if ops[0].orgId == orgId && start <= ops[0].createdAt < start + 300_000
       then multiset{M.Paired(ops[0].chainHash, ops[0].operationId)} else multiset{})
      + WindowLeaves(ops[1..], orgId, start)
  }

  /** The table as it was after n commits has these leaves in the window. */
  ghost predicate ReadAt(ops: seq<Row>, n: nat, orgId: string, start: int, hashes: seq<string>, ids: seq<string>) {
    n <= |ops| && |hashes| == |ids| && multiset(M.Zip(hashes, ids)) == WindowLeaves(ops[..n], orgId, start)
  }

  ghost predicate ReadSome(ops: seq<Row>, orgId: string, start: int, hashes: seq<string>, ids: seq<string>) {
    exists n :: ReadAt(ops, n, orgId, start, hashes, ids)
  }

  lemma ReadStable(a: seq<Row>, b: seq<Row>, orgId: string, start: int, hashes: seq<string>, ids: seq<string>)
    requires a <= b && ReadSome(a, orgId, start, hashes, ids)
    ensures ReadSome(b, orgId, start, hashes, ids)
  {
    var n: nat :| ReadAt(a, n, orgId, start, hashes, ids);
    assert b[..n] == a[..n];
    assert ReadAt(b, n, orgId, start, hashes, ids);
  }

  lemma ZipCons(rows: seq<Row>)
    requires rows != []
    ensures M.Zip(ChainHashes(rows), OperationIds(rows))
         == [M.Paired(rows[0].chainHash, rows[0].operationId)] + M.Zip(ChainHashes(rows[1..]), OperationIds(rows[1..]))
  {
  }

  lemma {:induction false} WindowRead(ops: seq<Row>, orgId: string, start: int)
    ensures var found := InWindow(ops, orgId, start);
            multiset(M.Zip(ChainHashes(found), OperationIds(found))) == WindowLeaves(ops, orgId, start)
  {
    hide M.Zip;
    if ops == [] {
      assert M.Zip(ChainHashes([]), OperationIds([])) == [] by { NothingZipped(); }
    } else {
      var found, rest := InWindow(ops, orgId, start), InWindow(ops[1..], orgId, start);
      WindowRead(ops[1..], orgId, start);
      if ops[0].orgId == orgId && start <= ops[0].createdAt < start + 300_000 {
        assert found == [ops[0]] + rest && found[1..] == rest;
        ZipCons(found);
      } else {
        assert found == rest;
      }
    }
  }

  lemma NothingZipped()
    ensures M.Zip(ChainHashes([]), OperationIds([])) == []
  {
  }

  // ---- The invariant ----

  /** An epoch's row, its object and the operations they stand for. */
  ghost predicate EpochTrue(ops: seq<Row>, objects: map<string, StoredObject>, e: EpochRow) {
    && e.epochKey == "epochs/" + e.orgId + "/" + e.epochId && e.endTime == e.startTime + 300_000
    && e.epochKey in objects && objects[e.epochKey].EpochDoc?
    && var d := objects[e.epochKey];
    && d.docOrg == e.orgId && d.docEpoch == e.epochId && d.layers != [] && e.leafCount == |d.layers[0]|
    && ReadSome(ops, e.orgId, e.startTime, d.layers[0], d.leafOps)
  }

  ghost predicate PlanTrue(ops: seq<Row>, objects: map<string, StoredObject>, q: Scheduler) {
    match q
    case Queried(start, org, found) => ReadSome(ops, org, start, ChainHashes(found), OperationIds(found))
    case Stored(start, org, id, tree) =>
      && EpochKey(org, id) in objects && objects[EpochKey(org, id)] == EpochDoc(org, id, tree.leafOps, tree.layers)
      && tree.layers != [] && tree.layers[0] == tree.leaves && ReadSome(ops, org, start, tree.leaves, tree.leafOps)
    case _ => true
  }

  ghost predicate EpochsTrue(s: State) {
    && (forall i :: 0 <= i < |s.epochs| ==> EpochTrue(s.ops, s.objects, s.epochs[i]))
    && PlanTrue(s.ops, s.objects, s.scheduler)
  }

  lemma EpochTrueStable(a: State, b: State, e: EpochRow)
    requires a.ops <= b.ops && EpochSideKept(a.objects, b.objects) && EpochTrue(a.ops, a.objects, e)
    ensures EpochTrue(b.ops, b.objects, e)
  {
    var d := a.objects[e.epochKey];
    ReadStable(a.ops, b.ops, e.orgId, e.startTime, d.layers[0], d.leafOps);
    hide ReadSome;
    assert EpochSide(e.epochKey);
  }

  lemma PlanTrueStable(a: State, b: State, q: Scheduler)
    requires a.ops <= b.ops && EpochSideKept(a.objects, b.objects) && PlanTrue(a.ops, a.objects, q)
    ensures PlanTrue(b.ops, b.objects, q)
  {
    hide ReadSome, EpochKey, EpochSide;
    match q {
      case Queried(start, org, found) => ReadStable(a.ops, b.ops, org, start, ChainHashes(found), OperationIds(found));
      case Stored(start, org, id, tree) =>
        ReadStable(a.ops, b.ops, org, start, tree.leaves, tree.leafOps);
        EpochKeyIsEpochSide(org, id);
      case _ =>
    }
  }

  lemma QueryIsTrue(s: State)
    requires EpochsTrue(s)
    ensures EpochsTrue(StepEpochQuery(s))
  {
    if s.scheduler.Checked? {
      var q := s.scheduler;
      var found := InWindow(s.ops, q.org, q.start);
      WindowRead(s.ops, q.org, q.start);
      assert s.ops[..|s.ops|] == s.ops;
      assert ReadAt(s.ops, |s.ops|, q.org, q.start, ChainHashes(found), OperationIds(found));
    }
    hide EpochTrue, InWindow, ChainHashes, OperationIds;
  }

  lemma TreeReads(h: Host, ops: seq<Row>, orgId: string, start: int, hashes: seq<string>, ids: seq<string>)
    requires |hashes| == |ids| && ReadSome(ops, orgId, start, hashes, ids)
    ensures var t := M.TreeOf(h.pair, hashes, ids);
            t.layers != [] && t.layers[0] == t.leaves && ReadSome(ops, orgId, start, t.leaves, t.leafOps)
  {
    M.LeavesAreSorted(h.pair, hashes, ids);
    var n: nat :| ReadAt(ops, n, orgId, start, hashes, ids);
    var t := M.TreeOf(h.pair, hashes, ids);
    hide M.Zip, M.Layers, M.Root;
    assert ReadAt(ops, n, orgId, start, t.leaves, t.leafOps);
  }

  lemma PutKeepsObjects(h: Host, s: State, id: string)
    ensures var s' := StepEpochPut(h, s, id);
            EpochSideKept(s.objects, s'.objects) && s'.ops == s.ops && s'.epochs == s.epochs
  {
    hide M.TreeOf, ChainHashes, OperationIds, EpochKey;
  }

  lemma PutPlans(h: Host, s: State, id: string)
    requires PlanTrue(s.ops, s.objects, s.scheduler)
    ensures var s' := StepEpochPut(h, s, id); PlanTrue(s'.ops, s'.objects, s'.scheduler)
  {
    hide M.TreeOf, ReadSome, ChainHashes, OperationIds, FreshEpochId, EpochKey;
    if s.scheduler.Queried? && FreshEpochId(s, s.scheduler.org, id) {
      var q := s.scheduler;
      TreeReads(h, s.ops, q.org, q.start, ChainHashes(q.found), OperationIds(q.found));
    }
  }

  lemma PutIsTrue(h: Host, s: State, id: string)
    requires EpochsTrue(s)
    ensures EpochsTrue(StepEpochPut(h, s, id))
  {
    hide StepEpochPut, EpochTrue, PlanTrue, EpochSideKept;
    var s' := StepEpochPut(h, s, id);
    PutKeepsObjects(h, s, id);
    PutPlans(h, s, id);
    forall i | 0 <= i < |s.epochs| ensures EpochTrue(s'.ops, s'.objects, s'.epochs[i]) {
      EpochTrueStable(s, s', s.epochs[i]);
    }
  }

  lemma InsertIsTrue(s: State)
    requires EpochsTrue(s)
    ensures EpochsTrue(StepEpochInsert(s))
  {
    var s' := StepEpochInsert(s);
    if s.scheduler.Stored? {
      assert s'.epochs[..|s.epochs|] == s.epochs;
      StoredIsTrue(s);
      hide EpochTrue;
      assert s'.epochs[|s.epochs|] == s'.epochs[|s'.epochs| - 1];
    }
  }

  lemma StoredIsTrue(s: State)
    requires s.scheduler.Stored? && PlanTrue(s.ops, s.objects, s.scheduler)
    ensures var e := StepEpochInsert(s).epochs[|s.epochs|]; EpochTrue(s.ops, s.objects, e)
  {
    hide ReadSome;
  }

  /** Every other step: the table grows, epoch objects stay, and the scheduler plans nothing new. */
  lemma OtherIsTrue(h: Host, s: State, l: Label)
    requires Core(h, s) && WriteOk(s, l, OffEpochs) && EpochsTrue(s)
    requires !l.EpochQuery? && !l.EpochPut? && !l.EpochInsert?
    ensures EpochsTrue(Step(h, s, l))
  {
    hide Core, WriteOk, EpochTrue, PlanTrue, EpochSideKept;
    var s' := Step(h, s, l);
    StepKeepsEpochSide(h, s, l);
    StepOps(h, s, l);
    PlansNothing(h, s, l);
    forall i | 0 <= i < |s'.epochs| ensures EpochTrue(s'.ops, s'.objects, s'.epochs[i]) {
      EpochTrueStable(s, s', s.epochs[i]);
    }
    PlanTrueStable(s, s', s.scheduler);
    if s'.scheduler != s.scheduler { NoPlan(s'); }
  }

  lemma NoPlan(s: State)
    requires !s.scheduler.Queried? && !s.scheduler.Stored?
    ensures PlanTrue(s.ops, s.objects, s.scheduler)
  {
  }

  lemma PlansNothing(h: Host, s: State, l: Label)
    requires !l.EpochQuery? && !l.EpochPut? && !l.EpochInsert?
    ensures var s' := Step(h, s, l);
            s'.epochs == s.epochs && (s'.scheduler == s.scheduler || (!s'.scheduler.Queried? && !s'.scheduler.Stored?))
  {
    hide NextPhase, Written, ValidateEor, EpochExists;
    if l.Advance? && l.tid in s.threads {
      WritesGrow(s, s.threads[l.tid], NextPhase(h, s, s.threads[l.tid], l.receiptId, l.queueId, l.pkFirst));
    }
  }

  lemma StepKeepsTrue(h: Host, s: State, l: Label)
    requires Core(h, s) && WriteOk(s, l, OffEpochs) && EpochsTrue(s)
    ensures EpochsTrue(Step(h, s, l))
  {
    hide Core, WriteOk, EpochsTrue, StepEpochQuery, StepEpochPut, StepEpochInsert;
    match l {
      case EpochQuery => QueryIsTrue(s);
      case EpochPut(id) => PutIsTrue(h, s, id);
      case EpochInsert => InsertIsTrue(s);
      case _ => OtherIsTrue(h, s, l);
    }
  }

  lemma {:induction false} RunKeepsTrue(h: Host, s: State, run: seq<Label>)
    requires Core(h, s) && EpochsTrue(s) && Writes(h, s, run, OffEpochs)
    ensures EpochsTrue(Exec(h, s, run))
    decreases |run|
  {
    hide Core, EpochsTrue, Step, WriteOk;
    if run != [] {
      StepKeepsCore(h, s, run[0]);
      StepKeepsTrue(h, s, run[0]);
      RunKeepsTrue(h, Step(h, s, run[0]), run[1..]);
    }
  }

  /**
    Epoch soundness: whatever is interleaved, an epoch's object holds, with their operation ids
    and as often as there are, the chain hashes of its organisation's operations in its window
    as the table was at one moment, and nothing else; its root and leaf count are theirs.
  */
  lemma EpochSound(h: Host, run: seq<Label>, i: nat)
    requires Writes(h, Initial, run, OffEpochs) && i < |Exec(h, Initial, run).epochs|
    ensures var s := Exec(h, Initial, run); var e := s.epochs[i];
            && EpochTrue(s.ops, s.objects, e)
            && e.rootHash == M.Root(h.pair, s.objects[e.epochKey].layers[0])
            && s.objects[e.epochKey].layers == M.Layers(h.pair, s.objects[e.epochKey].layers[0])
  {
    hide Exec, Writes, M.Root, M.Layers, EpochTrue;
    InitialCore(h);
    RunKeepsEpochs(h, Initial, run);
    RunKeepsTrue(h, Initial, run);
    var s := Exec(h, Initial, run);
    assert EpochOk(h, s.objects, s.epochs[i]);
  }

  /** In particular every leaf is a committed operation's of that organisation and window. */
  lemma {:induction false} LeafIsCommitted(ops: seq<Row>, orgId: string, start: int, p: M.Paired)
    requires p in WindowLeaves(ops, orgId, start)
    ensures exists r :: r in ops && r.orgId == orgId && start <= r.createdAt < start + 300_000
                        && r.chainHash == p.hash && r.operationId == p.opId
  {
    if p in WindowLeaves(ops[1..], orgId, start) {
      LeafIsCommitted(ops[1..], orgId, start, p);
    } else {
      assert ops[0] in ops;
    }
  }

  lemma {:induction false} CommittedIsLeaf(ops: seq<Row>, orgId: string, start: int, r: Row)
    requires r in ops && r.orgId == orgId && start <= r.createdAt < start + 300_000
    ensures M.Paired(r.chainHash, r.operationId) in WindowLeaves(ops, orgId, start)
  {
    assert ops == [ops[0]] + ops[1..];
    if r != ops[0] { CommittedIsLeaf(ops[1..], orgId, start, r); }
  }
}
