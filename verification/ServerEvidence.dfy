/**
  The evidence objects and the epochs beside the tables. Object keys are ids joined with `/`,
  so keys of different kinds can meet: it is stated here exactly when. What a result needs of
  the ids is asked only of the objects that the submissions of a run write; whatever is
  refused before it writes may carry any ids.
*/
module ServerEvidence {
  import opened Text
  import opened Server
  import opened ServerInvariants
  import M = Merkle
  import Order

  // ---- When object keys meet ----

  predicate OwnerFree(org: string, agent: string) { Free('/', org) && Free('/', agent) }

  /** Ids under which no evidence key is a receipt key; other slashes in the operation id do no harm. */
  predicate IdsFree(org: string, agent: string, op: string) { OwnerFree(org, agent) && !("receipts/" <= op) }

  predicate EorIdsFree(e: Eor) { IdsFree(e.body.orgId, e.body.agentId, e.body.operationId) }

  lemma PayloadKeyParts(o: string, a: string, x: string)
    ensures PayloadKey(o, a, x) == o + ['/'] + (a + ['/'] + x)
  {
    assert o + "/" + a + "/" + x == o + ['/'] + (a + ['/'] + x);
  }

  lemma PayloadKeyInjective(o: string, a: string, x: string, o': string, a': string, x': string)
    requires OwnerFree(o, a) && OwnerFree(o', a')
    ensures PayloadKey(o, a, x) == PayloadKey(o', a', x') <==> o == o' && a == a' && x == x'
  {
    PayloadKeyParts(o, a, x);
    PayloadKeyParts(o', a', x');
    if PayloadKey(o, a, x) == PayloadKey(o', a', x') {
      SplitFirst('/', o, a + ['/'] + x, o', a' + ['/'] + x');
      SplitFirst('/', a, x, a', x');
    }
  }

  lemma ReceiptIsPayload(o: string, a: string, x: string)
    ensures ReceiptKey(o, a, x) == PayloadKey(o, a, "receipts/" + x)
  {
    assert "/receipts/" == "/" + "receipts/";
    assert o + "/" + a + "/" + ("receipts/" + x) == o + "/" + a + "/receipts/" + x;
  }

  lemma ReceiptKeyInjective(o: string, a: string, x: string, o': string, a': string, x': string)
    requires OwnerFree(o, a) && OwnerFree(o', a')
    ensures ReceiptKey(o, a, x) == ReceiptKey(o', a', x') <==> o == o' && a == a' && x == x'
  {
    ReceiptIsPayload(o, a, x);
    ReceiptIsPayload(o', a', x');
    PayloadKeyInjective(o, a, "receipts/" + x, o', a', "receipts/" + x');
    assert ("receipts/" + x)[9..] == x && ("receipts/" + x')[9..] == x';
  }

  /** One operation's evidence key is another's receipt key exactly in this one way. */
  lemma PayloadMeetsReceipt(o: string, a: string, x: string, o': string, a': string, x': string)
    requires OwnerFree(o, a) && OwnerFree(o', a')
    ensures PayloadKey(o, a, x) == ReceiptKey(o', a', x') <==> o == o' && a == a' && x == "receipts/" + x'
  {
    ReceiptIsPayload(o', a', x');
    PayloadKeyInjective(o, a, x, o', a', "receipts/" + x');
  }

  /** The keys of epoch objects. */
  predicate EpochSide(key: string) { "epochs/" <= key }

  /** A submission reaches epoch objects exactly through its organisation id. */
  lemma KeyEpochSide(o: string, rest: string)
    ensures EpochSide(o + "/" + rest) <==> EpochSide(o + "/")
  {
    var key := o + "/" + rest;
    if EpochSide(key) {
      assert key[|o|] == '/';
      assert (o + "/")[..7] == key[..7];
    }
    if EpochSide(o + "/") { assert key[..7] == (o + "/")[..7]; }
  }

  // ---- What is asked of the objects that submissions write ----

  predicate Puts(p: Phase) { p.PutPayload? || p.PutReceipt? }

  /** If the step writes a submission's object, its writer meets the condition. */
  ghost predicate WriteOk(s: State, l: Label, ok: (State, Thread) -> bool) {
    l.Advance? && l.tid in s.threads && Puts(s.threads[l.tid].phase) ==> ok(s, s.threads[l.tid])
  }

  /** So does every object the submissions of a run write. */
  ghost predicate Writes(h: Host, s: State, run: seq<Label>, ok: (State, Thread) -> bool)
    decreases |run|
  {
    run == [] || (WriteOk(s, run[0], ok) && Writes(h, Step(h, s, run[0]), run[1..], ok))
  }

  /** Under ids that keep evidence and receipts apart. */
  ghost predicate Apart(s: State, t: Thread) { EorIdsFree(t.eor) }

  /** Under an organisation id whose keys are no epoch keys. */
  ghost predicate OffEpochs(s: State, t: Thread) { !EpochSide(t.eor.body.orgId + "/") }

  // ---- The evidence invariant ----

  ghost predicate ObjectOk(h: Host, keys: map<string, AgentKey>, key: string, obj: StoredObject) {
    match obj
    case Evidence(e) => key == EorKey(e) && EorIdsFree(e) && SigOk(h, keys, e)
    case ReceiptDoc(ear) =>
      && key == EarKey(ear.fields) && ear.receiptHash == h.receiptHash(ear.fields)
      && OwnerFree(ear.fields.orgId, ear.fields.agentId)
    case EpochDoc(_, _, _, _) => true
  }

  ghost predicate ObjectsOk(h: Host, keys: map<string, AgentKey>, objects: map<string, StoredObject>) {
    forall k :: k in objects ==> ObjectOk(h, keys, k, objects[k])
  }

  predicate HasEvidence(objects: map<string, StoredObject>, key: string) {
    key in objects && objects[key].Evidence?
  }

  predicate HasReceipt(objects: map<string, StoredObject>, key: string) {
    key in objects && objects[key].ReceiptDoc?
  }

  ghost predicate RowStored(objects: map<string, StoredObject>, r: Row) {
    HasEvidence(objects, r.payloadKey) && HasReceipt(objects, ReceiptKey(r.orgId, r.agentId, r.operationId))
  }

  ghost predicate RowsStored(ops: seq<Row>, objects: map<string, StoredObject>) {
    forall i :: 0 <= i < |ops| ==> RowStored(objects, ops[i])
  }

  ghost predicate ThreadStored(objects: map<string, StoredObject>, t: Thread) {
    match t.phase
    case PutReceipt(_) => HasEvidence(objects, EorKey(t.eor))
    case Commit(ear) => HasEvidence(objects, EorKey(t.eor)) && HasReceipt(objects, EarKey(ear.fields))
    case _ => true
  }

  ghost predicate ThreadsStored(s: State) {
    forall tid :: tid in s.threads ==> ThreadStored(s.objects, s.threads[tid])
  }

  ghost predicate Evid(h: Host, s: State) {
    ObjectsOk(h, s.keys, s.objects) && RowsStored(s.ops, s.objects) && ThreadsStored(s)
  }

  // ---- Objects keep their kind ----

  ghost predicate SameKind(a: StoredObject, b: StoredObject) {
    (a.Evidence? ==> b.Evidence?) && (a.ReceiptDoc? ==> b.ReceiptDoc?)
  }

  ghost predicate ObjectsGrow(a: map<string, StoredObject>, b: map<string, StoredObject>) {
    forall k :: k in a ==> k in b && SameKind(a[k], b[k])
  }

  lemma KindsApart(h: Host, keys: map<string, AgentKey>, key: string, a: StoredObject, b: StoredObject)
    requires ObjectOk(h, keys, key, a) && ObjectOk(h, keys, key, b)
    requires !b.EpochDoc?
    ensures SameKind(a, b)
  {
    match (a, b) {
      case (Evidence(e), ReceiptDoc(r)) => EvidenceIsNoReceipt(e, r);
      case (ReceiptDoc(r), Evidence(e)) => EvidenceIsNoReceipt(e, r);
      case _ =>
    }
  }

  lemma EvidenceIsNoReceipt(e: Eor, r: Ear)
    requires EorIdsFree(e) && OwnerFree(r.fields.orgId, r.fields.agentId)
    ensures EorKey(e) != EarKey(r.fields)
  {
    var b, f := e.body, r.fields;
    PayloadMeetsReceipt(b.orgId, b.agentId, b.operationId, f.orgId, f.agentId, f.operationId);
  }

  lemma PutKeepsKinds(h: Host, keys: map<string, AgentKey>, objects: map<string, StoredObject>,
                      key: string, obj: StoredObject)
    requires ObjectsOk(h, keys, objects) && ObjectOk(h, keys, key, obj)
    requires obj.EpochDoc? ==> key !in objects
    ensures ObjectsOk(h, keys, objects[key := obj]) && ObjectsGrow(objects, objects[key := obj])
  {
    hide ObjectOk;
    if key in objects { KindsApart(h, keys, key, objects[key], obj); }
  }

  lemma ObjectsOkKeys(h: Host, keys: map<string, AgentKey>, keys': map<string, AgentKey>, objects: map<string, StoredObject>)
    requires ObjectsOk(h, keys, objects) && KeysExtend(keys, keys')
    ensures ObjectsOk(h, keys', objects)
  {
    forall k | k in objects ensures ObjectOk(h, keys', k, objects[k]) { }
  }

  lemma StoredStable(a: map<string, StoredObject>, b: map<string, StoredObject>, ops: seq<Row>)
    requires ObjectsGrow(a, b) && RowsStored(ops, a)
    ensures RowsStored(ops, b)
  {
    forall i | 0 <= i < |ops| ensures RowStored(b, ops[i]) { }
  }

  lemma ThreadStoredStable(a: map<string, StoredObject>, b: map<string, StoredObject>, t: Thread)
    requires ObjectsGrow(a, b) && ThreadStored(a, t)
    ensures ThreadStored(b, t)
  {
  }

  // ---- Every step keeps it ----

  /** Objects after a submission's step. */
  lemma SubmissionObjects(h: Host, s: State, t: Thread, next: Phase)
    requires ObjectsOk(h, s.keys, s.objects) && ThreadOk(h, s.keys, s.ops, t)
    requires Puts(t.phase) ==> EorIdsFree(t.eor)
    ensures var w := Written(s, t, next);
            ObjectsOk(h, s.keys, w.objects) && ObjectsGrow(s.objects, w.objects)
  {
    hide SigOk, HeadSeen, RowOf;
    match t.phase {
      case PutPayload(_, _) => PutKeepsKinds(h, s.keys, s.objects, EorKey(t.eor), Evidence(t.eor));
      case PutReceipt(ear) => PutKeepsKinds(h, s.keys, s.objects, EarKey(ear.fields), ReceiptDoc(ear));
      case _ => assert Written(s, t, next).objects == s.objects;
    }
  }

  lemma SubmissionRows(h: Host, s: State, t: Thread, next: Phase)
    requires ObjectsOk(h, s.keys, s.objects) && ThreadOk(h, s.keys, s.ops, t)
    requires Puts(t.phase) ==> EorIdsFree(t.eor)
    requires RowsStored(s.ops, s.objects) && ThreadStored(s.objects, t)
    ensures RowsStored(Written(s, t, next).ops, Written(s, t, next).objects)
  {
    var w := Written(s, t, next);
    SubmissionObjects(h, s, t, next);
    StoredStable(s.objects, w.objects, s.ops);
    if t.phase.Commit? && next.Enqueue? {
      hide ObjectsOk, ThreadOk, RowStored, RowOf;
      NewRowStored(h, s, t, t.phase.ear);
    } else {
      assert w.ops == s.ops;
    }
  }

  lemma SubmissionThread(h: Host, s: State, t: Thread, rid: string, qid: string, pk: bool)
    requires ThreadOk(h, s.keys, s.ops, t) && ThreadStored(s.objects, t)
    requires ObjectsGrow(s.objects, Written(s, t, NextPhase(h, s, t, rid, qid, pk)).objects)
    ensures var next := NextPhase(h, s, t, rid, qid, pk);
            ThreadStored(Written(s, t, next).objects, t.(phase := next))
  {
    hide SigOk, HeadSeen, FindAgent, FindKey, LatestOp, EorInput, RowOf, IdTaken, SeqTaken, ReceiptTaken;
    hide PayloadKey, ReceiptKey;
  }

  lemma NewRowStored(h: Host, s: State, t: Thread, ear: Ear)
    requires t.phase == Commit(ear) && ThreadOk(h, s.keys, s.ops, t) && ThreadStored(s.objects, t)
    ensures RowStored(s.objects, OwnRow(t, ear))
  {
  }

  lemma SubmissionKeepsEvid(h: Host, s: State, l: Label)
    requires Core(h, s) && Evid(h, s) && l.Advance? && l.tid in s.threads && WriteOk(s, l, Apart)
    ensures Evid(h, Step(h, s, l))
  {
    var t := s.threads[l.tid];
    var next := NextPhase(h, s, t, l.receiptId, l.queueId, l.pkFirst);
    var w := Written(s, t, next);
    WritesGrow(s, t, next);
    SubmissionObjects(h, s, t, next);
    SubmissionRows(h, s, t, next);
    SubmissionThread(h, s, t, l.receiptId, l.queueId, l.pkFirst);
    assert ThreadStored(w.objects, t.(phase := next));
    var s' := Step(h, s, l);
    hide Written, NextPhase, ObjectsOk, RowsStored, ThreadOk, ThreadStored, ObjectsGrow;
    assert s' == w.(threads := w.threads[l.tid := t.(phase := next)]);
    forall tid | tid in s'.threads ensures ThreadStored(s'.objects, s'.threads[tid]) {
      if tid != l.tid { ThreadStoredStable(s.objects, w.objects, s.threads[tid]); }
    }
  }

  lemma EpochPutKeepsEvid(h: Host, s: State, id: string)
    requires Evid(h, s)
    ensures Evid(h, StepEpochPut(h, s, id))
  {
    hide M.TreeOf;
    if s.scheduler.Queried? && FreshEpochId(s, s.scheduler.org, id) {
      var q := s.scheduler;
      var tree := M.TreeOf(h.pair, ChainHashes(q.found), OperationIds(q.found));
      var key, doc := EpochKey(q.org, id), EpochDoc(q.org, id, tree.leafOps, tree.layers);
      PutKeepsKinds(h, s.keys, s.objects, key, doc);
      var objects := s.objects[key := doc];
      StoredStable(s.objects, objects, s.ops);
      forall tid | tid in s.threads ensures ThreadStored(objects, s.threads[tid]) {
        ThreadStoredStable(s.objects, objects, s.threads[tid]);
      }
    }
  }

  lemma OtherStepKeepsEvid(h: Host, s: State, l: Label)
    requires Core(h, s) && Evid(h, s) && !l.EpochPut? && !(l.Advance? && l.tid in s.threads)
    ensures Evid(h, Step(h, s, l))
  {
    var s' := Step(h, s, l);
    StepKeys(h, s, l);
    StepOps(h, s, l);
    hide ObjectsOk, RowsStored, Core, ValidateEor, InWindow, M.TreeOf, Written, NextPhase;
    ObjectsOkKeys(h, s.keys, s'.keys, s.objects);
    assert s'.objects == s.objects;
    forall tid | tid in s'.threads ensures ThreadStored(s'.objects, s'.threads[tid]) { }
  }

  lemma StepKeepsEvid(h: Host, s: State, l: Label)
    requires Core(h, s) && Evid(h, s) && WriteOk(s, l, Apart)
    ensures Evid(h, Step(h, s, l))
  {
    hide Evid, Core, Written, NextPhase, M.TreeOf, WriteOk;
    if l.Advance? && l.tid in s.threads {
      SubmissionKeepsEvid(h, s, l);
    } else if l.EpochPut? {
      EpochPutKeepsEvid(h, s, l.epochId);
    } else {
      OtherStepKeepsEvid(h, s, l);
    }
  }

  lemma {:induction false} RunKeepsEvid(h: Host, s: State, run: seq<Label>)
    requires Core(h, s) && Evid(h, s) && Writes(h, s, run, Apart)
    ensures Evid(h, Exec(h, s, run))
    decreases |run|
  {
    hide Core, Evid, Step, WriteOk;
    if run != [] {
      StepKeepsCore(h, s, run[0]);
      StepKeepsEvid(h, s, run[0]);
      RunKeepsEvid(h, Step(h, s, run[0]), run[1..]);
    }
  }

  // ---- Epoch windows: nothing any submission does reaches them ----

  ghost predicate EpochTimesOk(e: EpochRow) {
    e.startTime % EPOCH_INTERVAL_MS == 0 && e.endTime == e.startTime + EPOCH_INTERVAL_MS
  }

  /** Whole windows, each taken once, and none that the scheduler is still at. */
  ghost predicate WindowsOk(epochs: seq<EpochRow>, q: Scheduler) {
    && (forall i :: 0 <= i < |epochs| ==> EpochTimesOk(epochs[i]))
    && (forall i, j :: 0 <= i < j < |epochs| ==>
          !(epochs[i].orgId == epochs[j].orgId && epochs[i].startTime == epochs[j].startTime))
    && (!q.Idle? ==> q.start % EPOCH_INTERVAL_MS == 0)
    && (!q.Idle? && !q.Window? ==> !EpochExists(epochs, q.org, q.start, q.start + EPOCH_INTERVAL_MS))
  }

  lemma StartOk(now: int)
    ensures EpochStart(now) % EPOCH_INTERVAL_MS == 0
  {
  }

  lemma InsertKeepsWindows(s: State)
    requires WindowsOk(s.epochs, s.scheduler)
    ensures WindowsOk(StepEpochInsert(s).epochs, StepEpochInsert(s).scheduler)
  {
    if s.scheduler.Stored? {
      var e := StepEpochInsert(s).epochs[|s.epochs|];
      forall i | 0 <= i < |s.epochs|
        ensures !(s.epochs[i].orgId == e.orgId && s.epochs[i].startTime == e.startTime)
      {
        assert EpochTimesOk(s.epochs[i]);
      }
    }
  }

  lemma SubmissionSparesEpochs(h: Host, s: State, l: Label)
    requires !l.EpochInsert?
    ensures Step(h, s, l).epochs == s.epochs
    ensures l.Advance? ==> Step(h, s, l).scheduler == s.scheduler
  {
    hide Written, NextPhase, M.TreeOf, InWindow, ValidateEor;
    if l.Advance? && l.tid in s.threads {
      WritesGrow(s, s.threads[l.tid], NextPhase(h, s, s.threads[l.tid], l.receiptId, l.queueId, l.pkFirst));
    }
  }

  lemma StepKeepsWindows(h: Host, s: State, l: Label)
    requires WindowsOk(s.epochs, s.scheduler)
    ensures WindowsOk(Step(h, s, l).epochs, Step(h, s, l).scheduler)
  {
    if l.EpochInsert? {
      InsertKeepsWindows(s);
    } else {
      SubmissionSparesEpochs(h, s, l);
      hide Written, NextPhase, M.TreeOf, InWindow, EpochTimesOk;
      if l.EpochTick? { StartOk(l.now); }
    }
  }

  lemma {:induction false} RunKeepsWindows(h: Host, s: State, run: seq<Label>)
    requires WindowsOk(s.epochs, s.scheduler)
    ensures WindowsOk(Exec(h, s, run).epochs, Exec(h, s, run).scheduler)
    decreases |run|
  {
    hide WindowsOk, Step;
    if run != [] {
      StepKeepsWindows(h, s, run[0]);
      RunKeepsWindows(h, Step(h, s, run[0]), run[1..]);
    }
  }

  // ---- Epoch objects: only an organisation called after them reaches them ----

  ghost predicate LayersOk(h: Host, layers: seq<seq<string>>) {
    layers != [] && layers[0] != [] && layers == M.Layers(h.pair, layers[0])
  }

  ghost predicate EpochOk(h: Host, objects: map<string, StoredObject>, e: EpochRow) {
    && EpochSide(e.epochKey) && e.epochKey in objects && objects[e.epochKey].EpochDoc?
    && var layers := objects[e.epochKey].layers;
    && LayersOk(h, layers)
    && e.rootHash == M.Root(h.pair, layers[0]) && e.leafCount == |layers[0]|
  }

  ghost predicate EpochsOk(h: Host, epochs: seq<EpochRow>, objects: map<string, StoredObject>) {
    forall i :: 0 <= i < |epochs| ==> EpochOk(h, objects, epochs[i])
  }

  ghost predicate TreeOk(h: Host, t: M.Tree) {
    && t.leaves != [] && t.layers == M.Layers(h.pair, t.leaves) && t.root == M.Root(h.pair, t.leaves)
  }

  ghost predicate SchedulerOk(h: Host, objects: map<string, StoredObject>, q: Scheduler) {
    match q
    case Queried(_, _, found) => found != []
    case Stored(_, org, id, tree) =>
      && TreeOk(h, tree) && EpochKey(org, id) in objects
      && objects[EpochKey(org, id)] == EpochDoc(org, id, tree.leafOps, tree.layers)
    case _ => true
  }

  ghost predicate EpochEvid(h: Host, s: State) {
    EpochsOk(h, s.epochs, s.objects) && SchedulerOk(h, s.objects, s.scheduler)
  }

  /** Every epoch object is where it was, as it was. */
  ghost predicate EpochSideKept(a: map<string, StoredObject>, b: map<string, StoredObject>) {
    forall k :: k in a && EpochSide(k) ==> k in b && b[k] == a[k]
  }

  /** Everybody but a submission leaves existing objects alone. */
  lemma OtherObjects(h: Host, s: State, l: Label)
    requires !(l.Advance? && l.tid in s.threads)
    ensures forall k :: k in s.objects ==> k in Step(h, s, l).objects && Step(h, s, l).objects[k] == s.objects[k]
  {
    hide Written, NextPhase, M.TreeOf, ValidateEor, InWindow;
  }

  /** Both keys of a submission lie under the epochs' prefix exactly when its organisation does. */
  lemma KeysEpochSide(b: Signable)
    ensures EpochSide(PayloadKey(b.orgId, b.agentId, b.operationId)) <==> EpochSide(b.orgId + "/")
    ensures EpochSide(ReceiptKey(b.orgId, b.agentId, b.operationId)) <==> EpochSide(b.orgId + "/")
  {
    assert PayloadKey(b.orgId, b.agentId, b.operationId) == b.orgId + "/" + (b.agentId + "/" + b.operationId);
    KeyEpochSide(b.orgId, b.agentId + "/" + b.operationId);
    assert ReceiptKey(b.orgId, b.agentId, b.operationId) == b.orgId + "/" + (b.agentId + "/receipts/" + b.operationId);
    KeyEpochSide(b.orgId, b.agentId + "/receipts/" + b.operationId);
    hide EpochSide, PayloadKey, ReceiptKey;
  }

  lemma StepKeepsEpochSide(h: Host, s: State, l: Label)
    requires Core(h, s) && WriteOk(s, l, OffEpochs)
    ensures EpochSideKept(s.objects, Step(h, s, l).objects)
  {
    if l.Advance? && l.tid in s.threads {
      var t := s.threads[l.tid];
      assert ThreadOk(h, s.keys, s.ops, t);
      KeysEpochSide(t.eor.body);
      hide EpochSide, PayloadKey, ReceiptKey, RowOf, ChainOk, TablesOk, SigOk, HeadSeen, NextPhase;
    } else {
      OtherObjects(h, s, l);
    }
  }

  lemma TreeOfOk(h: Host, found: seq<Row>)
    requires found != []
    ensures var tree := M.TreeOf(h.pair, ChainHashes(found), OperationIds(found));
            && TreeOk(h, tree) && tree.leaves == tree.layers[0]
            && forall r :: r in found ==> r.chainHash in tree.leaves
  {
    var hashes := ChainHashes(found);
    M.LeavesAreSorted(h.pair, hashes, OperationIds(found));
    forall r | r in found ensures r.chainHash in M.TreeOf(h.pair, hashes, OperationIds(found)).leaves {
      var i :| 0 <= i < |found| && found[i] == r;
      assert hashes[i] == r.chainHash;
      Order.SortMember(hashes, M.TextKey(), r.chainHash);
    }
  }

  lemma EpochPutKeepsEpochs(h: Host, s: State, id: string)
    requires EpochEvid(h, s)
    ensures EpochEvid(h, StepEpochPut(h, s, id))
  {
    if s.scheduler.Queried? && FreshEpochId(s, s.scheduler.org, id) {
      TreeOfOk(h, s.scheduler.found);
      var s' := StepEpochPut(h, s, id);
      hide M.TreeOf, M.Layers, M.Root, LayersOk, TreeOk;
      forall i | 0 <= i < |s.epochs| ensures EpochOk(h, s'.objects, s'.epochs[i]) {
        assert EpochOk(h, s.objects, s.epochs[i]);
      }
    }
  }

  lemma EpochInsertKeepsEpochs(h: Host, s: State)
    requires EpochEvid(h, s)
    ensures EpochEvid(h, StepEpochInsert(s))
  {
    hide M.TreeOf, M.Layers, M.Root;
    if s.scheduler.Stored? {
      var q, s' := s.scheduler, StepEpochInsert(s);
      assert q.tree.layers[0] == q.tree.leaves;
      assert EpochOk(h, s.objects, s'.epochs[|s.epochs|]);
    }
  }

  lemma OtherStepKeepsEpochs(h: Host, s: State, l: Label)
    requires Core(h, s) && EpochEvid(h, s) && WriteOk(s, l, OffEpochs) && !l.EpochPut? && !l.EpochInsert?
    ensures EpochEvid(h, Step(h, s, l))
  {
    hide Core, WriteOk, LayersOk, TreeOk, M.Root, M.TreeOf, Written, NextPhase, EpochSide;
    var s' := Step(h, s, l);
    StepKeepsEpochSide(h, s, l);
    SubmissionSparesEpochs(h, s, l);
    forall i | 0 <= i < |s.epochs| ensures EpochOk(h, s'.objects, s.epochs[i]) {
      assert EpochOk(h, s.objects, s.epochs[i]);
    }
    if s.scheduler.Stored? { EpochKeyIsEpochSide(s.scheduler.org, s.scheduler.epochId); }
  }

  lemma EpochKeyIsEpochSide(org: string, epochId: string)
    ensures EpochSide(EpochKey(org, epochId))
  {
  }

  lemma StepKeepsEpochs(h: Host, s: State, l: Label)
    requires Core(h, s) && EpochEvid(h, s) && WriteOk(s, l, OffEpochs)
    ensures EpochEvid(h, Step(h, s, l))
  {
    hide Core, EpochEvid, WriteOk, M.TreeOf, Written, NextPhase;
    match l {
      case EpochPut(id) => EpochPutKeepsEpochs(h, s, id);
      case EpochInsert => EpochInsertKeepsEpochs(h, s);
      case _ => OtherStepKeepsEpochs(h, s, l);
    }
  }

  lemma {:induction false} RunKeepsEpochs(h: Host, s: State, run: seq<Label>)
    requires Core(h, s) && EpochEvid(h, s) && Writes(h, s, run, OffEpochs)
    ensures EpochEvid(h, Exec(h, s, run))
    decreases |run|
  {
    hide Core, EpochEvid, Step, WriteOk;
    if run != [] {
      StepKeepsCore(h, s, run[0]);
      StepKeepsEpochs(h, s, run[0]);
      RunKeepsEpochs(h, Step(h, s, run[0]), run[1..]);
    }
  }
}
