/**
  The server as a step machine. One step is one access to the cache, the database or the
  object store; a label says which submission, administrator or scheduler takes it, with the
  clock and the generated ids it sees. A run is any sequence of labels, so statements about
  all runs are statements about every interleaving of any number of submissions. A label
  that is not enabled changes nothing.
*/
module Server {
  import opened Text
  import opened Chain
  import M = Merkle

  // ---- Records ----

  /** The EOR fields under the agent's signature. */
  datatype Signable = Signable(
    opVersion: string, operationId: string, orgId: string, agentId: string,
    issuedAt: int, ttlMs: int, nonce: string, operationType: string,
    subject: string, action: string, payload: Option<string>,
    payloadHash: string, prevChainHash: string, kid: string)

  /**
    Members of a posted body that are not the record's own. They are unsigned, but are stored
    with it and read when the object is taken for a receipt or for an epoch: of the nine
    receipt members those that a record does not have, as JSON texts, and a stored tree.
  */
  datatype Extra = Extra(
    receipt: map<string, string>, receiptHash: Option<string>,
    leafOps: seq<string>, layers: Option<seq<seq<string>>>)

  datatype Eor = Eor(body: Signable, signature: string, extra: Extra)

  datatype ReceiptFields = ReceiptFields(
    version: string, receiptId: string, operationId: string, orgId: string, agentId: string,
    serverReceivedAt: int, seqNo: int, chainHash: string, queueMessageId: string)

  datatype Ear = Ear(fields: ReceiptFields, receiptHash: string, signature: string)

  datatype AgentStatus = Active | Frozen | Revoked
  datatype Agent = Agent(orgId: string, status: AgentStatus)

  datatype KeyStatus = KeyActive | KeyRetired | KeyRevoked
  datatype AgentKey = AgentKey(agentId: string, publicKey: string, status: KeyStatus)

  datatype Row = Row(
    operationId: string, orgId: string, agentId: string, seqNo: int,
    operationType: string, issuedAt: int, ttlMs: int, nonce: string, subject: string, action: string,
    payloadHash: string, prevChainHash: string, chainHash: string, kid: string, signature: string,
    payloadKey: string, createdAt: SafeInt)

  datatype ReceiptRow = ReceiptRow(receiptId: string, operationId: string, receiptKey: string)

  datatype EpochRow = EpochRow(
    epochId: string, orgId: string, startTime: int, endTime: int,
    rootHash: Option<string>, leafCount: int, epochKey: string)

  datatype StoredObject =
    | Evidence(eor: Eor)
    | ReceiptDoc(ear: Ear)
    | EpochDoc(docOrg: string, docEpoch: string, leafOps: seq<string>, layers: seq<seq<string>>)

  datatype ErrorCode =
    | ValidationError | TtlExpired | PayloadTooLarge | ReplayDetected | UnknownAgent
    | AgentFrozen | AgentRevoked | InvalidSignature | SigningKeyRevoked | SigningKeyRetired

  datatype Outcome =
    | Accepted(receipt: Ear)
    | Refused(code: ErrorCode)
    | PrevHashMismatch(expected: string, actual: string)
    | Failed

  datatype Phase =
    | GetNonce | PutNonce | ReadAgent | ReadKey | ReadHead
    | PutPayload(seqNo: int, chainHash: string)
    | PutReceipt(ear: Ear) | Commit(ear: Ear) | Enqueue(ear: Ear)
    | ReadWinner(seqNo: int)
    | Done(outcome: Outcome)

  datatype Thread = Thread(eor: Eor, receivedAt: SafeInt, phase: Phase)

  datatype Scheduler =
    | Idle
    | Window(start: int)
    | Checked(start: int, org: string)
    | Queried(start: int, org: string, found: seq<Row>)
    | Stored(start: int, org: string, epochId: string, tree: M.Tree)

  datatype State = State(
    agents: map<string, Agent>, keys: map<string, AgentKey>,
    ops: seq<Row>, receipts: seq<ReceiptRow>, epochs: seq<EpochRow>,
    objects: map<string, StoredObject>, nonces: set<string>,
    threads: map<nat, Thread>, scheduler: Scheduler)

  /** What the server calls and does not define. */
  datatype Host = Host(
    sha: string -> string,
    receiptHash: ReceiptFields -> string,
    viewHash: (Signable, map<string, string>) -> string,
    verify: (string, string, Signable) -> bool,
    signReceipt: string -> string,
    pair: M.PairHash,
    payloadBytes: string -> nat)

  // ---- Object keys ----

  function PayloadKey(org: string, agent: string, op: string): string { org + "/" + agent + "/" + op }

  function ReceiptKey(org: string, agent: string, op: string): string {
    org + "/" + agent + "/receipts/" + op
  }

  function EpochKey(org: string, epoch: string): string { "epochs/" + org + "/" + epoch }

  function EorKey(e: Eor): string { PayloadKey(e.body.orgId, e.body.agentId, e.body.operationId) }

  function EarKey(f: ReceiptFields): string { ReceiptKey(f.orgId, f.agentId, f.operationId) }

  // ---- Validation ----

  const MAX_PAYLOAD_SIZE := 256 * 1024
  const MAX_TTL_MS := 300000
  const MIN_TTL_MS := 1000
  const MAX_NONCE_LENGTH := 64
  const EPOCH_INTERVAL_MS := 300000

  predicate IsTrimmed(c: char) {
    var u := c as int;
    9 <= u <= 13 || u == 32 || u == 160 || u == 0x1680 || 0x2000 <= u <= 0x200A
    || u == 0x2028 || u == 0x2029 || u == 0x202F || u == 0x205F || u == 0x3000 || u == 0xFEFF
  }

  predicate Blank(s: string) { forall c :: c in s ==> IsTrimmed(c) }

  function ValidateEor(h: Host, e: Eor, receivedAt: int): Option<ErrorCode> {
    var b := e.body;
    if b.opVersion != "1.0" then Some(ValidationError)
    else if Blank(b.operationId) || Blank(b.orgId) || Blank(b.agentId) || Blank(b.nonce)
         || Blank(b.operationType) || Blank(b.payloadHash) || Blank(b.prevChainHash)
         || Blank(b.kid) || Blank(e.signature) then Some(ValidationError)
    else if |b.nonce| > MAX_NONCE_LENGTH then Some(ValidationError)
    else if b.issuedAt <= 0 then Some(ValidationError)
    else if b.ttlMs < MIN_TTL_MS then Some(ValidationError)
    else if b.ttlMs > MAX_TTL_MS then Some(ValidationError)
    else if b.issuedAt + b.ttlMs < receivedAt then Some(TtlExpired)
    else if b.payload.Some? && h.payloadBytes(b.payload.value) > MAX_PAYLOAD_SIZE then Some(PayloadTooLarge)
    else None
  }

  // ---- Queries ----

  function NonceKey(e: Eor): string { "nonce:" + e.body.orgId + ":" + e.body.nonce }

  function FindAgent(s: State, agentId: string, orgId: string): Option<Agent> {
    if agentId in s.agents && s.agents[agentId].orgId == orgId then Some(s.agents[agentId]) else None
  }

  function FindKey(keys: map<string, AgentKey>, kid: string, agentId: string): Option<AgentKey> {
    if kid in keys && keys[kid].agentId == agentId then Some(keys[kid]) else None
  }

  /** The agent's row with the greatest sequence number. */
  function LatestOp(ops: seq<Row>, agentId: string): Option<Row> {
    if ops == [] then None
    else
      var best, last := LatestOp(ops[..|ops| - 1], agentId), ops[|ops| - 1];
      if last.agentId == agentId && (best.None? || last.seqNo > best.value.seqNo) then Some(last) else best
  }

  function FindOp(ops: seq<Row>, operationId: string, orgId: string): Option<Row> {
    if ops == [] then None
    else if ops[0].operationId == operationId && ops[0].orgId == orgId then Some(ops[0])
    else FindOp(ops[1..], operationId, orgId)
  }

  function FindBySeq(ops: seq<Row>, agentId: string, seqNo: int): Option<Row> {
    if ops == [] then None
    else if ops[0].agentId == agentId && ops[0].seqNo == seqNo then Some(ops[0])
    else FindBySeq(ops[1..], agentId, seqNo)
  }

  function FindReceipt(rs: seq<ReceiptRow>, operationId: string): Option<ReceiptRow> {
    if rs == [] then None
    else if rs[0].operationId == operationId then Some(rs[0])
    else FindReceipt(rs[1..], operationId)
  }

  /** The epoch of an organisation whose window holds an instant. */
  function FindEpoch(es: seq<EpochRow>, orgId: string, at: int): Option<EpochRow> {
    if es == [] then None
    else if es[0].orgId == orgId && es[0].startTime <= at < es[0].endTime then Some(es[0])
    else FindEpoch(es[1..], orgId, at)
  }

  predicate EpochExists(es: seq<EpochRow>, orgId: string, start: int, end: int) {
    exists i :: 0 <= i < |es| && es[i].orgId == orgId && es[i].startTime == start && es[i].endTime == end
  }

  predicate IdTaken(ops: seq<Row>, operationId: string) {
    exists i :: 0 <= i < |ops| && ops[i].operationId == operationId
  }

  predicate SeqTaken(ops: seq<Row>, agentId: string, seqNo: int) {
    exists i :: 0 <= i < |ops| && ops[i].agentId == agentId && ops[i].seqNo == seqNo
  }

  predicate ReceiptTaken(rs: seq<ReceiptRow>, receiptId: string, operationId: string) {
    exists i :: 0 <= i < |rs| && (rs[i].receiptId == receiptId || rs[i].operationId == operationId)
  }

  /** Rows of one organisation in a window. */
  function InWindow(ops: seq<Row>, orgId: string, start: int): (r: seq<Row>)
    ensures forall x :: x in r <==> x in ops && x.orgId == orgId && start <= x.createdAt < start + EPOCH_INTERVAL_MS
  {
    if ops == [] then []
    else
      var rest := InWindow(ops[1..], orgId, start);
      if ops[0].orgId == orgId && start <= ops[0].createdAt < start + EPOCH_INTERVAL_MS then [ops[0]] + rest else rest
  }

  function ChainHashes(rows: seq<Row>): (r: seq<string>)
    ensures |r| == |rows|
  {
    seq(|rows|, i requires 0 <= i < |rows| => rows[i].chainHash)
  }

  function OperationIds(rows: seq<Row>): (r: seq<string>)
    ensures |r| == |rows|
  {
    seq(|rows|, i requires 0 <= i < |rows| => rows[i].operationId)
  }

  // ---- Values the submission computes ----

  function EorInput(e: Eor): string {
    ChainInput(e.body.prevChainHash, e.body.payloadHash, e.body.operationId, e.body.issuedAt)
  }

  function RowOf(e: Eor, seqNo: int, chainHash: string, receivedAt: SafeInt): Row {
    var b := e.body;
    Row(b.operationId, b.orgId, b.agentId, seqNo, b.operationType, b.issuedAt, b.ttlMs, b.nonce,
        b.subject, b.action, b.payloadHash, b.prevChainHash, chainHash, b.kid, e.signature,
        EorKey(e), receivedAt)
  }

  function EarOf(h: Host, e: Eor, seqNo: int, chainHash: string, receivedAt: int,
                 receiptId: string, queueId: string): Ear
  {
    var f := ReceiptFields("1.0", receiptId, e.body.operationId, e.body.orgId, e.body.agentId,
                           receivedAt, seqNo, chainHash, queueId);
    Ear(f, h.receiptHash(f), h.signReceipt(h.receiptHash(f)))
  }

  // ---- Steps ----

  datatype Label =
    | Arrive(tid: nat, eor: Eor, now: SafeInt)
    | Advance(tid: nat, receiptId: string, queueId: string, pkFirst: bool)
    | Fail(tid: nat)
    | ExpireNonce(key: string)
    | Register(agentId: string, orgId: string, newKeys: map<string, string>)
    | Freeze(agentId: string)
    | Unfreeze(agentId: string)
    | RevokeKey(kid: string)
    | EpochTick(now: SafeInt)
    | EpochCheck(org: string)
    | EpochQuery
    | EpochPut(epochId: string)
    | EpochInsert
    | EpochFail
    | EpochEnd

  function AfterReadAgent(s: State, e: Eor): Phase {
    match FindAgent(s, e.body.agentId, e.body.orgId)
    case None => Done(Refused(UnknownAgent))
    case Some(a) =>
      if a.status == Frozen then Done(Refused(AgentFrozen))
      else if a.status == Revoked then Done(Refused(AgentRevoked))
      else ReadKey
  }

  function AfterReadKey(h: Host, keys: map<string, AgentKey>, e: Eor): Phase {
    match FindKey(keys, e.body.kid, e.body.agentId)
    case None => Done(Refused(InvalidSignature))
    case Some(k) =>
      if k.status == KeyRevoked then Done(Refused(SigningKeyRevoked))
      else if k.status == KeyRetired then Done(Refused(SigningKeyRetired))
      else if !h.verify(k.publicKey, e.signature, e.body) then Done(Refused(InvalidSignature))
      else ReadHead
  }

  function AfterReadHead(h: Host, ops: seq<Row>, e: Eor): Phase {
    var latest := LatestOp(ops, e.body.agentId);
    var expected := if latest.Some? then latest.value.chainHash else GENESIS;
    var next := if latest.Some? then latest.value.seqNo + 1 else 1;
    if e.body.prevChainHash != expected then Done(PrevHashMismatch(expected, e.body.prevChainHash))
    else PutPayload(next, h.sha(EorInput(e)))
  }

  /** Both inserts or neither; the unique constraints decide which error is reported. */
  function AfterCommit(s: State, e: Eor, ear: Ear, pkFirst: bool): Phase {
    var idTaken := IdTaken(s.ops, e.body.operationId);
    var seqTaken := SeqTaken(s.ops, e.body.agentId, ear.fields.seqNo);
    if idTaken && (pkFirst || !seqTaken) then Done(Failed)
    else if seqTaken then ReadWinner(ear.fields.seqNo)
    else if ReceiptTaken(s.receipts, ear.fields.receiptId, e.body.operationId) then Done(Failed)
    else Enqueue(ear)
  }

  function AfterReadWinner(ops: seq<Row>, e: Eor): Phase {
    var winner := LatestOp(ops, e.body.agentId);
    Done(if winner.Some? then PrevHashMismatch(winner.value.chainHash, e.body.prevChainHash) else Failed)
  }

  /** Where the submission goes next. */
  function NextPhase(h: Host, s: State, t: Thread, receiptId: string, queueId: string, pkFirst: bool): Phase {
    match t.phase
    case GetNonce => if NonceKey(t.eor) in s.nonces then Done(Refused(ReplayDetected)) else PutNonce
    case PutNonce => ReadAgent
    case ReadAgent => AfterReadAgent(s, t.eor)
    case ReadKey => AfterReadKey(h, s.keys, t.eor)
    case ReadHead => AfterReadHead(h, s.ops, t.eor)
    case PutPayload(n, c) => PutReceipt(EarOf(h, t.eor, n, c, t.receivedAt, receiptId, queueId))
    case PutReceipt(ear) => Commit(ear)
    case Commit(ear) => AfterCommit(s, t.eor, ear, pkFirst)
    case ReadWinner(_) => AfterReadWinner(s.ops, t.eor)
    case Enqueue(ear) => Done(Accepted(ear))
    case Done(o) => Done(o)
  }

  /** What the step writes to the stores. */
  function Written(s: State, t: Thread, next: Phase): State {
    match t.phase
    case PutNonce => s.(nonces := s.nonces + {NonceKey(t.eor)})
    case PutPayload(_, _) => s.(objects := s.objects[EorKey(t.eor) := Evidence(t.eor)])
    case PutReceipt(ear) => s.(objects := s.objects[EarKey(ear.fields) := ReceiptDoc(ear)])
    case Commit(ear) =>
      if next.Enqueue? then
        s.(ops := s.ops + [RowOf(t.eor, ear.fields.seqNo, ear.fields.chainHash, t.receivedAt)],
           receipts := s.receipts + [ReceiptRow(ear.fields.receiptId, t.eor.body.operationId, EarKey(ear.fields))])
      else s
    case _ => s
  }

  function Goto(s: State, tid: nat, t: Thread, p: Phase): State {
    s.(threads := s.threads[tid := t.(phase := p)])
  }

  function StepThread(h: Host, s: State, tid: nat, receiptId: string, queueId: string, pkFirst: bool): State
    requires tid in s.threads
  {
    var t := s.threads[tid];
    var next := NextPhase(h, s, t, receiptId, queueId, pkFirst);
    Goto(Written(s, t, next), tid, t, next)
  }

  function StepArrive(h: Host, s: State, tid: nat, e: Eor, now: SafeInt): State {
    if tid in s.threads then s
    else
      var phase := match ValidateEor(h, e, now) case None => GetNonce case Some(c) => Done(Refused(c));
      s.(threads := s.threads[tid := Thread(e, now, phase)])
  }

  function StepRegister(s: State, agentId: string, orgId: string, newKeys: map<string, string>): State {
    if agentId in s.agents || |newKeys| == 0 || (exists k :: k in newKeys && k in s.keys) then s
    else
      s.(agents := s.agents[agentId := Agent(orgId, Active)],
         keys := s.keys + map k | k in newKeys :: AgentKey(agentId, newKeys[k], KeyActive))
  }

  function SetStatus(s: State, agentId: string, status: AgentStatus): State {
    if agentId !in s.agents || s.agents[agentId].status == Revoked then s
    else s.(agents := s.agents[agentId := s.agents[agentId].(status := status)])
  }

  function StepRevokeKey(s: State, kid: string): State {
    if kid !in s.keys then s else s.(keys := s.keys[kid := s.keys[kid].(status := KeyRevoked)])
  }

  // The epoch scheduler: one pass over the last whole window, organisation by organisation.

  function EpochStart(now: int): int { now / EPOCH_INTERVAL_MS * EPOCH_INTERVAL_MS - EPOCH_INTERVAL_MS }

  function StepEpochCheck(s: State, org: string): State {
    if !s.scheduler.Window? || EpochExists(s.epochs, org, s.scheduler.start, s.scheduler.start + EPOCH_INTERVAL_MS) then s
    else s.(scheduler := Checked(s.scheduler.start, org))
  }

  function StepEpochQuery(s: State): State {
    if !s.scheduler.Checked? then s
    else
      var found := InWindow(s.ops, s.scheduler.org, s.scheduler.start);
      s.(scheduler := if found == [] then Window(s.scheduler.start)
                      else Queried(s.scheduler.start, s.scheduler.org, found))
  }

  /** The generated id is new: no object and no epoch uses it. */
  predicate FreshEpochId(s: State, org: string, epochId: string) {
    && Free('/', epochId)
    && EpochKey(org, epochId) !in s.objects
    && forall i :: 0 <= i < |s.epochs| ==> s.epochs[i].epochId != epochId
  }

  function StepEpochPut(h: Host, s: State, epochId: string): State {
    if !s.scheduler.Queried? || !FreshEpochId(s, s.scheduler.org, epochId) then s
    else
      var q := s.scheduler;
      var tree := M.TreeOf(h.pair, ChainHashes(q.found), OperationIds(q.found));
      s.(objects := s.objects[EpochKey(q.org, epochId) := EpochDoc(q.org, epochId, tree.leafOps, tree.layers)],
         scheduler := Stored(q.start, q.org, epochId, tree))
  }

  function StepEpochInsert(s: State): State {
    if !s.scheduler.Stored? then s
    else
      var q := s.scheduler;
      s.(epochs := s.epochs + [EpochRow(q.epochId, q.org, q.start, q.start + EPOCH_INTERVAL_MS,
                                        q.tree.root, |q.tree.leaves|, EpochKey(q.org, q.epochId))],
         scheduler := Window(q.start))
  }

  function StepEpochFail(s: State): State {
    if s.scheduler.Checked? || s.scheduler.Queried? || s.scheduler.Stored?
    then s.(scheduler := Window(s.scheduler.start)) else s
  }

  function Step(h: Host, s: State, l: Label): State {
    match l
    case Arrive(tid, e, now) => StepArrive(h, s, tid, e, now)
    case Advance(tid, rid, qid, pk) => if tid in s.threads then StepThread(h, s, tid, rid, qid, pk) else s
    case Fail(tid) => if tid in s.threads && !s.threads[tid].phase.Done? then Goto(s, tid, s.threads[tid], Done(Failed)) else s
    case ExpireNonce(k) => s.(nonces := s.nonces - {k})
    case Register(a, o, ks) => StepRegister(s, a, o, ks)
    case Freeze(a) => SetStatus(s, a, Frozen)
    case Unfreeze(a) => SetStatus(s, a, Active)
    case RevokeKey(k) => StepRevokeKey(s, k)
    case EpochTick(now) => if s.scheduler.Idle? then s.(scheduler := Window(EpochStart(now))) else s
    case EpochCheck(org) => StepEpochCheck(s, org)
    case EpochQuery => StepEpochQuery(s)
    case EpochPut(id) => StepEpochPut(h, s, id)
    case EpochInsert => StepEpochInsert(s)
    case EpochFail => StepEpochFail(s)
    case EpochEnd => if s.scheduler.Window? then s.(scheduler := Idle) else s
  }

  const Initial := State(map[], map[], [], [], [], map[], {}, map[], Idle)

  function Exec(h: Host, s: State, run: seq<Label>): State
    decreases |run|
  {
    if run == [] then s else Exec(h, Step(h, s, run[0]), run[1..])
  }
}
