/**
  A run of the whole system, from its first state, in which the chain-state file moves back:
  a process dies holding the lock and two others reclaim it from one another.
*/
module HookRace {
  import opened Text
  import opened Chain
  import opened Server
  import opened ServerInvariants
  import opened ServerSubmit
  import opened Hook
  import opened HookSubmit
  import opened HookLock
  import O = ServerOverwrite
  import L = Lock

  lemma {:induction false} JointConcat(h: Host, agentId: string, j: Joint, a: seq<JointLabel>, b: seq<JointLabel>)
    ensures JointExec(h, agentId, j, a + b) == JointExec(h, agentId, JointExec(h, agentId, j, a), b)
    decreases |a|
  {
    hide JointStep;
    if a == [] {
      assert a + b == b;
    } else {
      assert (a + b)[1..] == a[1..] + b;
      JointConcat(h, agentId, JointStep(h, agentId, j, a[0]), a[1..], b);
    }
  }

  lemma JointOne(h: Host, agentId: string, j: Joint, l: JointLabel)
    ensures JointExec(h, agentId, j, [l]) == JointStep(h, agentId, j, l)
  {
    assert [l][1..] == [];
  }

  // ---- Lock steps as steps of the whole ----

  function Lift(l: L.Label): JointLabel { if l.Start? then Enter(l.id, l.id) else Sys(l) }

  function LiftAll(run: seq<L.Label>): seq<JointLabel> {
    if run == [] then [] else [Lift(run[0])] + LiftAll(run[1..])
  }

  /** The calls that a run of lock steps starts are those the processes are waiting to make. */
  ghost predicate Makes(j: Joint, run: seq<L.Label>) {
    && (forall pid :: pid in j.inCall ==> j.inCall[pid] == pid && pid in j.lock.calls)
    && forall l :: l in run ==>
         && !l.Die?
         && (l.Start? ==> l.id in j.procs && j.procs[l.id].phase.Moving?
                          && j.procs[l.id].phase.prev == l.fromHash && j.procs[l.id].phase.to == l.toHash)
  }

  lemma LiftsOne(h: Host, agentId: string, j: Joint, run: seq<L.Label>)
    requires run != [] && Makes(j, run)
    ensures var j' := JointStep(h, agentId, j, Lift(run[0]));
            && j'.lock == L.Step(j.lock, run[0]) && j'.server == j.server && j'.procs == j.procs && Makes(j', run[1..])
  {
    var l := run[0];
    assert l in run;
    if !l.Start? { SameCalls(j.lock, l); }
    hide L.OwnerAlive, L.InodeFree, ReadChainState, L.CompareAndSet;
  }

  lemma {:induction false} Lifts(h: Host, agentId: string, j: Joint, run: seq<L.Label>)
    requires Makes(j, run)
    ensures var j' := JointExec(h, agentId, j, LiftAll(run));
            j'.lock == L.Exec(j.lock, run) && j'.server == j.server && j'.procs == j.procs
    decreases |run|
  {
    hide JointStep, L.Step, Makes;
    if run != [] {
      LiftsOne(h, agentId, j, run);
      assert LiftAll(run)[1..] == LiftAll(run[1..]);
      Lifts(h, agentId, JointStep(h, agentId, j, Lift(run[0])), run[1..]);
    }
  }

  // ---- Posts handled without interruption ----

  function EnvAll(run: seq<Label>): seq<JointLabel> {
    if run == [] then [] else [Other(Env(run[0]))] + EnvAll(run[1..])
  }

  lemma {:induction false} ServerRuns(h: Host, agentId: string, j: Joint, run: seq<Label>)
    ensures JointExec(h, agentId, j, EnvAll(run)) == j.(server := Exec(h, j.server, run))
    decreases |run|
  {
    hide Step;
    if run != [] {
      assert EnvAll(run)[1..] == EnvAll(run[1..]);
      ServerRuns(h, agentId, j.(server := Step(h, j.server, run[0])), run[1..]);
    }
  }

  /** A hook process posts, the server handles the post, and the answer arrives. */
  function Deliver(pid: nat, c: Call): seq<JointLabel> {
    [Other(Post(pid, c.tid, c.eor, c.now))] + (EnvAll(Advances(c.tid, c.receiptId, c.queueId, 9)) + [Other(Reply(pid))])
  }

  function Told(h: Host, s: State, c: Call): Outcome { Answer(Handle(h, s, c), c.tid) }

  lemma Delivers(h: Host, agentId: string, j: Joint, pid: nat, c: Call)
    requires Core(h, j.server) && c.tid !in j.server.threads && Admissible(h, j.server, c.eor, c.now)
    requires pid in j.procs && j.procs[pid].phase == Posting(c.eor.body.prevChainHash) && c.eor.body.agentId == agentId
    ensures var p := j.procs[pid];
            JointExec(h, agentId, j, Deliver(pid, c))
              == j.(server := Handle(h, j.server, c),
                    procs := j.procs[pid := p.(phase := AfterReply(h, c.eor.body.prevChainHash, c.eor, Told(h, j.server, c)),
                                               posts := p.posts + [c.tid])])
  {
    hide JointExec, Advances, EnvAll, Core, Admissible, Handle, AfterReply, JointStep, StepArrive, Told, Exec;
    var post, reply := Other(Post(pid, c.tid, c.eor, c.now)), Other(Reply(pid));
    var handling := Advances(c.tid, c.receiptId, c.queueId, 9);
    var j1 := JointStep(h, agentId, j, post);
    var j2 := j1.(server := Handle(h, j.server, c));
    Posted(h, agentId, j, pid, c);
    Answered(h, j.server, c);
    ServerRuns(h, agentId, j1, handling);
    HandleRuns(h, j.server, c);
    JointConcat(h, agentId, j, [post], EnvAll(handling) + [reply]);
    JointConcat(h, agentId, j1, EnvAll(handling), [reply]);
    JointOne(h, agentId, j, post);
    JointOne(h, agentId, j2, reply);
    Replied(h, agentId, j2, pid, c);
  }

  lemma HandleRuns(h: Host, s: State, c: Call)
    ensures Exec(h, StepArrive(h, s, c.tid, c.eor, c.now), Advances(c.tid, c.receiptId, c.queueId, 9)) == Handle(h, s, c)
  {
    hide Advances, StepArrive, Exec;
  }

  lemma Posted(h: Host, agentId: string, j: Joint, pid: nat, c: Call)
    requires c.tid !in j.server.threads && c.eor.body.agentId == agentId
    requires pid in j.procs && j.procs[pid].phase == Posting(c.eor.body.prevChainHash)
    ensures var p := j.procs[pid];
            JointStep(h, agentId, j, Other(Post(pid, c.tid, c.eor, c.now)))
              == j.(server := StepArrive(h, j.server, c.tid, c.eor, c.now),
                    procs := j.procs[pid := p.(phase := Waiting(c.eor.body.prevChainHash, c.tid), posts := p.posts + [c.tid])])
  {
    hide StepArrive;
  }

  lemma Answered(h: Host, s: State, c: Call)
    requires Core(h, s) && c.tid !in s.threads && Admissible(h, s, c.eor, c.now)
    ensures var s' := Handle(h, s, c);
            && c.tid in s'.threads && s'.threads[c.tid].eor == c.eor && s'.threads[c.tid].phase == Done(Told(h, s, c))
            && Told(h, s, c) == LoneOutcome(h, s, c.eor, c.now, c.receiptId, c.queueId)
  {
    SubmitAlone(h, s, c.tid, c.eor, c.now, c.receiptId, c.queueId);
    hide Core, Run, StepArrive, Admissible, LoneOutcome, StoredBy;
  }

  lemma Replied(h: Host, agentId: string, j: Joint, pid: nat, c: Call)
    requires pid in j.procs && j.procs[pid].phase == Waiting(c.eor.body.prevChainHash, c.tid)
    requires c.tid in j.server.threads && j.server.threads[c.tid].eor == c.eor && j.server.threads[c.tid].phase.Done?
    ensures JointStep(h, agentId, j, Other(Reply(pid)))
         == j.(procs := j.procs[pid := j.procs[pid].(phase :=
                 AfterReply(h, c.eor.body.prevChainHash, c.eor, j.server.threads[c.tid].phase.outcome))])
  {
    hide AfterReply;
  }

  // ---- The cast and their server ----

  /**
    One agent with one key, and four records: e and f are committed one after the other, g and
    d are built on genesis like e and come too late. Process 2 posts e, another client f,
    process 1 g and process 0 d.
  */
  datatype Cast = Cast(agentId: string, orgId: string, kid: string, publicKey: string, e: Call, f: Call, g: Call, d: Call)

  function Registered(cast: Cast): State {
    StepRegister(Initial, cast.agentId, cast.orgId, map[cast.kid := cast.publicKey])
  }

  /** Nothing but its predecessor, its nonce or its ids can have the record refused. */
  predicate InOrder(h: Host, cast: Cast, c: Call) {
    && ValidateEor(h, c.eor, c.now).None? && c.eor.body.agentId == cast.agentId && c.eor.body.orgId == cast.orgId
    && c.eor.body.kid == cast.kid && h.verify(cast.publicKey, c.eor.signature, c.eor.body)
  }

  function HashOf(h: Host, c: Call): string { h.sha(EorInput(c.eor)) }

  predicate Apart(a: Call, b: Call) { a.tid != b.tid && NonceKey(a.eor) != NonceKey(b.eor) }

  ghost predicate Playable(h: Host, cast: Cast) {
    && InOrder(h, cast, cast.e) && InOrder(h, cast, cast.f) && InOrder(h, cast, cast.g) && InOrder(h, cast, cast.d)
    && Apart(cast.e, cast.f) && Apart(cast.e, cast.g) && Apart(cast.e, cast.d)
    && Apart(cast.f, cast.g) && Apart(cast.f, cast.d) && Apart(cast.g, cast.d)
    && cast.e.eor.body.prevChainHash == cast.g.eor.body.prevChainHash == cast.d.eor.body.prevChainHash == GENESIS
    && cast.f.eor.body.prevChainHash == HashOf(h, cast.e)
    && cast.e.eor.body.operationId != cast.f.eor.body.operationId && cast.e.receiptId != cast.f.receiptId
    && HashShaped(HashOf(h, cast.f)) && HashOf(h, cast.f) != GENESIS && HashOf(h, cast.f) != HashOf(h, cast.e)
  }

  const FirstHash := "BBBBBBBBBBBBBBBBBBBBBBBBBBBBBBBBBBBBBBBBBBB"
  const SecondHash := "CCCCCCCCCCCCCCCCCCCCCCCCCCCCCCCCCCCCCCCCCCC"

  /** A small record: one-letter names, the letter for its nonce and its ids. */
  function SmallCall(tid: nat, name: char, prev: string): Call {
    var body := Signable("1.0", [name], "o", "a", 1, MIN_TTL_MS, [name], "t", "s", "x", None, "p", prev, "k");
    Call(tid, Eor(body, "g", Extra(map[], None, [], None)), 1, [name], [name])
  }

  lemma NotBlank(s: string)
    requires s != [] && !IsTrimmed(s[0])
    ensures !Blank(s)
  {
    assert s[0] in s;
  }

  lemma SmallInOrder(h: Host, tid: nat, name: char, prev: string, cast: Cast)
    requires 'd' <= name <= 'g' && !Blank(prev)
    requires cast.agentId == "a" && cast.orgId == "o" && cast.kid == "k" && forall k, g, b :: h.verify(k, g, b)
    ensures InOrder(h, cast, SmallCall(tid, name, prev))
  {
    var e := SmallCall(tid, name, prev).eor;
    NotBlank([name]);
    NotBlank("o");
    NotBlank("a");
    NotBlank("t");
    NotBlank("p");
    NotBlank("k");
    NotBlank("g");
    hide Blank;
    assert ValidateEor(h, e, 1).None?;
  }

  lemma SmallApart(a: nat, x: char, p: string, b: nat, y: char, q: string)
    requires a != b && x != y
    ensures Apart(SmallCall(a, x, p), SmallCall(b, y, q))
  {
    var k, l := NonceKey(SmallCall(a, x, p).eor), NonceKey(SmallCall(b, y, q).eor);
    assert k[|k| - 1] == x && l[|l| - 1] == y;
  }

  const Small := Cast("a", "o", "k", "", SmallCall(0, 'e', GENESIS), SmallCall(1, 'f', FirstHash),
                      SmallCall(2, 'g', GENESIS), SmallCall(3, 'd', GENESIS))

  lemma SmallAllApart()
    ensures Apart(Small.e, Small.f) && Apart(Small.e, Small.g) && Apart(Small.e, Small.d)
    ensures Apart(Small.f, Small.g) && Apart(Small.f, Small.d) && Apart(Small.g, Small.d)
  {
    hide Apart, SmallCall;
    SmallApart(0, 'e', GENESIS, 1, 'f', FirstHash);
    SmallApart(0, 'e', GENESIS, 2, 'g', GENESIS);
    SmallApart(0, 'e', GENESIS, 3, 'd', GENESIS);
    SmallApart(1, 'f', FirstHash, 2, 'g', GENESIS);
    SmallApart(1, 'f', FirstHash, 3, 'd', GENESIS);
    SmallApart(2, 'g', GENESIS, 3, 'd', GENESIS);
  }

  lemma SmallAllInOrder(h: Host)
    requires forall k, g, b :: h.verify(k, g, b)
    ensures InOrder(h, Small, Small.e) && InOrder(h, Small, Small.f) && InOrder(h, Small, Small.g) && InOrder(h, Small, Small.d)
  {
    hide InOrder, SmallCall;
    NotBlank(GENESIS);
    NotBlank(FirstHash);
    SmallInOrder(h, 0, 'e', GENESIS, Small);
    SmallInOrder(h, 1, 'f', FirstHash, Small);
    SmallInOrder(h, 2, 'g', GENESIS, Small);
    SmallInOrder(h, 3, 'd', GENESIS, Small);
  }

  lemma SmallHashes()
    ensures HashShaped(SecondHash) && SecondHash != GENESIS && SecondHash != FirstHash
    ensures EorInput(Small.e.eor) != EorInput(Small.f.eor)
  {
    assert FirstHash[0] == 'B' && SecondHash[0] == 'C' && GENESIS[0] == 'A';
    assert EorInput(Small.e.eor)[0] == 'A' && EorInput(Small.f.eor)[0] == 'B';
  }

  /** There are such casts. */
  lemma CastExists()
    ensures exists h, cast :: Playable(h, cast)
  {
    SmallHashes();
    var h := SmallHost(EorInput(Small.e.eor), FirstHash, SecondHash);
    SmallPlayable(h);
  }

  function SmallHost(first: string, a: string, b: string): Host {
    Host(x => if x == first then a else b, _ => "", (_, _) => "", (_, _, _) => true, _ => "", (l, _) => l, _ => 0)
  }

  lemma SmallPlayable(h: Host)
    requires forall k, g, b :: h.verify(k, g, b)
    requires h.sha(EorInput(Small.e.eor)) == FirstHash && h.sha(EorInput(Small.f.eor)) == SecondHash
    ensures Playable(h, Small)
  {
    hide InOrder, Apart, EorInput, HashShaped, SmallCall, Small, GENESIS, FirstHash, SecondHash;
    SmallAllApart();
    SmallAllInOrder(h);
    SmallHashes();
    SmallIds();
  }

  lemma SmallIds()
    ensures Small.e.eor.body.prevChainHash == Small.g.eor.body.prevChainHash == Small.d.eor.body.prevChainHash == GENESIS
    ensures Small.f.eor.body.prevChainHash == FirstHash
    ensures Small.e.eor.body.operationId != Small.f.eor.body.operationId && Small.e.receiptId != Small.f.receiptId
  {
    assert Small.e.eor.body.operationId[0] == 'e' && Small.f.eor.body.operationId[0] == 'f';
    assert Small.e.receiptId[0] == 'e' && Small.f.receiptId[0] == 'f';
  }

  /** The server with the agent as registered, before any call of a set has arrived. */
  ghost predicate Awaits(h: Host, cast: Cast, s: State, c: Call) {
    && Core(h, s) && s.agents == Registered(cast).agents && s.keys == Registered(cast).keys
    && c.tid !in s.threads && NonceKey(c.eor) !in s.nonces
  }

  lemma InOrderIsAdmissible(h: Host, cast: Cast, s: State, c: Call)
    requires Awaits(h, cast, s, c) && InOrder(h, cast, c)
    ensures Core(h, s) && c.tid !in s.threads && Admissible(h, s, c.eor, c.now) && c.eor.body.agentId == cast.agentId
  {
    hide Core, ValidateEor, NonceKey;
    assert s.agents == map[cast.agentId := Agent(cast.orgId, Active)];
    assert s.keys[cast.kid] == AgentKey(cast.agentId, cast.publicKey, KeyActive);
  }

  /** After one of them is handled the server still awaits the next. */
  lemma StillAwaits(h: Host, cast: Cast, s: State, c: Call, next: Call)
    requires Awaits(h, cast, s, c) && Awaits(h, cast, s, next) && Apart(c, next)
    ensures Awaits(h, cast, Handle(h, s, c), next)
  {
    O.LoneCore(h, s, c.tid, c.eor, c.now, c.receiptId, c.queueId);
    hide Core, Run, StepArrive, NonceKey, StepRegister;
    assert next.tid !in Handle(h, s, c).threads.Keys;
  }

  function After1(h: Host, cast: Cast): State { Handle(h, Registered(cast), cast.e) }
  function After2(h: Host, cast: Cast): State { Handle(h, After1(h, cast), cast.f) }
  function After3(h: Host, cast: Cast): State { Handle(h, After2(h, cast), cast.g) }
  function After4(h: Host, cast: Cast): State { Handle(h, After3(h, cast), cast.d) }

  lemma RegisteredAwaits(h: Host, cast: Cast, c: Call)
    ensures Awaits(h, cast, Registered(cast), c)
  {
    InitialCore(h);
    StepKeepsCore(h, Initial, Register(cast.agentId, cast.orgId, map[cast.kid := cast.publicKey]));
    hide Core, NonceKey;
  }

  lemma EachAwaited(h: Host, cast: Cast)
    requires Playable(h, cast)
    ensures Awaits(h, cast, Registered(cast), cast.e) && Awaits(h, cast, After1(h, cast), cast.f)
    ensures Awaits(h, cast, After2(h, cast), cast.g) && Awaits(h, cast, After3(h, cast), cast.d)
  {
    hide Awaits, Handle, Registered, Apart, InOrder;
    var s := Registered(cast);
    RegisteredAwaits(h, cast, cast.e);
    RegisteredAwaits(h, cast, cast.f);
    RegisteredAwaits(h, cast, cast.g);
    RegisteredAwaits(h, cast, cast.d);
    StillAwaits(h, cast, s, cast.e, cast.f);
    StillAwaits(h, cast, s, cast.e, cast.g);
    StillAwaits(h, cast, s, cast.e, cast.d);
    StillAwaits(h, cast, After1(h, cast), cast.f, cast.g);
    StillAwaits(h, cast, After1(h, cast), cast.f, cast.d);
    StillAwaits(h, cast, After2(h, cast), cast.g, cast.d);
  }

  /** A call on the head with new ids is accepted and ends the chain. */
  lemma Accepts(h: Host, cast: Cast, s: State, c: Call)
    requires Awaits(h, cast, s, c) && InOrder(h, cast, c) && Insertable(s, c.eor, c.receiptId)
    ensures var s' := Handle(h, s, c); var row := CommittedRow(h, s, c.eor, c.now);
            && Told(h, s, c).Accepted? && s'.ops == s.ops + [row]
            && s'.receipts == s.receipts + [OwnReceiptRow(c.eor, c.receiptId)]
            && AgentChain(s'.ops, cast.agentId) == AgentChain(s.ops, cast.agentId) + [LinkOf(row)]
            && LinkOf(row).chainHash == HashOf(h, c) && row.operationId == c.eor.body.operationId
  {
    InOrderIsAdmissible(h, cast, s, c);
    AcceptedAlone(h, s, c);
    RowsGrow(s.ops, CommittedRow(h, s, c.eor, c.now), cast.agentId);
    hide Core, Handle, Admissible, AgentChain, Insertable, Told, ValidateEor, StepRegister, EorInput;
  }

  lemma AcceptedAlone(h: Host, s: State, c: Call)
    requires Core(h, s) && c.tid !in s.threads && Admissible(h, s, c.eor, c.now) && Insertable(s, c.eor, c.receiptId)
    ensures var s' := Handle(h, s, c);
            && Told(h, s, c).Accepted? && s'.ops == s.ops + [CommittedRow(h, s, c.eor, c.now)]
            && s'.receipts == s.receipts + [OwnReceiptRow(c.eor, c.receiptId)]
  {
    SubmitAlone(h, s, c.tid, c.eor, c.now, c.receiptId, c.queueId);
    hide Core, Run, StepArrive, Admissible, CommittedRow, StoredBy, OwnReceipt, IdTaken, ReceiptTaken, AtOwnHead;
  }

  /** A call on an earlier hash is told the head and changes no table. */
  lemma Rejects(h: Host, cast: Cast, s: State, c: Call)
    requires Awaits(h, cast, s, c) && InOrder(h, cast, c) && !AtOwnHead(s, c.eor)
    ensures var s' := Handle(h, s, c);
            && Told(h, s, c) == PrevHashMismatch(Head(AgentChain(s.ops, cast.agentId)), c.eor.body.prevChainHash)
            && s'.ops == s.ops
  {
    InOrderIsAdmissible(h, cast, s, c);
    SubmitAlone(h, s, c.tid, c.eor, c.now, c.receiptId, c.queueId);
    hide Core, Run, StepArrive, Admissible, AgentChain, StoredBy, Insertable;
  }

  /** The server after one operation of the agent. */
  ghost predicate OneCommitted(h: Host, cast: Cast, s: State) {
    var row := CommittedRow(h, Registered(cast), cast.e.eor, cast.e.now);
    && s.ops == [row] && s.receipts == [OwnReceiptRow(cast.e.eor, cast.e.receiptId)]
    && AgentChain(s.ops, cast.agentId) == [LinkOf(row)]
    && LinkOf(row).chainHash == HashOf(h, cast.e) && row.operationId == cast.e.eor.body.operationId
  }

  lemma FirstCommits(h: Host, cast: Cast)
    requires Playable(h, cast)
    ensures Told(h, Registered(cast), cast.e).Accepted? && OneCommitted(h, cast, After1(h, cast))
  {
    EachAwaited(h, cast);
    FirstInserts(h, cast);
    assert InOrder(h, cast, cast.e);
    hide Awaits, Handle, Registered, InOrder, AgentChain, CommittedRow, Playable, EorInput, OwnReceiptRow, Told, LinkOf, Insertable;
    Accepts(h, cast, Registered(cast), cast.e);
  }

  /** The first two are accepted and make the chain. */
  lemma FirstTwo(h: Host, cast: Cast)
    requires Playable(h, cast)
    ensures Told(h, Registered(cast), cast.e).Accepted? && Told(h, After1(h, cast), cast.f).Accepted?
    ensures var chain := AgentChain(After2(h, cast).ops, cast.agentId);
            |chain| == 2 && chain[0].chainHash == HashOf(h, cast.e) && chain[1].chainHash == HashOf(h, cast.f)
  {
    FirstCommits(h, cast);
    EachAwaited(h, cast);
    SecondInserts(h, cast, After1(h, cast));
    assert InOrder(h, cast, cast.f);
    hide Awaits, Handle, Registered, InOrder, AgentChain, CommittedRow, Playable, EorInput, Told, Insertable, After1, LinkOf;
    Accepts(h, cast, After1(h, cast), cast.f);
  }

  lemma FirstInserts(h: Host, cast: Cast)
    requires Playable(h, cast)
    ensures var s := Registered(cast);
            s.ops == [] && s.receipts == [] && AgentChain(s.ops, cast.agentId) == [] && Insertable(s, cast.e.eor, cast.e.receiptId)
  {
    hide NonceKey, ValidateEor, HashShaped, EorInput;
  }

  lemma SecondInserts(h: Host, cast: Cast, s1: State)
    requires Playable(h, cast) && OneCommitted(h, cast, s1)
    ensures Insertable(s1, cast.f.eor, cast.f.receiptId)
  {
    hide AgentChain, NonceKey, ValidateEor, HashShaped, EorInput, CommittedRow;
  }

  /** What the four are told, and the chain they leave. */
  lemma Story(h: Host, cast: Cast)
    requires Playable(h, cast)
    ensures Told(h, Registered(cast), cast.e).Accepted? && Told(h, After1(h, cast), cast.f).Accepted?
    ensures Told(h, After2(h, cast), cast.g) == PrevHashMismatch(HashOf(h, cast.f), GENESIS)
    ensures Told(h, After3(h, cast), cast.d) == PrevHashMismatch(HashOf(h, cast.f), GENESIS)
    ensures var chain := AgentChain(After4(h, cast).ops, cast.agentId);
            |chain| == 2 && chain[0].chainHash == HashOf(h, cast.e) && chain[1].chainHash == HashOf(h, cast.f)
  {
    FirstTwo(h, cast);
    EachAwaited(h, cast);
    hide Awaits, Handle, Registered, AgentChain, CommittedRow, Apart, EorInput, Told, NonceKey, ValidateEor, HashShaped, After1;
    Rejects(h, cast, After2(h, cast), cast.g);
    Rejects(h, cast, After3(h, cast), cast.d);
  }

  // ---- The run, act by act ----

  const Fresh := Proc(Posting(GENESIS), 1, [])

  function StartRead(pid: nat): seq<JointLabel> { [Other(Start(pid))] + [Other(Read(pid))] }

  lemma StartsAndReads(h: Host, agentId: string, j: Joint, pid: nat)
    requires pid !in j.procs && j.lock.file == None
    ensures JointExec(h, agentId, j, StartRead(pid)) == j.(procs := j.procs[pid := Fresh])
  {
    var j1 := j.(procs := j.procs[pid := Proc(Reading, 1, [])]);
    assert JointStep(h, agentId, j, Other(Start(pid))) == j1;
    assert JointStep(h, agentId, j1, Other(Read(pid))) == j.(procs := j.procs[pid := Fresh]);
    hide JointStep;
    JointConcat(h, agentId, j, [Other(Start(pid))], [Other(Read(pid))]);
    JointOne(h, agentId, j, Other(Start(pid)));
    JointOne(h, agentId, j1, Other(Read(pid)));
  }

  /** The agent is registered and three processes start and read the missing file. */
  function Opening(cast: Cast): seq<JointLabel> {
    EnvAll([Register(cast.agentId, cast.orgId, map[cast.kid := cast.publicKey])]) + (StartRead(0) + (StartRead(1) + StartRead(2)))
  }

  function Opened(cast: Cast): Joint {
    Joint(Registered(cast), map[0 := Fresh, 1 := Fresh, 2 := Fresh], map[], L.Begin(None, 0))
  }

  lemma Registers(h: Host, cast: Cast)
    ensures JointExec(h, cast.agentId, FirstJoint, EnvAll([Register(cast.agentId, cast.orgId, map[cast.kid := cast.publicKey])]))
         == FirstJoint.(server := Registered(cast))
  {
    hide Registered, StepRegister, JointExec, EnvAll;
    var register := Register(cast.agentId, cast.orgId, map[cast.kid := cast.publicKey]);
    ServerRuns(h, cast.agentId, FirstJoint, [register]);
    RegistersServer(h, cast);
  }

  lemma RegistersServer(h: Host, cast: Cast)
    ensures Exec(h, Initial, [Register(cast.agentId, cast.orgId, map[cast.kid := cast.publicKey])]) == Registered(cast)
  {
    var register := Register(cast.agentId, cast.orgId, map[cast.kid := cast.publicKey]);
    assert [register][1..] == [];
    assert Step(h, Initial, register) == Registered(cast);
    hide Step, Registered, StepRegister;
  }

  lemma ThreeStart(h: Host, agentId: string, j: Joint)
    requires j.procs == map[] && j.lock.file == None
    ensures JointExec(h, agentId, j, StartRead(0) + (StartRead(1) + StartRead(2)))
         == j.(procs := map[0 := Fresh, 1 := Fresh, 2 := Fresh])
  {
    hide StartRead, JointExec;
    var j0, j1 := j.(procs := map[0 := Fresh]), j.(procs := map[0 := Fresh, 1 := Fresh]);
    StartsAndReads(h, agentId, j, 0);
    JointConcat(h, agentId, j, StartRead(0), StartRead(1) + StartRead(2));
    StartsAndReads(h, agentId, j0, 1);
    JointConcat(h, agentId, j0, StartRead(1), StartRead(2));
    StartsAndReads(h, agentId, j1, 2);
  }

  lemma Opens(h: Host, cast: Cast)
    ensures JointExec(h, cast.agentId, FirstJoint, Opening(cast)) == Opened(cast)
  {
    hide Registered, StartRead, EnvAll, JointExec;
    Registers(h, cast);
    var register := EnvAll([Register(cast.agentId, cast.orgId, map[cast.kid := cast.publicKey])]);
    JointConcat(h, cast.agentId, FirstJoint, register, StartRead(0) + (StartRead(1) + StartRead(2)));
    ThreeStart(h, cast.agentId, FirstJoint.(server := Registered(cast)));
  }

  /** Some other client's post, handled. */
  function Foreign(c: Call): seq<JointLabel> { EnvAll([Arrive(c.tid, c.eor, c.now)] + Advances(c.tid, c.receiptId, c.queueId, 9)) }

  lemma ForeignHandled(h: Host, agentId: string, j: Joint, c: Call)
    ensures JointExec(h, agentId, j, Foreign(c)) == j.(server := Handle(h, j.server, c))
  {
    var run := [Arrive(c.tid, c.eor, c.now)] + Advances(c.tid, c.receiptId, c.queueId, 9);
    ServerRuns(h, agentId, j, run);
    assert run[1..] == Advances(c.tid, c.receiptId, c.queueId, 9);
    hide EnvAll, JointExec, Advances, StepArrive;
  }

  function Posts(cast: Cast): seq<JointLabel> {
    Deliver(2, cast.e) + (Foreign(cast.f) + (Deliver(1, cast.g) + Deliver(0, cast.d)))
  }

  /** All three are about to move the file from genesis: two to the head, one to the hash before it. */
  function Posed(h: Host, cast: Cast): Joint {
    Joint(After4(h, cast),
          map[0 := Proc(Moving(GENESIS, HashOf(h, cast.f), false), 1, [cast.d.tid]),
              1 := Proc(Moving(GENESIS, HashOf(h, cast.f), false), 1, [cast.g.tid]),
              2 := Proc(Moving(GENESIS, HashOf(h, cast.e), true), 1, [cast.e.tid])],
          map[], L.Begin(None, 0))
  }

  lemma DeliversHere(h: Host, cast: Cast, j: Joint, pid: nat, c: Call, phase: HookPhase)
    requires Awaits(h, cast, j.server, c) && InOrder(h, cast, c) && c.eor.body.prevChainHash == GENESIS
    requires pid in j.procs && j.procs[pid] == Fresh
    requires AfterReply(h, GENESIS, c.eor, Told(h, j.server, c)) == phase
    ensures JointExec(h, cast.agentId, j, Deliver(pid, c))
         == j.(server := Handle(h, j.server, c), procs := j.procs[pid := Proc(phase, 1, [c.tid])])
  {
    hide AfterReply, Told, Handle, Admissible, Deliver, Core, Awaits, InOrder, JointExec;
    InOrderIsAdmissible(h, cast, j.server, c);
    Delivers(h, cast.agentId, j, pid, c);
    assert Fresh.posts + [c.tid] == [c.tid];
  }

  lemma PhasesTold(h: Host, cast: Cast)
    requires Playable(h, cast)
    ensures AfterReply(h, GENESIS, cast.e.eor, Told(h, Registered(cast), cast.e)) == Moving(GENESIS, HashOf(h, cast.e), true)
    ensures AfterReply(h, GENESIS, cast.g.eor, Told(h, After2(h, cast), cast.g)) == Moving(GENESIS, HashOf(h, cast.f), false)
    ensures AfterReply(h, GENESIS, cast.d.eor, Told(h, After3(h, cast), cast.d)) == Moving(GENESIS, HashOf(h, cast.f), false)
  {
    Story(h, cast);
    hide Told, Registered, After2, After3, EorInput;
  }

  /** The posters' parts of the cast. */
  lemma Parts(h: Host, cast: Cast)
    requires Playable(h, cast)
    ensures InOrder(h, cast, cast.e) && InOrder(h, cast, cast.g) && InOrder(h, cast, cast.d)
    ensures cast.e.eor.body.prevChainHash == cast.g.eor.body.prevChainHash == cast.d.eor.body.prevChainHash == GENESIS
  {
    hide InOrder, Apart, EorInput, HashShaped;
  }

  lemma FirstPosts(h: Host, cast: Cast)
    requires Playable(h, cast)
    ensures JointExec(h, cast.agentId, Opened(cast), Deliver(2, cast.e) + Foreign(cast.f))
         == Opened(cast).(server := After2(h, cast),
                          procs := Opened(cast).procs[2 := Proc(Moving(GENESIS, HashOf(h, cast.e), true), 1, [cast.e.tid])])
  {
    hide Deliver, Foreign, JointExec, Registered, Handle, AfterReply, Awaits, InOrder, HashOf, Told, Playable;
    PhasesTold(h, cast);
    EachAwaited(h, cast);
    Parts(h, cast);
    var j := Opened(cast);
    DeliversHere(h, cast, j, 2, cast.e, Moving(GENESIS, HashOf(h, cast.e), true));
    JointConcat(h, cast.agentId, j, Deliver(2, cast.e), Foreign(cast.f));
    ForeignHandled(h, cast.agentId, JointExec(h, cast.agentId, j, Deliver(2, cast.e)), cast.f);
  }

  lemma LastPosts(h: Host, cast: Cast, j: Joint)
    requires Playable(h, cast) && j.server == After2(h, cast)
    requires 0 in j.procs && 1 in j.procs && j.procs[0] == j.procs[1] == Fresh
    ensures JointExec(h, cast.agentId, j, Deliver(1, cast.g) + Deliver(0, cast.d))
         == j.(server := After4(h, cast),
               procs := j.procs[1 := Proc(Moving(GENESIS, HashOf(h, cast.f), false), 1, [cast.g.tid])]
                               [0 := Proc(Moving(GENESIS, HashOf(h, cast.f), false), 1, [cast.d.tid])])
  {
    hide Deliver, JointExec, Handle, AfterReply, Awaits, InOrder, HashOf, Told, Playable, After2;
    PhasesTold(h, cast);
    EachAwaited(h, cast);
    Parts(h, cast);
    DeliversHere(h, cast, j, 1, cast.g, Moving(GENESIS, HashOf(h, cast.f), false));
    var j1 := JointExec(h, cast.agentId, j, Deliver(1, cast.g));
    JointConcat(h, cast.agentId, j, Deliver(1, cast.g), Deliver(0, cast.d));
    DeliversHere(h, cast, j1, 0, cast.d, Moving(GENESIS, HashOf(h, cast.f), false));
  }

  lemma Poses(h: Host, cast: Cast)
    requires Playable(h, cast)
    ensures JointExec(h, cast.agentId, Opened(cast), Posts(cast)) == Posed(h, cast)
  {
    hide Deliver, Foreign, JointExec, HashOf, After2, After4, Playable, Registered;
    FirstPosts(h, cast);
    var a, b, c, d := Deliver(2, cast.e), Foreign(cast.f), Deliver(1, cast.g), Deliver(0, cast.d);
    assert a + (b + (c + d)) == (a + b) + (c + d);
    JointConcat(h, cast.agentId, Opened(cast), a + b, c + d);
    LastPosts(h, cast, JointExec(h, cast.agentId, Opened(cast), a + b));
  }

  /** Process 0 creates the lock file and writes its number, dies, and five seconds go by. */
  const Death := [Enter(0, 0)] + ([Sys(L.Open(0, 10))] + ([Sys(L.WritePid(0))] + ([Kill(0)] + [Sys(L.Tick(L.STALE_MS + 1))])))

  lemma Dies(h: Host, agentId: string, j: Joint, to: string)
    requires 0 in j.procs && j.procs[0].phase.Moving? && j.procs[0].phase.prev == GENESIS && j.procs[0].phase.to == to
    requires j.inCall == map[] && j.lock == L.Begin(None, 0)
    ensures JointExec(h, agentId, j, Death)
         == Joint(j.server, j.procs[0 := j.procs[0].(phase := Stopped(false))], map[], L.AfterDeath(None, GENESIS, to))
  {
    var inside := L.Call(GENESIS, to, L.Inside(10));
    var j1 := j.(inCall := map[0 := 0], lock := L.State(0, None, None, map[0 := L.Call(GENESIS, to, L.Opening)], []));
    var j2 := j1.(lock := L.State(0, Some(L.LockFile(10, 0, None)), None, map[0 := L.Call(GENESIS, to, L.Created(10))], []));
    var j3 := j2.(lock := L.State(0, Some(L.LockFile(10, 0, Some(0))), None, map[0 := inside], []));
    var j4 := Joint(j.server, j.procs[0 := j.procs[0].(phase := Stopped(false))], map[],
                    L.State(0, Some(L.LockFile(10, 0, Some(0))), None, map[0 := L.Call(GENESIS, to, L.Dead)], []));
    Enters(h, agentId, j, j1, to);
    assert JointStep(h, agentId, j1, Sys(L.Open(0, 10))) == j2;
    assert JointStep(h, agentId, j2, Sys(L.WritePid(0))) == j3;
    Killed(h, agentId, j3, j4, to);
    var last := Sys(L.Tick(L.STALE_MS + 1));
    assert JointStep(h, agentId, j4, last) == j4.(lock := L.AfterDeath(None, GENESIS, to));
    hide JointStep, JointExec;
    JointFive(h, agentId, j, Enter(0, 0), Sys(L.Open(0, 10)), Sys(L.WritePid(0)), Kill(0), last);
  }

  lemma Enters(h: Host, agentId: string, j: Joint, j1: Joint, to: string)
    requires 0 in j.procs && j.procs[0].phase.Moving? && j.procs[0].phase.prev == GENESIS && j.procs[0].phase.to == to
    requires j.inCall == map[] && j.lock == L.Begin(None, 0)
    requires j1 == j.(inCall := map[0 := 0], lock := L.State(0, None, None, map[0 := L.Call(GENESIS, to, L.Opening)], []))
    ensures JointStep(h, agentId, j, Enter(0, 0)) == j1
  {
  }

  lemma Killed(h: Host, agentId: string, j: Joint, j': Joint, to: string)
    requires 0 in j.procs && j.inCall == map[0 := 0]
    requires j.lock == L.State(0, Some(L.LockFile(10, 0, Some(0))), None, map[0 := L.Call(GENESIS, to, L.Inside(10))], [])
    requires j' == Joint(j.server, j.procs[0 := j.procs[0].(phase := Stopped(false))], map[],
                         j.lock.(calls := map[0 := L.Call(GENESIS, to, L.Dead)]))
    ensures JointStep(h, agentId, j, Kill(0)) == j'
  {
    assert j.inCall - {0} == map[];
  }

  lemma JointFive(h: Host, agentId: string, j: Joint, a: JointLabel, b: JointLabel, c: JointLabel, d: JointLabel, e: JointLabel)
    ensures JointExec(h, agentId, j, [a] + ([b] + ([c] + ([d] + [e]))))
         == JointStep(h, agentId, JointStep(h, agentId, JointStep(h, agentId, JointStep(h, agentId, JointStep(h, agentId, j, a), b), c), d), e)
  {
    var j1 := JointStep(h, agentId, j, a);
    var j2 := JointStep(h, agentId, j1, b);
    var j3 := JointStep(h, agentId, j2, c);
    var j4 := JointStep(h, agentId, j3, d);
    hide JointStep;
    JointConcat(h, agentId, j, [a], [b] + ([c] + ([d] + [e])));
    JointConcat(h, agentId, j1, [b], [c] + ([d] + [e]));
    JointConcat(h, agentId, j2, [c], [d] + [e]);
    JointConcat(h, agentId, j3, [d], [e]);
    JointOne(h, agentId, j, a);
    JointOne(h, agentId, j1, b);
    JointOne(h, agentId, j2, c);
    JointOne(h, agentId, j3, d);
    JointOne(h, agentId, j4, e);
  }

  /** Processes 1 and 2 take the dead one's lock, the second from the first. */
  function Race(h: Host, cast: Cast, last: seq<L.Label>): seq<JointLabel> {
    LiftAll(L.ReclaimRace(GENESIS, 1, HashOf(h, cast.f), 11, 2, HashOf(h, cast.e), 12, last))
  }

  function Play(h: Host, cast: Cast, last: seq<L.Label>): seq<JointLabel> {
    Opening(cast) + (Posts(cast) + (Death + Race(h, cast, last)))
  }

  lemma Plays(h: Host, cast: Cast, last: seq<L.Label>)
    requires Playable(h, cast) && forall l :: l in last ==> l.Decide?
    ensures var j := JointExec(h, cast.agentId, FirstJoint, Play(h, cast, last));
            && j.server == After4(h, cast)
            && j.lock == L.Exec(L.AfterDeath(None, GENESIS, HashOf(h, cast.f)),
                                L.ReclaimRace(GENESIS, 1, HashOf(h, cast.f), 11, 2, HashOf(h, cast.e), 12, last))
  {
    hide JointExec, Opening, Posts, LiftAll, HashOf, After4, L.ReclaimRace, Opened, Makes, L.AfterDeath, Playable, L.Exec;
    var a := cast.agentId;
    var race := L.ReclaimRace(GENESIS, 1, HashOf(h, cast.f), 11, 2, HashOf(h, cast.e), 12, last);
    Opens(h, cast);
    Poses(h, cast);
    Dies(h, a, Posed(h, cast), HashOf(h, cast.f));
    var dead := JointExec(h, a, Posed(h, cast), Death);
    RaceMakes(dead, HashOf(h, cast.f), HashOf(h, cast.e), last);
    Lifts(h, a, dead, race);
    JointConcat(h, a, FirstJoint, Opening(cast), Posts(cast) + (Death + LiftAll(race)));
    JointConcat(h, a, Opened(cast), Posts(cast), Death + LiftAll(race));
    JointConcat(h, a, Posed(h, cast), Death, LiftAll(race));
  }

  lemma RaceMakes(j: Joint, x: string, y: string, last: seq<L.Label>)
    requires j.inCall == map[] && 1 in j.procs && 2 in j.procs
    requires j.procs[1].phase.Moving? && j.procs[1].phase.prev == GENESIS && j.procs[1].phase.to == x
    requires j.procs[2].phase.Moving? && j.procs[2].phase.prev == GENESIS && j.procs[2].phase.to == y
    requires forall l :: l in last ==> l.Decide?
    ensures Makes(j, L.ReclaimRace(GENESIS, 1, x, 11, 2, y, 12, last))
  {
  }

  /**
    A run from the first state in which the file moves back. Two operations are committed; one
    process has been told that its own was the first of them, two others have been told the
    head. One of these dies holding the lock; the remaining two reclaim it from one another.
    The file first names the second operation and then the first.
  */
  lemma FileMovesBack(h: Host, cast: Cast)
    requires Playable(h, cast)
    ensures var mid := JointExec(h, cast.agentId, FirstJoint, Play(h, cast, [L.Decide(1)]));
            var end := JointExec(h, cast.agentId, FirstJoint, Play(h, cast, [L.Decide(1), L.Decide(2)]));
            && mid.server == end.server && |AgentChain(mid.server.ops, cast.agentId)| == 2
            && mid.lock.file == Some(HeadAt(mid.server.ops, cast.agentId, 2))
            && end.lock.file == Some(HeadAt(mid.server.ops, cast.agentId, 1))
            && mid.lock.file != end.lock.file
  {
    hide JointExec, Play, L.ReclaimRace, L.Exec, AgentChain, After4, Registered, HashOf, Told, L.RaceReady, L.AfterDeath;
    Plays(h, cast, [L.Decide(1)]);
    Plays(h, cast, [L.Decide(1), L.Decide(2)]);
    Story(h, cast);
    AfterDeathIsReady(HashOf(h, cast.f));
    LateIsNew(h, cast);
    L.ReclaimLosesUpdate(L.AfterDeath(None, GENESIS, HashOf(h, cast.f)), GENESIS, 1, HashOf(h, cast.f), 11, 2, HashOf(h, cast.e), 12, None);
    HeadsOfTwo(After4(h, cast).ops, cast.agentId);
  }

  lemma LateIsNew(h: Host, cast: Cast)
    requires Playable(h, cast)
    ensures HashOf(h, cast.f) != GENESIS && HashOf(h, cast.f) != HashOf(h, cast.e)
  {
    hide InOrder, Apart, HashShaped, HashOf;
  }

  lemma AfterDeathIsReady(to: string)
    ensures L.RaceReady(L.AfterDeath(None, GENESIS, to), GENESIS, 1, 11, 2, 12)
  {
  }

  lemma HeadsOfTwo(ops: seq<Row>, agentId: string)
    requires |AgentChain(ops, agentId)| == 2
    ensures var chain := AgentChain(ops, agentId);
            HeadAt(ops, agentId, 1) == chain[0].chainHash && HeadAt(ops, agentId, 2) == chain[1].chainHash
  {
    hide AgentChain;
    var chain := AgentChain(ops, agentId);
    assert chain[..2][1] == chain[1] && chain[..1][0] == chain[0];
  }
}
