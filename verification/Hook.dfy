/**
  The generated hook as a step machine beside the server's: any number of hook processes of
  one agent share its chain-state file and post to the server, whose own steps, and those of
  every other client, are interleaved at will. Moving the file is one atomic step here; module
  HookLock takes it apart and proves when it is.
*/
module Hook {
  import opened Text
  import opened Chain
  import opened Server
  import opened ServerInvariants
  import opened ServerSubmit
  import B = Base64url
  import V = ServerVerify
  import M = Merkle

  const MAX_CHAIN_ATTEMPTS := 5

  datatype HookPhase =
    | Reading
    | Posting(prev: string)
    | Waiting(prev: string, tid: nat)
    | Moving(prev: string, to: string, accepted: bool)
    | Stopped(ok: bool)

  /** One hook process; `posts` are the submissions it has made, in order. */
  datatype Proc = Proc(phase: HookPhase, attempt: nat, posts: seq<nat>)

  /** A missing chain-state file is None. */
  datatype HookState = HookState(server: State, file: Option<string>, procs: map<nat, Proc>)

  datatype HookLabel =
    | Env(step: Label)
    | Start(pid: nat)
    | Read(pid: nat)
    | Post(pid: nat, tid: nat, eor: Eor, now: SafeInt)
    | Reply(pid: nat)
    | Move(pid: nat)
    | Crash(pid: nat)

  /** The pattern /^[A-Za-z0-9_-]{43}$/. */
  predicate HashShaped(s: string) { |s| == 43 && forall c :: c in s ==> B.UrlSymbol(c) }

  /** None when the file's content is refused. */
  function ReadChainState(file: Option<string>): Option<string> {
    match file
    case None => Some(GENESIS)
    case Some(x) => if HashShaped(x) then Some(x) else None
  }

  /** What the answer to a post makes the process do. */
  function AfterReply(h: Host, prev: string, e: Eor, answer: Outcome): HookPhase {
    match answer
    case Accepted(_) => Moving(prev, h.sha(EorInput(e)), true)
    case PrevHashMismatch(expected, _) =>
      if HashShaped(expected) then Moving(prev, expected, false) else Stopped(false)
    case _ => Stopped(false)
  }

  /** Where the retry loop goes after a move that found the file readable. */
  function AfterMove(p: Proc): Proc
    requires p.phase.Moving?
  {
    if p.phase.accepted then p.(phase := Stopped(true))
    else if p.attempt >= MAX_CHAIN_ATTEMPTS then p.(phase := Stopped(false))
    else p.(phase := Reading, attempt := p.attempt + 1)
  }

  /** The compare-and-set on the file, and what follows it. */
  function StepMove(hs: HookState, pid: nat): HookState
    requires pid in hs.procs && hs.procs[pid].phase.Moving?
  {
    var p := hs.procs[pid];
    match ReadChainState(hs.file)
    case None => hs.(procs := hs.procs[pid := p.(phase := Stopped(false))])
    case Some(current) =>
      var file := if current == p.phase.prev then Some(p.phase.to) else hs.file;
      hs.(file := file, procs := hs.procs[pid := AfterMove(p)])
  }

  predicate CanPost(hs: HookState, agentId: string, l: HookLabel)
    requires l.Post?
  {
    && l.pid in hs.procs && hs.procs[l.pid].phase.Posting? && l.tid !in hs.server.threads
    && l.eor.body.agentId == agentId && l.eor.body.prevChainHash == hs.procs[l.pid].phase.prev
  }

  function StepPost(h: Host, hs: HookState, l: HookLabel): HookState
    requires l.Post? && l.pid in hs.procs && hs.procs[l.pid].phase.Posting?
  {
    var p := hs.procs[l.pid];
    hs.(server := Step(h, hs.server, Arrive(l.tid, l.eor, l.now)),
        procs := hs.procs[l.pid := p.(phase := Waiting(p.phase.prev, l.tid), posts := p.posts + [l.tid])])
  }

  function HookStep(h: Host, agentId: string, hs: HookState, l: HookLabel): HookState {
    match l
    case Env(x) => hs.(server := Step(h, hs.server, x))
    case Start(pid) => if pid in hs.procs then hs else hs.(procs := hs.procs[pid := Proc(Reading, 1, [])])
    case Read(pid) =>
      if pid !in hs.procs || !hs.procs[pid].phase.Reading? then hs
      else
        var phase := match ReadChainState(hs.file) case Some(x) => Posting(x) case None => Stopped(false);
        hs.(procs := hs.procs[pid := hs.procs[pid].(phase := phase)])
    case Post(_, _, _, _) => if CanPost(hs, agentId, l) then StepPost(h, hs, l) else hs
    case Reply(pid) =>
      if pid !in hs.procs || !hs.procs[pid].phase.Waiting? then hs
      else
        var p := hs.procs[pid];
        if p.phase.tid !in hs.server.threads || !hs.server.threads[p.phase.tid].phase.Done? then hs
        else
          var t := hs.server.threads[p.phase.tid];
          hs.(procs := hs.procs[pid := p.(phase := AfterReply(h, p.phase.prev, t.eor, t.phase.outcome))])
    case Move(pid) => if pid in hs.procs && hs.procs[pid].phase.Moving? then StepMove(hs, pid) else hs
    case Crash(pid) => if pid in hs.procs then hs.(procs := hs.procs[pid := hs.procs[pid].(phase := Stopped(false))]) else hs
  }

  function HookExec(h: Host, agentId: string, hs: HookState, run: seq<HookLabel>): HookState
    decreases |run|
  {
    if run == [] then hs else HookExec(h, agentId, HookStep(h, agentId, hs, run[0]), run[1..])
  }

  const FirstInstall := HookState(Initial, None, map[])

  // ---- Positions in the server's chain ----

  /** x is the chain's hash after some number of operations, y after more. */
  ghost predicate Later(ops: seq<Row>, agentId: string, x: string, y: string) {
    exists p: nat, q: nat :: p < q <= |AgentChain(ops, agentId)| && HeadAt(ops, agentId, p) == x && HeadAt(ops, agentId, q) == y
  }

  lemma LaterStable(a: seq<Row>, b: seq<Row>, agentId: string, x: string, y: string)
    requires a <= b && Later(a, agentId, x, y)
    ensures Later(b, agentId, x, y)
  {
    hide HeadAt, AgentChain;
    var p: nat, q: nat :| p < q <= |AgentChain(a, agentId)| && HeadAt(a, agentId, p) == x && HeadAt(a, agentId, q) == y;
    PrefixHeadStable(a, b, agentId, p);
    PrefixHeadStable(a, b, agentId, q);
  }

  lemma HeadStable(a: seq<Row>, b: seq<Row>, agentId: string, x: string)
    requires a <= b && IsPrefixHead(a, agentId, x)
    ensures IsPrefixHead(b, agentId, x)
  {
    hide HeadAt, AgentChain;
    var p :| 0 <= p <= |AgentChain(a, agentId)| && HeadAt(a, agentId, p) == x;
    PrefixHeadStable(a, b, agentId, p);
  }

  lemma LaterEnds(ops: seq<Row>, agentId: string, x: string, y: string)
    requires Later(ops, agentId, x, y)
    ensures IsPrefixHead(ops, agentId, x) && IsPrefixHead(ops, agentId, y)
  {
    hide HeadAt, AgentChain;
  }

  // ---- The invariant ----

  /** What a thread that a process waits for will tell it. */
  ghost predicate AnswerOk(ops: seq<Row>, agentId: string, prev: string, t: Thread) {
    && t.eor.body.agentId == agentId && t.eor.body.prevChainHash == prev
    && (t.phase.Done? && t.phase.outcome.PrevHashMismatch? ==> Later(ops, agentId, prev, t.phase.outcome.expected))
  }

  ghost predicate ProcOk(ops: seq<Row>, threads: map<nat, Thread>, agentId: string, p: Proc) {
    match p.phase
    case Posting(prev) => IsPrefixHead(ops, agentId, prev)
    case Waiting(prev, tid) =>
      IsPrefixHead(ops, agentId, prev) && tid in threads && AnswerOk(ops, agentId, prev, threads[tid])
    case Moving(prev, to, _) => Later(ops, agentId, prev, to)
    case _ => true
  }

  function FileHash(file: Option<string>): string {
    match file case None => GENESIS case Some(x) => x
  }

  ghost predicate HookOk(h: Host, agentId: string, hs: HookState) {
    && Core(h, hs.server)
    && IsPrefixHead(hs.server.ops, agentId, FileHash(hs.file))
    && forall pid :: pid in hs.procs ==> ProcOk(hs.server.ops, hs.server.threads, agentId, hs.procs[pid])
  }

  lemma MismatchAtRead(h: Host, s: State, agentId: string, t: Thread)
    requires Core(h, s) && t.eor.body.agentId == agentId && IsPrefixHead(s.ops, agentId, t.eor.body.prevChainHash)
    ensures AnswerOk(s.ops, agentId, t.eor.body.prevChainHash, t.(phase := AfterReadHead(h, s.ops, t.eor)))
  {
    LatestIsHead(h, s.ops, agentId);
    var chain := AgentChain(s.ops, agentId);
    assert chain[..|chain|] == chain;
    assert HeadAt(s.ops, agentId, |chain|) == Head(chain);
    var p :| 0 <= p <= |chain| && HeadAt(s.ops, agentId, p) == t.eor.body.prevChainHash;
    hide HeadAt, AgentChain, LatestOp;
  }

  lemma MismatchAtCommit(h: Host, s: State, agentId: string, t: Thread)
    requires Core(h, s) && t.eor.body.agentId == agentId && t.phase.ReadWinner? && ThreadOk(h, s.keys, s.ops, t)
    ensures AnswerOk(s.ops, agentId, t.eor.body.prevChainHash, t.(phase := AfterReadWinner(s.ops, t.eor)))
  {
    LatestIsHead(h, s.ops, agentId);
    var chain := AgentChain(s.ops, agentId);
    assert chain[..|chain|] == chain;
    assert HeadAt(s.ops, agentId, |chain|) == Head(chain);
    assert HeadAt(s.ops, agentId, t.phase.seqNo - 1) == t.eor.body.prevChainHash;
    hide HeadAt, AgentChain, LatestOp;
  }

  /** A rejection always names a head beyond the one the record was built on. */
  lemma AnswerAdvances(h: Host, s: State, agentId: string, tid: nat, rid: string, qid: string, pk: bool)
    requires Core(h, s) && tid in s.threads
    requires IsPrefixHead(s.ops, agentId, s.threads[tid].eor.body.prevChainHash)
    requires AnswerOk(s.ops, agentId, s.threads[tid].eor.body.prevChainHash, s.threads[tid])
    ensures var t := s.threads[tid];
            AnswerOk(s.ops, agentId, t.eor.body.prevChainHash, t.(phase := NextPhase(h, s, t, rid, qid, pk)))
  {
    var t := s.threads[tid];
    match t.phase {
      case ReadHead => MismatchAtRead(h, s, agentId, t);
      case ReadWinner(_) => MismatchAtCommit(h, s, agentId, t);
      case _ => hide Core, Later, IsPrefixHead;
    }
  }

  /** The server's steps leave every process well placed. */
  lemma ServerStepOk(h: Host, s: State, l: Label, agentId: string, p: Proc)
    requires Core(h, s) && ProcOk(s.ops, s.threads, agentId, p)
    ensures ProcOk(Step(h, s, l).ops, Step(h, s, l).threads, agentId, p)
  {
    var s' := Step(h, s, l);
    StepOps(h, s, l);
    match p.phase {
      case Posting(prev) => HeadStable(s.ops, s'.ops, agentId, prev);
      case Moving(prev, to, _) => LaterStable(s.ops, s'.ops, agentId, prev, to);
      case Waiting(prev, tid) =>
        HeadStable(s.ops, s'.ops, agentId, prev);
        WaitedThreadOk(h, s, l, agentId, prev, tid);
      case _ =>
    }
  }

  lemma WaitedThreadOk(h: Host, s: State, l: Label, agentId: string, prev: string, tid: nat)
    requires Core(h, s) && tid in s.threads && IsPrefixHead(s.ops, agentId, prev)
    requires AnswerOk(s.ops, agentId, prev, s.threads[tid])
    ensures tid in Step(h, s, l).threads && AnswerOk(Step(h, s, l).ops, agentId, prev, Step(h, s, l).threads[tid])
  {
    var s' := Step(h, s, l);
    StepOps(h, s, l);
    hide Core, Later, IsPrefixHead, M.TreeOf, NextPhase, Written;
    if l.Advance? && l.tid == tid {
      AnswerAdvances(h, s, agentId, tid, l.receiptId, l.queueId, l.pkFirst);
      WritesGrow(s, s.threads[tid], NextPhase(h, s, s.threads[tid], l.receiptId, l.queueId, l.pkFirst));
      AnswerStable(s.ops, s'.ops, agentId, prev, s'.threads[tid]);
    } else if l.Fail? && l.tid == tid {
      AnswerStable(s.ops, s'.ops, agentId, prev, s.threads[tid]);
    } else {
      OthersUntouched(h, s, l, tid);
      AnswerStable(s.ops, s'.ops, agentId, prev, s.threads[tid]);
    }
  }

  lemma AnswerStable(a: seq<Row>, b: seq<Row>, agentId: string, prev: string, t: Thread)
    requires a <= b && AnswerOk(a, agentId, prev, t)
    ensures AnswerOk(b, agentId, prev, t)
  {
    hide Later;
    if t.phase.Done? && t.phase.outcome.PrevHashMismatch? {
      LaterStable(a, b, agentId, prev, t.phase.outcome.expected);
    }
  }

  /** On acceptance the process's own hash is the one right after its predecessor. */
  lemma AcceptedAdvances(h: Host, s: State, tid: nat, ear: Ear)
    requires Core(h, s) && tid in s.threads && s.threads[tid].phase == Done(Accepted(ear))
    ensures var e := s.threads[tid].eor;
            Later(s.ops, e.body.agentId, e.body.prevChainHash, h.sha(EorInput(e)))
  {
    var t := s.threads[tid];
    assert ThreadOk(h, s.keys, s.ops, t);
    var r := OwnRow(t, ear);
    V.RowAt(h, s.ops, r);
    var chain := AgentChain(s.ops, r.agentId);
    assert chain[..r.seqNo][r.seqNo - 1] == chain[r.seqNo - 1];
    assert HeadAt(s.ops, r.agentId, r.seqNo - 1) == t.eor.body.prevChainHash;
    assert HeadAt(s.ops, r.agentId, r.seqNo) == h.sha(EorInput(t.eor));
  }

  lemma ReplyOk(h: Host, agentId: string, hs: HookState, pid: nat)
    requires HookOk(h, agentId, hs)
    requires pid in hs.procs && hs.procs[pid].phase.Waiting?
    requires hs.procs[pid].phase.tid in hs.server.threads && hs.server.threads[hs.procs[pid].phase.tid].phase.Done?
    ensures var p := hs.procs[pid]; var t := hs.server.threads[p.phase.tid];
            ProcOk(hs.server.ops, hs.server.threads, agentId,
                   p.(phase := AfterReply(h, p.phase.prev, t.eor, t.phase.outcome)))
  {
    var p := hs.procs[pid];
    assert ProcOk(hs.server.ops, hs.server.threads, agentId, p);
    var t := hs.server.threads[p.phase.tid];
    if t.phase.outcome.Accepted? { AcceptedAdvances(h, hs.server, p.phase.tid, t.phase.outcome.receipt); }
    hide Core, Later, IsPrefixHead;
  }

  lemma ServerLabelKeepsHook(h: Host, agentId: string, hs: HookState, l: Label)
    requires HookOk(h, agentId, hs)
    ensures HookOk(h, agentId, hs.(server := Step(h, hs.server, l)))
  {
    StepKeepsCore(h, hs.server, l);
    StepOps(h, hs.server, l);
    HeadStable(hs.server.ops, Step(h, hs.server, l).ops, agentId, FileHash(hs.file));
    hide Core, Step, ProcOk, IsPrefixHead;
    forall pid | pid in hs.procs
      ensures ProcOk(Step(h, hs.server, l).ops, Step(h, hs.server, l).threads, agentId, hs.procs[pid])
    {
      ServerStepOk(h, hs.server, l, agentId, hs.procs[pid]);
    }
  }

  lemma PostKeepsHook(h: Host, agentId: string, hs: HookState, l: HookLabel)
    requires HookOk(h, agentId, hs) && l.Post? && CanPost(hs, agentId, l)
    ensures HookOk(h, agentId, StepPost(h, hs, l))
  {
    ServerLabelKeepsHook(h, agentId, hs, Arrive(l.tid, l.eor, l.now));
    var s' := Step(h, hs.server, Arrive(l.tid, l.eor, l.now));
    assert s'.ops == hs.server.ops;
    assert l.tid in s'.threads && s'.threads[l.tid].eor == l.eor;
    assert s'.threads[l.tid].phase.Done? ==> !s'.threads[l.tid].phase.outcome.PrevHashMismatch?;
    assert ProcOk(hs.server.ops, hs.server.threads, agentId, hs.procs[l.pid]);
    hide Core, Step, IsPrefixHead, Later;
  }

  lemma HookStepOk(h: Host, agentId: string, hs: HookState, l: HookLabel)
    requires HookOk(h, agentId, hs)
    ensures HookOk(h, agentId, HookStep(h, agentId, hs, l))
  {
    hide Core, Step, IsPrefixHead, Later, StepPost;
    match l {
      case Env(x) => ServerLabelKeepsHook(h, agentId, hs, x);
      case Post(_, _, _, _) => if CanPost(hs, agentId, l) { PostKeepsHook(h, agentId, hs, l); }
      case Reply(pid) =>
        if pid in hs.procs && hs.procs[pid].phase.Waiting? {
          assert ProcOk(hs.server.ops, hs.server.threads, agentId, hs.procs[pid]);
          if hs.server.threads[hs.procs[pid].phase.tid].phase.Done? { ReplyOk(h, agentId, hs, pid); }
        }
      case Move(pid) =>
        if pid in hs.procs && hs.procs[pid].phase.Moving? {
          assert ProcOk(hs.server.ops, hs.server.threads, agentId, hs.procs[pid]);
          LaterEnds(hs.server.ops, agentId, hs.procs[pid].phase.prev, hs.procs[pid].phase.to);
        }
      case _ =>
    }
  }

  lemma {:induction false} HookRunOk(h: Host, agentId: string, hs: HookState, run: seq<HookLabel>)
    requires HookOk(h, agentId, hs)
    ensures HookOk(h, agentId, HookExec(h, agentId, hs, run))
    decreases |run|
  {
    hide HookOk, HookStep;
    if run != [] {
      HookStepOk(h, agentId, hs, run[0]);
      HookRunOk(h, agentId, HookStep(h, agentId, hs, run[0]), run[1..]);
    }
  }

  lemma FirstInstallOk(h: Host, agentId: string)
    ensures HookOk(h, agentId, FirstInstall)
  {
    InitialCore(h);
    assert HeadAt(Initial.ops, agentId, 0) == GENESIS;
  }

  // ---- The file only ever holds a hash of the server's chain ----

  lemma PrefixHeadIsCommitted(h: Host, ops: seq<Row>, agentId: string, x: string)
    requires ChainOk(h, ops)
    ensures IsPrefixHead(ops, agentId, x) <==> x == GENESIS || exists r :: r in ops && r.agentId == agentId && r.chainHash == x
  {
    var chain, rows := AgentChain(ops, agentId), AgentRows(ops, agentId);
    if IsPrefixHead(ops, agentId, x) && x != GENESIS {
      var p :| 0 <= p <= |chain| && HeadAt(ops, agentId, p) == x;
      assert chain[..p][p - 1] == LinkOf(rows[p - 1]);
    }
    if x == GENESIS { assert HeadAt(ops, agentId, 0) == x; }
    if exists r :: r in ops && r.agentId == agentId && r.chainHash == x {
      var r :| r in ops && r.agentId == agentId && r.chainHash == x;
      V.RowAt(h, ops, r);
      assert chain[..r.seqNo][r.seqNo - 1] == LinkOf(r);
      assert HeadAt(ops, agentId, r.seqNo) == x;
    }
  }

  /**
    Whatever the number of hook processes, with lost answers and crashes between any two
    steps, the chain-state file holds genesis or a chain hash that the server has committed.
  */
  lemma FileIsCommitted(h: Host, agentId: string, run: seq<HookLabel>)
    ensures var hs := HookExec(h, agentId, FirstInstall, run);
            var x := FileHash(hs.file);
            x == GENESIS || exists r :: r in hs.server.ops && r.agentId == agentId && r.chainHash == x
  {
    FirstInstallOk(h, agentId);
    HookRunOk(h, agentId, FirstInstall, run);
    var hs := HookExec(h, agentId, FirstInstall, run);
    PrefixHeadIsCommitted(h, hs.server.ops, agentId, FileHash(hs.file));
  }

  // ---- ... and its position never moves backwards ----

  ghost predicate NotBefore(ops: seq<Row>, agentId: string, x: string, y: string) {
    x == y || Later(ops, agentId, x, y)
  }

  lemma StepNotBefore(h: Host, agentId: string, hs: HookState, l: HookLabel)
    requires HookOk(h, agentId, hs)
    ensures var hs' := HookStep(h, agentId, hs, l);
            hs.server.ops <= hs'.server.ops && NotBefore(hs'.server.ops, agentId, FileHash(hs.file), FileHash(hs'.file))
  {
    match l {
      case Env(x) => StepOps(h, hs.server, x);
      case Post(_, tid, e, now) => StepOps(h, hs.server, Arrive(tid, e, now));
      case Move(pid) =>
        if pid in hs.procs { assert ProcOk(hs.server.ops, hs.server.threads, agentId, hs.procs[pid]); }
      case _ =>
    }
    hide Core, Step, Later, IsPrefixHead;
  }

  /** Positions in a trusted chain are unique. */
  lemma PositionsUnique(h: Host, ops: seq<Row>, agentId: string, i: nat, j: nat)
    requires ChainOk(h, ops) && ChainTrusted(h, ops, agentId)
    requires i <= |AgentChain(ops, agentId)| && j <= |AgentChain(ops, agentId)|
    requires HeadAt(ops, agentId, i) == HeadAt(ops, agentId, j)
    ensures i == j
  {
    TrustedChain(h, ops, agentId);
    HeadsDistinct(h.sha, AgentChain(ops, agentId), i, j);
  }

  lemma NotBeforeTransitive(h: Host, ops: seq<Row>, agentId: string, x: string, y: string, z: string)
    requires ChainOk(h, ops) && ChainTrusted(h, ops, agentId)
    requires NotBefore(ops, agentId, x, y) && NotBefore(ops, agentId, y, z)
    ensures NotBefore(ops, agentId, x, z)
  {
    if x != y && y != z {
      hide HeadAt, AgentChain, ChainOk, ChainTrusted;
      var n := |AgentChain(ops, agentId)|;
      var p: nat, q: nat :| p < q <= n && HeadAt(ops, agentId, p) == x && HeadAt(ops, agentId, q) == y;
      var q': nat, r: nat :| q' < r <= n && HeadAt(ops, agentId, q') == y && HeadAt(ops, agentId, r) == z;
      PositionsUnique(h, ops, agentId, q, q');
      assert p < r;
    }
  }

  lemma {:induction false} RunNotBefore(h: Host, agentId: string, hs: HookState, run: seq<HookLabel>)
    requires HookOk(h, agentId, hs)
    requires ChainTrusted(h, HookExec(h, agentId, hs, run).server.ops, agentId)
    ensures var hs' := HookExec(h, agentId, hs, run);
            hs.server.ops <= hs'.server.ops && NotBefore(hs'.server.ops, agentId, FileHash(hs.file), FileHash(hs'.file))
    decreases |run|
  {
    hide HookStep, ChainTrusted, Later;
    if run != [] {
      var one, end := HookStep(h, agentId, hs, run[0]), HookExec(h, agentId, hs, run);
      HookStepOk(h, agentId, hs, run[0]);
      StepNotBefore(h, agentId, hs, run[0]);
      RunNotBefore(h, agentId, one, run[1..]);
      HookRunOk(h, agentId, one, run[1..]);
      if FileHash(hs.file) != FileHash(one.file) {
        LaterStable(one.server.ops, end.server.ops, agentId, FileHash(hs.file), FileHash(one.file));
      }
      NotBeforeTransitive(h, end.server.ops, agentId, FileHash(hs.file), FileHash(one.file), FileHash(end.file));
    }
  }

  lemma {:induction false} HookExecSplits(h: Host, agentId: string, hs: HookState, a: seq<HookLabel>, b: seq<HookLabel>)
    ensures HookExec(h, agentId, hs, a + b) == HookExec(h, agentId, HookExec(h, agentId, hs, a), b)
    decreases |a|
  {
    hide HookStep;
    if a == [] {
      assert a + b == b;
    } else {
      assert (a + b)[1..] == a[1..] + b;
      HookExecSplits(h, agentId, HookStep(h, agentId, hs, a[0]), a[1..], b);
    }
  }

  /**
    The file's position in the server's chain never moves backwards, on acceptance or on
    resynchronisation: of two moments of any run, the later finds it at least as far on. Module
    HookLock carries this over to runs of the lock's system calls.
  */
  lemma FileNeverMovesBack(h: Host, agentId: string, run: seq<HookLabel>, more: seq<HookLabel>, p: nat, q: nat)
    requires var early, late := HookExec(h, agentId, FirstInstall, run), HookExec(h, agentId, FirstInstall, run + more);
             && ChainTrusted(h, late.server.ops, agentId)
             && p <= |AgentChain(early.server.ops, agentId)| && HeadAt(early.server.ops, agentId, p) == FileHash(early.file)
             && q <= |AgentChain(late.server.ops, agentId)| && HeadAt(late.server.ops, agentId, q) == FileHash(late.file)
    ensures p <= q
  {
    hide HookStep, ChainTrusted, HeadAt, AgentChain, Later;
    var early, late := HookExec(h, agentId, FirstInstall, run), HookExec(h, agentId, FirstInstall, run + more);
    HookExecSplits(h, agentId, FirstInstall, run, more);
    FirstInstallOk(h, agentId);
    HookRunOk(h, agentId, FirstInstall, run);
    HookRunOk(h, agentId, early, more);
    RunNotBefore(h, agentId, early, more);
    PrefixHeadStable(early.server.ops, late.server.ops, agentId, p);
    PositionsOrdered(h, late.server.ops, agentId, p, q);
  }

  lemma PositionsOrdered(h: Host, ops: seq<Row>, agentId: string, p: nat, q: nat)
    requires ChainOk(h, ops) && ChainTrusted(h, ops, agentId)
    requires p <= |AgentChain(ops, agentId)| && q <= |AgentChain(ops, agentId)|
    requires NotBefore(ops, agentId, HeadAt(ops, agentId, p), HeadAt(ops, agentId, q))
    ensures p <= q
  {
    hide HeadAt, AgentChain, ChainOk, ChainTrusted;
    if HeadAt(ops, agentId, p) == HeadAt(ops, agentId, q) {
      PositionsUnique(h, ops, agentId, p, q);
    } else {
      var x, y := HeadAt(ops, agentId, p), HeadAt(ops, agentId, q);
      var i: nat, j: nat :| i < j <= |AgentChain(ops, agentId)| && HeadAt(ops, agentId, i) == x && HeadAt(ops, agentId, j) == y;
      PositionsUnique(h, ops, agentId, p, i);
      PositionsUnique(h, ops, agentId, q, j);
    }
  }

  // ---- One run of the hook ----

  ghost predicate RejectedHere(threads: map<nat, Thread>, tid: nat) {
    tid in threads && threads[tid].phase.Done? && threads[tid].phase.outcome.PrevHashMismatch?
  }

  /** How many of a process's posts the server is known to have rejected. */
  function KnownRejected(p: Proc): nat {
    match p.phase
    case Reading => |p.posts|
    case Posting(_) => |p.posts|
    case Moving(_, _, accepted) => if accepted && p.posts != [] then |p.posts| - 1 else |p.posts|
    case _ => if p.posts == [] then 0 else |p.posts| - 1
  }

  ghost predicate PostsOk(threads: map<nat, Thread>, p: Proc) {
    && (p.phase.Reading? || p.phase.Posting? ==> p.attempt == |p.posts| + 1 <= MAX_CHAIN_ATTEMPTS)
    && (p.phase.Waiting? || p.phase.Moving? ==> p.attempt == |p.posts| <= MAX_CHAIN_ATTEMPTS)
    && (p.phase.Waiting? ==> p.posts != [] && p.posts[|p.posts| - 1] == p.phase.tid)
    && (p.phase.Moving? ==> p.posts != [])
    && |p.posts| <= MAX_CHAIN_ATTEMPTS
    && (forall i :: 0 <= i < |p.posts| ==> p.posts[i] in threads)
    && (forall i :: 0 <= i < KnownRejected(p) ==> RejectedHere(threads, p.posts[i]))
    && (forall i, j :: 0 <= i < j < |p.posts| ==> p.posts[i] != p.posts[j])
  }

  ghost predicate AllPostsOk(hs: HookState) {
    forall pid :: pid in hs.procs ==> PostsOk(hs.server.threads, hs.procs[pid])
  }

  lemma RejectionStands(h: Host, s: State, l: Label, tid: nat)
    requires RejectedHere(s.threads, tid)
    ensures RejectedHere(Step(h, s, l).threads, tid)
  {
    hide M.TreeOf;
    if !((l.Advance? || l.Fail?) && l.tid == tid) { OthersUntouched(h, s, l, tid); }
  }

  lemma ServerKeepsPosts(h: Host, s: State, l: Label, p: Proc)
    requires PostsOk(s.threads, p)
    ensures PostsOk(Step(h, s, l).threads, p)
  {
    StepThreads(h, s, l);
    hide Step, RejectedHere;
    forall i | 0 <= i < KnownRejected(p) ensures RejectedHere(Step(h, s, l).threads, p.posts[i]) {
      RejectionStands(h, s, l, p.posts[i]);
    }
  }

  lemma PostKeepsPosts(h: Host, agentId: string, hs: HookState, l: HookLabel)
    requires AllPostsOk(hs) && l.Post? && CanPost(hs, agentId, l)
    ensures AllPostsOk(StepPost(h, hs, l))
  {
    var arrive := Arrive(l.tid, l.eor, l.now);
    forall pid | pid in hs.procs ensures PostsOk(Step(h, hs.server, arrive).threads, hs.procs[pid]) {
      ServerKeepsPosts(h, hs.server, arrive, hs.procs[pid]);
    }
    var p := hs.procs[l.pid];
    assert l.tid !in p.posts;
    hide RejectedHere, ValidateEor;
    assert PostsOk(StepPost(h, hs, l).server.threads, StepPost(h, hs, l).procs[l.pid]);
  }

  lemma HookStepPosts(h: Host, agentId: string, hs: HookState, l: HookLabel)
    requires AllPostsOk(hs)
    ensures AllPostsOk(HookStep(h, agentId, hs, l))
  {
    hide Step, StepPost;
    match l {
      case Env(x) =>
        hide PostsOk;
        forall pid | pid in hs.procs ensures PostsOk(Step(h, hs.server, x).threads, hs.procs[pid]) {
          ServerKeepsPosts(h, hs.server, x, hs.procs[pid]);
        }
      case Post(_, _, _, _) => if CanPost(hs, agentId, l) { PostKeepsPosts(h, agentId, hs, l); }
      case _ =>
    }
  }

  lemma {:induction false} HookRunPosts(h: Host, agentId: string, hs: HookState, run: seq<HookLabel>)
    requires AllPostsOk(hs)
    ensures AllPostsOk(HookExec(h, agentId, hs, run))
    decreases |run|
  {
    hide AllPostsOk, HookStep;
    if run != [] {
      HookStepPosts(h, agentId, hs, run[0]);
      HookRunPosts(h, agentId, HookStep(h, agentId, hs, run[0]), run[1..]);
    }
  }

  lemma {:induction false} HookRunOrigins(h: Host, agentId: string, hs: HookState, run: seq<HookLabel>)
    requires Origins(hs.server)
    ensures Origins(HookExec(h, agentId, hs, run).server)
    decreases |run|
  {
    hide Origins, Step;
    if run != [] {
      match run[0] {
        case Env(x) => StepKeepsOrigins(h, hs.server, x);
        case Post(_, tid, e, now) => StepKeepsOrigins(h, hs.server, Arrive(tid, e, now));
        case _ =>
      }
      HookRunOrigins(h, agentId, HookStep(h, agentId, hs, run[0]), run[1..]);
    }
  }

  /** The record a post carried is in the server's table. */
  ghost predicate PostCommitted(s: State, tid: nat) {
    tid in s.threads && IdTaken(s.ops, s.threads[tid].eor.body.operationId)
  }

  /** Another submission brought the same operation id and is past its commit. */
  ghost predicate DeliveredElsewhere(s: State, tid: nat) {
    tid in s.threads && exists other :: other in s.threads && other != tid && SameIdPastCommit(s.threads[other], s.threads[tid])
  }

  predicate SameIdPastCommit(other: Thread, t: Thread) {
    other.eor.body.operationId == t.eor.body.operationId && PastCommit(other.phase)
  }

  /**
    One hook run sends at most five posts, and whatever answers it gets at most the last of
    them is committed, unless somebody else delivers the record of an earlier one as well.
  */
  lemma AtMostOneCommitted(h: Host, agentId: string, run: seq<HookLabel>, pid: nat, i: nat)
    requires var hs := HookExec(h, agentId, FirstInstall, run); pid in hs.procs && i < |hs.procs[pid].posts|
    ensures var hs := HookExec(h, agentId, FirstInstall, run);
            && |hs.procs[pid].posts| <= MAX_CHAIN_ATTEMPTS
            && (PostCommitted(hs.server, hs.procs[pid].posts[i]) ==>
                  i == |hs.procs[pid].posts| - 1 || DeliveredElsewhere(hs.server, hs.procs[pid].posts[i]))
  {
    hide HookStep, DeliveredElsewhere;
    HookRunPosts(h, agentId, FirstInstall, run);
    HookRunOrigins(h, agentId, FirstInstall, run);
    var hs := HookExec(h, agentId, FirstInstall, run);
    var p := hs.procs[pid];
    assert PostsOk(hs.server.threads, p);
    if i < |p.posts| - 1 { RejectedIsNotCommitted(hs.server, p.posts[i]); }
  }

  lemma RejectedIsNotCommitted(s: State, tid: nat)
    requires Origins(s) && RejectedHere(s.threads, tid)
    ensures PostCommitted(s, tid) ==> DeliveredElsewhere(s, tid)
  {
    if PostCommitted(s, tid) {
      var i :| 0 <= i < |s.ops| && s.ops[i].operationId == s.threads[tid].eor.body.operationId;
      assert HasOrigin(s.threads, s.ops[i]);
      var other :| other in s.threads && CameFrom(s.threads[other], s.ops[i]);
      assert SameIdPastCommit(s.threads[other], s.threads[tid]);
    }
  }

  /**
    Such a delivery is a real exception: of two deliveries of one record that both got past the
    nonce, one is accepted and the other is rejected with the record's own hash, so that the
    hook, answered by the second, moves its file to its own operation and posts another.
  */
  lemma SecondDeliveryIsRejected(h: Host, s: State, a: nat, b: nat, rid: string, qid: string)
    requires Core(h, s) && a in s.threads && b in s.threads && a != b && s.threads[a].eor == s.threads[b].eor
    requires s.threads[a].phase == ReadHead && s.threads[b].phase == ReadHead
    requires Insertable(s, s.threads[a].eor, rid) && h.sha(EorInput(s.threads[a].eor)) != s.threads[a].eor.body.prevChainHash
    ensures var e := s.threads[a].eor; var s1 := Run(h, s, b, rid, qid, 5);
            && b in s1.threads && s1.threads[b].phase.Done? && s1.threads[b].phase.outcome.Accepted? && a in s1.threads
            && var s2 := StepThread(h, s1, a, rid, qid, true);
            && a in s2.threads && s2.threads[a].phase == Done(PrevHashMismatch(h.sha(EorInput(e)), e.body.prevChainHash))
            && PostCommitted(s2, a)
  {
    hide Core, AgentChain, Run, EorInput, StepThread;
    var e := s.threads[a].eor;
    var s1 := Run(h, s, b, rid, qid, 5);
    FromReadHead(h, s, b, rid, qid);
    RunSparesOthers(h, s, b, rid, qid, 5, a);
    LoneKeepsCore(h, s, b, rid, qid, 5);
    var row := CommittedRow(h, s, e, s.threads[b].receivedAt);
    assert s1.ops == s.ops + [row] && row.agentId == e.body.agentId;
    RowsGrow(s.ops, row, e.body.agentId);
    assert Head(AgentChain(s1.ops, e.body.agentId)) == h.sha(EorInput(e));
    assert s1.ops[|s.ops|].operationId == e.body.operationId;
    hide Ends;
    ReadHeadStep(h, s1, a, rid, qid);
  }

  lemma {:induction false} RunSparesOthers(h: Host, s: State, tid: nat, rid: string, qid: string, n: nat, other: nat)
    requires tid in s.threads && other in s.threads && other != tid
    ensures other in Run(h, s, tid, rid, qid, n).threads
    ensures Run(h, s, tid, rid, qid, n).threads[other] == s.threads[other]
    decreases n
  {
    if n == 0 {
      RunNone(h, s, tid, rid, qid);
    } else {
      RunOne(h, s, tid, rid, qid, n);
      StepAround(h, s, tid, rid, qid);
      OthersUntouched(h, s, Advance(tid, rid, qid, true), other);
      assert Step(h, s, Advance(tid, rid, qid, true)) == StepThread(h, s, tid, rid, qid, true);
      hide StepThread, Run, Step;
      RunSparesOthers(h, StepThread(h, s, tid, rid, qid, true), tid, rid, qid, n - 1, other);
    }
  }
}
