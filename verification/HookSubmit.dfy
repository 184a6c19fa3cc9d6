/** One hook run from start to end: the retry loop, and how soon it succeeds undisturbed. */
module HookSubmit {
  import opened Text
  import opened Chain
  import opened Server
  import opened ServerInvariants
  import opened ServerSubmit
  import opened Hook

  /** A built operation, with what the server will generate while it handles the post. */
  datatype Call = Call(tid: nat, eor: Eor, now: SafeInt, receiptId: string, queueId: string)

  /** The server after handling one post undisturbed. */
  function Handle(h: Host, s: State, c: Call): State {
    Run(h, StepArrive(h, s, c.tid, c.eor, c.now), c.tid, c.receiptId, c.queueId, 9)
  }

  function Answer(s: State, tid: nat): Outcome {
    if tid in s.threads && s.threads[tid].phase.Done? then s.threads[tid].phase.outcome else Failed
  }

  /** A post the server has no other reason to refuse than its predecessor. */
  ghost predicate Ready(h: Host, s: State, agentId: string, c: Call, prev: string) {
    && c.eor.body.agentId == agentId && c.eor.body.prevChainHash == prev
    && c.tid !in s.threads && Admissible(h, s, c.eor, c.now)
    && !IdTaken(s.ops, c.eor.body.operationId) && !ReceiptTaken(s.receipts, c.receiptId, c.eor.body.operationId)
  }

  function ServerHead(s: State, agentId: string): string { Head(AgentChain(s.ops, agentId)) }

  lemma AcceptedAtHead(h: Host, s: State, agentId: string, c: Call)
    requires Core(h, s) && Ready(h, s, agentId, c, ServerHead(s, agentId))
    ensures var s' := Handle(h, s, c);
            Answer(s', c.tid).Accepted? && s'.ops == s.ops + [CommittedRow(h, s, c.eor, c.now)]
  {
    SubmitAlone(h, s, c.tid, c.eor, c.now, c.receiptId, c.queueId);
    hide Core, Run, StepArrive, Admissible, IdTaken, ReceiptTaken, AgentChain, RowOf;
  }

  /** A rejected post tells the head and spends nothing but its thread and its nonce. */
  lemma RejectedElsewhere(h: Host, s: State, agentId: string, c: Call, prev: string, d: Call)
    requires Core(h, s) && Ready(h, s, agentId, c, prev) && prev != ServerHead(s, agentId)
    requires Ready(h, s, agentId, d, ServerHead(s, agentId)) && d.tid != c.tid && NonceKey(d.eor) != NonceKey(c.eor)
    ensures var s' := Handle(h, s, c);
            && Answer(s', c.tid) == PrevHashMismatch(ServerHead(s, agentId), prev)
            && Core(h, s') && s'.ops == s.ops && Ready(h, s', agentId, d, ServerHead(s, agentId))
  {
    SubmitAlone(h, s, c.tid, c.eor, c.now, c.receiptId, c.queueId);
    HandleAround(h, s, c);
    HandleKeepsCore(h, s, c);
    hide Core, Run, StepArrive, Admissible, AgentChain, CommittedRow, Insertable, IdTaken, ReceiptTaken, Around;
    ReadyKept(h, s, Handle(h, s, c), agentId, c, d, ServerHead(s, agentId));
  }

  lemma ReadyKept(h: Host, s: State, s': State, agentId: string, c: Call, d: Call, prev: string)
    requires Ready(h, s, agentId, d, prev) && d.tid != c.tid && NonceKey(d.eor) != NonceKey(c.eor)
    requires Around(s, s', NonceKey(c.eor)) && s'.threads.Keys == s.threads.Keys + {c.tid} && s'.ops == s.ops
    ensures Ready(h, s', agentId, d, prev)
  {
    assert d.tid !in s'.threads.Keys;
    hide NonceKey, ValidateEor, AfterReadKey, IdTaken, ReceiptTaken;
  }

  lemma HandleAround(h: Host, s: State, c: Call)
    requires c.tid !in s.threads
    ensures Around(s, Handle(h, s, c), NonceKey(c.eor)) && Handle(h, s, c).threads.Keys == s.threads.Keys + {c.tid}
  {
    var s1 := StepArrive(h, s, c.tid, c.eor, c.now);
    assert s1.threads[c.tid].eor == c.eor && s1.threads.Keys == s.threads.Keys + {c.tid};
    RunAround(h, s1, c.tid, c.receiptId, c.queueId, 9);
    hide Run, NonceKey, ValidateEor;
  }

  lemma HandleKeepsCore(h: Host, s: State, c: Call)
    requires Core(h, s)
    ensures Core(h, Handle(h, s, c))
  {
    StepKeepsCore(h, s, Arrive(c.tid, c.eor, c.now));
    hide Core, Run;
    LoneKeepsCore(h, StepArrive(h, s, c.tid, c.eor, c.now), c.tid, c.receiptId, c.queueId, 9);
  }

  lemma HeadShaped(h: Host, s: State, agentId: string)
    requires Core(h, s) && (forall x :: HashShaped(h.sha(x)))
    ensures HashShaped(ServerHead(s, agentId))
  {
    ChainWellLinked(h, s.ops, agentId);
  }

  /** The hook's chain-state file and the API it posts to. */
  class Hooked {
    const agentId: string
    var server: State
    var file: Option<string>

    constructor (agentId: string, server: State, file: Option<string>)
      ensures this.agentId == agentId && this.server == server && this.file == file
    {
      this.agentId, this.server, this.file := agentId, server, file;
    }

    /** None when the file's content is refused. */
    method AdvanceChainState(fromHash: string, toHash: string) returns (moved: Option<bool>)
      modifies this`file
      ensures moved.None? <==> ReadChainState(old(file)).None?
      ensures moved.Some? ==> moved.value == (ReadChainState(old(file)) == Some(fromHash))
      ensures file == (if moved == Some(true) then Some(toHash) else old(file))
    {
      var current := ReadChainState(file);
      if current.None? { return None; }
      if current.value != fromHash { return Some(false); }
      file := Some(toHash);
      return Some(true);
    }

    method PostOperation(h: Host, c: Call) returns (answer: Outcome)
      modifies this`server
      ensures server == Handle(h, old(server), c) && answer == Answer(server, c.tid)
    {
      server := Handle(h, server, c);
      answer := Answer(server, c.tid);
    }

    /**
      Nobody else commits, touches the file or delays the API during the run, and the built
      operations are in order. Nothing is asked of the file but that it can be read.
    */
    ghost predicate Quiet(h: Host, build: (nat, string) -> Call)
      reads this
    {
      && Core(h, server) && (forall x :: HashShaped(h.sha(x))) && ReadChainState(file).Some?
      && var prev, head := ReadChainState(file).value, ServerHead(server, agentId);
      && Ready(h, server, agentId, build(1, prev), prev)
      && (prev != head ==>
            && Ready(h, server, agentId, build(2, head), head) && build(2, head).tid != build(1, prev).tid
            && NonceKey(build(2, head).eor) != NonceKey(build(1, prev).eor))
    }

    /**
      The retry loop. It never posts more than five times. Undisturbed, one post suffices
      from the server's own head and two from any other readable state; the operation is then
      committed at the end of the chain and the file names it.
    */
    method SubmitOperation(h: Host, build: (nat, string) -> Call) returns (posts: nat, ok: bool, last: Option<Outcome>)
      modifies this
      ensures posts <= 5 && (posts == 0 <==> last.None?) && (posts == 0 <==> ReadChainState(old(file)).None?)
      ensures ok <==> last.Some? && last.value.Accepted?
      ensures last.Some? && last.value.PrevHashMismatch? && HashShaped(last.value.expected) ==> posts == 5
      ensures old(Quiet(h, build)) ==>
        var head := ServerHead(old(server), agentId);
        && ok && posts == (if ReadChainState(old(file)) == Some(head) then 1 else 2)
        && var row := CommittedRow(h, old(server), build(posts, head).eor, build(posts, head).now);
        && server.ops == old(server.ops) + [row] && file == Some(row.chainHash)
    {
      hide Ready, Core, Handle, CommittedRow, AgentChain;
      posts, ok, last := 0, false, None;
      var start := ReadChainState(file);
      if start.None? { return; }
      var previousHash := start.value;
      ghost var quiet, was, head := Quiet(h, build), server, ServerHead(server, agentId);
      var attempt := 1;
      while true
        invariant attempt == posts + 1 && attempt <= MAX_CHAIN_ATTEMPTS && !ok && (posts == 0 <==> last.None?)
        invariant ReadChainState(file) == Some(previousHash)
        invariant quiet ==> attempt <= 2 && server.ops == was.ops && Core(h, server) && ServerHead(was, agentId) == head
        invariant quiet ==> (forall x :: HashShaped(h.sha(x))) && Ready(h, server, agentId, build(attempt, previousHash), previousHash)
        invariant quiet && attempt == 1 && previousHash != head ==>
          && Ready(h, server, agentId, build(2, head), head) && build(2, head).tid != build(1, previousHash).tid
          && NonceKey(build(2, head).eor) != NonceKey(build(1, previousHash).eor)
        invariant attempt == 1 ==> previousHash == start.value
        invariant quiet && attempt == 2 ==> previousHash == head && start.value != head
        decreases MAX_CHAIN_ATTEMPTS - attempt
      {
        var built := build(attempt, previousHash);
        ghost var before := server;
        var answer := PostOperation(h, built);
        posts, last := posts + 1, Some(answer);
        if quiet {
          HeadShaped(h, before, agentId);
          PostQuietly(h, was, before, agentId, built, previousHash, build(2, head));
        }
        match answer {
          case Accepted(_) =>
            var moved := AdvanceChainState(previousHash, h.sha(EorInput(built.eor)));
            ok := moved.Some?;
            return;
          case PrevHashMismatch(expected, _) =>
            if !HashShaped(expected) { return; }
            var moved := AdvanceChainState(previousHash, expected);
            if moved.None? || attempt >= MAX_CHAIN_ATTEMPTS { return; }
            var again := ReadChainState(file);
            if again.None? { return; }
            previousHash := again.value;
            attempt := attempt + 1;
          case _ =>
            return;
        }
      }
    }
  }

  /** What a post does in a quiet run, by whether it names the head. */
  lemma PostQuietly(h: Host, was: State, s: State, agentId: string, c: Call, prev: string, d: Call)
    requires Core(h, s) && s.ops == was.ops && Ready(h, s, agentId, c, prev)
    requires var head := ServerHead(was, agentId);
             prev != head ==>
               Ready(h, s, agentId, d, head) && d.tid != c.tid && NonceKey(d.eor) != NonceKey(c.eor)
    ensures var head, s' := ServerHead(was, agentId), Handle(h, s, c);
            if prev == head then
              && Answer(s', c.tid).Accepted? && s'.ops == was.ops + [CommittedRow(h, was, c.eor, c.now)]
              && CommittedRow(h, was, c.eor, c.now).chainHash == h.sha(EorInput(c.eor))
            else
              && Answer(s', c.tid) == PrevHashMismatch(head, prev) && s'.ops == was.ops && Core(h, s')
              && Ready(h, s', agentId, d, head)
  {
    hide Handle, AgentChain, Core, Answer, Ready, EorInput, NonceKey;
    if prev == ServerHead(was, agentId) {
      AcceptedAtHead(h, s, agentId, c);
    } else {
      RejectedElsewhere(h, s, agentId, c, prev, d);
    }
  }
}
