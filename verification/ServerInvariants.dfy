/** What every step of the server machine keeps, and the first theorems about all its runs. */
module ServerInvariants {
  import opened Chain
  import opened Server
  import M = Merkle

  // ---- An agent's chain, read off the operations table ----

  function LinkOf(r: Row): Link {
    Link(r.prevChainHash, r.payloadHash, r.operationId, r.issuedAt, r.chainHash)
  }

  /** An agent's rows in commit order. */
  function AgentRows(ops: seq<Row>, agentId: string): (r: seq<Row>)
    ensures forall i :: 0 <= i < |r| ==> r[i] in ops && r[i].agentId == agentId
    ensures |r| <= |ops|
  {
    if ops == [] then []
    else
      var rest, last := AgentRows(ops[..|ops| - 1], agentId), ops[|ops| - 1];
      if last.agentId == agentId then rest + [last] else rest
  }

  function Links(rows: seq<Row>): (r: seq<Link>)
    ensures |r| == |rows|
  {
    seq(|rows|, i requires 0 <= i < |rows| => LinkOf(rows[i]))
  }

  function AgentChain(ops: seq<Row>, agentId: string): (r: seq<Link>)
    ensures |r| == |AgentRows(ops, agentId)|
  {
    Links(AgentRows(ops, agentId))
  }

  lemma RowsGrow(ops: seq<Row>, r: Row, agentId: string)
    ensures AgentRows(ops + [r], agentId)
         == if r.agentId == agentId then AgentRows(ops, agentId) + [r] else AgentRows(ops, agentId)
    ensures AgentChain(ops + [r], agentId)
         == if r.agentId == agentId then AgentChain(ops, agentId) + [LinkOf(r)] else AgentChain(ops, agentId)
  {
    assert (ops + [r])[..|ops + [r]| - 1] == ops;
  }

  lemma {:induction false} RowsPrefix(ops: seq<Row>, more: seq<Row>, agentId: string)
    requires ops <= more
    ensures AgentRows(ops, agentId) <= AgentRows(more, agentId)
    ensures AgentChain(ops, agentId) <= AgentChain(more, agentId)
    decreases |more|
  {
    if |ops| < |more| {
      var init, last := more[..|more| - 1], more[|more| - 1];
      assert more == init + [last] && ops <= init;
      RowsPrefix(ops, init, agentId);
      RowsGrow(init, last, agentId);
    } else {
      assert ops == more;
    }
  }

  /** Row k extends the chain that its agent had when it was inserted. */
  ghost predicate RowLinks(h: Host, ops: seq<Row>, k: nat)
    requires k < |ops|
  {
    var chain := AgentChain(ops[..k], ops[k].agentId);
    && ops[k].seqNo == |chain| + 1
    && ops[k].prevChainHash == Head(chain)
    && ops[k].chainHash == h.sha(InputOf(LinkOf(ops[k])))
  }

  ghost predicate ChainOk(h: Host, ops: seq<Row>) {
    forall k :: 0 <= k < |ops| ==> RowLinks(h, ops, k)
  }

  lemma ChainOkPrefix(h: Host, ops: seq<Row>, r: Row)
    ensures ChainOk(h, ops + [r]) <==> ChainOk(h, ops) && RowLinks(h, ops + [r], |ops|)
  {
    var more := ops + [r];
    forall k | 0 <= k < |ops| ensures RowLinks(h, more, k) == RowLinks(h, ops, k) {
      assert more[..k] == ops[..k];
    }
  }

  lemma ChainOkInit(h: Host, ops: seq<Row>)
    requires ChainOk(h, ops) && ops != []
    ensures ChainOk(h, ops[..|ops| - 1]) && RowLinks(h, ops, |ops| - 1)
    ensures AgentChain(ops, ops[|ops| - 1].agentId)
         == AgentChain(ops[..|ops| - 1], ops[|ops| - 1].agentId) + [LinkOf(ops[|ops| - 1])]
  {
    var init, last := ops[..|ops| - 1], ops[|ops| - 1];
    assert ops == init + [last];
    ChainOkPrefix(h, init, last);
    RowsGrow(init, last, last.agentId);
  }

  /** The head query finds the agent's row with the greatest number, and none when there is none. */
  lemma {:induction false} LatestExactly(ops: seq<Row>, agentId: string)
    ensures var latest := LatestOp(ops, agentId);
            && (latest.None? ==> forall r :: r in ops ==> r.agentId != agentId)
            && (latest.Some? ==> latest.value in ops && latest.value.agentId == agentId)
            && (latest.Some? ==> forall r :: r in ops && r.agentId == agentId ==> r.seqNo <= latest.value.seqNo)
    decreases |ops|
  {
    if ops != [] {
      LatestExactly(ops[..|ops| - 1], agentId);
      assert ops == ops[..|ops| - 1] + [ops[|ops| - 1]];
    }
  }

  /** The indexed head query returns the end of the chain. */
  lemma {:induction false} LatestIsHead(h: Host, ops: seq<Row>, agentId: string)
    requires ChainOk(h, ops)
    ensures var chain, latest := AgentChain(ops, agentId), LatestOp(ops, agentId);
            && (latest.None? <==> chain == [])
            && (latest.Some? ==> && latest.value.agentId == agentId && latest.value.seqNo == |chain|
                                 && latest.value.chainHash == Head(chain))
    decreases |ops|
  {
    if ops != [] {
      var init, last := ops[..|ops| - 1], ops[|ops| - 1];
      assert ops == init + [last];
      ChainOkInit(h, ops);
      LatestIsHead(h, init, agentId);
      RowsGrow(init, last, agentId);
    }
  }

  /** An agent's rows carry the sequence numbers 1..n, one each, in commit order. */
  lemma {:induction false} RowsNumbered(h: Host, ops: seq<Row>, agentId: string)
    requires ChainOk(h, ops)
    ensures var rows := AgentRows(ops, agentId);
            && (forall i :: 0 <= i < |rows| ==> rows[i].seqNo == i + 1)
            && (forall r :: r in ops && r.agentId == agentId <==> r in rows)
    decreases |ops|
  {
    if ops != [] {
      var init, last := ops[..|ops| - 1], ops[|ops| - 1];
      assert ops == init + [last];
      ChainOkInit(h, ops);
      RowsNumbered(h, init, agentId);
      RowsGrow(init, last, agentId);
      assert forall r :: r in ops <==> r in init || r == last;
      assert forall r :: r in AgentRows(ops, agentId) <==> r in AgentRows(init, agentId) || (r == last && r.agentId == agentId);
    }
  }

  lemma SeqTakenExactly(h: Host, ops: seq<Row>, agentId: string, n: int)
    requires ChainOk(h, ops)
    ensures SeqTaken(ops, agentId, n) <==> 1 <= n <= |AgentChain(ops, agentId)|
  {
    RowsNumbered(h, ops, agentId);
    var rows := AgentRows(ops, agentId);
    if SeqTaken(ops, agentId, n) {
      var i :| 0 <= i < |ops| && ops[i].agentId == agentId && ops[i].seqNo == n;
      assert ops[i] in rows;
    }
    if 1 <= n <= |rows| {
      assert rows[n - 1] in ops;
      var i :| 0 <= i < |ops| && ops[i] == rows[n - 1];
    }
  }

  /** Genesis first, then each row on the hash before it, each hash recomputable. */
  lemma {:induction false} ChainWellLinked(h: Host, ops: seq<Row>, agentId: string)
    requires ChainOk(h, ops)
    ensures WellLinked(h.sha, AgentChain(ops, agentId))
    decreases |ops|
  {
    if ops != [] {
      var init, last := ops[..|ops| - 1], ops[|ops| - 1];
      assert ops == init + [last];
      ChainOkInit(h, ops);
      ChainWellLinked(h, init, agentId);
      RowsGrow(init, last, agentId);
      var chain, before := AgentChain(ops, agentId), AgentChain(init, agentId);
      forall i | 0 <= i < |chain|
        ensures chain[i].prev == Head(chain[..i]) && chain[i].chainHash == h.sha(InputOf(chain[i]))
      {
        if i < |before| {
          assert chain[i] == before[i] && chain[..i] == before[..i];
        } else {
          assert chain[..i] == before;
        }
      }
    }
  }

  // ---- The core invariant ----

  ghost predicate SigOk(h: Host, keys: map<string, AgentKey>, e: Eor) {
    && e.body.kid in keys && keys[e.body.kid].agentId == e.body.agentId
    && h.verify(keys[e.body.kid].publicKey, e.signature, e.body)
  }

  /** The head this submission read: the chain as it stood after n - 1 operations. */
  ghost predicate HeadSeen(h: Host, ops: seq<Row>, e: Eor, n: int) {
    var chain := AgentChain(ops, e.body.agentId);
    1 <= n <= |chain| + 1 && e.body.prevChainHash == Head(chain[..n - 1])
  }

  ghost predicate EarMatches(h: Host, t: Thread, ear: Ear) {
    var f, b := ear.fields, t.eor.body;
    && f.operationId == b.operationId && f.orgId == b.orgId && f.agentId == b.agentId
    && f.serverReceivedAt == t.receivedAt
    && f.chainHash == h.sha(EorInput(t.eor))
    && f.version == "1.0" && ear.receiptHash == h.receiptHash(f) && ear.signature == h.signReceipt(ear.receiptHash)
  }

  function OwnRow(t: Thread, ear: Ear): Row {
    RowOf(t.eor, ear.fields.seqNo, ear.fields.chainHash, t.receivedAt)
  }

  ghost predicate ThreadOk(h: Host, keys: map<string, AgentKey>, ops: seq<Row>, t: Thread) {
    match t.phase
    case ReadHead => SigOk(h, keys, t.eor)
    case PutPayload(n, c) => SigOk(h, keys, t.eor) && HeadSeen(h, ops, t.eor, n) && c == h.sha(EorInput(t.eor))
    case PutReceipt(ear) => SigOk(h, keys, t.eor) && HeadSeen(h, ops, t.eor, ear.fields.seqNo) && EarMatches(h, t, ear)
    case Commit(ear) => SigOk(h, keys, t.eor) && HeadSeen(h, ops, t.eor, ear.fields.seqNo) && EarMatches(h, t, ear)
    case Enqueue(ear) => SigOk(h, keys, t.eor) && OwnRow(t, ear) in ops && EarMatches(h, t, ear)
    case ReadWinner(n) => HeadSeen(h, ops, t.eor, n) && n <= |AgentChain(ops, t.eor.body.agentId)|
    case Done(o) =>
      (match o
       case Accepted(ear) => OwnRow(t, ear) in ops && EarMatches(h, t, ear)
       case PrevHashMismatch(e, a) =>
         a == t.eor.body.prevChainHash && IsPrefixHead(ops, t.eor.body.agentId, e)
       case _ => true)
    case _ => true
  }

  ghost predicate IsPrefixHead(ops: seq<Row>, agentId: string, hash: string) {
    exists p :: 0 <= p <= |AgentChain(ops, agentId)| && HeadAt(ops, agentId, p) == hash
  }

  /** The chain's hash after p operations. */
  function HeadAt(ops: seq<Row>, agentId: string, p: nat): string
    requires p <= |AgentChain(ops, agentId)|
  {
    Head(AgentChain(ops, agentId)[..p])
  }

  /** Ids are unique, and the receipts table runs in step with the operations table. */
  ghost predicate TablesOk(ops: seq<Row>, receipts: seq<ReceiptRow>) {
    && |receipts| == |ops|
    && (forall i, j :: 0 <= i < j < |ops| ==> ops[i].operationId != ops[j].operationId)
    && (forall i :: 0 <= i < |ops| ==>
          && receipts[i].operationId == ops[i].operationId
          && receipts[i].receiptKey == ReceiptKey(ops[i].orgId, ops[i].agentId, ops[i].operationId)
          && ops[i].payloadKey == PayloadKey(ops[i].orgId, ops[i].agentId, ops[i].operationId))
  }

  ghost predicate ThreadsOk(h: Host, s: State) {
    forall tid :: tid in s.threads ==> ThreadOk(h, s.keys, s.ops, s.threads[tid])
  }

  ghost predicate Core(h: Host, s: State) {
    ChainOk(h, s.ops) && TablesOk(s.ops, s.receipts) && ThreadsOk(h, s)
  }

  // ---- What only grows ----

  ghost predicate KeysExtend(a: map<string, AgentKey>, b: map<string, AgentKey>) {
    forall k :: k in a ==> k in b && b[k].agentId == a[k].agentId && b[k].publicKey == a[k].publicKey
  }

  ghost predicate ThreadsExtend(a: map<nat, Thread>, b: map<nat, Thread>) {
    forall t :: t in a ==> t in b && b[t].eor == a[t].eor && b[t].receivedAt == a[t].receivedAt
  }

  ghost predicate Grows(a: State, b: State) {
    KeysExtend(a.keys, b.keys) && a.ops <= b.ops && ThreadsExtend(a.threads, b.threads)
  }

  lemma WritesGrow(s: State, t: Thread, next: Phase)
    ensures var w := Written(s, t, next);
            && w.threads == s.threads && w.keys == s.keys && w.epochs == s.epochs
            && w.scheduler == s.scheduler && s.ops <= w.ops
  {
    hide RowOf;
  }

  lemma StepKeys(h: Host, s: State, l: Label)
    ensures KeysExtend(s.keys, Step(h, s, l).keys)
  {
    hide Written, NextPhase, M.TreeOf, InWindow;
    if l.Advance? && l.tid in s.threads {
      WritesGrow(s, s.threads[l.tid], NextPhase(h, s, s.threads[l.tid], l.receiptId, l.queueId, l.pkFirst));
    }
  }

  lemma StepOps(h: Host, s: State, l: Label)
    ensures s.ops <= Step(h, s, l).ops
    ensures !(l.Advance? && l.tid in s.threads) ==>
      Step(h, s, l).ops == s.ops && Step(h, s, l).receipts == s.receipts
  {
    hide Written, NextPhase, M.TreeOf, InWindow;
    if l.Advance? && l.tid in s.threads {
      WritesGrow(s, s.threads[l.tid], NextPhase(h, s, s.threads[l.tid], l.receiptId, l.queueId, l.pkFirst));
    }
  }

  lemma StepThreads(h: Host, s: State, l: Label)
    ensures ThreadsExtend(s.threads, Step(h, s, l).threads)
  {
    hide Written, NextPhase, M.TreeOf, InWindow, ValidateEor;
    if l.Advance? && l.tid in s.threads {
      WritesGrow(s, s.threads[l.tid], NextPhase(h, s, s.threads[l.tid], l.receiptId, l.queueId, l.pkFirst));
    }
  }

  lemma StepGrows(h: Host, s: State, l: Label)
    ensures Grows(s, Step(h, s, l))
  {
    StepKeys(h, s, l);
    StepOps(h, s, l);
    StepThreads(h, s, l);
  }

  lemma HeadSeenStable(h: Host, a: seq<Row>, b: seq<Row>, e: Eor, n: int)
    requires a <= b && HeadSeen(h, a, e, n)
    ensures HeadSeen(h, b, e, n)
  {
    RowsPrefix(a, b, e.body.agentId);
    assert AgentChain(a, e.body.agentId)[..n - 1] == AgentChain(b, e.body.agentId)[..n - 1];
  }

  lemma PrefixHeadStable(a: seq<Row>, b: seq<Row>, agentId: string, p: nat)
    requires a <= b && p <= |AgentChain(a, agentId)|
    ensures p <= |AgentChain(b, agentId)| && HeadAt(b, agentId, p) == HeadAt(a, agentId, p)
  {
    RowsPrefix(a, b, agentId);
    assert AgentChain(a, agentId)[..p] == AgentChain(b, agentId)[..p];
  }

  /** A submission's standing survives whatever the others do. */
  lemma ThreadStable(h: Host, keys: map<string, AgentKey>, keys': map<string, AgentKey>,
                     ops: seq<Row>, ops': seq<Row>, t: Thread)
    requires KeysExtend(keys, keys') && ops <= ops' && ThreadOk(h, keys, ops, t)
    ensures ThreadOk(h, keys', ops', t)
  {
    hide HeadSeen, AgentChain, AgentRows, EarMatches, HeadAt;
    RowsPrefix(ops, ops', t.eor.body.agentId);
    forall r | r in ops ensures r in ops' { }
    match t.phase {
      case PutPayload(n, _) => HeadSeenStable(h, ops, ops', t.eor, n);
      case PutReceipt(ear) => HeadSeenStable(h, ops, ops', t.eor, ear.fields.seqNo);
      case Commit(ear) => HeadSeenStable(h, ops, ops', t.eor, ear.fields.seqNo);
      case ReadWinner(n) => HeadSeenStable(h, ops, ops', t.eor, n);
      case Done(o) =>
        if o.PrevHashMismatch? {
          var p :| 0 <= p <= |AgentChain(ops, t.eor.body.agentId)| && HeadAt(ops, t.eor.body.agentId, p) == o.expected;
          PrefixHeadStable(ops, ops', t.eor.body.agentId, p);
        }
      case _ =>
    }
  }

  // ---- The submission's own steps ----

  lemma HeadReadOk(h: Host, s: State, t: Thread)
    requires Core(h, s) && t.phase == ReadHead && ThreadOk(h, s.keys, s.ops, t)
    ensures ThreadOk(h, s.keys, s.ops, t.(phase := AfterReadHead(h, s.ops, t.eor)))
  {
    var a := t.eor.body.agentId;
    LatestIsHead(h, s.ops, a);
    var chain := AgentChain(s.ops, a);
    assert chain[..|chain|] == chain;
    assert HeadAt(s.ops, a, |chain|) == Head(chain);
  }

  lemma WinnerReadOk(h: Host, s: State, t: Thread)
    requires Core(h, s)
    ensures ThreadOk(h, s.keys, s.ops, t.(phase := AfterReadWinner(s.ops, t.eor)))
  {
    var a := t.eor.body.agentId;
    LatestIsHead(h, s.ops, a);
    var chain := AgentChain(s.ops, a);
    assert chain[..|chain|] == chain;
    assert HeadAt(s.ops, a, |chain|) == Head(chain);
  }

  /**
    The commit: the head that was read may be stale by now. If it is, the sequence number is
    taken and nothing is inserted; if the insert goes through, the head read was the head.
  */
  lemma CommitExtends(h: Host, s: State, t: Thread, ear: Ear, pk: bool)
    requires Core(h, s) && t.phase == Commit(ear) && ThreadOk(h, s.keys, s.ops, t)
    ensures var next := AfterCommit(s, t.eor, ear, pk);
            var s' := Written(s, t, next);
            && ChainOk(h, s'.ops) && TablesOk(s'.ops, s'.receipts)
            && ThreadOk(h, s.keys, s'.ops, t.(phase := next))
  {
    var b := t.eor.body;
    var n := ear.fields.seqNo;
    SeqTakenExactly(h, s.ops, b.agentId, n);
    if AfterCommit(s, t.eor, ear, pk).Enqueue? {
      InsertLinks(h, s.ops, t, ear);
      CommitTables(s, t, ear);
      var ops' := s.ops + [OwnRow(t, ear)];
      assert ops'[|s.ops|] == OwnRow(t, ear);
    }
  }

  lemma InsertLinks(h: Host, ops: seq<Row>, t: Thread, ear: Ear)
    requires ChainOk(h, ops) && HeadSeen(h, ops, t.eor, ear.fields.seqNo) && EarMatches(h, t, ear)
    requires !SeqTaken(ops, t.eor.body.agentId, ear.fields.seqNo)
    ensures ChainOk(h, ops + [OwnRow(t, ear)])
  {
    var r := OwnRow(t, ear);
    var chain := AgentChain(ops, r.agentId);
    SeqTakenExactly(h, ops, r.agentId, r.seqNo);
    assert chain[..r.seqNo - 1] == chain;
    assert (ops + [r])[..|ops|] == ops;
    assert RowLinks(h, ops + [r], |ops|);
    ChainOkPrefix(h, ops, r);
  }

  lemma CommitTables(s: State, t: Thread, ear: Ear)
    requires TablesOk(s.ops, s.receipts) && !IdTaken(s.ops, t.eor.body.operationId)
    requires ear.fields.operationId == t.eor.body.operationId
    requires ear.fields.orgId == t.eor.body.orgId && ear.fields.agentId == t.eor.body.agentId
    ensures TablesOk(s.ops + [OwnRow(t, ear)],
                     s.receipts + [ReceiptRow(ear.fields.receiptId, t.eor.body.operationId, EarKey(ear.fields))])
  {
  }

  lemma ThreadStepOk(h: Host, s: State, t: Thread, rid: string, qid: string, pk: bool)
    requires Core(h, s) && ThreadOk(h, s.keys, s.ops, t)
    ensures var next := NextPhase(h, s, t, rid, qid, pk);
            var s' := Written(s, t, next);
            && ChainOk(h, s'.ops) && TablesOk(s'.ops, s'.receipts)
            && ThreadOk(h, s.keys, s'.ops, t.(phase := next))
  {
    match t.phase {
      case ReadHead => HeadReadOk(h, s, t);
      case Commit(ear) => CommitExtends(h, s, t, ear, pk);
      case ReadWinner(_) => WinnerReadOk(h, s, t);
      case _ => hide ChainOk, TablesOk, HeadSeen, IsPrefixHead, AgentRows;
    }
  }

  /** The threads a step leaves alone. */
  lemma OthersUntouched(h: Host, s: State, l: Label, tid: nat)
    requires tid in s.threads
    requires !((l.Advance? || l.Fail?) && l.tid == tid)
    ensures tid in Step(h, s, l).threads && Step(h, s, l).threads[tid] == s.threads[tid]
  {
    hide Written, NextPhase, M.TreeOf;
    if l.Advance? && l.tid in s.threads {
      WritesGrow(s, s.threads[l.tid], NextPhase(h, s, s.threads[l.tid], l.receiptId, l.queueId, l.pkFirst));
    }
  }

  lemma NewThreadOk(h: Host, s: State, l: Label, tid: nat)
    requires tid in Step(h, s, l).threads && (tid !in s.threads || (l.Fail? && l.tid == tid))
    requires ThreadsOk(h, s)
    ensures ThreadOk(h, Step(h, s, l).keys, Step(h, s, l).ops, Step(h, s, l).threads[tid])
  {
    hide Written, NextPhase, M.TreeOf, HeadSeen, AgentRows;
    if l.Advance? && l.tid in s.threads {
      WritesGrow(s, s.threads[l.tid], NextPhase(h, s, s.threads[l.tid], l.receiptId, l.queueId, l.pkFirst));
    }
  }

  lemma TablesKept(h: Host, s: State, l: Label)
    requires Core(h, s)
    ensures ChainOk(h, Step(h, s, l).ops) && TablesOk(Step(h, s, l).ops, Step(h, s, l).receipts)
  {
    hide ChainOk, TablesOk, ThreadOk, Written, NextPhase, M.TreeOf;
    if l.Advance? && l.tid in s.threads {
      ThreadStepOk(h, s, s.threads[l.tid], l.receiptId, l.queueId, l.pkFirst);
    } else {
      StepOps(h, s, l);
    }
  }

  lemma StepKeepsCore(h: Host, s: State, l: Label)
    requires Core(h, s)
    ensures Core(h, Step(h, s, l))
  {
    var s' := Step(h, s, l);
    StepGrows(h, s, l);
    TablesKept(h, s, l);
    hide Step, ChainOk, TablesOk, ThreadOk;
    forall tid | tid in s'.threads
      ensures ThreadOk(h, s'.keys, s'.ops, s'.threads[tid])
    {
      if l.Advance? && l.tid == tid && tid in s.threads {
        AdvanceOk(h, s, l);
      } else if tid in s.threads && !(l.Fail? && l.tid == tid) {
        OthersUntouched(h, s, l, tid);
        ThreadStable(h, s.keys, s'.keys, s.ops, s'.ops, s.threads[tid]);
      } else {
        NewThreadOk(h, s, l, tid);
      }
    }
  }

  lemma AdvanceOk(h: Host, s: State, l: Label)
    requires Core(h, s) && l.Advance? && l.tid in s.threads
    ensures l.tid in Step(h, s, l).threads
    ensures ThreadOk(h, Step(h, s, l).keys, Step(h, s, l).ops, Step(h, s, l).threads[l.tid])
  {
    hide ChainOk, TablesOk, ThreadOk, Written, NextPhase;
    var t := s.threads[l.tid];
    ThreadStepOk(h, s, t, l.receiptId, l.queueId, l.pkFirst);
    WritesGrow(s, t, NextPhase(h, s, t, l.receiptId, l.queueId, l.pkFirst));
  }

  lemma {:induction false} RunKeepsCore(h: Host, s: State, run: seq<Label>)
    requires Core(h, s)
    ensures Core(h, Exec(h, s, run))
    decreases |run|
  {
    hide Core, Step;
    if run != [] {
      StepKeepsCore(h, s, run[0]);
      RunKeepsCore(h, Step(h, s, run[0]), run[1..]);
    }
  }

  lemma {:induction false} RunGrows(h: Host, s: State, run: seq<Label>)
    ensures Grows(s, Exec(h, s, run))
    decreases |run|
  {
    if run != [] {
      hide Step;
      StepGrows(h, s, run[0]);
      RunGrows(h, Step(h, s, run[0]), run[1..]);
    }
  }

  lemma InitialCore(h: Host)
    ensures Core(h, Initial)
  {
  }

  // ---- Theorems about every run ----

  /**
    Whatever the interleaving, every agent's committed operations carry the sequence numbers
    1..n once each, start at genesis, link hash to hash, and every hash recomputes.
  */
  lemma ChainIntegrity(h: Host, run: seq<Label>, agentId: string)
    ensures var ops := Exec(h, Initial, run).ops;
            && (forall i :: 0 <= i < |AgentRows(ops, agentId)| ==>
                  && AgentRows(ops, agentId)[i].seqNo == i + 1
                  && LinkOf(AgentRows(ops, agentId)[i]) == AgentChain(ops, agentId)[i])
            && (forall r :: r in ops && r.agentId == agentId <==> r in AgentRows(ops, agentId))
            && WellLinked(h.sha, AgentChain(ops, agentId))
  {
    InitialCore(h);
    RunKeepsCore(h, Initial, run);
    RowsNumbered(h, Exec(h, Initial, run).ops, agentId);
    ChainWellLinked(h, Exec(h, Initial, run).ops, agentId);
  }

  /** Committed operations are never changed or removed: later tables extend earlier ones. */
  lemma LogOnlyGrows(h: Host, s: State, run: seq<Label>)
    ensures s.ops <= Exec(h, s, run).ops
  {
    RunGrows(h, s, run);
  }

  /** The hypotheses on hashing, for the one chain at hand. */
  ghost predicate ChainTrusted(h: Host, ops: seq<Row>, agentId: string) {
    var c := AgentChain(ops, agentId);
    AllBarFree(c) && GenesisFresh(c) && Chain.CollisionFree(h.sha, Inputs(c))
  }

  lemma TrustedChain(h: Host, ops: seq<Row>, agentId: string)
    requires ChainOk(h, ops) && ChainTrusted(h, ops, agentId)
    ensures Trusted(h.sha, AgentChain(ops, agentId), AgentChain(ops, agentId))
  {
    ChainWellLinked(h, ops, agentId);
    assert Inputs(AgentChain(ops, agentId)) + Inputs(AgentChain(ops, agentId)) == Inputs(AgentChain(ops, agentId));
  }

  /** No fork: a chain hash is the predecessor of at most one committed operation. */
  lemma OneSuccessor(h: Host, run: seq<Label>, r: Row, r': Row)
    requires var ops := Exec(h, Initial, run).ops;
             && r in ops && r' in ops && r.agentId == r'.agentId
             && r.prevChainHash == r'.prevChainHash
             && ChainTrusted(h, ops, r.agentId)
    ensures r == r'
  {
    InitialCore(h);
    RunKeepsCore(h, Initial, run);
    OneSuccessorIn(h, Exec(h, Initial, run).ops, r, r');
  }

  lemma OneSuccessorIn(h: Host, ops: seq<Row>, r: Row, r': Row)
    requires ChainOk(h, ops) && r in ops && r' in ops && r.agentId == r'.agentId
    requires r.prevChainHash == r'.prevChainHash && ChainTrusted(h, ops, r.agentId)
    ensures r == r'
  {
    var a := r.agentId;
    RowsNumbered(h, ops, a);
    ChainWellLinked(h, ops, a);
    TrustedChain(h, ops, a);
    var rows := AgentRows(ops, a);
    var i :| 0 <= i < |rows| && rows[i] == r;
    var j :| 0 <= j < |rows| && rows[j] == r';
    var chain := AgentChain(ops, a);
    assert chain[i].prev == Head(chain[..i]) && chain[j].prev == Head(chain[..j]);
    HeadsDistinct(h.sha, chain, i, j);
  }

  /**
    A signed record is committed at most once over any run, even when its nonce was never
    stored or has expired: once its predecessor has a successor, that predecessor is never
    the head again.
  */
  lemma CommittedAtMostOnce(h: Host, run: seq<Label>, i: nat, j: nat, e: Eor)
    requires var ops := Exec(h, Initial, run).ops;
             && i < |ops| && j < |ops|
             && ops[i] == RowOf(e, ops[i].seqNo, ops[i].chainHash, ops[i].createdAt)
             && ops[j] == RowOf(e, ops[j].seqNo, ops[j].chainHash, ops[j].createdAt)
    ensures i == j
  {
    InitialCore(h);
    RunKeepsCore(h, Initial, run);
    var ops := Exec(h, Initial, run).ops;
    assert ops[i].operationId == ops[j].operationId;
  }

  /** The same without the help of operation ids: a spent predecessor stays spent. */
  lemma SpentPredecessorStaysSpent(h: Host, run: seq<Label>, more: seq<Label>, r: Row, k: nat)
    requires var ops := Exec(h, Initial, run).ops; r in ops
    requires var ops' := Exec(h, Exec(h, Initial, run), more).ops;
             && |Exec(h, Initial, run).ops| <= k < |ops'|
             && ops'[k].agentId == r.agentId && ChainTrusted(h, ops', r.agentId)
    ensures Exec(h, Exec(h, Initial, run), more).ops[k].prevChainHash != r.prevChainHash
  {
    InitialCore(h);
    RunKeepsCore(h, Initial, run);
    var s := Exec(h, Initial, run);
    RunKeepsCore(h, s, more);
    LogOnlyGrows(h, s, more);
    var ops' := Exec(h, s, more).ops;
    var i :| 0 <= i < |s.ops| && s.ops[i] == r;
    assert ops'[i] == r && ops'[k] in ops';
    assert ops'[i].operationId != ops'[k].operationId;
    if ops'[k].prevChainHash == r.prevChainHash {
      OneSuccessorIn(h, ops', r, ops'[k]);
    }
  }
}
