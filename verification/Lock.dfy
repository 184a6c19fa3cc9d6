/**
  The lock file around the chain-state file, one system call a step. Calls of
  advanceChainState by any number of processes are interleaved at will; a process may die at
  any step and the clock may advance between any two.
*/
module Lock {
  import opened Text
  import H = Hook

  const STALE_MS := 5000

  /** What is at the lock path: the file's identity, its age, and the owner once written. */
  datatype LockFile = LockFile(inode: nat, mtime: int, owner: Option<nat>)

  /** The outcome of one call: the file could not be read, or whether it was moved. */
  datatype Result = Threw | Moved(moved: bool)

  datatype Phase =
    | Opening
    | Probing
    | Aging
    | Reclaiming
    | Created(inode: nat)
    | Inside(inode: nat)
    | Deciding(inode: nat, current: Option<string>)
    | Leaving(inode: nat, result: Result)
    | Unlinking(inode: nat, same: bool, result: Result)
    | Returned(result: Result)
    | TimedOut
    | Dead

  datatype Call = Call(fromHash: string, toHash: string, phase: Phase)

  /** One decided call, in the order of the decisions. */
  datatype Entry = Entry(id: nat, fromHash: string, toHash: string, result: Result)

  datatype State = State(now: int, lock: Option<LockFile>, file: Option<string>, calls: map<nat, Call>, decided: seq<Entry>)

  datatype Label =
    | Tick(ms: nat)
    | Start(id: nat, fromHash: string, toHash: string)
    | Open(id: nat, inode: nat)
    | Probe(id: nat, pidReused: bool)
    | Stat(id: nat)
    | Reclaim(id: nat)
    | GiveUp(id: nat)
    | WritePid(id: nat)
    | ReadFile(id: nat)
    | Decide(id: nat)
    | StatOwn(id: nat)
    | Unlink(id: nat)
    | Die(id: nat)

  /** The calls with an open descriptor on the lock they created. */
  predicate Holds(p: Phase) {
    p.Created? || p.Inside? || p.Deciding? || p.Leaving? || (p.Unlinking? && p.same)
  }

  predicate HasInode(p: Phase) { Holds(p) || p.Unlinking? }

  function Goto(s: State, id: nat, p: Phase): State
    requires id in s.calls
  {
    s.(calls := s.calls[id := s.calls[id].(phase := p)])
  }

  /** No open descriptor and no lock file has the number. */
  predicate InodeFree(s: State, inode: nat) {
    && (s.lock.Some? ==> s.lock.value.inode != inode)
    && forall c :: c in s.calls && HasInode(s.calls[c].phase) ==> s.calls[c].phase.inode != inode
  }

  function StepOpen(s: State, id: nat, inode: nat): State
    requires id in s.calls
  {
    if s.lock.Some? then Goto(s, id, Probing)
    else if !InodeFree(s, inode) then s
    else Goto(s, id, Created(inode)).(lock := Some(LockFile(inode, s.now, None)))
  }

  /** A signal to the owner succeeds while it lives, or when another process has its number. */
  predicate OwnerAlive(s: State, pidReused: bool) {
    && s.lock.Some? && s.lock.value.owner.Some?
    && var owner := s.lock.value.owner.value;
    pidReused || (owner in s.calls && !s.calls[owner].phase.Dead?)
  }

  function StepStat(s: State, id: nat): State
    requires id in s.calls
  {
    var age := if s.lock.Some? then s.now - s.lock.value.mtime else 0;
    Goto(s, id, if age > STALE_MS then Reclaiming else Opening)
  }

  function StepWritePid(s: State, id: nat): State
    requires id in s.calls && s.calls[id].phase.Created?
  {
    var inode := s.calls[id].phase.inode;
    var lock := if s.lock.Some? && s.lock.value.inode == inode then Some(LockFile(inode, s.now, Some(id))) else s.lock;
    Goto(s, id, Inside(inode)).(lock := lock)
  }

  /** The result of comparing and setting, and the file after it. */
  function CompareAndSet(file: Option<string>, current: Option<string>, fromHash: string, toHash: string): (Result, Option<string>) {
    if current.None? then (Threw, file)
    else if current.value != fromHash then (Moved(false), file)
    else (Moved(true), Some(toHash))
  }

  function StepDecide(s: State, id: nat): State
    requires id in s.calls && s.calls[id].phase.Deciding?
  {
    var c := s.calls[id];
    var (result, file) := CompareAndSet(s.file, c.phase.current, c.fromHash, c.toHash);
    Goto(s, id, Leaving(c.phase.inode, result))
      .(file := file, decided := s.decided + [Entry(id, c.fromHash, c.toHash, result)])
  }

  predicate At(s: State, l: Label) {
    match l
    case Tick(_) => true
    case Start(id, _, _) => id !in s.calls
    case Open(id, _) => id in s.calls && s.calls[id].phase.Opening?
    case Probe(id, _) => id in s.calls && s.calls[id].phase.Probing?
    case Stat(id) => id in s.calls && s.calls[id].phase.Aging?
    case Reclaim(id) => id in s.calls && s.calls[id].phase.Reclaiming?
    case GiveUp(id) => id in s.calls && s.calls[id].phase.Opening?
    case WritePid(id) => id in s.calls && s.calls[id].phase.Created?
    case ReadFile(id) => id in s.calls && s.calls[id].phase.Inside?
    case Decide(id) => id in s.calls && s.calls[id].phase.Deciding?
    case StatOwn(id) => id in s.calls && s.calls[id].phase.Leaving?
    case Unlink(id) => id in s.calls && s.calls[id].phase.Unlinking?
    case Die(id) => id in s.calls && !s.calls[id].phase.Returned?
  }

  function Step(s: State, l: Label): State {
    if !At(s, l) then s
    else
      match l
      case Tick(ms) => s.(now := s.now + ms)
      case Start(id, x, y) => s.(calls := s.calls[id := Call(x, y, Opening)])
      case Open(id, inode) => StepOpen(s, id, inode)
      case Probe(id, reused) => Goto(s, id, if OwnerAlive(s, reused) then Opening else Aging)
      case Stat(id) => StepStat(s, id)
      case Reclaim(id) => Goto(s, id, Opening).(lock := None)
      case GiveUp(id) => Goto(s, id, TimedOut)
      case WritePid(id) => StepWritePid(s, id)
      case ReadFile(id) => Goto(s, id, Deciding(s.calls[id].phase.inode, H.ReadChainState(s.file)))
      case Decide(id) => StepDecide(s, id)
      case StatOwn(id) =>
        var p := s.calls[id].phase;
        Goto(s, id, Unlinking(p.inode, s.lock.Some? && s.lock.value.inode == p.inode, p.result))
      case Unlink(id) =>
        var p := s.calls[id].phase;
        Goto(s, id, Returned(p.result)).(lock := if p.same then None else s.lock)
      case Die(id) => Goto(s, id, Dead)
  }

  function Exec(s: State, run: seq<Label>): State
    decreases |run|
  {
    if run == [] then s else Exec(Step(s, run[0]), run[1..])
  }

  function Begin(file: Option<string>, now: int): State { State(now, None, file, map[], []) }

  // ---- Reclaiming takes the lock from nobody ----

  /** If the step reclaims a lock file, no call is inside: its owner has died. */
  ghost predicate Fair(s: State, l: Label) {
    l.Reclaim? && At(s, l) ==> forall c :: c in s.calls ==> !Holds(s.calls[c].phase)
  }

  ghost predicate FairRun(s: State, run: seq<Label>)
    decreases |run|
  {
    run == [] || (Fair(s, run[0]) && FairRun(Step(s, run[0]), run[1..]))
  }

  /** The lock file is never older than five seconds: then nobody reclaims at all. */
  predicate Timely(s: State) { s.lock.Some? ==> s.now - s.lock.value.mtime <= STALE_MS }

  predicate TimelyRun(s: State, run: seq<Label>)
    decreases |run|
  {
    Timely(s) && (run == [] || TimelyRun(Step(s, run[0]), run[1..]))
  }

  ghost predicate NobodyReclaims(s: State) { forall c :: c in s.calls ==> !s.calls[c].phase.Reclaiming? }

  lemma {:induction false} TimelyIsFair(s: State, run: seq<Label>)
    requires TimelyRun(s, run) && NobodyReclaims(s)
    ensures FairRun(s, run)
    decreases |run|
  {
    if run != [] {
      assert Fair(s, run[0]);
      NobodyStartsReclaiming(s, run[0]);
      hide Step, NobodyReclaims;
      TimelyIsFair(Step(s, run[0]), run[1..]);
    }
  }

  lemma NobodyStartsReclaiming(s: State, l: Label)
    requires Timely(s) && NobodyReclaims(s)
    ensures NobodyReclaims(Step(s, l))
  {
    hide OwnerAlive, InodeFree, H.ReadChainState, CompareAndSet;
  }

  // ---- The decided calls as a sequential history ----

  /** The file after a sequence of calls, each run alone. */
  function Replay(file: Option<string>, history: seq<Entry>): Option<string>
    decreases |history|
  {
    if history == [] then file
    else
      var e, before := history[|history| - 1], Replay(file, history[..|history| - 1]);
      CompareAndSet(before, H.ReadChainState(before), e.fromHash, e.toHash).1
  }

  /** Every call got the answer it would have got in that sequence. */
  ghost predicate Sequential(file: Option<string>, history: seq<Entry>) {
    forall i :: 0 <= i < |history| ==>
      var before := Replay(file, history[..i]);
      history[i].result == CompareAndSet(before, H.ReadChainState(before), history[i].fromHash, history[i].toHash).0
  }

  // ---- The invariant ----

  ghost predicate Exclusive(s: State) {
    && (forall c :: c in s.calls && Holds(s.calls[c].phase) ==> s.lock.Some? && s.lock.value.inode == s.calls[c].phase.inode)
    && (forall c, d :: c in s.calls && d in s.calls && Holds(s.calls[c].phase) && Holds(s.calls[d].phase) ==> c == d)
    && (forall c :: c in s.calls && s.calls[c].phase.Unlinking? ==> s.calls[c].phase.same)
  }

  /** How a call stands to the history: not in it before it decides, in it with its result after. */
  ghost predicate Recorded(history: seq<Entry>, id: nat, c: Call) {
    match c.phase
    case Leaving(_, r) => Entry(id, c.fromHash, c.toHash, r) in history
    case Unlinking(_, _, r) => Entry(id, c.fromHash, c.toHash, r) in history
    case Returned(r) => Entry(id, c.fromHash, c.toHash, r) in history
    case Dead => true
    case _ => forall i :: 0 <= i < |history| ==> history[i].id != id
  }

  ghost predicate DataOk(file0: Option<string>, s: State) {
    && s.file == Replay(file0, s.decided) && Sequential(file0, s.decided)
    && (forall c :: c in s.calls && s.calls[c].phase.Deciding? ==> s.calls[c].phase.current == H.ReadChainState(s.file))
    && AllRecorded(s) && DistinctIds(s)
  }

  ghost predicate AllRecorded(s: State) {
    forall c :: c in s.calls ==> Recorded(s.decided, c, s.calls[c])
  }

  /** No call decides twice. */
  ghost predicate DistinctIds(s: State) {
    && (forall i, j :: 0 <= i < j < |s.decided| ==> s.decided[i].id != s.decided[j].id)
    && (forall i :: 0 <= i < |s.decided| ==> s.decided[i].id in s.calls)
  }

  /** Exactly the unfair steps break it. */
  lemma StepKeepsExclusive(s: State, l: Label)
    requires Exclusive(s)
    ensures Exclusive(Step(s, l)) <==> Fair(s, l)
  {
    if Fair(s, l) { FairKeepsExclusive(s, l); } else { UnfairBreaks(s, l); }
    hide Exclusive, Fair, Step;
  }

  lemma FairKeepsExclusive(s: State, l: Label)
    requires Exclusive(s) && Fair(s, l)
    ensures Exclusive(Step(s, l))
  {
    hide OwnerAlive, H.ReadChainState, CompareAndSet;
    if l.Open? && At(s, l) {
      OpenKeepsExclusive(s, l.id, l.inode);
    } else if l.WritePid? && At(s, l) {
      WritePidKeepsExclusive(s, l.id);
    } else if l.Unlink? && At(s, l) {
      UnlinkKeepsExclusive(s, l.id);
    } else if l.StatOwn? && At(s, l) {
      StatOwnKeepsExclusive(s, l.id);
    } else {
      hide StepOpen, StepWritePid;
    }
  }

  lemma OpenKeepsExclusive(s: State, id: nat, inode: nat)
    requires Exclusive(s) && id in s.calls && s.calls[id].phase.Opening?
    ensures Exclusive(StepOpen(s, id, inode))
  {
  }

  lemma WritePidKeepsExclusive(s: State, id: nat)
    requires Exclusive(s) && id in s.calls && s.calls[id].phase.Created?
    ensures Exclusive(StepWritePid(s, id))
  {
  }

  lemma UnlinkKeepsExclusive(s: State, id: nat)
    requires Exclusive(s) && id in s.calls && s.calls[id].phase.Unlinking?
    ensures Exclusive(Step(s, Unlink(id)))
  {
    hide OwnerAlive, InodeFree, H.ReadChainState, CompareAndSet;
  }

  lemma StatOwnKeepsExclusive(s: State, id: nat)
    requires Exclusive(s) && id in s.calls && s.calls[id].phase.Leaving?
    ensures Exclusive(Step(s, StatOwn(id)))
  {
    hide OwnerAlive, InodeFree, H.ReadChainState, CompareAndSet;
  }

  /** The lock file the holder made is gone. */
  lemma UnfairBreaks(s: State, l: Label)
    requires Exclusive(s) && !Fair(s, l)
    ensures !Exclusive(Step(s, l))
  {
    var c :| c in s.calls && Holds(s.calls[c].phase);
    assert Step(s, l).calls[c] == s.calls[c];
    hide OwnerAlive, H.ReadChainState, CompareAndSet;
  }

  lemma ReplayGrows(file0: Option<string>, history: seq<Entry>, e: Entry)
    ensures Replay(file0, history + [e])
         == CompareAndSet(Replay(file0, history), H.ReadChainState(Replay(file0, history)), e.fromHash, e.toHash).1
    ensures Sequential(file0, history + [e]) <==>
              Sequential(file0, history)
              && e.result == CompareAndSet(Replay(file0, history), H.ReadChainState(Replay(file0, history)), e.fromHash, e.toHash).0
  {
    var more := history + [e];
    assert more[..|more| - 1] == history;
    forall i | 0 <= i < |history| ensures more[..i] == history[..i] { }
    assert more[..|history|] == history && more[|history|] == e;
    hide CompareAndSet, H.ReadChainState;
    assert forall i :: 0 <= i < |history| ==> more[i] == history[i] && Replay(file0, more[..i]) == Replay(file0, history[..i]);
  }

  lemma DecisionRecorded(history: seq<Entry>, s: State, id: nat, e: Entry, d: nat)
    requires d in s.calls && Recorded(history, d, s.calls[d]) && e.id == id && d != id
    ensures Recorded(history + [e], d, s.calls[d])
  {
    assert forall x :: x in history ==> x in history + [e];
  }

  lemma DecideKeepsHistory(file0: Option<string>, s: State, id: nat)
    requires DataOk(file0, s) && id in s.calls && s.calls[id].phase.Deciding?
    ensures var s' := StepDecide(s, id);
            s'.file == Replay(file0, s'.decided) && Sequential(file0, s'.decided)
  {
    var c := s.calls[id];
    ReplayGrows(file0, s.decided, Entry(id, c.fromHash, c.toHash, CompareAndSet(s.file, c.phase.current, c.fromHash, c.toHash).0));
    hide Replay, Sequential, CompareAndSet, H.ReadChainState;
  }

  lemma DecideKeepsRecords(s: State, id: nat)
    requires AllRecorded(s) && DistinctIds(s) && id in s.calls && s.calls[id].phase.Deciding?
    ensures AllRecorded(StepDecide(s, id)) && DistinctIds(StepDecide(s, id))
  {
    hide CompareAndSet, H.ReadChainState;
    var s' := StepDecide(s, id);
    assert Recorded(s.decided, id, s.calls[id]);
    var e := s'.decided[|s.decided|];
    assert s'.decided == s.decided + [e] && e.id == id;
    hide Recorded;
    forall d | d in s'.calls ensures Recorded(s'.decided, d, s'.calls[d]) {
      if d == id {
        DecidedIsRecorded(s, id);
      } else {
        DecisionRecorded(s.decided, s, id, e, d);
      }
    }
  }

  lemma DecideKeepsData(file0: Option<string>, s: State, id: nat)
    requires Exclusive(s) && DataOk(file0, s) && id in s.calls && s.calls[id].phase.Deciding?
    ensures DataOk(file0, StepDecide(s, id))
  {
    DecideKeepsHistory(file0, s, id);
    DecideKeepsRecords(s, id);
    hide Replay, Sequential, CompareAndSet, H.ReadChainState, AllRecorded, DistinctIds;
  }

  lemma DecidedIsRecorded(s: State, id: nat)
    requires id in s.calls && s.calls[id].phase.Deciding?
    ensures Recorded(StepDecide(s, id).decided, id, StepDecide(s, id).calls[id])
  {
    hide CompareAndSet;
    var s' := StepDecide(s, id);
    assert s'.decided[|s.decided|] in s'.decided;
  }

  /** What every step but a decision leaves as it was. */
  lemma OtherSteps(s: State, l: Label)
    requires !l.Decide?
    ensures Step(s, l).file == s.file && Step(s, l).decided == s.decided && s.calls.Keys <= Step(s, l).calls.Keys
  {
    hide OwnerAlive, InodeFree, H.ReadChainState;
  }

  lemma OtherStepRecorded(s: State, l: Label, c: nat)
    requires !l.Decide? && c in Step(s, l).calls
    requires forall d :: d in s.calls ==> Recorded(s.decided, d, s.calls[d])
    requires forall i :: 0 <= i < |s.decided| ==> s.decided[i].id in s.calls
    ensures Recorded(s.decided, c, Step(s, l).calls[c])
    ensures Step(s, l).calls[c].phase.Deciding? ==>
              Step(s, l).calls[c].phase.current == H.ReadChainState(s.file) || (c in s.calls && Step(s, l).calls[c] == s.calls[c])
  {
    hide OwnerAlive, InodeFree, H.ReadChainState;
    if c in s.calls { assert Recorded(s.decided, c, s.calls[c]); }
  }

  lemma StepKeepsData(file0: Option<string>, s: State, l: Label)
    requires Exclusive(s) && DataOk(file0, s)
    ensures DataOk(file0, Step(s, l))
  {
    if l.Decide? {
      if At(s, l) { DecideKeepsData(file0, s, l.id); }
    } else {
      OtherSteps(s, l);
      hide Replay, Sequential, H.ReadChainState, Step, Recorded, Exclusive;
      var s' := Step(s, l);
      forall c | c in s'.calls
        ensures Recorded(s'.decided, c, s'.calls[c])
        ensures s'.calls[c].phase.Deciding? ==> s'.calls[c].phase.current == H.ReadChainState(s'.file)
      {
        OtherStepRecorded(s, l, c);
      }
    }
  }

  lemma {:induction false} RunOk(file0: Option<string>, s: State, run: seq<Label>)
    requires Exclusive(s) && DataOk(file0, s) && FairRun(s, run)
    ensures Exclusive(Exec(s, run)) && DataOk(file0, Exec(s, run))
    decreases |run|
  {
    hide Exclusive, DataOk, Step;
    if run != [] {
      StepKeepsExclusive(s, run[0]);
      StepKeepsData(file0, s, run[0]);
      RunOk(file0, Step(s, run[0]), run[1..]);
    }
  }

  lemma FromBegin(file: Option<string>, now: int, run: seq<Label>)
    requires FairRun(Begin(file, now), run)
    ensures Exclusive(Exec(Begin(file, now), run)) && DataOk(file, Exec(Begin(file, now), run))
  {
    RunOk(file, Begin(file, now), run);
  }

  // ---- Theorems ----

  /** In fair runs at most one call is ever between creating the lock file and removing it. */
  lemma MutualExclusion(file: Option<string>, now: int, run: seq<Label>, c: nat, d: nat)
    requires FairRun(Begin(file, now), run)
    requires var s := Exec(Begin(file, now), run);
             c in s.calls && d in s.calls && Holds(s.calls[c].phase) && Holds(s.calls[d].phase)
    ensures c == d
  {
    FromBegin(file, now, run);
  }

  /** In fair runs a lock file is only ever removed by the call that created it, or when nobody is inside. */
  lemma OnlyOwnLockRemoved(file: Option<string>, now: int, run: seq<Label>, l: Label)
    requires FairRun(Begin(file, now), run)
    requires var s := Exec(Begin(file, now), run); Fair(s, l) && s.lock.Some? && Step(s, l).lock.None?
    ensures var s := Exec(Begin(file, now), run);
            || (&& l.Unlink? && l.id in s.calls && Holds(s.calls[l.id].phase)
                && s.calls[l.id].phase.inode == s.lock.value.inode
                && forall c :: c in s.calls && c != l.id ==> !Holds(s.calls[c].phase))
            || (l.Reclaim? && forall c :: c in s.calls ==> !Holds(s.calls[c].phase))
  {
    FromBegin(file, now, run);
  }

  /**
    In fair runs advanceChainState is an atomic compare-and-set: the calls behave as some sequential order
    of themselves, every call that returned has its place and its answer there, and no update
    is lost, since the file is what that order leaves.
  */
  lemma Linearizable(file: Option<string>, now: int, run: seq<Label>)
    requires FairRun(Begin(file, now), run)
    ensures var s := Exec(Begin(file, now), run);
            && Sequential(file, s.decided) && s.file == Replay(file, s.decided)
            && (forall i, j :: 0 <= i < j < |s.decided| ==> s.decided[i].id != s.decided[j].id)
            && (forall c :: c in s.calls && s.calls[c].phase.Returned? ==>
                  Entry(c, s.calls[c].fromHash, s.calls[c].toHash, s.calls[c].phase.result) in s.decided)
  {
    FromBegin(file, now, run);
    var s := Exec(Begin(file, now), run);
    forall c | c in s.calls && s.calls[c].phase.Returned?
      ensures Entry(c, s.calls[c].fromHash, s.calls[c].toHash, s.calls[c].phase.result) in s.decided
    {
      assert Recorded(s.decided, c, s.calls[c]);
    }
  }

  /** Calls decided later come later in the order, so it respects the real order of calls. */
  lemma {:induction false} HistoryOnlyGrows(s: State, run: seq<Label>)
    ensures s.decided <= Exec(s, run).decided
    decreases |run|
  {
    if run != [] {
      HistoryOnlyGrows(Step(s, run[0]), run[1..]);
      hide OwnerAlive, InodeFree, H.ReadChainState;
    }
  }

  // ---- Why the hypothesis is needed ----

  lemma ExecCons(s: State, l: Label, rest: seq<Label>)
    ensures Exec(s, [l] + rest) == Exec(Step(s, l), rest)
  {
    assert ([l] + rest)[1..] == rest;
  }

  lemma {:induction false} ExecSplits(s: State, a: seq<Label>, b: seq<Label>)
    ensures Exec(s, a + b) == Exec(Exec(s, a), b)
    decreases |a|
  {
    hide Step;
    if a == [] {
      assert a + b == b;
    } else {
      assert (a + b)[1..] == a[1..] + b;
      ExecSplits(Step(s, a[0]), a[1..], b);
    }
  }

  function Four(a: Label, b: Label, c: Label, d: Label): seq<Label> { [a] + ([b] + ([c] + [d])) }

  lemma ExecFour(s: State, a: Label, b: Label, c: Label, d: Label)
    ensures Exec(s, Four(a, b, c, d)) == Step(Step(Step(Step(s, a), b), c), d)
  {
    hide Step;
    ExecCons(s, a, [b] + ([c] + [d]));
    ExecCons(Step(s, a), b, [c] + [d]);
    ExecCons(Step(Step(s, a), b), c, [d]);
    assert Exec(Step(Step(Step(s, a), b), c), [d]) == Step(Step(Step(Step(s, a), b), c), d);
  }

  /** The owner of the lock is dead and its file is old. */
  predicate Stale(s: State) {
    && s.lock.Some? && s.lock.value.owner.Some? && s.now - s.lock.value.mtime > STALE_MS
    && s.lock.value.owner.value in s.calls && s.calls[s.lock.value.owner.value].phase.Dead?
  }

  function Sees(prev: string, id: nat, to: string): seq<Label> {
    Four(Start(id, prev, to), Open(id, 0), Probe(id, false), Stat(id))
  }

  lemma SeesStale(s: State, prev: string, id: nat, to: string)
    requires Stale(s) && id !in s.calls
    ensures Exec(s, Sees(prev, id, to)) == s.(calls := s.calls[id := Call(prev, to, Reclaiming)])
  {
    ExecFour(s, Start(id, prev, to), Open(id, 0), Probe(id, false), Stat(id));
    var b := Step(Step(s, Start(id, prev, to)), Open(id, 0));
    assert b == s.(calls := s.calls[id := Call(prev, to, Probing)]);
    assert Step(b, Probe(id, false)) == s.(calls := s.calls[id := Call(prev, to, Aging)]);
  }

  function Steals(id: nat, inode: nat): seq<Label> {
    Four(Reclaim(id), Open(id, inode), WritePid(id), ReadFile(id))
  }

  lemma StealsLock(s: State, id: nat, inode: nat)
    requires id in s.calls && s.calls[id].phase.Reclaiming? && InodeFree(s, inode)
    ensures Exec(s, Steals(id, inode))
         == s.(lock := Some(LockFile(inode, s.now, Some(id))),
               calls := s.calls[id := s.calls[id].(phase := Deciding(inode, H.ReadChainState(s.file)))])
  {
    hide H.ReadChainState;
    ExecFour(s, Reclaim(id), Open(id, inode), WritePid(id), ReadFile(id));
    var a := Step(s, Reclaim(id));
    assert InodeFree(a, inode);
    var b := Step(a, Open(id, inode));
    assert b.calls == s.calls[id := s.calls[id].(phase := Created(inode))];
    assert Step(b, WritePid(id)).calls == s.calls[id := s.calls[id].(phase := Inside(inode))];
  }

  /** Two calls see a dead holder's lock stale before either of them reclaims it. */
  function ReclaimRace(prev: string, a: nat, x: string, m: nat, b: nat, y: string, n: nat, last: seq<Label>): seq<Label> {
    Sees(prev, a, x) + (Sees(prev, b, y) + (Steals(a, m) + (Steals(b, n) + last)))
  }

  /** A state in which the race can be run: a dead holder, new calls, new file numbers and a file that names their hash. */
  ghost predicate RaceReady(s: State, prev: string, a: nat, m: nat, b: nat, n: nat) {
    && Stale(s) && a !in s.calls && b !in s.calls && a != b && InodeFree(s, m) && InodeFree(s, n) && m != n
    && H.ReadChainState(s.file) == Some(prev)
  }

  /** A call that has created the lock and written its number, has died, and five seconds have gone by. */
  function AfterDeath(file: Option<string>, fromHash: string, toHash: string): State {
    State(STALE_MS + 1, Some(LockFile(10, 0, Some(0))), file, map[0 := Call(fromHash, toHash, Dead)], [])
  }

  lemma DeathReachable(file: Option<string>, fromHash: string, toHash: string)
    ensures Exec(Begin(file, 0), Four(Start(0, fromHash, toHash), Open(0, 10), WritePid(0), Die(0)) + [Tick(STALE_MS + 1)])
         == AfterDeath(file, fromHash, toHash)
    ensures Stale(AfterDeath(file, fromHash, toHash))
  {
    var start := Start(0, fromHash, toHash);
    ExecSplits(Begin(file, 0), Four(start, Open(0, 10), WritePid(0), Die(0)), [Tick(STALE_MS + 1)]);
    ExecFour(Begin(file, 0), start, Open(0, 10), WritePid(0), Die(0));
    var s := Step(Step(Begin(file, 0), start), Open(0, 10));
    assert s == State(0, Some(LockFile(10, 0, None)), file, map[0 := Call(fromHash, toHash, Created(10))], []);
  }

  /**
    Reclaiming a dead holder's lock is where atomicity ends: two calls that both saw it stale
    can both get inside, and both are told that they moved the file from the same hash.
  */
  lemma ReclaimLosesUpdate(s: State, prev: string, a: nat, x: string, m: nat, b: nat, y: string, n: nat, file0: Option<string>)
    requires RaceReady(s, prev, a, m, b, n) && x != prev
    ensures var s' := Exec(s, ReclaimRace(prev, a, x, m, b, y, n, [Decide(a), Decide(b)]));
            && s'.decided == s.decided + [Entry(a, prev, x, Moved(true)), Entry(b, prev, y, Moved(true))]
            && s'.file == Some(y) && !Sequential(file0, s'.decided)
    ensures Exec(s, ReclaimRace(prev, a, x, m, b, y, n, [Decide(a)])).file == Some(x)
  {
    hide Step, Sequential, RaceReady;
    var inside := AfterRace(s, prev, a, x, m, b, y, n);
    RaceOutcome(s, prev, a, x, m, b, y, n, [Decide(a), Decide(b)]);
    RaceOutcome(s, prev, a, x, m, b, y, n, [Decide(a)]);
    RaceInside(s, prev, a, x, m, b, y, n);
    TwoDecisions(inside, prev, a, b);
    NotSequential(file0, prev, s.decided, Entry(a, prev, x, Moved(true)), Entry(b, prev, y, Moved(true)));
  }

  /** Both calls are inside, each having read the file. */
  function AfterRace(s: State, prev: string, a: nat, x: string, m: nat, b: nat, y: string, n: nat): State {
    s.(lock := Some(LockFile(n, s.now, Some(b))),
       calls := s.calls[a := Call(prev, x, Deciding(m, H.ReadChainState(s.file)))]
                       [b := Call(prev, y, Deciding(n, H.ReadChainState(s.file)))])
  }

  lemma RaceInside(s: State, prev: string, a: nat, x: string, m: nat, b: nat, y: string, n: nat)
    requires RaceReady(s, prev, a, m, b, n)
    ensures var i := AfterRace(s, prev, a, x, m, b, y, n);
            && i.decided == s.decided && a != b && a in i.calls && b in i.calls
            && i.calls[a] == Call(prev, x, Deciding(m, Some(prev)))
            && i.calls[b] == Call(prev, y, Deciding(n, Some(prev)))
  {
  }

  lemma RaceOutcome(s: State, prev: string, a: nat, x: string, m: nat, b: nat, y: string, n: nat, last: seq<Label>)
    requires RaceReady(s, prev, a, m, b, n)
    ensures Exec(s, ReclaimRace(prev, a, x, m, b, y, n, last)) == Exec(AfterRace(s, prev, a, x, m, b, y, n), last)
  {
    hide Step, H.ReadChainState;
    var s1 := s.(calls := s.calls[a := Call(prev, x, Reclaiming)]);
    var s2 := s1.(calls := s1.calls[b := Call(prev, y, Reclaiming)]);
    SeesStale(s, prev, a, x);
    SeesStale(s1, prev, b, y);
    StealsLock(s2, a, m);
    var s3 := Exec(s2, Steals(a, m));
    StealsLock(s3, b, n);
    assert Exec(s3, Steals(b, n)).calls == AfterRace(s, prev, a, x, m, b, y, n).calls;
    assert Exec(s3, Steals(b, n)) == AfterRace(s, prev, a, x, m, b, y, n);
    hide Sees, Steals, RaceReady, Stale, InodeFree;
    ExecSplits(s, Sees(prev, a, x), Sees(prev, b, y) + (Steals(a, m) + (Steals(b, n) + last)));
    ExecSplits(s1, Sees(prev, b, y), Steals(a, m) + (Steals(b, n) + last));
    ExecSplits(s2, Steals(a, m), Steals(b, n) + last);
    ExecSplits(s3, Steals(b, n), last);
  }

  /** No order explains two moves from one hash, one right after the other. */
  lemma NotSequential(file0: Option<string>, prev: string, history: seq<Entry>, e: Entry, f: Entry)
    requires e.fromHash == f.fromHash == prev && e.result == f.result == Moved(true) && e.toHash != prev
    ensures !Sequential(file0, history + [e, f])
  {
    assert history + [e, f] == (history + [e]) + [f];
    ReplayGrows(file0, history, e);
    ReplayGrows(file0, history + [e], f);
    hide Replay, Sequential;
  }

  lemma TwoDecisions(s: State, prev: string, a: nat, b: nat)
    requires a in s.calls && s.calls[a].phase.Deciding? && s.calls[a].phase.current == Some(prev)
    requires b in s.calls && s.calls[b].phase.Deciding? && s.calls[b].phase.current == Some(prev) && a != b
    requires s.calls[a].fromHash == prev && s.calls[b].fromHash == prev
    ensures var s' := Exec(s, [Decide(a), Decide(b)]);
            && s'.decided == s.decided + [Entry(a, prev, s.calls[a].toHash, Moved(true)),
                                          Entry(b, prev, s.calls[b].toHash, Moved(true))]
            && s'.file == Some(s.calls[b].toHash)
    ensures Exec(s, [Decide(a)]).file == Some(s.calls[a].toHash)
  {
    var s1 := Step(s, Decide(a));
    ExecCons(s, Decide(a), [Decide(b)]);
    assert [Decide(a)] + [Decide(b)] == [Decide(a), Decide(b)];
    assert Exec(s1, [Decide(b)]) == Step(s1, Decide(b)) && Exec(s, [Decide(a)]) == s1;
  }
}
