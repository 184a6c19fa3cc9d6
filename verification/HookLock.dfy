/**
  The hook processes with the lock's system calls in place of the atomic move: every move of
  the chain-state file is a call of advanceChainState, whose steps are interleaved with those of
  the server, of the other processes and of the clock. As long as nobody reclaims the lock from
  under a call that is inside, which needs a call longer than five seconds or a death, each
  such run is one of module Hook's, so what is proved there holds here. That the file holds a
  committed hash, and which decisions move it back, is proved of every run.
*/
module HookLock {
  import opened Text
  import opened Chain
  import opened Server
  import opened ServerInvariants
  import opened Hook
  import L = Lock

  /** `inCall` gives the call that a moving process is in. */
  datatype Joint = Joint(server: State, procs: map<nat, Proc>, inCall: map<nat, nat>, lock: L.State)

  datatype JointLabel =
    | Other(hook: HookLabel)
    | Enter(pid: nat, id: nat)
    | Sys(call: L.Label)
    | Leave(pid: nat)
    | Kill(pid: nat)

  /** The result of a call that has decided. */
  function Decided(p: L.Phase): Option<L.Result> {
    match p
    case Leaving(_, r) => Some(r)
    case Unlinking(_, _, r) => Some(r)
    case Returned(r) => Some(r)
    case _ => None
  }

  function AfterCall(p: Proc, result: L.Result): Proc
    requires p.phase.Moving?
  {
    if result.Threw? then p.(phase := Stopped(false)) else AfterMove(p)
  }

  /** A process that is not in a call steps as in module Hook, over the file as it is. */
  function StepOther(h: Host, agentId: string, j: Joint, l: HookLabel): Joint {
    if l.Move? || l.Crash? then j
    else
      var hs := HookStep(h, agentId, HookState(j.server, j.lock.file, j.procs), l);
      j.(server := hs.server, procs := hs.procs)
  }

  predicate CanEnter(j: Joint, pid: nat, id: nat) {
    pid in j.procs && j.procs[pid].phase.Moving? && pid !in j.inCall && id !in j.lock.calls
  }

  function StepLeave(j: Joint, pid: nat): Joint {
    if pid !in j.inCall || pid !in j.procs || !j.procs[pid].phase.Moving? || j.inCall[pid] !in j.lock.calls then j
    else
      var p := j.procs[pid];
      match j.lock.calls[j.inCall[pid]].phase
      case Returned(r) => j.(procs := j.procs[pid := AfterCall(p, r)], inCall := j.inCall - {pid})
      case TimedOut => j.(procs := j.procs[pid := p.(phase := Stopped(false))], inCall := j.inCall - {pid})
      case _ => j
  }

  /** A process dies with the call it is in, whose lock file stays. */
  function StepKill(j: Joint, pid: nat): Joint {
    if pid !in j.procs then j
    else
      var lock := if pid in j.inCall then L.Step(j.lock, L.Die(j.inCall[pid])) else j.lock;
      j.(procs := j.procs[pid := AbsProc(j, pid).(phase := Stopped(false))], inCall := j.inCall - {pid}, lock := lock)
  }

  function JointStep(h: Host, agentId: string, j: Joint, l: JointLabel): Joint {
    match l
    case Other(x) => StepOther(h, agentId, j, x)
    case Enter(pid, id) =>
      if !CanEnter(j, pid, id) then j
      else
        var p := j.procs[pid].phase;
        j.(inCall := j.inCall[pid := id], lock := L.Step(j.lock, L.Start(id, p.prev, p.to)))
    case Sys(x) => if x.Start? || x.Die? then j else j.(lock := L.Step(j.lock, x))
    case Leave(pid) => StepLeave(j, pid)
    case Kill(pid) => StepKill(j, pid)
  }

  function JointExec(h: Host, agentId: string, j: Joint, run: seq<JointLabel>): Joint
    decreases |run|
  {
    if run == [] then j else JointExec(h, agentId, JointStep(h, agentId, j, run[0]), run[1..])
  }

  const FirstJoint := Joint(Initial, map[], map[], L.Begin(None, 0))

  /** No step of the run reclaims the lock from under a call that is inside. */
  ghost predicate FairStep(j: Joint, l: JointLabel) { l.Sys? ==> L.Fair(j.lock, l.call) }

  ghost predicate FairJoint(h: Host, agentId: string, j: Joint, run: seq<JointLabel>)
    decreases |run|
  {
    run == [] || (FairStep(j, run[0]) && FairJoint(h, agentId, JointStep(h, agentId, j, run[0]), run[1..]))
  }

  /** In no state of the run is a lock file older than five seconds: a way to be fair. */
  predicate TimelyJoint(h: Host, agentId: string, j: Joint, run: seq<JointLabel>)
    decreases |run|
  {
    L.Timely(j.lock) && (run == [] || TimelyJoint(h, agentId, JointStep(h, agentId, j, run[0]), run[1..]))
  }

  lemma {:induction false} TimelyIsFair(h: Host, agentId: string, j: Joint, run: seq<JointLabel>)
    requires TimelyJoint(h, agentId, j, run) && L.NobodyReclaims(j.lock)
    ensures FairJoint(h, agentId, j, run)
    decreases |run|
  {
    if run != [] {
      NobodyStartsReclaiming(h, agentId, j, run[0]);
      hide JointStep, L.NobodyReclaims;
      TimelyIsFair(h, agentId, JointStep(h, agentId, j, run[0]), run[1..]);
    }
  }

  lemma NobodyStartsReclaiming(h: Host, agentId: string, j: Joint, l: JointLabel)
    requires L.Timely(j.lock) && L.NobodyReclaims(j.lock)
    ensures L.NobodyReclaims(JointStep(h, agentId, j, l).lock) && FairStep(j, l)
  {
    hide L.Step, HookStep, AbsProc, AfterCall;
    match l {
      case Enter(pid, id) =>
        if CanEnter(j, pid, id) { L.NobodyStartsReclaiming(j.lock, L.Start(id, j.procs[pid].phase.prev, j.procs[pid].phase.to)); }
      case Sys(x) => L.NobodyStartsReclaiming(j.lock, x);
      case Kill(pid) => if pid in j.inCall { L.NobodyStartsReclaiming(j.lock, L.Die(j.inCall[pid])); }
      case _ =>
    }
  }

  // ---- The atomic view: a call takes effect where it decides ----

  function AbsProc(j: Joint, pid: nat): Proc
    requires pid in j.procs
  {
    var p := j.procs[pid];
    if p.phase.Moving? && pid in j.inCall && j.inCall[pid] in j.lock.calls
       && Decided(j.lock.calls[j.inCall[pid]].phase).Some?
    then AfterCall(p, Decided(j.lock.calls[j.inCall[pid]].phase).value)
    else p
  }

  function Abs(j: Joint): HookState {
    HookState(j.server, j.lock.file, map pid | pid in j.procs :: AbsProc(j, pid))
  }

  ghost predicate InCallOk(j: Joint, pid: nat) {
    && pid in j.inCall && pid in j.procs && j.procs[pid].phase.Moving? && j.inCall[pid] in j.lock.calls
    && var c := j.lock.calls[j.inCall[pid]];
    && c.fromHash == j.procs[pid].phase.prev && c.toHash == j.procs[pid].phase.to && !c.phase.Dead?
  }

  /** Calls and processes belong together, one to one, as long as a call goes on. */
  ghost predicate CallsOk(j: Joint) {
    && (forall pid :: pid in j.inCall ==> InCallOk(j, pid))
    && (forall a, b :: a in j.inCall && b in j.inCall && a != b ==> j.inCall[a] != j.inCall[b])
    && (forall id :: id in j.lock.calls && Live(j.lock.calls[id].phase) ==> HasOwner(j, id))
  }

  ghost predicate JointOk(j: Joint) { CallsOk(j) && L.Exclusive(j.lock) && L.DataOk(None, j.lock) }

  ghost predicate HasOwner(j: Joint, id: nat) { exists pid :: pid in j.inCall && j.inCall[pid] == id }

  predicate Live(p: L.Phase) { !p.Returned? && !p.TimedOut? && !p.Dead? }

  // ---- Every step is a step of module Hook, or none ----

  /** The process whose call it is. */
  ghost function Owner(j: Joint, id: nat): nat {
    if HasOwner(j, id) then (var pid :| pid in j.inCall && j.inCall[pid] == id; pid) else 0
  }

  ghost function TraceStep(j: Joint, l: JointLabel): seq<HookLabel> {
    match l
    case Other(x) => if x.Move? || x.Crash? || (!x.Env? && x.pid in j.inCall) then [] else [x]
    case Enter(_, _) => []
    case Sys(x) => if x.Decide? && L.At(j.lock, x) then [Move(Owner(j, x.id))] else []
    case Leave(pid) =>
      if pid in j.inCall && j.inCall[pid] in j.lock.calls && j.lock.calls[j.inCall[pid]].phase.TimedOut?
      then [Crash(pid)] else []
    case Kill(pid) => if pid in j.procs then [Crash(pid)] else []
  }

  ghost predicate Matches(h: Host, agentId: string, j: Joint, l: JointLabel) {
    HookExec(h, agentId, Abs(j), TraceStep(j, l)) == Abs(JointStep(h, agentId, j, l))
  }

  lemma ExecOne(h: Host, agentId: string, hs: HookState, l: HookLabel)
    ensures HookExec(h, agentId, hs, [l]) == HookStep(h, agentId, hs, l)
  {
    assert [l][1..] == [];
  }

  lemma AbsIs(j: Joint, hs: HookState)
    requires hs.server == j.server && hs.file == j.lock.file && hs.procs.Keys == j.procs.Keys
    requires forall pid :: pid in j.procs ==> hs.procs[pid] == AbsProc(j, pid)
    ensures Abs(j) == hs
  {
    hide AbsProc;
    assert Abs(j).procs.Keys == hs.procs.Keys;
    assert Abs(j).procs == hs.procs;
  }

  /** Outside calls the view is the process itself. */
  lemma AbsOutside(j: Joint, pid: nat)
    requires pid in j.procs && pid !in j.inCall
    ensures AbsProc(j, pid) == j.procs[pid]
  {
  }

  // ---- What the lock's own steps do to the calls ----

  /** A step of the lock keeps what each call was asked, and what it has decided. */
  lemma LockStepKeeps(s: L.State, x: L.Label, c: nat)
    requires c in s.calls && !x.Start? && !x.Die?
    ensures var s' := L.Step(s, x);
            && s'.calls.Keys == s.calls.Keys
            && s'.calls[c].fromHash == s.calls[c].fromHash && s'.calls[c].toHash == s.calls[c].toHash
            && (s'.calls[c].phase.Dead? <==> s.calls[c].phase.Dead?)
            && (!(x.Decide? && x.id == c) ==> Decided(s'.calls[c].phase) == Decided(s.calls[c].phase))
            && (Live(s'.calls[c].phase) ==> Live(s.calls[c].phase))
  {
    hide L.OwnerAlive, L.InodeFree, ReadChainState, L.CompareAndSet;
  }

  lemma DecideStep(s: L.State, id: nat)
    requires L.DataOk(None, s) && L.At(s, L.Decide(id))
    ensures var s' := L.Step(s, L.Decide(id)); var c := s.calls[id];
            var (result, file) := L.CompareAndSet(s.file, ReadChainState(s.file), c.fromHash, c.toHash);
            && s'.file == file && id in s'.calls && Decided(s'.calls[id].phase) == Some(result)
  {
    hide L.Replay, L.Sequential, L.AllRecorded, L.DistinctIds, L.CompareAndSet, ReadChainState;
  }

  // ---- The invariant and the simulation, step by step ----

  lemma OthersWaitOutside(h: Host, agentId: string, hs: HookState, l: HookLabel, pid: nat)
    requires pid in hs.procs && hs.procs[pid].phase.Moving? && !l.Move? && !l.Crash?
    ensures var hs' := HookStep(h, agentId, hs, l); pid in hs'.procs && hs'.procs[pid] == hs.procs[pid]
  {
    hide Step, AfterReply, ReadChainState;
  }

  lemma FileOutside(h: Host, agentId: string, hs: HookState, l: HookLabel)
    requires !l.Move?
    ensures HookStep(h, agentId, hs, l).file == hs.file
  {
    hide Step, AfterReply, ReadChainState;
  }

  lemma OtherKeepsJoint(h: Host, agentId: string, j: Joint, l: HookLabel)
    requires JointOk(j)
    ensures JointOk(StepOther(h, agentId, j, l))
  {
    var j' := StepOther(h, agentId, j, l);
    if !l.Move? && !l.Crash? {
      hide HookStep, L.Exclusive, L.DataOk;
      forall pid | pid in j'.inCall ensures InCallOk(j', pid) {
        assert InCallOk(j, pid);
        OthersWaitOutside(h, agentId, HookState(j.server, j.lock.file, j.procs), l, pid);
      }
      forall id | id in j'.lock.calls && Live(j'.lock.calls[id].phase) ensures HasOwner(j', id) { assert HasOwner(j, id); }
    }
  }

  lemma HookStepLocal(h: Host, agentId: string, a: HookState, b: HookState, l: HookLabel, pid: nat)
    requires !l.Env? && !l.Move? && !l.Crash? && a.server == b.server && a.file == b.file && a.procs.Keys == b.procs.Keys
    requires l.pid in a.procs ==> a.procs[l.pid] == b.procs[l.pid]
    ensures var a', b' := HookStep(h, agentId, a, l), HookStep(h, agentId, b, l);
            && a'.server == b'.server && a'.procs.Keys == b'.procs.Keys
            && (pid in a'.procs && pid == l.pid ==> a'.procs[pid] == b'.procs[pid])
            && (pid in a.procs && pid != l.pid ==> pid in a'.procs && a'.procs[pid] == a.procs[pid] && b'.procs[pid] == b.procs[pid])
            && (pid in a'.procs && pid != l.pid ==> pid in a.procs)
  {
    hide Step, AfterReply, ReadChainState;
  }

  /** A step of a process outside its call is the same step of the view. */
  lemma OtherMatches(h: Host, agentId: string, j: Joint, l: HookLabel)
    requires JointOk(j)
    ensures Matches(h, agentId, j, Other(l))
  {
    var j' := StepOther(h, agentId, j, l);
    var hs := HookState(j.server, j.lock.file, j.procs);
    if l.Move? || l.Crash? {
    } else if l.Env? {
      ExecOne(h, agentId, Abs(j), l);
      AbsIs(j', HookStep(h, agentId, Abs(j), l));
    } else if l.pid in j.inCall {
      InCallStays(h, agentId, j, l);
    } else {
      ExecOne(h, agentId, Abs(j), l);
      FileOutside(h, agentId, Abs(j), l);
      assert Abs(j).procs.Keys == j.procs.Keys;
      if l.pid in j.procs { AbsOutside(j, l.pid); }
      hide HookStep;
      HookStepLocal(h, agentId, Abs(j), hs, l, l.pid);
      var view := HookStep(h, agentId, Abs(j), l);
      forall pid | pid in j'.procs ensures view.procs[pid] == AbsProc(j', pid) {
        HookStepLocal(h, agentId, Abs(j), hs, l, pid);
      }
      AbsIs(j', view);
    }
  }

  lemma InCallStays(h: Host, agentId: string, j: Joint, l: HookLabel)
    requires JointOk(j) && !l.Env? && l.pid in j.inCall
    ensures StepOther(h, agentId, j, l) == j
  {
    assert InCallOk(j, l.pid);
    hide Step, AfterReply, ReadChainState;
  }

  lemma EnterLock(j: Joint, pid: nat, id: nat)
    requires JointOk(j) && CanEnter(j, pid, id)
    ensures var p := j.procs[pid].phase; var lock := L.Step(j.lock, L.Start(id, p.prev, p.to));
            && lock == j.lock.(calls := j.lock.calls[id := L.Call(p.prev, p.to, L.Opening)])
            && L.Exclusive(lock) && L.DataOk(None, lock)
  {
    var p := j.procs[pid].phase;
    L.StepKeepsExclusive(j.lock, L.Start(id, p.prev, p.to));
    L.StepKeepsData(None, j.lock, L.Start(id, p.prev, p.to));
    hide L.Exclusive, L.DataOk;
  }

  ghost predicate Entered(j: Joint, j': Joint, pid: nat, id: nat) {
    && CanEnter(j, pid, id) && j'.procs == j.procs && j'.inCall == j.inCall[pid := id]
    && j'.lock.calls == j.lock.calls[id := L.Call(j.procs[pid].phase.prev, j.procs[pid].phase.to, L.Opening)]
  }

  lemma EnterCalls(j: Joint, j': Joint, pid: nat, id: nat)
    requires CallsOk(j) && Entered(j, j', pid, id)
    ensures CallsOk(j')
  {
    forall q | q in j'.inCall ensures InCallOk(j', q) && (q != pid ==> j'.inCall[q] != id) {
      if q != pid { assert InCallOk(j, q); }
    }
    hide InCallOk;
    forall c | c in j'.lock.calls && Live(j'.lock.calls[c].phase) ensures HasOwner(j', c) {
      if c == id { assert j'.inCall[pid] == id; } else { OwnerStays(j, j', c); }
    }
  }

  lemma EnterAbs(j: Joint, j': Joint, pid: nat, id: nat, q: nat)
    requires CallsOk(j) && Entered(j, j', pid, id) && q in j.procs
    ensures AbsProc(j', q) == AbsProc(j, q)
  {
    if q in j.inCall { assert InCallOk(j, q); }
    hide AfterCall;
  }

  lemma EnterKeepsJoint(h: Host, agentId: string, j: Joint, pid: nat, id: nat)
    requires JointOk(j)
    ensures JointOk(JointStep(h, agentId, j, Enter(pid, id)))
    ensures Matches(h, agentId, j, Enter(pid, id))
  {
    if CanEnter(j, pid, id) {
      var j' := JointStep(h, agentId, j, Enter(pid, id));
      EnterLock(j, pid, id);
      hide L.Exclusive, L.DataOk, L.Step, CallsOk, AbsProc;
      assert Entered(j, j', pid, id);
      EnterCalls(j, j', pid, id);
      forall q | q in j.procs ensures AbsProc(j', q) == AbsProc(j, q) { EnterAbs(j, j', pid, id, q); }
      AbsIs(j', Abs(j));
    }
  }

  lemma OwnerStays(j: Joint, j': Joint, id: nat)
    requires HasOwner(j, id) && forall q :: q in j.inCall && j.inCall[q] == id ==> q in j'.inCall && j'.inCall[q] == id
    ensures HasOwner(j', id)
  {
  }

  lemma SysKeepsJoint(h: Host, agentId: string, j: Joint, x: L.Label)
    requires JointOk(j) && L.Fair(j.lock, x)
    ensures JointOk(JointStep(h, agentId, j, Sys(x)))
  {
    if !x.Start? && !x.Die? {
      L.StepKeepsExclusive(j.lock, x);
      L.StepKeepsData(None, j.lock, x);
      var j' := JointStep(h, agentId, j, Sys(x));
      hide L.Exclusive, L.DataOk, L.Step, Live;
      forall pid | pid in j'.inCall ensures InCallOk(j', pid) {
        assert InCallOk(j, pid);
        LockStepKeeps(j.lock, x, j.inCall[pid]);
      }
      forall id | id in j'.lock.calls && Live(j'.lock.calls[id].phase) ensures HasOwner(j', id) {
        if id !in j.lock.calls { SameCalls(j.lock, x); }
        LockStepKeeps(j.lock, x, id);
        OwnerStays(j, j', id);
      }
    }
  }

  lemma SameCalls(s: L.State, x: L.Label)
    requires !x.Start?
    ensures L.Step(s, x).calls.Keys == s.calls.Keys
  {
    hide L.OwnerAlive, L.InodeFree, ReadChainState, L.CompareAndSet;
  }

  /** A decision is the atomic move of the process whose call decides; other system calls are nothing. */
  lemma SysMatches(h: Host, agentId: string, j: Joint, x: L.Label)
    requires JointOk(j)
    ensures Matches(h, agentId, j, Sys(x))
  {
    if x.Start? || x.Die? {
    } else if x.Decide? && L.At(j.lock, x) {
      DecideMatches(h, agentId, j, x.id);
    } else {
      var j' := JointStep(h, agentId, j, Sys(x));
      assert j'.lock.file == j.lock.file by { if x.Decide? { } else { L.OtherSteps(j.lock, x); } }
      hide L.Step;
      forall pid | pid in j.procs ensures AbsProc(j', pid) == AbsProc(j, pid) {
        if pid in j.inCall {
          assert InCallOk(j, pid);
          if x.Decide? { NotAtStays(j.lock, x); } else { LockStepKeeps(j.lock, x, j.inCall[pid]); }
        }
      }
      AbsIs(j', Abs(j));
    }
  }

  lemma NotAtStays(s: L.State, x: L.Label)
    requires !L.At(s, x)
    ensures L.Step(s, x) == s
  {
  }

  lemma DecideMatches(h: Host, agentId: string, j: Joint, id: nat)
    requires JointOk(j) && L.At(j.lock, L.Decide(id))
    ensures Matches(h, agentId, j, Sys(L.Decide(id)))
  {
    var pid := DecidesFor(j, id);
    DecideIsMove(j, pid);
    MoveIs(h, agentId, Abs(j), pid);
    JointDecides(h, agentId, j, id);
    hide TraceStep, JointOk, Abs, StepMove, L.At, L.Step, JointStep, HookStep, HookExec;
  }

  lemma DecidesFor(j: Joint, id: nat) returns (pid: nat)
    requires JointOk(j) && L.At(j.lock, L.Decide(id))
    ensures pid in j.inCall && j.inCall[pid] == id && TraceStep(j, Sys(L.Decide(id))) == [Move(pid)]
  {
    assert HasOwner(j, id);
    pid := Owner(j, id);
  }

  lemma MoveIs(h: Host, agentId: string, hs: HookState, pid: nat)
    requires pid in hs.procs && hs.procs[pid].phase.Moving?
    ensures HookExec(h, agentId, hs, [Move(pid)]) == StepMove(hs, pid)
  {
    ExecOne(h, agentId, hs, Move(pid));
  }

  lemma JointDecides(h: Host, agentId: string, j: Joint, id: nat)
    ensures JointStep(h, agentId, j, Sys(L.Decide(id))) == j.(lock := L.Step(j.lock, L.Decide(id)))
  {
  }

  lemma DecideIsMove(j: Joint, pid: nat)
    requires JointOk(j) && pid in j.inCall && L.At(j.lock, L.Decide(j.inCall[pid]))
    ensures pid in Abs(j).procs && Abs(j).procs[pid].phase.Moving?
    ensures Abs(j.(lock := L.Step(j.lock, L.Decide(j.inCall[pid])))) == StepMove(Abs(j), pid)
  {
    var id := j.inCall[pid];
    var j' := j.(lock := L.Step(j.lock, L.Decide(id)));
    DecideStep(j.lock, id);
    assert InCallOk(j, pid);
    hide L.Step, L.Exclusive, L.DataOk, L.CompareAndSet, AbsProc, StepMove, ReadChainState, InCallOk, CallsOk;
    OwnerMoves(j, j', pid);
    forall q | q in j.procs && q != pid ensures AbsProc(j', q) == AbsProc(j, q) {
      OwnerAlone(j, q, pid);
      OthersSame(j, j', q, id);
    }
    AbsIs(j', StepMove(Abs(j), pid));
  }

  lemma OwnerAlone(j: Joint, q: nat, pid: nat)
    requires CallsOk(j) && pid in j.inCall && q != pid
    ensures q in j.inCall ==> j.inCall[q] != j.inCall[pid]
  {
  }

  /** The deciding call's process moves in the view as module Hook has it. */
  lemma OwnerMoves(j: Joint, j': Joint, pid: nat)
    requires CallsOk(j) && pid in j.inCall && InCallOk(j, pid) && Decided(j.lock.calls[j.inCall[pid]].phase).None?
    requires j'.procs == j.procs && j'.inCall == j.inCall && j.inCall[pid] in j'.lock.calls
    requires var c := j.lock.calls[j.inCall[pid]];
             var (result, file) := L.CompareAndSet(j.lock.file, ReadChainState(j.lock.file), c.fromHash, c.toHash);
             j'.lock.file == file && Decided(j'.lock.calls[j.inCall[pid]].phase) == Some(result)
    ensures pid in Abs(j).procs && Abs(j).procs[pid].phase.Moving?
    ensures StepMove(Abs(j), pid) == HookState(j.server, j'.lock.file, Abs(j).procs[pid := AbsProc(j', pid)])
  {
    hide AfterMove, ReadChainState;
  }

  lemma OthersSame(j: Joint, j': Joint, q: nat, id: nat)
    requires CallsOk(j) && q in j.procs && L.At(j.lock, L.Decide(id)) && (q in j.inCall ==> j.inCall[q] != id)
    requires j'.procs == j.procs && j'.inCall == j.inCall && j'.lock == L.Step(j.lock, L.Decide(id))
    ensures AbsProc(j', q) == AbsProc(j, q)
  {
    hide L.Step, AfterCall;
    if q in j.inCall {
      assert InCallOk(j, q);
      LockStepKeeps(j.lock, L.Decide(id), j.inCall[q]);
    } else {
      AbsOutside(j, q);
      AbsOutside(j', q);
    }
  }

  /** Taking a process whose call is over out of its call. */
  lemma CallsWithout(j: Joint, j': Joint, pid: nat)
    requires CallsOk(j) && pid in j.procs && j'.inCall == j.inCall - {pid} && j'.procs.Keys == j.procs.Keys
    requires forall q :: q in j.procs && q != pid ==> j'.procs[q] == j.procs[q]
    requires j'.lock.calls.Keys == j.lock.calls.Keys
    requires forall id :: id in j.lock.calls && !(pid in j.inCall && j.inCall[pid] == id) ==> j'.lock.calls[id] == j.lock.calls[id]
    requires pid in j.inCall ==> !Live(j'.lock.calls[j.inCall[pid]].phase)
    ensures CallsOk(j')
    ensures forall q :: q in j.procs && q != pid ==> AbsProc(j', q) == AbsProc(j, q)
  {
    if pid in j.inCall { assert InCallOk(j, pid); }
    forall q | q in j'.inCall ensures InCallOk(j', q) { assert InCallOk(j, q); }
    forall id | id in j'.lock.calls && Live(j'.lock.calls[id].phase) ensures HasOwner(j', id) { OwnerStays(j, j', id); }
    hide AfterCall, Live;
    forall q | q in j.procs && q != pid ensures AbsProc(j', q) == AbsProc(j, q) {
      if q in j.inCall { assert InCallOk(j, q); }
    }
  }

  lemma LeaveKeepsJoint(h: Host, agentId: string, j: Joint, pid: nat)
    requires JointOk(j)
    ensures JointOk(StepLeave(j, pid)) && Matches(h, agentId, j, Leave(pid))
  {
    var j' := StepLeave(j, pid);
    hide L.Exclusive, L.DataOk, AfterMove;
    if pid in j.inCall {
      assert InCallOk(j, pid);
      var p := j.lock.calls[j.inCall[pid]].phase;
      if p.Returned? || p.TimedOut? {
        assert j'.lock == j.lock && j'.inCall == j.inCall - {pid} && j'.procs.Keys == j.procs.Keys;
        hide CallsOk, InCallOk;
        CallsWithout(j, j', pid);
        LeaveView(h, agentId, j, pid);
        AbsIs(j', if p.TimedOut? then HookStep(h, agentId, Abs(j), Crash(pid)) else Abs(j));
        ExecOne(h, agentId, Abs(j), Crash(pid));
      }
    }
  }

  /** What the leaving process shows. */
  lemma LeaveView(h: Host, agentId: string, j: Joint, pid: nat)
    requires pid in j.inCall && InCallOk(j, pid)
    requires var p := j.lock.calls[j.inCall[pid]].phase; p.Returned? || p.TimedOut?
    requires forall q :: q in j.procs && q != pid ==> AbsProc(StepLeave(j, pid), q) == AbsProc(j, q)
    ensures var p, j' := j.lock.calls[j.inCall[pid]].phase, StepLeave(j, pid);
            var view := if p.TimedOut? then HookStep(h, agentId, Abs(j), Crash(pid)) else Abs(j);
            && view.server == j'.server && view.file == j'.lock.file && view.procs.Keys == j'.procs.Keys
            && forall q :: q in j'.procs ==> view.procs[q] == AbsProc(j', q)
  {
    hide AfterMove;
    var j' := StepLeave(j, pid);
    AbsOutside(j', pid);
    KilledView(h, agentId, j, pid);
    hide HookStep;
    assert Abs(j).procs.Keys == j.procs.Keys && Abs(j).procs[pid] == AbsProc(j, pid);
  }

  lemma KillKeepsJoint(h: Host, agentId: string, j: Joint, pid: nat)
    requires JointOk(j)
    ensures JointOk(StepKill(j, pid)) && Matches(h, agentId, j, Kill(pid))
  {
    if pid in j.procs {
      KillCalls(j, pid);
      KillMatches(h, agentId, j, pid);
    }
  }

  lemma KilledIs(j: Joint, pid: nat)
    requires pid in j.procs
    ensures var j' := StepKill(j, pid);
            j' == Joint(j.server, j.procs[pid := AbsProc(j, pid).(phase := Stopped(false))], j.inCall - {pid}, j'.lock)
  {
    hide AbsProc, L.Step;
  }

  lemma KillCalls(j: Joint, pid: nat)
    requires JointOk(j) && pid in j.procs
    ensures JointOk(StepKill(j, pid))
    ensures forall q :: q in j.procs && q != pid ==> AbsProc(StepKill(j, pid), q) == AbsProc(j, q)
  {
    KilledIs(j, pid);
    KillLock(j, pid);
    hide L.Exclusive, L.DataOk, StepKill, AbsProc, Live, CallsOk;
    CallsWithout(j, StepKill(j, pid), pid);
  }

  lemma KillMatches(h: Host, agentId: string, j: Joint, pid: nat)
    requires JointOk(j) && pid in j.procs
    ensures Matches(h, agentId, j, Kill(pid))
  {
    hide JointOk, StepKill, AbsProc, HookStep, HookExec, StepLeave, StepOther, L.Step, CanEnter, L.Exclusive, L.DataOk, Live, Abs;
    KilledIs(j, pid);
    KillLock(j, pid);
    KillCalls(j, pid);
    KilledView(h, agentId, j, pid);
    ExecOne(h, agentId, Abs(j), Crash(pid));
    AbsOutside(StepKill(j, pid), pid);
    AbsIs(StepKill(j, pid), HookStep(h, agentId, Abs(j), Crash(pid)));
  }

  lemma KilledView(h: Host, agentId: string, j: Joint, pid: nat)
    requires pid in j.procs
    ensures var view := HookStep(h, agentId, Abs(j), Crash(pid));
            && view.server == j.server && view.file == j.lock.file && view.procs.Keys == j.procs.Keys
            && view.procs[pid] == AbsProc(j, pid).(phase := Stopped(false))
            && forall q :: q in j.procs && q != pid ==> view.procs[q] == AbsProc(j, q)
  {
    hide AbsProc;
    assert Abs(j).procs.Keys == j.procs.Keys;
  }

  /** Only the dead process's call is touched, and it is over. */
  lemma KillLock(j: Joint, pid: nat)
    requires JointOk(j) && pid in j.procs
    ensures var lock := StepKill(j, pid).lock;
            && L.Exclusive(lock) && L.DataOk(None, lock) && lock.file == j.lock.file && lock.calls.Keys == j.lock.calls.Keys
            && (forall id :: id in lock.calls && !(pid in j.inCall && j.inCall[pid] == id) ==> lock.calls[id] == j.lock.calls[id])
            && (pid in j.inCall ==> !Live(lock.calls[j.inCall[pid]].phase))
  {
    hide L.Exclusive, L.DataOk;
    if pid in j.inCall {
      assert InCallOk(j, pid);
      hide CallsOk, InCallOk, AbsProc;
      L.StepKeepsExclusive(j.lock, L.Die(j.inCall[pid]));
      L.StepKeepsData(None, j.lock, L.Die(j.inCall[pid]));
    }
  }

  lemma JointStepOk(h: Host, agentId: string, j: Joint, l: JointLabel)
    requires JointOk(j) && FairStep(j, l)
    ensures JointOk(JointStep(h, agentId, j, l)) && Matches(h, agentId, j, l)
  {
    hide JointOk, Matches, StepOther, StepLeave, StepKill, L.Step;
    match l {
      case Other(x) =>
        OtherKeepsJoint(h, agentId, j, x);
        OtherMatches(h, agentId, j, x);
      case Enter(pid, id) => EnterKeepsJoint(h, agentId, j, pid, id);
      case Sys(x) =>
        SysKeepsJoint(h, agentId, j, x);
        SysMatches(h, agentId, j, x);
      case Leave(pid) => LeaveKeepsJoint(h, agentId, j, pid);
      case Kill(pid) => KillKeepsJoint(h, agentId, j, pid);
    }
  }

  // ---- Whatever is reclaimed from whom, everything stays on the server's chain ----

  /** The state with the processes as they are, in a call or not. */
  function View(j: Joint): HookState { HookState(j.server, j.lock.file, j.procs) }

  ghost predicate OnChain(h: Host, agentId: string, j: Joint) {
    && HookOk(h, agentId, View(j))
    && forall id :: id in j.lock.calls ==> Later(j.server.ops, agentId, j.lock.calls[id].fromHash, j.lock.calls[id].toHash)
  }

  lemma OtherKeepsOnChain(h: Host, agentId: string, j: Joint, l: HookLabel)
    requires OnChain(h, agentId, j)
    ensures OnChain(h, agentId, StepOther(h, agentId, j, l))
  {
    if !l.Move? && !l.Crash? {
      HookStepOk(h, agentId, View(j), l);
      StepNotBefore(h, agentId, View(j), l);
      FileOutside(h, agentId, View(j), l);
      hide HookStep, HookOk, Later;
      var j' := StepOther(h, agentId, j, l);
      forall id | id in j'.lock.calls
        ensures Later(j'.server.ops, agentId, j'.lock.calls[id].fromHash, j'.lock.calls[id].toHash)
      {
        LaterStable(j.server.ops, j'.server.ops, agentId, j.lock.calls[id].fromHash, j.lock.calls[id].toHash);
      }
    }
  }

  /** A step of the lock takes no call elsewhere; the file is left or becomes what a call was asked for. */
  lemma LockStepMoves(s: L.State, x: L.Label)
    requires !x.Start?
    ensures var s' := L.Step(s, x);
            && s'.calls.Keys == s.calls.Keys
            && (forall c :: c in s.calls ==> s'.calls[c].fromHash == s.calls[c].fromHash && s'.calls[c].toHash == s.calls[c].toHash)
            && s'.file == if x.Decide? && L.At(s, x) && s.calls[x.id].phase.current == Some(s.calls[x.id].fromHash)
                          then Some(s.calls[x.id].toHash) else s.file
  {
    hide L.OwnerAlive, L.InodeFree, ReadChainState;
  }

  lemma SysIs(h: Host, agentId: string, j: Joint, x: L.Label)
    ensures JointStep(h, agentId, j, Sys(x)) == if x.Start? || x.Die? then j else j.(lock := L.Step(j.lock, x))
  {
  }

  lemma SysKeepsOnChain(h: Host, agentId: string, j: Joint, x: L.Label)
    requires OnChain(h, agentId, j)
    ensures OnChain(h, agentId, JointStep(h, agentId, j, Sys(x)))
  {
    hide L.Step, Later, IsPrefixHead, Core, ProcOk, L.At, JointStep;
    SysIs(h, agentId, j, x);
    if !x.Start? && !x.Die? {
      LockStepMoves(j.lock, x);
      if x.Decide? && L.At(j.lock, x) {
        AtHasCall(j.lock, x);
        LaterEnds(j.server.ops, agentId, j.lock.calls[x.id].fromHash, j.lock.calls[x.id].toHash);
      }
    }
  }

  lemma AtHasCall(s: L.State, x: L.Label)
    requires x.Decide? && L.At(s, x)
    ensures x.id in s.calls
  {
  }

  lemma ProcsKeepOnChain(h: Host, agentId: string, j: Joint, l: JointLabel)
    requires OnChain(h, agentId, j) && (l.Enter? || l.Leave? || l.Kill?)
    ensures OnChain(h, agentId, JointStep(h, agentId, j, l))
  {
    hide Core, Later, IsPrefixHead, AbsProc, HookStep;
    if l.pid in j.procs { assert ProcOk(j.server.ops, j.server.threads, agentId, j.procs[l.pid]); }
    if l.Kill? && l.pid in j.inCall {
      LockStepMoves(j.lock, L.Die(j.inCall[l.pid]));
      hide L.Step;
    }
  }

  lemma StepKeepsOnChain(h: Host, agentId: string, j: Joint, l: JointLabel)
    requires OnChain(h, agentId, j)
    ensures OnChain(h, agentId, JointStep(h, agentId, j, l))
  {
    hide OnChain, StepOther, L.Step;
    match l {
      case Other(x) => OtherKeepsOnChain(h, agentId, j, x);
      case Sys(x) => SysKeepsOnChain(h, agentId, j, x);
      case _ => ProcsKeepOnChain(h, agentId, j, l);
    }
  }

  lemma {:induction false} RunKeepsOnChain(h: Host, agentId: string, j: Joint, run: seq<JointLabel>)
    requires OnChain(h, agentId, j)
    ensures OnChain(h, agentId, JointExec(h, agentId, j, run))
    decreases |run|
  {
    hide OnChain, JointStep;
    if run != [] {
      StepKeepsOnChain(h, agentId, j, run[0]);
      RunKeepsOnChain(h, agentId, JointStep(h, agentId, j, run[0]), run[1..]);
    }
  }

  lemma FirstOnChain(h: Host, agentId: string)
    ensures OnChain(h, agentId, FirstJoint)
  {
    FirstInstallOk(h, agentId);
  }

  /**
    In every run, with lost answers and deaths between any two steps, inside the lock as well,
    and with any reclaiming, the file holds genesis or a chain hash that the server has committed.
  */
  lemma FileIsCommitted(h: Host, agentId: string, run: seq<JointLabel>)
    ensures var j := JointExec(h, agentId, FirstJoint, run);
            var x := FileHash(j.lock.file);
            x == GENESIS || exists r :: r in j.server.ops && r.agentId == agentId && r.chainHash == x
  {
    FirstOnChain(h, agentId);
    RunKeepsOnChain(h, agentId, FirstJoint, run);
    var j := JointExec(h, agentId, FirstJoint, run);
    PrefixHeadIsCommitted(h, j.server.ops, agentId, FileHash(j.lock.file));
  }

  // ---- Which decisions move the file back ----

  /** A call decides on a read that names its own predecessor, while the file is already past its target. */
  ghost predicate DecidesBack(agentId: string, j: Joint, l: JointLabel) {
    && l.Sys? && l.call.Decide? && L.At(j.lock, l.call)
    && var c := j.lock.calls[l.call.id];
    && c.phase.current == Some(c.fromHash) && Later(j.server.ops, agentId, c.toHash, FileHash(j.lock.file))
  }

  /** What a step does to the file and the table. */
  lemma StepMoves(h: Host, agentId: string, j: Joint, l: JointLabel)
    requires OnChain(h, agentId, j)
    ensures var j' := JointStep(h, agentId, j, l);
            && j.server.ops <= j'.server.ops && (l.Sys? ==> j'.server == j.server)
            && j'.lock.file == if l.Sys? && l.call.Decide? && L.At(j.lock, l.call)
                                  && j.lock.calls[l.call.id].phase.current == Some(j.lock.calls[l.call.id].fromHash)
                               then Some(j.lock.calls[l.call.id].toHash) else j.lock.file
  {
    hide L.Step, HookStep, L.At;
    match l {
      case Other(x) => if !x.Move? && !x.Crash? { StepNotBefore(h, agentId, View(j), x); }
      case Sys(x) => if !x.Start? && !x.Die? { LockStepMoves(j.lock, x); }
      case Kill(pid) => if pid in j.procs && pid in j.inCall { LockStepMoves(j.lock, L.Die(j.inCall[pid])); }
      case Enter(pid, id) => if CanEnter(j, pid, id) { L.OtherSteps(j.lock, L.Start(id, j.procs[pid].phase.prev, j.procs[pid].phase.to)); }
      case Leave(_) =>
    }
  }

  /** A step moves the file back exactly when it is such a decision. */
  lemma MovesBackExactly(h: Host, agentId: string, j: Joint, l: JointLabel)
    requires OnChain(h, agentId, j) && ChainTrusted(h, JointStep(h, agentId, j, l).server.ops, agentId)
    ensures var j' := JointStep(h, agentId, j, l);
            Later(j'.server.ops, agentId, FileHash(j'.lock.file), FileHash(j.lock.file)) <==> DecidesBack(agentId, j, l)
  {
    var j' := JointStep(h, agentId, j, l);
    StepMoves(h, agentId, j, l);
    StepKeepsOnChain(h, agentId, j, l);
    hide JointStep, ChainTrusted, L.At;
    if Later(j'.server.ops, agentId, FileHash(j.lock.file), FileHash(j.lock.file)) {
      EarlierIsNotLater(h, j'.server.ops, agentId, FileHash(j.lock.file), FileHash(j.lock.file));
    }
  }

  lemma EarlierIsNotLater(h: Host, ops: seq<Row>, agentId: string, y: string, x: string)
    requires ChainOk(h, ops) && ChainTrusted(h, ops, agentId) && Later(ops, agentId, y, x)
    ensures !NotBefore(ops, agentId, x, y)
  {
    hide HeadAt, AgentChain, ChainOk, ChainTrusted;
    var n := |AgentChain(ops, agentId)|;
    var p: nat, q: nat :| p < q <= n && HeadAt(ops, agentId, p) == y && HeadAt(ops, agentId, q) == x;
    if NotBefore(ops, agentId, x, y) { PositionsOrdered(h, ops, agentId, q, p); }
  }

  /** Such a decision's read is stale: one that reads the file as it is moves it on. */
  lemma FreshReadsMoveOn(h: Host, agentId: string, j: Joint, l: JointLabel)
    requires OnChain(h, agentId, j) && ChainTrusted(h, j.server.ops, agentId) && DecidesBack(agentId, j, l)
    ensures j.lock.calls[l.call.id].phase.current != ReadChainState(j.lock.file)
  {
    var c := j.lock.calls[l.call.id];
    hide Later, ChainTrusted;
    if c.phase.current == ReadChainState(j.lock.file) {
      assert FileHash(j.lock.file) == c.fromHash;
      EarlierIsNotLater(h, j.server.ops, agentId, c.fromHash, c.toHash);
    }
  }

  ghost predicate NoneDecidesBack(h: Host, agentId: string, j: Joint, run: seq<JointLabel>)
    decreases |run|
  {
    run == [] || (!DecidesBack(agentId, j, run[0]) && NoneDecidesBack(h, agentId, JointStep(h, agentId, j, run[0]), run[1..]))
  }

  /** Two hashes of the chain are comparable. */
  lemma Comparable(ops: seq<Row>, agentId: string, x: string, y: string)
    requires IsPrefixHead(ops, agentId, x) && IsPrefixHead(ops, agentId, y)
    ensures NotBefore(ops, agentId, x, y) || Later(ops, agentId, y, x)
  {
    hide HeadAt, AgentChain;
    var p :| 0 <= p <= |AgentChain(ops, agentId)| && HeadAt(ops, agentId, p) == x;
    var q :| 0 <= q <= |AgentChain(ops, agentId)| && HeadAt(ops, agentId, q) == y;
    if p < q { assert Later(ops, agentId, x, y); } else if q < p { assert Later(ops, agentId, y, x); }
  }

  lemma StepStaysOn(h: Host, agentId: string, j: Joint, l: JointLabel)
    requires OnChain(h, agentId, j) && !DecidesBack(agentId, j, l)
    ensures var j' := JointStep(h, agentId, j, l);
            NotBefore(j'.server.ops, agentId, FileHash(j.lock.file), FileHash(j'.lock.file))
  {
    var j' := JointStep(h, agentId, j, l);
    StepMoves(h, agentId, j, l);
    StepKeepsOnChain(h, agentId, j, l);
    hide JointStep, Later, IsPrefixHead, L.At;
    if j'.lock.file != j.lock.file {
      assert j'.server == j.server;
      Comparable(j.server.ops, agentId, FileHash(j.lock.file), FileHash(j'.lock.file));
    }
  }

  /** Fair or not, a run without such a decision never moves the file back. */
  lemma {:induction false} OnlyStaleDecisionsMoveBack(h: Host, agentId: string, j: Joint, run: seq<JointLabel>)
    requires OnChain(h, agentId, j) && NoneDecidesBack(h, agentId, j, run)
    requires ChainTrusted(h, JointExec(h, agentId, j, run).server.ops, agentId)
    ensures var j' := JointExec(h, agentId, j, run);
            && j.server.ops <= j'.server.ops
            && NotBefore(j'.server.ops, agentId, FileHash(j.lock.file), FileHash(j'.lock.file))
    decreases |run|
  {
    hide JointStep, ChainTrusted, Later, DecidesBack;
    if run != [] {
      var one, end := JointStep(h, agentId, j, run[0]), JointExec(h, agentId, j, run);
      StepMoves(h, agentId, j, run[0]);
      StepKeepsOnChain(h, agentId, j, run[0]);
      StepStaysOn(h, agentId, j, run[0]);
      OnlyStaleDecisionsMoveBack(h, agentId, one, run[1..]);
      RunKeepsOnChain(h, agentId, one, run[1..]);
      if FileHash(j.lock.file) != FileHash(one.lock.file) {
        LaterStable(one.server.ops, end.server.ops, agentId, FileHash(j.lock.file), FileHash(one.lock.file));
      }
      hide OnChain;
      NotBeforeTransitive(h, end.server.ops, agentId, FileHash(j.lock.file), FileHash(one.lock.file), FileHash(end.lock.file));
    }
  }

  // ---- Every fair run is a run of module Hook ----

  ghost function Trace(h: Host, agentId: string, j: Joint, run: seq<JointLabel>): seq<HookLabel>
    decreases |run|
  {
    if run == [] then [] else TraceStep(j, run[0]) + Trace(h, agentId, JointStep(h, agentId, j, run[0]), run[1..])
  }

  lemma {:induction false} Simulates(h: Host, agentId: string, j: Joint, run: seq<JointLabel>)
    requires JointOk(j) && FairJoint(h, agentId, j, run)
    ensures JointOk(JointExec(h, agentId, j, run))
    ensures HookExec(h, agentId, Abs(j), Trace(h, agentId, j, run)) == Abs(JointExec(h, agentId, j, run))
    decreases |run|
  {
    hide JointOk, JointStep, Abs, TraceStep;
    if run != [] {
      var j' := JointStep(h, agentId, j, run[0]);
      JointStepOk(h, agentId, j, run[0]);
      Simulates(h, agentId, j', run[1..]);
      HookExecSplits(h, agentId, Abs(j), TraceStep(j, run[0]), Trace(h, agentId, j', run[1..]));
    }
  }

  lemma FirstJointOk()
    ensures JointOk(FirstJoint) && Abs(FirstJoint) == FirstInstall
  {
    assert L.Sequential(None, []);
    assert Abs(FirstJoint).procs == map[];
  }

  lemma {:induction false} JointSplits(h: Host, agentId: string, j: Joint, a: seq<JointLabel>, b: seq<JointLabel>)
    requires FairJoint(h, agentId, j, a + b)
    ensures JointExec(h, agentId, j, a + b) == JointExec(h, agentId, JointExec(h, agentId, j, a), b)
    ensures FairJoint(h, agentId, j, a) && FairJoint(h, agentId, JointExec(h, agentId, j, a), b)
    decreases |a|
  {
    hide JointStep;
    if a == [] {
      assert a + b == b;
    } else {
      assert (a + b)[1..] == a[1..] + b;
      JointSplits(h, agentId, JointStep(h, agentId, j, a[0]), a[1..], b);
    }
  }

  /**
    A fair run of processes, server and lock steps is, call by call, a run in which every
    move of the file is one step: same server, same file, and each process where it is once
    the call it is in has taken effect.
  */
  lemma RefinesHook(h: Host, agentId: string, run: seq<JointLabel>)
    requires FairJoint(h, agentId, FirstJoint, run)
    ensures HookExec(h, agentId, FirstInstall, Trace(h, agentId, FirstJoint, run)) == Abs(JointExec(h, agentId, FirstJoint, run))
  {
    FirstJointOk();
    Simulates(h, agentId, FirstJoint, run);
  }

  /**
    The file's position in the server's chain never moves backwards, on acceptance or on
    resynchronisation: of two moments of a fair run, between any two system calls, the later
    finds it at least as far on.
  */
  lemma FileNeverMovesBack(h: Host, agentId: string, run: seq<JointLabel>, more: seq<JointLabel>, p: nat, q: nat)
    requires FairJoint(h, agentId, FirstJoint, run + more)
    requires var early, late := JointExec(h, agentId, FirstJoint, run), JointExec(h, agentId, FirstJoint, run + more);
             && ChainTrusted(h, late.server.ops, agentId)
             && p <= |AgentChain(early.server.ops, agentId)| && HeadAt(early.server.ops, agentId, p) == FileHash(early.lock.file)
             && q <= |AgentChain(late.server.ops, agentId)| && HeadAt(late.server.ops, agentId, q) == FileHash(late.lock.file)
    ensures p <= q
  {
    hide HookStep, JointStep, ChainTrusted, HeadAt, AgentChain, FairJoint, JointOk;
    var early := JointExec(h, agentId, FirstJoint, run);
    JointSplits(h, agentId, FirstJoint, run, more);
    FirstJointOk();
    Simulates(h, agentId, FirstJoint, run);
    Simulates(h, agentId, early, more);
    var a, b := Trace(h, agentId, FirstJoint, run), Trace(h, agentId, early, more);
    HookExecSplits(h, agentId, FirstInstall, a, b);
    Hook.FileNeverMovesBack(h, agentId, a, b, p, q);
  }
}
