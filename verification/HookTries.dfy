/** What each step of a hook process does, by what it is told and what the file says, and how often it tries. */
module HookTries {
  import opened Text
  import opened Chain
  import opened Server
  import opened Hook
  import L = Lock

  /** 43 symbols of the url alphabet. */
  predicate Shaped(s: string) {
    |s| == 43 && forall i :: 0 <= i < 43 ==>
      'A' <= s[i] <= 'Z' || 'a' <= s[i] <= 'z' || '0' <= s[i] <= '9' || s[i] == '-' || s[i] == '_'
  }

  lemma ShapedExactly(s: string)
    ensures HashShaped(s) <==> Shaped(s)
  {
    if HashShaped(s) {
      forall i | 0 <= i < 43 ensures s[i] in s { }
    }
  }

  predicate Readable(file: Option<string>) { file.Some? ==> Shaped(file.value) }

  function Named(file: Option<string>): string { if file.Some? then file.value else GENESIS }

  lemma ReadsExactly(file: Option<string>)
    ensures ReadChainState(file) == if Readable(file) then Some(Named(file)) else None
  {
    if file.Some? { ShapedExactly(file.value); }
    hide HashShaped, Shaped;
  }

  /** A process starts from what the file names, and not at all from a file it cannot read. */
  lemma ReadExactly(h: Host, agentId: string, hs: HookState, pid: nat)
    requires pid in hs.procs && hs.procs[pid].phase.Reading?
    ensures HookStep(h, agentId, hs, Read(pid))
         == hs.(procs := hs.procs[pid := hs.procs[pid].(phase := if Readable(hs.file) then Posting(Named(hs.file)) else Stopped(false))])
  {
    ReadsExactly(hs.file);
    hide ReadChainState, Readable;
  }

  /**
    What an answer leads to: on acceptance the move to the hash of the record that was sent,
    on a rejection the move to the head it names, when that has the shape of a hash; anything
    else ends the process.
  */
  lemma ReplyExactly(h: Host, agentId: string, hs: HookState, pid: nat)
    requires pid in hs.procs && hs.procs[pid].phase.Waiting?
    requires var tid := hs.procs[pid].phase.tid; tid in hs.server.threads && hs.server.threads[tid].phase.Done?
    ensures var p := hs.procs[pid]; var t := hs.server.threads[p.phase.tid]; var o, b := t.phase.outcome, t.eor.body;
            var own := h.sha(b.prevChainHash + "|" + b.payloadHash + "|" + b.operationId + "|" + Decimal(b.issuedAt));
            HookStep(h, agentId, hs, Reply(pid))
              == hs.(procs := hs.procs[pid := p.(phase :=
                   if o.Accepted? then Moving(p.phase.prev, own, true)
                   else if o.PrevHashMismatch? && Shaped(o.expected) then Moving(p.phase.prev, o.expected, false)
                   else Stopped(false))])
  {
    var o := hs.server.threads[hs.procs[pid].phase.tid].phase.outcome;
    if o.PrevHashMismatch? { ShapedExactly(o.expected); }
    hide HashShaped, Shaped;
  }

  /**
    The move: the file goes on exactly when it still names what the record was built on. A
    process that was accepted is done; one that was rejected reads again as long as it has
    posted fewer than five times, in every reachable state.
  */
  lemma MoveExactly(h: Host, agentId: string, run: seq<HookLabel>, pid: nat)
    requires var hs := HookExec(h, agentId, FirstInstall, run); pid in hs.procs && hs.procs[pid].phase.Moving?
    ensures var hs := HookExec(h, agentId, FirstInstall, run); var p := hs.procs[pid];
            var hs' := HookStep(h, agentId, hs, Move(pid));
            && hs'.server == hs.server && pid in hs'.procs && hs'.procs[pid].posts == p.posts
            && hs'.file == (if Readable(hs.file) && Named(hs.file) == p.phase.prev then Some(p.phase.to) else hs.file)
            && hs'.procs[pid].phase == (if Readable(hs.file) && p.phase.accepted then Stopped(true)
                                        else if Readable(hs.file) && |p.posts| < 5 then Reading
                                        else Stopped(false))
  {
    hide HookStep, HookExec;
    HookRunPosts(h, agentId, FirstInstall, run);
    var hs := HookExec(h, agentId, FirstInstall, run);
    ReadsExactly(hs.file);
    assert PostsOk(hs.server.threads, hs.procs[pid]);
    MoveStep(h, agentId, hs, pid);
  }

  lemma MoveStep(h: Host, agentId: string, hs: HookState, pid: nat)
    requires pid in hs.procs && hs.procs[pid].phase.Moving?
    ensures var p := hs.procs[pid]; var hs' := HookStep(h, agentId, hs, Move(pid));
            && hs'.server == hs.server && pid in hs'.procs && hs'.procs[pid].posts == p.posts
            && hs'.file == (if ReadChainState(hs.file) == Some(p.phase.prev) then Some(p.phase.to) else hs.file)
            && hs'.procs[pid].phase == (if ReadChainState(hs.file).None? then Stopped(false)
                                        else if p.phase.accepted then Stopped(true)
                                        else if p.attempt < 5 then Reading
                                        else Stopped(false))
  {
    hide ReadChainState;
  }

  // ---- The lock's decisions about other processes' lock files ----

  /** A lock file whose number is a living process's is left alone by a call that looks at it. */
  lemma ProbeExactly(s: L.State, id: nat, reused: bool)
    requires id in s.calls && s.calls[id].phase.Probing?
    ensures var s' := L.Step(s, L.Probe(id, reused));
            var alive := && s.lock.Some? && s.lock.value.owner.Some?
                         && (reused || (s.lock.value.owner.value in s.calls && !s.calls[s.lock.value.owner.value].phase.Dead?));
            s' == s.(calls := s.calls[id := s.calls[id].(phase := if alive then L.Opening else L.Aging)])
  {
  }

  /** One that is not older than five seconds is left alone as well. */
  lemma StatExactly(s: L.State, id: nat)
    requires id in s.calls && s.calls[id].phase.Aging?
    ensures var s' := L.Step(s, L.Stat(id));
            var stale := s.lock.Some? && s.now - s.lock.value.mtime > 5000;
            s' == s.(calls := s.calls[id := s.calls[id].(phase := if stale then L.Reclaiming else L.Opening)])
  {
  }

  /** Only so does a call come to reclaim. */
  lemma ReclaimerLooked(s: L.State, l: L.Label, c: nat)
    requires c in s.calls && c in L.Step(s, l).calls
    ensures L.Step(s, l).calls[c].phase.Reclaiming? && !s.calls[c].phase.Reclaiming? ==>
              l == L.Stat(c) && s.calls[c].phase.Aging? && s.lock.Some? && s.now - s.lock.value.mtime > 5000
    ensures L.Step(s, l).calls[c].phase.Aging? && !s.calls[c].phase.Aging? ==>
              l.Probe? && l.id == c && s.calls[c].phase.Probing? && !L.OwnerAlive(s, l.pidReused)
  {
    hide L.OwnerAlive, L.InodeFree, ReadChainState, L.CompareAndSet;
  }

  /**
    A call that leaves undisturbed takes the lock file away when it is the one that it made,
    leaves any other where it is, and returns what it decided.
  */
  lemma LeaverUnlocks(s: L.State, id: nat)
    requires id in s.calls && s.calls[id].phase.Leaving?
    ensures var p := s.calls[id].phase;
            var own := s.lock.Some? && s.lock.value.inode == p.inode;
            var s' := L.Step(L.Step(s, L.StatOwn(id)), L.Unlink(id));
            s' == s.(lock := if own then None else s.lock, calls := s.calls[id := s.calls[id].(phase := L.Returned(p.result))])
  {
    var p := s.calls[id].phase;
    var same := s.lock.Some? && s.lock.value.inode == p.inode;
    var a := L.Step(s, L.StatOwn(id));
    assert a.calls == s.calls[id := s.calls[id].(phase := L.Unlinking(p.inode, same, p.result))];
    assert a.calls[id := s.calls[id].(phase := L.Returned(p.result))] == s.calls[id := s.calls[id].(phase := L.Returned(p.result))];
  }

  /** Nobody else ever takes it away but a call that reclaims it, and nobody after finding that it is another's. */
  lemma LockTakenBy(s: L.State, l: L.Label)
    requires s.lock.Some? && L.Step(s, l).lock.None?
    ensures l.Reclaim? || l.Unlink?
    ensures l.id in s.calls
    ensures l.Reclaim? ==> s.calls[l.id].phase.Reclaiming?
    ensures l.Unlink? ==> s.calls[l.id].phase.Unlinking? && s.calls[l.id].phase.same
  {
    hide L.OwnerAlive, L.InodeFree, ReadChainState, L.CompareAndSet;
  }
}
