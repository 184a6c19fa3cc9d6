/** What the nonce cache is for: a record once let through keeps others with its nonce out until the nonce expires. */
module ServerReplay {
  import opened Text
  import opened Server
  import opened ServerInvariants
  import M = Merkle

  function NonceText(e: Eor): string { "nonce:" + e.body.orgId + ":" + e.body.nonce }

  /** Two records share a nonce when organisation and nonce are the same; a colon in an organisation id can make it so otherwise. */
  lemma NonceTextsMeet(e: Eor, f: Eor)
    ensures NonceText(e) == NonceText(f) <==> e.body.orgId + ":" + e.body.nonce == f.body.orgId + ":" + f.body.nonce
    ensures Free(':', e.body.orgId) && Free(':', f.body.orgId) ==>
              (NonceText(e) == NonceText(f) <==> e.body.orgId == f.body.orgId && e.body.nonce == f.body.nonce)
  {
    var x, y := e.body.orgId + ":" + e.body.nonce, f.body.orgId + ":" + f.body.nonce;
    assert NonceText(e) == "nonce:" + x && NonceText(f) == "nonce:" + y;
    assert NonceText(e)[6..] == x && NonceText(f)[6..] == y;
    if Free(':', e.body.orgId) && Free(':', f.body.orgId) && x == y {
      SplitFirst(':', e.body.orgId, e.body.nonce, f.body.orgId, f.body.nonce);
    }
  }

  /** The refusals that come before the nonce is stored. */
  predicate EarlyCode(c: ErrorCode) { c in {ValidationError, TtlExpired, PayloadTooLarge, ReplayDetected} }

  /** The submission has stored its nonce, for all that can be told from where it is. */
  predicate PastNonce(p: Phase) {
    match p
    case GetNonce => false
    case PutNonce => false
    case Done(Refused(c)) => !EarlyCode(c)
    case Done(Failed) => false
    case _ => true
  }

  /** The two steps at the cache: a stored nonce ends the submission, any other is stored by its second step. */
  lemma NonceSteps(h: Host, s: State, tid: nat, rid: string, qid: string, pk: bool)
    requires tid in s.threads
    ensures var t := s.threads[tid]; var s' := StepThread(h, s, tid, rid, qid, pk);
            && tid in s'.threads && s'.threads[tid].eor == t.eor
            && (t.phase.GetNonce? ==>
                  s'.threads[tid].phase == (if NonceText(t.eor) in s.nonces then Done(Refused(ReplayDetected)) else PutNonce))
            && s'.nonces == s.nonces + (if t.phase.PutNonce? then {NonceText(t.eor)} else {})
            && (PastNonce(s'.threads[tid].phase) ==> PastNonce(t.phase) || NonceText(t.eor) in s'.nonces)
  {
    var t := s.threads[tid];
    var next := NextPhase(h, s, t, rid, qid, pk);
    WritesGrow(s, t, next);
    NonceWrites(s, t, next);
    if !t.phase.GetNonce? && !t.phase.PutNonce? { hide NonceText, NonceKey; }
  }

  lemma NonceWrites(s: State, t: Thread, next: Phase)
    ensures Written(s, t, next).nonces == s.nonces + (if t.phase.PutNonce? then {NonceText(t.eor)} else {})
  {
    hide RowOf, EorKey, EarKey;
  }

  // ---- Over every run ----

  /** A step of anything but the cache's own expiry and the submissions at it leaves the nonces alone. */
  lemma OtherNonces(h: Host, s: State, l: Label)
    requires !(l.Advance? && l.tid in s.threads) && !l.ExpireNonce?
    ensures Step(h, s, l).nonces == s.nonces
  {
    hide StepThread, ValidateEor, M.TreeOf, InWindow, FreshEpochId;
  }

  lemma OtherThread(h: Host, s: State, l: Label, tid: nat)
    requires tid in Step(h, s, l).threads && !(l.Advance? && l.tid == tid && tid in s.threads)
    ensures var t' := Step(h, s, l).threads[tid];
            if tid in s.threads then t' == s.threads[tid] || t' == s.threads[tid].(phase := Done(Failed))
            else t'.phase.GetNonce? || (t'.phase.Done? && t'.phase.outcome.Refused? && EarlyCode(t'.phase.outcome.code))
  {
    if l.Arrive? { ValidationIsEarly(h, l.eor, l.now); }
    hide NextPhase, Written, ValidateEor, M.TreeOf, InWindow, FreshEpochId;
    if l.Advance? && l.tid in s.threads {
      WritesGrow(s, s.threads[l.tid], NextPhase(h, s, s.threads[l.tid], l.receiptId, l.queueId, l.pkFirst));
    }
  }

  lemma ValidationIsEarly(h: Host, e: Eor, at: int)
    ensures ValidateEor(h, e, at).Some? ==> EarlyCode(ValidateEor(h, e, at).value)
  {
    hide Blank;
  }

  /** Whoever is past its nonce has it in the cache. */
  ghost predicate Noted(s: State, key: string) {
    forall tid :: tid in s.threads && NonceText(s.threads[tid].eor) == key && PastNonce(s.threads[tid].phase) ==> key in s.nonces
  }

  lemma StepKeepsNonce(h: Host, s: State, l: Label, key: string)
    requires key in s.nonces && l != ExpireNonce(key)
    ensures key in Step(h, s, l).nonces
  {
    hide StepThread, NonceText;
    if l.Advance? && l.tid in s.threads {
      NonceSteps(h, s, l.tid, l.receiptId, l.queueId, l.pkFirst);
    } else if !l.ExpireNonce? {
      OtherNonces(h, s, l);
    }
  }

  lemma StepKeepsNoted(h: Host, s: State, l: Label, key: string)
    requires Noted(s, key) && l != ExpireNonce(key)
    ensures Noted(Step(h, s, l), key)
  {
    hide NonceText, PastNonce, EarlyCode;
    var s' := Step(h, s, l);
    forall tid | tid in s'.threads && NonceText(s'.threads[tid].eor) == key && PastNonce(s'.threads[tid].phase)
      ensures key in s'.nonces
    {
      if key in s.nonces { StepKeepsNonce(h, s, l, key); } else { NotedNow(h, s, l, key, tid); }
    }
  }

  lemma NotedNow(h: Host, s: State, l: Label, key: string, tid: nat)
    requires Noted(s, key) && l != ExpireNonce(key) && key !in s.nonces
    requires var s' := Step(h, s, l);
             tid in s'.threads && NonceText(s'.threads[tid].eor) == key && PastNonce(s'.threads[tid].phase)
    ensures key in Step(h, s, l).nonces
  {
    hide NonceText, StepThread;
    if l.Advance? && l.tid == tid && tid in s.threads {
      NonceSteps(h, s, tid, l.receiptId, l.queueId, l.pkFirst);
    } else {
      OtherThread(h, s, l, tid);
    }
  }

  lemma {:induction false} RunKeepsNoted(h: Host, s: State, run: seq<Label>, key: string)
    requires Noted(s, key) && ExpireNonce(key) !in run
    ensures Noted(Exec(h, s, run), key)
    ensures key in s.nonces ==> key in Exec(h, s, run).nonces
    decreases |run|
  {
    hide Step, Noted;
    if run != [] {
      assert run[0] in run && forall x :: x in run[1..] ==> x in run;
      StepKeepsNoted(h, s, run[0], key);
      if key in s.nonces { StepKeepsNonce(h, s, run[0], key); }
      RunKeepsNoted(h, Step(h, s, run[0]), run[1..], key);
    }
  }

  /** Once a submission is past its nonce, the nonce is in the cache until it expires there. */
  lemma NonceStays(h: Host, run: seq<Label>, more: seq<Label>, tid: nat)
    requires var s := Exec(h, Initial, run);
             && tid in s.threads && PastNonce(s.threads[tid].phase)
             && ExpireNonce(NonceText(s.threads[tid].eor)) !in run + more
    ensures var s := Exec(h, Initial, run);
            NonceText(s.threads[tid].eor) in s.nonces && NonceText(s.threads[tid].eor) in Exec(h, s, more).nonces
  {
    var s := Exec(h, Initial, run);
    var key := NonceText(s.threads[tid].eor);
    hide NonceText, PastNonce, Exec;
    assert forall x :: x in run ==> x in run + more;
    assert forall x :: x in more ==> x in run + more;
    assert Noted(Initial, key);
    RunKeepsNoted(h, Initial, run, key);
    RunKeepsNoted(h, s, more, key);
  }

  /** It has not come to the nonce's storing, or was turned away there or before. */
  predicate KeptOut(p: Phase) {
    || p.GetNonce? || p == Done(Failed)
    || (p.Done? && p.outcome.Refused? && EarlyCode(p.outcome.code))
  }

  ghost predicate Locked(s: State, key: string, tid: nat) {
    key in s.nonces && (tid in s.threads && NonceText(s.threads[tid].eor) == key ==> KeptOut(s.threads[tid].phase))
  }

  lemma StepKeepsLocked(h: Host, s: State, l: Label, key: string, tid: nat)
    requires Locked(s, key, tid) && l != ExpireNonce(key)
    ensures Locked(Step(h, s, l), key, tid)
  {
    hide NonceText, StepThread;
    StepKeepsNonce(h, s, l, key);
    if tid in Step(h, s, l).threads {
      if l.Advance? && l.tid == tid && tid in s.threads {
        NonceSteps(h, s, tid, l.receiptId, l.queueId, l.pkFirst);
        if s.threads[tid].phase.Done? { DoneAdvances(h, s, l); }
      } else {
        OtherThread(h, s, l, tid);
      }
    }
  }

  lemma DoneAdvances(h: Host, s: State, l: Label)
    requires l.Advance? && l.tid in s.threads && s.threads[l.tid].phase.Done?
    ensures var s' := StepThread(h, s, l.tid, l.receiptId, l.queueId, l.pkFirst);
            l.tid in s'.threads && s'.threads[l.tid] == s.threads[l.tid]
  {
  }

  lemma {:induction false} RunKeepsLocked(h: Host, s: State, run: seq<Label>, key: string, tid: nat)
    requires Locked(s, key, tid) && ExpireNonce(key) !in run
    ensures Locked(Exec(h, s, run), key, tid)
    decreases |run|
  {
    hide Step, Locked;
    if run != [] {
      assert run[0] in run && forall x :: x in run[1..] ==> x in run;
      StepKeepsLocked(h, s, run[0], key, tid);
      RunKeepsLocked(h, Step(h, s, run[0]), run[1..], key, tid);
    }
  }

  /**
    A replay never gets anywhere: whatever is interleaved, a record that arrives after another
    with its organisation and nonce has gone past the cache is turned away there, before it or
    by a failure, for as long as the nonce has not expired. It is not accepted, stores nothing
    and learns nothing about agent, key or head.
  */
  lemma ReplayIsKeptOut(h: Host, before: seq<Label>, after: seq<Label>, first: nat, second: nat)
    requires var s, s' := Exec(h, Initial, before), Exec(h, Exec(h, Initial, before), after);
             && first in s.threads && PastNonce(s.threads[first].phase) && second !in s.threads && second in s'.threads
             && s'.threads[second].eor.body.orgId == s.threads[first].eor.body.orgId
             && s'.threads[second].eor.body.nonce == s.threads[first].eor.body.nonce
             && ExpireNonce(NonceText(s.threads[first].eor)) !in before + after
    ensures KeptOut(Exec(h, Exec(h, Initial, before), after).threads[second].phase)
  {
    var s, s' := Exec(h, Initial, before), Exec(h, Exec(h, Initial, before), after);
    var key := NonceText(s.threads[first].eor);
    NonceStays(h, before, after, first);
    assert NonceText(s'.threads[second].eor) == key;
    assert forall x :: x in after ==> x in before + after;
    hide Exec, NonceText, KeptOut;
    RunKeepsLocked(h, s, after, key, second);
  }
}
