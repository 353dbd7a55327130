/**
 What pausing, resuming and terminating one worker promise, over every continuation.
 */
module ThreadPoolControl {
  import opened Basics
  import opened ThreadPool
  import opened ThreadPoolSafety
  import opened ThreadPoolTheorems

  /** No call reaches beyond the worker it names, and none changes anything for an index that names no worker. */
  lemma ControlIsLocal(s: Pool, a: Action, i: int)
    requires Enabled(s, a) && (a == Pause(i) || a == Resume(i) || a == Terminate(i))
    ensures var s' := Step(s, a);
            && s' == s.(states := s'.states, pcs := s'.pcs) && |s'.pcs| == |s.pcs| && |s'.states| == |s.states|
            && (forall w :: 0 <= w < |s.pcs| && w != i ==> s'.pcs[w] == s.pcs[w] && s'.states[w] == s.states[w])
            && (!(0 <= i < |s.pcs|) ==> s' == s)
  {
  }

  // ---------------------------------------------------------------------------
  // Terminate

  /** A begun worker on its way out. */
  predicate Leaving(s: Pool, w: nat) {
    s.IsWorker(w) && s.pcs[w] != Starting && (s.states[w] == Terminating || s.states[w] == Terminated)
  }

  lemma TerminateMarks(s: Pool, w: nat)
    requires Inv(s) && s.destroyer != Freed && w < |s.pcs| && s.pcs[w] != Starting
    requires s.states[w] == Running || s.states[w] == Paused
    ensures Enabled(s, Terminate(w)) && Leaving(Step(s, Terminate(w)), w)
    ensures Step(s, Terminate(w)).pcs[w] == if s.pcs[w] == PauseWait then CheckState else s.pcs[w]
  {
    assert SlotOk(s, w);
  }

  lemma LeavingStep(s: Pool, a: Action, w: nat)
    requires s.IsWorker(w) && SlotOk(s, w) && Leaving(s, w) && Enabled(s, a)
    ensures var s' := Step(s, a);
            var before := s.pcs[w] == WantTask || s.pcs[w] == NotifyWait;
            && Leaving(s', w) && s'.pcs[w] != PauseWait
            && var after := s'.pcs[w] == WantTask || s'.pcs[w] == NotifyWait;
            && (after ==> before)
            && (a == Take(w) && s'.dequeued != s.dequeued ==> before && !after)
            && (a == Check(w) ==> s'.pcs[w] == LeaveLoop)
  {
    OnePcMoves(s, a);
  }

  /**
   A terminated worker never comes back: whatever the other threads do, its state stays so, its
   next state test makes it leave, it never sleeps on its pause condition again, and it starts
   at most one more task, and that only if it had already passed its state test.
   */
  lemma {:induction false} TerminateIsFinal(s: Pool, acts: seq<Action>, w: nat)
    requires Inv(s) && Leaving(s, w) && IsRun(s, acts)
    ensures Leaving(After(s, acts), w) && After(s, acts).pcs[w] != PauseWait
    ensures StartsBy(s, acts, w) <= if s.pcs[w] == WantTask || s.pcs[w] == NotifyWait then 1 else 0
    ensures Enabled(After(s, acts), Check(w)) ==> Step(After(s, acts), Check(w)).pcs[w] == LeaveLoop
    decreases acts
  {
    hide Step, Enabled;
    if acts != [] {
      assert SlotOk(s, w);
      LeavingStep(s, acts[0], w);
      KeepInv(s, acts[0]);
      TerminateIsFinal(Step(s, acts[0]), acts[1..], w);
    } else {
      LeavingAwake(s, w);
      if Enabled(s, Check(w)) {
        assert SlotOk(s, w);
        LeavingStep(s, Check(w), w);
      }
    }
  }

  lemma LeavingAwake(s: Pool, w: nat)
    requires Inv(s) && Leaving(s, w)
    ensures s.pcs[w] != PauseWait
  {
    assert SlotOk(s, w);
  }

  // ---------------------------------------------------------------------------
  // Pause and resume

  /** Steps that may end a pause of worker `w`: resuming or terminating it, destroy's mark, its own way out. */
  predicate EndsPause(a: Action, w: nat) {
    a == Resume(w) || a == Terminate(w) || a.Mark? || a == Leave(w)
  }

  lemma PauseStops(s: Pool, w: nat)
    requires s.destroyer != Freed && s.IsWorker(w) && s.states[w] == Running && s.pcs[w] != Starting
    ensures Enabled(s, Pause(w)) && Held(Step(s, Pause(w)), w) && Step(s, Pause(w)).states[w] == Paused
    ensures Step(s, Pause(w)).pcs == s.pcs
  {
  }

  lemma PausedStep(s: Pool, a: Action, w: nat)
    requires s.IsWorker(w) && s.pcs[w] != Starting && s.states[w] == Paused && Enabled(s, a) && !EndsPause(a, w)
    ensures var s' := Step(s, a); s'.IsWorker(w) && s'.pcs[w] != Starting && s'.states[w] == Paused
    ensures a == Check(w) ==> Step(s, a).pcs[w] == PauseWait
  {
    OnePcMoves(s, a);
  }

  /**
   A paused worker stays paused until it is resumed, terminated, marked by destroy, or signs off
   after it had left the loop for a shutdown; until then it starts at most one more task, and
   its next state test puts it to sleep.
   */
  lemma {:induction false} PauseLasts(s: Pool, acts: seq<Action>, w: nat)
    requires Inv(s) && s.IsWorker(w) && s.pcs[w] != Starting && s.states[w] == Paused && IsRun(s, acts)
    requires forall i :: 0 <= i < |acts| ==> !EndsPause(acts[i], w)
    ensures HeldThroughout(s, acts, w) && After(s, acts).IsWorker(w) && After(s, acts).states[w] == Paused
    ensures StartsBy(s, acts, w) <= if s.pcs[w] == WantTask || s.pcs[w] == NotifyWait then 1 else 0
    ensures Enabled(After(s, acts), Check(w)) ==> Step(After(s, acts), Check(w)).pcs[w] == PauseWait
    decreases acts
  {
    hide Step, Enabled;
    if acts != [] {
      PausedStep(s, acts[0], w);
      KeepInv(s, acts[0]);
      assert forall i :: 0 <= i < |acts[1..]| ==> acts[1..][i] == acts[i + 1];
      PauseLasts(Step(s, acts[0]), acts[1..], w);
    } else if Enabled(s, Check(w)) {
      PausedStep(s, Check(w), w);
    }
    HeldWorkerStartsAtMostOne(s, acts, w);
  }

  /** Resuming a paused worker makes it run, awake, and its next state test lets it pass. */
  lemma ResumeContinues(s: Pool, w: nat)
    requires s.destroyer != Freed && s.IsWorker(w) && s.states[w] == Paused
    ensures Enabled(s, Resume(w))
    ensures var s' := Step(s, Resume(w));
            && s'.IsWorker(w) && s'.states[w] == Running
            && s'.pcs[w] == (if s.pcs[w] == PauseWait then CheckState else s.pcs[w])
            && (Enabled(s', Check(w)) ==> Step(s', Check(w)).pcs[w] == WantTask)
  {
  }

  /** A pause that is lifted at once leaves everything as it was. */
  lemma PauseThenResume(s: Pool, w: nat)
    requires Inv(s) && s.destroyer != Freed && w < |s.pcs| && s.states[w] == Running && s.pcs[w] != Starting
    ensures Enabled(s, Pause(w)) && Enabled(Step(s, Pause(w)), Resume(w))
    ensures Step(Step(s, Pause(w)), Resume(w)) == s
  {
    assert SlotOk(s, w);
  }
}
