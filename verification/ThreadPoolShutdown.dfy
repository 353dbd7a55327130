/**
 What destroy can rely on once its marking loop is done: exactly when the number of further
 task starts is bounded by the workers already past their state test, and exactly when destroy
 is sure to return. Both hinge on workers that may still pass or reach the state test.
 */
module ThreadPoolShutdown {
  import opened Basics
  import opened ThreadPool
  import opened ThreadPoolSafety
  import opened ThreadPoolTheorems

  // ---------------------------------------------------------------------------
  // Starts after the marking loop

  /** Worker `w` may still pass its state test: it has not begun, or its slot lost the mark. */
  predicate MayPass(s: Pool, w: nat)
    requires s.IsWorker(w)
  {
    || s.pcs[w] == Starting
    || (&& (s.states[w] == Running || s.states[w] == Paused)
        && (s.pcs[w] == CheckState || s.pcs[w] == PauseWait || s.pcs[w] == WantTask || s.pcs[w].Executing?))
  }

  ghost predicate NonePasses(s: Pool) {
    && (s.destroyer.Joining? || s.destroyer.Freed?)
    && |s.states| == |s.pcs|
    && forall w: nat :: w < |s.pcs| ==> !MayPass(s, w)
  }

  /** Every worker had begun before it was marked. */
  ghost predicate Settled(s: Pool) {
    && (s.destroyer.Joining? || s.destroyer.Freed?)
    && s.late == {}
    && forall w :: 0 <= w < |s.pcs| ==> s.pcs[w] != Starting
  }

  lemma SettledNonePasses(s: Pool)
    requires Inv(s) && Settled(s)
    ensures NonePasses(s)
  {
    forall w: nat | w < |s.pcs| ensures !MayPass(s, w) {
      assert SlotOk(s, w);
    }
  }

  /** A worker that cannot pass stays so. */
  lemma KeepCannotPass(s: Pool, a: Action, w: nat)
    requires Enabled(s, a) && s.destroyer.Joining? && s.shutdown != 0
    requires s.IsWorker(w) && !MayPass(s, w) && s.pcs[w] != NotifyWait
    ensures Step(s, a).IsWorker(w) && !MayPass(Step(s, a), w)
  {
    OnePcMoves(s, a);
  }

  lemma KeepNonePasses(s: Pool, a: Action)
    requires Inv(s) && NonePasses(s) && Enabled(s, a)
    ensures NonePasses(Step(s, a))
  {
    KeepDestroyer(s, a);
    OnePcMoves(s, a);
    hide Step, Enabled, MayPass, ActiveCount, Ledger, Executors, Slots;
    forall w: nat | w < |s.pcs| ensures !MayPass(Step(s, a), w) {
      assert !MayPass(s, w);
      KeepCannotPass(s, a, w);
    }
  }

  lemma NonePassesMove(s: Pool, a: Action, w: nat)
    requires s.IsWorker(w) && SlotOk(s, w) && !MayPass(s, w) && Enabled(s, a) && Mover(s, a) == Some(w)
    requires NoWaiter(s.pcs) && s.shutdown != 0 && (s.destroyer.Joining? || s.destroyer.Freed?)
    ensures |Step(s, a).pcs| == |s.pcs|
    ensures |Step(s, a).dequeued| + IS_AWAKE(Step(s, a).pcs[w]) <= |s.dequeued| + IS_AWAKE(s.pcs[w])
  {
  }

  lemma StartsAreTakes(s: Pool, a: Action)
    requires Enabled(s, a) && !a.Take?
    ensures Step(s, a).dequeued == s.dequeued
  {
  }

  lemma SecondDestroy(s: Pool, a: Action)
    requires a.Destroy? && Enabled(s, a) && s.shutdown != 0
    ensures Step(s, a) == s
  {
  }

  lemma NonePassesStep(s: Pool, a: Action)
    requires Inv(s) && NonePasses(s) && Enabled(s, a)
    ensures |Step(s, a).dequeued| + Total(Step(s, a).pcs, IS_AWAKE) <= |s.dequeued| + Total(s.pcs, IS_AWAKE)
  {
    hide Step;
    if a.Destroy? {
      SecondDestroy(s, a);
    } else {
      KeepTotals(s, a, IS_AWAKE);
      if Mover(s, a).Some? {
        OnePcMoves(s, a);
        assert SlotOk(s, Mover(s, a).value);
        NonePassesMove(s, a, Mover(s, a).value);
      } else {
        StartsAreTakes(s, a);
      }
    }
  }

  lemma {:induction false} TotalBound(pcs: seq<Pc>, f: Pc -> nat, c: nat)
    requires forall pc :: f(pc) <= c
    ensures Total(pcs, f) <= c * |pcs|
  {
    if pcs != [] {
      TotalBound(pcs[1..], f, c);
    }
  }

  lemma {:induction false} NonePassesRun(s: Pool, acts: seq<Action>)
    requires Inv(s) && NonePasses(s) && IsRun(s, acts)
    ensures |After(s, acts).dequeued| - |s.dequeued| <= Total(s.pcs, IS_AWAKE)
    decreases acts
  {
    hide Step, Enabled;
    if acts != [] {
      NonePassesStep(s, acts[0]);
      KeepNonePasses(s, acts[0]);
      KeepInv(s, acts[0]);
      NonePassesRun(Step(s, acts[0]), acts[1..]);
    }
  }

  /** After shutdown nothing is started that was not queued, and nothing at all in mode 2. */
  lemma StartsAreQueued(s: Pool, acts: seq<Action>)
    requires Inv(s) && s.shutdown != 0 && IsRun(s, acts) && s.discarded == []
    ensures |After(s, acts).dequeued| - |s.dequeued| <= if s.shutdown == 2 then 0 else |s.queue|
  {
    hide Step, Enabled, After, IsRun;
    RunKeepsInv(s, acts);
    ShutdownIsFinal(s, acts);
  }

  /** At most as many tasks start from here on as workers have already passed their state test. */
  ghost predicate StartsBounded(s: Pool) {
    forall acts :: IsRun(s, acts) ==> |After(s, acts).dequeued| - |s.dequeued| <= Total(s.pcs, IS_AWAKE)
  }

  /**
   After destroy's marking loop: whatever happens next, no more tasks start than workers had
   already passed their state test, hence at most one per worker, if and only if the shutdown
   is forced, or no more tasks are queued than that, or no worker may pass the test any more.
   */
  lemma StartsAfterMarking(s: Pool)
    requires Inv(s) && s.destroyer.Joining?
    ensures Total(s.pcs, IS_AWAKE) <= |s.pcs|
    ensures StartsBounded(s) <==>
            || s.shutdown == 2
            || |s.queue| <= Total(s.pcs, IS_AWAKE)
            || forall w: nat :: w < |s.pcs| ==> !MayPass(s, w)
  {
    TotalBound(s.pcs, IS_AWAKE, 1);
    hide Step, Enabled, IsRun, After, Total, MayPass, IS_AWAKE;
    if s.shutdown == 2 || |s.queue| <= Total(s.pcs, IS_AWAKE) {
      forall acts | IsRun(s, acts) ensures |After(s, acts).dequeued| - |s.dequeued| <= Total(s.pcs, IS_AWAKE) {
        StartsAreQueued(s, acts);
      }
    } else if w: nat :| w < |s.pcs| && MayPass(s, w) {
      var acts := LateWorkerMayDrain(s, w);
      assert IsRun(s, acts) && |After(s, acts).dequeued| - |s.dequeued| == |s.queue|;
    } else {
      forall acts | IsRun(s, acts) ensures |After(s, acts).dequeued| - |s.dequeued| <= Total(s.pcs, IS_AWAKE) {
        NonePassesRun(s, acts);
      }
    }
  }

  /** In graceful mode a worker that may pass the test can take every queued task, however many there are. */
  lemma LateWorkerMayDrain(s: Pool, w: nat) returns (acts: seq<Action>)
    requires Inv(s) && s.destroyer.Joining? && s.shutdown == 1
    requires w < |s.pcs| && MayPass(s, w)
    ensures IsRun(s, acts)
    ensures After(s, acts).dequeued == s.dequeued + s.queue
  {
    hide Step, Enabled, IsRun, After;
    if s.queue == [] {
      NoSteps(s);
      acts := [];
    } else {
      var ready := GetReady(s, w);
      var rest := DrainFrom(After(s, ready), w);
      RunJoin(s, ready, rest);
      acts := ready + rest;
    }
  }

  lemma NoSteps(s: Pool)
    ensures IsRun(s, []) && After(s, []) == s
  {
  }

  lemma OneStep(s: Pool, a: Action)
    requires Enabled(s, a)
    ensures IsRun(s, [a]) && After(s, [a]) == Step(s, a)
  {
    hide Step, Enabled;
    NoSteps(Step(s, a));
    assert [a][1..] == [];
  }

  /** The worker stands before its state test with a slot that says RUNNING; the queue may have lost its head to it. */
  ghost predicate Ready(s: Pool, s': Pool, w: nat) {
    && s'.destroyer == s.destroyer && s'.shutdown == s.shutdown
    && s'.IsWorker(w) && s'.pcs[w] == CheckState && s'.states[w] == Running
    && s'.dequeued + s'.queue == s.dequeued + s.queue
  }

  /** A worker that may pass can be brought before its state test with a slot that says RUNNING. */
  lemma GetReady(s: Pool, w: nat) returns (acts: seq<Action>)
    requires Inv(s) && s.destroyer.Joining? && s.shutdown != 0
    requires w < |s.pcs| && MayPass(s, w) && (s.pcs[w] == WantTask ==> s.shutdown == 1 && s.queue != [])
    ensures IsRun(s, acts) && Ready(s, After(s, acts), w)
  {
    if s.pcs[w] == Starting {
      OneStep(s, Begin(w));
      acts := [Begin(w)];
    } else {
      assert SlotOk(s, w);
      ResumeReady(s, w);
      OneStep(s, Resume(w));
      var s1 := Step(s, Resume(w));
      var rest := GetReadyRunning(s1, w);
      RunPrepend(s, Resume(w), rest);
      acts := [Resume(w)] + rest;
    }
  }

  /** Resuming a worker that is not paused changes nothing. */
  lemma ResumeReady(s: Pool, w: nat)
    requires s.destroyer.Joining? && s.IsWorker(w) && (s.states[w] == Running || s.states[w] == Paused)
    requires s.pcs[w] == PauseWait ==> s.states[w] == Paused
    ensures Enabled(s, Resume(w))
    ensures var s1 := Step(s, Resume(w));
            && s1.destroyer == s.destroyer && s1.shutdown == s.shutdown && s1.queue == s.queue
            && s1.dequeued == s.dequeued && s1.IsWorker(w) && s1.states[w] == Running
            && s1.pcs[w] == if s.pcs[w] == PauseWait then CheckState else s.pcs[w]
  {
  }

  lemma GetReadyRunning(s: Pool, w: nat) returns (acts: seq<Action>)
    requires s.destroyer.Joining? && s.IsWorker(w) && s.states[w] == Running && s.shutdown != 0
    requires s.pcs[w] == CheckState || s.pcs[w].Executing? || (s.pcs[w] == WantTask && s.shutdown == 1 && s.queue != [])
    ensures IsRun(s, acts) && Ready(s, After(s, acts), w)
  {
    if s.pcs[w] == CheckState {
      acts := [];
    } else if s.pcs[w].Executing? {
      OneStep(s, Finish(w));
      acts := [Finish(w)];
    } else {
      var s1 := Step(s, Take(w));
      OneStep(s1, Finish(w));
      RunPrepend(s, Take(w), [Finish(w)]);
      acts := [Take(w)] + [Finish(w)];
    }
  }

  lemma {:induction false} DrainFrom(s: Pool, w: nat) returns (acts: seq<Action>)
    requires s.destroyer.Joining? && s.shutdown == 1
    requires s.IsWorker(w) && s.pcs[w] == CheckState && s.states[w] == Running
    ensures IsRun(s, acts)
    ensures After(s, acts).dequeued == s.dequeued + s.queue
    decreases |s.queue|
  {
    hide Step, Enabled;
    if s.queue == [] {
      acts := [];
    } else {
      DrainRound(s, w);
      var s1 := Step(s, Check(w));
      var s2 := Step(s1, Take(w));
      var rest := DrainFrom(Step(s2, Finish(w)), w);
      RunPrepend(s2, Finish(w), rest);
      RunPrepend(s1, Take(w), [Finish(w)] + rest);
      RunPrepend(s, Check(w), [Take(w)] + ([Finish(w)] + rest));
      acts := [Check(w)] + ([Take(w)] + ([Finish(w)] + rest));
    }
  }

  /** One task checked for, taken and finished; the worker is back where it was. */
  lemma DrainRound(s: Pool, w: nat)
    requires s.destroyer.Joining? && s.shutdown == 1 && s.queue != []
    requires s.IsWorker(w) && s.pcs[w] == CheckState && s.states[w] == Running
    ensures Enabled(s, Check(w))
    ensures var s1 := Step(s, Check(w)); Enabled(s1, Take(w))
    ensures var s2 := Step(Step(s, Check(w)), Take(w)); Enabled(s2, Finish(w))
    ensures var s3 := Step(Step(Step(s, Check(w)), Take(w)), Finish(w));
            && s3.destroyer.Joining? && s3.shutdown == 1
            && s3.IsWorker(w) && s3.pcs[w] == CheckState && s3.states[w] == Running
            && s3.queue == s.queue[1..] && s3.dequeued + s3.queue == s.dequeued + s.queue
  {
  }

  // ---------------------------------------------------------------------------
  // Such states are reached

  /** A pool of one worker that has not begun, holding `k` tasks. */
  ghost predicate Filled(s: Pool, k: nat) {
    && s.states == [Running] && s.pcs == [Starting] && s.destroyer == Idle && s.shutdown == 0
    && |s.queue| == k && s.dequeued == []
  }

  lemma {:induction false} FillUp(k: nat) returns (acts: seq<Action>)
    ensures IsRun(Init(1), acts) && Filled(After(Init(1), acts), k)
  {
    if k == 0 {
      acts := [];
    } else {
      var fewer := FillUp(k - 1);
      var s := After(Init(1), fewer);
      OneStep(s, Add(None));
      RunJoin(Init(1), fewer, [Add(None)]);
      acts := fewer + [Add(None)];
    }
  }

  lemma MarkLone(s: Pool, k: nat)
    requires Filled(s, k)
    ensures IsRun(s, [Destroy(true), Mark, Mark])
    ensures var s' := After(s, [Destroy(true), Mark, Mark]);
            && s'.destroyer.Joining? && s'.shutdown == 1 && s'.pcs == [Starting] && s'.queue == s.queue
            && s'.dequeued == []
  {
    var s1 := Step(s, Destroy(true));
    var s2 := Step(s1, Mark);
    assert s1.pcs == [Starting];
    assert s2.pcs == [Starting] && s2.destroyer == Marking(1);
    OneStep(s2, Mark);
    RunPrepend(s1, Mark, [Mark]);
    RunPrepend(s, Destroy(true), [Mark] + [Mark]);
    assert [Destroy(true)] + ([Mark] + [Mark]) == [Destroy(true), Mark, Mark];
  }

  /**
   For every `k` there is a run from the start to the end of the marking loop with `k` tasks
   queued and none started, and a continuation in which all of them are started.
   */
  lemma AnyNumberMayStart(k: nat) returns (before: seq<Action>, rest: seq<Action>)
    ensures IsRun(Init(1), before)
    ensures var s := After(Init(1), before);
            && s.destroyer.Joining? && s.shutdown == 1 && |s.queue| == k && s.dequeued == []
            && IsRun(s, rest)
            && After(s, rest).dequeued == s.queue
    ensures IsRun(Init(1), before + rest) && |After(Init(1), before + rest).dequeued| == k
  {
    hide Step, Enabled, IsRun, After;
    var fill := FillUp(k);
    var s := After(Init(1), fill);
    MarkLone(s, k);
    before := fill + [Destroy(true), Mark, Mark];
    RunJoin(Init(1), fill, [Destroy(true), Mark, Mark]);
    InvInit(1);
    RunKeepsInv(Init(1), before);
    rest := LateWorkerMayDrain(After(Init(1), before), 0);
    RunJoin(Init(1), before, rest);
  }

  // ---------------------------------------------------------------------------
  // Destroy returns

  /** Worker `w` may still come to its state test, and so to sleep if it is paused. */
  predicate MayBlock(s: Pool, w: nat)
    requires s.IsWorker(w)
  {
    MayPass(s, w) && (s.pcs[w] == WantTask ==> s.shutdown == 1 && s.queue != [])
  }

  ghost predicate NoneBlocks(s: Pool) {
    && (s.destroyer.Joining? || s.destroyer.Freed?)
    && |s.states| == |s.pcs|
    && forall w: nat :: w < |s.pcs| ==> !MayBlock(s, w)
  }

  /** Neither a worker nor the destroying thread can take a step. */
  ghost predicate Quiet(s: Pool) {
    forall a :: IsSystemStep(a) ==> !Enabled(s, a)
  }

  /** Every run that cannot go on by itself has ended with destroy's return. */
  ghost predicate DestroyReturns(s: Pool) {
    forall acts :: IsRun(s, acts) && Quiet(After(s, acts)) ==> After(s, acts).destroyer == Freed
  }

  /** Nor can a worker block that has passed the test and will find nothing to take. */
  lemma KeepCannotBlock(s: Pool, a: Action, w: nat)
    requires Enabled(s, a) && s.destroyer.Joining? && 0 < s.shutdown <= 2
    requires s.IsWorker(w) && s.pcs[w] == WantTask && (s.shutdown == 2 || s.queue == [])
    ensures Step(s, a).IsWorker(w) && !MayBlock(Step(s, a), w)
  {
    OnePcMoves(s, a);
  }

  lemma KeepNoneBlocks(s: Pool, a: Action)
    requires Inv(s) && NoneBlocks(s) && Enabled(s, a)
    ensures NoneBlocks(Step(s, a))
  {
    KeepDestroyer(s, a);
    OnePcMoves(s, a);
    hide Step, Enabled, MayPass, ActiveCount, Ledger, Executors, Slots;
    forall w: nat | w < |s.pcs| ensures !MayBlock(Step(s, a), w) {
      assert !MayBlock(s, w);
      if MayPass(s, w) {
        KeepCannotBlock(s, a, w);
      } else {
        KeepCannotPass(s, a, w);
      }
    }
  }

  lemma {:induction false} NoneBlocksRun(s: Pool, acts: seq<Action>)
    requires Inv(s) && NoneBlocks(s) && IsRun(s, acts)
    ensures NoneBlocks(After(s, acts))
    decreases acts
  {
    hide Step, Enabled;
    if acts != [] {
      KeepNoneBlocks(s, acts[0]);
      KeepInv(s, acts[0]);
      NoneBlocksRun(Step(s, acts[0]), acts[1..]);
    }
  }

  /** Worker `w` sleeps on its pause condition while destroy waits to join it. */
  ghost predicate Blocked(s: Pool, w: nat) {
    s.destroyer.Joining? && s.IsWorker(w) && s.pcs[w] == PauseWait && s.states[w] == Paused
  }

  /** A worker that may block can be brought to sleep. */
  lemma BlockWorker(s: Pool, w: nat) returns (acts: seq<Action>)
    requires Inv(s) && s.destroyer.Joining? && w < |s.pcs| && MayBlock(s, w)
    ensures IsRun(s, acts) && Blocked(After(s, acts), w)
  {
    hide Step, Enabled, IsRun, After;
    var ready := GetReady(s, w);
    var s1 := After(s, ready);
    PauseThenCheck(s1, w);
    RunJoin(s, ready, [Pause(w), Check(w)]);
    acts := ready + [Pause(w), Check(w)];
  }

  lemma PauseThenCheck(s: Pool, w: nat)
    requires s.destroyer.Joining? && s.IsWorker(w) && s.pcs[w] == CheckState && s.states[w] == Running
    ensures IsRun(s, [Pause(w), Check(w)]) && Blocked(After(s, [Pause(w), Check(w)]), w)
  {
    var s1 := Step(s, Pause(w));
    OneStep(s1, Check(w));
    RunPrepend(s, Pause(w), [Check(w)]);
    assert [Pause(w)] + [Check(w)] == [Pause(w), Check(w)];
  }

  lemma BlockedStep(s: Pool, a: Action, w: nat)
    requires Inv(s) && Blocked(s, w) && Enabled(s, a) && !IsWake(a)
    ensures Blocked(Step(s, a), w)
  {
    hide ActiveCount, Ledger, Executors, Wakeups, Slots;
    OnePcMoves(s, a);
    KeepDestroyer(s, a);
  }

  /** It sleeps on, and destroy does not return, until somebody wakes a paused worker. */
  lemma {:induction false} BlockedUntilWoken(s: Pool, acts: seq<Action>, w: nat)
    requires Inv(s) && Blocked(s, w) && IsRun(s, acts) && Wakes(acts) == 0
    ensures Blocked(After(s, acts), w)
    decreases acts
  {
    hide Step, Enabled;
    if acts != [] {
      BlockedStep(s, acts[0], w);
      KeepInv(s, acts[0]);
      BlockedUntilWoken(Step(s, acts[0]), acts[1..], w);
    }
  }

  /** After shutdown the workers and the destroying thread by themselves come to rest. */
  lemma {:induction false} ComeToRest(s: Pool) returns (acts: seq<Action>)
    requires Inv(s) && s.shutdown != 0
    ensures IsRun(s, acts) && Wakes(acts) == 0 && Quiet(After(s, acts))
    decreases Weight(s)
  {
    hide Step, Enabled;
    WeightIsNat(s);
    if a :| IsSystemStep(a) && Enabled(s, a) {
      WeightStep(s, a);
      ShutdownStep(s, a);
      KeepInv(s, a);
      WeightIsNat(Step(s, a));
      var rest := ComeToRest(Step(s, a));
      RunPrepend(s, a, rest);
      assert ([a] + rest)[1..] == rest;
      acts := [a] + rest;
    } else {
      acts := [];
    }
  }

  lemma WeightIsNat(s: Pool)
    requires Inv(s)
    ensures Weight(s) >= 0
  {
  }

  /**
   Once the marking loop is done, whatever the other threads do: every run that comes to rest
   has ended with destroy's return, if and only if no worker may still come to its state test.
   Workers and destroying thread do come to rest: they take at most `Weight(s)` steps and one
   more for every wake-up, and wake-ups cost nothing when destroy is sure to return.
   */
  lemma DestroyReturnsExactly(s: Pool)
    requires Inv(s) && s.destroyer.Joining?
    ensures DestroyReturns(s) <==> forall w: nat :: w < |s.pcs| ==> !MayBlock(s, w)
    ensures forall acts :: IsRun(s, acts) ==> SystemSteps(acts) <= Weight(s) + Wakes(acts)
    ensures DestroyReturns(s) ==> forall acts :: IsRun(s, acts) ==> SystemSteps(acts) <= Weight(s)
  {
    hide Step, Enabled, IsRun, After, MayBlock, Quiet, Weight, SystemSteps, Wakes;
    forall acts | IsRun(s, acts) ensures SystemSteps(acts) <= Weight(s) + Wakes(acts) {
      DestroyIsBounded(s, acts);
    }
    if w: nat :| w < |s.pcs| && MayBlock(s, w) {
      var acts := RestBlocked(s, w);
    } else {
      forall acts | IsRun(s, acts) ensures SystemSteps(acts) <= Weight(s) {
        WakesCostNothing(s, acts);
      }
      forall acts | IsRun(s, acts) && Quiet(After(s, acts)) ensures After(s, acts).destroyer == Freed {
        RestIsReturn(s, acts);
      }
    }
  }

  /** Nobody sleeps on a pause condition, so nobody is woken. */
  lemma IdleWake(s: Pool, a: Action)
    requires Inv(s) && NoneBlocks(s) && Enabled(s, a) && IsWake(a)
    ensures var s' := Step(s, a); s'.pcs == s.pcs && s'.queue == s.queue && s'.destroyer == s.destroyer
  {
    hide ActiveCount, Ledger, Executors, Wakeups, Shape;
    forall w: nat | w < |s.pcs| ensures s.pcs[w] != PauseWait {
      assert !MayBlock(s, w);
      assert SlotOk(s, w);
    }
  }

  /** While no worker may block, the bound on the steps holds however often workers are woken. */
  lemma {:induction false} WakesCostNothing(s: Pool, acts: seq<Action>)
    requires Inv(s) && NoneBlocks(s) && IsRun(s, acts)
    ensures SystemSteps(acts) <= Weight(s)
    decreases acts
  {
    hide Step, Enabled;
    WeightIsNat(s);
    if acts != [] {
      var a := acts[0];
      if IsWake(a) {
        IdleWake(s, a);
      } else {
        WeightStep(s, a);
      }
      KeepNoneBlocks(s, a);
      KeepInv(s, a);
      WakesCostNothing(Step(s, a), acts[1..]);
    }
  }

  lemma RestBlocked(s: Pool, w: nat) returns (acts: seq<Action>)
    requires Inv(s) && s.destroyer.Joining? && w < |s.pcs| && MayBlock(s, w)
    ensures IsRun(s, acts) && Quiet(After(s, acts)) && After(s, acts).destroyer.Joining?
  {
    hide Step, Enabled, IsRun, After, MayBlock, Quiet;
    var block := BlockWorker(s, w);
    var s1 := After(s, block);
    RunKeepsInv(s, block);
    var rest := ComeToRest(s1);
    BlockedUntilWoken(s1, rest, w);
    RunJoin(s, block, rest);
    acts := block + rest;
  }

  lemma SleeperMayBlock(s: Pool, w: nat)
    requires s.IsWorker(w) && s.pcs[w] == PauseWait && s.states[w] == Paused
    ensures MayBlock(s, w)
  {
  }

  lemma RestIsReturn(s: Pool, acts: seq<Action>)
    requires Inv(s) && NoneBlocks(s) && IsRun(s, acts) && Quiet(After(s, acts))
    ensures After(s, acts).destroyer == Freed
  {
    hide Step, Enabled, IsRun, After;
    RunKeepsInv(s, acts);
    NoneBlocksRun(s, acts);
    var r := After(s, acts);
    DestroyStopsOnlyWhenDone(r);
    if r.destroyer != Freed {
      SleeperMayBlock(r, r.destroyer.next);
    }
  }
}
