/**
 The thread pool's promises over whole runs: conservation of tasks, at-most-once
 execution, what shutdown freezes, what a pause or a termination mark bounds, and that
 destroy comes to an end.
 */
module ThreadPoolTheorems {
  import opened Basics
  import opened ThreadPool
  import opened ThreadPoolSafety

  // ---------------------------------------------------------------------------
  // Conservation and at-most-once execution

  /**
   In every interleaving: submission order is dequeue order followed by the queue followed
   by what destroy discarded; no task is dequeued twice; a dequeued task is either completed
   or in the hands of exactly one worker, never both; and what is discarded is a suffix of
   submission order.
   */
  lemma TasksConserved(n: nat, acts: seq<Action>)
    requires IsRun(Init(n), acts)
    ensures var s := After(Init(n), acts);
            && s.accepted == s.dequeued + s.queue + s.discarded
            && s.discarded == s.accepted[|s.accepted| - |s.discarded|..]
            && (forall i, j :: 0 <= i < j < |s.dequeued| ==> s.dequeued[i] != s.dequeued[j])
            && (forall t :: t in s.dequeued ==> (t in s.completed <==> !IsExecuted(s, t)))
            && (forall w, v :: 0 <= w < |s.pcs| && 0 <= v < |s.pcs| && s.pcs[w].Executing? && s.pcs[w] == s.pcs[v] ==>
                  w == v)
            && (forall t: nat :: t in s.completed || IsExecuted(s, t) ==> t in s.dequeued)
  {
    hide Step, Enabled, IsRun, After;
    InvInit(n);
    RunKeepsInv(Init(n), acts);
    var s := After(Init(n), acts);
    forall i, j | 0 <= i < j < |s.dequeued| ensures s.dequeued[i] != s.dequeued[j] {
      assert s.dequeued[i] == s.accepted[i] && s.dequeued[j] == s.accepted[j];
    }
  }

  /**
   No wake-up is lost: while the pool is open and a worker sleeps on the queue, there are at
   least as many awake workers on their way to the queue as there are queued tasks; a worker
   asleep on its pause condition is still paused; and `active_threads` counts the workers
   that have not exited.
   */
  lemma NoLostWakeup(n: nat, acts: seq<Action>, w: nat)
    requires IsRun(Init(n), acts) && w < |After(Init(n), acts).pcs|
    ensures var s := After(Init(n), acts);
            && s.IsWorker(w)
            && (s.pcs[w] == NotifyWait ==> s.shutdown == 0 && |s.queue| <= Total(s.pcs, IS_AWAKE))
            && (s.pcs[w] == PauseWait ==> s.states[w] == Paused)
            && s.active == Total(s.pcs, IS_LIVE)
  {
    hide Step, Enabled, IsRun, After;
    InvInit(n);
    RunKeepsInv(Init(n), acts);
    assert SlotOk(After(Init(n), acts), w);
  }

  // ---------------------------------------------------------------------------
  // What shutdown freezes

  lemma ShutdownStep(s: Pool, a: Action)
    requires s.shutdown <= 2 && Enabled(s, a) && s.shutdown != 0
    ensures Step(s, a).shutdown == s.shutdown
    ensures Step(s, a).accepted == s.accepted
    ensures Step(s, a).stop == s.stop
    ensures s.shutdown == 2 ==> Step(s, a).dequeued == s.dequeued
  {
    match a {
      case Take(_) =>
      case Add(_) =>
      case Destroy(_) =>
      case Mark =>
      case Resume(_) =>
      case Terminate(_) =>
      case _ =>
    }
  }

  /**
   Once shutdown is set it never changes, no submission is accepted, no stop flag changes,
   and after a forced shutdown no task is ever started.
   */
  lemma {:induction false} ShutdownIsFinal(s: Pool, acts: seq<Action>)
    requires Inv(s) && IsRun(s, acts) && s.shutdown != 0
    ensures After(s, acts).shutdown == s.shutdown
    ensures After(s, acts).accepted == s.accepted
    ensures After(s, acts).stop == s.stop
    ensures s.shutdown == 2 ==> After(s, acts).dequeued == s.dequeued
    decreases acts
  {
    hide Step, Enabled;
    if acts != [] {
      ShutdownStep(s, acts[0]);
      KeepInv(s, acts[0]);
      ShutdownIsFinal(Step(s, acts[0]), acts[1..]);
    }
  }

  // ---------------------------------------------------------------------------
  // The single running slot and the stop flags

  /** Every accepted task that is not completed carries the stop flag `mode`. */
  ghost predicate AllToldToStop(s: Pool, mode: nat) {
    forall t: nat :: t in s.stop && t !in s.completed ==> s.stop[t] == mode
  }

  /**
   The slot that destroy reads names no task, or one that is being executed and is not yet
   freed. Destroy tells every uncompleted task to stop exactly when no worker executes a task
   other than the one in that slot.
   */
  lemma DestroyTellsAll(n: nat, acts: seq<Action>, graceful: bool)
    requires IsRun(Init(n), acts)
    requires Enabled(After(Init(n), acts), Destroy(graceful)) && After(Init(n), acts).shutdown == 0
    ensures var s := After(Init(n), acts);
            var s' := Step(s, Destroy(graceful));
            && (s.taskRunning.Some? ==> IsExecuted(s, s.taskRunning.value) && s.taskRunning.value !in s.completed)
            && (AllToldToStop(s', s'.shutdown) <==>
                forall w :: 0 <= w < |s.pcs| && s.pcs[w].Executing? ==> s.taskRunning == Some(s.pcs[w].task))
  {
    hide Inv, Enabled, Step, After, Init, IsExecuted, AllToldToStop;
    InvInit(n);
    RunKeepsInv(Init(n), acts);
    DestroyMarks(After(Init(n), acts), graceful);
  }

  /** The same for any state of the pool that satisfies the invariant. */
  lemma DestroyMarks(s: Pool, graceful: bool)
    requires Inv(s) && Enabled(s, Destroy(graceful)) && s.shutdown == 0
    ensures var s' := Step(s, Destroy(graceful));
            && (s.taskRunning.Some? ==> IsExecuted(s, s.taskRunning.value) && s.taskRunning.value !in s.completed)
            && (AllToldToStop(s', s'.shutdown) <==>
                forall w :: 0 <= w < |s.pcs| && s.pcs[w].Executing? ==> s.taskRunning == Some(s.pcs[w].task))
  {
    hide Shape, ActiveCount, Slots, Wakeups, WakeAll;
    var s' := Step(s, Destroy(graceful));
    if w :| 0 <= w < |s.pcs| && s.pcs[w].Executing? && s.taskRunning != Some(s.pcs[w].task) {
      var t := s.pcs[w].task;
      var k :| 0 <= k < |s.dequeued| && s.dequeued[k] == t;
      assert s.accepted[k] == t;
      forall i | 0 <= i < |s.queue| ensures s.queue[i] != t {
        assert s.accepted[|s.dequeued| + i] == s.queue[i];
      }
      assert s'.stop[t] == 0;
    } else {
      forall t: nat | t in s'.stop && t !in s'.completed ensures s'.stop[t] == s'.shutdown {
        assert s.accepted[t] == t;
        assert t in s.dequeued || t in s.queue;
      }
    }
  }

  ghost predicate SlotExact(s: Pool) {
    && |s.pcs| == 1
    && (s.pcs[0].Executing? ==> s.taskRunning == Some(s.pcs[0].task))
    && (s.shutdown != 0 ==> AllToldToStop(s, s.shutdown))
  }

  /** An uncompleted task is queued, or it is the one being executed. */
  lemma Uncompleted(s: Pool, t: nat)
    requires Inv(s) && |s.pcs| == 1 && s.shutdown == 0 && t in s.stop && t !in s.completed
    ensures t in s.queue || s.pcs[0] == Executing(t)
  {
    assert s.accepted[t] == t;
    assert t in s.dequeued || t in s.queue;
  }

  lemma KeepSlotNamesTask(s: Pool, a: Action)
    requires Enabled(s, a) && |s.pcs| == 1 && (s.pcs[0].Executing? ==> s.taskRunning == Some(s.pcs[0].task))
    ensures var s' := Step(s, a);
            |s'.pcs| == 1 && (s'.pcs[0].Executing? ==> s'.taskRunning == Some(s'.pcs[0].task))
  {
    if !a.Take? && !a.Finish? {
      ExecutorsFrame(s, a);
    }
  }

  /** Apart from destroy's first section, an open pool stays open and completion only grows. */
  lemma OpenStep(s: Pool, a: Action)
    requires Enabled(s, a)
    ensures s.completed <= Step(s, a).completed
    ensures !a.Destroy? ==> Step(s, a).shutdown == s.shutdown
  {
    match a {
      case Take(_) =>
      case Add(_) =>
      case Mark =>
      case Resume(_) =>
      case Terminate(_) =>
      case _ =>
    }
  }

  lemma KeepSlotExact(s: Pool, a: Action)
    requires Inv(s) && Enabled(s, a) && SlotExact(s)
    ensures SlotExact(Step(s, a))
  {
    KeepSlotNamesTask(s, a);
    OpenStep(s, a);
    if s.shutdown != 0 {
      hide Step;
      ShutdownStep(s, a);
    } else if a.Destroy? {
      var s' := Step(s, a);
      forall t: nat | t in s'.stop && t !in s'.completed ensures s'.stop[t] == s'.shutdown {
        Uncompleted(s, t);
      }
    }
  }

  lemma {:induction false} SlotExactRun(s: Pool, acts: seq<Action>)
    requires Inv(s) && SlotExact(s) && IsRun(s, acts)
    ensures SlotExact(After(s, acts))
    decreases acts
  {
    hide Step, Enabled;
    if acts != [] {
      KeepSlotExact(s, acts[0]);
      KeepInv(s, acts[0]);
      SlotExactRun(Step(s, acts[0]), acts[1..]);
    }
  }

  /** With one worker, from destroy's first section on every uncompleted task is told the mode. */
  lemma OneWorkerTellsAll(acts: seq<Action>)
    requires IsRun(Init(1), acts) && After(Init(1), acts).shutdown != 0
    ensures AllToldToStop(After(Init(1), acts), After(Init(1), acts).shutdown)
  {
    InvInit(1);
    SlotExactRun(Init(1), acts);
  }

  /** Two begun workers of an open pool, with the given program counters and queue. */
  function PairOf(pc0: Pc, pc1: Pc, queue: seq<nat>, dequeued: seq<nat>, slot: Option<nat>, stop: map<nat, nat>): Pool {
    Pool(queue, slot, 0, 2, stop, [Running, Running], [pc0, pc1], Idle, dequeued + queue, dequeued, {}, [], {})
  }

  const FLAGS: map<nat, nat> := map[0 := 0, 1 := 0]

  lemma PairBegins()
    ensures Init(2) == PairOf(Starting, Starting, [], [], None, map[])
    ensures var p := PairOf(Starting, Starting, [], [], None, map[]);
            Enabled(p, Begin(0)) && Step(p, Begin(0)) == PairOf(CheckState, Starting, [], [], None, map[])
    ensures var p := PairOf(CheckState, Starting, [], [], None, map[]);
            Enabled(p, Begin(1)) && Step(p, Begin(1)) == PairOf(CheckState, CheckState, [], [], None, map[])
  {
  }

  lemma PairChecks()
    ensures var p := PairOf(CheckState, CheckState, [], [], None, map[]);
            Enabled(p, Check(0)) && Step(p, Check(0)) == PairOf(WantTask, CheckState, [], [], None, map[])
    ensures var p := PairOf(WantTask, CheckState, [], [], None, map[]);
            Enabled(p, Check(1)) && Step(p, Check(1)) == PairOf(WantTask, WantTask, [], [], None, map[])
  {
  }

  lemma PairAdds()
    ensures var p := PairOf(WantTask, WantTask, [], [], None, map[]);
            Enabled(p, Add(None)) && Step(p, Add(None)) == PairOf(WantTask, WantTask, [0], [], None, map[0 := 0])
    ensures var p := PairOf(WantTask, WantTask, [0], [], None, map[0 := 0]);
            Enabled(p, Add(None)) && Step(p, Add(None)) == PairOf(WantTask, WantTask, [0, 1], [], None, FLAGS)
  {
  }

  lemma PairTakes()
    ensures var p := PairOf(WantTask, WantTask, [0, 1], [], None, FLAGS);
            Enabled(p, Take(0)) && Step(p, Take(0)) == PairOf(Executing(0), WantTask, [1], [0], Some(0), FLAGS)
    ensures var p := PairOf(Executing(0), WantTask, [1], [0], Some(0), FLAGS);
            Enabled(p, Take(1)) && Step(p, Take(1)) == PairOf(Executing(0), Executing(1), [], [0, 1], Some(1), FLAGS)
  {
  }

  lemma PairDestroyed()
    ensures var p := PairOf(Executing(0), Executing(1), [], [0, 1], Some(1), FLAGS);
            && Enabled(p, Destroy(true))
            && var s := Step(p, Destroy(true));
               s.shutdown == 1 && s.pcs == [Executing(0), Executing(1)] && s.stop == map[0 := 0, 1 := 1]
  {
  }

  /** With two workers a task in execution can miss the stop flag: the slot holds only the other one. */
  lemma TwoWorkersMayMissOne() returns (acts: seq<Action>)
    ensures IsRun(Init(2), acts)
    ensures var s := After(Init(2), acts);
            s.shutdown == 1 && |s.pcs| == 2 && s.pcs[0] == Executing(0) && 0 in s.stop && s.stop[0] == 0
  {
    hide Step, Enabled, IsRun, After, Init, PairOf;
    PairBegins();
    PairChecks();
    PairAdds();
    PairTakes();
    PairDestroyed();
    var last := PairOf(Executing(0), Executing(1), [], [0, 1], Some(1), FLAGS);
    acts := [Begin(0), Begin(1), Check(0), Check(1), Add(None), Add(None), Take(0), Take(1), Destroy(true)];
    Chain([PairOf(Starting, Starting, [], [], None, map[]),
           PairOf(CheckState, Starting, [], [], None, map[]),
           PairOf(CheckState, CheckState, [], [], None, map[]),
           PairOf(WantTask, CheckState, [], [], None, map[]),
           PairOf(WantTask, WantTask, [], [], None, map[]),
           PairOf(WantTask, WantTask, [0], [], None, map[0 := 0]),
           PairOf(WantTask, WantTask, [0, 1], [], None, FLAGS),
           PairOf(Executing(0), WantTask, [1], [0], Some(0), FLAGS),
           last,
           Step(last, Destroy(true))], acts);
  }

  /** A run given by its states. */
  lemma {:induction false} Chain(states: seq<Pool>, acts: seq<Action>)
    requires |states| == |acts| + 1
    requires forall i :: 0 <= i < |acts| ==> Enabled(states[i], acts[i]) && Step(states[i], acts[i]) == states[i + 1]
    ensures IsRun(states[0], acts) && After(states[0], acts) == states[|acts|]
    decreases acts
  {
    hide Step, Enabled;
    if acts != [] {
      Chain(states[1..], acts[1..]);
    }
  }

  lemma RunPrepend(s: Pool, a: Action, acts: seq<Action>)
    requires Enabled(s, a) && IsRun(Step(s, a), acts)
    ensures IsRun(s, [a] + acts) && After(s, [a] + acts) == After(Step(s, a), acts)
  {
    hide Step, Enabled;
    assert ([a] + acts)[1..] == acts;
  }

  // ---------------------------------------------------------------------------
  // How much a held worker may still start

  /** Worker `w` has begun and its slot says PAUSED or TERMINATING. */
  predicate Held(s: Pool, w: nat) {
    s.IsWorker(w) && s.pcs[w] != Starting && (s.states[w] == Paused || s.states[w] == Terminating)
  }

  predicate HeldThroughout(s: Pool, acts: seq<Action>, w: nat)
    requires IsRun(s, acts)
    decreases acts
  {
    Held(s, w) && (acts != [] ==> HeldThroughout(Step(s, acts[0]), acts[1..], w))
  }

  /** Number of tasks worker `w` takes from the queue along a run. */
  function StartsBy(s: Pool, acts: seq<Action>, w: nat): nat
    requires IsRun(s, acts)
    decreases acts
  {
    if acts == [] then 0
    else
      var s' := Step(s, acts[0]);
      (if acts[0] == Take(w) && s'.dequeued != s.dequeued then 1 else 0) + StartsBy(s', acts[1..], w)
  }

  /**
   While a begun worker is kept paused or terminating it starts at most one task, and none
   at all unless it had already passed its state test when the interval began.
   */
  lemma {:induction false} HeldWorkerStartsAtMostOne(s: Pool, acts: seq<Action>, w: nat)
    requires IsRun(s, acts) && HeldThroughout(s, acts, w)
    ensures StartsBy(s, acts, w) <= if s.pcs[w] == WantTask || s.pcs[w] == NotifyWait then 1 else 0
    decreases acts
  {
    hide Step, Enabled;
    if acts != [] {
      var s' := Step(s, acts[0]);
      HeldWorkerStartsAtMostOne(s', acts[1..], w);
      HeldStep(s, acts[0], w);
    }
  }

  lemma HeldStep(s: Pool, a: Action, w: nat)
    requires Enabled(s, a) && Held(s, w) && Held(Step(s, a), w)
    ensures var s' := Step(s, a);
            var before := s.pcs[w] == WantTask || s.pcs[w] == NotifyWait;
            var after := s'.pcs[w] == WantTask || s'.pcs[w] == NotifyWait;
            && (after ==> before)
            && (a == Take(w) && s'.dequeued != s.dequeued ==> before && !after)
  {
    OnePcMoves(s, a);
  }

  // ---------------------------------------------------------------------------
  // Destroy comes to an end

  predicate IsSystemStep(a: Action) {
    a.Begin? || a.Check? || a.Take? || a.Finish? || a.Leave? || a.Sign? || a.Mark? || a.Join? || a.Drain?
  }

  /** Steps that may put a paused worker back to its state test. */
  predicate IsWake(a: Action) {
    a.WakePause? || a.Resume? || a.Terminate?
  }

  const RANK: Pc -> nat := (pc: Pc) =>
    match pc
    case Exited => 0
    case SignOff => 1
    case LeaveLoop => 2
    case WantTask => 3
    case PauseWait => 3
    case NotifyWait => 3
    case CheckState => 4
    case Executing(_) => 5
    case Starting => 5

  function DestroyerRank(d: Destroyer, n: nat): int {
    match d
    case Idle => 0
    case Marking(k) => 2 * (n - k) + n + 2
    case Joining(k) => n - k + 1
    case Freed => 0
  }

  /** Work left for the workers and the destroying thread. */
  function Weight(s: Pool): int {
    3 * |s.queue| + Total(s.pcs, RANK) + DestroyerRank(s.destroyer, |s.pcs|)
  }

  function SystemSteps(acts: seq<Action>): nat {
    if acts == [] then 0 else (if IsSystemStep(acts[0]) then 1 else 0) + SystemSteps(acts[1..])
  }

  function Wakes(acts: seq<Action>): nat {
    if acts == [] then 0 else (if IsWake(acts[0]) then 1 else 0) + Wakes(acts[1..])
  }

  lemma RankOfMove(s: Pool, a: Action, w: nat)
    requires Shape(s) && Enabled(s, a) && s.shutdown != 0 && s.destroyer != Freed && Mover(s, a) == Some(w)
    requires NoWaiter(s.pcs)
    ensures w < |s.pcs| == |Step(s, a).pcs|
    ensures IsSystemStep(a) && !a.Mark? ==>
              3 * |Step(s, a).queue| + RANK(Step(s, a).pcs[w]) < 3 * |s.queue| + RANK(s.pcs[w])
    ensures a.Mark? || IsWake(a) ==> RANK(Step(s, a).pcs[w]) <= RANK(s.pcs[w]) + 1
    ensures !IsSystemStep(a) ==> IsWake(a)
  {
    OnePcMoves(s, a);
  }

  /** The parts of the weight that are not about a worker's program counter. */
  lemma RestOfWeight(s: Pool, a: Action)
    requires Shape(s) && Enabled(s, a) && s.shutdown != 0
    ensures |Step(s, a).pcs| == |s.pcs|
    ensures !a.Take? ==> |Step(s, a).queue| <= |s.queue|
    ensures DestroyerRank(Step(s, a).destroyer, |s.pcs|) ==
            DestroyerRank(s.destroyer, |s.pcs|)
            - (if a.Mark? && s.destroyer.next < |s.pcs| then 2 else if a.Mark? || a.Join? || a.Drain? then 1 else 0)
  {
    OnePcMoves(s, a);
  }

  lemma WeightStep(s: Pool, a: Action)
    requires Shape(s) && NoWaiter(s.pcs) && Enabled(s, a) && s.shutdown != 0
    ensures Weight(Step(s, a)) <= Weight(s)
            - (if IsSystemStep(a) then 1 else 0) + (if IsWake(a) then 1 else 0)
  {
    hide Step;
    KeepTotals(s, a, RANK);
    RestOfWeight(s, a);
    if Mover(s, a).Some? {
      RankOfMove(s, a, Mover(s, a).value);
    }
  }

  /**
   After destroy has begun, the workers and the destroying thread together take a bounded
   number of steps, whatever the other threads do: at most the weight of the state in which
   shutdown was set, plus one for every time a paused worker is woken.
   */
  lemma {:induction false} DestroyIsBounded(s: Pool, acts: seq<Action>)
    requires Inv(s) && IsRun(s, acts) && s.shutdown != 0
    ensures SystemSteps(acts) <= Weight(s) + Wakes(acts)
    decreases acts
  {
    hide Step, Enabled;
    if acts == [] {
      assert Weight(s) >= 0;
    } else {
      WeightStep(s, acts[0]);
      ShutdownStep(s, acts[0]);
      KeepInv(s, acts[0]);
      DestroyIsBounded(Step(s, acts[0]), acts[1..]);
    }
  }

  /**
   If none of them can take a step, destroy has returned, or it is joining a worker that
   sleeps on its pause condition; and that worker began only after destroy had marked it and
   was paused afterwards.
   */
  lemma DestroyStopsOnlyWhenDone(s: Pool)
    requires Inv(s) && s.shutdown != 0
    requires forall a :: IsSystemStep(a) ==> !Enabled(s, a)
    ensures s.destroyer == Freed ||
            (&& s.destroyer.Joining? && s.destroyer.next < |s.pcs|
             && s.pcs[s.destroyer.next] == PauseWait
             && s.states[s.destroyer.next] == Paused
             && s.destroyer.next in s.late)
  {
    if s.destroyer != Freed {
      assert !Enabled(s, Mark);
      assert !Enabled(s, Drain);
      assert !Enabled(s, Join);
      var w := s.destroyer.next;
      assert !Enabled(s, Begin(w));
      assert !Enabled(s, Check(w));
      assert !Enabled(s, Take(w));
      assert !Enabled(s, Finish(w));
      assert !Enabled(s, Leave(w));
      assert !Enabled(s, Sign(w));
      assert SlotOk(s, w);
    }
  }

  /** A pool of one worker that never held a task. */
  function LoneOf(pc: Pc, state: ThreadState, shutdown: nat, destroyer: Destroyer, late: set<nat>): Pool {
    Pool([], None, shutdown, 1, map[], [state], [pc], destroyer, [], [], {}, [], late)
  }

  lemma LoneDestroyed()
    ensures Init(1) == LoneOf(Starting, Running, 0, Idle, {})
    ensures var p := LoneOf(Starting, Running, 0, Idle, {});
            Enabled(p, Destroy(true)) && Step(p, Destroy(true)) == LoneOf(Starting, Running, 1, Marking(0), {})
  {
  }

  lemma LoneMarked()
    ensures var p := LoneOf(Starting, Running, 1, Marking(0), {});
            Enabled(p, Mark) && Step(p, Mark) == LoneOf(Starting, Terminating, 1, Marking(1), {})
    ensures var p := LoneOf(Starting, Terminating, 1, Marking(1), {});
            Enabled(p, Mark) && Step(p, Mark) == LoneOf(Starting, Terminating, 1, Joining(0), {})
  {
  }

  lemma LoneBegun()
    ensures var p := LoneOf(Starting, Terminating, 1, Joining(0), {});
            Enabled(p, Begin(0)) && Step(p, Begin(0)) == LoneOf(CheckState, Running, 1, Joining(0), {0})
    ensures var p := LoneOf(CheckState, Running, 1, Joining(0), {0});
            Enabled(p, Pause(0)) && Step(p, Pause(0)) == LoneOf(CheckState, Paused, 1, Joining(0), {0})
  {
  }

  lemma LoneBlocked()
    ensures var p := LoneOf(CheckState, Paused, 1, Joining(0), {0});
            Enabled(p, Check(0)) && Step(p, Check(0)) == LoneOf(PauseWait, Paused, 1, Joining(0), {0})
    ensures var p := LoneOf(PauseWait, Paused, 1, Joining(0), {0});
            p.shutdown == 1 && p.destroyer == Joining(0) && forall a :: IsSystemStep(a) ==> !Enabled(p, a)
  {
  }

  /** Such a run exists: begin after the mark, then pause; destroy then waits for a resume. */
  lemma LateWorkerMayBlockDestroy() returns (acts: seq<Action>)
    ensures IsRun(Init(1), acts)
    ensures var s := After(Init(1), acts);
            s.shutdown == 1 && s.destroyer == Joining(0) && forall a :: IsSystemStep(a) ==> !Enabled(s, a)
  {
    hide Step, Enabled, IsRun, After, Init, LoneOf;
    LoneDestroyed();
    LoneMarked();
    LoneBegun();
    LoneBlocked();
    acts := [Destroy(true), Mark, Mark, Begin(0), Pause(0), Check(0)];
    Chain([LoneOf(Starting, Running, 0, Idle, {}),
           LoneOf(Starting, Running, 1, Marking(0), {}),
           LoneOf(Starting, Terminating, 1, Marking(1), {}),
           LoneOf(Starting, Terminating, 1, Joining(0), {}),
           LoneOf(CheckState, Running, 1, Joining(0), {0}),
           LoneOf(CheckState, Paused, 1, Joining(0), {0}),
           LoneOf(PauseWait, Paused, 1, Joining(0), {0})], acts);
  }
}
