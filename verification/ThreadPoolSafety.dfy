/**
 What every interleaving of the thread pool keeps: the ledger of tasks, who executes what,
 the single running slot, the absence of lost wake-ups, and the effect of destroy's marks.
 */
module ThreadPoolSafety {
  import opened Basics
  import opened ThreadPool

  // ---------------------------------------------------------------------------
  // Sums over the workers' program counters

  function Total(pcs: seq<Pc>, f: Pc -> nat): nat {
    if pcs == [] then 0 else f(pcs[0]) + Total(pcs[1..], f)
  }

  lemma {:induction false} TotalUpdate(pcs: seq<Pc>, f: Pc -> nat, w: nat, pc: Pc)
    requires w < |pcs|
    ensures Total(pcs[w := pc], f) == Total(pcs, f) - f(pcs[w]) + f(pc)
    decreases pcs
  {
    if w == 0 {
      assert pcs[w := pc][1..] == pcs[1..];
    } else {
      assert pcs[w := pc][1..] == pcs[1..][w - 1 := pc];
      TotalUpdate(pcs[1..], f, w - 1, pc);
    }
  }

  lemma {:induction false} TotalSame(a: seq<Pc>, b: seq<Pc>, f: Pc -> nat)
    requires |a| == |b|
    requires forall w :: 0 <= w < |a| ==> f(a[w]) == f(b[w])
    ensures Total(a, f) == Total(b, f)
    decreases a
  {
    if a != [] {
      TotalSame(a[1..], b[1..], f);
    }
  }

  const IS_LIVE: Pc -> nat := (pc: Pc) => if pc != Exited then 1 else 0
  const IS_AWAKE: Pc -> nat := (pc: Pc) => if pc == WantTask then 1 else 0

  // ---------------------------------------------------------------------------
  // The invariant, in five parts

  ghost predicate Shape(s: Pool) {
    && |s.states| == |s.pcs|
    && s.shutdown <= 2
    && (s.destroyer.Idle? <==> s.shutdown == 0)
    && (s.destroyer.Marking? ==> s.destroyer.next <= |s.pcs|)
    && (s.destroyer.Joining? ==> s.destroyer.next <= |s.pcs|)
    && (s.destroyer.Joining? ==> forall w :: 0 <= w < s.destroyer.next ==> s.pcs[w] == Exited)
    && (s.destroyer.Freed? ==> forall w :: 0 <= w < |s.pcs| ==> s.pcs[w] == Exited)
  }

  ghost predicate ActiveCount(s: Pool) {
    s.active == Total(s.pcs, IS_LIVE)
  }

  /** Submission order is dequeue order, then the queue, then what destroy threw away. */
  ghost predicate Ledger(s: Pool) {
    && (forall i :: 0 <= i < |s.accepted| ==> s.accepted[i] == i)
    && s.accepted == s.dequeued + s.queue + s.discarded
    && (s.discarded != [] ==> s.queue == [] && s.destroyer.Freed?)
    && (forall t: nat :: t in s.stop <==> t < |s.accepted|)
    && (s.shutdown == 0 ==> forall t :: t in s.stop ==> s.stop[t] == 0)
  }

  ghost predicate Executors(s: Pool) {
    && (forall w :: 0 <= w < |s.pcs| && s.pcs[w].Executing? ==>
          s.pcs[w].task in s.dequeued && s.pcs[w].task !in s.completed)
    && (forall w, v :: 0 <= w < v < |s.pcs| && s.pcs[w].Executing? && s.pcs[v].Executing? ==>
          s.pcs[w].task != s.pcs[v].task)
    && (forall t :: t in s.dequeued && t !in s.completed ==> IsExecuted(s, t))
    && (forall t :: t in s.completed ==> t in s.dequeued)
    && (s.taskRunning.Some? ==> IsExecuted(s, s.taskRunning.value))
  }

  ghost predicate IsExecuted(s: Pool, t: nat) {
    exists w :: 0 <= w < |s.pcs| && s.pcs[w] == Executing(t)
  }

  /** What holds of one worker slot by itself. */
  ghost predicate SlotOk(s: Pool, w: nat)
    requires s.IsWorker(w)
  {
    // a worker asleep on its pause condition is paused: no resume or terminate is missed
    && (s.pcs[w] == PauseWait ==> s.states[w] == Paused)
    && (s.states[w] == Terminated <==> (s.pcs[w] == SignOff || s.pcs[w] == Exited))
    // destroy's mark sticks, except on a worker that began after it
    && (s.Marked(w) && w !in s.late && s.pcs[w] != Starting ==>
          s.states[w] == Terminating || s.states[w] == Terminated)
    && (w in s.late ==> s.pcs[w] != Starting && s.Marked(w))
  }

  ghost predicate Slots(s: Pool) {
    && |s.states| == |s.pcs|
    && (forall w: nat :: w < |s.pcs| ==> SlotOk(s, w))
    && (forall w: nat :: w in s.late ==> w < |s.pcs|)
  }

  ghost predicate Wakeups(s: Pool) {
    && (s.shutdown != 0 ==> NoWaiter(s.pcs))
    // no lost wake-up: while somebody sleeps, each queued task has its own awake worker
    && (!NoWaiter(s.pcs) ==> |s.queue| <= Total(s.pcs, IS_AWAKE))
  }

  ghost predicate Inv(s: Pool) {
    Shape(s) && ActiveCount(s) && Ledger(s) && Executors(s) && Slots(s) && Wakeups(s)
  }

  lemma {:induction false} TotalAll(n: nat, pc: Pc, f: Pc -> nat)
    ensures Total(seq(n, _ => pc), f) == n * f(pc)
  {
    if n > 0 {
      assert seq(n, _ => pc)[1..] == seq(n - 1, _ => pc);
      TotalAll(n - 1, pc, f);
    }
  }

  lemma InvInit(n: nat)
    ensures Inv(Init(n))
  {
    TotalAll(n, Starting, IS_LIVE);
  }

  // ---------------------------------------------------------------------------
  // Preservation, part by part

  /** The worker whose program counter the step rewrites, if the step is about one worker. */
  function Mover(s: Pool, a: Action): Option<nat> {
    match a
    case Begin(w) => Some(w)
    case Check(w) => Some(w)
    case Take(w) => Some(w)
    case Finish(w) => Some(w)
    case Leave(w) => Some(w)
    case Sign(w) => Some(w)
    case WakeNotify(w) => Some(w)
    case WakePause(w) => Some(w)
    case Add(woken) => if s.shutdown == 0 then woken else None
    case Pause(_) => None
    case Resume(i) => if s.IsWorker(i) then Some(i) else None
    case Terminate(i) => if s.IsWorker(i) then Some(i) else None
    case Destroy(_) => None
    case Mark => if s.destroyer.Marking? && s.destroyer.next < |s.pcs| then Some(s.destroyer.next) else None
    case Join => None
    case Drain => None
  }

  /** Apart from destroy's broadcast, a step rewrites at most one program counter. */
  lemma OnePcMoves(s: Pool, a: Action)
    requires Enabled(s, a)
    ensures |Step(s, a).pcs| == |s.pcs| == |Step(s, a).states|
    ensures Mover(s, a).Some? ==>
              var w := Mover(s, a).value; w < |s.pcs| && Step(s, a).pcs == s.pcs[w := Step(s, a).pcs[w]]
    ensures Mover(s, a).None? && !a.Destroy? ==> Step(s, a).pcs == s.pcs
    ensures a.Destroy? ==> Step(s, a).pcs == if s.shutdown == 0 then WakeAll(s.pcs) else s.pcs
  {
    match a {
      case Begin(_) =>
      case Check(_) =>
      case Take(_) =>
      case Add(_) =>
      case Resume(_) =>
      case Terminate(_) =>
      case Destroy(_) =>
      case Mark =>
      case _ =>
    }
  }

  lemma KeepTotals(s: Pool, a: Action, f: Pc -> nat)
    requires Enabled(s, a)
    requires a.Destroy? ==> f(NotifyWait) == f(WantTask)
    ensures var w := Mover(s, a);
            && (w.Some? ==> w.value < |s.pcs| && |Step(s, a).pcs| == |s.pcs|)
            && Total(Step(s, a).pcs, f) == Total(s.pcs, f)
               - (if w.Some? then f(s.pcs[w.value]) else 0)
               + (if w.Some? then f(Step(s, a).pcs[w.value]) else 0)
  {
    hide Step, Enabled, Mover;
    OnePcMoves(s, a);
    var w := Mover(s, a);
    if w.Some? {
      TotalUpdate(s.pcs, f, w.value, Step(s, a).pcs[w.value]);
    } else if a.Destroy? {
      TotalSame(s.pcs, Step(s, a).pcs, f);
    }
  }

  lemma ExitedStays(s: Pool, a: Action, w: nat)
    requires Enabled(s, a) && w < |s.pcs| && s.pcs[w] == Exited
    ensures |Step(s, a).pcs| == |s.pcs| && Step(s, a).pcs[w] == Exited
  {
    OnePcMoves(s, a);
  }

  /** How the destroying thread advances. */
  lemma KeepDestroyer(s: Pool, a: Action)
    requires Enabled(s, a) && |s.states| == |s.pcs| && s.shutdown <= 2 && (s.destroyer.Idle? <==> s.shutdown == 0)
    ensures var s' := Step(s, a);
            && s'.shutdown <= 2 && (s'.destroyer.Idle? <==> s'.shutdown == 0)
            && (s'.destroyer == s.destroyer
                || s'.destroyer == Marking(0)
                || (s'.destroyer.Marking? && s.destroyer.Marking? && s.destroyer.next < |s.pcs|
                    && s'.destroyer.next == s.destroyer.next + 1)
                || s'.destroyer == Joining(0)
                || (s'.destroyer.Joining? && s.destroyer.Joining? && s'.destroyer.next == s.destroyer.next + 1
                    && s.destroyer.next < |s.pcs| && s.pcs[s.destroyer.next] == Exited)
                || (s'.destroyer == Freed && s.destroyer.Joining? && s.destroyer.next >= |s.pcs|))
  {
    match a {
      case Take(_) =>
      case Add(_) =>
      case Destroy(_) =>
      case Mark =>
      case Resume(_) =>
      case Terminate(_) =>
      case _ =>
    }
  }

  lemma KeepShape(s: Pool, a: Action)
    requires Shape(s) && Enabled(s, a)
    ensures Shape(Step(s, a))
  {
    OnePcMoves(s, a);
    KeepDestroyer(s, a);
    hide Step, Enabled;
    forall w: nat | w < |s.pcs| && s.pcs[w] == Exited
      ensures Step(s, a).pcs[w] == Exited
    {
      ExitedStays(s, a, w);
    }
  }

  lemma KeepActiveCount(s: Pool, a: Action)
    requires ActiveCount(s) && Enabled(s, a)
    ensures ActiveCount(Step(s, a))
  {
    KeepTotals(s, a, IS_LIVE);
    ActiveFollows(s, a);
    hide Step, Enabled, Mover;
  }

  /** The counter moves with the worker that moves. */
  lemma ActiveFollows(s: Pool, a: Action)
    requires Enabled(s, a)
    ensures var s', w := Step(s, a), Mover(s, a);
            && (w.Some? ==> w.value < |s.pcs| && |s'.pcs| == |s.pcs|)
            && s'.active == s.active
               - (if w.Some? then IS_LIVE(s.pcs[w.value]) else 0)
               + (if w.Some? then IS_LIVE(s'.pcs[w.value]) else 0)
  {
    OnePcMoves(s, a);
    match a {
      case Begin(w) => case Check(w) => case Take(w) => case Finish(w) => case Leave(w) => case Sign(w) =>
      case WakeNotify(w) => case WakePause(w) => case Add(woken) =>
      case Pause(i) => case Resume(i) => case Terminate(i) =>
      case Destroy(graceful) => case Mark => case Join => case Drain =>
    }
  }

  /** Only submitting, dequeuing, destroying and draining touch the ledger. */
  lemma LedgerFrame(s: Pool, a: Action)
    requires Enabled(s, a)
    requires !a.Take? && !a.Add? && !a.Drain? && !a.Destroy?
    ensures var s' := Step(s, a);
            && s'.accepted == s.accepted && s'.dequeued == s.dequeued && s'.queue == s.queue
            && s'.discarded == s.discarded && s'.stop == s.stop && s'.shutdown == s.shutdown
  {
    match a {
      case Begin(_) =>
      case Check(_) =>
      case Resume(_) =>
      case Terminate(_) =>
      case Mark =>
      case _ =>
    }
  }

  lemma KeepLedger(s: Pool, a: Action)
    requires Shape(s) && Ledger(s) && Enabled(s, a)
    ensures Ledger(Step(s, a))
  {
    var s' := Step(s, a);
    match a {
      case Take(w) =>
        assert s'.dequeued + s'.queue == s.dequeued + s.queue;
      case Add(_) =>
        if s.shutdown == 0 {
          assert s.accepted + [|s.accepted|] == s.dequeued + (s.queue + [|s.accepted|]);
        }
      case Destroy(_) =>
      case Drain =>
        assert s.dequeued + s.queue == s.dequeued + [] + s.queue;
      case _ =>
        LedgerFrame(s, a);
        KeepDestroyer(s, a);
        hide Step;
    }
  }

  /** Nothing else starts or ends the execution of a task. */
  lemma ExecutorsFrame(s: Pool, a: Action)
    requires Enabled(s, a) && !a.Take? && !a.Finish?
    ensures var s' := Step(s, a);
            && s'.dequeued == s.dequeued && s'.completed == s.completed && s'.taskRunning == s.taskRunning
            && |s'.pcs| == |s.pcs|
            && forall w :: 0 <= w < |s.pcs| ==> s'.pcs[w] == s.pcs[w] || (!s'.pcs[w].Executing? && !s.pcs[w].Executing?)
  {
    match a {
      case Begin(_) =>
      case Check(_) =>
      case Add(_) =>
      case Resume(_) =>
      case Terminate(_) =>
      case Destroy(_) =>
      case Mark =>
      case _ =>
    }
  }

  lemma KeepExecutors(s: Pool, a: Action)
    requires Shape(s) && Ledger(s) && Executors(s) && Enabled(s, a)
    ensures Executors(Step(s, a))
  {
    var s' := Step(s, a);
    if !a.Take? && !a.Finish? {
      ExecutorsFrame(s, a);
    }
    // every task that was being executed still is, unless this step finishes it
    forall t | IsExecuted(s, t) && (a.Finish? ==> s.pcs[a.w] != Executing(t))
      ensures IsExecuted(s', t)
    {
      var w :| 0 <= w < |s.pcs| && s.pcs[w] == Executing(t);
      assert s'.pcs[w] == Executing(t);
    }
    if a.Take? && s'.queue != s.queue {
      var t := s.queue[0];
      assert s.accepted[|s.dequeued|] == t;
      assert t !in s.dequeued by {
        forall i | 0 <= i < |s.dequeued| ensures s.dequeued[i] != t {
          assert s.accepted[i] == s.dequeued[i];
        }
      }
      assert s'.pcs[a.w] == Executing(t);
    }
  }

  /** The worker slot a step is about: its mover, or the slot a pause call names. */
  predicate Concerns(s: Pool, a: Action, w: nat) {
    Mover(s, a) == Some(w) || (a.Pause? && a.i == w)
  }

  lemma SlotFrame(s: Pool, a: Action, w: nat)
    requires s.IsWorker(w) && Enabled(s, a) && !Concerns(s, a, w)
    ensures var s' := Step(s, a);
            && s'.IsWorker(w) && s'.states[w] == s.states[w]
            && (s'.pcs[w] == s.pcs[w] || (s.pcs[w] == NotifyWait && s'.pcs[w] == WantTask))
            && (w in s'.late <==> w in s.late)
  {
    match a {
      case Begin(_) =>
      case Check(_) =>
      case Take(_) =>
      case Add(_) =>
      case Resume(_) =>
      case Terminate(_) =>
      case Destroy(_) =>
      case Mark =>
      case _ =>
    }
  }

  lemma MarkedFrame(s: Pool, a: Action, w: nat)
    requires Shape(s) && s.IsWorker(w) && Enabled(s, a)
    ensures s.Marked(w) ==> Step(s, a).Marked(w)
    ensures Step(s, a).Marked(w) && !s.Marked(w) ==> a == Mark && Mover(s, a) == Some(w)
  {
  }

  lemma KeepOwnSlot(s: Pool, a: Action, w: nat)
    requires Shape(s) && s.IsWorker(w) && SlotOk(s, w) && Enabled(s, a) && Concerns(s, a, w)
    ensures Step(s, a).IsWorker(w) && SlotOk(Step(s, a), w)
  {
    var s' := Step(s, a);
    MarkedFrame(s, a, w);
    match a {
      case Begin(_) =>
      case Check(_) =>
      case Take(_) => assert s'.pcs[w] in {NotifyWait, LeaveLoop, CheckState} || s'.pcs[w].Executing?;
      case Resume(_) =>
      case Terminate(_) =>
      case Mark =>
      case _ =>
    }
  }

  lemma KeepSlot(s: Pool, a: Action, w: nat)
    requires Shape(s) && s.IsWorker(w) && SlotOk(s, w) && Enabled(s, a)
    ensures Step(s, a).IsWorker(w) && SlotOk(Step(s, a), w)
  {
    hide Step, Enabled;
    if Concerns(s, a, w) {
      KeepOwnSlot(s, a, w);
    } else {
      SlotFrame(s, a, w);
      MarkedFrame(s, a, w);
    }
  }

  lemma KeepSlots(s: Pool, a: Action)
    requires Shape(s) && Slots(s) && Enabled(s, a)
    ensures Slots(Step(s, a))
  {
    OnePcMoves(s, a);
    forall w: nat | w < |s.pcs| ensures SlotOk(Step(s, a), w) {
      assert SlotOk(s, w);
      KeepSlot(s, a, w);
    }
  }

  /** Only a worker that finds the queue empty in an open pool goes to sleep on it. */
  lemma NewSleeper(s: Pool, a: Action)
    requires Enabled(s, a) && NoWaiter(s.pcs) && !NoWaiter(Step(s, a).pcs)
    ensures s.shutdown == 0 && Step(s, a).queue == [] && Step(s, a).shutdown == 0
  {
    OnePcMoves(s, a);
  }

  lemma ShutdownWakes(s: Pool, a: Action)
    requires Enabled(s, a) && Step(s, a).shutdown != 0
    requires s.shutdown != 0 ==> NoWaiter(s.pcs)
    ensures NoWaiter(Step(s, a).pcs)
  {
    if a.Destroy? {
      OnePcMoves(s, a);
    } else if !NoWaiter(Step(s, a).pcs) {
      NewSleeper(s, a);
    }
  }

  /** How one step of an open pool moves the queue length against the awake workers. */
  lemma AwakeMove(s: Pool, a: Action)
    requires Enabled(s, a) && !a.Destroy? && s.shutdown == 0 && Step(s, a).queue != []
    requires !NoWaiter(s.pcs)
    ensures var w := Mover(s, a);
            && (w.Some? ==> w.value < |s.pcs| == |Step(s, a).pcs|)
            && |Step(s, a).queue| <= |s.queue|
               - (if w.Some? then IS_AWAKE(s.pcs[w.value]) else 0)
               + (if w.Some? then IS_AWAKE(Step(s, a).pcs[w.value]) else 0)
  {
    match a {
      case Begin(_) =>
      case Check(_) =>
      case Take(_) =>
      case Add(_) =>
      case Resume(_) =>
      case Terminate(_) =>
      case Drain =>
      case Mark =>
      case _ =>
    }
  }

  lemma AwakeCovers(s: Pool, a: Action)
    requires Enabled(s, a) && !a.Destroy? && s.shutdown == 0
    requires !NoWaiter(s.pcs) && |s.queue| <= Total(s.pcs, IS_AWAKE)
    ensures |Step(s, a).queue| <= Total(Step(s, a).pcs, IS_AWAKE) || Step(s, a).queue == []
  {
    hide Step, Enabled, Mover;
    if Step(s, a).queue != [] {
      AwakeMove(s, a);
    }
    KeepTotals(s, a, IS_AWAKE);
  }

  lemma KeepWakeups(s: Pool, a: Action)
    requires Shape(s) && Wakeups(s) && Enabled(s, a)
    ensures Wakeups(Step(s, a))
  {
    if Step(s, a).shutdown != 0 {
      ShutdownWakes(s, a);
    } else if !NoWaiter(s.pcs) {
      AwakeCovers(s, a);
    } else if !NoWaiter(Step(s, a).pcs) {
      NewSleeper(s, a);
    }
  }

  lemma KeepInv(s: Pool, a: Action)
    requires Inv(s) && Enabled(s, a)
    ensures Inv(Step(s, a))
  {
    hide Step, Enabled, Shape, ActiveCount, Ledger, Executors, Slots, Wakeups;
    KeepShape(s, a);
    KeepActiveCount(s, a);
    KeepLedger(s, a);
    KeepExecutors(s, a);
    KeepSlots(s, a);
    KeepWakeups(s, a);
  }

  lemma {:induction false} RunKeepsInv(s: Pool, acts: seq<Action>)
    requires Inv(s) && IsRun(s, acts)
    ensures Inv(After(s, acts))
    decreases acts
  {
    hide Inv, Step, Enabled;
    if acts != [] {
      KeepInv(s, acts[0]);
      RunKeepsInv(Step(s, acts[0]), acts[1..]);
    }
  }
}
