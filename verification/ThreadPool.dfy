/**
 The worker pool of userspace/linx_thread as a protocol: every critical section of
 `linx_thread_worker`, `linx_thread_pool_add_task`, `linx_thread_pool_destroy` and the
 pause/resume/terminate calls is one atomic step over an explicit pool state. A run is
 any interleaving of such steps; waits may also wake up without cause.
 */
module ThreadPool {
  import opened Basics

  /** `linx_thread_state_t` of one worker slot. */
  datatype ThreadState = Running | Paused | Terminating | Terminated

  /** Where one worker stands between two of its critical sections. */
  datatype Pc =
    | Starting                // before it stores RUNNING into its own slot
    | CheckState              // at the top of the loop, about to read its slot
    | PauseWait               // asleep on its own pause condition
    | WantTask                // about to look at the task queue
    | NotifyWait              // asleep on the pool's notify condition
    | Executing(task: nat)    // inside the task function
    | LeaveLoop               // left the loop, about to store TERMINATED
    | SignOff                 // about to decrement active_threads
    | Exited

  /** Progress of the one `destroy` call that got past its shutdown test. */
  datatype Destroyer = Idle | Marking(next: nat) | Joining(next: nat) | Freed

  /**
   The pool, plus history: `accepted`, `dequeued`, `completed` and `discarded` record
   task identities in the order of the events, `late` records the workers that stored
   RUNNING into a slot that destroy had already marked.
   */
  datatype Pool = Pool(
    queue: seq<nat>,
    taskRunning: Option<nat>,
    shutdown: nat,
    active: int,
    stop: map<nat, nat>,
    states: seq<ThreadState>,
    pcs: seq<Pc>,
    destroyer: Destroyer,
    accepted: seq<nat>,
    dequeued: seq<nat>,
    completed: set<nat>,
    discarded: seq<nat>,
    late: set<nat>
  ) {
    predicate IsWorker(w: int) {
      0 <= w < |pcs| && |states| == |pcs|
    }

    /** Destroy's marking loop has passed slot `w`. */
    predicate Marked(w: nat) {
      match destroyer
      case Idle => false
      case Marking(k) => w < k
      case Joining(_) => true
      case Freed => true
    }
  }

  datatype Action =
    // one worker's critical sections
    | Begin(w: nat) | Check(w: nat) | Take(w: nat) | Finish(w: nat) | Leave(w: nat) | Sign(w: nat)
    // wake-ups without cause
    | WakeNotify(w: nat) | WakePause(w: nat)
    // calls by other threads
    | Add(woken: Option<nat>) | Pause(i: int) | Resume(i: int) | Terminate(i: int)
    // the destroying thread
    | Destroy(graceful: bool) | Mark | Join | Drain

  function Init(n: nat): Pool {
    Pool([], None, 0, n, map[], seq(n, _ => Running), seq(n, _ => Starting), Idle, [], [], {}, [], {})
  }

  predicate NoWaiter(pcs: seq<Pc>) {
    forall w :: 0 <= w < |pcs| ==> pcs[w] != NotifyWait
  }

  /** A broadcast on the notify condition: every sleeper goes back to the queue test. */
  function WakeAll(pcs: seq<Pc>): seq<Pc> {
    seq(|pcs|, w requires 0 <= w < |pcs| => if pcs[w] == NotifyWait then WantTask else pcs[w])
  }

  predicate Enabled(s: Pool, a: Action) {
    && s.destroyer != Freed
    && |s.states| == |s.pcs|
    && match a
       case Begin(w) => s.IsWorker(w) && s.pcs[w] == Starting
       case Check(w) => s.IsWorker(w) && s.pcs[w] == CheckState
       case Take(w) => s.IsWorker(w) && s.pcs[w] == WantTask
       case Finish(w) => s.IsWorker(w) && s.pcs[w].Executing?
       case Leave(w) => s.IsWorker(w) && s.pcs[w] == LeaveLoop
       case Sign(w) => s.IsWorker(w) && s.pcs[w] == SignOff
       case WakeNotify(w) => s.IsWorker(w) && s.pcs[w] == NotifyWait
       case WakePause(w) => s.IsWorker(w) && s.pcs[w] == PauseWait
       case Add(woken) =>
         // a signal wakes a sleeper whenever there is one
         match woken {
           case None => s.shutdown != 0 || NoWaiter(s.pcs)
           case Some(w) => s.IsWorker(w) && s.pcs[w] == NotifyWait && s.shutdown == 0
         }
       case Pause(_) => true
       case Resume(_) => true
       case Terminate(_) => true
       case Destroy(_) => true
       case Mark => s.destroyer.Marking?
       case Join =>
         s.destroyer.Joining? && s.destroyer.next < |s.pcs| && s.pcs[s.destroyer.next] == Exited
       case Drain => s.destroyer.Joining? && s.destroyer.next >= |s.pcs|
  }

  function SetPc(s: Pool, w: nat, pc: Pc): Pool
    requires s.IsWorker(w)
  {
    s.(pcs := s.pcs[w := pc])
  }

  function SetState(s: Pool, w: nat, state: ThreadState): Pool
    requires s.IsWorker(w)
  {
    s.(states := s.states[w := state])
  }

  /** Signal on a worker's own pause condition. */
  function WakePaused(s: Pool, w: nat): Pool
    requires s.IsWorker(w)
  {
    if s.pcs[w] == PauseWait then SetPc(s, w, CheckState) else s
  }

  function StepBegin(s: Pool, w: nat): Pool
    requires s.IsWorker(w)
  {
    var s1 := SetPc(SetState(s, w, Running), w, CheckState);
    if s.Marked(w) then s1.(late := s.late + {w}) else s1
  }

  function StepCheck(s: Pool, w: nat): Pool
    requires s.IsWorker(w)
  {
    if s.states[w] == Paused then SetPc(s, w, PauseWait)
    else if s.states[w] == Terminating then SetPc(s, w, LeaveLoop)
    else SetPc(s, w, WantTask)
  }

  function StepTake(s: Pool, w: nat): Pool
    requires s.IsWorker(w)
  {
    if s.queue == [] && s.shutdown == 0 then SetPc(s, w, NotifyWait)
    else if s.shutdown == 2 || (s.shutdown == 1 && s.queue == []) then SetPc(s, w, LeaveLoop)
    else if s.queue == [] then SetPc(s, w, CheckState)
    else
      var t := s.queue[0];
      SetPc(s.(queue := s.queue[1..], taskRunning := Some(t), dequeued := s.dequeued + [t]), w, Executing(t))
  }

  function StepFinish(s: Pool, w: nat): Pool
    requires s.IsWorker(w) && s.pcs[w].Executing?
  {
    SetPc(s.(taskRunning := None, completed := s.completed + {s.pcs[w].task}), w, CheckState)
  }

  function StepAdd(s: Pool, woken: Option<nat>): Pool
    requires woken.Some? ==> s.IsWorker(woken.value)
  {
    if s.shutdown != 0 then s
    else
      var t := |s.accepted|;
      var s1 := s.(queue := s.queue + [t], accepted := s.accepted + [t], stop := s.stop[t := 0]);
      if woken.Some? then SetPc(s1, woken.value, WantTask) else s1
  }

  function StepPause(s: Pool, i: int): Pool {
    if s.IsWorker(i) && s.states[i] == Running then SetState(s, i, Paused) else s
  }

  function StepResume(s: Pool, i: int): Pool {
    if s.IsWorker(i) && s.states[i] == Paused then WakePaused(SetState(s, i, Running), i) else s
  }

  function StepTerminate(s: Pool, i: int): Pool {
    if s.IsWorker(i) && s.states[i] == Running then SetState(s, i, Terminating)
    else if s.IsWorker(i) && s.states[i] == Paused then SetState(WakePaused(s, i), i, Terminating)
    else s
  }

  /** `should_stop` after destroy's walk over the queue and the one running slot. */
  function MarkStops(s: Pool, mode: nat): map<nat, nat> {
    map t | t in s.stop :: if t in s.queue || s.taskRunning == Some(t) then mode else s.stop[t]
  }

  function StepDestroy(s: Pool, graceful: bool): Pool {
    if s.shutdown != 0 then s
    else
      var mode := if graceful then 1 else 2;
      s.(shutdown := mode, stop := MarkStops(s, mode), pcs := WakeAll(s.pcs), destroyer := Marking(0))
  }

  function StepMark(s: Pool): Pool
    requires s.destroyer.Marking? && |s.states| == |s.pcs|
  {
    var i := s.destroyer.next;
    if i >= |s.pcs| then s.(destroyer := Joining(0))
    else
      var s1 := s.(destroyer := Marking(i + 1));
      if s.states[i] == Terminated then s1
      else if s.states[i] == Paused then SetState(WakePaused(s1, i), i, Terminating)
      else SetState(s1, i, Terminating)
  }

  function Step(s: Pool, a: Action): Pool
    requires Enabled(s, a)
  {
    match a
    case Begin(w) => StepBegin(s, w)
    case Check(w) => StepCheck(s, w)
    case Take(w) => StepTake(s, w)
    case Finish(w) => StepFinish(s, w)
    case Leave(w) => SetPc(SetState(s, w, Terminated), w, SignOff)
    case Sign(w) => SetPc(s.(active := s.active - 1), w, Exited)
    case WakeNotify(w) => SetPc(s, w, WantTask)
    case WakePause(w) => SetPc(s, w, CheckState)
    case Add(woken) => StepAdd(s, woken)
    case Pause(i) => StepPause(s, i)
    case Resume(i) => StepResume(s, i)
    case Terminate(i) => StepTerminate(s, i)
    case Destroy(graceful) => StepDestroy(s, graceful)
    case Mark => StepMark(s)
    case Join => s.(destroyer := Joining(s.destroyer.next + 1))
    case Drain => s.(queue := [], discarded := s.queue, destroyer := Freed)
  }

  // ---------------------------------------------------------------------------
  // Runs

  predicate IsRun(s: Pool, acts: seq<Action>)
    decreases acts
  {
    acts == [] || (Enabled(s, acts[0]) && IsRun(Step(s, acts[0]), acts[1..]))
  }

  function After(s: Pool, acts: seq<Action>): Pool
    requires IsRun(s, acts)
    decreases acts
  {
    if acts == [] then s else After(Step(s, acts[0]), acts[1..])
  }

  /** Runs compose. */
  lemma {:induction false} RunJoin(s: Pool, a: seq<Action>, b: seq<Action>)
    requires IsRun(s, a)
    requires IsRun(After(s, a), b)
    ensures IsRun(s, a + b)
    ensures After(s, a + b) == After(After(s, a), b)
    decreases a
  {
    hide Step, Enabled;
    if a == [] {
      assert a + b == b;
    } else {
      assert (a + b)[1..] == a[1..] + b;
      RunJoin(Step(s, a[0]), a[1..], b);
    }
  }
}
