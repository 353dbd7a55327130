/**
 The log as a task of its own thread pool (`linx_log_init`, `linx_log_deinit`): one worker, one
 task, whose function is the consumer loop and whose stop flag is the one the loop reads. The
 question is what destroying the pool does to the messages.
 */
module LogService {
  import opened Basics
  import P = ThreadPool
  import S = ThreadPoolSafety
  import T = ThreadPoolTheorems
  import L = LogQueue

  datatype Service = Service(pool: P.Pool, log: L.Log)

  datatype Action = OfPool(pool: P.Action) | OfLog(log: L.Action)

  /** The stop flag of the log's task. */
  function Told(pool: P.Pool): nat {
    if 0 in pool.stop then pool.stop[0] else 0
  }

  /** The worker is inside the consumer loop. */
  predicate Consuming(pool: P.Pool) {
    |pool.pcs| == 1 && pool.pcs[0] == P.Executing(0)
  }

  /**
   Nobody else submits to the pool. The consumer runs only inside its task, the task ends only
   when the loop has, and messages may come in until the pool is gone.
   */
  predicate Enabled(s: Service, a: Action) {
    match a
    case OfPool(b) => P.Enabled(s.pool, b) && !b.Add? && (b.Finish? ==> s.log.pc.Stopped?)
    case OfLog(b) =>
      s.pool.destroyer != P.Freed && L.Enabled(s.log, b) && !b.Request? && (b.Submit? || Consuming(s.pool))
  }

  function Step(s: Service, a: Action): Service
    requires Enabled(s, a)
  {
    match a
    case OfPool(b) =>
      var pool := P.Step(s.pool, b);
      Service(pool, s.log.(stop := Told(pool)))
    case OfLog(b) => s.(log := L.Step(s.log, b))
  }

  /** After `linx_log_init`: the pool holds the log's task. */
  function Start(level: nat): Service {
    Service(P.StepAdd(P.Init(1), None), L.Start(level))
  }

  predicate IsRun(s: Service, actions: seq<Action>)
    decreases actions
  {
    actions == [] || (Enabled(s, actions[0]) && IsRun(Step(s, actions[0]), actions[1..]))
  }

  function After(s: Service, actions: seq<Action>): Service
    requires IsRun(s, actions)
    decreases actions
  {
    if actions == [] then s else After(Step(s, actions[0]), actions[1..])
  }

  // ---------------------------------------------------------------------------
  // What ties the two machines together

  ghost predicate OneTask(pool: P.Pool) {
    && S.Inv(pool) && |pool.pcs| == 1 && pool.accepted == [0]
    && (pool.destroyer.Freed? ==> pool.queue == [])
    && (Told(pool) == 0 || Told(pool) == pool.shutdown)
  }

  ghost predicate Tied(s: Service) {
    && s.log.stop == Told(s.pool)
    && (0 !in s.pool.dequeued ==> s.log.pc == L.Popping && s.log.written == [] && s.log.seen == [])
    && (0 in s.pool.completed ==> s.log.pc.Stopped?)
  }

  ghost predicate Inv(s: Service) {
    OneTask(s.pool) && L.Inv(s.log) && Tied(s)
  }

  lemma InvStart(level: nat)
    ensures Inv(Start(level))
  {
    hide S.Inv;
    S.InvInit(1);
    S.KeepInv(P.Init(1), P.Add(None));
    StartPool();
    LogStart(level);
    hide P.Init, P.StepAdd, P.Step, P.Enabled, L.Inv;
  }

  lemma StartPool()
    ensures P.Enabled(P.Init(1), P.Add(None)) && P.Step(P.Init(1), P.Add(None)) == P.StepAdd(P.Init(1), None)
    ensures var pool := P.StepAdd(P.Init(1), None);
            && |pool.pcs| == 1 && pool.accepted == [0] && pool.destroyer == P.Idle && Told(pool) == 0
            && pool.dequeued == [] && pool.completed == {}
  {
  }

  lemma LogStart(level: nat)
    ensures L.Inv(L.Start(level))
  {
  }

  /** The pool's side of a step: the flag changes at most once, from 0 to the mode. */
  lemma KeepOneTask(pool: P.Pool, a: P.Action)
    requires OneTask(pool) && P.Enabled(pool, a) && !a.Add?
    ensures OneTask(P.Step(pool, a))
    ensures var next := P.Step(pool, a);
            && (Told(next) == Told(pool) || (Told(pool) == 0 && Told(next) in {1, 2}))
            && (0 in pool.dequeued ==> 0 in next.dequeued)
            && (0 in next.completed ==> 0 in pool.completed || a.Finish?)
  {
    S.KeepInv(pool, a);
    S.OnePcMoves(pool, a);
    if a.Destroy? {
      DestroyTells(pool, a);
    } else {
      OthersTellNothing(pool, a);
    }
    FinishCompletes(pool, a);
    hide P.Step, P.Enabled, S.Inv;
  }

  lemma DestroyTells(pool: P.Pool, a: P.Action)
    requires OneTask(pool) && P.Enabled(pool, a) && a.Destroy?
    ensures var next := P.Step(pool, a);
            && next.accepted == pool.accepted && (next.destroyer.Freed? ==> next.queue == [])
            && (Told(next) == 0 || Told(next) == next.shutdown)
            && (Told(next) == Told(pool) || (Told(pool) == 0 && Told(next) in {1, 2}))
  {
    if pool.shutdown == 0 {
      assert 0 in pool.stop ==> pool.stop[0] == 0;
    }
  }

  lemma OthersTellNothing(pool: P.Pool, a: P.Action)
    requires P.Enabled(pool, a) && !a.Add? && !a.Destroy?
    ensures var next := P.Step(pool, a);
            && next.stop == pool.stop && next.shutdown == pool.shutdown
            && next.accepted == pool.accepted && (next.destroyer.Freed? ==> next.queue == [])
  {
    if !a.Take? && !a.Drain? {
      S.LedgerFrame(pool, a);
    }
    if !a.Drain? {
      NotFreed(pool, a);
    }
  }

  lemma NotFreed(pool: P.Pool, a: P.Action)
    requires P.Enabled(pool, a) && !a.Drain?
    ensures P.Step(pool, a).destroyer != P.Freed
  {
  }

  lemma FinishCompletes(pool: P.Pool, a: P.Action)
    requires P.Enabled(pool, a)
    ensures var next := P.Step(pool, a);
            && (0 in pool.dequeued ==> 0 in next.dequeued)
            && (0 in next.completed ==> 0 in pool.completed || a.Finish?)
  {
  }

  lemma StepKeepsInv(s: Service, a: Action)
    requires Inv(s) && Enabled(s, a)
    ensures Inv(Step(s, a))
  {
    match a {
      case OfPool(b) =>
        hide P.Step, P.Enabled, L.Inv, L.Step, OneTask, Told;
        KeepOneTask(s.pool, b);
        StopKeepsInv(s.log, Told(P.Step(s.pool, b)));
      case OfLog(b) =>
        L.StepKeepsInv(s.log, b);
        if !b.Submit? {
          ConsumerIsDequeued(s.pool);
        }
        hide P.Step, P.Enabled, L.Inv, OneTask, Told;
    }
  }

  /** Setting the flag is the log's own step, or none. */
  lemma StopKeepsInv(log: L.Log, stop: nat)
    requires L.Inv(log) && (stop == log.stop || (log.stop == 0 && stop in {1, 2}))
    ensures L.Inv(log.(stop := stop))
  {
    if stop != log.stop {
      L.StepKeepsInv(log, L.Request(stop));
      assert L.Step(log, L.Request(stop)) == log.(stop := stop);
    }
    hide L.Inv;
  }

  lemma ConsumerIsDequeued(pool: P.Pool)
    requires OneTask(pool) && Consuming(pool)
    ensures 0 in pool.dequeued && 0 !in pool.completed
  {
  }

  lemma {:induction false} RunKeepsInv(s: Service, actions: seq<Action>)
    requires Inv(s) && IsRun(s, actions)
    ensures Inv(After(s, actions))
    decreases actions
  {
    hide Step, Enabled, Inv;
    if actions != [] {
      StepKeepsInv(s, actions[0]);
      RunKeepsInv(Step(s, actions[0]), actions[1..]);
    }
  }

  // ---------------------------------------------------------------------------
  // What deinitialisation does to the messages

  /**
   Once destroy has returned, in every interleaving of loggers, worker and destroyer: the
   consumer loop has ended exactly when the log's task was taken from the pool's queue. If it
   was, a graceful destroy leaves exactly the messages accepted by the last pop written; if it
   was not, no message was written at all, and all accepted ones are still in the queue.
   */
  lemma MessagesAfterDeinit(level: nat, actions: seq<Action>)
    requires IsRun(Start(level), actions) && After(Start(level), actions).pool.destroyer == P.Freed
    ensures var s := After(Start(level), actions);
            && (0 in s.pool.dequeued <==> s.log.pc.Stopped?)
            && (0 in s.pool.dequeued && s.pool.shutdown == 1 ==>
                  s.log.written == s.log.seen && s.log.accepted == s.log.seen + s.log.queue)
            && (0 !in s.pool.dequeued ==>
                  s.pool.discarded == [0] && s.log.written == [] && s.log.queue == s.log.accepted)
  {
    hide Step, Enabled;
    InvStart(level);
    RunKeepsInv(Start(level), actions);
    AllIsOver(After(Start(level), actions));
    hide IsRun, After, Start, Inv;
  }

  lemma AllIsOver(s: Service)
    requires Inv(s) && s.pool.destroyer == P.Freed
    ensures 0 in s.pool.dequeued <==> s.log.pc.Stopped?
    ensures 0 in s.pool.dequeued && s.pool.shutdown == 1 ==>
              s.log.written == s.log.seen && s.log.accepted == s.log.seen + s.log.queue
    ensures 0 !in s.pool.dequeued ==>
              s.pool.discarded == [0] && s.log.written == [] && s.log.queue == s.log.accepted
  {
    var pool := s.pool;
    assert !S.IsExecuted(pool, 0);
    if 0 !in pool.dequeued {
      assert pool.accepted[0] in pool.dequeued + pool.queue + pool.discarded;
      assert |pool.dequeued + pool.queue + pool.discarded| == 1;
    }
  }

  // ---------------------------------------------------------------------------
  // All messages may be lost

  /** The one worker stands here, destroy there; the log's task is queued and so is the one message. */
  ghost predicate Standing(s: Service, msg: L.Message, pc: P.Pc, state: P.ThreadState, destroyer: P.Destroyer) {
    && s.pool.pcs == [pc] && s.pool.states == [state] && s.pool.destroyer == destroyer
    && (s.pool.shutdown == if destroyer == P.Idle then 0 else 1)
    && s.pool.queue == [0] && s.pool.dequeued == []
    && s.log.accepted == [msg] && s.log.queue == [msg]
  }

  /** The steps of a worker that is marked before it has passed its state test, and of destroy. */
  predicate Leads(a: P.Action, pc: P.Pc, state: P.ThreadState, destroyer: P.Destroyer,
                  nextPc: P.Pc, nextState: P.ThreadState, nextDestroyer: P.Destroyer) {
    match a
    case Begin(0) => (pc, state, destroyer) == (P.Starting, P.Running, P.Idle)
                     && (nextPc, nextState, nextDestroyer) == (P.CheckState, P.Running, P.Idle)
    case Destroy(true) => (pc, state, destroyer) == (P.CheckState, P.Running, P.Idle)
                          && (nextPc, nextState, nextDestroyer) == (P.CheckState, P.Running, P.Marking(0))
    case Mark => pc == nextPc == P.CheckState && nextState == P.Terminating
                 && ((state == P.Running && destroyer == P.Marking(0) && nextDestroyer == P.Marking(1))
                     || (state == P.Terminating && destroyer == P.Marking(1) && nextDestroyer == P.Joining(0)))
    case Check(0) => (pc, state, destroyer) == (P.CheckState, P.Terminating, P.Joining(0))
                     && (nextPc, nextState, nextDestroyer) == (P.LeaveLoop, P.Terminating, P.Joining(0))
    case Leave(0) => (pc, state, destroyer) == (P.LeaveLoop, P.Terminating, P.Joining(0))
                     && (nextPc, nextState, nextDestroyer) == (P.SignOff, P.Terminated, P.Joining(0))
    case Sign(0) => (pc, state, destroyer) == (P.SignOff, P.Terminated, P.Joining(0))
                    && (nextPc, nextState, nextDestroyer) == (P.Exited, P.Terminated, P.Joining(0))
    case Join => (pc, state, destroyer) == (P.Exited, P.Terminated, P.Joining(0))
                 && (nextPc, nextState, nextDestroyer) == (P.Exited, P.Terminated, P.Joining(1))
    case _ => false
  }

  lemma LeadsOn(s: Service, msg: L.Message, a: P.Action, pc: P.Pc, state: P.ThreadState, destroyer: P.Destroyer,
                nextPc: P.Pc, nextState: P.ThreadState, nextDestroyer: P.Destroyer)
    requires Standing(s, msg, pc, state, destroyer) && Leads(a, pc, state, destroyer, nextPc, nextState, nextDestroyer)
    ensures Enabled(s, OfPool(a)) && Standing(Step(s, OfPool(a)), msg, nextPc, nextState, nextDestroyer)
  {
  }

  lemma {:induction false} OneMore(s: Service, actions: seq<Action>, a: Action)
    requires IsRun(s, actions) && Enabled(After(s, actions), a)
    ensures IsRun(s, actions + [a]) && After(s, actions + [a]) == Step(After(s, actions), a)
    decreases actions
  {
    hide Step, Enabled;
    if actions == [] {
      assert actions + [a] == [a];
      assert [a][1..] == [];
    } else {
      assert (actions + [a])[1..] == actions[1..] + [a];
      OneMore(Step(s, actions[0]), actions[1..], a);
    }
  }

  /** One more step of the run, from one of those states to the next. */
  lemma GoOn(start: Service, before: seq<Action>, msg: L.Message, a: P.Action, pc: P.Pc, state: P.ThreadState,
             destroyer: P.Destroyer, nextPc: P.Pc, nextState: P.ThreadState, nextDestroyer: P.Destroyer)
      returns (actions: seq<Action>)
    requires IsRun(start, before) && Standing(After(start, before), msg, pc, state, destroyer)
    requires Leads(a, pc, state, destroyer, nextPc, nextState, nextDestroyer)
    ensures IsRun(start, actions) && Standing(After(start, actions), msg, nextPc, nextState, nextDestroyer)
  {
    hide Step, Enabled, IsRun, After, Standing, Leads;
    LeadsOn(After(start, before), msg, a, pc, state, destroyer, nextPc, nextState, nextDestroyer);
    OneMore(start, before, OfPool(a));
    actions := before + [OfPool(a)];
  }

  /** The first message is accepted before the worker has begun. */
  lemma FirstMessage(msg: L.Message)
    ensures var a := OfLog(L.Submit(msg, true));
            && IsRun(Start(msg.level), [a])
            && Standing(After(Start(msg.level), [a]), msg, P.Starting, P.Running, P.Idle)
  {
    var s := Start(msg.level);
    var a := OfLog(L.Submit(msg, true));
    StartState(msg.level);
    assert Enabled(s, a);
    assert [] + [a] == [a];
    OneMore(s, [], a);
  }

  lemma StartState(level: nat)
    ensures var pool := Start(level).pool;
            && pool.pcs == [P.Starting] && pool.states == [P.Running] && pool.destroyer == P.Idle
            && pool.shutdown == 0 && pool.queue == [0] && pool.dequeued == []
  {
  }

  /**
   A graceful deinitialisation can lose every message: the worker begins, is marked, and leaves
   without having taken the log's task.
   */
  lemma AllMessagesMayBeLost(msg: L.Message) returns (actions: seq<Action>)
    ensures IsRun(Start(msg.level), actions)
    ensures var s := After(Start(msg.level), actions);
            && s.pool.destroyer == P.Freed && s.pool.shutdown == 1
            && s.log.accepted == [msg] && s.log.written == []
  {
    hide Step, Enabled, IsRun, After, Standing, Start;
    var start := Start(msg.level);
    FirstMessage(msg);
    var run := [OfLog(L.Submit(msg, true))];
    run := GoOn(start, run, msg, P.Begin(0), P.Starting, P.Running, P.Idle, P.CheckState, P.Running, P.Idle);
    run := GoOn(start, run, msg, P.Destroy(true), P.CheckState, P.Running, P.Idle,
                P.CheckState, P.Running, P.Marking(0));
    run := GoOn(start, run, msg, P.Mark, P.CheckState, P.Running, P.Marking(0),
                P.CheckState, P.Terminating, P.Marking(1));
    run := GoOn(start, run, msg, P.Mark, P.CheckState, P.Terminating, P.Marking(1),
                P.CheckState, P.Terminating, P.Joining(0));
    run := GoOn(start, run, msg, P.Check(0), P.CheckState, P.Terminating, P.Joining(0),
                P.LeaveLoop, P.Terminating, P.Joining(0));
    run := GoOn(start, run, msg, P.Leave(0), P.LeaveLoop, P.Terminating, P.Joining(0),
                P.SignOff, P.Terminated, P.Joining(0));
    run := GoOn(start, run, msg, P.Sign(0), P.SignOff, P.Terminated, P.Joining(0),
                P.Exited, P.Terminated, P.Joining(0));
    run := GoOn(start, run, msg, P.Join, P.Exited, P.Terminated, P.Joining(0), P.Exited, P.Terminated, P.Joining(1));
    DrainLeft(After(start, run), msg);
    OneMore(start, run, OfPool(P.Drain));
    actions := run + [OfPool(P.Drain)];
    MessagesAfterDeinit(msg.level, actions);
  }

  lemma DrainLeft(s: Service, msg: L.Message)
    requires Standing(s, msg, P.Exited, P.Terminated, P.Joining(1))
    ensures Enabled(s, OfPool(P.Drain))
    ensures var s' := Step(s, OfPool(P.Drain));
            s'.pool.destroyer == P.Freed && s'.pool.shutdown == 1 && s'.pool.dequeued == [] && s'.log.accepted == [msg]
  {
  }
}
