/**
 The log (`linx_log.c`): callers push formatted messages into an array queue that doubles when
 full; one consumer thread pops them, tests the stop flag twice, and writes. Every critical
 section and every read of the flag is one step of the machine.
 */
module LogQueue {
  import opened Basics

  datatype Message = Message(level: nat, text: string)

  /** Where the consumer is; the two tests are its two reads of the flag. */
  datatype Consumer =
    | Popping
    | FirstTest(msg: Option<Message>)
    | SecondTest(msg: Option<Message>)
    | Stopped(dropped: Option<Message>)

  /** `accepted`, `written` and `seen` are histories: pushed so far, written so far, pushed by the last pop. */
  datatype Log = Log(
    level: nat, queue: seq<Message>, capacity: nat, stop: nat, pc: Consumer,
    accepted: seq<Message>, written: seq<Message>, seen: seq<Message>)

  /** `memory` says whether the allocations a push may need succeed. */
  datatype Action =
    | Submit(msg: Message, memory: bool)
    | Request(mode: nat)
    | Pop
    | TestNow
    | TestDrained

  function Grown(capacity: nat): nat {
    if capacity == 0 then 16 else 2 * capacity
  }

  /** A message below the level, or one the queue cannot make room for, is discarded. */
  predicate Accepts(s: Log, msg: Message, memory: bool) {
    msg.level >= s.level && (memory || |s.queue| < s.capacity)
  }

  predicate Enabled(s: Log, a: Action) {
    match a
    case Submit(_, _) => true
    case Request(mode) => s.stop == 0 && mode in {1, 2}
    case Pop => s.pc.Popping?
    case TestNow => s.pc.FirstTest?
    case TestDrained => s.pc.SecondTest?
  }

  function Step(s: Log, a: Action): Log
    requires Enabled(s, a)
  {
    match a
    case Submit(msg, memory) =>
      if !Accepts(s, msg, memory) then s
      else s.(queue := s.queue + [msg], accepted := s.accepted + [msg],
              capacity := if |s.queue| >= s.capacity then Grown(s.capacity) else s.capacity)
    case Request(mode) => s.(stop := mode)
    case Pop =>
      var s := s.(seen := s.accepted);
      if s.queue == [] then s.(pc := FirstTest(None))
      else s.(pc := FirstTest(Some(s.queue[0])), queue := s.queue[1..])
    case TestNow =>
      if s.stop == 2 then s.(pc := Stopped(s.pc.msg)) else s.(pc := SecondTest(s.pc.msg))
    case TestDrained =>
      match s.pc.msg {
        case None => if s.stop == 1 then s.(pc := Stopped(None)) else s.(pc := Popping)
        case Some(msg) => s.(pc := Popping, written := s.written + [msg])
      }
  }

  function Start(level: nat): Log {
    Log(level, [], 0, 0, Popping, [], [], [])
  }

  predicate IsRun(s: Log, actions: seq<Action>)
    decreases actions
  {
    actions == [] || (Enabled(s, actions[0]) && IsRun(Step(s, actions[0]), actions[1..]))
  }

  function After(s: Log, actions: seq<Action>): Log
    requires IsRun(s, actions)
    decreases actions
  {
    if actions == [] then s else After(Step(s, actions[0]), actions[1..])
  }

  // ---------------------------------------------------------------------------
  // Invariant

  /** What the consumer has popped but neither written nor left behind. */
  function InHand(pc: Consumer): seq<Message> {
    match pc
    case Popping => []
    case FirstTest(msg) => if msg.Some? then [msg.value] else []
    case SecondTest(msg) => if msg.Some? then [msg.value] else []
    case Stopped(dropped) => if dropped.Some? then [dropped.value] else []
  }

  ghost predicate CapacityOk(c: nat) {
    c == 0 || exists k: nat :: c == Doubled(k)
  }

  function Doubled(k: nat): nat {
    if k == 0 then 16 else 2 * Doubled(k - 1)
  }

  /** Nothing is lost, duplicated or reordered between push and write. */
  predicate Conserved(s: Log) {
    s.accepted == s.written + InHand(s.pc) + s.queue
  }

  /** What was pushed by the time of the last pop. */
  predicate Sighted(s: Log) {
    && |s.seen| <= |s.accepted| && s.seen == s.accepted[..|s.seen|]
    && match s.pc
       case FirstTest(None) => s.seen == s.written
       case SecondTest(None) => s.seen == s.written
       case Stopped(None) => s.seen == s.written
       case _ => true
  }

  predicate StopOk(s: Log) {
    && s.stop <= 2
    && (s.pc.Stopped? ==> s.stop > 0 && (s.stop == 1 ==> s.pc.dropped.None?))
  }

  ghost predicate Inv(s: Log) {
    && |s.queue| <= s.capacity && CapacityOk(s.capacity)
    && Conserved(s) && Sighted(s) && StopOk(s)
    && (forall i :: 0 <= i < |s.accepted| ==> s.accepted[i].level >= s.level)
  }

  lemma CapacityGrows(c: nat)
    requires CapacityOk(c)
    ensures CapacityOk(Grown(c)) && Grown(c) > c
  {
    if c == 0 {
      assert Grown(c) == Doubled(0);
    } else {
      var k: nat :| c == Doubled(k);
      assert Grown(c) == Doubled(k + 1);
      DoubledPositive(k);
    }
  }

  lemma DoubledPositive(k: nat)
    ensures Doubled(k) > 0
  {
  }

  lemma SubmitKeepsInv(s: Log, msg: Message, memory: bool)
    requires Inv(s)
    ensures Inv(Step(s, Submit(msg, memory)))
  {
    hide CapacityOk;
    CapacityGrows(s.capacity);
    if Accepts(s, msg, memory) {
      assert s.written + InHand(s.pc) + s.queue + [msg] == s.written + InHand(s.pc) + (s.queue + [msg]);
    }
  }

  lemma PopKeepsInv(s: Log)
    requires Inv(s) && s.pc.Popping?
    ensures Inv(Step(s, Pop))
  {
    hide CapacityOk;
    assert s.accepted[..|s.accepted|] == s.accepted;
    if s.queue != [] {
      assert [s.queue[0]] + s.queue[1..] == s.queue;
    }
  }

  lemma StepKeepsInv(s: Log, a: Action)
    requires Inv(s) && Enabled(s, a)
    ensures Inv(Step(s, a))
  {
    match a {
      case Submit(msg, memory) =>
        SubmitKeepsInv(s, msg, memory);
      case Request(mode) =>
      case Pop =>
        PopKeepsInv(s);
      case TestNow =>
      case TestDrained =>
    }
    hide CapacityOk;
  }

  lemma {:induction false} RunKeepsInv(s: Log, actions: seq<Action>)
    requires Inv(s) && IsRun(s, actions)
    ensures Inv(After(s, actions))
    decreases actions
  {
    if actions != [] {
      StepKeepsInv(s, actions[0]);
      RunKeepsInv(Step(s, actions[0]), actions[1..]);
    }
  }

  // ---------------------------------------------------------------------------
  // Whole runs

  /**
   In every interleaving: the queue fits its capacity, which is 0 or 16 doubled; and the
   messages accepted, in order, are those written, then the one in the consumer's hand, then
   the queue. Once the consumer has stopped in mode 1 it has written exactly what had been
   accepted when it last popped; in any mode at most one popped message was not written.
   */
  lemma LogRuns(level: nat, actions: seq<Action>)
    requires IsRun(Start(level), actions)
    ensures var s := After(Start(level), actions);
            && |s.queue| <= s.capacity && CapacityOk(s.capacity)
            && s.accepted == s.written + InHand(s.pc) + s.queue
            && (s.pc.Stopped? && s.stop == 1 ==> s.written == s.seen && s.accepted == s.seen + s.queue)
            && (s.pc.Stopped? ==> s.stop > 0 && |InHand(s.pc)| <= 1)
  {
    RunKeepsInv(Start(level), actions);
  }

  /** The messages a run accepts, from its actions alone. */
  function AcceptedIn(s: Log, actions: seq<Action>): seq<Message>
    requires IsRun(s, actions)
    decreases actions
  {
    if actions == [] then []
    else
      var a := actions[0];
      (if a.Submit? && Accepts(s, a.msg, a.memory) then [a.msg] else []) + AcceptedIn(Step(s, a), actions[1..])
  }

  /** The history field is what the run really accepted. */
  lemma {:induction false} AcceptedIsHistory(s: Log, actions: seq<Action>)
    requires IsRun(s, actions)
    ensures After(s, actions).accepted == s.accepted + AcceptedIn(s, actions)
    decreases actions
  {
    hide Accepts;
    if actions != [] {
      AcceptedIsHistory(Step(s, actions[0]), actions[1..]);
    }
  }

  /** With memory to be had, exactly the messages at or above the level are accepted. */
  function AtLevel(actions: seq<Action>, level: nat): seq<Message>
    decreases actions
  {
    if actions == [] then []
    else
      var a := actions[0];
      (if a.Submit? && a.msg.level >= level then [a.msg] else []) + AtLevel(actions[1..], level)
  }

  lemma {:induction false} FilterByLevel(s: Log, actions: seq<Action>)
    requires IsRun(s, actions)
    requires forall i :: 0 <= i < |actions| && actions[i].Submit? ==> actions[i].memory
    ensures AcceptedIn(s, actions) == AtLevel(actions, s.level)
    decreases actions
  {
    if actions != [] {
      assert forall i :: 0 <= i < |actions[1..]| ==> actions[1..][i] == actions[i + 1];
      FilterByLevel(Step(s, actions[0]), actions[1..]);
    }
  }

  lemma {:induction false} RunPrefix(s: Log, actions: seq<Action>, k: nat)
    requires IsRun(s, actions) && k <= |actions|
    ensures IsRun(s, actions[..k])
    decreases actions
  {
    hide Step, Enabled;
    if k > 0 {
      RunPrefix(Step(s, actions[0]), actions[1..], k - 1);
      assert actions[..k][1..] == actions[1..][..k - 1];
    }
  }

  lemma {:induction false} NoPopNoSight(s: Log, actions: seq<Action>)
    requires IsRun(s, actions) && Pop !in actions
    ensures After(s, actions).seen == s.seen
    decreases actions
  {
    if actions != [] {
      assert actions[0] in actions;
      NoPopNoSight(Step(s, actions[0]), actions[1..]);
    }
  }

  /** What the consumer has sighted is what the run had accepted before its last pop. */
  lemma {:induction false} SightedAtLastPop(s: Log, actions: seq<Action>, k: nat)
    requires IsRun(s, actions) && k < |actions| && actions[k] == Pop && Pop !in actions[k + 1..]
    requires IsRun(s, actions[..k])
    ensures After(s, actions).seen == s.accepted + AcceptedIn(s, actions[..k])
    decreases actions
  {
    hide Accepts;
    if k == 0 {
      NoPopNoSight(Step(s, Pop), actions[1..]);
    } else {
      assert actions[..k][1..] == actions[1..][..k - 1];
      assert actions[1..][k - 1 + 1..] == actions[k + 1..];
      SightedAtLastPop(Step(s, actions[0]), actions[1..], k - 1);
    }
  }

  /**
   A graceful exit: whatever was interleaved, the messages written are exactly, in order, those
   the run accepted before the consumer's last pop, the `k`-th action.
   */
  lemma GracefulExit(level: nat, actions: seq<Action>, k: nat)
    requires IsRun(Start(level), actions)
    requires After(Start(level), actions).pc.Stopped? && After(Start(level), actions).stop == 1
    requires k < |actions| && actions[k] == Pop && Pop !in actions[k + 1..]
    ensures IsRun(Start(level), actions[..k])
    ensures After(Start(level), actions).written == AcceptedIn(Start(level), actions[..k])
  {
    LogRuns(level, actions);
    RunPrefix(Start(level), actions, k);
    SightedAtLastPop(Start(level), actions, k);
    hide Step, Enabled, AcceptedIn, After, IsRun;
  }

  /**
   A message is dropped exactly when its level is too low, or the queue is full and there is no
   memory to grow it; else it goes to the end of the queue, which grows from nothing to 16 and
   then to twice its size, when it is full and only then. Nothing else changes.
   */
  lemma SubmitExactly(s: Log, msg: Message, memory: bool)
    ensures var s' := Step(s, Submit(msg, memory));
            if msg.level < s.level || (|s.queue| >= s.capacity && !memory) then s' == s
            else
              && s'.queue == s.queue + [msg] && s'.accepted == s.accepted + [msg]
              && (|s.queue| < s.capacity ==> s'.capacity == s.capacity)
              && (|s.queue| >= s.capacity == 0 ==> s'.capacity == 16)
              && (|s.queue| >= s.capacity > 0 ==> s'.capacity == 2 * s.capacity)
              && s' == s.(queue := s'.queue, accepted := s'.accepted, capacity := s'.capacity)
  {
  }

  // ---------------------------------------------------------------------------
  // Forced stop

  /** Steps the consumer still takes in mode 2. */
  function ForcedSteps(pc: Consumer): nat {
    match pc
    case Popping => 2
    case FirstTest(_) => 1
    case SecondTest(_) => 3
    case Stopped(_) => 0
  }

  lemma ForcedStep(s: Log, a: Action)
    requires s.stop == 2 && Enabled(s, a)
    ensures var t := Step(s, a);
            && t.stop == 2
            && ForcedSteps(t.pc) == ForcedSteps(s.pc) - (if a.Submit? then 0 else 1)
            && |t.written| + (if t.pc.SecondTest? && t.pc.msg.Some? then 1 else 0)
               == |s.written| + (if s.pc.SecondTest? && s.pc.msg.Some? then 1 else 0)
  {
  }

  /**
   Told to stop at once, the consumer stops after at most three steps of its own, whatever is
   submitted meanwhile, and writes at most the one message for which it had already passed its
   first test of the flag; what it had popped otherwise is left unwritten.
   */
  lemma {:induction false} ForcedStops(s: Log, actions: seq<Action>)
    requires s.stop == 2 && IsRun(s, actions)
    ensures var r := After(s, actions);
            && ConsumerSteps(actions) + ForcedSteps(r.pc) == ForcedSteps(s.pc) <= 3
            && (r.pc.Stopped? <==> ForcedSteps(r.pc) == 0)
            && |r.written| <= |s.written| + (if s.pc.SecondTest? && s.pc.msg.Some? then 1 else 0)
            && (r.pc.Stopped? ==>
                  |r.written| == |s.written| + (if s.pc.SecondTest? && s.pc.msg.Some? then 1 else 0))
    decreases actions
  {
    hide Step, Enabled;
    if actions != [] {
      ForcedStep(s, actions[0]);
      ForcedStops(Step(s, actions[0]), actions[1..]);
    }
  }

  function ConsumerSteps(actions: seq<Action>): nat {
    if actions == [] then 0 else (if actions[0].Submit? then 0 else 1) + ConsumerSteps(actions[1..])
  }

  // ---------------------------------------------------------------------------
  // Graceful stop

  predicate ConsumerOnly(actions: seq<Action>) {
    forall i :: 0 <= i < |actions| ==> !actions[i].Submit? && !actions[i].Request?
  }

  /** Steps the consumer still takes in mode 1 when nothing more is pushed. */
  function StepsLeft(s: Log): nat {
    match s.pc
    case Popping => 3 * |s.queue| + 3
    case FirstTest(msg) => if msg.Some? then 3 * |s.queue| + 5 else 2
    case SecondTest(msg) => if msg.Some? then 3 * |s.queue| + 4 else 1
    case Stopped(_) => 0
  }

  /** The consumer found the queue empty, and messages have come in since. */
  predicate Stranded(s: Log) {
    && ((s.pc.FirstTest? && s.pc.msg.None?) || (s.pc.SecondTest? && s.pc.msg.None?))
    && s.queue != []
  }

  /**
   Stopped gracefully and left alone, the consumer always has a step until it stops, after
   exactly `StepsLeft` steps; it has then written every accepted message exactly when none was
   stranded behind a pop that had found the queue empty.
   */
  lemma {:induction false} DrainsThenStops(s: Log, actions: seq<Action>)
    requires Inv(s) && s.stop == 1 && !s.pc.Stopped? && IsRun(s, actions) && ConsumerOnly(actions)
    ensures var r := After(s, actions);
            && |actions| + StepsLeft(r) == StepsLeft(s)
            && r.accepted == s.accepted
            && (r.pc.Stopped? <==> StepsLeft(r) == 0)
            && (!r.pc.Stopped? ==> Enabled(r, Pop) || Enabled(r, TestNow) || Enabled(r, TestDrained))
            && (r.pc.Stopped? ==> (r.written == r.accepted <==> !Stranded(s)))
    decreases actions
  {
    hide Inv;
    if actions != [] {
      var t := Step(s, actions[0]);
      StepKeepsInv(s, actions[0]);
      ConsumerStep(s, actions[0]);
      assert forall i :: 0 <= i < |actions[1..]| ==> actions[1..][i] == actions[i + 1];
      if t.pc.Stopped? {
        StoppedForGood(t, actions[1..]);
      } else {
        DrainsThenStops(t, actions[1..]);
      }
    }
  }

  /** Such states are reached: one pop too early, one message, and the request to stop. */
  lemma MessageMayBeStranded(msg: Message)
    ensures var early, rest := [Pop, Submit(msg, true), Request(1)], [TestNow, TestDrained];
            && IsRun(Start(msg.level), early)
            && var s := After(Start(msg.level), early);
            && Stranded(s) && s.stop == 1 && IsRun(s, rest)
            && After(s, rest).pc == Stopped(None)
            && After(s, rest).accepted == [msg] && After(s, rest).written == []
  {
    var s0 := Start(msg.level);
    var s1 := Step(s0, Pop);
    var s2 := Step(s1, Submit(msg, true));
    var s3 := Step(s2, Request(1));
    var s4 := Step(s3, TestNow);
    var s5 := Step(s4, TestDrained);
    RunOne(s2, Request(1), []);
    RunOne(s1, Submit(msg, true), [Request(1)]);
    RunOne(s0, Pop, [Submit(msg, true), Request(1)]);
    RunOne(s4, TestDrained, []);
    RunOne(s3, TestNow, [TestDrained]);
    assert [Pop] + ([Submit(msg, true)] + ([Request(1)] + [])) == [Pop, Submit(msg, true), Request(1)];
    assert [TestNow] + ([TestDrained] + []) == [TestNow, TestDrained];
    assert s3.queue == [msg] && s5.accepted == [msg];
  }

  lemma RunOne(s: Log, a: Action, rest: seq<Action>)
    requires Enabled(s, a) && IsRun(Step(s, a), rest)
    ensures IsRun(s, [a] + rest) && After(s, [a] + rest) == After(Step(s, a), rest)
  {
    hide Step, Enabled;
    assert ([a] + rest)[1..] == rest;
  }

  lemma ConsumerStep(s: Log, a: Action)
    requires Inv(s) && s.stop == 1 && Enabled(s, a) && !a.Submit? && !a.Request?
    ensures var t := Step(s, a);
            && StepsLeft(t) == StepsLeft(s) - 1 && t.accepted == s.accepted && t.stop == 1
            && (!t.pc.Stopped? ==> (Stranded(t) <==> Stranded(s)))
            && (t.pc.Stopped? ==> (t.written == t.accepted <==> !Stranded(s)))
  {
    hide CapacityOk;
  }

  lemma StoppedForGood(s: Log, actions: seq<Action>)
    requires s.pc.Stopped? && s.stop == 1 && IsRun(s, actions) && ConsumerOnly(actions)
    ensures actions == []
  {
  }

  // ---------------------------------------------------------------------------
  // The array queue, changed in place

  class Queue {
    const level: nat
    var queue: array<Message>
    var size: nat
    var capacity: nat

    ghost predicate Valid()
      reads this
    {
      size <= capacity == queue.Length
    }

    ghost function Contents(): (s: seq<Message>)
      requires Valid()
      reads this, queue
    {
      queue[..size]
    }

    /** The array holds the queue of this state of the machine. */
    ghost predicate Represents(s: Log)
      reads this, queue
    {
      Valid() && level == s.level && Contents() == s.queue && capacity == s.capacity
    }

    constructor (level: nat)
      ensures Represents(Start(level)) && fresh(queue)
    {
      this.level, queue, size, capacity := level, new Message[0], 0, 0;
    }

    /** Makes room if needed, then appends; without memory for the room the message is discarded. */
    method Push(msg: Message, memory: bool, ghost s: Log)
      requires Represents(s) && msg.level >= level
      modifies this, queue
      ensures Represents(Step(s, Submit(msg, memory)))
      ensures queue == old(queue) || fresh(queue)
    {
      if size >= capacity {
        var newCapacity := if capacity == 0 then 16 else capacity * 2;
        if !memory {
          return;
        }
        var newQueue := new Message[newCapacity];
        forall i | 0 <= i < size {
          newQueue[i] := queue[i];
        }
        queue, capacity := newQueue, newCapacity;
      }
      queue[size] := msg;
      size := size + 1;
    }

    /** `linx_log`: the level filter in front of the queue. */
    method LogMessage(msg: Message, memory: bool, ghost s: Log)
      requires Represents(s)
      modifies this, queue
      ensures Represents(Step(s, Submit(msg, memory)))
      ensures queue == old(queue) || fresh(queue)
    {
      if msg.level < level {
        return;
      }
      Push(msg, memory, s);
    }

    /** Takes the first message and shifts the others down by one. */
    method PopMessage(ghost s: Log) returns (msg: Option<Message>)
      requires Represents(s) && Enabled(s, Pop)
      modifies this, queue
      ensures Represents(Step(s, Pop)) && Step(s, Pop).pc == FirstTest(msg)
      ensures queue == old(queue)
    {
      if size == 0 {
        return None;
      }
      msg := Some(queue[0]);
      for i := 1 to size
        invariant Valid() && queue == old(queue) && size == old(size) && capacity == old(capacity)
        invariant forall k :: 0 <= k < i - 1 ==> queue[k] == old(queue[k + 1])
        invariant forall k :: i - 1 < k < size ==> queue[k] == old(queue[k])
      {
        queue[i - 1] := queue[i];
      }
      size := size - 1;
      assert Contents() == old(Contents())[1..];
    }
  }
}
