/**
 The memory behind the pool's critical sections: a singly linked list of heap-allocated
 tasks with head, tail and a counter. Each method is one critical section and is proved to
 carry the linked state from a protocol state to the protocol's next state.
 */
module TaskQueue {
  import opened Basics
  import opened ThreadPool
  import opened ThreadPoolSafety

  class Task {
    const id: nat
    var shouldStop: nat
    var next: Task?

    constructor (id: nat)
      ensures this.id == id && shouldStop == 0 && next == null
    {
      this.id := id;
      shouldStop := 0;
      next := null;
    }
  }

  /** What a worker finds when it looks at the queue. */
  datatype Found = MustWait | MustLeave | TryAgain | Got(task: Task)

  function Successor(chain: seq<Task>, i: nat): Task?
    requires i < |chain|
  {
    if i + 1 < |chain| then chain[i + 1] else null
  }

  class SharedPool {
    var head: Task?
    var tail: Task?
    var queueSize: int
    var taskRunning: Task?
    var shutdown: nat

    /** The tasks reachable from `head`, in order. */
    ghost var chain: seq<Task>

    ghost predicate Valid()
      reads this, chain
    {
      && queueSize == |chain|
      && head == (if chain == [] then null else chain[0])
      && tail == (if chain == [] then null else chain[|chain| - 1])
      && (forall i {:trigger chain[i]} :: 0 <= i < |chain| ==> chain[i].next == Successor(chain, i))
      && (forall i, j :: 0 <= i < j < |chain| ==> chain[i] != chain[j])
      && (taskRunning != null ==> taskRunning !in chain)
    }

    /** The task identities reachable from `head`, in order. */
    ghost function Ids(): seq<nat>
      reads this, chain
    {
      seq(|chain|, i requires 0 <= i < |chain| reads this => chain[i].id)
    }

    /** The linked memory stands for the queue, the running slot and the flags of `s`. */
    ghost predicate Represents(s: Pool)
      reads this, chain, taskRunning
    {
      && Valid()
      && Ids() == s.queue
      && shutdown == s.shutdown
      && s.taskRunning == (if taskRunning == null then None else Some(taskRunning.id))
      && (forall i :: 0 <= i < |chain| ==> chain[i].id in s.stop && chain[i].shouldStop == s.stop[chain[i].id])
      && (taskRunning != null ==> taskRunning.id in s.stop && taskRunning.shouldStop == s.stop[taskRunning.id])
    }

    constructor (ghost n: nat)
      ensures Represents(Init(n))
    {
      head, tail, queueSize, taskRunning, shutdown := null, null, 0, null, 0;
      chain := [];
    }

    /** Appending at the tail. */
    method LinkLast(task: Task)
      requires Valid() && task.next == null && task !in chain && task != taskRunning
      modifies `head, `tail, `queueSize, `chain, (if tail == null then {} else {tail})`next
      ensures Valid() && chain == old(chain) + [task]
    {
      if head == null {
        head := task;
        tail := task;
      } else {
        tail.next := task;
        tail := task;
      }
      queueSize := queueSize + 1;
      chain := chain + [task];
    }

    /** Removing at the head. */
    method UnlinkFirst(task: Task)
      requires Valid() && chain != [] && task == head
      modifies `head, `tail, `queueSize, `chain
      ensures Valid() && [task] + chain == old(chain) && task !in chain
    {
      head := task.next;
      if head == null {
        tail := null;
      }
      queueSize := queueSize - 1;
      chain := chain[1..];
    }

    /** `linx_thread_pool_add_task`: refused after shutdown or without memory, else appended at the tail. */
    method AddTask(haveMemory: bool, ghost s: Pool, ghost woken: Option<nat>, id: nat) returns (ok: bool)
      requires Inv(s) && Represents(s) && Enabled(s, Add(woken)) && id == |s.accepted|
      modifies this, chain
      ensures ok == (old(shutdown) == 0 && haveMemory)
      ensures ok ==> Represents(Step(s, Add(woken))) && Ids() == old(Ids()) + [id]
      ensures !ok ==> Represents(s)
    {
      hide Inv, Step, Enabled, Successor;
      if shutdown != 0 || !haveMemory {
        return false;
      }
      QueuedIdsAreOld(s);
      AddView(s, woken);
      forall i | 0 <= i < |chain| ensures chain[i].id < id {
        assert Ids()[i] == chain[i].id;
      }
      var task := new Task(id);
      LinkLast(task);
      assert Ids() == old(Ids()) + [id];
      return true;
    }

    /** A worker's section from the queue test to the dequeue. */
    method TakeTask(ghost s: Pool, ghost w: nat) returns (found: Found)
      requires Inv(s) && Represents(s) && Enabled(s, Take(w))
      modifies this
      ensures Represents(Step(s, Take(w)))
      ensures found != TryAgain
      ensures found == MustWait <==> Step(s, Take(w)).pcs[w] == NotifyWait
      ensures found == MustLeave <==> Step(s, Take(w)).pcs[w] == LeaveLoop
      ensures found.Got? ==> Step(s, Take(w)).pcs[w] == Executing(found.task.id) && found.task == taskRunning
    {
      hide Step, Enabled, Successor;
      TakeView(s, w);
      if queueSize == 0 && shutdown == 0 {
        return MustWait;
      }
      if shutdown == 2 || (shutdown == 1 && queueSize == 0) {
        return MustLeave;
      }
      var task := head;
      if task == null {
        return TryAgain;
      }
      ghost var ids := Ids();
      UnlinkFirst(task);
      assert chain == old(chain)[1..];
      taskRunning := task;
      assert Ids() == ids[1..];
      return Got(task);
    }

    /** A worker's section after the task function returned: the slot is cleared, whoever owns it. */
    method FinishTask(ghost s: Pool, ghost w: nat)
      requires Represents(s) && Enabled(s, Finish(w))
      modifies this
      ensures Represents(Step(s, Finish(w)))
    {
      taskRunning := null;
    }

    /** The walk of destroy's first section over the queue. */
    method MarkQueued()
      requires Valid()
      modifies chain`shouldStop
      ensures forall i :: 0 <= i < |chain| ==> chain[i].shouldStop == shutdown
    {
      var task := head;
      ghost var k := 0;
      while task != null
        invariant 0 <= k <= |chain|
        invariant task == if k < |chain| then chain[k] else null
        invariant forall i :: 0 <= i < k ==> chain[i].shouldStop == shutdown
        decreases |chain| - k
      {
        task.shouldStop := shutdown;
        task := task.next;
        k := k + 1;
      }
    }

    /** The walk, and then the one task in the running slot. */
    method MarkAll(mode: nat)
      requires Valid()
      modifies `shutdown, chain`shouldStop, (if taskRunning == null then {} else {taskRunning})`shouldStop
      ensures shutdown == mode
      ensures forall i :: 0 <= i < |chain| ==> chain[i].shouldStop == mode
      ensures taskRunning != null ==> taskRunning.shouldStop == mode
    {
      shutdown := mode;
      MarkQueued();
      if taskRunning != null {
        taskRunning.shouldStop := shutdown;
      }
    }

    /** Destroy's first section: refused if already shut down, else the mode is written everywhere. */
    method BeginDestroy(graceful: bool, ghost s: Pool) returns (ok: bool)
      requires Represents(s) && Enabled(s, Destroy(graceful))
      modifies `shutdown, chain`shouldStop, (if taskRunning == null then {} else {taskRunning})`shouldStop
      ensures ok == (old(shutdown) == 0)
      ensures Represents(Step(s, Destroy(graceful)))
      ensures ok ==> forall i :: 0 <= i < |chain| ==> chain[i].shouldStop == shutdown
    {
      hide Step, Enabled, Successor;
      DestroyView(s, graceful);
      if shutdown != 0 {
        return false;
      }
      forall i | 0 <= i < |chain| ensures chain[i].id in s.queue {
        assert Ids()[i] == chain[i].id;
      }
      MarkAll(if graceful then 1 else 2);
      assert Ids() == s.queue;
      return true;
    }

    /** Destroy's last loop: unlink and free what is left; returns the identities in order. */
    method DrainQueue(ghost s: Pool) returns (freed: seq<nat>)
      requires Represents(s) && Enabled(s, Drain)
      modifies this
      ensures head == null
      ensures freed == Step(s, Drain).discarded
    {
      freed := [];
      ghost var k := 0;
      while head != null
        invariant 0 <= k <= |chain| && chain == old(chain)
        invariant head == if k < |chain| then chain[k] else null
        invariant forall i {:trigger chain[i]} :: 0 <= i < |chain| ==> chain[i].next == Successor(chain, i)
        invariant freed == Ids()[..k] && Ids() == s.queue
        decreases |chain| - k
      {
        var task := head;
        head := task.next;
        freed := freed + [task.id];
        k := k + 1;
      }
    }
  }

  /** The part of the next state that the linked memory stands for. */
  lemma AddView(s: Pool, woken: Option<nat>)
    requires Enabled(s, Add(woken)) && s.shutdown == 0
    ensures var s' := Step(s, Add(woken));
            && s'.queue == s.queue + [|s.accepted|] && s'.stop == s.stop[|s.accepted| := 0]
            && s'.shutdown == 0 && s'.taskRunning == s.taskRunning
  {
  }

  lemma TakeView(s: Pool, w: nat)
    requires Enabled(s, Take(w)) && s.shutdown <= 2
    ensures var s' := Step(s, Take(w));
            && |s'.pcs| == |s.pcs| && w < |s.pcs|
            && s'.stop == s.stop && s'.shutdown == s.shutdown
            && (s'.pcs[w] == NotifyWait <==> s.queue == [] && s.shutdown == 0)
            && (s'.pcs[w] == LeaveLoop <==> s.shutdown == 2 || (s.shutdown == 1 && s.queue == []))
            && (s.queue != [] && s.shutdown < 2 ==>
                  s'.pcs[w] == Executing(s.queue[0]) && s'.queue == s.queue[1..] && s'.taskRunning == Some(s.queue[0]))
            && (s.queue == [] || s.shutdown == 2 ==> s'.queue == s.queue && s'.taskRunning == s.taskRunning)
  {
  }

  lemma DestroyView(s: Pool, graceful: bool)
    requires Enabled(s, Destroy(graceful))
    ensures s.shutdown != 0 ==> Step(s, Destroy(graceful)) == s
    ensures s.shutdown == 0 ==>
              var s' := Step(s, Destroy(graceful));
              && s'.queue == s.queue && s'.stop == MarkStops(s, s'.shutdown)
              && s'.shutdown == (if graceful then 1 else 2) && s'.taskRunning == s.taskRunning
  {
  }

  /** Identities are handed out in order, so a new one differs from every known task. */
  lemma QueuedIdsAreOld(s: Pool)
    requires Inv(s)
    ensures forall i :: 0 <= i < |s.queue| ==> s.queue[i] < |s.accepted|
    ensures s.taskRunning.Some? ==> s.taskRunning.value < |s.accepted|
  {
    forall i | 0 <= i < |s.queue| ensures s.queue[i] < |s.accepted| {
      assert s.accepted[|s.dequeued| + i] == s.queue[i];
    }
    if s.taskRunning.Some? {
      var k :| 0 <= k < |s.dequeued| && s.dequeued[k] == s.taskRunning.value;
      assert s.accepted[k] == s.dequeued[k];
    }
  }
}
