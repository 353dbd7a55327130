/**
 The process cache (`linx_process_cache.c`) as a state machine: refreshes from `/proc`,
 entries made from events, the monitor that marks the dead and the cleaner that removes the
 expired, each one critical section, in any order.
 */
module ProcessCache {
  import opened Basics

  const EXPIRE_TIME := 20

  datatype Pid = Pid(number: int)

  datatype State = UnknownState | Running | Sleeping | Zombie | Stopped | Exited

  datatype Info = Info(
    pid: Pid, details: string, state: State, startTime: nat,
    createTime: int, updateTime: int, exitTime: int, alive: bool, rich: bool)

  type Cache = map<Pid, Info>

  /** `create_process_info` when `/proc` could be read. */
  predicate FromProc(i: Info) {
    i.alive && !i.rich && i.exitTime == 0 && i.createTime == i.updateTime > 0
  }

  /** The zeroed record that `rich_execve_exit` fills. */
  predicate FromEvent(i: Info) {
    i.alive && i.rich && i.exitTime == 0 && i.createTime == i.updateTime > 0 && i.startTime == 0 && i.state == Running
  }

  /** One critical section. The monitor asks the clock once per entry it marks. */
  datatype Action =
    | Refresh(info: Info)
    | Enrich(info: Info)
    | Monitor(gone: set<Pid>, clock: map<Pid, int>)
    | Clean(now: int)
    | Cleanup(now: int)
    | Delete(pid: Pid)

  /** What the callers and a positive clock guarantee. */
  predicate Legal(a: Action) {
    match a
    case Refresh(info) => FromProc(info)
    case Enrich(info) => FromEvent(info)
    case Monitor(gone, clock) => forall p :: p in gone ==> p in clock && clock[p] > 0
    case _ => true
  }

  // ---------------------------------------------------------------------------
  // Steps

  function Merge(was: Info, info: Info): Info {
    var kept := info.(createTime := was.createTime);
    if !was.alive && was.exitTime > 0 then kept.(exitTime := was.exitTime, alive := false) else kept
  }

  function Put(c: Cache, info: Info): Cache {
    c[info.pid := if info.pid in c then Merge(c[info.pid], info) else info]
  }

  function Mark(i: Info, gone: set<Pid>, clock: map<Pid, int>): Info {
    if !i.rich && i.alive && i.pid in gone && i.pid in clock
    then i.(alive := false, exitTime := clock[i.pid], state := Exited) else i
  }

  predicate DeadTooLong(i: Info, now: int) {
    !i.alive && i.exitTime > 0 && now - i.exitTime > EXPIRE_TIME
  }

  /** The start time is unsigned, so the difference is taken modulo 2^64. */
  predicate Expired(i: Info, now: int) {
    (i.rich && (now - i.startTime) % U64 > EXPIRE_TIME) || DeadTooLong(i, now)
  }

  function Step(c: Cache, a: Action): Cache {
    match a
    case Refresh(info) => Put(c, info)
    case Enrich(info) => Put(c, info)
    case Monitor(gone, clock) => map p | p in c :: Mark(c[p], gone, clock)
    case Clean(now) => map p | p in c && !Expired(c[p], now) :: c[p]
    case Cleanup(now) => map p | p in c && !DeadTooLong(c[p], now) :: c[p]
    case Delete(pid) => c - {pid}
  }

  function After(c: Cache, actions: seq<Action>): Cache
    decreases actions
  {
    if actions == [] then c else Step(After(c, actions[..|actions| - 1]), actions[|actions| - 1])
  }

  predicate AllLegal(actions: seq<Action>) {
    forall i :: 0 <= i < |actions| ==> Legal(actions[i])
  }

  // ---------------------------------------------------------------------------
  // Invariant

  predicate EntryOk(p: Pid, i: Info) {
    && i.pid == p && i.createTime > 0
    && i.exitTime >= 0 && (!i.alive <==> i.exitTime > 0)
    && (i.rich ==> i.startTime == 0)
  }

  /** Keys are pids; dead exactly when an exit time is set; event entries carry no start time. */
  predicate Inv(c: Cache) {
    forall p :: p in c ==> EntryOk(p, c[p])
  }

  /** What one step may do to an entry that it does not remove. */
  predicate Evolves(was: Info, now: Info) {
    && now.createTime == was.createTime
    && (!was.alive ==> !now.alive && now.exitTime == was.exitTime)
    && (was.exitTime > 0 ==> now.exitTime == was.exitTime)
  }

  lemma StepKeepsInv(c: Cache, a: Action)
    requires Inv(c) && Legal(a)
    ensures Inv(Step(c, a))
    ensures forall p :: p in c && p in Step(c, a) ==> Evolves(c[p], Step(c, a)[p])
  {
    match a {
      case Refresh(info) =>
      case Enrich(info) =>
      case Monitor(gone, clock) =>
      case Clean(now) =>
      case Cleanup(now) =>
      case Delete(pid) =>
    }
  }

  /** Every reachable cache satisfies the invariant. */
  lemma {:induction false} RunKeepsInv(actions: seq<Action>)
    requires AllLegal(actions)
    ensures Inv(After(map[], actions))
    decreases actions
  {
    hide Step, Legal;
    if actions != [] {
      var k := |actions| - 1;
      RunKeepsInv(actions[..k]);
      StepKeepsInv(After(map[], actions[..k]), actions[k]);
    }
  }

  /** The pid is cached at the start of a run and after every step of it. */
  predicate Stays(c: Cache, actions: seq<Action>, p: Pid) {
    forall n :: 0 <= n <= |actions| ==> p in After(c, actions[..n])
  }

  /**
   While a pid stays cached its creation time is constant, it never comes back to life, its
   exit time is set once, and it is dead exactly when that time is set.
   */
  lemma {:induction false} LifeCycle(c: Cache, actions: seq<Action>, p: Pid)
    requires Inv(c) && AllLegal(actions) && Stays(c, actions, p)
    ensures p in c && p in After(c, actions)
    ensures Inv(After(c, actions)) && Evolves(c[p], After(c, actions)[p])
    decreases actions
  {
    hide Step, Legal, EntryOk;
    assert actions[..|actions|] == actions;
    assert actions[..0] == [];
    if actions != [] {
      var k := |actions| - 1;
      forall n | 0 <= n <= k ensures p in After(c, actions[..k][..n]) {
        assert actions[..k][..n] == actions[..n];
      }
      LifeCycle(c, actions[..k], p);
      StepKeepsInv(After(c, actions[..k]), actions[k]);
    }
  }

  // ---------------------------------------------------------------------------
  // Marking

  /** The monitor marks exactly the plain living entries whose process is gone, with its own clock. */
  lemma MonitorMarks(c: Cache, gone: set<Pid>, clock: map<Pid, int>)
    requires Inv(c) && Legal(Monitor(gone, clock))
    ensures var after := Step(c, Monitor(gone, clock));
            && (forall p :: p in after <==> p in c)
            && (forall p :: p in c && p in gone && c[p].alive && !c[p].rich ==>
                  after[p] == c[p].(alive := false, exitTime := clock[p], state := Exited))
            && (forall p :: p in c && !(p in gone && c[p].alive && !c[p].rich) ==> after[p] == c[p])
  {
    forall p | p in c ensures EntryOk(p, c[p]) {
    }
  }

  /** Action `k` marked the entry with the exit time it still has, and it has been cached as dead ever since. */
  ghost predicate MarkedAt(actions: seq<Action>, k: nat, p: Pid) {
    && k < |actions| && actions[k].Monitor? && p in actions[k].gone && p in actions[k].clock
    && var before, now := After(map[], actions[..k]), After(map[], actions);
    && p in before && before[p].alive && !before[p].rich
    && p in now && now[p].exitTime == actions[k].clock[p]
    && forall n :: k < n <= |actions| ==> DeadAt(actions, n, p)
  }

  ghost predicate DeadAt(actions: seq<Action>, n: nat, p: Pid)
    requires n <= |actions|
  {
    var c := After(map[], actions[..n]);
    p in c && !c[p].alive
  }

  /** Every death in a reachable cache was found by the monitor, and its time is the clock of that pass. */
  lemma {:induction false} DeathsAreMarked(actions: seq<Action>, p: Pid) returns (k: nat)
    requires AllLegal(actions) && p in After(map[], actions) && !After(map[], actions)[p].alive
    ensures MarkedAt(actions, k, p)
    decreases actions
  {
    hide Step, Legal, After;
    AfterStep(map[], actions);
    assert actions != [] by { StartsEmpty(); }
    var m := |actions| - 1;
    var init, a := actions[..m], actions[m];
    var c := After(map[], init);
    assert init + [a] == actions;
    assert actions[..|actions|] == actions;
    RunKeepsInv(init);
    StepKeepsInv(c, a);
    if p in c && !c[p].alive {
      k := DeathsAreMarked(init, p);
      assert actions[..k] == init[..k] && actions[k] == init[k];
      forall n | k < n <= |actions| ensures DeadAt(actions, n, p) {
        if n < |actions| {
          assert actions[..n] == init[..n];
          assert DeadAt(init, n, p);
        }
      }
    } else {
      OnlyMonitorKills(c, a, p);
      k := m;
    }
  }

  lemma StartsEmpty()
    ensures After(map[], []) == map[]
  {
  }

  lemma OnlyMonitorKills(c: Cache, a: Action, p: Pid)
    requires Inv(c) && Legal(a) && p in Step(c, a) && !Step(c, a)[p].alive && (p in c ==> c[p].alive)
    ensures a.Monitor? && p in a.gone && p in a.clock && p in c && c[p].alive && !c[p].rich
    ensures Step(c, a)[p].exitTime == a.clock[p]
  {
    match a {
      case Refresh(info) =>
      case Enrich(info) =>
      case Monitor(gone, clock) => assert EntryOk(p, c[p]);
      case Clean(now) =>
      case Cleanup(now) =>
      case Delete(pid) =>
    }
  }

  // ---------------------------------------------------------------------------
  // Removal

  /** Deleting a pid removes its entry and nothing else. */
  lemma DeleteExactly(c: Cache, pid: Pid)
    ensures var after := Step(c, Delete(pid));
            && (forall p :: p in after <==> p in c && p != pid)
            && (forall p :: p in after ==> after[p] == c[p])
  {
  }

  /** Removal on request keeps, unchanged, exactly the living and those dead for at most the expiry time. */
  lemma CleanupExactly(c: Cache, now: int)
    requires Inv(c)
    ensures var after := Step(c, Cleanup(now));
            && (forall p :: p in after <==> p in c && (c[p].alive || now - c[p].exitTime <= EXPIRE_TIME))
            && (forall p :: p in after ==> after[p] == c[p])
  {
    forall p | p in c ensures EntryOk(p, c[p]) {
    }
  }

  /** In a reachable cache the cleaner's pass keeps, unchanged, exactly the plain entries not dead too long. */
  lemma CleanExactly(c: Cache, now: int)
    requires Inv(c) && EXPIRE_TIME < now < U64
    ensures forall p :: p in Step(c, Clean(now)) <==>
                          p in c && !c[p].rich && (c[p].alive || now - c[p].exitTime <= EXPIRE_TIME)
    ensures forall p :: p in Step(c, Clean(now)) ==> Step(c, Clean(now))[p] == c[p]
  {
    forall p | p in c ensures Expired(c[p], now) <==> c[p].rich || (!c[p].alive && now - c[p].exitTime > EXPIRE_TIME) {
      assert EntryOk(p, c[p]);
    }
  }

  /** Removing the dead by hand at some instant removes no more than the cleaner would then. */
  lemma CleanupIsWeaker(c: Cache, now: int)
    ensures Step(c, Clean(now)).Keys <= Step(c, Cleanup(now)).Keys <= c.Keys
    ensures Step(Step(c, Cleanup(now)), Clean(now)) == Step(c, Clean(now))
  {
    var cleaned, cleanedUp := Step(c, Clean(now)), Step(c, Cleanup(now));
    forall p | p in cleaned.Keys ensures p in cleanedUp.Keys && p in c.Keys {
    }
    forall p | p in cleanedUp.Keys ensures p in c.Keys {
    }
  }

  /** Steps that may remove the entry of a process that died at `exit`. */
  predicate Spares(a: Action, p: Pid, exit: int) {
    match a
    case Enrich(info) => info.pid != p
    case Clean(now) => now - exit <= EXPIRE_TIME
    case Cleanup(now) => now - exit <= EXPIRE_TIME
    case Delete(pid) => pid != p
    case _ => true
  }

  /** A dead entry is retained for the whole expiry time, unless deleted or remade from an event. */
  lemma {:induction false} DeadAreRetained(c: Cache, actions: seq<Action>, p: Pid)
    requires Inv(c) && AllLegal(actions)
    requires p in c && !c[p].alive && !c[p].rich
    requires forall n :: 0 <= n < |actions| ==> Spares(actions[n], p, c[p].exitTime)
    ensures var r := After(c, actions);
            Inv(r) && p in r && !r[p].alive && !r[p].rich && r[p].exitTime == c[p].exitTime
    decreases actions
  {
    hide After;
    AfterStep(c, actions);
    if actions != [] {
      var k := |actions| - 1;
      DeadAreRetained(c, actions[..k], p);
      var r := After(c, actions[..k]);
      StepKeepsInv(r, actions[k]);
      DeadSpared(r, actions[k], p);
    }
  }

  lemma AfterStep(c: Cache, actions: seq<Action>)
    ensures actions == [] ==> After(c, actions) == c
    ensures actions != [] ==>
              After(c, actions) == Step(After(c, actions[..|actions| - 1]), actions[|actions| - 1])
  {
  }

  lemma DeadSpared(c: Cache, a: Action, p: Pid)
    requires Inv(c) && Legal(a) && p in c && !c[p].alive && !c[p].rich && Spares(a, p, c[p].exitTime)
    ensures p in Step(c, a) && !Step(c, a)[p].rich
  {
    match a {
      case Refresh(info) =>
      case Enrich(info) =>
      case Monitor(gone, clock) =>
      case Clean(now) =>
      case Cleanup(now) =>
      case Delete(pid) =>
    }
  }

  /** And both removers do remove it as soon as the expiry time has passed. */
  lemma DeadAreRemoved(c: Cache, p: Pid, now: int)
    requires Inv(c) && p in c && !c[p].alive && now - c[p].exitTime > EXPIRE_TIME
    ensures p !in Step(c, Clean(now)) && p !in Step(c, Cleanup(now))
  {
    assert EntryOk(p, c[p]);
  }

  /**
   What was just read as living, from `/proc` or from an event, is cached as alive exactly when
   its pid was not cached as dead; otherwise it takes over the death and the times of the entry.
   */
  lemma CachedAliveIff(c: Cache, info: Info)
    requires Inv(c) && (FromProc(info) || FromEvent(info))
    ensures var now := Step(c, Refresh(info))[info.pid];
            && Step(c, Refresh(info)) == Step(c, Enrich(info))
            && now.pid == info.pid && now.details == info.details && now.state == info.state
            && now.updateTime == info.updateTime && now.startTime == info.startTime && now.rich == info.rich
            && (now.alive <==> info.pid !in c || c[info.pid].alive)
            && now.exitTime == (if info.pid in c then c[info.pid].exitTime else 0)
            && now.createTime == (if info.pid in c then c[info.pid].createTime else info.createTime)
    ensures Step(c, Refresh(info)).Keys == c.Keys + {info.pid}
    ensures forall p :: p in c && p != info.pid ==> Step(c, Refresh(info))[p] == c[p]
  {
    assert info.pid in c ==> EntryOk(info.pid, c[info.pid]);
  }

  lemma AfterOne(c: Cache, a: Action)
    ensures After(c, [a]) == Step(c, a)
  {
    hide Step;
    assert [a][..0] == [];
    assert After(c, [a][..0]) == c;
  }

  lemma AfterAppend(c: Cache, actions: seq<Action>, a: Action)
    ensures After(c, actions + [a]) == Step(After(c, actions), a)
  {
    hide Step;
    assert (actions + [a])[..|actions|] == actions;
  }

  /**
   Both failures are reached: a process dies, its pid is reused by a living one, which is then
   read from `/proc` or seen in an event, and the cache holds it as dead.
   */
  lemma ReusedPidStaysDead(first: Info, died: int, second: Info)
    requires FromProc(first) && second.pid == first.pid && died > 0
    ensures var dies := Monitor({first.pid}, map[first.pid := died]);
            && (FromProc(second) ==> EndsDead([Refresh(first), dies, Refresh(second)], second))
            && (FromEvent(second) ==> EndsDead([Refresh(first), dies, Enrich(second)], second))
  {
    hide After;
    var refresh, mark := Refresh(first), Monitor({first.pid}, map[first.pid := died]);
    AfterOne(map[], refresh);
    AfterAppend(map[], [refresh], mark);
    AfterAppend(map[], [refresh, mark], Refresh(second));
    AfterAppend(map[], [refresh, mark], Enrich(second));
    assert [refresh] + [mark] == [refresh, mark];
    assert [refresh, mark] + [Refresh(second)] == [refresh, mark, Refresh(second)];
    assert [refresh, mark] + [Enrich(second)] == [refresh, mark, Enrich(second)];
  }

  /** A run of legal steps that ends with this process cached, and cached as dead. */
  ghost predicate EndsDead(actions: seq<Action>, info: Info) {
    && AllLegal(actions)
    && var c := After(map[], actions);
    info.pid in c && c[info.pid].details == info.details && !c[info.pid].alive
  }

  // ---------------------------------------------------------------------------
  // The hash table, changed in place

  ghost function Alive(c: Cache): set<Pid> {
    set p | p in c && c[p].alive
  }

  ghost function Dead(c: Cache): set<Pid> {
    set p | p in c && !c[p].alive
  }

  predicate Agree(c: Cache, d: Cache, p: Pid) {
    (p in c <==> p in d) && (p in c ==> c[p] == d[p])
  }

  /** A pass over the table that still has to visit `todo`. */
  ghost predicate Midway(before: Cache, c: Cache, after: Cache, todo: set<Pid>) {
    forall p :: if p in todo then p in before && Agree(c, before, p) else Agree(c, after, p)
  }

  lemma MidwayStart(before: Cache, after: Cache)
    requires after.Keys <= before.Keys
    ensures Midway(before, before, after, before.Keys)
  {
  }

  lemma MidwayStep(before: Cache, c: Cache, d: Cache, after: Cache, todo: set<Pid>, p: Pid)
    requires Midway(before, c, after, todo) && p in todo
    requires Agree(d, after, p) && forall q :: q != p ==> Agree(d, c, q)
    ensures Midway(before, d, after, todo - {p})
  {
    forall q ensures if q in todo - {p} then q in before && Agree(d, before, q) else Agree(d, after, q) {
      assert q != p ==> Agree(d, c, q);
    }
  }

  lemma MidwayEnd(before: Cache, c: Cache, after: Cache)
    requires Midway(before, c, after, {})
    ensures c == after
  {
    forall p: Pid ensures Agree(c, after, p) {
    }
    assert forall p: Pid :: p in c <==> p in after by {
      forall p: Pid ensures p in c <==> p in after {
        assert Agree(c, after, p);
      }
    }
    assert c.Keys == after.Keys;
    forall p: Pid | p in c ensures c[p] == after[p] {
      assert Agree(c, after, p);
    }
  }

  /** What a pass makes of one entry. */
  lemma StepAt(c: Cache, a: Action, p: Pid)
    requires p in c
    ensures a.Monitor? ==> p in Step(c, a) && Step(c, a)[p] == Mark(c[p], a.gone, a.clock)
    ensures a.Clean? ==> (p in Step(c, a) <==> !Expired(c[p], a.now)) && (p in Step(c, a) ==> Step(c, a)[p] == c[p])
    ensures a.Cleanup? ==> (p in Step(c, a) <==> !DeadTooLong(c[p], a.now))
                           && (p in Step(c, a) ==> Step(c, a)[p] == c[p])
  {
  }

  /** What is still to be visited is as it was. */
  lemma MidwayAt(before: Cache, c: Cache, after: Cache, todo: set<Pid>, p: Pid)
    requires Midway(before, c, after, todo) && p in todo
    ensures p in c && p in before && c[p] == before[p]
  {
  }

  /** The next entry of a pass. */
  method Next(todo: set<Pid>) returns (p: Pid)
    requires todo != {}
    ensures p in todo
  {
    p :| p in todo;
  }

  lemma StepShrinks(c: Cache, a: Action)
    requires a.Monitor? || a.Clean? || a.Cleanup?
    ensures Step(c, a).Keys <= c.Keys
  {
    forall p | p in Step(c, a).Keys ensures p in c.Keys {
    }
  }

  lemma EachIsCounted(c: Cache)
    ensures Alive(c) - c.Keys == {} && Dead(c) - c.Keys == {}
    ensures forall p :: p in c ==> (p in Alive(c) <==> c[p].alive) && (p in Dead(c) <==> !c[p].alive)
  {
  }

  /** Visiting one more element counts it exactly when it is of the counted kind. */
  lemma CountOneMore(kind: set<Pid>, todo: set<Pid>, p: Pid)
    requires p in todo
    ensures |kind - (todo - {p})| == |kind - todo| + if p in kind then 1 else 0
  {
    if p in kind {
      assert kind - (todo - {p}) == (kind - todo) + {p};
    } else {
      assert kind - (todo - {p}) == kind - todo;
    }
  }

  class ProcessTable {
    var entries: Cache

    constructor ()
      ensures entries == map[]
    {
      entries := map[];
    }

    /** The body shared by the refresh task and the update from an event. */
    method Update(info: Info)
      modifies this
      ensures entries == Put(old(entries), info)
    {
      var merged := info;
      if info.pid in entries {
        var was := entries[info.pid];
        merged := merged.(createTime := was.createTime);
        if !was.alive && was.exitTime > 0 {
          merged := merged.(exitTime := was.exitTime, alive := false);
        }
        entries := entries - {info.pid};
      }
      entries := entries[info.pid := merged];
    }

    method UpdateTask(pid: Pid, shouldStop: bool, read: bool, info: Info)
      requires read ==> info.pid == pid
      modifies this
      ensures entries == if shouldStop || !read then old(entries) else Put(old(entries), info)
    {
      if shouldStop || !read {
        return;
      }
      Update(info);
    }

    /** The monitor's pass: one entry after the other. */
    method MarkDead(gone: set<Pid>, clock: map<Pid, int>)
      requires Inv(entries) && Legal(Monitor(gone, clock))
      modifies this
      ensures entries == Step(old(entries), Monitor(gone, clock))
    {
      hide Step, Midway;
      ghost var after := Step(entries, Monitor(gone, clock));
      StepShrinks(entries, Monitor(gone, clock));
      MidwayStart(entries, after);
      var todo := entries.Keys;
      while todo != {}
        invariant todo <= old(entries).Keys
        invariant Midway(old(entries), entries, after, todo)
        decreases todo
      {
        var p := Next(todo);
        assert EntryOk(p, old(entries)[p]);
        MidwayAt(old(entries), entries, after, todo, p);
        StepAt(old(entries), Monitor(gone, clock), p);
        ghost var was := entries;
        var info := entries[p];
        if !info.rich && info.alive && p in gone {
          entries := entries[p := info.(alive := false, exitTime := clock[p], state := Exited)];
        }
        MidwayStep(old(entries), was, entries, after, todo, p);
        todo := todo - {p};
      }
      MidwayEnd(old(entries), entries, after);
    }

    /** The cleaner's pass. */
    method CleanExpired(now: int)
      modifies this
      ensures entries == Step(old(entries), Clean(now))
    {
      hide Step, Midway;
      ghost var after := Step(entries, Clean(now));
      StepShrinks(entries, Clean(now));
      MidwayStart(entries, after);
      var todo := entries.Keys;
      while todo != {}
        invariant todo <= old(entries).Keys
        invariant Midway(old(entries), entries, after, todo)
        decreases todo
      {
        var p := Next(todo);
        MidwayAt(old(entries), entries, after, todo, p);
        StepAt(old(entries), Clean(now), p);
        ghost var was := entries;
        var info := entries[p];
        if (info.rich && (now - info.startTime) % U64 > EXPIRE_TIME)
           || (!info.alive && info.exitTime > 0 && now - info.exitTime > EXPIRE_TIME)
        {
          entries := entries - {p};
        }
        MidwayStep(old(entries), was, entries, after, todo, p);
        todo := todo - {p};
      }
      MidwayEnd(old(entries), entries, after);
    }

    /** Removal on request; the result is by how much the cache shrank. */
    method CleanDead(now: int) returns (cleaned: nat)
      modifies this
      ensures entries == Step(old(entries), Cleanup(now))
      ensures cleaned == |old(entries)| - |entries|
    {
      hide Step, Midway;
      ghost var after := Step(entries, Cleanup(now));
      StepShrinks(entries, Cleanup(now));
      MidwayStart(entries, after);
      cleaned := 0;
      var todo := entries.Keys;
      while todo != {}
        invariant todo <= old(entries).Keys
        invariant Midway(old(entries), entries, after, todo)
        invariant cleaned + |entries| == |old(entries)|
        decreases todo
      {
        var p := Next(todo);
        MidwayAt(old(entries), entries, after, todo, p);
        StepAt(old(entries), Cleanup(now), p);
        ghost var was := entries;
        var info := entries[p];
        if !info.alive && info.exitTime > 0 && now - info.exitTime > EXPIRE_TIME {
          SmallerByOne(entries, p);
          entries := entries - {p};
          cleaned := cleaned + 1;
        }
        MidwayStep(old(entries), was, entries, after, todo, p);
        todo := todo - {p};
      }
      MidwayEnd(old(entries), entries, after);
    }

    method DeletePid(pid: Pid)
      modifies this
      ensures entries == Step(old(entries), Delete(pid))
    {
      if pid in entries {
        entries := entries - {pid};
      }
    }

    /** Every entry is counted once, as alive or as expired. */
    method Stats() returns (total: nat, alive: nat, expired: nat)
      ensures total == |entries| && alive == |Alive(entries)| && expired == |Dead(entries)|
      ensures total == alive + expired
    {
      hide Alive, Dead;
      total, alive, expired := 0, 0, 0;
      var todo := entries.Keys;
      ghost var live, dead := Alive(entries), Dead(entries);
      EachIsCounted(entries);
      while todo != {}
        invariant todo <= entries.Keys
        invariant alive == |live - todo| && expired == |dead - todo|
        invariant total == alive + expired && total + |todo| == |entries|
        decreases todo
      {
        var p := Next(todo);
        CountOneMore(live, todo, p);
        CountOneMore(dead, todo, p);
        total := total + 1;
        if entries[p].alive {
          alive := alive + 1;
        } else {
          expired := expired + 1;
        }
        todo := todo - {p};
      }
      assert live - {} == live && dead - {} == dead;
    }

    /** A copy of every entry, each once. */
    method GetAll() returns (list: seq<Info>)
      requires Inv(entries)
      ensures |list| == |entries|
      ensures forall k :: 0 <= k < |list| ==> list[k].pid in entries && entries[list[k].pid] == list[k]
      ensures forall p :: p in entries ==> entries[p] in list
    {
      list := [];
      var todo := entries.Keys;
      while todo != {}
        invariant todo <= entries.Keys && |list| + |todo| == |entries|
        invariant forall k :: 0 <= k < |list| ==> list[k].pid in entries && entries[list[k].pid] == list[k]
        invariant forall p :: p in entries && p !in todo ==> entries[p] in list
        decreases todo
      {
        var p := Next(todo);
        assert EntryOk(p, entries[p]);
        list := list + [entries[p]];
        todo := todo - {p};
      }
    }
  }

  lemma SmallerByOne(c: Cache, p: Pid)
    requires p in c
    ensures |c - {p}| == |c| - 1
  {
    assert c == (c - {p})[p := c[p]];
  }
}
