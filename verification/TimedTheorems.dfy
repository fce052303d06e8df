/**
 Each handler follows a greedy schedule of its actions and the semaphore a greedy schedule of the handlers, so the
 bounds on schedules are bounds on the steps, and the lock duration is compared with the steps.
 */
module TimedTheorems {
  import opened Collections
  import opened Progress
  import opened Dispatch
  import opened DispatchLiveness
  import opened Makespan
  import opened TenantLocks
  import opened Pools
  import opened Timed
  import opened TimedSteps

  // ---------------------------------------------------------------------------
  // The batch follows greedy schedules
  // ---------------------------------------------------------------------------

  /** The schedule of one handler: n jobs on k workers. */
  ghost predicate Follows(s: Schedule, p: Timing, k: nat, n: nat) {
    Greedy(s) && AtMost(s, p.longest) && s.workers == k && s.delay == p.delay && |s.durations| == n
  }

  /** The handlers follow these schedules, and the semaphore runs them greedily, each for as long as it takes. */
  ghost predicate FollowsAll(c: Config, p: Timing, tenants: Schedule, perTenant: seq<Schedule>) {
    && Greedy(tenants) && tenants.delay == 0 && tenants.workers == c.slots
    && |tenants.durations| == |c.groups| && |perTenant| == |c.groups|
    && forall g :: 0 <= g < |perTenant| ==>
         Follows(perTenant[g], p, c.workers, |c.groups[g]|) && EndsAt(perTenant[g], tenants.durations[g])
  }

  function Plans(p: Timing, x: Clock): (plans: seq<Schedule>)
    ensures |plans| == |x.pools|
    ensures forall g :: 0 <= g < |x.pools| ==> plans[g] == Plan(p.delay, x.pools[g])
  {
    seq(|x.pools|, g requires 0 <= g < |x.pools| => Plan(p.delay, x.pools[g]))
  }

  lemma HandlerIsGreedy(c: Config, p: Timing, s: State, pools: seq<Pool>, slots: Pool, g: nat)
    requires HandlersOk(c, s) && PoolsOk(c, p, s, pools) && SlotsOk(c, s.handlers, |s.handlers|, pools, slots)
    requires g < |s.handlers| && s.handlers[g].phase == Finished
    ensures g < |slots.durations| && Follows(Plan(p.delay, pools[g]), p, c.workers, |c.groups[g]|)
    ensures EndsAt(Plan(p.delay, pools[g]), slots.durations[g])
  {
    var h, q := s.handlers[g], pools[g];
    assert PoolOk(p, h, q, |c.groups[g]|) && JobOk(h, q, slots, g);
    assert HandlerOk(c, c.groups[g], h, s.cancelled);
    forall w | 0 <= w < |q.workers|
      ensures q.workers[w] == Gone
    {
      assert WorkerOk(c.groups[g], h.phase, h.workers[w], s.cancelled);
    }
    AllLeft(p.delay, q);
  }

  lemma SemaphoreIsGreedy(c: Config, s: State, pools: seq<Pool>, slots: Pool)
    requires SlotsOk(c, s.handlers, |s.handlers|, pools, slots) && AllQuiet(s)
    ensures Greedy(Plan(0, slots)) && EndsAt(Plan(0, slots), slots.now)
  {
    forall w | 0 <= w < |slots.workers|
      ensures slots.workers[w] == Free
    {
      assert SlotOk(s.handlers, slots, w);
    }
    AllLeft(0, slots);
  }

  lemma FinishedIsGreedy(c: Config, p: Timing, x: Clock)
    requires HandlersOk(c, x.s) && PoolsOk(c, p, x.s, x.pools) && AllFinished(x.s)
    requires SlotsOk(c, x.s.handlers, |x.s.handlers|, x.pools, x.slots)
    ensures FollowsAll(c, p, Plan(0, x.slots), Plans(p, x)) && EndsAt(Plan(0, x.slots), x.slots.now)
  {
    SemaphoreIsGreedy(c, x.s, x.pools, x.slots);
    forall g | 0 <= g < |x.pools|
      ensures Follows(Plans(p, x)[g], p, c.workers, |c.groups[g]|)
      ensures EndsAt(Plans(p, x)[g], x.slots.durations[g])
    {
      HandlerIsGreedy(c, p, x.s, x.pools, x.slots, g);
    }
  }

  /**
   In every timed run of a batch that reaches CompleteAction, each handler followed a greedy schedule of exactly its
   actions, the semaphore ran the handlers greedily, and CompleteAction is reached exactly when that ends.
   */
  lemma TimedBatchIsGreedy(c: Config, p: Timing, events: seq<Event>)
    requires ValidConfig(c) && TimedRun(c, p, Start(c), events)
    requires TimedOutcome(c, p, Start(c), events).s.dispatcher == Reported
    ensures var x := TimedOutcome(c, p, Start(c), events);
      FollowsAll(c, p, Plan(0, x.slots), Plans(p, x)) && EndsAt(Plan(0, x.slots), x.slots.now)
  {
    StartInv(c, p);
    TimedRunKeepsInv(c, p, Start(c), events);
    ReportedIsGreedy(c, p, TimedOutcome(c, p, Start(c), events));
  }

  lemma ReportedIsGreedy(c: Config, p: Timing, x: Clock)
    requires TimedInv(c, p, x) && x.s.dispatcher == Reported
    ensures FollowsAll(c, p, Plan(0, x.slots), Plans(p, x)) && EndsAt(Plan(0, x.slots), x.slots.now)
  {
    FinishedIsGreedy(c, p, x);
  }

  // ---------------------------------------------------------------------------
  // Every run can be completed, so the bounds hold at every moment
  // ---------------------------------------------------------------------------

  predicate DelayingAt(x: Clock, g: nat, w: nat) {
    g < |x.pools| && AtWorker(x.s, g, w) && WorkerAt(x.s, g, w) == Delaying && w < |x.pools[g].since|
  }

  /** How long the delay of a worker still takes. */
  function DelayLeft(p: Timing, x: Clock, g: nat, w: nat): int
    requires DelayingAt(x, g, w)
  {
    x.pools[g].since[w] + p.delay - x.pools[g].now
  }

  lemma DelayIsLeft(c: Config, p: Timing, x: Clock, g: nat, w: nat)
    requires PoolsOk(c, p, x.s, x.pools) && DelayingAt(x, g, w)
    ensures DelayLeft(p, x, g, w) >= 0 && (DelayLeft(p, x, g, w) == 0 ==> CanRest(p.delay, x.pools[g], w))
  {
    assert PoolOk(p, x.s.handlers[g], x.pools[g], |c.groups[g]|);
    assert WatchOk(p.delay, x.pools[g], w);
  }

  ghost predicate FirstToRest(p: Timing, x: Clock, g: nat, w: nat) {
    DelayingAt(x, g, w) && forall k, v :: DelayingAt(x, k, v) ==> DelayLeft(p, x, g, w) <= DelayLeft(p, x, k, v)
  }

  lemma {:induction false} SomeFirstToRest(c: Config, p: Timing, x: Clock, g: nat, w: nat) returns (k: nat, v: nat)
    requires PoolsOk(c, p, x.s, x.pools) && DelayingAt(x, g, w)
    ensures FirstToRest(p, x, k, v)
    decreases DelayLeft(p, x, g, w)
  {
    DelayIsLeft(c, p, x, g, w);
    if i, j :| DelayingAt(x, i, j) && DelayLeft(p, x, i, j) < DelayLeft(p, x, g, w) {
      DelayIsLeft(c, p, x, i, j);
      k, v := SomeFirstToRest(c, p, x, i, j);
    } else {
      k, v := g, w;
    }
  }

  /** Somebody's delay is over. */
  ghost predicate SomeoneCanRest(p: Timing, x: Clock) {
    exists g: nat, w: nat :: DelayingAt(x, g, w) && CanRest(p.delay, x.pools[g], w)
  }

  predicate RestartingAt(s: State, g: nat, w: nat) {
    AtWorker(s, g, w) && WorkerAt(s, g, w).Restarting?
  }

  ghost predicate NobodyRestarts(s: State) {
    forall g: nat, w: nat :: !RestartingAt(s, g, w)
  }

  /** When nothing else can be done, wait for the first delay to end, or end it. */
  lemma WaitForDelay(c: Config, p: Timing, x: Clock, g: nat, w: nat) returns (v: Event)
    requires PoolsOk(c, p, x.s, x.pools) && Still(c, x.s) && x.s.dispatcher != Reported
    requires FirstToRest(p, x, g, w) && NobodyRestarts(x.s)
    ensures CanHappen(c, p, x, v)
    ensures v.Wait? ==> SomeoneCanRest(p, Happen(c, p, x, v))
  {
    DelayIsLeft(c, p, x, g, w);
    if DelayLeft(p, x, g, w) == 0 {
      v := Act(DelayOver(g, w));
    } else {
      v := Wait(DelayLeft(p, x, g, w));
      forall k: nat, j: nat
        ensures OnTime(p, x.s, x.pools, k, j, v.time)
      {
        assert !RestartingAt(x.s, k, j);
        if DelayingAt(x, k, j) {
          assert DelayLeft(p, x, g, w) <= DelayLeft(p, x, k, j);
        }
      }
      var y := Happen(c, p, x, v);
      assert DelayingAt(y, g, w) && CanRest(p.delay, y.pools[g], w);
    }
  }

  /** The next thing to do: end a restart, make a step that takes no time, or wait for a delay to end. */
  lemma CanGoOn(c: Config, p: Timing, x: Clock) returns (v: Event)
    requires TimedInv(c, p, x) && x.s.dispatcher != Reported
    ensures CanHappen(c, p, x, v)
    ensures v.Wait? ==> SomeoneCanRest(p, Happen(c, p, x, v))
  {
    if g: nat, w: nat :| RestartingAt(x.s, g, w) {
      v := Act(FinishRestart(g, w, true));
    } else if step :| Instant(step) && Enabled(c, x.s, step) {
      v := Act(step);
    } else {
      v := GoOnWhenStill(c, p, x);
    }
  }

  lemma GoOnWhenStill(c: Config, p: Timing, x: Clock) returns (v: Event)
    requires Settled(c, x.s) && PoolsOk(c, p, x.s, x.pools) && NobodyRestarts(x.s)
    ensures CanHappen(c, p, x, v)
    ensures v.Wait? ==> SomeoneCanRest(p, Happen(c, p, x, v))
  {
    SettledIsAtRest(c, x.s);
    var g, w := SomeoneDelays(c, p, x);
    var k, j := SomeFirstToRest(c, p, x, g, w);
    v := WaitForDelay(c, p, x, k, j);
  }

  lemma SomeoneDelays(c: Config, p: Timing, x: Clock) returns (g: nat, w: nat)
    requires AtRest(c, x.s) && PoolsOk(c, p, x.s, x.pools) && NobodyRestarts(x.s)
    ensures DelayingAt(x, g, w)
  {
    g :| 0 <= g < Spawned(x.s) && g < |x.s.handlers| && Active(x.s.handlers[g]);
    assert SomeoneWaits(x.s.handlers[g]);
    w :| 0 <= w < |x.s.handlers[g].workers|
         && (x.s.handlers[g].workers[w].Restarting? || x.s.handlers[g].workers[w] == Delaying);
    assert AtWorker(x.s, g, w) && !RestartingAt(x.s, g, w);
    assert PoolOk(p, x.s.handlers[g], x.pools[g], |c.groups[g]|);
  }

  /** One event further: less work, or as much work and a delay that is over. */
  lemma Onwards(c: Config, p: Timing, x: Clock) returns (v: Event)
    requires TimedInv(c, p, x) && x.s.dispatcher != Reported
    ensures CanHappen(c, p, x, v)
    ensures var y := Happen(c, p, x, v);
      && x.slots.now <= y.slots.now
      && (Work(y.s) < Work(x.s) || (Work(y.s) == Work(x.s) && !SomeoneCanRest(p, x) && SomeoneCanRest(p, y)))
  {
    v := RestOrGoOn(c, p, x);
    if v.Act? {
      ActLeavesLess(c, p, x, v.step);
    }
  }

  lemma RestOrGoOn(c: Config, p: Timing, x: Clock) returns (v: Event)
    requires TimedInv(c, p, x) && x.s.dispatcher != Reported
    ensures CanHappen(c, p, x, v)
    ensures v.Wait? ==> !SomeoneCanRest(p, x) && SomeoneCanRest(p, Happen(c, p, x, v))
  {
    if SomeoneCanRest(p, x) {
      v := RestNow(c, p, x);
    } else {
      v := CanGoOn(c, p, x);
    }
  }

  lemma RestNow(c: Config, p: Timing, x: Clock) returns (v: Event)
    requires SomeoneCanRest(p, x)
    ensures v.Act? && CanHappen(c, p, x, v)
  {
    var g: nat, w: nat :| DelayingAt(x, g, w) && CanRest(p.delay, x.pools[g], w);
    v := Act(DelayOver(g, w));
  }

  lemma ActLeavesLess(c: Config, p: Timing, x: Clock, step: Step)
    requires DispatcherOk(x.s) && CanHappen(c, p, x, Act(step))
    ensures var y := Happen(c, p, x, Act(step)); y.slots.now == x.slots.now && Work(y.s) < Work(x.s)
  {
    WorkFalls(c, x.s, step);
  }

  lemma {:induction false} CanBeCompleted(c: Config, p: Timing, x: Clock) returns (events: seq<Event>)
    requires TimedInv(c, p, x)
    ensures TimedRun(c, p, x, events)
    ensures TimedOutcome(c, p, x, events).s.dispatcher == Reported
    ensures x.slots.now <= TimedOutcome(c, p, x, events).slots.now
    decreases Work(x.s), if SomeoneCanRest(p, x) then 0 else 1
  {
    if x.s.dispatcher == Reported {
      return [];
    }
    var v := Onwards(c, p, x);
    HappenKeepsInv(c, p, x, v);
    var rest := CanBeCompleted(c, p, Happen(c, p, x, v));
    events := [v] + rest;
    FirstThenRest(c, p, x, v, rest);
  }

  lemma FirstThenRest(c: Config, p: Timing, x: Clock, v: Event, rest: seq<Event>)
    requires CanHappen(c, p, x, v) && TimedRun(c, p, Happen(c, p, x, v), rest)
    ensures TimedRun(c, p, x, [v] + rest)
    ensures TimedOutcome(c, p, x, [v] + rest) == TimedOutcome(c, p, Happen(c, p, x, v), rest)
  {
    assert ([v] + rest)[1..] == rest;
  }

  /** At no moment of a timed run is it later than the end of some greedy schedules of the batch. */
  lemma ScheduleOutlasts(c: Config, p: Timing, events: seq<Event>)
    returns (tenants: Schedule, perTenant: seq<Schedule>, end: nat)
    requires ValidConfig(c) && TimedRun(c, p, Start(c), events)
    ensures FollowsAll(c, p, tenants, perTenant) && EndsAt(tenants, end)
    ensures TimedOutcome(c, p, Start(c), events).slots.now <= end
  {
    StartInv(c, p);
    TimedRunKeepsInv(c, p, Start(c), events);
    var x := TimedOutcome(c, p, Start(c), events);
    var more := CanBeCompleted(c, p, x);
    TimedRunKeepsInv(c, p, x, more);
    var y := TimedOutcome(c, p, x, more);
    ReportedIsGreedy(c, p, y);
    tenants, perTenant, end := Plan(0, y.slots), Plans(p, y), y.slots.now;
  }

  /**
   At no moment of a timed run of handlers with at most m actions each is it later than
   ceil(G / t) * ceil(m / k) * (D + delay).
   */
  lemma TimedTenantsAreOverBy(c: Config, p: Timing, events: seq<Event>, m: nat)
    requires ValidConfig(c) && TimedRun(c, p, Start(c), events)
    requires forall g :: 0 <= g < |c.groups| ==> |c.groups[g]| <= m
    ensures TimedOutcome(c, p, Start(c), events).slots.now
         <= Batches(|c.groups|, c.slots) * (Batches(m, c.workers) * (p.longest + p.delay))
  {
    var tenants, perTenant, end := ScheduleOutlasts(c, p, events);
    TenantsAreOverBy(tenants, perTenant, p.longest, p.delay, c.workers, m);
  }

  /** At no moment of a timed run of dispatchAll is it later than ceil(N / k) * (D + delay). */
  lemma TimedBatchIsOverBy(c: Config, p: Timing, events: seq<Event>)
    requires ValidConfig(c) && !c.perTenant && TimedRun(c, p, Start(c), events)
    ensures TimedOutcome(c, p, Start(c), events).slots.now
         <= Batches(|Actions(c)|, c.workers) * (p.longest + p.delay)
  {
    assert c.groups == [c.groups[0]];
    ConcatOne(c.groups[0]);
    OneRound(1, 1);
    TimedTenantsAreOverBy(c, p, events, |Actions(c)|);
  }

  // ---------------------------------------------------------------------------
  // The lock duration
  // ---------------------------------------------------------------------------

  /** A batch under these options, in which no restart takes longer than configured. */
  ghost predicate Configured(o: RestartOptions, c: Config, p: Timing) {
    && ValidConfig(c) && c.workers == o.nodesInflight
    && p == Timing(o.delayBetweenRestarts, SECOND * o.restartDuration)
  }

  /** With a retry configured, the locks outlive every moment of every timed run of dispatchAll. */
  lemma LocksOutliveTheBatch(o: RestartOptions, c: Config, p: Timing, events: seq<Event>)
    requires Configured(o, c, p) && !c.perTenant && o.restartRetryNumber >= 1 && TimedRun(c, p, Start(c), events)
    ensures TimedOutcome(c, p, Start(c), events).slots.now <= GetRestartDuration(o, |Actions(c)|)
  {
    var n := |Actions(c)|;
    DurationGrows(o, n);
    assert Batches(n, c.workers) * (p.longest + p.delay) <= GetRestartDuration(o, n);
    TimedBatchIsOverBy(c, p, events);
  }

  /** The number of actions of each handler. */
  function Sizes(groups: seq<seq<Action>>): (sizes: seq<nat>)
    ensures |sizes| == |groups|
    ensures forall g :: 0 <= g < |groups| ==> sizes[g] == |groups[g]|
  {
    seq(|groups|, g requires 0 <= g < |groups| => |groups[g]|)
  }

  lemma {:induction false} SizesAddUp(groups: seq<seq<Action>>)
    ensures Total(Sizes(groups)) == |Concat(groups)|
  {
    if groups != [] {
      var n := |groups| - 1;
      SizesAddUp(groups[..n]);
      assert Sizes(groups)[..n] == Sizes(groups[..n]);
    }
  }

  /** If they cover a batch of tenants of these sizes, the locks outlive every moment of every timed run by tenant. */
  lemma LocksOutliveTenants(o: RestartOptions, c: Config, p: Timing, events: seq<Event>)
    requires Configured(o, c, p) && TimedRun(c, p, Start(c), events)
    requires LocksCoverByTenant(o, c.slots, Sizes(c.groups))
    ensures TimedOutcome(c, p, Start(c), events).slots.now <= GetRestartDuration(o, |Actions(c)|)
  {
    var tenants, perTenant, end := ScheduleOutlasts(c, p, events);
    forall g | 0 <= g < |c.groups|
      ensures DispatchesAll(o, Sizes(c.groups)[g], perTenant[g]) && EndsAt(perTenant[g], tenants.durations[g])
    {
      assert Follows(perTenant[g], p, c.workers, |c.groups[g]|);
    }
    assert DispatchesByTenant(o, c.slots, Sizes(c.groups), tenants, perTenant);
    SizesAddUp(c.groups);
  }
}
