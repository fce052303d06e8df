/** Everything that happens in a timed run keeps the pools of the handlers and the pool of the semaphore in order. */
module TimedSteps {
  import opened Sums
  import opened Progress
  import opened Dispatch
  import DispatchSafety
  import opened DispatchLiveness
  import opened Makespan
  import opened Pools
  import opened Timed

  // ---------------------------------------------------------------------------
  // A step and the pool of its handler
  // ---------------------------------------------------------------------------

  /** What a step of an uncancelled batch does to its handler. */
  ghost predicate Effect(h: Handler, k: Handler, step: Step) {
    && k.phase != Waiting && |k.workers| == |h.workers|
    && match step
       case Handoff(_, w) =>
         && w < |h.workers| && h.workers[w] == Idle && HandsOver(h)
         && Duties(k) == Duties(h)[w := Busy] && |k.pending| + 1 == |h.pending|
       case FinishRestart(_, w, _) =>
         && w < |h.workers| && h.workers[w].Restarting?
         && Duties(k) == Duties(h)[w := Telling] && k.pending == h.pending && k.phase == h.phase
       case SendStatus(_, w) =>
         && w < |h.workers| && h.workers[w].Sending?
         && Duties(k) == Duties(h)[w := Resting] && k.pending == h.pending && k.phase == h.phase
       case DelayOver(_, w) =>
         && w < |h.workers| && h.workers[w] == Delaying
         && Duties(k) == Duties(h)[w := Free] && k.pending == h.pending && k.phase == h.phase
       case SeeClosed(_, w) =>
         && w < |h.workers| && h.workers[w] == Idle && !HandsOver(h)
         && Duties(k) == Duties(h)[w := Gone] && k.pending == h.pending && k.phase == h.phase
       case _ => Duties(k) == Duties(h) && k.pending == h.pending && (HandsOver(k) ==> HandsOver(h))
  }

  lemma OthersStay(c: Config, s: State, step: Step)
    requires Enabled(c, s, step) && step != Cancel
    ensures var t := Apply(c, s, step);
      && |t.handlers| == |s.handlers| && t.cancelled == s.cancelled
      && forall g :: 0 <= g < |s.handlers| && g != HandlerIndex(s, step) ==> t.handlers[g] == s.handlers[g]
  {
  }

  lemma StepHasEffect(c: Config, s: State, step: Step, g: nat)
    requires DispatcherOk(s) && Enabled(c, s, step) && step != Cancel && !s.cancelled
    requires g < |s.handlers| && g == HandlerIndex(s, step)
    ensures Effect(s.handlers[g], Apply(c, s, step).handlers[g], step)
  {
    var h, k := s.handlers[g], Apply(c, s, step).handlers[g];
    match step {
      case Handoff(_, w) => assert Duties(k) == Duties(h)[w := Busy];
      case BeginRestart(_, w) => assert Duties(k) == Duties(h);
      case FinishRestart(_, w, _) => assert Duties(k) == Duties(h)[w := Telling];
      case SendStatus(_, w) => assert Duties(k) == Duties(h)[w := Resting];
      case DelayOver(_, w) => assert Duties(k) == Duties(h)[w := Free];
      case SeeClosed(_, w) => assert Duties(k) == Duties(h)[w := Gone];
      case _ =>
    }
  }

  lemma MoveKeepsInv(p: Timing, h: Handler, k: Handler, q: Pool, n: nat, step: Step)
    requires PoolOk(p, h, q, n) && Effect(h, k, step)
    requires step.DelayOver? ==> CanRest(p.delay, q, step.w)
    ensures PoolInv(p.delay, Moved(p, q, k, step))
  {
    match step {
      case Handoff(_, w) => StartKeeps(p.delay, q, w, HandsOver(k));
      case FinishRestart(_, w, _) =>
        assert WatchOk(p.delay, q, w);
        EndKeeps(p.delay, q, w);
      case SendStatus(_, w) => TellKeeps(p.delay, q, w);
      case DelayOver(_, w) => RestKeeps(p.delay, q, w);
      case SeeClosed(_, w) => LeaveKeeps(p.delay, q, w);
      case _ => CloseKeeps(p.delay, q, HandsOver(k));
    }
  }

  lemma MoveKeeps(p: Timing, h: Handler, k: Handler, q: Pool, n: nat, step: Step)
    requires PoolOk(p, h, q, n) && Effect(h, k, step)
    requires step.DelayOver? ==> CanRest(p.delay, q, step.w)
    ensures PoolOk(p, k, Moved(p, q, k, step), n)
    ensures Moved(p, q, k, step).now == q.now
  {
    MoveKeepsInv(p, h, k, q, n, step);
    MoveKeepsDuties(p, h, k, q, n, step);
  }

  lemma MoveKeepsDuties(p: Timing, h: Handler, k: Handler, q: Pool, n: nat, step: Step)
    requires PoolOk(p, h, q, n) && Effect(h, k, step)
    requires step.DelayOver? ==> CanRest(p.delay, q, step.w)
    ensures var r := Moved(p, q, k, step);
      && r.workers == Duties(k) && r.open == HandsOver(k) && Within(p.longest, r)
      && |r.choices| + |k.pending| == n && r.now == q.now
  {
    if step.FinishRestart? {
      assert WatchOk(p.delay, q, step.w);
    }
  }

  lemma ActKeepsPools(c: Config, p: Timing, s: State, t: State, pools: seq<Pool>, step: Step)
    requires DispatcherOk(s) && !s.cancelled && PoolsOk(c, p, s, pools)
    requires step != Cancel && Enabled(c, s, step) && t == Apply(c, s, step)
    requires step.DelayOver? ==> step.g < |pools| && CanRest(p.delay, pools[step.g], step.w)
    ensures PoolsOk(c, p, t, PoolsMoved(p, pools, s, t, step)) && SameTimes(pools, PoolsMoved(p, pools, s, t, step))
  {
    var more := PoolsMoved(p, pools, s, t, step);
    OthersStay(c, s, step);
    forall g | 0 <= g < |pools|
      ensures PoolOk(p, t.handlers[g], more[g], |c.groups[g]|) && more[g].now == pools[g].now
    {
      assert PoolOk(p, s.handlers[g], pools[g], |c.groups[g]|);
      if g == HandlerIndex(s, step) {
        StepHasEffect(c, s, step, g);
        MoveKeeps(p, s.handlers[g], t.handlers[g], pools[g], |c.groups[g]|, step);
      }
    }
  }

  // ---------------------------------------------------------------------------
  // A step and the semaphore
  // ---------------------------------------------------------------------------

  /** While fewer handlers are active than there are slots, one of these is free. */
  lemma {:induction false} SomeSlotFree(duties: seq<Duty>)
    requires Sum(duties, Taking) < |duties| && forall w :: 0 <= w < |duties| ==> duties[w] == Busy || duties[w] == Free
    ensures FreeSlot(duties) < |duties|
  {
    if FreeSlot(duties) == |duties| {
      AllTaken(duties);
    }
  }

  lemma {:induction false} AllTaken(duties: seq<Duty>)
    requires forall w :: 0 <= w < |duties| ==> duties[w] == Busy
    ensures Sum(duties, Taking) == |duties|
  {
    if duties != [] {
      AllTaken(duties[..|duties| - 1]);
    }
  }

  lemma SlotToTake(c: Config, handlers: seq<Handler>, n: nat, pools: seq<Pool>, slots: Pool)
    requires SlotsOk(c, handlers, n, pools, slots) && n < |handlers| && Sum(handlers, ActiveCount) < c.slots
    ensures FreeSlot(slots.workers) < |slots.workers| && CanStart(slots, FreeSlot(slots.workers))
  {
    forall w | 0 <= w < |slots.workers|
      ensures slots.workers[w] == Busy || slots.workers[w] == Free
    {
      assert SlotOk(handlers, slots, w);
    }
    SomeSlotFree(slots.workers);
  }

  /** The times of the pools do not change while a step is made. */
  ghost predicate SameTimes(pools: seq<Pool>, more: seq<Pool>) {
    |more| == |pools| && forall g :: 0 <= g < |pools| ==> more[g].now == pools[g].now
  }

  /** Handler n, whose clock is at zero, takes a slot. */
  lemma SpawnKeepsSlots(c: Config, handlers: seq<Handler>, n: nat, later: seq<Handler>, pools: seq<Pool>,
                        more: seq<Pool>, slots: Pool)
    requires SlotsOk(c, handlers, n, pools, slots) && n < |handlers| && Sum(handlers, ActiveCount) < c.slots
    requires |later| == |handlers| && later == handlers[n := later[n]] && handlers[n].phase == Waiting
    requires Active(later[n]) && pools[n].now == 0 && SameTimes(pools, more)
    ensures FreeSlot(slots.workers) < |slots.workers| && CanStart(slots, FreeSlot(slots.workers))
    ensures SlotsOk(c, later, n + 1, more, Started(slots, FreeSlot(slots.workers), n + 1 < |handlers|))
  {
    var w := FreeSlot(slots.workers);
    SlotToTake(c, handlers, n, pools, slots);
    StartKeeps(0, slots, w, n + 1 < |handlers|);
    SpawnKeepsJobs(c, handlers, n, later, pools, more, slots, w);
    SumUpdate(slots.workers, w, Busy, Taking);
    SumUpdate(handlers, n, later[n], ActiveCount);
  }

  lemma SpawnKeepsJobs(c: Config, handlers: seq<Handler>, n: nat, later: seq<Handler>, pools: seq<Pool>,
                       more: seq<Pool>, slots: Pool, w: nat)
    requires SlotsOk(c, handlers, n, pools, slots) && n < |handlers| && CanStart(slots, w)
    requires |later| == |handlers| && later == handlers[n := later[n]] && handlers[n].phase == Waiting
    requires Active(later[n]) && pools[n].now == 0 && SameTimes(pools, more)
    ensures var moved := Started(slots, w, n + 1 < |handlers|);
      && (forall g :: 0 <= g < n + 1 ==> JobOk(later[g], more[g], moved, g))
      && (forall v :: 0 <= v < |moved.workers| ==> SlotOk(later, moved, v))
  {
    var moved := Started(slots, w, n + 1 < |handlers|);
    forall g | 0 <= g < n + 1
      ensures JobOk(later[g], more[g], moved, g)
    {
      if g < n {
        assert JobOk(handlers[g], pools[g], slots, g);
      }
    }
    forall v | 0 <= v < |moved.workers|
      ensures SlotOk(later, moved, v)
    {
      assert SlotOk(handlers, slots, v);
    }
  }

  /** Handler g is over and gives its slot back. */
  lemma DoneKeepsSlots(c: Config, handlers: seq<Handler>, n: nat, g: nat, later: seq<Handler>, pools: seq<Pool>,
                       more: seq<Pool>, slots: Pool)
    requires SlotsOk(c, handlers, n, pools, slots) && g < n && Active(handlers[g])
    requires |later| == |handlers| && later == handlers[g := later[g]] && later[g].phase == Finished
    requires SameTimes(pools, more)
    ensures g < |slots.choices| && CanEnd(slots, slots.choices[g])
    ensures SlotsOk(c, later, n, more, Released(slots, slots.choices[g]))
  {
    assert JobOk(handlers[g], pools[g], slots, g);
    var w := slots.choices[g];
    assert WatchOk(0, slots, w);
    ReleaseKeeps(slots, w);
    ReleaseKeepsJobs(c, handlers, n, g, later, pools, more, slots);
    SumUpdate(slots.workers, w, Free, Taking);
    SumUpdate(handlers, g, later[g], ActiveCount);
  }

  lemma ReleaseKeepsJobs(c: Config, handlers: seq<Handler>, n: nat, g: nat, later: seq<Handler>, pools: seq<Pool>,
                         more: seq<Pool>, slots: Pool)
    requires SlotsOk(c, handlers, n, pools, slots) && g < n && Active(handlers[g])
    requires |later| == |handlers| && later == handlers[g := later[g]] && later[g].phase == Finished
    requires SameTimes(pools, more) && CanEnd(slots, slots.choices[g])
    ensures var moved := Released(slots, slots.choices[g]);
      && (forall j :: 0 <= j < n ==> JobOk(later[j], more[j], moved, j))
      && (forall v :: 0 <= v < |moved.workers| ==> SlotOk(later, moved, v))
  {
    ReleaseKeeps(slots, slots.choices[g]);
    var moved := Released(slots, slots.choices[g]);
    assert JobOk(handlers[g], pools[g], slots, g);
    forall j | 0 <= j < n
      ensures JobOk(later[j], more[j], moved, j)
    {
      assert JobOk(handlers[j], pools[j], slots, j);
    }
    forall v | 0 <= v < |moved.workers|
      ensures SlotOk(later, moved, v)
    {
      assert SlotOk(handlers, slots, v);
    }
  }

  /** Handlers that neither begin nor end leave the semaphore alone. */
  ghost predicate SamePhases(handlers: seq<Handler>, more: seq<Handler>) {
    |more| == |handlers| && forall g :: 0 <= g < |handlers| ==>
      (Active(more[g]) <==> Active(handlers[g])) && (more[g].phase == Finished <==> handlers[g].phase == Finished)
  }

  lemma OthersKeepSlots(c: Config, handlers: seq<Handler>, n: nat, later: seq<Handler>, pools: seq<Pool>,
                        more: seq<Pool>, slots: Pool)
    requires SlotsOk(c, handlers, n, pools, slots) && SamePhases(handlers, later) && SameTimes(pools, more)
    ensures SlotsOk(c, later, n, more, slots)
  {
    forall g | 0 <= g < n
      ensures JobOk(later[g], more[g], slots, g)
    {
      assert JobOk(handlers[g], pools[g], slots, g);
    }
    forall v | 0 <= v < |slots.workers|
      ensures SlotOk(later, slots, v)
    {
      assert SlotOk(handlers, slots, v);
    }
    SameSum(handlers, later);
  }

  lemma StepKeepsPhases(c: Config, s: State, step: Step)
    requires DispatcherOk(s) && Enabled(c, s, step) && !s.cancelled
    requires !step.Spawn? && !step.HandlerDone? && step != Cancel
    ensures SamePhases(s.handlers, Apply(c, s, step).handlers) && Spawned(Apply(c, s, step)) == Spawned(s)
  {
  }

  lemma {:induction false} SameSum(a: seq<Handler>, b: seq<Handler>)
    requires |a| == |b| && forall g :: 0 <= g < |a| ==> (Active(a[g]) <==> Active(b[g]))
    ensures Sum(a, ActiveCount) == Sum(b, ActiveCount)
  {
    if a != [] {
      SameSum(a[..|a| - 1], b[..|b| - 1]);
    }
  }

  lemma ActKeepsInv(c: Config, p: Timing, x: Clock, step: Step)
    requires TimedInv(c, p, x) && CanHappen(c, p, x, Act(step))
    ensures TimedInv(c, p, Happen(c, p, x, Act(step)))
  {
    var y := Happen(c, p, x, Act(step));
    StepKeepsInv(c, x.s, step);
    OthersStay(c, x.s, step);
    ActKeepsPools(c, p, x.s, y.s, x.pools, step);
    ActKeepsSlots(c, p, x, step, y.pools);
  }

  lemma ActKeepsSlots(c: Config, p: Timing, x: Clock, step: Step, more: seq<Pool>)
    requires DispatcherOk(x.s) && !x.s.cancelled && PoolsOk(c, p, x.s, x.pools) && SameTimes(x.pools, more)
    requires SlotsOk(c, x.s.handlers, Spawned(x.s), x.pools, x.slots)
    requires Enabled(c, x.s, step) && step != Cancel
    ensures var t := Apply(c, x.s, step); SlotsOk(c, t.handlers, Spawned(t), more, SlotsMoved(x.slots, t, step))
  {
    if step.Spawn? {
      SpawnActKeepsSlots(c, p, x, more);
    } else if step.HandlerDone? {
      DoneActKeepsSlots(c, x, step.g, more);
    } else {
      OtherActKeepsSlots(c, x, step, more);
    }
  }

  lemma OtherActKeepsSlots(c: Config, x: Clock, step: Step, more: seq<Pool>)
    requires DispatcherOk(x.s) && !x.s.cancelled && SameTimes(x.pools, more)
    requires SlotsOk(c, x.s.handlers, Spawned(x.s), x.pools, x.slots)
    requires Enabled(c, x.s, step) && step != Cancel && !step.Spawn? && !step.HandlerDone?
    ensures var t := Apply(c, x.s, step); SlotsOk(c, t.handlers, Spawned(t), more, x.slots)
  {
    StepKeepsPhases(c, x.s, step);
    OthersKeepSlots(c, x.s.handlers, Spawned(x.s), Apply(c, x.s, step).handlers, x.pools, more, x.slots);
  }

  lemma SpawnActKeepsSlots(c: Config, p: Timing, x: Clock, more: seq<Pool>)
    requires DispatcherOk(x.s) && PoolsOk(c, p, x.s, x.pools) && SameTimes(x.pools, more)
    requires SlotsOk(c, x.s.handlers, Spawned(x.s), x.pools, x.slots) && Enabled(c, x.s, Spawn)
    ensures var t := Apply(c, x.s, Spawn); SlotsOk(c, t.handlers, Spawned(t), more, SlotsMoved(x.slots, t, Spawn))
  {
    var n := x.s.dispatcher.next;
    assert PoolOk(p, x.s.handlers[n], x.pools[n], |c.groups[n]|);
    SpawnKeepsSlots(c, x.s.handlers, n, Apply(c, x.s, Spawn).handlers, x.pools, more, x.slots);
  }

  lemma DoneActKeepsSlots(c: Config, x: Clock, g: nat, more: seq<Pool>)
    requires DispatcherOk(x.s) && !x.s.cancelled && SameTimes(x.pools, more)
    requires SlotsOk(c, x.s.handlers, Spawned(x.s), x.pools, x.slots) && Enabled(c, x.s, HandlerDone(g))
    ensures var t := Apply(c, x.s, HandlerDone(g));
      SlotsOk(c, t.handlers, Spawned(t), more, SlotsMoved(x.slots, t, HandlerDone(g)))
  {
    DoneKeepsSlots(c, x.s.handlers, Spawned(x.s), g, Apply(c, x.s, HandlerDone(g)).handlers, x.pools, more, x.slots);
  }

  // ---------------------------------------------------------------------------
  // Waiting
  // ---------------------------------------------------------------------------

  ghost predicate Settled(c: Config, s: State) {
    ValidConfig(c) && Inv(c, s) && !s.cancelled && s.dispatcher != Reported && Still(c, s)
  }

  /** A status is sent at once, or the collector makes room at once. */
  lemma NobodySends(c: Config, s: State)
    requires Settled(c, s)
    ensures !SomeSending(s)
  {
    if SomeSending(s) {
      ReportedCount(c, s);
      var g, w :| 0 <= g < |s.handlers| && 0 <= w < |s.handlers[g].workers| && s.handlers[g].workers[w].Sending?;
      DispatchSafety.QuietIsIdle(c, s, g, w);
      var step := if |s.buffer| < c.buffer then SendStatus(g, w) else Collect;
      assert Instant(step) && Enabled(c, s, step);
      assert false;
    }
  }

  /** An idle worker takes the next action at once, and one that has taken an action restarts the node at once. */
  lemma WorkersWait(c: Config, s: State, g: nat, w: nat)
    requires Settled(c, s) && AtWorker(s, g, w)
    ensures !WorkerAt(s, g, w).Taken? && !WorkerAt(s, g, w).Sending?
    ensures WorkerAt(s, g, w) == Idle ==> !HandsOver(s.handlers[g])
  {
    NobodySends(c, s);
    assert Instant(BeginRestart(g, w)) && Instant(Handoff(g, w));
  }

  /** In every active handler somebody restarts a node or delays. */
  lemma SomebodyWaits(c: Config, s: State, g: nat) returns (w: nat)
    requires Settled(c, s) && g < |s.handlers| && Active(s.handlers[g])
    ensures AtWorker(s, g, w) && (WorkerAt(s, g, w).Restarting? || WorkerAt(s, g, w) == Delaying)
  {
    NobodySends(c, s);
    var step := HandlerCanMove(c, s, g);
    assert !Instant(step);
    w := step.w;
  }

  /** A handler is spawned as soon as a slot is free. */
  lemma NoSlotWaits(c: Config, s: State)
    requires Settled(c, s) && Spawned(s) < |s.handlers|
    ensures Sum(s.handlers, ActiveCount) >= c.slots
  {
    assert Instant(Spawn) && !Enabled(c, s, Spawn);
  }

  /** Some handler is active. */
  lemma SomeHandlerActive(c: Config, s: State) returns (g: nat)
    requires Settled(c, s)
    ensures g < |s.handlers| && Active(s.handlers[g])
  {
    UncancelledNeverHangs(c, s);
    NobodySends(c, s);
    if AllQuiet(s) {
      QuietHasFreeSlot(s);
      var step := QuietCanMove(c, s);
      assert false;
    }
    g :| 0 <= g < |s.handlers| && Active(s.handlers[g]);
  }

  lemma QuietCanMove(c: Config, s: State) returns (step: Step)
    requires ValidConfig(c) && Inv(c, s) && !s.cancelled && s.dispatcher != Reported && AllQuiet(s)
    ensures Instant(step) && Enabled(c, s, step)
  {
    QuietHasFreeSlot(s);
    ReportedCount(c, s);
    if s.dispatcher.Spawning? {
      step := if s.dispatcher.next < |s.handlers| then Spawn else DispatchReturn;
    } else if !s.collecting {
      step := Report;
    } else {
      step := if |s.collected| >= |Actions(c)| then CollectorDone else Collect;
    }
  }

  /** A worker with nothing to do at once. */
  predicate Calm(s: State, g: nat, w: nat) {
    AtWorker(s, g, w) ==>
      var x := WorkerAt(s, g, w); !x.Taken? && !x.Sending? && (x == Idle ==> !HandsOver(s.handlers[g]))
  }

  /** What it means for the pools that no step can be made. */
  ghost predicate AtRest(c: Config, s: State) {
    && (forall g: nat, w: nat :: Calm(s, g, w))
    && (forall g :: 0 <= g < |s.handlers| && Active(s.handlers[g]) ==> SomeoneWaits(s.handlers[g]))
    && (exists g :: 0 <= g < Spawned(s) && g < |s.handlers| && Active(s.handlers[g]))
    && (Spawned(s) < |s.handlers| ==> Sum(s.handlers, ActiveCount) >= c.slots)
  }

  ghost predicate SomeoneWaits(h: Handler) {
    exists w :: 0 <= w < |h.workers| && (h.workers[w].Restarting? || h.workers[w] == Delaying)
  }

  lemma SettledIsAtRest(c: Config, s: State)
    requires Settled(c, s)
    ensures AtRest(c, s)
  {
    forall g: nat, w: nat
      ensures Calm(s, g, w)
    {
      if AtWorker(s, g, w) {
        WorkersWait(c, s, g, w);
      }
    }
    forall g | 0 <= g < |s.handlers| && Active(s.handlers[g])
      ensures SomeoneWaits(s.handlers[g])
    {
      var w := SomebodyWaits(c, s, g);
    }
    var g := SomeHandlerActive(c, s);
    ActiveIsSpawned(s, g);
    if Spawned(s) < |s.handlers| {
      NoSlotWaits(c, s);
    }
  }

  lemma ActiveIsSpawned(s: State, g: nat)
    requires DispatcherOk(s) && !s.cancelled && g < |s.handlers| && Active(s.handlers[g])
    ensures g < Spawned(s)
  {
  }

  lemma PoolMayWait(c: Config, p: Timing, s: State, g: nat, q: Pool, n: nat, time: nat)
    requires AtRest(c, s) && g < |s.handlers| && Active(s.handlers[g]) && PoolOk(p, s.handlers[g], q, n)
    requires forall w :: 0 <= w < |q.since| && w < |s.handlers[g].workers| ==>
      WithinDeadline(p, q, s.handlers[g].workers[w], w, time)
    ensures PoolOk(p, s.handlers[g], q.(now := q.now + time), n)
  {
    var until := q.now + time;
    forall w | 0 <= w < |q.workers|
      ensures MayWait(p.delay, q, w, until) && (q.workers[w] == Busy ==> until <= q.since[w] + p.longest)
    {
      assert AtWorker(s, g, w) && Calm(s, g, w);
      assert WithinDeadline(p, q, s.handlers[g].workers[w], w, time);
    }
    assert SomeoneWaits(s.handlers[g]);
    WaitKeeps(p.delay, q, until);
  }

  lemma SlotsMayWait(c: Config, s: State, pools: seq<Pool>, slots: Pool, time: nat)
    requires AtRest(c, s) && SlotsOk(c, s.handlers, Spawned(s), pools, slots)
    ensures PoolInv(0, slots.(now := slots.now + time))
  {
    var g :| 0 <= g < Spawned(s) && g < |s.handlers| && Active(s.handlers[g]);
    assert JobOk(s.handlers[g], pools[g], slots, g);
    assert slots.workers[slots.choices[g]] == Busy;
    var until := slots.now + time;
    forall w | 0 <= w < |slots.workers|
      ensures MayWait(0, slots, w, until)
    {
      assert SlotOk(s.handlers, slots, w);
      if slots.workers[w] == Free && slots.open {
        NotAllTaken(slots, w);
      }
    }
    WaitKeeps(0, slots, until);
  }

  lemma NotAllTaken(slots: Pool, w: nat)
    requires w < |slots.workers| && slots.workers[w] == Free
    ensures Sum(slots.workers, Taking) < |slots.workers|
  {
    SumUpdate(slots.workers, w, Busy, Taking);
    SumBound(slots.workers[w := Busy], Taking, 1);
  }

  lemma WaitKeepsSlots(c: Config, s: State, pools: seq<Pool>, slots: Pool, time: nat)
    requires AtRest(c, s) && SlotsOk(c, s.handlers, Spawned(s), pools, slots)
    ensures SlotsOk(c, s.handlers, Spawned(s), Later(pools, s.handlers, time), slots.(now := slots.now + time))
  {
    SlotsMayWait(c, s, pools, slots, time);
    var later, moved := Later(pools, s.handlers, time), slots.(now := slots.now + time);
    forall g | 0 <= g < Spawned(s)
      ensures JobOk(s.handlers[g], later[g], moved, g)
    {
      assert JobOk(s.handlers[g], pools[g], slots, g);
    }
    forall w | 0 <= w < |moved.workers|
      ensures SlotOk(s.handlers, moved, w)
    {
      assert SlotOk(s.handlers, slots, w);
    }
  }

  lemma WaitKeepsPools(c: Config, p: Timing, s: State, pools: seq<Pool>, time: nat)
    requires AtRest(c, s) && PoolsOk(c, p, s, pools) && AllOnTime(p, s, pools, time)
    ensures PoolsOk(c, p, s, Later(pools, s.handlers, time))
  {
    var later := Later(pools, s.handlers, time);
    forall g | 0 <= g < |pools|
      ensures PoolOk(p, s.handlers[g], later[g], |c.groups[g]|)
    {
      assert PoolOk(p, s.handlers[g], pools[g], |c.groups[g]|);
      if Active(s.handlers[g]) {
        forall w | 0 <= w < |pools[g].since| && w < |s.handlers[g].workers|
          ensures WithinDeadline(p, pools[g], s.handlers[g].workers[w], w, time)
        {
          assert OnTime(p, s, pools, g, w, time) && AtWorker(s, g, w);
        }
        PoolMayWait(c, p, s, g, pools[g], |c.groups[g]|, time);
      }
    }
  }

  lemma WaitKeepsInv(c: Config, p: Timing, x: Clock, v: Event)
    requires TimedInv(c, p, x) && CanHappen(c, p, x, v) && v.Wait?
    ensures TimedInv(c, p, Clock(x.s, Later(x.pools, x.s.handlers, v.time), x.slots.(now := x.slots.now + v.time)))
  {
    MomentIsSettled(c, p, x, v);
    WaitKeepsClocks(c, p, x.s, x.pools, x.slots, v.time);
    ClocksMakeInv(c, p, x.s, Later(x.pools, x.s.handlers, v.time), x.slots.(now := x.slots.now + v.time));
  }

  lemma MomentIsSettled(c: Config, p: Timing, x: Clock, v: Event)
    requires TimedInv(c, p, x) && CanHappen(c, p, x, v) && v.Wait?
    ensures Settled(c, x.s) && AllOnTime(p, x.s, x.pools, v.time)
  {
  }

  lemma ClocksMakeInv(c: Config, p: Timing, s: State, pools: seq<Pool>, slots: Pool)
    requires ValidConfig(c) && Inv(c, s) && !s.cancelled && ClocksOk(c, p, s, pools, slots)
    ensures TimedInv(c, p, Clock(s, pools, slots))
  {
  }

  lemma WaitKeepsClocks(c: Config, p: Timing, s: State, pools: seq<Pool>, slots: Pool, time: nat)
    requires Settled(c, s) && ClocksOk(c, p, s, pools, slots)
    requires AllOnTime(p, s, pools, time)
    ensures ClocksOk(c, p, s, Later(pools, s.handlers, time), slots.(now := slots.now + time))
  {
    SettledIsAtRest(c, s);
    RestKeepsClocks(c, p, s, pools, slots, time);
  }

  lemma RestKeepsClocks(c: Config, p: Timing, s: State, pools: seq<Pool>, slots: Pool, time: nat)
    requires AtRest(c, s) && ClocksOk(c, p, s, pools, slots)
    requires AllOnTime(p, s, pools, time)
    ensures ClocksOk(c, p, s, Later(pools, s.handlers, time), slots.(now := slots.now + time))
  {
    WaitKeepsPools(c, p, s, pools, time);
    WaitKeepsSlots(c, s, pools, slots, time);
  }

  lemma WaitMovesClocks(c: Config, p: Timing, x: Clock, v: Event)
    requires CanHappen(c, p, x, v) && v.Wait?
    ensures Happen(c, p, x, v)
         == Clock(x.s, Later(x.pools, x.s.handlers, v.time), x.slots.(now := x.slots.now + v.time))
  {
  }

  lemma HappenKeepsInv(c: Config, p: Timing, x: Clock, v: Event)
    requires TimedInv(c, p, x) && CanHappen(c, p, x, v)
    ensures TimedInv(c, p, Happen(c, p, x, v))
  {
    if v.Act? {
      ActKeepsInv(c, p, x, v.step);
    } else {
      WaitMovesClocks(c, p, x, v);
      WaitKeepsInv(c, p, x, v);
    }
  }

  lemma {:induction false} TimedRunKeepsInv(c: Config, p: Timing, x: Clock, events: seq<Event>)
    requires TimedInv(c, p, x) && TimedRun(c, p, x, events)
    ensures TimedInv(c, p, TimedOutcome(c, p, x, events))
    decreases |events|
  {
    if events != [] {
      HappenKeepsInv(c, p, x, events[0]);
      TimedRunKeepsInv(c, p, Happen(c, p, x, events[0]), events[1..]);
    }
  }
}
