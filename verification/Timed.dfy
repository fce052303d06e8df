/**
 The steps of a batch in time. Only a restart and the delay after it take time; every other step that can be
 made is made at once. Each handler is a pool of workers, and the semaphore is a pool of handlers.
 */
module Timed {
  import opened Sums
  import opened Progress
  import opened Dispatch
  import opened Makespan
  import opened Pools

  /** The delay between restarts, and a bound on the duration of one restart. */
  datatype Timing = Timing(delay: nat, longest: nat)

  /** pools[g]: the workers of handler g, on a clock that runs while it is active. slots: the semaphore. */
  datatype Clock = Clock(s: State, pools: seq<Pool>, slots: Pool)

  datatype Event = Act(step: Step) | Wait(time: nat)

  // ---------------------------------------------------------------------------
  // Steps and pools
  // ---------------------------------------------------------------------------

  function DutyOf(w: Worker): Duty {
    match w
    case Idle => Free
    case Taken(_) => Busy
    case Restarting(_) => Busy
    case Sending(_) => Telling
    case Delaying => Resting
    case Exited => Gone
  }

  function Duties(h: Handler): (duties: seq<Duty>)
    ensures |duties| == |h.workers|
    ensures forall w :: 0 <= w < |h.workers| ==> duties[w] == DutyOf(h.workers[w])
  {
    seq(|h.workers|, w requires 0 <= w < |h.workers| => DutyOf(h.workers[w]))
  }

  /** There is an action for an idle worker. */
  predicate HandsOver(h: Handler) {
    h.phase == Waiting || (h.phase == Pushing && h.pending != [])
  }

  /** How many handlers were spawned. */
  function Spawned(s: State): nat {
    if s.dispatcher.Spawning? then s.dispatcher.next else |s.handlers|
  }

  function Start(c: Config): Clock {
    Clock(Fresh(c), seq(|c.groups|, _ => NewPool(c.workers, true)), NewPool(c.slots, c.groups != []))
  }

  /** Steps that take no time. */
  predicate Instant(step: Step) {
    !step.FinishRestart? && !step.DelayOver? && step != Cancel
  }

  /** No step can be made without time passing. */
  ghost predicate Still(c: Config, s: State) {
    forall step :: Instant(step) ==> !Enabled(c, s, step)
  }

  /** A restart goes on for at most the longest duration, and a delay is not overslept. */
  predicate WithinDeadline(p: Timing, q: Pool, x: Worker, w: nat, time: nat) {
    w < |q.since| ==>
      && (x.Restarting? ==> q.now + time <= q.since[w] + p.longest)
      && (x == Delaying ==> q.now + time <= q.since[w] + p.delay)
  }

  predicate OnTime(p: Timing, s: State, pools: seq<Pool>, g: nat, w: nat, time: nat) {
    g < |pools| && AtWorker(s, g, w) ==> WithinDeadline(p, pools[g], WorkerAt(s, g, w), w, time)
  }

  ghost predicate AllOnTime(p: Timing, s: State, pools: seq<Pool>, time: nat) {
    forall g: nat, w: nat :: OnTime(p, s, pools, g, w, time)
  }

  ghost predicate CanHappen(c: Config, p: Timing, x: Clock, v: Event) {
    match v
    case Act(step) =>
      && step != Cancel && Enabled(c, x.s, step)
      && (step.DelayOver? ==> step.g < |x.pools| && CanRest(p.delay, x.pools[step.g], step.w))
    case Wait(time) =>
      && time >= 1 && x.s.dispatcher != Reported
      && Still(c, x.s) && AllOnTime(p, x.s, x.pools, time)
  }

  /** What a step of a handler means for its pool. */
  function Moved(p: Timing, q: Pool, h: Handler, step: Step): Pool {
    match step
    case Handoff(_, w) => if CanStart(q, w) then Started(q, w, HandsOver(h)) else q
    case FinishRestart(_, w, _) => if CanEnd(q, w) then Ended(q, w) else q
    case SendStatus(_, w) => if CanTell(q, w) then Told(q, w) else q
    case DelayOver(_, w) => if CanRest(p.delay, q, w) then Rested(p.delay, q, w) else q
    case SeeClosed(_, w) => if w < |q.workers| && q.workers[w] == Free then Left(q, w) else q
    case _ => q.(open := HandsOver(h))
  }

  /** The handler that a step moves, if any. */
  function HandlerIndex(s: State, step: Step): nat {
    match step
    case Spawn => if s.dispatcher.Spawning? then s.dispatcher.next else |s.handlers|
    case Handoff(g, _) => g
    case BeginRestart(g, _) => g
    case DropPush(g) => g
    case CloseQueue(g) => g
    case SeeClosed(g, _) => g
    case SeeCancel(g, _) => g
    case FinishRestart(g, _, _) => g
    case SendStatus(g, _) => g
    case DelayOver(g, _) => g
    case HandlerDone(g) => g
    case _ => |s.handlers|
  }

  /** A slot that is not taken. */
  function FreeSlot(duties: seq<Duty>): (w: nat)
    ensures w <= |duties|
    ensures w < |duties| ==> duties[w] == Free
    ensures w == |duties| ==> forall v :: 0 <= v < |duties| ==> duties[v] != Free
  {
    if duties == [] then 0
    else
      var n := |duties| - 1;
      var w := FreeSlot(duties[..n]);
      if w < n then w else if duties[n] == Free then n else n + 1
  }

  /** The semaphore: spawning a handler takes a slot, and the end of the handler gives it back. */
  function SlotsMoved(slots: Pool, t: State, step: Step): Pool {
    match step
    case Spawn =>
      var w := FreeSlot(slots.workers);
      if CanStart(slots, w) then Started(slots, w, Spawned(t) < |t.handlers|) else slots
    case HandlerDone(g) =>
      if g < |slots.choices| && CanEnd(slots, slots.choices[g]) then Released(slots, slots.choices[g]) else slots
    case _ => slots
  }

  function PoolsMoved(p: Timing, pools: seq<Pool>, s: State, t: State, step: Step): seq<Pool> {
    var g := HandlerIndex(s, step);
    if g < |pools| && g < |t.handlers| then pools[g := Moved(p, pools[g], t.handlers[g], step)] else pools
  }

  /** The clocks of the active handlers go on. */
  function Later(pools: seq<Pool>, handlers: seq<Handler>, time: nat): (later: seq<Pool>)
    ensures |later| == |pools|
    ensures forall g :: 0 <= g < |pools| ==>
      later[g] == if g < |handlers| && Active(handlers[g]) then pools[g].(now := pools[g].now + time) else pools[g]
  {
    seq(|pools|, g requires 0 <= g < |pools| =>
      if g < |handlers| && Active(handlers[g]) then pools[g].(now := pools[g].now + time) else pools[g])
  }

  ghost function Happen(c: Config, p: Timing, x: Clock, v: Event): Clock
    requires CanHappen(c, p, x, v)
  {
    match v
    case Wait(time) => Clock(x.s, Later(x.pools, x.s.handlers, time), x.slots.(now := x.slots.now + time))
    case Act(step) =>
      var t := Apply(c, x.s, step);
      Clock(t, PoolsMoved(p, x.pools, x.s, t, step), SlotsMoved(x.slots, t, step))
  }

  ghost predicate TimedRun(c: Config, p: Timing, x: Clock, events: seq<Event>)
    decreases |events|
  {
    events == [] || (CanHappen(c, p, x, events[0]) && TimedRun(c, p, Happen(c, p, x, events[0]), events[1..]))
  }

  ghost function TimedOutcome(c: Config, p: Timing, x: Clock, events: seq<Event>): Clock
    requires TimedRun(c, p, x, events)
    decreases |events|
  {
    if events == [] then x else TimedOutcome(c, p, Happen(c, p, x, events[0]), events[1..])
  }

  // ---------------------------------------------------------------------------
  // The invariant
  // ---------------------------------------------------------------------------

  /** A handler and its pool; n is the number of its actions. */
  ghost predicate PoolOk(p: Timing, h: Handler, q: Pool, n: nat) {
    && q.workers == Duties(h) && q.open == HandsOver(h)
    && PoolInv(p.delay, q) && Within(p.longest, q)
    && |q.choices| + |h.pending| == n
    && (h.phase == Waiting ==> q.now == 0)
  }

  ghost predicate PoolsOk(c: Config, p: Timing, s: State, pools: seq<Pool>) {
    && |pools| == |s.handlers| && |c.groups| == |s.handlers|
    && forall g :: 0 <= g < |pools| ==> PoolOk(p, s.handlers[g], pools[g], |c.groups[g]|)
  }

  function Taking(d: Duty): nat {
    if d == Busy then 1 else 0
  }

  /** Job g of the semaphore is handler g: while it is active its slot is taken, and then its duration is its time. */
  ghost predicate JobOk(h: Handler, q: Pool, slots: Pool, g: nat) {
    && g < |slots.choices| && g < |slots.durations| && slots.choices[g] < |slots.workers|
    && |slots.since| == |slots.workers| && |slots.job| == |slots.workers|
    && var w := slots.choices[g];
       if Active(h) then slots.workers[w] == Busy && slots.job[w] == g && slots.since[w] + q.now == slots.now
       else h.phase == Finished && slots.durations[g] == q.now
  }

  /** A taken slot belongs to an active handler. */
  ghost predicate SlotOk(handlers: seq<Handler>, slots: Pool, w: nat)
    requires w < |slots.workers| && w < |slots.job|
  {
    if slots.workers[w] == Busy then
      var g := slots.job[w];
      g < |handlers| && g < |slots.choices| && slots.choices[g] == w && Active(handlers[g])
    else slots.workers[w] == Free
  }

  /** The semaphore when n of these handlers were spawned. */
  ghost predicate SlotsOk(c: Config, handlers: seq<Handler>, n: nat, pools: seq<Pool>, slots: Pool) {
    && PoolInv(0, slots) && |slots.workers| == c.slots
    && n <= |handlers| && |slots.choices| == n && slots.open == (n < |handlers|)
    && |pools| == |handlers|
    && (forall g :: 0 <= g < n ==> JobOk(handlers[g], pools[g], slots, g))
    && (forall w :: 0 <= w < |slots.workers| ==> SlotOk(handlers, slots, w))
    && Sum(slots.workers, Taking) == Sum(handlers, ActiveCount)
  }

  ghost predicate ClocksOk(c: Config, p: Timing, s: State, pools: seq<Pool>, slots: Pool) {
    PoolsOk(c, p, s, pools) && SlotsOk(c, s.handlers, Spawned(s), pools, slots)
  }

  ghost predicate TimedInv(c: Config, p: Timing, x: Clock) {
    ValidConfig(c) && Inv(c, x.s) && !x.s.cancelled && ClocksOk(c, p, x.s, x.pools, x.slots)
  }

  lemma StartInv(c: Config, p: Timing)
    requires ValidConfig(c)
    ensures TimedInv(c, p, Start(c))
  {
    var x := Start(c);
    FreshInv(c);
    forall g | 0 <= g < |c.groups|
      ensures PoolOk(p, x.s.handlers[g], x.pools[g], |c.groups[g]|)
    {
      NewPoolOk(c, p, x.s.handlers[g], c.groups[g]);
    }
    NewSlots(c, x.s.handlers, x.pools);
  }

  lemma NewPoolOk(c: Config, p: Timing, h: Handler, group: seq<Action>)
    requires c.workers >= 1 && h == Handler(Waiting, group, seq(c.workers, _ => Idle))
    ensures PoolOk(p, h, NewPool(c.workers, true), |group|)
  {
    NewPoolInv(c.workers, true, p.delay, p.longest);
    assert NewPool(c.workers, true).workers == Duties(h);
  }

  lemma NewSlots(c: Config, handlers: seq<Handler>, pools: seq<Pool>)
    requires c.slots >= 1 && |pools| == |handlers|
    requires forall g :: 0 <= g < |handlers| ==> handlers[g].phase == Waiting
    ensures SlotsOk(c, handlers, 0, pools, NewPool(c.slots, handlers != []))
  {
    var slots := NewPool(c.slots, handlers != []);
    NewPoolInv(c.slots, handlers != [], 0, 0);
    assert forall w :: 0 <= w < |slots.workers| ==> slots.workers[w] == Free;
    SumBound(slots.workers, Taking, 0);
    SumBound(handlers, ActiveCount, 0);
  }
}
