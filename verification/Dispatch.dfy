/**
 One batch of restarts: the goroutines that processActionGroupStates starts, as a step relation.
 A handler is a restartHandler: a goroutine that pushes its actions into an unbuffered queue and
 NodesInflight workers that take from it. dispatchAll runs one handler; dispatchByTenant runs one per
 tenant, each holding a slot of a semaphore. A collector drains the buffered status channel.
 Every interleaving is a sequence of Steps; the environment picks restart outcomes and cancellation.
 */
module Dispatch {
  import opened Progress
  import opened Sums
  import opened Collections

  datatype Config = Config(
    groups: seq<seq<Action>>,  // the handlers in the order the dispatcher reaches them
    perTenant: bool,           // dispatchByTenant rather than dispatchAll
    slots: nat,                // capacity of the semaphore; 1 for dispatchAll
    workers: nat,              // NodesInflight
    buffer: nat,               // capacity of the status channel
    retryLimit: nat,           // RestartRetryNumber
    before: Progress)          // the state in which the batch starts

  datatype Worker =
    | Idle                     // in the select on the queue
    | Taken(action: Action)    // received the action, has not called RestartNode yet
    | Restarting(action: Action)
    | Sending(status: Status)
    | Delaying
    | Exited

  datatype Phase = Waiting | Pushing | Closed | Finished

  datatype Handler = Handler(phase: Phase, pending: seq<Action>, workers: seq<Worker>)

  datatype Dispatcher =
    | Spawning(next: nat)      // in the loop over the groups, or in wg.Wait when next is past the last
    | Aborting                 // saw the cancelled context, waits for the handlers already started
    | Returned
    | Reported                 // past `<-done`: CompleteAction is being called
    | Cleaning                 // the loop ended on the cancelled context: the maintenance tasks are being dropped

  datatype State = State(
    handlers: seq<Handler>,
    dispatcher: Dispatcher,
    collecting: bool,
    buffer: seq<Status>,
    collected: seq<Status>,
    progress: Progress,
    taken: seq<Action>,        // every action handed to a worker, in order
    started: seq<Action>,      // every RestartNode call, in order
    dropped: seq<Action>,      // actions whose push saw the cancelled context
    cancelled: bool)

  datatype Step =
    | Spawn
    | Abort
    | Handoff(g: nat, w: nat)
    | BeginRestart(g: nat, w: nat)
    | DropPush(g: nat)
    | CloseQueue(g: nat)
    | SeeClosed(g: nat, w: nat)
    | SeeCancel(g: nat, w: nat)
    | FinishRestart(g: nat, w: nat, ok: bool)
    | SendStatus(g: nat, w: nat)
    | DelayOver(g: nat, w: nat)
    | HandlerDone(g: nat)
    | DispatchReturn
    | Collect
    | CollectorDone
    | CollectorCancel
    | Report
    | CleanUp
    | Cancel

  // ---------------------------------------------------------------------------
  // The batch
  // ---------------------------------------------------------------------------

  function Actions(c: Config): seq<Action> {
    Concat(c.groups)
  }

  ghost predicate WellFormed(c: Config) {
    c.slots >= 1 && (!c.perTenant ==> |c.groups| == 1 && c.slots == 1) && Distinct(Actions(c))
  }

  /** NodesInflight is positive, and with it the capacity of the status channel. */
  ghost predicate ValidConfig(c: Config) {
    WellFormed(c) && c.workers >= 1 && c.buffer >= 1
  }

  function Fresh(c: Config): State {
    State(seq(|c.groups|, g requires 0 <= g < |c.groups| => Handler(Waiting, c.groups[g], seq(c.workers, _ => Idle))),
          Spawning(0), true, [], [], c.before, [], [], [], false)
  }

  /** A batch started after the context was cancelled. */
  function Late(c: Config): State {
    Fresh(c).(cancelled := true)
  }

  predicate Active(h: Handler) {
    h.phase == Pushing || h.phase == Closed
  }

  function ActiveCount(h: Handler): nat {
    if Active(h) then 1 else 0
  }

  predicate AtWorker(s: State, g: nat, w: nat) {
    g < |s.handlers| && w < |s.handlers[g].workers| && Active(s.handlers[g])
  }

  function WorkerAt(s: State, g: nat, w: nat): Worker
    requires AtWorker(s, g, w)
  {
    s.handlers[g].workers[w]
  }

  predicate AllQuiet(s: State) {
    forall g :: 0 <= g < |s.handlers| ==> !Active(s.handlers[g])
  }

  predicate AllFinished(s: State) {
    forall g :: 0 <= g < |s.handlers| ==> s.handlers[g].phase == Finished
  }

  predicate AllExited(h: Handler) {
    forall w :: 0 <= w < |h.workers| ==> h.workers[w] == Exited
  }

  /**
   A push and a worker meet only if one of them waits in its select for the other. Cancelling the context wakes
   all who wait, and after it nobody waits any more, so a cancelled batch hands over nothing. Between taking an
   action and calling RestartNode a worker does not look at the context.
   */
  predicate Enabled(c: Config, s: State, step: Step) {
    match step
    case Spawn =>
      && s.dispatcher.Spawning? && s.dispatcher.next < |s.handlers|
      && Sum(s.handlers, ActiveCount) < c.slots
    case Abort =>
      c.perTenant && s.cancelled && s.dispatcher.Spawning? && s.dispatcher.next < |s.handlers|
    case Handoff(g, w) =>
      && !s.cancelled && AtWorker(s, g, w) && WorkerAt(s, g, w) == Idle
      && s.handlers[g].phase == Pushing && s.handlers[g].pending != []
    case BeginRestart(g, w) =>
      AtWorker(s, g, w) && WorkerAt(s, g, w).Taken?
    case DropPush(g) =>
      s.cancelled && g < |s.handlers| && s.handlers[g].phase == Pushing && s.handlers[g].pending != []
    case CloseQueue(g) =>
      g < |s.handlers| && s.handlers[g].phase == Pushing && s.handlers[g].pending == []
    case SeeClosed(g, w) =>
      AtWorker(s, g, w) && WorkerAt(s, g, w) == Idle && s.handlers[g].phase == Closed
    case SeeCancel(g, w) =>
      s.cancelled && AtWorker(s, g, w) && (WorkerAt(s, g, w) == Idle || WorkerAt(s, g, w) == Delaying)
    case FinishRestart(g, w, ok) =>
      AtWorker(s, g, w) && WorkerAt(s, g, w).Restarting?
    case SendStatus(g, w) =>
      AtWorker(s, g, w) && WorkerAt(s, g, w).Sending? && |s.buffer| < c.buffer
    case DelayOver(g, w) =>
      AtWorker(s, g, w) && WorkerAt(s, g, w) == Delaying
    case HandlerDone(g) =>
      g < |s.handlers| && s.handlers[g].phase == Closed && AllExited(s.handlers[g])
    case DispatchReturn =>
      && (s.dispatcher == Aborting || (s.dispatcher.Spawning? && s.dispatcher.next >= |s.handlers|))
      && AllQuiet(s)
    case Collect =>
      s.collecting && s.buffer != [] && |s.collected| < |Actions(c)|
    case CollectorDone =>
      s.collecting && |s.collected| >= |Actions(c)|
    case CollectorCancel =>
      s.collecting && s.cancelled && |s.collected| < |Actions(c)|
    case Report =>
      s.dispatcher == Returned && !s.collecting
    case CleanUp =>
      s.dispatcher == Reported && s.cancelled
    case Cancel =>
      !s.cancelled
  }

  function SetHandler(s: State, g: nat, h: Handler): State
    requires g < |s.handlers|
  {
    s.(handlers := s.handlers[g := h])
  }

  function SetWorker(s: State, g: nat, w: nat, x: Worker): State
    requires AtWorker(s, g, w)
  {
    SetHandler(s, g, s.handlers[g].(workers := s.handlers[g].workers[w := x]))
  }

  function Apply(c: Config, s: State, step: Step): State
    requires Enabled(c, s, step)
  {
    match step
    case Spawn =>
      var n := s.dispatcher.next;
      SetHandler(s, n, s.handlers[n].(phase := Pushing)).(dispatcher := Spawning(n + 1))
    case Abort => s.(dispatcher := Aborting)
    case Handoff(g, w) =>
      var h := s.handlers[g];
      SetHandler(s, g, h.(pending := h.pending[1..], workers := h.workers[w := Taken(h.pending[0])]))
        .(taken := s.taken + [h.pending[0]])
    case BeginRestart(g, w) =>
      var a := WorkerAt(s, g, w).action;
      SetWorker(s, g, w, Restarting(a)).(started := s.started + [a])
    case DropPush(g) =>
      var h := s.handlers[g];
      SetHandler(s, g, h.(pending := h.pending[1..])).(dropped := s.dropped + [h.pending[0]])
    case CloseQueue(g) => SetHandler(s, g, s.handlers[g].(phase := Closed))
    case SeeClosed(g, w) => SetWorker(s, g, w, Exited)
    case SeeCancel(g, w) => SetWorker(s, g, w, Exited)
    case FinishRestart(g, w, ok) => SetWorker(s, g, w, Sending(Status(WorkerAt(s, g, w).action, ok)))
    case SendStatus(g, w) => SetWorker(s, g, w, Delaying).(buffer := s.buffer + [WorkerAt(s, g, w).status])
    case DelayOver(g, w) => SetWorker(s, g, w, Idle)
    case HandlerDone(g) => SetHandler(s, g, s.handlers[g].(phase := Finished))
    case DispatchReturn => s.(dispatcher := Returned)
    case Collect =>
      s.(buffer := s.buffer[1..], collected := s.collected + [s.buffer[0]],
         progress := HandleStatus(c.retryLimit, s.progress, s.buffer[0]))
    case CollectorDone => s.(collecting := false)
    case CollectorCancel => s.(collecting := false)
    case Report => s.(dispatcher := Reported)
    case CleanUp => s.(dispatcher := Cleaning)
    case Cancel => s.(cancelled := true)
  }

  /** steps is an interleaving of the batch from s. */
  predicate Interleaving(c: Config, s: State, steps: seq<Step>)
    decreases |steps|
  {
    steps == [] || (Enabled(c, s, steps[0]) && Interleaving(c, Apply(c, s, steps[0]), steps[1..]))
  }

  function Outcome(c: Config, s: State, steps: seq<Step>): State
    requires Interleaving(c, s, steps)
    decreases |steps|
  {
    if steps == [] then s else Outcome(c, Apply(c, s, steps[0]), steps[1..])
  }

  // ---------------------------------------------------------------------------
  // The invariant
  // ---------------------------------------------------------------------------

  /** Actions taken by this worker whose status is not in the channel yet. */
  function Held(w: Worker): multiset<Action> {
    match w
    case Taken(a) => multiset{a}
    case Restarting(a) => multiset{a}
    case Sending(st) => multiset{st.action}
    case _ => multiset{}
  }

  /** The action of a worker that has not called RestartNode for it yet. */
  function JustTaken(w: Worker): multiset<Action> {
    if w.Taken? then multiset{w.action} else multiset{}
  }

  function Pending(h: Handler): multiset<Action> {
    multiset(h.pending)
  }

  function InWorkers(h: Handler): multiset<Action> {
    Gather(h.workers, Held)
  }

  function NotBegun(h: Handler): multiset<Action> {
    Gather(h.workers, JustTaken)
  }

  function Reporting(s: State): multiset<Action> {
    multiset(ActionsOf(s.buffer)) + multiset(ActionsOf(s.collected))
  }

  ghost predicate HandlerOk(c: Config, group: seq<Action>, h: Handler, cancelled: bool) {
    && |h.workers| == c.workers
    && (forall i :: 0 <= i < |h.pending| ==> h.pending[i] in group)
    && (forall w :: 0 <= w < |h.workers| ==> WorkerOk(group, h.phase, h.workers[w], cancelled))
    && match h.phase
       case Waiting => h.pending == group
       case Pushing => true
       case Closed => h.pending == []
       case Finished => h.pending == []
  }

  ghost predicate WorkerOk(group: seq<Action>, phase: Phase, w: Worker, cancelled: bool) {
    && (w.Taken? || w.Restarting? ==> w.action in group)
    && (w.Sending? ==> w.status.action in group)
    && match phase
       case Waiting => w == Idle
       case Pushing => cancelled || w != Exited
       case Closed => true
       case Finished => w == Exited
  }

  ghost predicate DispatcherOk(s: State) {
    match s.dispatcher
    case Spawning(n) =>
      && n <= |s.handlers|
      && forall g :: 0 <= g < |s.handlers| ==> (s.handlers[g].phase == Waiting <==> g >= n)
    case Aborting => s.cancelled
    case Returned => AllQuiet(s) && (!s.cancelled ==> AllFinished(s))
    case Reported => AllQuiet(s) && !s.collecting && (!s.cancelled ==> AllFinished(s))
    case Cleaning => AllQuiet(s) && !s.collecting && s.cancelled
  }

  ghost predicate HandlersOk(c: Config, s: State) {
    && |s.handlers| == |c.groups|
    && forall g :: 0 <= g < |s.handlers| ==> HandlerOk(c, c.groups[g], s.handlers[g], s.cancelled)
  }

  ghost predicate ChannelOk(c: Config, s: State) {
    && |s.buffer| <= c.buffer
    && (!s.collecting ==> s.cancelled || |s.collected| >= |Actions(c)|)
    && (s.dropped != [] ==> s.cancelled)
    && s.progress == HandleAll(c.retryLimit, c.before, s.collected)
  }

  /** Nothing is lost and nothing is duplicated: where every action of the batch is. */
  ghost predicate Conserved(c: Config, s: State) {
    && Gather(s.handlers, Pending) + multiset(s.dropped) + multiset(s.taken) == multiset(Actions(c))
    && Gather(s.handlers, InWorkers) + Reporting(s) == multiset(s.taken)
  }

  /** RestartNode was called for every action taken, except those just taken. */
  ghost predicate Begun(s: State) {
    multiset(s.started) + Gather(s.handlers, NotBegun) == multiset(s.taken)
  }

  ghost predicate Inv(c: Config, s: State) {
    && HandlersOk(c, s)
    && DispatcherOk(s)
    && Sum(s.handlers, ActiveCount) <= c.slots
    && ChannelOk(c, s)
    && Conserved(c, s)
    && Begun(s)
  }

  // --- the batch starts in the invariant

  lemma {:induction false} ConcatGather(groups: seq<seq<Action>>, handlers: seq<Handler>)
    requires |handlers| == |groups|
    requires forall g :: 0 <= g < |groups| ==> handlers[g].pending == groups[g]
    ensures Gather(handlers, Pending) == multiset(Concat(groups))
  {
    if groups != [] {
      ConcatGather(groups[..|groups| - 1], handlers[..|groups| - 1]);
    }
  }

  lemma FreshInv(c: Config)
    ensures Inv(c, Fresh(c))
  {
    var s := Fresh(c);
    assert HandlersOk(c, s) by {
      FreshHandlers(c);
    }
    FreshLoad(c, s);
    assert Conserved(c, s) by {
      FreshConserved(c, s);
    }
  }

  lemma LateInv(c: Config)
    ensures Inv(c, Late(c))
  {
    FreshInv(c);
    forall g | 0 <= g < |c.groups|
      ensures HandlerOk(c, c.groups[g], Late(c).handlers[g], true)
    {
      assert HandlerOk(c, c.groups[g], Fresh(c).handlers[g], false);
    }
  }

  lemma FreshConserved(c: Config, s: State)
    requires s == Fresh(c)
    ensures Conserved(c, s)
  {
    FreshLoad(c, s);
    ConcatGather(c.groups, s.handlers);
    assert ActionsOf(s.buffer) == [] && ActionsOf(s.collected) == [];
    assert Reporting(s) == multiset{};
  }

  lemma FreshHandlers(c: Config)
    ensures HandlersOk(c, Fresh(c))
  {
    var s := Fresh(c);
    forall g | 0 <= g < |s.handlers|
      ensures HandlerOk(c, c.groups[g], s.handlers[g], false)
    {
      assert s.handlers[g] == Handler(Waiting, c.groups[g], seq(c.workers, _ => Idle));
    }
  }

  lemma FreshLoad(c: Config, s: State)
    requires s == Fresh(c)
    ensures Gather(s.handlers, InWorkers) == multiset{} && Gather(s.handlers, NotBegun) == multiset{}
    ensures Sum(s.handlers, ActiveCount) == 0
  {
    forall g | 0 <= g < |s.handlers|
      ensures InWorkers(s.handlers[g]) == multiset{} && NotBegun(s.handlers[g]) == multiset{}
      ensures ActiveCount(s.handlers[g]) <= 0
    {
      GatherEmpty(s.handlers[g].workers, Held);
      GatherEmpty(s.handlers[g].workers, JustTaken);
    }
    GatherEmpty(s.handlers, InWorkers);
    GatherEmpty(s.handlers, NotBegun);
    SumBound(s.handlers, ActiveCount, 0);
  }

  // --- every step keeps it

  lemma {:induction false} StepKeepsHandlers(c: Config, s: State, step: Step)
    requires HandlersOk(c, s) && DispatcherOk(s) && Enabled(c, s, step)
    ensures HandlersOk(c, Apply(c, s, step))
  {
    var t := Apply(c, s, step);
    forall g | 0 <= g < |t.handlers|
      ensures HandlerOk(c, c.groups[g], t.handlers[g], t.cancelled)
    {
      HandlerStep(c, s, step, g);
    }
  }

  lemma {:induction false} HandlerStep(c: Config, s: State, step: Step, g: nat)
    requires HandlersOk(c, s) && DispatcherOk(s) && Enabled(c, s, step) && g < |s.handlers|
    ensures HandlerOk(c, c.groups[g], Apply(c, s, step).handlers[g], Apply(c, s, step).cancelled)
  {
    var group, h, t := c.groups[g], s.handlers[g], Apply(c, s, step);
    var k := t.handlers[g];
    assert HandlerOk(c, group, h, s.cancelled);
    if k == h {
      forall w | 0 <= w < |k.workers|
        ensures WorkerOk(group, k.phase, k.workers[w], t.cancelled)
      {
        assert WorkerOk(group, h.phase, h.workers[w], s.cancelled);
      }
    } else {
      ChangedHandler(c, s, step, g, group, h, k);
    }
  }

  lemma ChangedHandler(c: Config, s: State, step: Step, g: nat, group: seq<Action>, h: Handler, k: Handler)
    requires DispatcherOk(s) && Enabled(c, s, step) && g < |s.handlers|
    requires h == s.handlers[g] && k == Apply(c, s, step).handlers[g] && k != h
    requires HandlerOk(c, group, h, s.cancelled)
    ensures HandlerOk(c, group, k, s.cancelled)
  {
    ChangedQueue(c, s, step, g, h, k);
    assert forall i :: 0 <= i < |k.pending| ==> k.pending[i] in h.pending;
    forall w | 0 <= w < |k.workers|
      ensures WorkerOk(group, k.phase, k.workers[w], s.cancelled)
    {
      ChangedWorker(c, s, step, g, w, group, h, k);
    }
  }

  lemma ChangedQueue(c: Config, s: State, step: Step, g: nat, h: Handler, k: Handler)
    requires Enabled(c, s, step) && g < |s.handlers|
    requires h == s.handlers[g] && k == Apply(c, s, step).handlers[g] && k != h
    requires h.phase == Closed || h.phase == Finished ==> h.pending == []
    ensures k.phase != Waiting && |k.workers| == |h.workers|
    ensures k.pending == h.pending || (h.pending != [] && k.pending == h.pending[1..])
    ensures k.phase == Closed || k.phase == Finished ==> k.pending == []
  {
  }

  lemma ChangedWorker(c: Config, s: State, step: Step, g: nat, w: nat, group: seq<Action>, h: Handler, k: Handler)
    requires DispatcherOk(s) && Enabled(c, s, step) && g < |s.handlers|
    requires h == s.handlers[g] && k == Apply(c, s, step).handlers[g] && k != h && w < |h.workers|
    requires HandlerOk(c, group, h, s.cancelled)
    ensures |k.workers| == |h.workers| && WorkerOk(group, k.phase, k.workers[w], s.cancelled)
  {
    if step.Spawn? || step.CloseQueue? || step.HandlerDone? {
      assert WorkerOk(group, h.phase, h.workers[w], s.cancelled);
    } else {
      MovedWorker(c, s, step, g, w, group, h, k);
    }
  }

  lemma MovedWorker(c: Config, s: State, step: Step, g: nat, w: nat, group: seq<Action>, h: Handler, k: Handler)
    requires Enabled(c, s, step) && !step.Spawn? && !step.CloseQueue? && !step.HandlerDone? && g < |s.handlers|
    requires h == s.handlers[g] && k == Apply(c, s, step).handlers[g] && k != h && w < |h.workers|
    requires HandlerOk(c, group, h, s.cancelled)
    ensures |k.workers| == |h.workers| && WorkerOk(group, k.phase, k.workers[w], s.cancelled)
  {
    assert WorkerOk(group, h.phase, h.workers[w], s.cancelled);
  }

  /** Only the dispatcher makes a handler leave Waiting, and quiet handlers do not move. */
  lemma PhaseStep(c: Config, s: State, step: Step, g: nat)
    requires Enabled(c, s, step) && !step.Spawn? && g < |s.handlers|
    ensures s.handlers[g].phase == Waiting <==> Apply(c, s, step).handlers[g].phase == Waiting
    ensures !Active(s.handlers[g]) ==> Apply(c, s, step).handlers[g] == s.handlers[g]
  {
  }

  lemma SpawnKeepsDispatcher(c: Config, s: State)
    requires DispatcherOk(s) && Enabled(c, s, Spawn)
    ensures DispatcherOk(Apply(c, s, Spawn))
  {
  }

  lemma {:induction false} StepKeepsDispatcher(c: Config, s: State, step: Step)
    requires DispatcherOk(s) && Enabled(c, s, step)
    ensures DispatcherOk(Apply(c, s, step))
  {
    var t := Apply(c, s, step);
    if step.Spawn? {
      SpawnKeepsDispatcher(c, s);
    } else {
      forall g | 0 <= g < |s.handlers|
        ensures s.handlers[g].phase == Waiting <==> t.handlers[g].phase == Waiting
        ensures !Active(s.handlers[g]) ==> t.handlers[g] == s.handlers[g]
      {
        PhaseStep(c, s, step, g);
      }
      QuietStep(c, s, t, step);
    }
  }

  lemma QuietStep(c: Config, s: State, t: State, step: Step)
    requires DispatcherOk(s) && Enabled(c, s, step) && !step.Spawn? && t == Apply(c, s, step)
    requires forall g :: 0 <= g < |s.handlers| ==> (s.handlers[g].phase == Waiting <==> t.handlers[g].phase == Waiting)
    requires forall g :: 0 <= g < |s.handlers| && !Active(s.handlers[g]) ==> t.handlers[g] == s.handlers[g]
    ensures DispatcherOk(t)
  {
    assert |t.handlers| == |s.handlers|;
    if t.dispatcher.Spawning? {
      assert t.dispatcher == s.dispatcher;
    } else if AllQuiet(s) {
      assert t.handlers == s.handlers;
    }
  }

  /** The handler that a step changes, and whether it becomes active. */
  lemma HandlerOfStep(c: Config, s: State, step: Step) returns (g: nat)
    requires Enabled(c, s, step)
    ensures var t := Apply(c, s, step);
      t.handlers != s.handlers ==>
        && g < |s.handlers| && |t.handlers| == |s.handlers| && t.handlers == s.handlers[g := t.handlers[g]]
        && (!step.Spawn? ==> ActiveCount(t.handlers[g]) <= ActiveCount(s.handlers[g]))
  {
    g := 0;
    if Apply(c, s, step).handlers != s.handlers {
      g := if step.Spawn? then s.dispatcher.next else step.g;
    }
  }

  lemma StepKeepsSlots(c: Config, s: State, step: Step)
    requires Sum(s.handlers, ActiveCount) <= c.slots && Enabled(c, s, step)
    ensures Sum(Apply(c, s, step).handlers, ActiveCount) <= c.slots
  {
    var t := Apply(c, s, step);
    var g := HandlerOfStep(c, s, step);
    if t.handlers != s.handlers {
      SumUpdate(s.handlers, g, t.handlers[g], ActiveCount);
    }
  }

  lemma StepKeepsChannel(c: Config, s: State, step: Step)
    requires ChannelOk(c, s) && Enabled(c, s, step)
    ensures ChannelOk(c, Apply(c, s, step))
  {
    if step.Collect? {
      CollectKeepsChannel(c, s);
    }
  }

  lemma CollectKeepsChannel(c: Config, s: State)
    requires ChannelOk(c, s) && Enabled(c, s, Collect)
    ensures ChannelOk(c, Apply(c, s, Collect))
  {
    assert (s.collected + [s.buffer[0]])[..|s.collected|] == s.collected;
  }

  // --- conservation

  lemma Shuffle<T>(a: multiset<T>, b: multiset<T>, was: multiset<T>, now: multiset<T>, lost: multiset<T>,
                   gained: multiset<T>)
    requires a + was == b + now && now + lost == was + gained
    ensures a + lost == b + gained
  {
    forall x
      ensures (a + lost)[x] == (b + gained)[x]
    {
      assert (a + was)[x] == (b + now)[x] && (now + lost)[x] == (was + gained)[x];
    }
  }

  /** What one handler loses and gains is what all of them together lose and gain. */
  lemma Relocate<T>(handlers: seq<Handler>, g: nat, k: Handler, f: Handler -> multiset<T>, lost: multiset<T>,
                    gained: multiset<T>)
    requires g < |handlers| && f(k) + lost == f(handlers[g]) + gained
    ensures Gather(handlers[g := k], f) + lost == Gather(handlers, f) + gained
  {
    GatherUpdate(handlers, g, k, f);
    Shuffle(Gather(handlers[g := k], f), Gather(handlers, f), f(handlers[g]), f(k), lost, gained);
  }

  lemma WorkerMoves<T>(h: Handler, k: Handler, w: nat, x: Worker, f: Worker -> multiset<T>,
                       lost: multiset<T>, gained: multiset<T>)
    requires w < |h.workers| && k.workers == h.workers[w := x]
    requires f(x) + lost == f(h.workers[w]) + gained
    ensures Gather(k.workers, f) + lost == Gather(h.workers, f) + gained
  {
    GatherUpdate(h.workers, w, x, f);
    Shuffle(Gather(k.workers, f), Gather(h.workers, f), f(h.workers[w]), f(x), lost, gained);
  }

  /** Conserved survives when an action goes from the queue to a worker, is dropped, or is reported. */
  lemma MoveConserves(c: Config, s: State, t: State, g: nat, k: Handler,
                      taken: multiset<Action>, dropped: multiset<Action>, sent: multiset<Action>)
    requires Conserved(c, s) && g < |s.handlers| && t.handlers == s.handlers[g := k]
    requires Pending(k) + (taken + dropped) == Pending(s.handlers[g])
    requires InWorkers(k) + sent == InWorkers(s.handlers[g]) + taken
    requires multiset(t.taken) == multiset(s.taken) + taken
    requires multiset(t.dropped) == multiset(s.dropped) + dropped
    requires Reporting(t) == Reporting(s) + sent
    ensures Conserved(c, t)
  {
    var none: multiset<Action> := multiset{};
    assert Pending(s.handlers[g]) + none == Pending(s.handlers[g]);
    Relocate(s.handlers, g, k, Pending, taken + dropped, none);
    Relocate(s.handlers, g, k, InWorkers, sent, taken);
    Balance(Gather(t.handlers, Pending), Gather(s.handlers, Pending), multiset(t.dropped), multiset(s.dropped),
            multiset(t.taken), multiset(s.taken), dropped, taken);
    Settle(Gather(t.handlers, InWorkers), Gather(s.handlers, InWorkers), Reporting(t), Reporting(s),
      multiset(s.taken), sent, taken);
  }

  lemma Balance(queue': multiset<Action>, queue: multiset<Action>,
                dropped': multiset<Action>, dropped: multiset<Action>,
                started': multiset<Action>, started: multiset<Action>, d: multiset<Action>, a: multiset<Action>)
    requires queue' + (a + d) == queue + multiset{} && dropped' == dropped + d && started' == started + a
    ensures queue' + dropped' + started' == queue + dropped + started
  {
    forall x
      ensures (queue' + dropped' + started')[x] == (queue + dropped + started)[x]
    {
      assert (queue' + (a + d))[x] == (queue + multiset{})[x];
    }
  }

  lemma Settle(held': multiset<Action>, held: multiset<Action>, told': multiset<Action>, told: multiset<Action>,
               started: multiset<Action>, sent: multiset<Action>, a: multiset<Action>)
    requires held' + sent == held + a && told' == told + sent && held + told == started
    ensures held' + told' == started + a
  {
    forall x
      ensures (held' + told')[x] == (started + a)[x]
    {
      assert (held' + sent)[x] == (held + a)[x];
    }
  }

  lemma HeadTail(s: seq<Action>)
    requires s != []
    ensures multiset(s[1..]) + multiset{s[0]} == multiset(s)
  {
    assert s == [s[0]] + s[1..];
  }

  lemma SpawnConserves(c: Config, s: State)
    requires Conserved(c, s) && Enabled(c, s, Spawn)
    ensures Conserved(c, Apply(c, s, Spawn))
  {
    var g := s.dispatcher.next;
    MoveConserves(c, s, Apply(c, s, Spawn), g, s.handlers[g].(phase := Pushing), multiset{}, multiset{}, multiset{});
  }

  lemma PhaseConserves(c: Config, s: State, t: State, g: nat, phase: Phase)
    requires Conserved(c, s) && g < |s.handlers| && t == SetHandler(s, g, s.handlers[g].(phase := phase))
    ensures Conserved(c, t)
  {
    MoveConserves(c, s, t, g, s.handlers[g].(phase := phase), multiset{}, multiset{}, multiset{});
  }

  lemma WorkerConserves(c: Config, s: State, t: State, g: nat, w: nat, x: Worker)
    requires Conserved(c, s) && AtWorker(s, g, w) && t == SetWorker(s, g, w, x) && Held(x) == Held(WorkerAt(s, g, w))
    ensures Conserved(c, t)
  {
    var h := s.handlers[g];
    var k := h.(workers := h.workers[w := x]);
    WorkerMoves(h, k, w, x, Held, multiset{}, multiset{});
    MoveConserves(c, s, t, g, k, multiset{}, multiset{}, multiset{});
  }

  lemma {:induction false} HandoffConserves(c: Config, s: State, g: nat, w: nat)
    requires Conserved(c, s) && Enabled(c, s, Handoff(g, w))
    ensures Conserved(c, Apply(c, s, Handoff(g, w)))
  {
    var h := s.handlers[g];
    var a := h.pending[0];
    var k := h.(pending := h.pending[1..], workers := h.workers[w := Taken(a)]);
    HeadTail(h.pending);
    WorkerMoves(h, k, w, Taken(a), Held, multiset{}, multiset{a});
    assert multiset{a} + multiset{} == multiset{a};
    MoveConserves(c, s, Apply(c, s, Handoff(g, w)), g, k, multiset{a}, multiset{}, multiset{});
  }

  lemma {:induction false} DropConserves(c: Config, s: State, g: nat)
    requires Conserved(c, s) && Enabled(c, s, DropPush(g))
    ensures Conserved(c, Apply(c, s, DropPush(g)))
  {
    var h := s.handlers[g];
    var a := h.pending[0];
    HeadTail(h.pending);
    assert multiset{} + multiset{a} == multiset{a};
    var k := h.(pending := h.pending[1..]);
    MoveConserves(c, s, Apply(c, s, DropPush(g)), g, k, multiset{}, multiset{a}, multiset{});
  }

  lemma SendConserves(c: Config, s: State, g: nat, w: nat)
    requires Conserved(c, s) && Enabled(c, s, SendStatus(g, w))
    ensures Conserved(c, Apply(c, s, SendStatus(g, w)))
  {
    SentConserves(c, s, Apply(c, s, SendStatus(g, w)), g, w, WorkerAt(s, g, w).status);
  }

  /** Conserved survives when the handlers only give up an action that is reported. */
  lemma ReportConserves(c: Config, s: State, t: State, g: nat, k: Handler, sent: multiset<Action>)
    requires Conserved(c, s) && g < |s.handlers| && t.handlers == s.handlers[g := k]
    requires k.pending == s.handlers[g].pending && InWorkers(k) + sent == InWorkers(s.handlers[g])
    requires t.taken == s.taken && t.dropped == s.dropped && Reporting(t) == Reporting(s) + sent
    ensures Conserved(c, t)
  {
    MoveConserves(c, s, t, g, k, multiset{}, multiset{}, sent);
  }

  lemma SentConserves(c: Config, s: State, t: State, g: nat, w: nat, st: Status)
    requires Conserved(c, s) && AtWorker(s, g, w) && WorkerAt(s, g, w) == Sending(st)
    requires t == SetWorker(s, g, w, Delaying).(buffer := s.buffer + [st])
    ensures Conserved(c, t)
  {
    var h, sent := s.handlers[g], multiset{st.action};
    var k := h.(workers := h.workers[w := Delaying]);
    assert InWorkers(k) + sent == InWorkers(h) by {
      WorkerMoves(h, k, w, Delaying, Held, sent, multiset{});
    }
    SendReports(s, t, st);
    ReportConserves(c, s, t, g, k, sent);
  }

  lemma SendReports(s: State, t: State, st: Status)
    requires t.buffer == s.buffer + [st] && t.collected == s.collected
    ensures Reporting(t) == Reporting(s) + multiset{st.action}
  {
    SentIsReported(s.buffer, st);
  }

  lemma SentIsReported(statuses: seq<Status>, st: Status)
    ensures multiset(ActionsOf(statuses + [st])) == multiset(ActionsOf(statuses)) + multiset{st.action}
  {
    assert ActionsOf(statuses + [st]) == ActionsOf(statuses) + [st.action];
  }

  lemma {:induction false} CollectConserves(c: Config, s: State)
    requires Conserved(c, s) && Enabled(c, s, Collect)
    ensures Conserved(c, Apply(c, s, Collect))
  {
    var st, rest := s.buffer[0], s.buffer[1..];
    SentIsReported(s.collected, st);
    HeadTail(ActionsOf(s.buffer));
    assert ActionsOf(s.buffer)[1..] == ActionsOf(rest);
    Swap(multiset(ActionsOf(rest)), multiset(ActionsOf(s.collected)), multiset{st.action});
  }

  lemma Swap(rest: multiset<Action>, collected: multiset<Action>, a: multiset<Action>)
    ensures rest + (collected + a) == (rest + a) + collected
  {
  }

  lemma LeaveConserves(c: Config, s: State, step: Step)
    requires Conserved(c, s) && Enabled(c, s, step) && (step.SeeClosed? || step.SeeCancel?)
    ensures Conserved(c, Apply(c, s, step))
  {
    WorkerConserves(c, s, Apply(c, s, step), step.g, step.w, Exited);
  }

  lemma FinishConserves(c: Config, s: State, g: nat, w: nat, ok: bool)
    requires Conserved(c, s) && Enabled(c, s, FinishRestart(g, w, ok))
    ensures Conserved(c, Apply(c, s, FinishRestart(g, w, ok)))
  {
    WorkerConserves(c, s, Apply(c, s, FinishRestart(g, w, ok)), g, w, Sending(Status(WorkerAt(s, g, w).action, ok)));
  }

  lemma RestConserves(c: Config, s: State, g: nat, w: nat)
    requires Conserved(c, s) && Enabled(c, s, DelayOver(g, w))
    ensures Conserved(c, Apply(c, s, DelayOver(g, w)))
  {
    WorkerConserves(c, s, Apply(c, s, DelayOver(g, w)), g, w, Idle);
  }

  lemma BeginConserves(c: Config, s: State, g: nat, w: nat)
    requires Conserved(c, s) && Enabled(c, s, BeginRestart(g, w))
    ensures Conserved(c, Apply(c, s, BeginRestart(g, w)))
  {
    var x := Restarting(WorkerAt(s, g, w).action);
    WorkerConserves(c, s, SetWorker(s, g, w, x), g, w, x);
  }

  lemma {:induction false} StepKeepsConserved(c: Config, s: State, step: Step)
    requires Conserved(c, s) && Enabled(c, s, step)
    ensures Conserved(c, Apply(c, s, step))
  {
    var t := Apply(c, s, step);
    match step {
      case Spawn => SpawnConserves(c, s);
      case CloseQueue(g) => PhaseConserves(c, s, t, g, Closed);
      case HandlerDone(g) => PhaseConserves(c, s, t, g, Finished);
      case SeeClosed(_, _) => LeaveConserves(c, s, step);
      case SeeCancel(_, _) => LeaveConserves(c, s, step);
      case FinishRestart(g, w, ok) => FinishConserves(c, s, g, w, ok);
      case DelayOver(g, w) => RestConserves(c, s, g, w);
      case Handoff(g, w) => HandoffConserves(c, s, g, w);
      case BeginRestart(g, w) => BeginConserves(c, s, g, w);
      case DropPush(g) => DropConserves(c, s, g);
      case SendStatus(g, w) => SendConserves(c, s, g, w);
      case Collect => CollectConserves(c, s);
      case _ =>
    }
  }

  // --- the calls of RestartNode

  lemma MoveBegins(s: State, t: State, g: nat, k: Handler, begun: multiset<Action>, taken: multiset<Action>)
    requires Begun(s) && g < |s.handlers| && t.handlers == s.handlers[g := k]
    requires NotBegun(k) + begun == NotBegun(s.handlers[g]) + taken
    requires multiset(t.started) == multiset(s.started) + begun && multiset(t.taken) == multiset(s.taken) + taken
    ensures Begun(t)
  {
    Relocate(s.handlers, g, k, NotBegun, begun, taken);
    Settle(Gather(t.handlers, NotBegun), Gather(s.handlers, NotBegun), multiset(t.started), multiset(s.started),
      multiset(s.taken), begun, taken);
  }

  lemma HandoffBegins(c: Config, s: State, g: nat, w: nat)
    requires Begun(s) && Enabled(c, s, Handoff(g, w))
    ensures Begun(Apply(c, s, Handoff(g, w)))
  {
    var t, a := Apply(c, s, Handoff(g, w)), s.handlers[g].pending[0];
    WorkerMoves(s.handlers[g], t.handlers[g], w, Taken(a), JustTaken, multiset{}, multiset{a});
    MoveBegins(s, t, g, t.handlers[g], multiset{}, multiset{a});
  }

  lemma RestartBegins(c: Config, s: State, g: nat, w: nat)
    requires Begun(s) && Enabled(c, s, BeginRestart(g, w))
    ensures Begun(Apply(c, s, BeginRestart(g, w)))
  {
    var t, a := Apply(c, s, BeginRestart(g, w)), WorkerAt(s, g, w).action;
    WorkerMoves(s.handlers[g], t.handlers[g], w, Restarting(a), JustTaken, multiset{a}, multiset{});
    MoveBegins(s, t, g, t.handlers[g], multiset{a}, multiset{});
  }

  /** The other steps neither take an action nor call RestartNode. */
  lemma OthersBegin(c: Config, s: State, step: Step)
    requires Begun(s) && Enabled(c, s, step) && !step.Handoff? && !step.BeginRestart?
    ensures Begun(Apply(c, s, step))
    ensures Apply(c, s, step).taken == s.taken && Apply(c, s, step).started == s.started
  {
    var t := Apply(c, s, step);
    var g := HandlerOfStep(c, s, step);
    if t.handlers != s.handlers {
      SameNotBegun(c, s, step, g);
      MoveBegins(s, t, g, t.handlers[g], multiset{}, multiset{});
    }
  }

  lemma SameNotBegun(c: Config, s: State, step: Step, g: nat)
    requires Enabled(c, s, step) && !step.Handoff? && !step.BeginRestart? && g < |s.handlers|
    requires g < |Apply(c, s, step).handlers|
    ensures NotBegun(Apply(c, s, step).handlers[g]) == NotBegun(s.handlers[g])
  {
    var h, k := s.handlers[g], Apply(c, s, step).handlers[g];
    var w, x := WorkerOfStep(c, s, step, g);
    if k.workers != h.workers {
      SameGathered(h.workers, w, x, JustTaken);
    }
  }

  lemma SameGathered<T>(workers: seq<Worker>, w: nat, x: Worker, f: Worker -> multiset<T>)
    requires w < |workers| && f(x) == f(workers[w])
    ensures Gather(workers[w := x], f) == Gather(workers, f)
  {
    GatherUpdate(workers, w, x, f);
    var now, was, none: multiset<T> := Gather(workers[w := x], f), Gather(workers, f), multiset{};
    Shuffle(now, was, f(workers[w]), f(x), none, none);
    assert now + none == now && was + none == was;
  }

  lemma WorkerOfStep(c: Config, s: State, step: Step, g: nat) returns (w: nat, x: Worker)
    requires Enabled(c, s, step) && !step.Handoff? && !step.BeginRestart? && g < |s.handlers|
    ensures var was, now := s.handlers[g].workers, Apply(c, s, step).handlers[g].workers;
      now == was || (w < |was| && now == was[w := x] && !was[w].Taken? && !x.Taken?)
  {
    w, x := 0, Idle;
    if step.SeeClosed? || step.SeeCancel? || step.FinishRestart? || step.SendStatus? || step.DelayOver? {
      w, x := step.w, Apply(c, s, step).handlers[step.g].workers[step.w];
    }
  }

  lemma StepKeepsBegun(c: Config, s: State, step: Step)
    requires Begun(s) && Enabled(c, s, step)
    ensures Begun(Apply(c, s, step))
  {
    match step {
      case Handoff(g, w) => HandoffBegins(c, s, g, w);
      case BeginRestart(g, w) => RestartBegins(c, s, g, w);
      case _ => OthersBegin(c, s, step);
    }
  }

  /** The invariant survives every step of every goroutine, the environment's choices included. */
  lemma {:induction false} StepKeepsInv(c: Config, s: State, step: Step)
    requires Inv(c, s) && Enabled(c, s, step)
    ensures Inv(c, Apply(c, s, step))
  {
    StepKeepsHandlers(c, s, step);
    StepKeepsDispatcher(c, s, step);
    StepKeepsSlots(c, s, step);
    StepKeepsChannel(c, s, step);
    StepKeepsConserved(c, s, step);
    StepKeepsBegun(c, s, step);
  }

  lemma {:induction false} InterleavingKeepsInv(c: Config, s: State, steps: seq<Step>)
    requires Inv(c, s) && Interleaving(c, s, steps)
    ensures Inv(c, Outcome(c, s, steps))
    decreases |steps|
  {
    if steps != [] {
      StepKeepsInv(c, s, steps[0]);
      InterleavingKeepsInv(c, Apply(c, s, steps[0]), steps[1..]);
    }
  }
}
