/** When a batch finishes: a measure that every step lowers, and exactly when a batch can hang. */
module DispatchLiveness {
  import opened Progress
  import opened Sums
  import opened Dispatch
  import opened DispatchSafety

  // ---------------------------------------------------------------------------
  // Every step lowers the work left
  // ---------------------------------------------------------------------------

  function WorkerWork(w: Worker): nat {
    match w
    case Taken(_) => 6
    case Restarting(_) => 5
    case Sending(_) => 4
    case Delaying => 2
    case Idle => 1
    case Exited => 0
  }

  function PhaseWork(p: Phase): nat {
    match p
    case Waiting => 3
    case Pushing => 2
    case Closed => 1
    case Finished => 0
  }

  function HandlerWork(h: Handler): nat {
    PhaseWork(h.phase) + 6 * |h.pending| + Sum(h.workers, WorkerWork)
  }

  function DispatcherWork(d: Dispatcher): nat {
    match d
    case Spawning(_) => 4
    case Aborting => 3
    case Returned => 2
    case Reported => 1
    case Cleaning => 0
  }

  function Work(s: State): nat {
    Sum(s.handlers, HandlerWork) + DispatcherWork(s.dispatcher) + |s.buffer|
    + (if s.collecting then 1 else 0) + (if s.cancelled then 0 else 1)
  }

  lemma HandlerWorkFalls(s: State, t: State, g: nat, k: Handler, fall: nat)
    requires g < |s.handlers| && t.handlers == s.handlers[g := k] && HandlerWork(k) + fall == HandlerWork(s.handlers[g])
    ensures Sum(t.handlers, HandlerWork) + fall == Sum(s.handlers, HandlerWork)
  {
    SumUpdate(s.handlers, g, k, HandlerWork);
  }

  lemma WorkerStepFalls(s: State, g: nat, w: nat, x: Worker)
    requires AtWorker(s, g, w) && WorkerWork(x) < WorkerWork(WorkerAt(s, g, w))
    ensures Sum(SetWorker(s, g, w, x).handlers, HandlerWork)
         == Sum(s.handlers, HandlerWork) - (WorkerWork(WorkerAt(s, g, w)) - WorkerWork(x))
  {
    var h := s.handlers[g];
    var k := h.(workers := h.workers[w := x]);
    SumUpdate(h.workers, w, x, WorkerWork);
    HandlerWorkFalls(s, SetWorker(s, g, w, x), g, k, WorkerWork(h.workers[w]) - WorkerWork(x));
  }

  lemma PhaseStepFalls(s: State, g: nat, phase: Phase)
    requires g < |s.handlers| && PhaseWork(phase) < PhaseWork(s.handlers[g].phase)
    ensures Sum(SetHandler(s, g, s.handlers[g].(phase := phase)).handlers, HandlerWork) < Sum(s.handlers, HandlerWork)
  {
    var h := s.handlers[g];
    HandlerWorkFalls(s, SetHandler(s, g, h.(phase := phase)), g, h.(phase := phase),
      PhaseWork(h.phase) - PhaseWork(phase));
  }

  lemma QueueStepFalls(s: State, t: State, g: nat, k: Handler, w: nat)
    requires g < |s.handlers| && s.handlers[g].pending != [] && t.handlers == s.handlers[g := k]
    requires k.phase == s.handlers[g].phase && k.pending == s.handlers[g].pending[1..]
    requires k.workers == s.handlers[g].workers
          || (w < |s.handlers[g].workers| && s.handlers[g].workers[w] == Idle
              && k.workers == s.handlers[g].workers[w := Taken(s.handlers[g].pending[0])])
    ensures Sum(t.handlers, HandlerWork) < Sum(s.handlers, HandlerWork)
  {
    var h := s.handlers[g];
    if k.workers != h.workers {
      SumUpdate(h.workers, w, Taken(h.pending[0]), WorkerWork);
    }
    HandlerWorkFalls(s, t, g, k, HandlerWork(h) - HandlerWork(k));
  }

  lemma RestOfWorkFalls(c: Config, s: State, step: Step)
    requires Enabled(c, s, step) && !step.Spawn? && !step.CloseQueue? && !step.HandlerDone?
    requires !step.Handoff? && !step.DropPush?
    ensures Work(Apply(c, s, step)) < Work(s)
  {
    match step {
      case BeginRestart(g, w) => WorkerStepFalls(s, g, w, Restarting(WorkerAt(s, g, w).action));
      case SeeClosed(g, w) => WorkerStepFalls(s, g, w, Exited);
      case SeeCancel(g, w) => WorkerStepFalls(s, g, w, Exited);
      case FinishRestart(g, w, ok) => WorkerStepFalls(s, g, w, Sending(Status(WorkerAt(s, g, w).action, ok)));
      case SendStatus(g, w) => WorkerStepFalls(s, g, w, Delaying);
      case DelayOver(g, w) => WorkerStepFalls(s, g, w, Idle);
      case _ =>
    }
  }

  /** Any step at all, of any goroutine, lowers the work left. */
  lemma WorkFalls(c: Config, s: State, step: Step)
    requires Enabled(c, s, step) && (step.Spawn? ==> s.handlers[s.dispatcher.next].phase == Waiting)
    ensures Work(Apply(c, s, step)) < Work(s)
  {
    var t := Apply(c, s, step);
    match step {
      case Spawn => PhaseStepFalls(s, s.dispatcher.next, Pushing);
      case CloseQueue(g) => PhaseStepFalls(s, g, Closed);
      case HandlerDone(g) => PhaseStepFalls(s, g, Finished);
      case Handoff(g, w) => QueueStepFalls(s, t, g, t.handlers[g], w);
      case DropPush(g) => QueueStepFalls(s, t, g, t.handlers[g], 0);
      case _ => RestOfWorkFalls(c, s, step);
    }
  }

  /** So no interleaving, cancelled or not, is longer than the work the batch starts with. */
  lemma {:induction false} InterleavingsAreBounded(c: Config, s: State, steps: seq<Step>)
    requires Inv(c, s) && Interleaving(c, s, steps)
    ensures |steps| + Work(Outcome(c, s, steps)) <= Work(s)
    decreases |steps|
  {
    if steps != [] {
      StepKeepsInv(c, s, steps[0]);
      WorkFalls(c, s, steps[0]);
      InterleavingsAreBounded(c, Apply(c, s, steps[0]), steps[1..]);
    }
  }

  // ---------------------------------------------------------------------------
  // Some step is enabled
  // ---------------------------------------------------------------------------

  ghost predicate SomeSending(s: State) {
    exists g, w :: 0 <= g < |s.handlers| && 0 <= w < |s.handlers[g].workers| && s.handlers[g].workers[w].Sending?
  }

  /** A worker has a status to send and the channel is full. */
  ghost predicate Jammed(c: Config, s: State) {
    |s.buffer| >= c.buffer && SomeSending(s)
  }

  /** Jammed, and the collector has left: nobody will ever make room. */
  ghost predicate Hung(c: Config, s: State) {
    !s.collecting && Jammed(c, s)
  }

  ghost predicate Dispatching(s: State) {
    s.dispatcher.Spawning? || s.dispatcher == Aborting
  }

  /** A step of the dispatcher or of a handler. */
  predicate OfHandlers(step: Step) {
    !(step.Collect? || step.CollectorDone? || step.CollectorCancel? || step.Report? || step.CleanUp?
      || step.Cancel? || step.Abort?)
  }

  lemma WorkerCanMove(c: Config, s: State, g: nat, w: nat) returns (step: Step)
    requires AtWorker(s, g, w) && WorkerAt(s, g, w) != Idle && WorkerAt(s, g, w) != Exited
    requires !Jammed(c, s)
    ensures OfHandlers(step) && Enabled(c, s, step)
    ensures step.FinishRestart? || step.DelayOver? ==> step.g == g
  {
    match WorkerAt(s, g, w) {
      case Taken(_) => step := BeginRestart(g, w);
      case Restarting(_) => step := FinishRestart(g, w, true);
      case Sending(_) => step := SendStatus(g, w);
      case Delaying => step := DelayOver(g, w);
    }
  }

  lemma HandlerCanMove(c: Config, s: State, g: nat) returns (step: Step)
    requires HandlersOk(c, s) && c.workers >= 1 && g < |s.handlers| && Active(s.handlers[g]) && !Jammed(c, s)
    ensures OfHandlers(step) && Enabled(c, s, step)
    ensures step.FinishRestart? || step.DelayOver? ==> step.g == g
  {
    var h := s.handlers[g];
    assert HandlerOk(c, c.groups[g], h, s.cancelled);
    if w :| 0 <= w < |h.workers| && h.workers[w] != Idle && h.workers[w] != Exited {
      step := WorkerCanMove(c, s, g, w);
    } else if h.phase == Pushing && h.pending == [] {
      step := CloseQueue(g);
    } else if h.phase == Pushing && s.cancelled {
      step := DropPush(g);
    } else if w :| 0 <= w < |h.workers| && h.workers[w] == Idle {
      step := if h.phase == Pushing then Handoff(g, w) else SeeClosed(g, w);
    } else {
      assert WorkerOk(c.groups[g], h.phase, h.workers[0], s.cancelled);
      step := HandlerDone(g);
    }
  }

  lemma QuietHasFreeSlot(s: State)
    requires AllQuiet(s)
    ensures Sum(s.handlers, ActiveCount) == 0
  {
    SumBound(s.handlers, ActiveCount, 0);
  }

  lemma DispatchCanMove(c: Config, s: State) returns (step: Step)
    requires Inv(c, s) && ValidConfig(c) && Dispatching(s) && !Jammed(c, s)
    ensures OfHandlers(step) && Enabled(c, s, step)
    ensures step.DispatchReturn? ==> AllQuiet(s)
  {
    if g :| 0 <= g < |s.handlers| && Active(s.handlers[g]) {
      step := HandlerCanMove(c, s, g);
    } else {
      QuietHasFreeSlot(s);
      step := if s.dispatcher.Spawning? && s.dispatcher.next < |s.handlers| then Spawn else DispatchReturn;
    }
  }

  lemma SendingIsHeld(s: State)
    requires SomeSending(s)
    ensures |Gather(s.handlers, InWorkers)| > 0
  {
    var g, w :| 0 <= g < |s.handlers| && 0 <= w < |s.handlers[g].workers| && s.handlers[g].workers[w].Sending?;
    HeldIsGathered(s.handlers, g, w, s.handlers[g].workers[w].status.action);
  }

  lemma HeldIsGathered(handlers: seq<Handler>, g: nat, w: nat, a: Action)
    requires g < |handlers| && w < |handlers[g].workers| && Held(handlers[g].workers[w]) == multiset{a}
    ensures a in Gather(handlers, InWorkers)
  {
    GatherContains(handlers[g].workers, w, Held);
    assert a in InWorkers(handlers[g]);
    GatherContains(handlers, g, InWorkers);
  }

  /** The statuses collected and buffered never exceed the batch; all of it is there when nothing else is. */
  lemma ReportedCount(c: Config, s: State)
    requires Inv(c, s)
    ensures |s.buffer| + |s.collected| <= |Actions(c)|
    ensures SomeSending(s) ==> |s.buffer| + |s.collected| < |Actions(c)|
    ensures AllQuiet(s) && AllFinished(s) && s.dropped == [] ==> |s.buffer| + |s.collected| == |Actions(c)|
  {
    var held, queued := Gather(s.handlers, InWorkers), Gather(s.handlers, Pending);
    assert |multiset(Actions(c))| == |queued| + |multiset(s.dropped)| + |multiset(s.taken)|;
    assert |multiset(s.taken)| == |held| + |Reporting(s)|;
    assert |Reporting(s)| == |ActionsOf(s.buffer)| + |ActionsOf(s.collected)|;
    if SomeSending(s) {
      SendingIsHeld(s);
    }
    if AllQuiet(s) && AllFinished(s) && s.dropped == [] {
      QuietHoldsNothing(c, s);
      forall g | 0 <= g < |s.handlers|
        ensures Pending(s.handlers[g]) == multiset{}
      {
        assert HandlerOk(c, c.groups[g], s.handlers[g], s.cancelled);
      }
      GatherEmpty(s.handlers, Pending);
    }
  }

  /**
   A batch that has not reached CompleteAction can always move, except when it hangs. An uncancelled batch
   never hangs, so with WorkFalls it always finishes.
   */
  lemma NoDeadlock(c: Config, s: State) returns (step: Step)
    requires ValidConfig(c) && Inv(c, s) && s.dispatcher != Reported && s.dispatcher != Cleaning && !Hung(c, s)
    ensures Enabled(c, s, step) && step != Cancel
  {
    ReportedCount(c, s);
    if Dispatching(s) {
      if Jammed(c, s) {
        step := Collect;
      } else {
        step := DispatchCanMove(c, s);
      }
    } else if !s.collecting {
      step := Report;
    } else if |s.collected| >= |Actions(c)| {
      step := CollectorDone;
    } else if s.cancelled {
      step := CollectorCancel;
    } else {
      step := Collect;
    }
  }

  lemma UncancelledNeverHangs(c: Config, s: State)
    requires Inv(c, s) && !s.cancelled
    ensures !Hung(c, s)
  {
    ReportedCount(c, s);
  }

  /** A batch that cannot move without being cancelled has finished, in every interleaving from the start. */
  lemma UncancelledBatchFinishes(c: Config, steps: seq<Step>)
    requires ValidConfig(c) && Interleaving(c, Fresh(c), steps)
    requires var s := Outcome(c, Fresh(c), steps);
      !s.cancelled && forall step :: step != Cancel ==> !Enabled(c, s, step)
    ensures Outcome(c, Fresh(c), steps).dispatcher == Reported
  {
    FreshInv(c);
    InterleavingKeepsInv(c, Fresh(c), steps);
    var s := Outcome(c, Fresh(c), steps);
    UncancelledNeverHangs(c, s);
    if s.dispatcher != Reported {
      var step := NoDeadlock(c, s);
    }
  }

  ghost predicate CanFinish(c: Config) {
    exists steps :: Interleaving(c, Fresh(c), steps)
      && Outcome(c, Fresh(c), steps).dispatcher == Reported && !Outcome(c, Fresh(c), steps).cancelled
  }

  lemma {:induction false} TowardsReport(c: Config, s: State) returns (step: Step)
    requires ValidConfig(c) && Inv(c, s) && !s.cancelled && s.dispatcher != Reported
    ensures Enabled(c, s, step) && step != Cancel
    ensures Inv(c, Apply(c, s, step)) && Work(Apply(c, s, step)) < Work(s)
  {
    UncancelledNeverHangs(c, s);
    step := NoDeadlock(c, s);
    StepKeepsInv(c, s, step);
    WorkFalls(c, s, step);
  }

  lemma OnlyCancelCancels(c: Config, s: State, step: Step)
    requires Enabled(c, s, step) && step != Cancel
    ensures Apply(c, s, step).cancelled == s.cancelled
  {
  }

  lemma {:induction false} RunsToReport(c: Config, s: State) returns (steps: seq<Step>)
    requires ValidConfig(c) && Inv(c, s) && !s.cancelled
    ensures Interleaving(c, s, steps)
    ensures Outcome(c, s, steps).dispatcher == Reported && !Outcome(c, s, steps).cancelled
    decreases Work(s)
  {
    if s.dispatcher == Reported {
      return [];
    }
    var step := TowardsReport(c, s);
    OnlyCancelCancels(c, s, step);
    var rest := RunsToReport(c, Apply(c, s, step));
    steps := [step] + rest;
    StepThenRest(c, s, step, rest);
  }

  lemma StepThenRest(c: Config, s: State, step: Step, rest: seq<Step>)
    requires Enabled(c, s, step) && Interleaving(c, Apply(c, s, step), rest)
    ensures Interleaving(c, s, [step] + rest)
    ensures Outcome(c, s, [step] + rest) == Outcome(c, Apply(c, s, step), rest)
  {
    assert ([step] + rest)[1..] == rest;
  }

  lemma NobodyBegins(c: Config, s: State, step: Step)
    requires c.workers == 0 && HandlersOk(c, s) && Enabled(c, s, step)
    ensures Apply(c, s, step).started == s.started
  {
    forall g | 0 <= g < |s.handlers|
      ensures s.handlers[g].workers == []
    {
      assert HandlerOk(c, c.groups[g], s.handlers[g], s.cancelled);
    }
  }

  lemma {:induction false} NobodyStarts(c: Config, s: State, steps: seq<Step>)
    requires c.workers == 0 && Inv(c, s) && s.started == [] && Interleaving(c, s, steps)
    ensures Outcome(c, s, steps).started == []
    decreases |steps|
  {
    if steps != [] {
      NobodyBegins(c, s, steps[0]);
      StepKeepsInv(c, s, steps[0]);
      NobodyStarts(c, Apply(c, s, steps[0]), steps[1..]);
    }
  }

  /**
   NodesInflight is not validated. A batch with something to restart can finish uncancelled exactly when it is
   positive; at zero the dispatcher pushes to a queue nobody reads.
   */
  lemma FinishesIffWorkers(c: Config)
    requires WellFormed(c) && c.buffer >= c.workers && Actions(c) != []
    ensures CanFinish(c) <==> c.workers >= 1
  {
    FreshInv(c);
    if c.workers >= 1 {
      var steps := RunsToReport(c, Fresh(c));
    } else {
      forall steps | Interleaving(c, Fresh(c), steps)
        ensures Outcome(c, Fresh(c), steps).dispatcher != Reported || Outcome(c, Fresh(c), steps).cancelled
      {
        InterleavingKeepsInv(c, Fresh(c), steps);
        NobodyStarts(c, Fresh(c), steps);
        var s := Outcome(c, Fresh(c), steps);
        assert s.started == [] && Actions(c)[0] in multiset(Actions(c));
        if s.dispatcher == Reported && !s.cancelled {
          EverythingCollected(c, s);
          assert false;
        }
      }
    }
  }

  // ---------------------------------------------------------------------------
  // A cancelled batch can hang
  // ---------------------------------------------------------------------------

  lemma HungStep(c: Config, s: State, step: Step, g: nat, w: nat)
    requires Enabled(c, s, step) && !s.collecting && |s.buffer| >= c.buffer
    requires AtWorker(s, g, w) && WorkerAt(s, g, w).Sending?
    ensures var t := Apply(c, s, step);
      && !t.collecting && t.buffer == s.buffer
      && g < |t.handlers| && w < |t.handlers[g].workers| && t.handlers[g].workers[w] == s.handlers[g].workers[w]
  {
  }

  /** Nothing gets a hung batch going again: it never reaches CompleteAction. */
  lemma {:induction false} HungForever(c: Config, s: State, steps: seq<Step>)
    requires Inv(c, s) && Hung(c, s) && Interleaving(c, s, steps)
    ensures Hung(c, Outcome(c, s, steps)) && Dispatching(Outcome(c, s, steps))
    decreases |steps|
  {
    if steps == [] {
      HungIsDispatching(c, s);
    } else {
      StepKeepsInv(c, s, steps[0]);
      HungNext(c, s, steps[0]);
      HungForever(c, Apply(c, s, steps[0]), steps[1..]);
    }
  }

  lemma HungNext(c: Config, s: State, step: Step)
    requires HandlersOk(c, s) && Hung(c, s) && Enabled(c, s, step)
    ensures Hung(c, Apply(c, s, step))
  {
    var g, w :| 0 <= g < |s.handlers| && 0 <= w < |s.handlers[g].workers| && s.handlers[g].workers[w].Sending?;
    QuietIsIdle(c, s, g, w);
    HungStep(c, s, step, g, w);
  }

  lemma HungIsDispatching(c: Config, s: State)
    requires HandlersOk(c, s) && DispatcherOk(s) && Hung(c, s)
    ensures Dispatching(s)
  {
    var g, w :| 0 <= g < |s.handlers| && 0 <= w < |s.handlers[g].workers| && s.handlers[g].workers[w].Sending?;
    QuietIsIdle(c, s, g, w);
  }

  ghost predicate NothingCollected(c: Config, s: State) {
    Inv(c, s) && Dispatching(s) && !s.cancelled && s.collecting && s.collected == []
  }

  lemma {:induction false} TowardsJam(c: Config, s: State) returns (step: Step)
    requires ValidConfig(c) && NothingCollected(c, s) && !Jammed(c, s) && |Actions(c)| > c.buffer
    ensures Enabled(c, s, step) && NothingCollected(c, Apply(c, s, step)) && Work(Apply(c, s, step)) < Work(s)
  {
    step := DispatchCanMove(c, s);
    ReportedCount(c, s);
    assert !(AllQuiet(s) && AllFinished(s));
    assert !step.DispatchReturn?;
    StepKeepsInv(c, s, step);
    WorkFalls(c, s, step);
  }

  /** Left to the handlers alone, a batch larger than the channel jams before it returns. */
  lemma {:induction false} RunsIntoJam(c: Config, s: State) returns (steps: seq<Step>)
    requires ValidConfig(c) && NothingCollected(c, s) && |Actions(c)| > c.buffer
    ensures Interleaving(c, s, steps)
    ensures NothingCollected(c, Outcome(c, s, steps)) && Jammed(c, Outcome(c, s, steps))
    decreases Work(s)
  {
    if Jammed(c, s) {
      return [];
    }
    var step := TowardsJam(c, s);
    var rest := RunsIntoJam(c, Apply(c, s, step));
    steps := [step] + rest;
    StepThenRest(c, s, step, rest);
  }

  lemma {:induction false} Append(c: Config, s: State, steps: seq<Step>, step: Step)
    requires Interleaving(c, s, steps) && Enabled(c, Outcome(c, s, steps), step)
    ensures Interleaving(c, s, steps + [step])
    ensures Outcome(c, s, steps + [step]) == Apply(c, Outcome(c, s, steps), step)
    decreases |steps|
  {
    if steps == [] {
      assert [step][1..] == [];
    } else {
      assert (steps + [step])[1..] == steps[1..] + [step];
      Append(c, Apply(c, s, steps[0]), steps[1..], step);
    }
  }

  ghost predicate CanHang(c: Config) {
    exists steps :: Interleaving(c, Fresh(c), steps) && Hung(c, Outcome(c, Fresh(c), steps))
  }

  lemma LargerThanChannelHangs(c: Config)
    requires ValidConfig(c) && |Actions(c)| > c.buffer
    ensures CanHang(c)
  {
    FreshIsUncollected(c);
    var steps := RunsIntoJam(c, Fresh(c));
    HangsAfter(c, Fresh(c), steps);
  }

  lemma HangsAfter(c: Config, s: State, steps: seq<Step>)
    requires Interleaving(c, s, steps) && |Actions(c)| > c.buffer
    requires NothingCollected(c, Outcome(c, s, steps)) && Jammed(c, Outcome(c, s, steps))
    ensures Interleaving(c, s, steps + [Cancel] + [CollectorCancel])
    ensures Hung(c, Outcome(c, s, steps + [Cancel] + [CollectorCancel]))
  {
    Append(c, s, steps, Cancel);
    Append(c, s, steps + [Cancel], CollectorCancel);
  }

  lemma FreshIsUncollected(c: Config)
    ensures NothingCollected(c, Fresh(c))
  {
    FreshInv(c);
  }

  /**
   The status send of a worker does not watch the context. A cancelled batch can therefore hang for ever,
   and the maintenance tasks are never dropped, exactly when it has more actions than the status channel
   has room.
   */
  lemma HangsIffLargerThanChannel(c: Config)
    requires ValidConfig(c)
    ensures CanHang(c) <==> |Actions(c)| > c.buffer
  {
    if |Actions(c)| > c.buffer {
      LargerThanChannelHangs(c);
    } else {
      FreshInv(c);
      forall steps | Interleaving(c, Fresh(c), steps)
        ensures !Hung(c, Outcome(c, Fresh(c), steps))
      {
        InterleavingKeepsInv(c, Fresh(c), steps);
        ReportedCount(c, Outcome(c, Fresh(c), steps));
      }
    }
  }
}
