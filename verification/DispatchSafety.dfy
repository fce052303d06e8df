/** What holds in every interleaving of a batch: concurrency bounds, locks, and the result. */
module DispatchSafety {
  import opened Progress
  import opened Sums
  import opened Collections
  import opened Dispatch

  // ---------------------------------------------------------------------------
  // Concurrency bounds
  // ---------------------------------------------------------------------------

  /** In a RestartNode call, or about to make it. */
  predicate Engaged(w: Worker) {
    w.Taken? || w.Restarting?
  }

  function Busy(w: Worker): nat {
    if Engaged(w) then 1 else 0
  }

  /** RestartNode calls in progress in one handler, or about to be made. */
  function InRestart(h: Handler): nat {
    Sum(h.workers, Busy)
  }

  /** The nodes of tenant t that are restarting, or about to. */
  ghost function RestartingOf(s: State, tenantOf: Action -> string, t: string): set<Action> {
    set g, w | 0 <= g < |s.handlers| && 0 <= w < |s.handlers[g].workers| && Engaged(s.handlers[g].workers[w])
               && tenantOf(s.handlers[g].workers[w].action) == t :: s.handlers[g].workers[w].action
  }

  ghost function RestartingTenants(s: State, tenantOf: Action -> string): set<string> {
    set g, w | 0 <= g < |s.handlers| && 0 <= w < |s.handlers[g].workers| && Engaged(s.handlers[g].workers[w])
             :: tenantOf(s.handlers[g].workers[w].action)
  }

  /** The groups are the tenants: one group each. */
  ghost predicate GroupedByTenant(c: Config, tenantOf: Action -> string) {
    && (forall g, a, b :: 0 <= g < |c.groups| && a in c.groups[g] && b in c.groups[g] ==> tenantOf(a) == tenantOf(b))
    && (forall g, k, a, b :: 0 <= g < k < |c.groups| && a in c.groups[g] && b in c.groups[k] ==>
          tenantOf(a) != tenantOf(b))
  }

  lemma QuietIsIdle(c: Config, s: State, g: nat, w: nat)
    requires HandlersOk(c, s) && g < |s.handlers| && w < |s.handlers[g].workers|
    ensures !Active(s.handlers[g]) ==> s.handlers[g].workers[w] == Idle || s.handlers[g].workers[w] == Exited
    ensures var x := s.handlers[g].workers[w]; Engaged(x) ==> x.action in c.groups[g]
  {
    assert HandlerOk(c, c.groups[g], s.handlers[g], s.cancelled);
    assert WorkerOk(c.groups[g], s.handlers[g].phase, s.handlers[g].workers[w], s.cancelled);
  }

  /** At most slots * NodesInflight restarts are in progress in all. */
  lemma {:induction false} TotalBound(hs: seq<Handler>, workers: nat)
    requires forall g :: 0 <= g < |hs| ==> InRestart(hs[g]) <= workers * ActiveCount(hs[g])
    ensures Sum(hs, InRestart) <= workers * Sum(hs, ActiveCount)
  {
    if hs != [] {
      var n := |hs| - 1;
      TotalBound(hs[..n], workers);
      Distribute(workers, Sum(hs[..n], ActiveCount), ActiveCount(hs[n]));
    }
  }

  lemma Distribute(k: nat, x: nat, y: nat)
    ensures k * (x + y) == k * x + k * y
  {
  }

  lemma HandlerBound(c: Config, s: State, g: nat)
    requires HandlersOk(c, s) && g < |s.handlers|
    ensures InRestart(s.handlers[g]) <= c.workers * ActiveCount(s.handlers[g])
  {
    var h := s.handlers[g];
    assert HandlerOk(c, c.groups[g], h, s.cancelled);
    if Active(h) {
      SumBound(h.workers, Busy, 1);
    } else {
      forall w | 0 <= w < |h.workers|
        ensures Busy(h.workers[w]) <= 0
      {
        QuietIsIdle(c, s, g, w);
      }
      SumBound(h.workers, Busy, 0);
    }
  }

  /** A set that is the image of an index range is no larger than the range. */
  lemma {:induction false} ImageBound<T>(items: seq<T>)
    ensures |set x | x in items| <= |items|
  {
    if items != [] {
      var n := |items| - 1;
      ImageBound(items[..n]);
      assert (set x | x in items) == (set x | x in items[..n]) + {items[n]};
    }
  }

  function WorkerActions(ws: seq<Worker>): (r: seq<Action>)
    ensures |r| <= |ws|
    ensures forall w :: 0 <= w < |ws| && Engaged(ws[w]) ==> ws[w].action in r
  {
    if ws == [] then []
    else WorkerActions(ws[..|ws| - 1]) + if Engaged(ws[|ws| - 1]) then [ws[|ws| - 1].action] else []
  }

  /** Nodes of one tenant restart in one handler only. */
  lemma OneHandlerPerTenant(c: Config, s: State, tenantOf: Action -> string, g: nat, w: nat, a: Action)
    requires HandlersOk(c, s) && GroupedByTenant(c, tenantOf)
    requires g < |s.handlers| && w < |s.handlers[g].workers| && Engaged(s.handlers[g].workers[w])
    requires a in RestartingOf(s, tenantOf, tenantOf(s.handlers[g].workers[w].action))
    ensures a in WorkerActions(s.handlers[g].workers)
  {
    var t := tenantOf(s.handlers[g].workers[w].action);
    var k, v :| 0 <= k < |s.handlers| && 0 <= v < |s.handlers[k].workers| && Engaged(s.handlers[k].workers[v])
                && s.handlers[k].workers[v].action == a && tenantOf(a) == t;
    QuietIsIdle(c, s, k, v);
    QuietIsIdle(c, s, g, w);
    assert k == g;
  }

  lemma PerTenantBound(c: Config, s: State, tenantOf: Action -> string, t: string)
    requires HandlersOk(c, s) && GroupedByTenant(c, tenantOf)
    ensures |RestartingOf(s, tenantOf, t)| <= c.workers
  {
    var running := RestartingOf(s, tenantOf, t);
    if running != {} {
      var g, w :| 0 <= g < |s.handlers| && 0 <= w < |s.handlers[g].workers| && Engaged(s.handlers[g].workers[w])
                  && tenantOf(s.handlers[g].workers[w].action) == t;
      assert HandlerOk(c, c.groups[g], s.handlers[g], s.cancelled);
      var here := WorkerActions(s.handlers[g].workers);
      forall a | a in running
        ensures a in here
      {
        OneHandlerPerTenant(c, s, tenantOf, g, w, a);
      }
      ImageBound(here);
      SubsetSize(running, set a | a in here);
    }
  }

  /** One tenant name per active handler. */
  function ActiveTenants(c: Config, hs: seq<Handler>, tenantOf: Action -> string): (r: seq<string>)
    requires |hs| <= |c.groups|
    ensures |r| <= Sum(hs, ActiveCount)
    ensures forall g :: 0 <= g < |hs| && Active(hs[g]) && c.groups[g] != [] ==> tenantOf(c.groups[g][0]) in r
  {
    if hs == [] then []
    else
      var n := |hs| - 1;
      ActiveTenants(c, hs[..n], tenantOf)
      + if Active(hs[n]) && c.groups[n] != [] then [tenantOf(c.groups[n][0])] else []
  }

  lemma ActiveOfTenant(c: Config, s: State, tenantOf: Action -> string, t: string) returns (g: nat)
    requires HandlersOk(c, s) && GroupedByTenant(c, tenantOf) && t in RestartingTenants(s, tenantOf)
    ensures g < |s.handlers| && Active(s.handlers[g]) && c.groups[g] != [] && tenantOf(c.groups[g][0]) == t
  {
    var w: nat;
    g, w :| 0 <= g < |s.handlers| && 0 <= w < |s.handlers[g].workers| && Engaged(s.handlers[g].workers[w])
            && tenantOf(s.handlers[g].workers[w].action) == t;
    QuietIsIdle(c, s, g, w);
    assert c.groups[g][0] in c.groups[g];
  }

  lemma TenantCountBound(c: Config, s: State, tenantOf: Action -> string)
    requires HandlersOk(c, s) && GroupedByTenant(c, tenantOf) && Sum(s.handlers, ActiveCount) <= c.slots
    ensures |RestartingTenants(s, tenantOf)| <= c.slots
  {
    var names := ActiveTenants(c, s.handlers, tenantOf);
    forall t | t in RestartingTenants(s, tenantOf)
      ensures t in names
    {
      var g := ActiveOfTenant(c, s, tenantOf, t);
    }
    ImageBound(names);
    SubsetSize(RestartingTenants(s, tenantOf), set t | t in names);
  }

  lemma AllHandlersBound(c: Config, s: State)
    requires HandlersOk(c, s) && Sum(s.handlers, ActiveCount) <= c.slots
    ensures Sum(s.handlers, InRestart) <= c.workers * c.slots
  {
    forall g | 0 <= g < |s.handlers|
      ensures InRestart(s.handlers[g]) <= c.workers * ActiveCount(s.handlers[g])
    {
      HandlerBound(c, s, g);
    }
    TotalBound(s.handlers, c.workers);
    MulMonotone(c.workers, Sum(s.handlers, ActiveCount), c.slots);
  }

  /**
   In every interleaving, cancelled or not: NodesInflight bounds the restarts of each tenant,
   TenantsInflight the tenants with a restart in progress, and the product all restarts.
   With one slot, as in dispatchAll, the last bound is NodesInflight.
   */
  lemma ConcurrencyBounds(c: Config, steps: seq<Step>, tenantOf: Action -> string)
    requires WellFormed(c) && Interleaving(c, Fresh(c), steps)
    ensures var s := Outcome(c, Fresh(c), steps);
      && Sum(s.handlers, InRestart) <= c.workers * c.slots
      && (GroupedByTenant(c, tenantOf) ==>
            && |RestartingTenants(s, tenantOf)| <= c.slots
            && forall t :: |RestartingOf(s, tenantOf, t)| <= c.workers)
  {
    FreshInv(c);
    InterleavingKeepsInv(c, Fresh(c), steps);
    var s := Outcome(c, Fresh(c), steps);
    AllHandlersBound(c, s);
    if GroupedByTenant(c, tenantOf) {
      TenantCountBound(c, s, tenantOf);
      forall t
        ensures |RestartingOf(s, tenantOf, t)| <= c.workers
      {
        PerTenantBound(c, s, tenantOf, t);
      }
    }
  }

  lemma MulMonotone(k: nat, x: nat, y: nat)
    requires x <= y
    ensures k * x <= k * y
  {
  }

  // ---------------------------------------------------------------------------
  // Locks outlive restarts
  // ---------------------------------------------------------------------------

  /** A RestartNode call is in progress somewhere, or about to be made. */
  ghost predicate InsideRestartNode(s: State) {
    exists g, w :: 0 <= g < |s.handlers| && 0 <= w < |s.handlers[g].workers|
      && Engaged(s.handlers[g].workers[w])
  }

  /** All workers of the batch are gone: CompleteAction is called, or the tasks are dropped. */
  predicate Over(s: State) {
    s.dispatcher == Returned || s.dispatcher == Reported || s.dispatcher == Cleaning
  }

  lemma QuietHoldsNothing(c: Config, s: State)
    requires HandlersOk(c, s) && AllQuiet(s)
    ensures Gather(s.handlers, InWorkers) == multiset{} && Gather(s.handlers, NotBegun) == multiset{}
  {
    forall g | 0 <= g < |s.handlers|
      ensures InWorkers(s.handlers[g]) == multiset{} && NotBegun(s.handlers[g]) == multiset{}
    {
      forall w | 0 <= w < |s.handlers[g].workers|
        ensures Held(s.handlers[g].workers[w]) == multiset{} && JustTaken(s.handlers[g].workers[w]) == multiset{}
      {
        QuietIsIdle(c, s, g, w);
      }
      GatherEmpty(s.handlers[g].workers, Held);
      GatherEmpty(s.handlers[g].workers, JustTaken);
    }
    GatherEmpty(s.handlers, InWorkers);
    GatherEmpty(s.handlers, NotBegun);
  }

  lemma AllAttempts(collected: seq<Status>, buffer: seq<Status>)
    ensures ActionsOf(collected + buffer) == ActionsOf(collected) + ActionsOf(buffer)
    ensures multiset(ActionsOf(collected + buffer)) == multiset(ActionsOf(buffer)) + multiset(ActionsOf(collected))
  {
    assert ActionsOf(collected + buffer) == ActionsOf(collected) + ActionsOf(buffer);
  }

  lemma StartedFromBatch(c: Config, s: State)
    requires Inv(c, s) && Distinct(Actions(c))
    ensures multiset(s.started) <= multiset(s.taken) <= multiset(Actions(c))
    ensures Distinct(s.taken) && forall a :: a in s.taken ==> a in Actions(c)
    ensures Distinct(s.started) && forall a :: a in s.started ==> a in Actions(c)
  {
    PartOfDistinct(s.taken, Actions(c));
    PartOfDistinct(s.started, Actions(c));
  }

  lemma QuietIsOutside(c: Config, s: State)
    requires HandlersOk(c, s) && AllQuiet(s)
    ensures !InsideRestartNode(s)
  {
    forall g, w | 0 <= g < |s.handlers| && 0 <= w < |s.handlers[g].workers|
      ensures !Engaged(s.handlers[g].workers[w])
    {
      QuietIsIdle(c, s, g, w);
    }
  }

  /**
   When CompleteAction is called for a batch, and when the tasks are dropped after cancellation, no worker is
   inside RestartNode or will call it. Every restart made was of a distinct action of the batch, and each has
   exactly one status, either collected or left in the channel.
   */
  lemma LocksOutliveRestarts(c: Config, steps: seq<Step>)
    requires WellFormed(c) && Interleaving(c, Fresh(c), steps)
    ensures var s := Outcome(c, Fresh(c), steps);
      && Distinct(s.started)
      && (forall a :: a in s.started ==> a in Actions(c))
      && (Over(s) ==>
            && !InsideRestartNode(s)
            && multiset(ActionsOf(s.collected + s.buffer)) == multiset(s.started)
            && Distinct(ActionsOf(s.collected + s.buffer)))
  {
    FreshInv(c);
    InterleavingKeepsInv(c, Fresh(c), steps);
    StartedFromBatch(c, Outcome(c, Fresh(c), steps));
    OneStatusEach(c, Outcome(c, Fresh(c), steps));
  }

  lemma OneStatusEach(c: Config, s: State)
    requires Inv(c, s) && Distinct(s.started)
    ensures Over(s) ==>
      && !InsideRestartNode(s)
      && multiset(ActionsOf(s.collected + s.buffer)) == multiset(s.started)
      && Distinct(ActionsOf(s.collected + s.buffer))
  {
    if Over(s) {
      QuietIsOutside(c, s);
      StatusesWhenQuiet(c, s);
    }
  }

  lemma StatusesWhenQuiet(c: Config, s: State)
    requires HandlersOk(c, s) && Conserved(c, s) && Begun(s) && AllQuiet(s) && Distinct(s.started)
    ensures multiset(ActionsOf(s.collected + s.buffer)) == multiset(s.started)
    ensures Distinct(ActionsOf(s.collected + s.buffer))
  {
    QuietHoldsNothing(c, s);
    AllAttempts(s.collected, s.buffer);
    assert multiset(s.started) == multiset(s.taken);
    PartOfDistinct(ActionsOf(s.collected + s.buffer), s.started);
  }

  // ---------------------------------------------------------------------------
  // After cancellation
  // ---------------------------------------------------------------------------

  /** Actions whose RestartNode call is still to come, in all handlers. */
  function ToBegin(s: State): multiset<Action> {
    Gather(s.handlers, NotBegun)
  }

  lemma CancelledStep(c: Config, s: State, step: Step)
    requires s.cancelled && Enabled(c, s, step)
    ensures Apply(c, s, step).cancelled && Apply(c, s, step).taken == s.taken
  {
  }

  /** No action is handed to a worker once the context is cancelled. */
  lemma {:induction false} NothingTakenOnceCancelled(c: Config, s: State, steps: seq<Step>)
    requires s.cancelled && Interleaving(c, s, steps)
    ensures Outcome(c, s, steps).cancelled && Outcome(c, s, steps).taken == s.taken
    decreases |steps|
  {
    if steps != [] {
      CancelledStep(c, s, steps[0]);
      NothingTakenOnceCancelled(c, Apply(c, s, steps[0]), steps[1..]);
    }
  }

  /** The calls of RestartNode are only ever added to. */
  lemma {:induction false} StartedGrows(c: Config, s: State, steps: seq<Step>)
    requires Interleaving(c, s, steps)
    ensures s.started <= Outcome(c, s, steps).started
    decreases |steps|
  {
    if steps != [] {
      StartedGrows(c, Apply(c, s, steps[0]), steps[1..]);
    }
  }

  /** The calls of RestartNode that begin in the course of these steps. */
  function BegunIn(c: Config, s: State, steps: seq<Step>): seq<Action>
    requires Interleaving(c, s, steps) && s.started <= Outcome(c, s, steps).started
  {
    Outcome(c, s, steps).started[|s.started|..]
  }

  /**
   The context does not stop a worker that has taken its action: the calls of RestartNode that begin after the
   cancellation, together with those still to come, are exactly those of the actions taken before it. So there
   are at most as many as workers could hold.
   */
  lemma BegunAfterCancel(c: Config, s: State, steps: seq<Step>)
    requires Inv(c, s) && s.cancelled && Interleaving(c, s, steps)
    ensures s.started <= Outcome(c, s, steps).started
    ensures multiset(BegunIn(c, s, steps)) + ToBegin(Outcome(c, s, steps)) == ToBegin(s)
    ensures Over(Outcome(c, s, steps)) ==> multiset(BegunIn(c, s, steps)) == ToBegin(s)
    ensures |BegunIn(c, s, steps)| <= c.workers * c.slots
  {
    OutcomeIsOk(c, s, steps);
    NothingTakenOnceCancelled(c, s, steps);
    StartedGrows(c, s, steps);
    BegunBetween(c, s, Outcome(c, s, steps));
  }

  lemma OutcomeIsOk(c: Config, s: State, steps: seq<Step>)
    requires Inv(c, s) && Interleaving(c, s, steps)
    ensures var t := Outcome(c, s, steps); HandlersOk(c, t) && DispatcherOk(t) && Begun(t)
  {
    InterleavingKeepsInv(c, s, steps);
  }

  lemma BegunBetween(c: Config, s: State, t: State)
    requires HandlersOk(c, s) && Sum(s.handlers, ActiveCount) <= c.slots && Begun(s)
    requires HandlersOk(c, t) && DispatcherOk(t) && Begun(t)
    requires t.taken == s.taken && s.started <= t.started
    ensures var begun := t.started[|s.started|..];
      && multiset(begun) + ToBegin(t) == ToBegin(s)
      && (Over(t) ==> multiset(begun) == ToBegin(s))
      && |begun| <= c.workers * c.slots
  {
    AllToBeginBound(c, s);
    GrownBy(s.started, t.started, ToBegin(t), ToBegin(s));
    if Over(t) {
      QuietHoldsNothing(c, t);
    }
  }

  lemma GrownBy(before: seq<Action>, now: seq<Action>, left: multiset<Action>, all: multiset<Action>)
    requires before <= now && multiset(now) + left == multiset(before) + all
    ensures multiset(now[|before|..]) + left == all && |now[|before|..]| <= |all|
  {
    var grown := now[|before|..];
    assert now == before + grown;
    forall a
      ensures (multiset(grown) + left)[a] == all[a]
    {
      assert (multiset(now) + left)[a] == (multiset(before) + all)[a];
    }
    assert |multiset(grown) + left| == |grown| + |left|;
  }

  /** One handler has at most NodesInflight calls to come, and none unless it is active. */
  lemma ToBeginBound(c: Config, s: State, g: nat)
    requires HandlersOk(c, s) && g < |s.handlers|
    ensures |NotBegun(s.handlers[g])| <= c.workers * ActiveCount(s.handlers[g])
  {
    var h := s.handlers[g];
    assert HandlerOk(c, c.groups[g], h, s.cancelled);
    if Active(h) {
      GatherBound(h.workers);
    } else {
      forall w | 0 <= w < |h.workers|
        ensures JustTaken(h.workers[w]) == multiset{}
      {
        QuietIsIdle(c, s, g, w);
      }
      GatherEmpty(h.workers, JustTaken);
    }
  }

  lemma {:induction false} GatherBound(workers: seq<Worker>)
    ensures |Gather(workers, JustTaken)| <= |workers|
  {
    if workers != [] {
      GatherBound(workers[..|workers| - 1]);
    }
  }

  lemma {:induction false} TotalToBegin(hs: seq<Handler>, workers: nat)
    requires forall g :: 0 <= g < |hs| ==> |NotBegun(hs[g])| <= workers * ActiveCount(hs[g])
    ensures |Gather(hs, NotBegun)| <= workers * Sum(hs, ActiveCount)
  {
    if hs != [] {
      var n := |hs| - 1;
      TotalToBegin(hs[..n], workers);
      assert |Gather(hs, NotBegun)| == |Gather(hs[..n], NotBegun)| + |NotBegun(hs[n])|;
      Distribute(workers, Sum(hs[..n], ActiveCount), ActiveCount(hs[n]));
    }
  }

  lemma AllToBeginBound(c: Config, s: State)
    requires HandlersOk(c, s) && Sum(s.handlers, ActiveCount) <= c.slots
    ensures |ToBegin(s)| <= c.workers * c.slots
  {
    forall g | 0 <= g < |s.handlers|
      ensures |NotBegun(s.handlers[g])| <= c.workers * ActiveCount(s.handlers[g])
    {
      ToBeginBound(c, s, g);
    }
    TotalToBegin(s.handlers, c.workers);
    MulMonotone(c.workers, Sum(s.handlers, ActiveCount), c.slots);
  }

  /** No RestartNode call begins, whatever happens from here. */
  ghost predicate NothingBegins(c: Config, s: State) {
    forall steps :: Interleaving(c, s, steps) ==> Outcome(c, s, steps).started == s.started
  }

  predicate TakenAt(s: State, g: nat, w: nat) {
    AtWorker(s, g, w) && WorkerAt(s, g, w).Taken?
  }

  /** After cancellation no RestartNode call begins if and only if no worker had just taken an action. */
  lemma NothingBeginsIff(c: Config, s: State)
    requires Inv(c, s) && s.cancelled
    ensures NothingBegins(c, s) <==> forall g: nat, w: nat :: !TakenAt(s, g, w)
  {
    if g: nat, w: nat :| TakenAt(s, g, w) {
      OneBegins(c, s, g, w);
    } else {
      NobodyHasTaken(c, s);
      forall steps | Interleaving(c, s, steps)
        ensures Outcome(c, s, steps).started == s.started
      {
        NoneToBegin(c, s, steps);
      }
    }
  }

  lemma NobodyHasTaken(c: Config, s: State)
    requires HandlersOk(c, s) && forall g: nat, w: nat :: !TakenAt(s, g, w)
    ensures ToBegin(s) == multiset{}
  {
    if ToBegin(s) != multiset{} {
      var g, w := SomeJustTaken(c, s);
      assert TakenAt(s, g, w);
    }
  }

  lemma NoneToBegin(c: Config, s: State, steps: seq<Step>)
    requires Inv(c, s) && s.cancelled && Interleaving(c, s, steps) && ToBegin(s) == multiset{}
    ensures Outcome(c, s, steps).started == s.started
  {
    BegunAfterCancel(c, s, steps);
    assert |multiset(BegunIn(c, s, steps))| == 0;
  }

  lemma OneBegins(c: Config, s: State, g: nat, w: nat)
    requires TakenAt(s, g, w)
    ensures !NothingBegins(c, s)
  {
    OneStep(c, s, BeginRestart(g, w));
    assert |Apply(c, s, BeginRestart(g, w)).started| == |s.started| + 1;
  }

  lemma OneStep(c: Config, s: State, step: Step)
    requires Enabled(c, s, step)
    ensures Interleaving(c, s, [step]) && Outcome(c, s, [step]) == Apply(c, s, step)
  {
    var rest := [step][1..];
    assert rest == [];
    assert Interleaving(c, Apply(c, s, step), rest);
  }

  lemma SomeJustTaken(c: Config, s: State) returns (g: nat, w: nat)
    requires HandlersOk(c, s) && ToBegin(s) != multiset{}
    ensures AtWorker(s, g, w) && WorkerAt(s, g, w).Taken?
  {
    if forall k :: 0 <= k < |s.handlers| ==> NotBegun(s.handlers[k]) == multiset{} {
      GatherEmpty(s.handlers, NotBegun);
    }
    g :| 0 <= g < |s.handlers| && NotBegun(s.handlers[g]) != multiset{};
    if forall v :: 0 <= v < |s.handlers[g].workers| ==> JustTaken(s.handlers[g].workers[v]) == multiset{} {
      GatherEmpty(s.handlers[g].workers, JustTaken);
    }
    w :| 0 <= w < |s.handlers[g].workers| && JustTaken(s.handlers[g].workers[w]) != multiset{};
    QuietIsIdle(c, s, g, w);
  }

  /** A batch that begins under a cancelled context restarts nothing, and its collector receives nothing. */
  lemma LateBatchIsSilent(c: Config, steps: seq<Step>)
    requires Interleaving(c, Late(c), steps)
    ensures var s := Outcome(c, Late(c), steps);
      s.taken == [] && s.started == [] && s.collected == [] && s.buffer == [] && s.progress == c.before
  {
    LateInv(c);
    InterleavingKeepsInv(c, Late(c), steps);
    NothingTakenOnceCancelled(c, Late(c), steps);
    var s := Outcome(c, Late(c), steps);
    assert |Gather(s.handlers, InWorkers)| + |Reporting(s)| == |multiset(s.taken)|;
    assert |Reporting(s)| == |ActionsOf(s.buffer)| + |ActionsOf(s.collected)|;
    assert |multiset(s.started)| + |ToBegin(s)| == |multiset(s.taken)|;
  }

  // ---------------------------------------------------------------------------
  // The result of a batch
  // ---------------------------------------------------------------------------

  /** The statuses the sequential loop over the actions would have handled, one per action in list order. */
  function InListOrder(actions: seq<Action>, collected: seq<Status>): (r: seq<Status>)
    ensures |r| == |actions|
  {
    seq(|actions|, i requires 0 <= i < |actions| => Status(actions[i], Status(actions[i], true) in collected))
  }

  lemma ListOrderHasSame(actions: seq<Action>, collected: seq<Status>)
    requires Distinct(actions) && multiset(ActionsOf(collected)) == multiset(actions)
    ensures forall st :: st in collected <==> st in InListOrder(actions, collected)
    ensures ActionsOf(InListOrder(actions, collected)) == actions
    ensures Distinct(ActionsOf(collected))
  {
    PartOfDistinct(ActionsOf(collected), actions);
    var ordered := InListOrder(actions, collected);
    forall st | st in collected
      ensures st in ordered
    {
      var j :| 0 <= j < |collected| && collected[j] == st;
      assert ActionsOf(collected)[j] == st.action;
      assert st.action in multiset(actions);
      var i :| 0 <= i < |actions| && actions[i] == st.action;
      assert ordered[i] == st;
    }
    forall st | st in ordered
      ensures st in collected
    {
      var i :| 0 <= i < |actions| && ordered[i] == st;
      assert actions[i] in multiset(ActionsOf(collected));
      var j :| 0 <= j < |collected| && ActionsOf(collected)[j] == actions[i];
      assert collected[j] in collected;
    }
  }

  /**
   In every uncancelled interleaving the batch that reaches CompleteAction has restarted every action
   exactly once, collected exactly one status for each, and left the state of the sequential loop:
   the statuses handled in list order, with the outcomes the restarts had.
   */
  lemma RefinesSequentialLoop(c: Config, steps: seq<Step>)
    requires WellFormed(c) && Interleaving(c, Fresh(c), steps)
    requires var s := Outcome(c, Fresh(c), steps); s.dispatcher == Reported && !s.cancelled
    ensures var s := Outcome(c, Fresh(c), steps);
      && multiset(s.started) == multiset(Actions(c))
      && multiset(ActionsOf(s.collected)) == multiset(Actions(c))
      && |s.collected| == |Actions(c)|
      && Same(s.progress, HandleAll(c.retryLimit, c.before, InListOrder(Actions(c), s.collected)))
  {
    FreshInv(c);
    InterleavingKeepsInv(c, Fresh(c), steps);
    var s := Outcome(c, Fresh(c), steps);
    EverythingCollected(c, s);
    ListOrderHasSame(Actions(c), s.collected);
    ArrivalOrderIrrelevant(c.retryLimit, c.before, s.collected, InListOrder(Actions(c), s.collected));
  }

  lemma EverythingCollected(c: Config, s: State)
    requires Inv(c, s) && s.dispatcher == Reported && !s.cancelled
    ensures multiset(s.started) == multiset(Actions(c))
    ensures multiset(ActionsOf(s.collected)) == multiset(Actions(c)) && |s.collected| == |Actions(c)|
  {
    forall g | 0 <= g < |s.handlers|
      ensures s.handlers[g].pending == []
    {
      assert HandlerOk(c, c.groups[g], s.handlers[g], s.cancelled);
    }
    GatherEmpty(s.handlers, Pending);
    QuietHoldsNothing(c, s);
    assert multiset(s.started) == multiset(s.taken) == multiset(Actions(c));
    NothingLeft(s.buffer, s.collected, Actions(c));
  }

  lemma NothingLeft(buffer: seq<Status>, collected: seq<Status>, actions: seq<Action>)
    requires multiset(ActionsOf(buffer)) + multiset(ActionsOf(collected)) == multiset(actions)
    requires |collected| >= |actions|
    ensures buffer == [] && multiset(ActionsOf(collected)) == multiset(actions) && |collected| == |actions|
  {
    assert |multiset(ActionsOf(buffer)) + multiset(ActionsOf(collected))| == |buffer| + |collected|;
    assert |multiset(actions)| == |actions|;
    assert ActionsOf(buffer) == [];
  }
}
