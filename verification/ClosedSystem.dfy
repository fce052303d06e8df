/**
 The rolling restart against the executable CMS: every assumption on listings is discharged, nodes stay
 available, and every run with finitely many failed calls ends.
 */
module ClosedSystem {
  import opened Progress
  import opened Runs
  import opened RunTheorems
  import opened Endings
  import opened MockCms
  import opened MockTheorems

  datatype Closed = Closed(w: World, tasks: seq<Action>, released: set<NodeId>)

  /** What the environment still decides in a round: the restarts and the fate of CompleteAction. */
  datatype Choice = Choice(batch: Batch, reply: Reply)

  datatype Setting = Setting(cluster: Cluster, mode: AvailabilityMode, limit: nat, targets: seq<Action>)

  function Start(e: Setting): Closed {
    Closed(Begin(e.targets), e.targets, {})
  }

  /** The nodes released once the CMS has refreshed the task; restarts happen in this state. */
  function ReleasedNow(e: Setting, s: Closed): set<NodeId> {
    AskAll(e.cluster, e.mode, s.released, s.tasks)
  }

  function RoundOf(e: Setting, s: Closed, x: Choice): Round {
    Round(Refreshed(e.cluster, e.mode, s.released, s.tasks), x.batch, x.reply)
  }

  function Turn(e: Setting, s: Closed, x: Choice): Closed {
    var r := RoundOf(e, s, x);
    var w := Advance(e.limit, s.w, r);
    if Performed(r.listing) == [] || x.reply == Refused then Closed(w, s.tasks, ReleasedNow(e, s))
    else
      var completed := BeforeReply(e.limit, s.w.p, r).completed;
      Closed(w, Without(s.tasks, completed), ReleasedNow(e, s) - NodesWith(s.tasks, completed))
  }

  ghost predicate ChoiceOk(e: Setting, s: Closed, x: Choice) {
    var actions := Dispatched(s.w, RoundOf(e, s, x));
    BatchOk(actions, x.batch) && Whole(actions, x.batch)
  }

  ghost predicate ClosedInv(e: Setting, s: Closed) {
    && WorldInv(e.limit, e.targets, s.w)
    && Distinct(s.tasks) && (forall a :: a in s.tasks ==> a in e.targets)
    && UidsOf(s.tasks) == s.w.live
    && s.released <= NodesOf(s.tasks)
    && forall a :: a in s.tasks && a.uid in s.w.p.unreported ==> a.node in s.released
  }

  lemma StartInv(e: Setting)
    requires e.limit >= 1 && Distinct(e.targets)
    ensures ClosedInv(e, Start(e))
  {
    BeginInv(e.limit, e.targets);
  }

  // ---------------------------------------------------------------------------
  // The CMS keeps its side
  // ---------------------------------------------------------------------------

  /** The listing is the task, and what was restarted but not reported is still PERFORMED. */
  lemma ListingIsOk(e: Setting, s: Closed, x: Choice)
    requires ClosedInv(e, s)
    ensures ListingOk(e.targets, s.w, RoundOf(e, s, x).listing) && StillPerformed(s.w, RoundOf(e, s, x).listing)
    ensures forall a :: Listed(a, true) in RoundOf(e, s, x).listing <==> a in s.tasks && a.node in ReleasedNow(e, s)
  {
    var listing := RoundOf(e, s, x).listing;
    RefreshedActions(e.cluster, e.mode, s.released, s.tasks);
    AskAllGrows(e.cluster, e.mode, s.released, s.tasks);
    forall i | 0 <= i < |s.tasks|
      ensures listing[i] == Listed(s.tasks[i], s.tasks[i].node in ReleasedNow(e, s)) && listing[i] in listing
    {
      RefreshedMeans(e.cluster, e.mode, s.released, s.tasks, i);
    }
    forall l | l in listing
      ensures l.action in s.tasks && l == Listed(l.action, l.action.node in ReleasedNow(e, s))
    {
      var i :| 0 <= i < |listing| && listing[i] == l;
    }
  }

  lemma ReleasedStayInTask(e: Setting, s: Closed, completed: seq<ActionId>)
    requires ClosedInv(e, s)
    ensures ReleasedNow(e, s) <= NodesOf(s.tasks)
    ensures ReleasedNow(e, s) - NodesWith(s.tasks, completed) <= NodesOf(Without(s.tasks, completed))
  {
    AskAllGrows(e.cluster, e.mode, s.released, s.tasks);
    WithoutMembers(s.tasks, completed);
    forall n | n in ReleasedNow(e, s)
      ensures n in NodesOf(s.tasks)
    {
    }
  }

  lemma UidsWithout(tasks: seq<Action>, completed: seq<ActionId>)
    ensures UidsOf(Without(tasks, completed)) == UidsOf(tasks) - Uids(completed)
  {
    WithoutMembers(tasks, completed);
    forall u | u in UidsOf(tasks) - Uids(completed)
      ensures u in UidsOf(Without(tasks, completed))
    {
      var a :| a in tasks && a.uid == u;
      assert a in Without(tasks, completed);
    }
  }

  /** An unreported action that the CMS still holds was PERFORMED, so its node is still released. */
  lemma UnreportedStayReleased(e: Setting, s: Closed, x: Choice, a: Action)
    requires Distinct(e.targets) && ClosedInv(e, s) && ChoiceOk(e, s, x) && Performed(RoundOf(e, s, x).listing) != []
    requires a in s.tasks && a.uid in BeforeReply(e.limit, s.w.p, RoundOf(e, s, x)).unreported
    ensures a.node in ReleasedNow(e, s)
  {
    var r := RoundOf(e, s, x);
    ListingIsOk(e, s, x);
    AskAllGrows(e.cluster, e.mode, s.released, s.tasks);
    CompletedAreDone(e.limit, e.targets, s.w, r, a);
    if a.uid !in s.w.p.unreported {
      DispatchedAreOpen(e.limit, e.targets, s.w, r);
      assert Listed(a, true) in r.listing;
    }
  }

  lemma {:induction false} TurnKeepsInv(e: Setting, s: Closed, x: Choice)
    requires Distinct(e.targets) && ClosedInv(e, s) && ChoiceOk(e, s, x)
    ensures ClosedInv(e, Turn(e, s, x))
  {
    var r, t := RoundOf(e, s, x), Turn(e, s, x);
    ListingIsOk(e, s, x);
    RoundKeepsInv(e.limit, e.targets, s.w, r);
    AskAllGrows(e.cluster, e.mode, s.released, s.tasks);
    if Performed(r.listing) == [] {
      ReleasedStayInTask(e, s, []);
    } else {
      TaskAfterTurn(e, s, x);
    }
  }

  lemma TaskAfterTurn(e: Setting, s: Closed, x: Choice)
    requires Distinct(e.targets) && ClosedInv(e, s) && ChoiceOk(e, s, x) && Performed(RoundOf(e, s, x).listing) != []
    ensures var t := Turn(e, s, x);
      && Distinct(t.tasks) && (forall a :: a in t.tasks ==> a in e.targets)
      && UidsOf(t.tasks) == t.w.live
      && t.released <= NodesOf(t.tasks)
      && forall a :: a in t.tasks && a.uid in t.w.p.unreported ==> a.node in t.released
  {
    var t := Turn(e, s, x);
    TasksLeft(e, s, x);
    forall a | a in t.tasks && a.uid in t.w.p.unreported
      ensures a.node in t.released
    {
      UnreportedAfterTurn(e, s, x, a);
    }
  }

  /** The task, its nodes and the actions that the CMS holds shrink together. */
  lemma TasksLeft(e: Setting, s: Closed, x: Choice)
    requires ClosedInv(e, s) && Performed(RoundOf(e, s, x).listing) != []
    ensures var t := Turn(e, s, x);
      && Distinct(t.tasks) && (forall a :: a in t.tasks ==> a in e.targets)
      && UidsOf(t.tasks) == t.w.live
      && t.released <= NodesOf(t.tasks)
  {
    var completed := BeforeReply(e.limit, s.w.p, RoundOf(e, s, x)).completed;
    ReleasedStayInTask(e, s, completed);
    UidsWithout(s.tasks, completed);
    WithoutMembers(s.tasks, completed);
    StillDistinct(s.tasks, completed);
  }

  lemma UnreportedAfterTurn(e: Setting, s: Closed, x: Choice, a: Action)
    requires Distinct(e.targets) && ClosedInv(e, s) && ChoiceOk(e, s, x) && Performed(RoundOf(e, s, x).listing) != []
    requires a in Turn(e, s, x).tasks && a.uid in Turn(e, s, x).w.p.unreported
    ensures a.node in Turn(e, s, x).released
  {
    var completed := BeforeReply(e.limit, s.w.p, RoundOf(e, s, x)).completed;
    WithoutMembers(s.tasks, completed);
    UnreportedStayReleased(e, s, x, a);
    if x.reply != Refused {
      NodeNotFreed(s.tasks, completed, a);
    }
  }

  lemma NodeNotFreed(tasks: seq<Action>, completed: seq<ActionId>, a: Action)
    requires Distinct(tasks) && a in tasks && a.uid !in completed
    ensures a.node !in NodesWith(tasks, completed)
  {
    forall b | b in tasks && b.node == a.node
      ensures b == a
    {
    }
  }

  // ---------------------------------------------------------------------------
  // Availability
  // ---------------------------------------------------------------------------

  /** A refresh that shows its result to the loop, or one that took effect while its reply was lost. */
  datatype Event = Served(choice: Choice) | RefreshLost

  ghost predicate EventOk(e: Setting, s: Closed, v: Event) {
    v.Served? ==> ChoiceOk(e, s, v.choice)
  }

  function Next(e: Setting, s: Closed, v: Event): Closed {
    match v
    case Served(x) => Turn(e, s, x)
    case RefreshLost => s.(released := ReleasedNow(e, s))
  }

  ghost predicate ClosedRun(e: Setting, s: Closed, events: seq<Event>)
    decreases |events|
  {
    events == [] || (EventOk(e, s, events[0]) && ClosedRun(e, Next(e, s, events[0]), events[1..]))
  }

  function ClosedAfter(e: Setting, s: Closed, events: seq<Event>): Closed
    decreases |events|
  {
    if events == [] then s else ClosedAfter(e, Next(e, s, events[0]), events[1..])
  }

  /** A refresh takes effect even if its reply is lost: what it granted is released, and the next one shows it. */
  lemma LostRefreshGrants(e: Setting, s: Closed, x: Choice, y: Choice, a: Action)
    requires Distinct(e.targets) && ClosedInv(e, s) && Listed(a, true) in RoundOf(e, s, x).listing
    ensures a.node in Next(e, s, RefreshLost).released
    ensures Listed(a, true) in RoundOf(e, Next(e, s, RefreshLost), y).listing
  {
    var t := Next(e, s, RefreshLost);
    NextKeepsInv(e, s, RefreshLost);
    ListingIsOk(e, s, x);
    AskAllGrows(e.cluster, e.mode, t.released, t.tasks);
    ListingIsOk(e, t, y);
  }

  lemma NextKeepsInv(e: Setting, s: Closed, v: Event)
    requires Distinct(e.targets) && ClosedInv(e, s) && EventOk(e, s, v)
    ensures ClosedInv(e, Next(e, s, v))
  {
    match v {
      case Served(x) =>
        TurnKeepsInv(e, s, x);
      case RefreshLost =>
        ReleasedStayInTask(e, s, []);
        AskAllGrows(e.cluster, e.mode, s.released, s.tasks);
    }
  }

  lemma NextKeepsAvailable(e: Setting, s: Closed, v: Event)
    requires e.mode != Force && DisjointGroups(e.cluster) && Available(e.cluster, e.mode, s.released)
    ensures Available(e.cluster, e.mode, Next(e, s, v).released)
  {
    AskAllKeepsAvailable(e.cluster, e.mode, s.released, s.tasks);
    if v.Served? {
      var completed := BeforeReply(e.limit, s.w.p, RoundOf(e, s, v.choice)).completed;
      CompletionKeepsAvailable(e.cluster, e.mode, ReleasedNow(e, s), NodesWith(s.tasks, completed));
    }
  }

  lemma {:induction false} ClosedRunKeeps(e: Setting, s: Closed, events: seq<Event>)
    requires Distinct(e.targets) && ClosedInv(e, s) && ClosedRun(e, s, events)
    ensures ClosedInv(e, ClosedAfter(e, s, events))
    ensures e.mode != Force && DisjointGroups(e.cluster) && Available(e.cluster, e.mode, s.released) ==>
      Available(e.cluster, e.mode, ClosedAfter(e, s, events).released)
    decreases |events|
  {
    if events != [] {
      NextKeepsInv(e, s, events[0]);
      if e.mode != Force && DisjointGroups(e.cluster) && Available(e.cluster, e.mode, s.released) {
        NextKeepsAvailable(e, s, events[0]);
      }
      ClosedRunKeeps(e, Next(e, s, events[0]), events[1..]);
    }
  }

  lemma {:induction false} NothingReleased(group: seq<NodeId>)
    ensures ReleasedIn(group, {}) == 0
  {
    if group != [] {
      NothingReleased(group[..|group| - 1]);
    }
  }

  /**
   In every reachable state, before and during the restarts of a round, at most one node of a storage group is
   released in strong and smart mode and at most two in weak mode; only released nodes are restarted, even when
   the round is cancelled.
   */
  lemma StorageStaysAvailable(e: Setting, events: seq<Event>, x: Choice)
    requires e.limit >= 1 && Distinct(e.targets) && e.mode != Force && DisjointGroups(e.cluster)
    requires ClosedRun(e, Start(e), events)
    requires var s := ClosedAfter(e, Start(e), events); BatchOk(Dispatched(s.w, RoundOf(e, s, x)), x.batch)
    ensures var s := ClosedAfter(e, Start(e), events);
      && Available(e.cluster, e.mode, s.released)
      && Available(e.cluster, e.mode, ReleasedNow(e, s))
      && (DistinctNodes(e.cluster.nodes) ==>
            GroupsWithinLimits(e.cluster, e.mode, s.released)
            && GroupsWithinLimits(e.cluster, e.mode, ReleasedNow(e, s)))
      && forall st :: st in Attempts(x.batch) ==> st.action.node in ReleasedNow(e, s)
  {
    StartInv(e);
    forall group | StorageGroup(e.cluster, group)
      ensures ReleasedIn(group, {}) == 0
    {
      NothingReleased(group);
    }
    ClosedRunKeeps(e, Start(e), events);
    var s := ClosedAfter(e, Start(e), events);
    AskAllKeepsAvailable(e.cluster, e.mode, s.released, s.tasks);
    if DistinctNodes(e.cluster.nodes) {
      AvailableMeans(e.cluster, e.mode, s.released);
      AvailableMeans(e.cluster, e.mode, ReleasedNow(e, s));
    }
    ListingIsOk(e, s, x);
    DispatchedAreOpen(e.limit, e.targets, s.w, RoundOf(e, s, x));
    forall st | st in Attempts(x.batch)
      ensures st.action.node in ReleasedNow(e, s)
    {
      var i :| 0 <= i < |Attempts(x.batch)| && Attempts(x.batch)[i] == st;
      assert ActionsOf(Attempts(x.batch))[i] == st.action;
      assert Listed(st.action, true) in RoundOf(e, s, x).listing;
    }
  }

  lemma NextKeepsQuota(e: Setting, s: Closed, v: Event)
    requires DistinctNodes(e.cluster.nodes) && e.cluster.maxDynnodesPerTenant >= 1
    requires TenantsWithinQuota(e.cluster, s.released)
    ensures TenantsWithinQuota(e.cluster, Next(e, s, v).released)
  {
    AskAllKeepsQuota(e.cluster, e.mode, s.released, s.tasks);
    if v.Served? {
      var completed := BeforeReply(e.limit, s.w.p, RoundOf(e, s, v.choice)).completed;
      FreeingKeepsQuota(e.cluster, ReleasedNow(e, s), NodesWith(s.tasks, completed));
    }
  }

  lemma {:induction false} RunKeepsQuota(e: Setting, s: Closed, events: seq<Event>)
    requires DistinctNodes(e.cluster.nodes) && e.cluster.maxDynnodesPerTenant >= 1
    requires TenantsWithinQuota(e.cluster, s.released)
    ensures TenantsWithinQuota(e.cluster, ClosedAfter(e, s, events).released)
    decreases |events|
  {
    if events != [] {
      NextKeepsQuota(e, s, events[0]);
      RunKeepsQuota(e, Next(e, s, events[0]), events[1..]);
    }
  }

  /** In every reachable state, and while restarting, no tenant has more nodes released than its quota. */
  lemma TenantQuotaIsKept(e: Setting, events: seq<Event>)
    requires DistinctNodes(e.cluster.nodes) && e.cluster.maxDynnodesPerTenant >= 1
    ensures var s := ClosedAfter(e, Start(e), events);
      TenantsWithinQuota(e.cluster, s.released) && TenantsWithinQuota(e.cluster, ReleasedNow(e, s))
  {
    assert forall tenant :: TenantReleased(e.cluster.nodes, tenant, {}) == {};
    RunKeepsQuota(e, Start(e), events);
    AskAllKeepsQuota(e.cluster, e.mode, ClosedAfter(e, Start(e), events).released,
      ClosedAfter(e, Start(e), events).tasks);
  }

  // ---------------------------------------------------------------------------
  // Termination
  // ---------------------------------------------------------------------------

  /** Every target can be granted at all: it is in a node group or under a tenant quota. */
  ghost predicate Grantable(e: Setting) {
    forall a :: a in e.targets ==>
      ByQuota(e.cluster, a.node) || exists g :: 0 <= g < |e.cluster.nodeGroups| && a.node in e.cluster.nodeGroups[g]
  }

  lemma {:induction false} SomeReleasedIn(group: seq<NodeId>, released: set<NodeId>)
    requires ReleasedIn(group, released) > 0
    ensures exists n :: n in group && n in released
  {
    var m := |group| - 1;
    assert group == group[..m] + [group[m]];
    if group[m] !in released {
      SomeReleasedIn(group[..m], released);
    }
  }

  lemma {:induction false} SomeReleasedOfTenant(nodes: seq<ClusterNode>, tenant: string, released: set<NodeId>)
    requires ReleasedOfTenant(nodes, tenant, released) > 0
    ensures released != {}
  {
    var m := |nodes| - 1;
    if nodes[m].id !in released {
      SomeReleasedOfTenant(nodes[..m], tenant, released);
    }
  }

  /** A refused lock means that some other node is released. */
  lemma RefusedBecauseReleased(e: Setting, released: set<NodeId>, a: Action)
    requires Grantable(e) && a in e.targets
    ensures Ask(e.cluster, e.mode, released, a.node) != {}
  {
    if !Granted(e.cluster, e.mode, released, a.node) {
      if ByQuota(e.cluster, a.node) {
        SomeReleasedOfTenant(e.cluster.nodes, QuotaTenant(e.cluster.nodes, a.node).value, released);
      } else {
        var g :| 0 <= g < |e.cluster.nodeGroups| && a.node in e.cluster.nodeGroups[g];
        SomeReleasedIn(e.cluster.nodeGroups[g], released);
      }
    }
  }

  /** While the task has actions left, every refresh shows one of them PERFORMED. */
  lemma SomethingIsPerformed(e: Setting, s: Closed, x: Choice)
    requires ClosedInv(e, s) && Grantable(e) && s.tasks != []
    ensures Performed(RoundOf(e, s, x).listing) != []
  {
    var m := |s.tasks| - 1;
    RefusedBecauseReleased(e, AskAll(e.cluster, e.mode, s.released, s.tasks[..m]), s.tasks[m]);
    var n :| n in ReleasedNow(e, s);
    ReleasedStayInTask(e, s, []);
    assert n in NodesOf(s.tasks);
    var a :| a in s.tasks && a.node == n;
    ListingIsOk(e, s, x);
    PerformedIsPart(RoundOf(e, s, x).listing);
    assert a in Performed(RoundOf(e, s, x).listing);
  }

  /** The event does not end the loop, and does not lose the reply that would have ended it. */
  predicate StaysOpen(e: Setting, s: Closed, v: Event) {
    v.Served? ==>
      var r := RoundOf(e, s, v.choice);
      !Completed(e.limit, s.w.p, r) && !LostLastReply(e.limit, s.w, r)
  }

  /** A run that has not ended yet and still can. */
  ghost predicate OpenRun(e: Setting, s: Closed, events: seq<Event>)
    decreases |events|
  {
    events == [] || (StaysOpen(e, s, events[0]) && OpenRun(e, Next(e, s, events[0]), events[1..]))
  }

  function RoundsOf(e: Setting, s: Closed, events: seq<Event>): seq<Round>
    decreases |events|
  {
    if events == [] then []
    else
      (if events[0].Served? then [RoundOf(e, s, events[0].choice)] else [])
      + RoundsOf(e, Next(e, s, events[0]), events[1..])
  }

  /** Calls of CompleteAction that failed with or without effect, and refreshes whose reply was lost. */
  function FailedEvents(events: seq<Event>): nat {
    if events == [] then 0
    else
      (if events[0].RefreshLost? || events[0].choice.reply != Accepted then 1 else 0) + FailedEvents(events[1..])
  }

  lemma OpenTurn(e: Setting, s: Closed, x: Choice)
    requires Distinct(e.targets) && Grantable(e) && ClosedInv(e, s) && ChoiceOk(e, s, x) && s.w.live != {}
    requires StaysOpen(e, s, Served(x))
    ensures Uncancelled(e.targets, s.w, RoundOf(e, s, x)) && Performed(RoundOf(e, s, x).listing) != []
    ensures GrantsKept(s.w, RoundOf(e, s, x))
    ensures Turn(e, s, x).w == Advance(e.limit, s.w, RoundOf(e, s, x)) && Turn(e, s, x).w.live != {}
  {
    SomethingIsPerformed(e, s, x);
    ListingIsOk(e, s, x);
    EmptiedIffLost(e.limit, e.targets, s.w, RoundOf(e, s, x));
  }

  lemma ServedThenRun(e: Setting, s: Closed, x: Choice, rounds: seq<Round>)
    requires Distinct(e.targets) && Grantable(e) && ClosedInv(e, s) && ChoiceOk(e, s, x) && s.w.live != {}
    requires StaysOpen(e, s, Served(x)) && Run(e.limit, e.targets, Turn(e, s, x).w, rounds)
    ensures var all := [RoundOf(e, s, x)] + rounds;
      && Run(e.limit, e.targets, s.w, all)
      && PerformedRounds(all) == 1 + PerformedRounds(rounds)
      && FailedCalls(all) == (if x.reply != Accepted then 1 else 0) + FailedCalls(rounds)
  {
    OpenTurn(e, s, x);
    RunOneMore(e.limit, e.targets, s.w, RoundOf(e, s, x), rounds);
  }

  lemma {:induction false} NextStaysOpen(e: Setting, s: Closed, v: Event)
    requires Distinct(e.targets) && Grantable(e) && ClosedInv(e, s) && EventOk(e, s, v) && s.w.live != {}
    requires StaysOpen(e, s, v)
    ensures ClosedInv(e, Next(e, s, v)) && Next(e, s, v).w.live != {}
  {
    NextKeepsInv(e, s, v);
    if v.Served? {
      OpenTurn(e, s, v.choice);
    }
  }

  /** The rounds of these events are a run, and rounds without a grant are not worse than failures. */
  ghost predicate MakesRun(e: Setting, s: Closed, events: seq<Event>) {
    var rounds := RoundsOf(e, s, events);
    && Run(e.limit, e.targets, s.w, rounds)
    && |events| - PerformedRounds(rounds) == FailedEvents(events) - FailedCalls(rounds)
  }

  lemma OneServedMore(e: Setting, s: Closed, events: seq<Event>)
    requires Distinct(e.targets) && Grantable(e) && ClosedInv(e, s) && s.w.live != {}
    requires events != [] && events[0].Served? && ChoiceOk(e, s, events[0].choice) && StaysOpen(e, s, events[0])
    requires MakesRun(e, Next(e, s, events[0]), events[1..])
    ensures MakesRun(e, s, events)
  {
    var x, rounds := events[0].choice, RoundsOf(e, Next(e, s, events[0]), events[1..]);
    assert RoundsOf(e, s, events) == [RoundOf(e, s, x)] + rounds;
    ServedThenRun(e, s, x, rounds);
  }

  lemma OneLostMore(e: Setting, s: Closed, events: seq<Event>)
    requires events != [] && events[0].RefreshLost? && MakesRun(e, Next(e, s, events[0]), events[1..])
    ensures MakesRun(e, s, events)
  {
    assert RoundsOf(e, s, events) == RoundsOf(e, Next(e, s, events[0]), events[1..]);
  }

  lemma {:induction false} OpenRunIsRun(e: Setting, s: Closed, events: seq<Event>)
    requires Distinct(e.targets) && Grantable(e) && ClosedInv(e, s) && s.w.live != {}
    requires ClosedRun(e, s, events) && OpenRun(e, s, events)
    ensures MakesRun(e, s, events)
    decreases |events|
  {
    if events != [] {
      NextStaysOpen(e, s, events[0]);
      OpenRunIsRun(e, Next(e, s, events[0]), events[1..]);
      if events[0].Served? {
        OneServedMore(e, s, events);
      } else {
        OneLostMore(e, s, events);
      }
    }
  }

  /**
   Every uncancelled run against this CMS ends, unless the reply that would have ended it is lost: with N targets,
   a run that is still going after k refreshes has k <= N * RestartRetryNumber plus the number of CompleteAction
   calls that failed, with or without effect, and of refreshes whose reply was lost.
   */
  lemma {:induction false} ClosedRunsEnd(e: Setting, events: seq<Event>)
    requires e.limit >= 1 && Distinct(e.targets) && e.targets != [] && Grantable(e)
    requires ClosedRun(e, Start(e), events) && OpenRun(e, Start(e), events)
    ensures |events| <= |e.targets| * e.limit + FailedEvents(events)
  {
    StartInv(e);
    assert e.targets[0].uid in UidsOf(e.targets);
    OpenRunIsRun(e, Start(e), events);
    RunBounds(e.limit, e.targets, RoundsOf(e, Start(e), events));
  }
}
