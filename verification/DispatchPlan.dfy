/** How dispatchActions splits the selected actions into handlers. */
module DispatchPlan {
  import opened Collections
  import opened Progress
  import Selection
  import Dispatch
  import DispatchLiveness
  import DispatchSafety

  type Nodes = map<NodeId, Selection.Node>

  /** A node that is not dynamic, and also one that is missing: its accessors return nil. */
  predicate IsStorage(nodes: Nodes, a: Action) {
    a.node !in nodes || !nodes[a.node].kind.Dynamic?
  }

  function TenantOf(nodes: Nodes, a: Action): string {
    if IsStorage(nodes, a) then "" else nodes[a.node].kind.tenant
  }

  function Tenants(nodes: Nodes): Action -> string {
    a => TenantOf(nodes, a)
  }

  datatype Options = Options(nodesInflight: nat, tenantsInflight: nat, restartRetryNumber: nat)

  method AnyStorage(nodes: Nodes, actions: seq<Action>) returns (found: bool)
    ensures found <==> exists a :: a in actions && !(a.node in nodes && nodes[a.node].kind.Dynamic?)
  {
    for i := 0 to |actions|
      invariant forall j :: 0 <= j < i ==> !IsStorage(nodes, actions[j])
    {
      if IsStorage(nodes, actions[i]) {
        return true;
      }
    }
    return false;
  }

  function ChannelSize(o: Options): nat {
    if o.tenantsInflight > 0 then o.nodesInflight * o.tenantsInflight else o.nodesInflight
  }

  lemma ChannelHasRoom(o: Options)
    ensures ChannelSize(o) >= o.nodesInflight
  {
    if o.tenantsInflight > 0 {
      assert o.nodesInflight * o.tenantsInflight == o.nodesInflight * (o.tenantsInflight - 1) + o.nodesInflight;
    }
  }

  /** Nothing more is needed for every result about batches, save a positive NodesInflight. */
  ghost predicate Plans(o: Options, actions: seq<Action>, before: Progress, c: Dispatch.Config) {
    && Dispatch.WellFormed(c) && (o.nodesInflight >= 1 ==> Dispatch.ValidConfig(c))
    && multiset(Dispatch.Actions(c)) == multiset(actions)
    && c.workers == o.nodesInflight && c.buffer == ChannelSize(o) && c.buffer >= c.workers
    && c.retryLimit == o.restartRetryNumber && c.before == before
  }

  method DispatchAll(o: Options, actions: seq<Action>, before: Progress) returns (c: Dispatch.Config)
    requires Distinct(actions)
    ensures Plans(o, actions, before, c) && Dispatch.Actions(c) == actions
    ensures c == Dispatch.Config([actions], false, 1, o.nodesInflight, ChannelSize(o), o.restartRetryNumber, before)
  {
    ChannelHasRoom(o);
    ConcatOne(actions);
    c := Dispatch.Config([actions], false, 1, o.nodesInflight, ChannelSize(o), o.restartRetryNumber, before);
  }

  /** Two actions are given to the same handler exactly when their nodes belong to the same tenant. */
  ghost predicate HandlersAreTenants(nodes: Nodes, c: Dispatch.Config) {
    && (forall a :: a in Dispatch.Actions(c) ==> a.node in nodes && nodes[a.node].kind.Dynamic?)
    && forall g, h, a, b :: SeparateHandlers(nodes, c, g, h, a, b)
  }

  ghost predicate SeparateHandlers(nodes: Nodes, c: Dispatch.Config, g: int, h: int, a: Action, b: Action) {
    0 <= g < |c.groups| && 0 <= h < |c.groups| && a in c.groups[g] && b in c.groups[h]
    && a.node in nodes && b.node in nodes ==>
      (g == h <==> nodes[a.node].kind == nodes[b.node].kind)
  }

  lemma TenantsAreKinds(nodes: Nodes, c: Dispatch.Config)
    requires forall a :: a in Dispatch.Actions(c) ==> a.node in nodes && nodes[a.node].kind.Dynamic?
    requires DispatchSafety.GroupedByTenant(c, Tenants(nodes))
    ensures HandlersAreTenants(nodes, c)
  {
    forall g, h, a, b
      ensures SeparateHandlers(nodes, c, g, h, a, b)
    {
      if 0 <= g < |c.groups| && 0 <= h < |c.groups| && a in c.groups[g] && b in c.groups[h] {
        InConcat(c.groups, g, a);
        InConcat(c.groups, h, b);
        assert g == h <==> TenantOf(nodes, a) == TenantOf(nodes, b) by {
          OneGroupEach(c, Tenants(nodes), g, h, a, b);
        }
      }
    }
  }

  lemma OneGroupEach(c: Dispatch.Config, tenantOf: Action -> string, g: nat, h: nat, a: Action, b: Action)
    requires DispatchSafety.GroupedByTenant(c, tenantOf) && g < |c.groups| && h < |c.groups|
    requires a in c.groups[g] && b in c.groups[h]
    ensures g == h <==> tenantOf(a) == tenantOf(b)
  {
    if g < h {
      assert tenantOf(a) != tenantOf(b);
    } else if h < g {
      assert tenantOf(b) != tenantOf(a);
    }
  }

  /** Each group keeps the list order and holds all actions of its tenant. */
  ghost predicate GroupsKeepOrder(groups: seq<seq<Action>>, actions: seq<Action>, tenantOf: Action -> string) {
    forall g :: 0 <= g < |groups| ==> groups[g] != [] && groups[g] == GroupOf(actions, tenantOf, tenantOf(groups[g][0]))
  }

  method DispatchByTenant(o: Options, nodes: Nodes, actions: seq<Action>, before: Progress) returns (c: Dispatch.Config)
    requires o.tenantsInflight >= 1 && Distinct(actions)
    requires forall a :: a in actions ==> a.node in nodes && nodes[a.node].kind.Dynamic?
    ensures Plans(o, actions, before, c)
    ensures c.perTenant && c.slots == o.tenantsInflight
    ensures HandlersAreTenants(nodes, c)
    ensures GroupsKeepOrder(c.groups, actions, Tenants(nodes))
  {
    var tenantOf := Tenants(nodes);
    var groups := GroupByFunc(actions, tenantOf);
    var visited, keys := Values(groups);
    ChannelHasRoom(o);
    c := Dispatch.Config(
      visited, true, o.tenantsInflight, o.nodesInflight, ChannelSize(o), o.restartRetryNumber, before);
    EveryActionGrouped(actions, tenantOf, groups);
    assert visited == GroupsInOrder(actions, tenantOf, keys);
    TenantPlanOverNodes(nodes, c, actions, keys);
  }

  /**
   The batch that is started for the selected actions is a partition of them. The tenant of a node is looked up
   only when every node is known and dynamic.
   */
  method DispatchActions(o: Options, nodes: Nodes, actions: seq<Action>, before: Progress) returns (c: Dispatch.Config)
    requires Distinct(actions)
    ensures Plans(o, actions, before, c)
    ensures c.perTenant <==>
      o.tenantsInflight > 0 && forall a :: a in actions ==> a.node in nodes && nodes[a.node].kind.Dynamic?
    ensures c.perTenant ==> HandlersAreTenants(nodes, c) && c.slots == o.tenantsInflight
    ensures !c.perTenant ==> c.groups == [actions] && c.slots == 1
  {
    var storage := AnyStorage(nodes, actions);
    if storage {
      c := DispatchAll(o, actions, before);
      return;
    }
    if o.tenantsInflight > 0 {
      c := DispatchByTenant(o, nodes, actions, before);
    } else {
      c := DispatchAll(o, actions, before);
    }
  }

  lemma SameMembers(one: seq<Action>, other: seq<Action>)
    requires multiset(one) == multiset(other)
    ensures forall a :: a in one <==> a in other
  {
    forall a
      ensures a in one <==> a in other
    {
      assert a in multiset(one) <==> a in multiset(other);
    }
  }

  /** Cancelling a planned batch can make it hang for ever exactly when it has more actions than can be in flight. */
  lemma PlannedBatchHangsIff(o: Options, actions: seq<Action>, before: Progress, c: Dispatch.Config)
    requires Plans(o, actions, before, c) && o.nodesInflight >= 1
    ensures DispatchLiveness.CanHang(c) <==>
      |actions| > o.nodesInflight * if o.tenantsInflight >= 1 then o.tenantsInflight else 1
  {
    DispatchLiveness.HangsIffLargerThanChannel(c);
    assert |multiset(actions)| == |actions| && |multiset(Dispatch.Actions(c))| == |Dispatch.Actions(c)|;
  }

  // ---------------------------------------------------------------------------
  // The limits, with tenants read from the nodes
  // ---------------------------------------------------------------------------

  /** Worker w of handler g is restarting a node of this tenant, or about to. */
  predicate RestartsFor(nodes: Nodes, s: Dispatch.State, g: nat, w: nat, t: string) {
    && g < |s.handlers| && w < |s.handlers[g].workers|
    && (var x := s.handlers[g].workers[w];
        && (x.Taken? || x.Restarting?)
        && x.action.node in nodes && nodes[x.action.node].kind == Selection.Dynamic(t))
  }

  /** The actions of one tenant that are being restarted. */
  ghost function RestartingIn(nodes: Nodes, s: Dispatch.State, t: string): set<Action> {
    set g: nat, w: nat | g < |s.handlers| && w < |s.handlers[g].workers| && RestartsFor(nodes, s, g, w, t)
      :: s.handlers[g].workers[w].action
  }

  /**
   At every step of every interleaving of a batch by tenant, cancelled or not: at most NodesInflight nodes of any one
   tenant are restarting, and nodes of at most TenantsInflight tenants.
   */
  lemma TenantLimitsHold(o: Options, nodes: Nodes, actions: seq<Action>, before: Progress, c: Dispatch.Config,
                         steps: seq<Dispatch.Step>)
    requires Plans(o, actions, before, c) && c.slots == o.tenantsInflight && HandlersAreTenants(nodes, c)
    requires Dispatch.Interleaving(c, Dispatch.Fresh(c), steps)
    ensures var s := Dispatch.Outcome(c, Dispatch.Fresh(c), steps);
      && (forall t :: |RestartingIn(nodes, s, t)| <= o.nodesInflight)
      && forall tenants: set<string> :: (forall t :: t in tenants ==> RestartingIn(nodes, s, t) != {}) ==>
           |tenants| <= o.tenantsInflight
  {
    var s, tenantOf := Dispatch.Outcome(c, Dispatch.Fresh(c), steps), Tenants(nodes);
    KindsAreTenants(nodes, c);
    DispatchSafety.ConcurrencyBounds(c, steps, tenantOf);
    LimitsOf(nodes, c, s, tenantOf);
  }

  lemma KindsAreTenants(nodes: Nodes, c: Dispatch.Config)
    requires HandlersAreTenants(nodes, c)
    ensures DispatchSafety.GroupedByTenant(c, Tenants(nodes))
  {
    var tenantOf := Tenants(nodes);
    forall g, k, a, b | 0 <= g < |c.groups| && 0 <= k < |c.groups| && a in c.groups[g] && b in c.groups[k]
      ensures g == k <==> tenantOf(a) == tenantOf(b)
    {
      InConcat(c.groups, g, a);
      InConcat(c.groups, k, b);
      assert SeparateHandlers(nodes, c, g, k, a, b);
    }
  }

  lemma LimitsOf(nodes: Nodes, c: Dispatch.Config, s: Dispatch.State, tenantOf: Action -> string)
    requires tenantOf == Tenants(nodes)
    requires forall t :: |DispatchSafety.RestartingOf(s, tenantOf, t)| <= c.workers
    requires |DispatchSafety.RestartingTenants(s, tenantOf)| <= c.slots
    ensures forall t :: |RestartingIn(nodes, s, t)| <= c.workers
    ensures forall tenants: set<string> :: (forall t :: t in tenants ==> RestartingIn(nodes, s, t) != {}) ==>
      |tenants| <= c.slots
  {
    forall t
      ensures |RestartingIn(nodes, s, t)| <= c.workers
    {
      assert RestartingIn(nodes, s, t) <= DispatchSafety.RestartingOf(s, tenantOf, t);
      SubsetSize(RestartingIn(nodes, s, t), DispatchSafety.RestartingOf(s, tenantOf, t));
    }
    forall tenants: set<string> | forall t :: t in tenants ==> RestartingIn(nodes, s, t) != {}
      ensures |tenants| <= c.slots
    {
      forall t | t in tenants
        ensures t in DispatchSafety.RestartingTenants(s, tenantOf)
      {
        var a :| a in RestartingIn(nodes, s, t);
        var g: nat, w: nat :| g < |s.handlers| && w < |s.handlers[g].workers| && RestartsFor(nodes, s, g, w, t)
                              && s.handlers[g].workers[w].action == a;
        assert tenantOf(a) == t;
      }
      SubsetSize(tenants, DispatchSafety.RestartingTenants(s, tenantOf));
    }
  }

  lemma EveryActionGrouped(actions: seq<Action>, tenantOf: Action -> string, groups: map<string, seq<Action>>)
    requires forall t :: t in groups <==> GroupOf(actions, tenantOf, t) != []
    ensures forall a :: a in actions ==> tenantOf(a) in groups
  {
    forall a | a in actions
      ensures tenantOf(a) in groups
    {
      GroupMembers(actions, tenantOf, tenantOf(a));
      assert a in GroupOf(actions, tenantOf, tenantOf(a));
    }
  }

  lemma PlanIsPartition(actions: seq<Action>, tenantOf: Action -> string, keys: seq<string>)
    requires forall i, j :: 0 <= i < j < |keys| ==> keys[i] != keys[j]
    requires forall a :: a in actions ==> tenantOf(a) in keys
    ensures multiset(Concat(GroupsInOrder(actions, tenantOf, keys))) == multiset(actions)
  {
    GroupsPartition(actions, tenantOf, keys);
  }

  /** One group per tenant, in whatever order the tenants come, is a valid batch of all actions. */
  lemma TenantPlan(c: Dispatch.Config, actions: seq<Action>, tenantOf: Action -> string, keys: seq<string>)
    requires c.perTenant && c.slots >= 1 && Distinct(actions)
    requires c.groups == GroupsInOrder(actions, tenantOf, keys)
    requires forall i, j :: 0 <= i < j < |keys| ==> keys[i] != keys[j]
    requires forall a :: a in actions ==> tenantOf(a) in keys
    requires forall g :: 0 <= g < |keys| ==> c.groups[g] != []
    ensures Dispatch.WellFormed(c) && multiset(Dispatch.Actions(c)) == multiset(actions)
    ensures DispatchSafety.GroupedByTenant(c, tenantOf) && GroupsKeepOrder(c.groups, actions, tenantOf)
  {
    PlanIsPartition(actions, tenantOf, keys);
    PartOfDistinct(Dispatch.Actions(c), actions);
    GroupsAreTenants(c.groups, actions, tenantOf, keys);
    assert forall g, k, a, b :: 0 <= g < k < |c.groups| && a in c.groups[g] && b in c.groups[k] ==> keys[g] != keys[k];
  }

  lemma TenantPlanOverNodes(nodes: Nodes, c: Dispatch.Config, actions: seq<Action>, keys: seq<string>)
    requires forall a :: a in actions ==> a.node in nodes && nodes[a.node].kind.Dynamic?
    requires c.perTenant && c.slots >= 1 && Distinct(actions)
    requires c.groups == GroupsInOrder(actions, Tenants(nodes), keys)
    requires forall i, j :: 0 <= i < j < |keys| ==> keys[i] != keys[j]
    requires forall a :: a in actions ==> TenantOf(nodes, a) in keys
    requires forall g :: 0 <= g < |keys| ==> c.groups[g] != []
    ensures Dispatch.WellFormed(c) && multiset(Dispatch.Actions(c)) == multiset(actions)
    ensures HandlersAreTenants(nodes, c) && GroupsKeepOrder(c.groups, actions, Tenants(nodes))
  {
    TenantPlan(c, actions, Tenants(nodes), keys);
    SameMembers(Dispatch.Actions(c), actions);
    TenantsAreKinds(nodes, c);
  }

  lemma GroupsAreTenants(groups: seq<seq<Action>>, actions: seq<Action>, tenantOf: Action -> string, keys: seq<string>)
    requires groups == GroupsInOrder(actions, tenantOf, keys)
    requires forall g :: 0 <= g < |keys| ==> groups[g] != []
    ensures forall g, a :: 0 <= g < |keys| && a in groups[g] ==> tenantOf(a) == keys[g]
    ensures GroupsKeepOrder(groups, actions, tenantOf)
  {
    forall g | 0 <= g < |keys|
      ensures forall a :: a in groups[g] ==> tenantOf(a) == keys[g]
      ensures tenantOf(groups[g][0]) == keys[g]
    {
      GroupMembers(actions, tenantOf, keys[g]);
      assert groups[g][0] in groups[g];
    }
  }
}
