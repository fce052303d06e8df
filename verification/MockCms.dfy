/** The executable CMS of the end-to-end tests: which lock requests it grants, with one task at a time. */
module MockCms {
  import opened Wrappers
  import opened Progress
  import opened Runs

  datatype AvailabilityMode = Strong | Weak | Force | Smart

  /** A node of the cluster; dynamic nodes belong to a tenant. */
  datatype ClusterNode = ClusterNode(id: NodeId, tenant: Option<string>)

  datatype Cluster = Cluster(
    nodes: seq<ClusterNode>,
    nodeGroups: seq<seq<NodeId>>,
    maxDynnodesPerTenant: int)     // MaxDynnodesPerformedPerTenant

  // ---------------------------------------------------------------------------
  // Granting a lock, as functions of the released nodes
  // ---------------------------------------------------------------------------

  function ReleasedIn(group: seq<NodeId>, released: set<NodeId>): nat {
    if group == [] then 0
    else ReleasedIn(group[..|group| - 1], released) + if group[|group| - 1] in released then 1 else 0
  }

  function ReleasedOfTenant(nodes: seq<ClusterNode>, tenant: string, released: set<NodeId>): nat {
    if nodes == [] then 0
    else
      var last := nodes[|nodes| - 1];
      ReleasedOfTenant(nodes[..|nodes| - 1], tenant, released)
      + if last.tenant == Some(tenant) && last.id in released then 1 else 0
  }

  /** A group with this many released nodes may lose one more. */
  predicate Allows(mode: AvailabilityMode, alreadyReleased: nat) {
    mode == Force || alreadyReleased == 0 || (alreadyReleased == 1 && mode == Weak)
  }

  predicate SomeGroupAllows(cl: Cluster, mode: AvailabilityMode, released: set<NodeId>, node: NodeId) {
    exists g :: 0 <= g < |cl.nodeGroups| && node in cl.nodeGroups[g] &&
      Allows(mode, ReleasedIn(cl.nodeGroups[g], released))
  }

  /** The tenant whose quota decides about the node: that of the first dynamic entry with its id. */
  function QuotaTenant(nodes: seq<ClusterNode>, node: NodeId): Option<string> {
    if nodes == [] then None
    else
      var earlier := QuotaTenant(nodes[..|nodes| - 1], node);
      var last := nodes[|nodes| - 1];
      if earlier.Some? then earlier
      else if last.id == node then last.tenant else None
  }

  /** The node's lock is decided by a tenant quota and not by node groups. */
  predicate ByQuota(cl: Cluster, node: NodeId) {
    cl.maxDynnodesPerTenant > 0 && QuotaTenant(cl.nodes, node).Some?
  }

  predicate Granted(cl: Cluster, mode: AvailabilityMode, released: set<NodeId>, node: NodeId) {
    || node in released
    || (if ByQuota(cl, node)
        then ReleasedOfTenant(cl.nodes, QuotaTenant(cl.nodes, node).value, released) < cl.maxDynnodesPerTenant
        else SomeGroupAllows(cl, mode, released, node))
  }

  /** The released nodes after the lock for node was asked for. */
  function Ask(cl: Cluster, mode: AvailabilityMode, released: set<NodeId>, node: NodeId): set<NodeId> {
    if Granted(cl, mode, released, node) then released + {node} else released
  }

  function AskAll(cl: Cluster, mode: AvailabilityMode, released: set<NodeId>, actions: seq<Action>): set<NodeId> {
    if actions == [] then released
    else Ask(cl, mode, AskAll(cl, mode, released, actions[..|actions| - 1]), actions[|actions| - 1].node)
  }

  /** The statuses that a refresh of the whole task gives, in task order. */
  function Refreshed(cl: Cluster, mode: AvailabilityMode, released: set<NodeId>, actions: seq<Action>): seq<Listed> {
    if actions == [] then []
    else
      var last := actions[|actions| - 1];
      Refreshed(cl, mode, released, actions[..|actions| - 1])
      + [Listed(last, last.node in AskAll(cl, mode, released, actions))]
  }

  /** The task after the actions with these ids were completed. */
  function Without(actions: seq<Action>, uids: seq<ActionId>): seq<Action> {
    if actions == [] then []
    else
      var last := actions[|actions| - 1];
      Without(actions[..|actions| - 1], uids) + if last.uid in uids then [] else [last]
  }

  function NodesWith(actions: seq<Action>, uids: seq<ActionId>): set<NodeId> {
    set a | a in actions && a.uid in uids :: a.node
  }

  function NodesOf(actions: seq<Action>): set<NodeId> {
    set a | a in actions :: a.node
  }

  // ---------------------------------------------------------------------------
  // The mock server
  // ---------------------------------------------------------------------------

  class YdbMock {
    const cluster: Cluster
    var isNodeCurrentlyReleased: map<NodeId, bool>
    var availabilityMode: AvailabilityMode
    var actionGroupStates: seq<Listed>

    constructor (cluster: Cluster)
      ensures this.cluster == cluster && Released() == {} && actionGroupStates == []
    {
      this.cluster := cluster;
      isNodeCurrentlyReleased := map[];
      availabilityMode := Strong;
      actionGroupStates := [];
    }

    ghost function Released(): set<NodeId>
      reads `isNodeCurrentlyReleased
    {
      set n | n in isNodeCurrentlyReleased && isNodeCurrentlyReleased[n]
    }

    method IsReleased(node: NodeId) returns (released: bool)
      ensures released <==> node in Released()
    {
      released := node in isNodeCurrentlyReleased && isNodeCurrentlyReleased[node];
    }

    method Release(node: NodeId)
      modifies `isNodeCurrentlyReleased
      ensures Released() == old(Released()) + {node}
    {
      isNodeCurrentlyReleased := isNodeCurrentlyReleased[node := true];
    }

    method Free(node: NodeId)
      modifies `isNodeCurrentlyReleased
      ensures Released() == old(Released()) - {node}
    {
      isNodeCurrentlyReleased := isNodeCurrentlyReleased[node := false];
    }

    /** found is false where the source reports that there is no such dynamic node. */
    method SetPendingOrPerformedDynNodes(node: NodeId) returns (performed: bool, found: bool)
      modifies `isNodeCurrentlyReleased
      ensures found <==> node in old(Released()) || ByQuota(cluster, node)
      ensures found ==> Released() == Ask(cluster, availabilityMode, old(Released()), node)
      ensures found ==> (performed <==> node in Released())
      ensures !found ==> Released() == old(Released())
    {
      var already := IsReleased(node);
      if already {
        assert Released() + {node} == Released();
        return true, true;
      }
      for i := 0 to |cluster.nodes|
        invariant Released() == old(Released())
        invariant cluster.maxDynnodesPerTenant <= 0 || QuotaTenant(cluster.nodes[..i], node) == None
      {
        var n := cluster.nodes[i];
        assert cluster.nodes[..i + 1][..i] == cluster.nodes[..i];
        if n.id != node || n.tenant == None || cluster.maxDynnodesPerTenant <= 0 {
          continue;
        }
        QuotaIsFirst(cluster.nodes, node, i + 1);
        var releasedInTenant := CountReleasedOfTenant(n.tenant.value);
        if releasedInTenant < cluster.maxDynnodesPerTenant {
          Release(node);
          return true, true;
        }
        return false, true;
      }
      assert cluster.nodes[..|cluster.nodes|] == cluster.nodes;
      return false, false;
    }

    method CountReleasedOfTenant(tenant: string) returns (count: nat)
      ensures count == ReleasedOfTenant(cluster.nodes, tenant, Released())
    {
      count := 0;
      for j := 0 to |cluster.nodes|
        invariant count == ReleasedOfTenant(cluster.nodes[..j], tenant, Released())
      {
        var other := cluster.nodes[j];
        assert cluster.nodes[..j + 1][..j] == cluster.nodes[..j];
        var released := IsReleased(other.id);
        if other.tenant != None && other.tenant == Some(tenant) && released {
          count := count + 1;
        }
      }
      assert cluster.nodes[..|cluster.nodes|] == cluster.nodes;
    }

    method CountReleasedIn(group: seq<NodeId>) returns (count: nat)
      ensures count == ReleasedIn(group, Released())
    {
      count := 0;
      for i := 0 to |group|
        invariant count == ReleasedIn(group[..i], Released())
      {
        assert group[..i + 1][..i] == group[..i];
        var released := IsReleased(group[i]);
        if released {
          count := count + 1;
        }
      }
      assert group[..|group|] == group;
    }

    method SetPendingOrPerformedStorageNodes(node: NodeId, mode: AvailabilityMode) returns (performed: bool)
      modifies `isNodeCurrentlyReleased
      ensures performed <==>
        if node in old(Released()) then exists g :: 0 <= g < |cluster.nodeGroups| && node in cluster.nodeGroups[g]
        else SomeGroupAllows(cluster, mode, old(Released()), node)
      ensures Released() == if performed then old(Released()) + {node} else old(Released())
    {
      for g := 0 to |cluster.nodeGroups|
        invariant Released() == old(Released())
        invariant forall k :: 0 <= k < g && node in cluster.nodeGroups[k] ==>
          node !in Released() && !Allows(mode, ReleasedIn(cluster.nodeGroups[k], Released()))
      {
        var group := cluster.nodeGroups[g];
        var alreadyReleased := CountReleasedIn(group);
        for i := 0 to |group|
          invariant Released() == old(Released())
          invariant node in group[..i] ==> node !in Released() && !Allows(mode, alreadyReleased)
        {
          if group[i] != node {
            continue;
          }
          var released := IsReleased(node);
          if released {
            assert Released() + {node} == Released();
            return true;
          }
          if alreadyReleased == 0 {
            Release(node);
            return true;
          }
          if alreadyReleased == 1 && (mode == Weak || mode == Force) {
            Release(node);
            return true;
          }
          if mode == Force {
            Release(node);
            return true;
          }
        }
      }
      performed := false;
    }

    method SetPendingOrPerformed(node: NodeId, mode: AvailabilityMode) returns (performed: bool)
      requires mode == availabilityMode
      modifies `isNodeCurrentlyReleased
      ensures Released() == Ask(cluster, mode, old(Released()), node)
      ensures performed <==> node in Released()
    {
      var found;
      performed, found := SetPendingOrPerformedDynNodes(node);
      if !found {
        performed := SetPendingOrPerformedStorageNodes(node, mode);
      }
    }

    method RefreshStatesForTask()
      modifies `isNodeCurrentlyReleased, `actionGroupStates
      ensures Released() == AskAll(cluster, availabilityMode, old(Released()), old(ListedActions(actionGroupStates)))
      ensures actionGroupStates ==
        Refreshed(cluster, availabilityMode, old(Released()), old(ListedActions(actionGroupStates)))
    {
      ghost var actions := ListedActions(actionGroupStates);
      for i := 0 to |actionGroupStates|
        invariant |actionGroupStates| == |actions|
        invariant ListedActions(actionGroupStates) == actions
        invariant Released() == AskAll(cluster, availabilityMode, old(Released()), actions[..i])
        invariant actionGroupStates[..i] == Refreshed(cluster, availabilityMode, old(Released()), actions[..i])
      {
        assert actions[..i + 1][..i] == actions[..i];
        var as_ := actionGroupStates[i];
        assert as_.action == actions[i];
        var performed := SetPendingOrPerformed(as_.action.node, availabilityMode);
        actionGroupStates := actionGroupStates[i := Listed(as_.action, performed)];
        assert actionGroupStates[..i + 1] == actionGroupStates[..i] + [Listed(as_.action, performed)];
      }
      assert actions[..|actions|] == actions;
      assert actionGroupStates[..|actionGroupStates|] == actionGroupStates;
    }

    /** Drops the first action with this id and frees its node. */
    method CleanupActionByID(uid: ActionId)
      requires Distinct(ListedActions(actionGroupStates))
      modifies `isNodeCurrentlyReleased, `actionGroupStates
      ensures ListedActions(actionGroupStates) == Without(old(ListedActions(actionGroupStates)), [uid])
      ensures Released() == old(Released()) - NodesWith(old(ListedActions(actionGroupStates)), [uid])
    {
      ghost var actions := ListedActions(actionGroupStates);
      for k := 0 to |actionGroupStates|
        invariant actionGroupStates == old(actionGroupStates) && Released() == old(Released())
        invariant forall i :: 0 <= i < k ==> actions[i].uid != uid
      {
        var action := actionGroupStates[k].action;
        if action.uid != uid {
          continue;
        }
        Free(action.node);
        actionGroupStates := actionGroupStates[..k] + actionGroupStates[k + 1..];
        WithoutOne(actions, uid, k);
        assert ListedActions(actionGroupStates) == actions[..k] + actions[k + 1..];
        return;
      }
      WithoutNone(actions, uid);
    }

    method CompleteAction(uids: seq<ActionId>)
      requires Distinct(ListedActions(actionGroupStates))
      modifies `isNodeCurrentlyReleased, `actionGroupStates
      ensures ListedActions(actionGroupStates) == Without(old(ListedActions(actionGroupStates)), uids)
      ensures Released() == old(Released()) - NodesWith(old(ListedActions(actionGroupStates)), uids)
    {
      ghost var actions := ListedActions(actionGroupStates);
      WithoutNobody(actions);
      for i := 0 to |uids|
        invariant ListedActions(actionGroupStates) == Without(actions, uids[..i])
        invariant Released() == old(Released()) - NodesWith(actions, uids[..i])
      {
        StillDistinct(actions, uids[..i]);
        CompletedOneMore(old(Released()), actions, uids, i);
        CleanupActionByID(uids[i]);
      }
      assert uids[..|uids|] == uids;
    }

    method CreateMaintenanceTask(actions: seq<Action>, mode: AvailabilityMode)
      modifies this
      ensures availabilityMode == mode
      ensures Released() == AskAll(cluster, mode, old(Released()), actions)
      ensures actionGroupStates == Refreshed(cluster, mode, old(Released()), actions)
    {
      availabilityMode := mode;
      actionGroupStates := [];
      for i := 0 to |actions|
        invariant availabilityMode == mode
        invariant Released() == AskAll(cluster, mode, old(Released()), actions[..i])
        invariant actionGroupStates == Refreshed(cluster, mode, old(Released()), actions[..i])
      {
        assert actions[..i + 1][..i] == actions[..i];
        var performed := SetPendingOrPerformed(actions[i].node, mode);
        actionGroupStates := actionGroupStates + [Listed(actions[i], performed)];
      }
      assert actions[..|actions|] == actions;
    }

    method DropMaintenanceTask()
      modifies `isNodeCurrentlyReleased, `actionGroupStates
      ensures actionGroupStates == []
      ensures Released() == old(Released()) - NodesOf(old(ListedActions(actionGroupStates)))
    {
      for i := 0 to |actionGroupStates|
        invariant actionGroupStates == old(actionGroupStates)
        invariant Released() == old(Released()) - NodesOf(ListedActions(actionGroupStates)[..i])
      {
        ghost var actions := ListedActions(actionGroupStates);
        assert actions[..i + 1] == actions[..i] + [actions[i]];
        assert NodesOf(actions[..i + 1]) == NodesOf(actions[..i]) + {actions[i].node};
        Free(actionGroupStates[i].action.node);
      }
      assert ListedActions(actionGroupStates)[..|actionGroupStates|] == ListedActions(actionGroupStates);
      actionGroupStates := [];
    }
  }

  lemma {:induction false} WithoutNobody(actions: seq<Action>)
    ensures Without(actions, []) == actions && NodesWith(actions, []) == {}
  {
    if actions != [] {
      WithoutNobody(actions[..|actions| - 1]);
      assert actions == actions[..|actions| - 1] + [actions[|actions| - 1]];
    }
  }

  lemma {:induction false} WithoutOneMore(actions: seq<Action>, uids: seq<ActionId>, uid: ActionId)
    ensures Without(Without(actions, uids), [uid]) == Without(actions, uids + [uid])
  {
    if actions != [] {
      var n := |actions| - 1;
      var x, rest := actions[n], Without(actions[..n], uids);
      WithoutOneMore(actions[..n], uids, uid);
      assert x.uid in uids + [uid] <==> x.uid in uids || x.uid in [uid];
      if x.uid !in uids {
        assert Without(actions, uids) == rest + [x];
        assert (rest + [x])[..|rest|] == rest;
        assert Without(rest + [x], [uid]) == Without(rest, [uid]) + if x.uid in [uid] then [] else [x];
      } else {
        assert Without(actions, uids) == rest + [] == rest;
      }
    }
  }

  lemma FreedOneMore(actions: seq<Action>, uids: seq<ActionId>, uid: ActionId)
    ensures NodesWith(actions, uids + [uid]) == NodesWith(actions, uids) + NodesWith(Without(actions, uids), [uid])
  {
    WithoutMembers(actions, uids);
  }

  /** What completing the first i ids, and then one more, leaves. */
  lemma CompletedOneMore(released: set<NodeId>, actions: seq<Action>, uids: seq<ActionId>, i: nat)
    requires i < |uids|
    ensures Without(Without(actions, uids[..i]), [uids[i]]) == Without(actions, uids[..i + 1])
    ensures released - NodesWith(actions, uids[..i]) - NodesWith(Without(actions, uids[..i]), [uids[i]])
      == released - NodesWith(actions, uids[..i + 1])
  {
    assert uids[..i + 1] == uids[..i] + [uids[i]];
    WithoutOneMore(actions, uids[..i], uids[i]);
    FreedOneMore(actions, uids[..i], uids[i]);
  }

  lemma StillDistinct(actions: seq<Action>, uids: seq<ActionId>)
    requires Distinct(actions)
    ensures Distinct(Without(actions, uids))
  {
    WithoutMembers(actions, uids);
    PartOfDistinct(Without(actions, uids), actions);
  }

  lemma {:induction false} QuotaIsFirst(nodes: seq<ClusterNode>, node: NodeId, n: nat)
    requires n <= |nodes| && QuotaTenant(nodes[..n], node).Some?
    ensures QuotaTenant(nodes, node) == QuotaTenant(nodes[..n], node)
    decreases |nodes|
  {
    if n < |nodes| {
      var m := |nodes| - 1;
      assert nodes[..m][..n] == nodes[..n];
      QuotaIsFirst(nodes[..m], node, n);
    } else {
      assert nodes[..n] == nodes;
    }
  }

  lemma {:induction false} WithoutMembers(actions: seq<Action>, uids: seq<ActionId>)
    ensures forall a :: a in Without(actions, uids) <==> a in actions && a.uid !in uids
    ensures multiset(Without(actions, uids)) <= multiset(actions)
  {
    if actions != [] {
      var n := |actions| - 1;
      assert actions == actions[..n] + [actions[n]];
      WithoutMembers(actions[..n], uids);
    }
  }

  lemma {:induction false} WithoutNone(actions: seq<Action>, uid: ActionId)
    requires forall i :: 0 <= i < |actions| ==> actions[i].uid != uid
    ensures Without(actions, [uid]) == actions && NodesWith(actions, [uid]) == {}
  {
    if actions != [] {
      WithoutNone(actions[..|actions| - 1], uid);
      assert actions == actions[..|actions| - 1] + [actions[|actions| - 1]];
    }
  }

  lemma {:induction false} WithoutOne(actions: seq<Action>, uid: ActionId, k: nat)
    requires Distinct(actions) && k < |actions| && actions[k].uid == uid
    ensures Without(actions, [uid]) == actions[..k] + actions[k + 1..]
    ensures NodesWith(actions, [uid]) == {actions[k].node}
  {
    var n := |actions| - 1;
    if k < n {
      WithoutOne(actions[..n], uid, k);
      assert actions[n].uid !in [uid];
      assert actions[..k] + actions[k + 1..] == (actions[..n][..k] + actions[..n][k + 1..]) + [actions[n]];
    } else {
      WithoutNone(actions[..n], uid);
      assert actions[..k] + actions[k + 1..] == actions[..n];
    }
    OnlyOneHasUid(actions, k);
  }

  lemma OnlyOneHasUid(actions: seq<Action>, k: nat)
    requires Distinct(actions) && k < |actions|
    ensures NodesWith(actions, [actions[k].uid]) == {actions[k].node}
  {
    forall a | a in actions && a.uid == actions[k].uid
      ensures a == actions[k]
    {
    }
  }

  // ---------------------------------------------------------------------------
  // Availability
  // ---------------------------------------------------------------------------

  /** How many nodes of a group may be released at once, where there is a limit. */
  function GroupLimit(mode: AvailabilityMode): nat
    requires mode != Force
  {
    if mode == Weak then 2 else 1
  }

  ghost predicate DisjointGroups(cl: Cluster) {
    && (forall g, i, j :: 0 <= g < |cl.nodeGroups| && 0 <= i < j < |cl.nodeGroups[g]| ==>
      cl.nodeGroups[g][i] != cl.nodeGroups[g][j])
    && (forall g, k, n :: 0 <= g < k < |cl.nodeGroups| && n in cl.nodeGroups[g] ==> n !in cl.nodeGroups[k])
  }

  /** A group none of whose nodes is under a tenant quota. */
  ghost predicate StorageGroup(cl: Cluster, group: seq<NodeId>) {
    group in cl.nodeGroups && forall n :: n in group ==> !ByQuota(cl, n)
  }

  ghost predicate Available(cl: Cluster, mode: AvailabilityMode, released: set<NodeId>)
    requires mode != Force
  {
    forall group :: StorageGroup(cl, group) ==> ReleasedIn(group, released) <= GroupLimit(mode)
  }

  lemma {:induction false} ReleaseCounts(group: seq<NodeId>, released: set<NodeId>, node: NodeId)
    requires forall i, j :: 0 <= i < j < |group| ==> group[i] != group[j]
    ensures ReleasedIn(group, released + {node}) <= ReleasedIn(group, released) + 1
    ensures node !in group ==> ReleasedIn(group, released + {node}) == ReleasedIn(group, released)
  {
    if group != [] {
      var n := |group| - 1;
      assert group == group[..n] + [group[n]];
      ReleaseCounts(group[..n], released, node);
    }
  }

  lemma {:induction false} FewerReleased(group: seq<NodeId>, fewer: set<NodeId>, released: set<NodeId>)
    requires fewer <= released
    ensures ReleasedIn(group, fewer) <= ReleasedIn(group, released)
  {
    if group != [] {
      FewerReleased(group[..|group| - 1], fewer, released);
    }
  }

  lemma AskKeepsAvailable(cl: Cluster, mode: AvailabilityMode, released: set<NodeId>, node: NodeId)
    requires mode != Force && DisjointGroups(cl) && Available(cl, mode, released)
    ensures Available(cl, mode, Ask(cl, mode, released, node))
  {
    forall group | StorageGroup(cl, group) && Granted(cl, mode, released, node) && node !in released
      ensures ReleasedIn(group, released + {node}) <= GroupLimit(mode)
    {
      var k :| 0 <= k < |cl.nodeGroups| && cl.nodeGroups[k] == group;
      ReleaseCounts(group, released, node);
      if node in group {
        var g :| 0 <= g < |cl.nodeGroups| && node in cl.nodeGroups[g] &&
          Allows(mode, ReleasedIn(cl.nodeGroups[g], released));
        assert g == k;
      }
    }
    if node in released {
      assert released + {node} == released;
    }
  }

  lemma {:induction false} AskAllKeepsAvailable(cl: Cluster, mode: AvailabilityMode, released: set<NodeId>,
                                                actions: seq<Action>)
    requires mode != Force && DisjointGroups(cl) && Available(cl, mode, released)
    ensures Available(cl, mode, AskAll(cl, mode, released, actions))
  {
    if actions != [] {
      var n := |actions| - 1;
      AskAllKeepsAvailable(cl, mode, released, actions[..n]);
      AskKeepsAvailable(cl, mode, AskAll(cl, mode, released, actions[..n]), actions[n].node);
    }
  }

  lemma CompletionKeepsAvailable(cl: Cluster, mode: AvailabilityMode, released: set<NodeId>, freed: set<NodeId>)
    requires mode != Force && Available(cl, mode, released)
    ensures Available(cl, mode, released - freed)
  {
    forall group | StorageGroup(cl, group)
      ensures ReleasedIn(group, released - freed) <= GroupLimit(mode)
    {
      FewerReleased(group, released - freed, released);
    }
  }

  // ---------------------------------------------------------------------------
  // What a refresh tells
  // ---------------------------------------------------------------------------

  lemma {:induction false} AskAllGrows(cl: Cluster, mode: AvailabilityMode, released: set<NodeId>, actions: seq<Action>)
    ensures released <= AskAll(cl, mode, released, actions)
    ensures forall n :: n in AskAll(cl, mode, released, actions) ==>
      n in released || exists a :: a in actions && a.node == n
  {
    if actions != [] {
      var m := |actions| - 1;
      assert actions == actions[..m] + [actions[m]];
      AskAllGrows(cl, mode, released, actions[..m]);
    }
  }

  lemma {:induction false} RefreshedActions(cl: Cluster, mode: AvailabilityMode, released: set<NodeId>,
                                            actions: seq<Action>)
    ensures ListedActions(Refreshed(cl, mode, released, actions)) == actions
  {
    if actions != [] {
      var n := |actions| - 1;
      assert actions == actions[..n] + [actions[n]];
      RefreshedActions(cl, mode, released, actions[..n]);
      assert Refreshed(cl, mode, released, actions)
          == Refreshed(cl, mode, released, actions[..n])
             + [Listed(actions[n], actions[n].node in AskAll(cl, mode, released, actions))];
    }
  }

  /** A refreshed action is PERFORMED exactly when its node is released afterwards. */
  lemma {:induction false} RefreshedMeans(cl: Cluster, mode: AvailabilityMode, released: set<NodeId>,
                                          actions: seq<Action>, i: nat)
    requires Distinct(actions) && i < |actions|
    ensures |Refreshed(cl, mode, released, actions)| == |actions|
    ensures Refreshed(cl, mode, released, actions)[i] ==
      Listed(actions[i], actions[i].node in AskAll(cl, mode, released, actions))
  {
    RefreshedActions(cl, mode, released, actions);
    var n := |actions| - 1;
    if i < n {
      RefreshedMeans(cl, mode, released, actions[..n], i);
      assert actions[i].node != actions[n].node;
    } else {
      RefreshedActions(cl, mode, released, actions[..n]);
    }
  }
}
