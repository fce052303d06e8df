/** Which locks the mock CMS grants, counted in nodes: the group limits and the tenant quotas. */
module MockTheorems {
  import opened Wrappers
  import opened Collections
  import opened Progress
  import opened MockCms

  /** No node is listed twice. */
  ghost predicate DistinctNodes(nodes: seq<ClusterNode>) {
    forall i, j :: 0 <= i < j < |nodes| ==> nodes[i].id != nodes[j].id
  }

  ghost predicate NoRepeats(group: seq<NodeId>) {
    forall i, j :: 0 <= i < j < |group| ==> group[i] != group[j]
  }

  function GroupReleased(group: seq<NodeId>, released: set<NodeId>): set<NodeId> {
    set n | n in group && n in released
  }

  /** The released dynamic nodes of a tenant. */
  function TenantReleased(nodes: seq<ClusterNode>, tenant: string, released: set<NodeId>): set<NodeId> {
    set n | n in nodes && n.tenant == Some(tenant) && n.id in released :: n.id
  }

  // ---------------------------------------------------------------------------
  // Counts
  // ---------------------------------------------------------------------------

  lemma {:induction false} ReleasedInCounts(group: seq<NodeId>, released: set<NodeId>)
    requires NoRepeats(group)
    ensures ReleasedIn(group, released) == |GroupReleased(group, released)|
  {
    if group != [] {
      var n := |group| - 1;
      var last := group[n];
      ReleasedInCounts(group[..n], released);
      assert group == group[..n] + [last];
      assert last !in group[..n];
      assert GroupReleased(group, released)
          == GroupReleased(group[..n], released) + if last in released then {last} else {};
    }
  }

  lemma {:induction false} ReleasedOfTenantCounts(nodes: seq<ClusterNode>, tenant: string, released: set<NodeId>)
    requires DistinctNodes(nodes)
    ensures ReleasedOfTenant(nodes, tenant, released) == |TenantReleased(nodes, tenant, released)|
  {
    if nodes != [] {
      var m := |nodes| - 1;
      var last := nodes[m];
      ReleasedOfTenantCounts(nodes[..m], tenant, released);
      assert nodes == nodes[..m] + [last];
      assert last.id !in TenantReleased(nodes[..m], tenant, released);
      assert TenantReleased(nodes, tenant, released) == TenantReleased(nodes[..m], tenant, released)
        + if last.tenant == Some(tenant) && last.id in released then {last.id} else {};
    }
  }

  /** The quota that decides about a node is that of its own tenant. */
  lemma {:induction false} QuotaTenantIsOwn(nodes: seq<ClusterNode>, i: nat)
    requires DistinctNodes(nodes) && i < |nodes|
    ensures QuotaTenant(nodes, nodes[i].id) == nodes[i].tenant
  {
    var m := |nodes| - 1;
    if i < m {
      QuotaTenantIsOwn(nodes[..m], i);
    } else {
      NoQuotaTenant(nodes[..m], nodes[i].id);
    }
  }

  lemma {:induction false} NoQuotaTenant(nodes: seq<ClusterNode>, node: NodeId)
    requires forall n :: n in nodes ==> n.id != node || n.tenant == None
    ensures QuotaTenant(nodes, node) == None
  {
    if nodes != [] {
      NoQuotaTenant(nodes[..|nodes| - 1], node);
      assert nodes[|nodes| - 1] in nodes;
    }
  }

  // ---------------------------------------------------------------------------
  // Grants
  // ---------------------------------------------------------------------------

  /** Under a quota a dynamic node is granted exactly when it is released already or its tenant is below the quota. */
  lemma QuotaGrantIff(cl: Cluster, mode: AvailabilityMode, released: set<NodeId>, n: ClusterNode, tenant: string)
    requires DistinctNodes(cl.nodes) && n in cl.nodes && n.tenant == Some(tenant) && cl.maxDynnodesPerTenant >= 1
    ensures Granted(cl, mode, released, n.id) <==>
      n.id in released || |TenantReleased(cl.nodes, tenant, released)| < cl.maxDynnodesPerTenant
  {
    var i :| 0 <= i < |cl.nodes| && cl.nodes[i] == n;
    QuotaTenantIsOwn(cl.nodes, i);
    ReleasedOfTenantCounts(cl.nodes, tenant, released);
  }

  /** Not a dynamic node, or there is no quota. */
  ghost predicate WithoutQuota(cl: Cluster, node: NodeId) {
    cl.maxDynnodesPerTenant <= 0 || forall n :: n in cl.nodes && n.id == node ==> n.tenant == None
  }

  lemma NoQuotaIs(cl: Cluster, node: NodeId)
    requires DistinctNodes(cl.nodes)
    ensures ByQuota(cl, node) <==> !WithoutQuota(cl, node)
  {
    if WithoutQuota(cl, node) {
      if cl.maxDynnodesPerTenant > 0 {
        NoQuotaTenant(cl.nodes, node);
      }
    } else {
      var n :| n in cl.nodes && n.id == node && n.tenant != None;
      var i :| 0 <= i < |cl.nodes| && cl.nodes[i] == n;
      QuotaTenantIsOwn(cl.nodes, i);
    }
  }

  /** In a group with this many released nodes one more may be released. */
  predicate HasRoom(mode: AvailabilityMode, count: nat) {
    match mode
    case Strong => count == 0
    case Smart => count == 0
    case Weak => count <= 1
    case Force => true
  }

  /** Any other node is granted exactly when it is released already or some group with it has room. */
  lemma GroupGrantIff(cl: Cluster, mode: AvailabilityMode, released: set<NodeId>, node: NodeId)
    requires DistinctNodes(cl.nodes) && WithoutQuota(cl, node)
    requires forall g :: g in cl.nodeGroups ==> NoRepeats(g)
    ensures Granted(cl, mode, released, node) <==>
      node in released || exists g :: g in cl.nodeGroups && node in g && HasRoom(mode, |GroupReleased(g, released)|)
  {
    NoQuotaIs(cl, node);
    forall g | g in cl.nodeGroups
      ensures Allows(mode, ReleasedIn(g, released)) <==> HasRoom(mode, |GroupReleased(g, released)|)
    {
      ReleasedInCounts(g, released);
    }
    if g :| g in cl.nodeGroups && node in g && HasRoom(mode, |GroupReleased(g, released)|) {
      var k :| 0 <= k < |cl.nodeGroups| && cl.nodeGroups[k] == g;
      assert SomeGroupAllows(cl, mode, released, node);
    }
    if SomeGroupAllows(cl, mode, released, node) {
      var k :| 0 <= k < |cl.nodeGroups| && node in cl.nodeGroups[k] &&
        Allows(mode, ReleasedIn(cl.nodeGroups[k], released));
      assert cl.nodeGroups[k] in cl.nodeGroups;
    }
  }

  // ---------------------------------------------------------------------------
  // Limits
  // ---------------------------------------------------------------------------

  /** No more nodes of a storage group are released than the mode allows. */
  ghost predicate GroupsWithinLimits(cl: Cluster, mode: AvailabilityMode, released: set<NodeId>) {
    forall g :: g in cl.nodeGroups && (forall n :: n in g ==> WithoutQuota(cl, n)) ==>
      |GroupReleased(g, released)| <= if mode == Weak then 2 else 1
  }

  lemma AvailableMeans(cl: Cluster, mode: AvailabilityMode, released: set<NodeId>)
    requires mode != Force && DistinctNodes(cl.nodes) && DisjointGroups(cl) && Available(cl, mode, released)
    ensures GroupsWithinLimits(cl, mode, released)
  {
    forall g | g in cl.nodeGroups && forall n :: n in g ==> WithoutQuota(cl, n)
      ensures |GroupReleased(g, released)| <= if mode == Weak then 2 else 1
    {
      var k :| 0 <= k < |cl.nodeGroups| && cl.nodeGroups[k] == g;
      forall n | n in g
        ensures !ByQuota(cl, n)
      {
        NoQuotaIs(cl, n);
      }
      assert StorageGroup(cl, g);
      ReleasedInCounts(g, released);
    }
  }

  /** No tenant has more nodes released than its quota. */
  ghost predicate TenantsWithinQuota(cl: Cluster, released: set<NodeId>) {
    forall tenant :: |TenantReleased(cl.nodes, tenant, released)| <= cl.maxDynnodesPerTenant
  }

  lemma AskKeepsQuota(cl: Cluster, mode: AvailabilityMode, released: set<NodeId>, node: NodeId)
    requires DistinctNodes(cl.nodes) && cl.maxDynnodesPerTenant >= 1 && TenantsWithinQuota(cl, released)
    ensures TenantsWithinQuota(cl, Ask(cl, mode, released, node))
  {
    forall tenant
      ensures |TenantReleased(cl.nodes, tenant, Ask(cl, mode, released, node))| <= cl.maxDynnodesPerTenant
    {
      OneMoreReleased(cl, tenant, released, node);
      if n :| n in cl.nodes && n.id == node && n.tenant == Some(tenant) {
        QuotaGrantIff(cl, mode, released, n, tenant);
      }
      if node in released {
        assert released + {node} == released;
      }
    }
  }

  lemma OneMoreReleased(cl: Cluster, tenant: string, released: set<NodeId>, node: NodeId)
    ensures |TenantReleased(cl.nodes, tenant, released + {node})| <= |TenantReleased(cl.nodes, tenant, released)| + 1
    ensures (forall n :: n in cl.nodes && n.id == node ==> n.tenant != Some(tenant)) ==>
      TenantReleased(cl.nodes, tenant, released + {node}) == TenantReleased(cl.nodes, tenant, released)
  {
    var was, now := TenantReleased(cl.nodes, tenant, released), TenantReleased(cl.nodes, tenant, released + {node});
    assert now <= was + {node};
    SubsetSize(now, was + {node});
  }

  lemma {:induction false} AskAllKeepsQuota(cl: Cluster, mode: AvailabilityMode, released: set<NodeId>,
                                            actions: seq<Action>)
    requires DistinctNodes(cl.nodes) && cl.maxDynnodesPerTenant >= 1 && TenantsWithinQuota(cl, released)
    ensures TenantsWithinQuota(cl, AskAll(cl, mode, released, actions))
  {
    if actions != [] {
      var n := |actions| - 1;
      AskAllKeepsQuota(cl, mode, released, actions[..n]);
      AskKeepsQuota(cl, mode, AskAll(cl, mode, released, actions[..n]), actions[n].node);
    }
  }

  lemma FreeingKeepsQuota(cl: Cluster, released: set<NodeId>, freed: set<NodeId>)
    requires TenantsWithinQuota(cl, released)
    ensures TenantsWithinQuota(cl, released - freed)
  {
    forall tenant
      ensures |TenantReleased(cl.nodes, tenant, released - freed)| <= cl.maxDynnodesPerTenant
    {
      SubsetSize(TenantReleased(cl.nodes, tenant, released - freed), TenantReleased(cl.nodes, tenant, released));
    }
  }
}
