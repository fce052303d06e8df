/** The pipelines of filters against one predicate per restarter, and against each other. */
module SelectionTheorems {
  import opened Wrappers
  import opened Collections
  import opened Selection

  // ---------------------------------------------------------------------------
  // Members of each stage
  // ---------------------------------------------------------------------------

  lemma {:induction false} FilterKeepsDistinct(nodes: seq<Node>, f: Node -> bool)
    requires DistinctIds(nodes)
    ensures DistinctIds(Filter(nodes, f))
  {
    if nodes != [] {
      var n := |nodes| - 1;
      FilterKeepsDistinct(nodes[..n], f);
      FilterMembers(nodes[..n], f);
      var kept := Filter(nodes[..n], f);
      forall i | 0 <= i < |kept|
        ensures kept[i].id != nodes[n].id
      {
        assert kept[i] in nodes[..n];
      }
    }
  }

  /** One node per id, and each of them comes from the list. */
  lemma {:induction false} UniqueMembers(nodes: seq<Node>)
    ensures DistinctIds(Unique(nodes))
    ensures forall n :: n in Unique(nodes) ==> n in nodes
    ensures forall id :: HasId(Unique(nodes), id) <==> HasId(nodes, id)
  {
    if nodes != [] {
      var m := |nodes| - 1;
      var earlier, last := nodes[..m], nodes[m];
      UniqueMembers(earlier);
      assert nodes == earlier + [last];
      UniqueOneMore(earlier, last);
      UniqueIds(Unique(earlier), last);
      if HasId(earlier, last.id) {
        assert Unique(nodes) == Unique(earlier);
      }
    }
  }

  lemma UniqueIds(unique: seq<Node>, last: Node)
    ensures forall id :: HasId(unique + [last], id) <==> HasId(unique, id) || id == last.id
    ensures !HasId(unique, last.id) && DistinctIds(unique) ==> DistinctIds(unique + [last])
  {
    UniqueOneMore(unique, last);
  }

  /** Among nodes of one cluster, where an id stands for one node, merging loses nothing. */
  lemma UniqueOfCluster(nodes: seq<Node>, all: seq<Node>)
    requires DistinctIds(all) && forall n :: n in nodes ==> n in all
    ensures DistinctIds(Unique(nodes))
    ensures forall n :: n in Unique(nodes) <==> n in nodes
  {
    UniqueMembers(nodes);
    forall n | n in nodes
      ensures n in Unique(nodes)
    {
      var i :| 0 <= i < |nodes| && nodes[i] == n;
      assert HasId(nodes, n.id);
      assert HasId(Unique(nodes), n.id);
      var k :| 0 <= k < |Unique(nodes)| && Unique(nodes)[k].id == n.id;
      assert Unique(nodes)[k] in nodes;
      SameIdSameNode(all, n, Unique(nodes)[k]);
    }
  }

  lemma SameIdSameNode(all: seq<Node>, a: Node, b: Node)
    requires DistinctIds(all) && a in all && b in all && a.id == b.id
    ensures a == b
  {
  }

  lemma {:induction false} UniqueOfDistinct(nodes: seq<Node>)
    requires DistinctIds(nodes)
    ensures Unique(nodes) == nodes
  {
    if nodes != [] {
      var earlier, last := nodes[..|nodes| - 1], nodes[|nodes| - 1];
      LastIsDistinct(nodes);
      UniqueOfDistinct(earlier);
      assert Unique(nodes) == earlier + [last];
    }
  }

  lemma LastIsDistinct(nodes: seq<Node>)
    requires DistinctIds(nodes) && nodes != []
    ensures DistinctIds(nodes[..|nodes| - 1]) && !HasId(nodes[..|nodes| - 1], nodes[|nodes| - 1].id)
  {
  }

  lemma StillThere(nodes: seq<Node>, more: seq<Node>, id: nat)
    requires HasId(nodes, id)
    ensures HasId(nodes + more, id)
  {
    var i :| 0 <= i < |nodes| && nodes[i].id == id;
    assert (nodes + more)[i].id == id;
  }

  lemma MergeOne(nodes: seq<Node>, n: Node, f: Node -> bool)
    requires HasId(nodes, n.id) || !f(n)
    ensures Filter(Unique(nodes + [n]), f) == Filter(Unique(nodes), f)
  {
    UniqueOneMore(nodes, n);
    assert Unique(nodes) + [] == Unique(nodes);
  }

  /** Nodes that are already there, or that the next stage removes, change nothing. */
  lemma {:induction false} MergedThenFiltered(nodes: seq<Node>, more: seq<Node>, f: Node -> bool)
    requires DistinctIds(nodes)
    requires forall n :: n in more ==> HasId(nodes, n.id) || !f(n)
    ensures Filter(Unique(nodes + more), f) == Filter(nodes, f)
  {
    if more == [] {
      assert nodes + more == nodes;
      UniqueOfDistinct(nodes);
    } else {
      var m := |more| - 1;
      MergedThenFiltered(nodes, more[..m], f);
      assert nodes + more == nodes + more[..m] + [more[m]];
      if HasId(nodes, more[m].id) {
        StillThere(nodes, more[..m], more[m].id);
      }
      MergeOne(nodes + more[..m], more[m], f);
    }
  }

  lemma IncludeMembers(nodes: seq<Node>, spec: FilterNodeParams)
    requires DistinctIds(nodes)
    ensures DistinctIds(Include(nodes, spec))
    ensures forall n :: n in Include(nodes, spec) <==> n in nodes && Included(spec, n)
  {
    var byDatacenter := (n: Node) => n.datacenter in spec.selectedDatacenters;
    var byHost := (n: Node) => n.host in spec.selectedHosts;
    var byId := (n: Node) => n.id in spec.selectedNodeIds;
    FilterMembers(nodes, byDatacenter);
    FilterMembers(nodes, byHost);
    FilterMembers(nodes, byId);
    var merged := Filter(nodes, byDatacenter) + Filter(nodes, byHost) + Filter(nodes, byId);
    assert Include(nodes, spec) == Unique(merged);
    UniqueOfCluster(merged, nodes);
  }

  function Unseen(nodes: seq<Node>): Node -> bool {
    (n: Node) => !HasId(nodes, n.id)
  }

  lemma UniqueAppend(nodes: seq<Node>, n: Node)
    ensures Unique(nodes + [n]) == if HasId(nodes, n.id) then Unique(nodes) else Unique(nodes) + [n]
  {
    assert (nodes + [n])[..|nodes|] == nodes;
    assert Unique(nodes) + [] == Unique(nodes);
  }

  lemma HasIdOfSum(a: seq<Node>, b: seq<Node>, id: nat)
    ensures HasId(a + b, id) <==> HasId(a, id) || HasId(b, id)
  {
    if HasId(a, id) {
      StillThere(a, b, id);
    } else if HasId(b, id) {
      var i :| 0 <= i < |b| && b[i].id == id;
      assert (a + b)[|a| + i].id == id;
    }
  }

  lemma FilterAppend(nodes: seq<Node>, n: Node, f: Node -> bool)
    ensures Filter(nodes + [n], f) == if f(n) then Filter(nodes, f) + [n] else Filter(nodes, f)
  {
    assert (nodes + [n])[..|nodes|] == nodes;
    assert Filter(nodes, f) + [] == Filter(nodes, f);
  }

  /** Merging a second list appends its nodes with ids that were not seen yet. */
  lemma {:induction false} UniqueOfSum(a: seq<Node>, b: seq<Node>)
    ensures Unique(a + b) == Unique(a) + Filter(Unique(b), Unseen(a))
  {
    if b == [] {
      assert a + b == a;
    } else {
      var m := |b| - 1;
      UniqueOfSum(a, b[..m]);
      UniqueOfOneMore(a, b[..m], b[m]);
      SplitLast(a, b);
    }
  }

  lemma UniqueOfOneMore(a: seq<Node>, b: seq<Node>, n: Node)
    requires Unique(a + b) == Unique(a) + Filter(Unique(b), Unseen(a))
    ensures Unique(a + b + [n]) == Unique(a) + Filter(Unique(b + [n]), Unseen(a))
  {
    UniqueAppend(a + b, n);
    UniqueAppend(b, n);
    HasIdOfSum(a, b, n.id);
    FilterAppend(Unique(b), n, Unseen(a));
    if !HasId(a + b, n.id) {
      Associates(Unique(a), Filter(Unique(b), Unseen(a)), [n]);
    }
  }

  /** Of distinct nodes, an id is in the filtered list only together with its node. */
  lemma SeenIff(nodes: seq<Node>, f: Node -> bool, n: Node)
    requires DistinctIds(nodes) && n in nodes
    ensures HasId(Filter(nodes, f), n.id) <==> f(n)
  {
    var kept := Filter(nodes, f);
    FilterMembers(nodes, f);
    if HasId(kept, n.id) {
      var i :| 0 <= i < |kept| && kept[i].id == n.id;
      assert kept[i] in kept;
      SameIdSameNode(nodes, n, kept[i]);
    }
    if f(n) {
      assert n in kept;
      var i :| 0 <= i < |kept| && kept[i] == n;
    }
  }

  /** Merging in the nodes that a test keeps appends those that are not there yet. */
  lemma MergeKept(first: seq<Node>, nodes: seq<Node>, there: Node -> bool, f: Node -> bool, more: Node -> bool)
    requires DistinctIds(nodes) && forall n :: n in nodes ==> (HasId(first, n.id) <==> there(n))
    requires forall n :: more(n) == (f(n) && !there(n))
    ensures Unique(first + Filter(nodes, f)) == Unique(first) + Filter(nodes, more)
  {
    FilterKeepsDistinct(nodes, f);
    UniqueOfDistinct(Filter(nodes, f));
    UniqueOfSum(first, Filter(nodes, f));
    FilterMembers(nodes, f);
    var missing := n => !there(n);
    FilterAgrees(Filter(nodes, f), Unseen(first), missing);
    FilterTwice(nodes, f, missing, more);
  }

  /** First the nodes named by datacenter, then the others named by host, then the others named by id. */
  lemma IncludeOrder(nodes: seq<Node>, spec: FilterNodeParams)
    requires DistinctIds(nodes)
    ensures Include(nodes, spec) == NamedInOrder(nodes, spec)
  {
    var d := (n: Node) => n.datacenter in spec.selectedDatacenters;
    var h := (n: Node) => n.host in spec.selectedHosts;
    var i := (n: Node) => n.id in spec.selectedNodeIds;
    var either := (n: Node) => d(n) || h(n);
    forall n | n in nodes
      ensures HasId(Filter(nodes, d), n.id) <==> d(n)
      ensures HasId(Filter(nodes, d) + Filter(nodes, h), n.id) <==> either(n)
    {
      SeenIff(nodes, d, n);
      SeenIff(nodes, h, n);
      HasIdOfSum(Filter(nodes, d), Filter(nodes, h), n.id);
    }
    FilterKeepsDistinct(nodes, d);
    UniqueOfDistinct(Filter(nodes, d));
    MergeKept(Filter(nodes, d), nodes, d, h, n => ByHostOnly(spec, n));
    MergeKept(Filter(nodes, d) + Filter(nodes, h), nodes, either, i, n => ByIdOnly(spec, n));
  }

  predicate ByHostOnly(spec: FilterNodeParams, n: Node) {
    n.host in spec.selectedHosts && n.datacenter !in spec.selectedDatacenters
  }

  predicate ByIdOnly(spec: FilterNodeParams, n: Node) {
    n.id in spec.selectedNodeIds && n.host !in spec.selectedHosts && n.datacenter !in spec.selectedDatacenters
  }

  function NamedInOrder(nodes: seq<Node>, spec: FilterNodeParams): seq<Node> {
    Filter(nodes, (n: Node) => n.datacenter in spec.selectedDatacenters)
    + Filter(nodes, n => ByHostOnly(spec, n)) + Filter(nodes, n => ByIdOnly(spec, n))
  }

  lemma IncludedAreNamed(nodes: seq<Node>, spec: FilterNodeParams)
    ensures forall n :: n in Include(nodes, spec) ==> n in nodes && Included(spec, n)
  {
    var byDatacenter := (n: Node) => n.datacenter in spec.selectedDatacenters;
    var byHost := (n: Node) => n.host in spec.selectedHosts;
    var byId := (n: Node) => n.id in spec.selectedNodeIds;
    FilterMembers(nodes, byDatacenter);
    FilterMembers(nodes, byHost);
    FilterMembers(nodes, byId);
    UniqueMembers(Filter(nodes, byDatacenter) + Filter(nodes, byHost) + Filter(nodes, byId));
  }

  lemma PopulateMembers(nodes: seq<Node>, spec: FilterNodeParams)
    requires DistinctIds(nodes)
    ensures DistinctIds(Populate(nodes, spec))
    ensures forall n :: n in Populate(nodes, spec) <==> n in nodes && (Unspecified(spec) || Included(spec, n))
  {
    if !Unspecified(spec) {
      IncludeMembers(nodes, spec);
    }
  }

  /** The host of the node has a pod, and this is a selected host; or it has none, and the empty name is one. */
  predicate InPods(spec: FilterNodeParams, pods: PodNames, n: Node) {
    || (n.host in pods && pods[n.host] in spec.selectedHosts)
    || (n.host !in pods && "" in spec.selectedHosts)
  }

  lemma {:induction false} ByPodsMembers(nodes: seq<Node>, hosts: seq<string>, pods: PodNames)
    ensures forall n :: n in ByPods(nodes, hosts, pods) <==> n in nodes && PodOf(pods, n) in hosts
  {
    if nodes != [] {
      var m := |nodes| - 1;
      assert nodes == nodes[..m] + [nodes[m]];
      ByPodsMembers(nodes[..m], hosts, pods);
      var last := nodes[m];
      var times := multiset(hosts)[PodOf(pods, last)];
      assert PodOf(pods, last) in hosts <==> times > 0;
      assert times > 0 ==> Repeat(last, times)[0] == last;
      assert forall n :: n in Repeat(last, times) <==> n == last && times > 0;
    }
  }

  /** How often the pod of a node is named. */
  function TimesNamed(hosts: seq<string>, pods: PodNames, n: Node): nat {
    multiset(hosts)[if n.host in pods then pods[n.host] else ""]
  }

  /** Each node as often as its pod is named. */
  lemma {:induction false} ByPodsCount(nodes: seq<Node>, hosts: seq<string>, pods: PodNames, n: Node)
    ensures multiset(ByPods(nodes, hosts, pods))[n] == multiset(nodes)[n] * TimesNamed(hosts, pods, n)
  {
    if nodes == [] {
      assert multiset(nodes)[n] == 0 && 0 * TimesNamed(hosts, pods, n) == 0;
    } else {
      var front, last := nodes[..|nodes| - 1], nodes[|nodes| - 1];
      var copies := Repeat(last, TimesNamed(hosts, pods, last));
      ByPodsCount(front, hosts, pods, n);
      RepeatCount(last, TimesNamed(hosts, pods, last), n);
      CountStep(front, last, ByPods(front, hosts, pods), copies, n, TimesNamed(hosts, pods, n));
      assert front + [last] == nodes;
    }
  }

  lemma CountStep(front: seq<Node>, last: Node, before: seq<Node>, copies: seq<Node>, n: Node, times: nat)
    requires multiset(before)[n] == multiset(front)[n] * times
    requires multiset(copies)[n] == if n == last then times else 0
    ensures multiset(before + copies)[n] == multiset(front + [last])[n] * times
  {
    var count := multiset(front)[n];
    assert multiset(front + [last])[n] == if n == last then count + 1 else count;
    OnceMore(count, times);
  }

  lemma OnceMore(count: nat, times: nat)
    ensures (count + 1) * times == count * times + times
  {
  }

  lemma {:induction false} RepeatCount(node: Node, times: nat, n: Node)
    ensures multiset(Repeat(node, times))[n] == if n == node then times else 0
  {
    if times > 0 {
      RepeatCount(node, times - 1, n);
      assert Repeat(node, times) == Repeat(node, times - 1) + [node];
    } else {
      assert Repeat(node, times) == [];
    }
  }

  lemma {:induction false} ByPodsOfSum(a: seq<Node>, b: seq<Node>, hosts: seq<string>, pods: PodNames)
    ensures ByPods(a + b, hosts, pods) == ByPods(a, hosts, pods) + ByPods(b, hosts, pods)
  {
    if b == [] {
      assert a + b == a;
    } else {
      var m := |b| - 1;
      assert (a + b)[..|a| + m] == a + b[..m];
      ByPodsOfSum(a, b[..m], hosts, pods);
    }
  }

  lemma WithPodsMembers(nodes: seq<Node>, spec: FilterNodeParams, pods: PodNames)
    requires DistinctIds(nodes)
    ensures DistinctIds(WithPods(nodes, spec, pods))
    ensures forall n :: n in WithPods(nodes, spec, pods) <==>
      n in nodes && (Unspecified(spec) || Included(spec, n) || InPods(spec, pods, n))
  {
    PopulateMembers(nodes, spec);
    ByPodsMembers(nodes, spec.selectedHosts, pods);
    UniqueOfCluster(Populate(nodes, spec) + K8sRules(nodes, spec, pods), nodes);
  }

  // ---------------------------------------------------------------------------
  // The tenant index
  // ---------------------------------------------------------------------------

  /** A dynamic node of the tenant with this id. */
  predicate HasDynamic(nodes: seq<Node>, t: string, id: nat) {
    exists i :: 0 <= i < |nodes| && nodes[i].kind == Dynamic(t) && nodes[i].id == id
  }

  lemma HasDynamicStep(nodes: seq<Node>, last: Node, t: string, id: nat)
    ensures HasDynamic(nodes + [last], t, id) <==>
      HasDynamic(nodes, t, id) || (last.kind == Dynamic(t) && last.id == id)
  {
    var all := nodes + [last];
    if HasDynamic(nodes, t, id) {
      var i :| 0 <= i < |nodes| && nodes[i].kind == Dynamic(t) && nodes[i].id == id;
      assert all[i] == nodes[i];
    } else if last.kind == Dynamic(t) && last.id == id {
      assert all[|nodes|] == last;
    }
  }

  lemma {:induction false} IndexMembers(nodes: seq<Node>, t: string, id: nat)
    ensures t in IndexAll(nodes) && id in IndexAll(nodes)[t] <==> HasDynamic(nodes, t, id)
  {
    if nodes != [] {
      var m := |nodes| - 1;
      IndexMembers(nodes[..m], t, id);
      assert nodes == nodes[..m] + [nodes[m]];
      HasDynamicStep(nodes[..m], nodes[m], t, id);
    }
  }

  ghost predicate SameNodes(all: seq<Node>, listed: seq<Node>) {
    forall n :: n in all <==> n in listed
  }

  /** Distinct nodes, and an index built from the same nodes, in whatever order they were listed for it. */
  ghost predicate Indexed(cluster: ClusterNodesInfo) {
    && DistinctIds(cluster.allNodes)
    && exists listed :: SameNodes(cluster.allNodes, listed) && cluster.tenantToNodeIds == IndexAll(listed)
  }

  /** The tenant stage looks at each node's own tenant. */
  lemma OwnTenant(cluster: ClusterNodesInfo, selected: seq<string>, n: Node)
    requires Indexed(cluster) && n in cluster.allNodes && IsTenantNode(n)
    ensures InSelectedTenant(selected, cluster.tenantToNodeIds, n) <==> n.kind.tenant in selected
  {
    var all, index := cluster.allNodes, cluster.tenantToNodeIds;
    var listed: seq<Node> :| SameNodes(all, listed) && index == IndexAll(listed);
    if InSelectedTenant(selected, index, n) {
      var t :| t in selected && t in index && n.id in index[t];
      IndexMembers(listed, t, n.id);
      var i :| 0 <= i < |listed| && listed[i].kind == Dynamic(t) && listed[i].id == n.id;
      assert listed[i] in listed;
      SameIdSameNode(all, n, listed[i]);
    }
    if n.kind.tenant in selected {
      assert n in listed;
      var i :| 0 <= i < |listed| && listed[i] == n;
      IndexMembers(listed, n.kind.tenant, n.id);
    }
  }

  // ---------------------------------------------------------------------------
  // Selection is a predicate
  // ---------------------------------------------------------------------------

  /** Named on the command line by its datacenter, host, id or pod, or none of these lists names anything. */
  predicate Chosen(spec: FilterNodeParams, pods: Option<PodNames>, n: Node) {
    || (spec.selectedDatacenters == [] && spec.selectedHosts == [] && spec.selectedNodeIds == [])
    || n.datacenter in spec.selectedDatacenters || n.host in spec.selectedHosts || n.id in spec.selectedNodeIds
    || (pods.Some? && InPods(spec, pods.value, n))
  }

  predicate WantedStorage(spec: FilterNodeParams, pods: Option<PodNames>, n: Node) {
    n.kind.Storage? && n.id < spec.maxStaticNodeID && Chosen(spec, pods, n) && Passes(spec, n)
  }

  predicate WantedTenant(spec: FilterNodeParams, pods: Option<PodNames>, n: Node) {
    && n.kind.Dynamic? && Chosen(spec, pods, n)
    && (spec.selectedTenants == [] || n.kind.tenant in spec.selectedTenants)
    && Passes(spec, n)
  }

  /** The result has each node at most once, and exactly the wanted ones. */
  ghost predicate Selects(all: seq<Node>, result: seq<Node>, wanted: Node -> bool) {
    DistinctIds(result) && forall n :: n in result <==> n in all && wanted(n)
  }

  lemma ExcludeMembers(nodes: seq<Node>, spec: FilterNodeParams)
    requires DistinctIds(nodes)
    ensures DistinctIds(Exclude(nodes, spec))
    ensures forall n :: n in Exclude(nodes, spec) <==> n in nodes && Passes(spec, n)
  {
    FilterMembers(nodes, n => Passes(spec, n));
    FilterKeepsDistinct(nodes, n => Passes(spec, n));
  }

  lemma StorageMembers(all: seq<Node>, maxStaticNodeID: nat)
    requires DistinctIds(all)
    ensures DistinctIds(StorageNodes(all, maxStaticNodeID))
    ensures forall n :: n in StorageNodes(all, maxStaticNodeID) <==> n in all && IsStorageNode(n, maxStaticNodeID)
  {
    FilterMembers(all, n => IsStorageNode(n, maxStaticNodeID));
    FilterKeepsDistinct(all, n => IsStorageNode(n, maxStaticNodeID));
  }

  lemma TenantMembers(all: seq<Node>)
    requires DistinctIds(all)
    ensures DistinctIds(TenantNodes(all))
    ensures forall n :: n in TenantNodes(all) <==> n in all && IsTenantNode(n)
  {
    FilterMembers(all, IsTenantNode);
    FilterKeepsDistinct(all, IsTenantNode);
  }

  lemma ByTenantsMembers(nodes: seq<Node>, cluster: ClusterNodesInfo, selected: seq<string>)
    requires Indexed(cluster) && DistinctIds(nodes)
    requires forall n :: n in nodes ==> n in cluster.allNodes && IsTenantNode(n)
    ensures DistinctIds(ByTenants(nodes, selected, cluster.tenantToNodeIds))
    ensures forall n :: n in ByTenants(nodes, selected, cluster.tenantToNodeIds) <==>
      n in nodes && (selected == [] || (n.kind.Dynamic? && n.kind.tenant in selected))
  {
    if selected != [] {
      var keep := n => InSelectedTenant(selected, cluster.tenantToNodeIds, n);
      FilterMembers(nodes, keep);
      FilterKeepsDistinct(nodes, keep);
      forall n | n in nodes
        ensures keep(n) <==> n.kind.tenant in selected
      {
        OwnTenant(cluster, selected, n);
      }
    }
  }

  lemma StorageStages(spec: FilterNodeParams, all: seq<Node>, chosen: seq<Node>, pods: Option<PodNames>)
    requires DistinctIds(all) && DistinctIds(chosen)
    requires forall n :: n in chosen <==> n in StorageNodes(all, spec.maxStaticNodeID) && Chosen(spec, pods, n)
    ensures Selects(all, Exclude(chosen, spec), n => WantedStorage(spec, pods, n))
  {
    StorageMembers(all, spec.maxStaticNodeID);
    ExcludeMembers(chosen, spec);
  }

  lemma TenantStages(spec: FilterNodeParams, cluster: ClusterNodesInfo, chosen: seq<Node>, pods: Option<PodNames>)
    requires Indexed(cluster) && DistinctIds(chosen)
    requires forall n :: n in chosen <==> n in TenantNodes(cluster.allNodes) && Chosen(spec, pods, n)
    ensures var kept := ByTenants(chosen, spec.selectedTenants, cluster.tenantToNodeIds);
      Selects(cluster.allNodes, Exclude(kept, spec), n => WantedTenant(spec, pods, n))
  {
    TenantMembers(cluster.allNodes);
    ByTenantsMembers(chosen, cluster, spec.selectedTenants);
    ExcludeMembers(ByTenants(chosen, spec.selectedTenants, cluster.tenantToNodeIds), spec);
  }

  /** The SSH restarters, and so the run restarter in its two modes. */
  lemma {:induction false} SSHSelects(spec: FilterNodeParams, cluster: ClusterNodesInfo)
    requires DistinctIds(cluster.allNodes)
    ensures Selects(cluster.allNodes, StorageSSH(spec, cluster), n => WantedStorage(spec, None, n))
    ensures Indexed(cluster) ==> Selects(cluster.allNodes, TenantSSH(spec, cluster), n => WantedTenant(spec, None, n))
  {
    var storage, tenant := StorageNodes(cluster.allNodes, spec.maxStaticNodeID), TenantNodes(cluster.allNodes);
    StorageMembers(cluster.allNodes, spec.maxStaticNodeID);
    PopulateMembers(storage, spec);
    StorageStages(spec, cluster.allNodes, Populate(storage, spec), None);
    if Indexed(cluster) {
      TenantMembers(cluster.allNodes);
      PopulateMembers(tenant, spec);
      TenantStages(spec, cluster, Populate(tenant, spec), None);
    }
  }

  /** The Kubernetes restarters, for any map from hosts to pods. */
  lemma {:induction false} K8sSelects(spec: FilterNodeParams, cluster: ClusterNodesInfo, pods: PodNames)
    requires DistinctIds(cluster.allNodes)
    ensures Selects(cluster.allNodes, StorageK8s(spec, cluster, pods), n => WantedStorage(spec, Some(pods), n))
    ensures Indexed(cluster) ==>
      Selects(cluster.allNodes, TenantK8s(spec, cluster, pods), n => WantedTenant(spec, Some(pods), n))
  {
    var storage, tenant := StorageNodes(cluster.allNodes, spec.maxStaticNodeID), TenantNodes(cluster.allNodes);
    StorageMembers(cluster.allNodes, spec.maxStaticNodeID);
    WithPodsMembers(storage, spec, pods);
    StorageStages(spec, cluster.allNodes, WithPods(storage, spec, pods), Some(pods));
    if Indexed(cluster) {
      TenantMembers(cluster.allNodes);
      WithPodsMembers(tenant, spec, pods);
      TenantStages(spec, cluster, WithPods(tenant, spec, pods), Some(pods));
    }
  }

  // ---------------------------------------------------------------------------
  // When the pods make no difference
  // ---------------------------------------------------------------------------

  /** Every node that is named by its pod, and that the later stages keep, is included without it. */
  ghost predicate PodsNameNothingNew(nodes: seq<Node>, spec: FilterNodeParams, pods: PodNames, kept: Node -> bool) {
    Unspecified(spec) || forall n :: n in nodes && InPods(spec, pods, n) && kept(n) ==> Included(spec, n)
  }

  lemma {:induction false} PodsAddNothingIff(nodes: seq<Node>, spec: FilterNodeParams, pods: PodNames,
                                             kept: Node -> bool)
    requires DistinctIds(nodes)
    ensures Filter(WithPods(nodes, spec, pods), kept) == Filter(Populate(nodes, spec), kept)
      <==> PodsNameNothingNew(nodes, spec, pods, kept)
  {
    if PodsNameNothingNew(nodes, spec, pods, kept) {
      NothingNamedByPods(nodes, spec, pods, kept);
    } else {
      var n :| n in nodes && InPods(spec, pods, n) && kept(n) && !Included(spec, n);
      PopulateMembers(nodes, spec);
      WithPodsMembers(nodes, spec, pods);
      FilterMembers(Populate(nodes, spec), kept);
      FilterMembers(WithPods(nodes, spec, pods), kept);
      assert n in Filter(WithPods(nodes, spec, pods), kept) && n !in Filter(Populate(nodes, spec), kept);
    }
  }

  lemma NothingNamedByPods(nodes: seq<Node>, spec: FilterNodeParams, pods: PodNames, kept: Node -> bool)
    requires DistinctIds(nodes) && PodsNameNothingNew(nodes, spec, pods, kept)
    ensures Filter(WithPods(nodes, spec, pods), kept) == Filter(Populate(nodes, spec), kept)
  {
    var populated, byPods := Populate(nodes, spec), K8sRules(nodes, spec, pods);
    PopulateMembers(nodes, spec);
    ByPodsMembers(nodes, spec.selectedHosts, pods);
    forall n | n in byPods
      ensures HasId(populated, n.id) || !kept(n)
    {
      if kept(n) {
        var i :| 0 <= i < |populated| && populated[i] == n;
      }
    }
    MergedThenFiltered(populated, byPods, kept);
  }

  /** What the tenant and exclude stages keep. */
  predicate KeptTenant(spec: FilterNodeParams, index: TenantIndex, n: Node) {
    (spec.selectedTenants == [] || InSelectedTenant(spec.selectedTenants, index, n)) && Passes(spec, n)
  }

  lemma LaterTenantStages(nodes: seq<Node>, spec: FilterNodeParams, index: TenantIndex)
    ensures Exclude(ByTenants(nodes, spec.selectedTenants, index), spec) ==
      Filter(nodes, n => KeptTenant(spec, index, n))
  {
    var kept := n => KeptTenant(spec, index, n);
    if spec.selectedTenants == [] {
      FilterAgrees(nodes, n => Passes(spec, n), kept);
    } else {
      FilterTwice(nodes, n => InSelectedTenant(spec.selectedTenants, index, n), n => Passes(spec, n), kept);
    }
  }

  /**
   For any map of pods and any tenant index, a Kubernetes pipeline returns the SSH sequence, order included,
   exactly when no node is selected by its pod alone.
   */
  lemma {:induction false} PipelinesAgreeIff(spec: FilterNodeParams, cluster: ClusterNodesInfo, pods: PodNames)
    requires DistinctIds(cluster.allNodes)
    ensures StorageK8s(spec, cluster, pods) == StorageSSH(spec, cluster)
      <==> PodsNameNothingNew(StorageNodes(cluster.allNodes, spec.maxStaticNodeID), spec, pods, n => Passes(spec, n))
    ensures TenantK8s(spec, cluster, pods) == TenantSSH(spec, cluster)
      <==> PodsNameNothingNew(TenantNodes(cluster.allNodes), spec, pods,
        n => KeptTenant(spec, cluster.tenantToNodeIds, n))
  {
    var storage, tenant := StorageNodes(cluster.allNodes, spec.maxStaticNodeID), TenantNodes(cluster.allNodes);
    StorageMembers(cluster.allNodes, spec.maxStaticNodeID);
    PodsAddNothingIff(storage, spec, pods, n => Passes(spec, n));
    TenantMembers(cluster.allNodes);
    LaterTenantStages(WithPods(tenant, spec, pods), spec, cluster.tenantToNodeIds);
    LaterTenantStages(Populate(tenant, spec), spec, cluster.tenantToNodeIds);
    PodsAddNothingIff(tenant, spec, pods, n => KeptTenant(spec, cluster.tenantToNodeIds, n));
  }

  /** In particular without known pods, as long as no selected host is the empty string. */
  lemma {:induction false} PipelinesAgree(spec: FilterNodeParams, cluster: ClusterNodesInfo)
    requires DistinctIds(cluster.allNodes) && "" !in spec.selectedHosts
    ensures StorageK8s(spec, cluster, map[]) == StorageSSH(spec, cluster)
    ensures TenantK8s(spec, cluster, map[]) == TenantSSH(spec, cluster)
  {
    PipelinesAgreeIff(spec, cluster, map[]);
    assert forall n :: !InPods(spec, map[], n);
  }

  /** An empty selected host names every node whose host has no known pod. */
  lemma {:induction false} EmptyHostSelectsAll(spec: FilterNodeParams, cluster: ClusterNodesInfo, n: Node)
    requires DistinctIds(cluster.allNodes) && "" in spec.selectedHosts
    ensures n in StorageK8s(spec, cluster, map[]) <==>
      n in cluster.allNodes && IsStorageNode(n, spec.maxStaticNodeID) && Passes(spec, n)
  {
    K8sSelects(spec, cluster, map[]);
    assert InPods(spec, map[], n);
    var wanted := (m: Node) => WantedStorage(spec, Some(map[]), m);
    assert wanted(n) <==> IsStorageNode(n, spec.maxStaticNodeID) && Passes(spec, n);
  }

  // ---------------------------------------------------------------------------
  // Versions
  // ---------------------------------------------------------------------------

  /** The numbers of one version come before those of another. */
  predicate Earlier(a: (nat, nat, nat), b: (nat, nat, nat)) {
    a.0 < b.0 || (a.0 == b.0 && (a.1 < b.1 || (a.1 == b.1 && a.2 < b.2)))
  }

  /** The signs compare numbers in lexicographic order; a version without numbers satisfies none of them. */
  lemma NumbersAreOrdered(numbers: (nat, nat, nat), v: NodeVersion)
    ensures Satisfies(MajorMinorPatch(Less, numbers), v) <==> v.parsed.Some? && Earlier(v.parsed.value, numbers)
    ensures Satisfies(MajorMinorPatch(Greater, numbers), v) <==> v.parsed.Some? && Earlier(numbers, v.parsed.value)
    ensures Satisfies(MajorMinorPatch(Equal, numbers), v) <==> v.parsed == Some(numbers)
    ensures Satisfies(MajorMinorPatch(NotEqual, numbers), v) <==> v.parsed.Some? && v.parsed.value != numbers
    ensures !Satisfies(MajorMinorPatch(OtherSign, numbers), v)
  {
  }

  /** Any other version is compared as text, and only for being equal or not. */
  lemma TextIsCompared(sign: Sign, raw: string, v: NodeVersion)
    ensures Satisfies(RawVersion(sign, raw), v) <==>
      (sign == Equal && v.raw == raw) || (sign == NotEqual && v.raw != raw)
  {
  }

  // ---------------------------------------------------------------------------
  // Start times
  // ---------------------------------------------------------------------------

  /** A node that started is selected by bounds on the far side of its start, but for the zero time of Go. */
  lemma StartIsCompared(n: Node, t: StartedTime)
    requires n.startTime.Some?
    ensures SatisfiesStartingTime(n, Some(t)) <==>
      && n.startTime.value != -62_135_596_800
      && if t.before then n.startTime.value < t.timestamp else t.timestamp < n.startTime.value
    ensures SatisfiesStartingTime(n, None)
  {
  }

  /**
   A node without a start time is not recognised by the test for the zero time: it counts as started in 1970.
   It is selected exactly by bounds on the far side of 1970, such as "before second one".
   */
  lemma MissingStartTimeIs1970(n: Node, t: StartedTime)
    requires n.startTime == None
    ensures SatisfiesStartingTime(n, Some(t)) <==> if t.before then t.timestamp > 0 else t.timestamp < 0
    ensures SatisfiesStartingTime(n, Some(StartedTime(1, true)))
  {
  }

  // ---------------------------------------------------------------------------
  // Targets are known, active nodes
  // ---------------------------------------------------------------------------

  function NodeId(n: Node): nat {
    n.id
  }

  /** state.nodes and state.inactiveNodes */
  function ActiveNodes(listing: seq<Node>): map<nat, Node> {
    LastByKey(ActiveOnly(listing), NodeId)
  }

  function InactiveNodes(listing: seq<Node>): map<nat, Node> {
    LastByKey(Filter(listing, (n: Node) => !n.up), NodeId)
  }

  lemma ActiveMembers(listing: seq<Node>)
    requires DistinctIds(listing)
    ensures forall id :: id in ActiveNodes(listing) ==>
      var n := ActiveNodes(listing)[id]; n in listing && n.up && n.id == id
    ensures forall id :: id in ActiveNodes(listing) ==> id !in InactiveNodes(listing)
    ensures forall n :: n in listing && n.up ==> n.id in ActiveNodes(listing)
  {
    var up, down := (n: Node) => n.up, (n: Node) => !n.up;
    FilterMembers(listing, up);
    FilterMembers(listing, down);
    LastByKeyMembers(Filter(listing, up), NodeId);
    LastByKeyMembers(Filter(listing, down), NodeId);
    forall id | id in ActiveNodes(listing) && id in InactiveNodes(listing)
      ensures false
    {
      SameIdSameNode(listing, ActiveNodes(listing)[id], InactiveNodes(listing)[id]);
    }
  }

  /** The nodes that prepareState keeps, and the index it builds from them. */
  function ActiveOnly(listing: seq<Node>): seq<Node> {
    Filter(listing, (n: Node) => n.up)
  }

  /** What DoRestart gives to the restarter: the values of the map, and the index in listing order. */
  function ClusterOf(listing: seq<Node>, values: seq<Node>): ClusterNodesInfo {
    ClusterNodesInfo(values, IndexAll(ActiveOnly(listing)))
  }

  lemma ValuesAreActive(listing: seq<Node>, keys: seq<nat>, values: seq<Node>)
    requires DistinctIds(listing) && ListsValues(ActiveNodes(listing), keys, values)
    ensures DistinctIds(values) && SameNodes(values, ActiveOnly(listing))
    ensures forall n :: n in values <==> n in listing && n.up
    ensures Indexed(ClusterOf(listing, values))
  {
    var nodes := ActiveNodes(listing);
    ActiveMembers(listing);
    FilterMembers(listing, (n: Node) => n.up);
    forall n | n in listing && n.up
      ensures n in values
    {
      SameIdSameNode(listing, nodes[n.id], n);
    }
  }

  /**
   The targets are exactly the active nodes of the listing that are wanted, once each; they are found in state.nodes
   under their ids, and none is inactive, so the count of targets to be left out because they are down is zero.
   */
  ghost predicate Targets(listing: seq<Node>, targets: seq<Node>, wanted: Node -> bool) {
    && DistinctIds(targets)
    && (forall n :: n in targets <==> n in listing && n.up && wanted(n))
    && forall n :: n in targets ==>
         n.id in ActiveNodes(listing) && ActiveNodes(listing)[n.id] == n && n.id !in InactiveNodes(listing)
  }

  lemma SelectedAreTargets(listing: seq<Node>, keys: seq<nat>, values: seq<Node>, targets: seq<Node>,
                           wanted: Node -> bool)
    requires DistinctIds(listing) && ListsValues(ActiveNodes(listing), keys, values) && Selects(values, targets, wanted)
    ensures Targets(listing, targets, wanted)
  {
    ActiveMembers(listing);
    ValuesAreActive(listing, keys, values);
  }

  /**
   From the listing of nodes to the targets, for every restarter and however the map of active nodes is enumerated.
   */
  lemma {:induction false} TargetsAreActive(listing: seq<Node>, keys: seq<nat>, values: seq<Node>,
                                            spec: FilterNodeParams, pods: PodNames)
    requires DistinctIds(listing) && ListsValues(ActiveNodes(listing), keys, values)
    ensures var cluster := ClusterOf(listing, values);
      && Targets(listing, StorageSSH(spec, cluster), n => WantedStorage(spec, None, n))
      && Targets(listing, TenantSSH(spec, cluster), n => WantedTenant(spec, None, n))
      && Targets(listing, StorageK8s(spec, cluster, pods), n => WantedStorage(spec, Some(pods), n))
      && Targets(listing, TenantK8s(spec, cluster, pods), n => WantedTenant(spec, Some(pods), n))
  {
    var cluster := ClusterOf(listing, values);
    ValuesAreActive(listing, keys, values);
    SSHSelects(spec, cluster);
    K8sSelects(spec, cluster, pods);
    SelectedAreTargets(listing, keys, values, StorageSSH(spec, cluster), n => WantedStorage(spec, None, n));
    SelectedAreTargets(listing, keys, values, TenantSSH(spec, cluster), n => WantedTenant(spec, None, n));
    SelectedAreTargets(listing, keys, values, StorageK8s(spec, cluster, pods), n => WantedStorage(spec, Some(pods), n));
    SelectedAreTargets(listing, keys, values, TenantK8s(spec, cluster, pods), n => WantedTenant(spec, Some(pods), n));
  }

  // ---------------------------------------------------------------------------
  // Excluding
  // ---------------------------------------------------------------------------

  /** The later filters: each of them can only remove nodes, and together they remove what one of them removes. */
  lemma PassesIff(spec: FilterNodeParams, n: Node)
    ensures Passes(spec, n) <==>
      && (forall h :: h in spec.excludeHosts ==> h != n.host && h != Itoa(n.id))
      && SatisfiesStartingTime(n, spec.startedTime)
      && forall v :: spec.version == Some(v) ==> n.version.raw != "" && Satisfies(v, n.version)
  {
  }

  /** The number that a string of decimal digits stands for. */
  function Decimal(digits: string): int {
    if digits == [] then 0 else Decimal(digits[..|digits| - 1]) * 10 + (digits[|digits| - 1] as int - '0' as int)
  }

  /** Ids are printed in decimal, without leading zeros. */
  lemma {:induction false} ItoaIsDecimal(n: nat)
    ensures Itoa(n) != [] && Decimal(Itoa(n)) == n
    ensures forall c :: c in Itoa(n) ==> '0' <= c <= '9'
    ensures n > 0 ==> Itoa(n)[0] != '0'
  {
    if n >= 10 {
      ItoaIsDecimal(n / 10);
      assert Itoa(n)[..|Itoa(n)| - 1] == Itoa(n / 10);
    } else {
      assert Itoa(n)[..0] == [];
    }
  }

  lemma ItoaInjective(m: nat, n: nat)
    requires Itoa(m) == Itoa(n)
    ensures m == n
  {
    ItoaIsDecimal(m);
    ItoaIsDecimal(n);
  }

  /** Numbers given as excluded hosts exclude the nodes with these ids, and no node with another id. */
  lemma ExcludedByNumber(ids: seq<nat>, n: Node)
    ensures Itoa(n.id) in seq(|ids|, i requires 0 <= i < |ids| => Itoa(ids[i])) <==> n.id in ids
  {
    var names := seq(|ids|, i requires 0 <= i < |ids| => Itoa(ids[i]));
    if Itoa(n.id) in names {
      var i :| 0 <= i < |names| && names[i] == Itoa(n.id);
      ItoaInjective(n.id, ids[i]);
    }
    if n.id in ids {
      var i :| 0 <= i < |ids| && ids[i] == n.id;
      assert names[i] == Itoa(n.id);
    }
  }
}
