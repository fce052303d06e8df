/** The filter stages and the restarters' Filter methods, step by step. */
module Restarters {
  import opened Wrappers
  import opened Collections
  import opened Selection
  import opened SelectionTheorems

  method MergeAndUnique(nodeSlices: seq<seq<Node>>) returns (result: seq<Node>)
    ensures result == Unique(Concat(nodeSlices))
    ensures DistinctIds(result) && forall id :: HasId(result, id) <==> HasId(Concat(nodeSlices), id)
  {
    var presentNodes: set<nat> := {};
    result := [];
    for i := 0 to |nodeSlices|
      invariant result == Unique(Concat(nodeSlices[..i]))
      invariant forall id :: id in presentNodes <==> HasId(Concat(nodeSlices[..i]), id)
    {
      var arg := nodeSlices[i];
      ghost var before := Concat(nodeSlices[..i]);
      assert nodeSlices[..i + 1][..i] == nodeSlices[..i];
      assert before + arg[..0] == before;
      for j := 0 to |arg|
        invariant result == Unique(before + arg[..j])
        invariant forall id :: id in presentNodes <==> HasId(before + arg[..j], id)
      {
        UniqueNext(before, arg, j);
        if arg[j].id !in presentNodes {
          result := result + [arg[j]];
          presentNodes := presentNodes + {arg[j].id};
        }
      }
      assert arg[..|arg|] == arg;
    }
    assert nodeSlices[..|nodeSlices|] == nodeSlices;
    UniqueMembers(Concat(nodeSlices));
  }

  method FilterStorageNodes(nodes: seq<Node>, maxStaticNodeID: nat) returns (result: seq<Node>)
    ensures result == StorageNodes(nodes, maxStaticNodeID)
    ensures forall n :: n in result <==> n in nodes && n.kind.Storage? && n.id < maxStaticNodeID
  {
    result := FilterBy(nodes, n => IsStorageNode(n, maxStaticNodeID));
  }

  method FilterTenantNodes(nodes: seq<Node>) returns (result: seq<Node>)
    ensures result == TenantNodes(nodes)
    ensures forall n :: n in result <==> n in nodes && n.kind.Dynamic?
  {
    result := FilterBy(nodes, IsTenantNode);
  }

  method IncludeByFilterNodeParams(nodes: seq<Node>, spec: FilterNodeParams) returns (selected: seq<Node>)
    ensures selected == Include(nodes, spec)
    ensures DistinctIds(nodes) ==>
      DistinctIds(selected) && forall n :: n in selected <==> n in nodes && Included(spec, n)
    ensures DistinctIds(nodes) ==> selected == NamedInOrder(nodes, spec)
  {
    var byDatacenter := FilterBy(nodes, (n: Node) => n.datacenter in spec.selectedDatacenters);
    var byHost := FilterBy(nodes, (n: Node) => n.host in spec.selectedHosts);
    var byId := FilterBy(nodes, (n: Node) => n.id in spec.selectedNodeIds);
    selected := byDatacenter + byHost + byId;
    ConcatOne(selected);
    selected := MergeAndUnique([selected]);
    if DistinctIds(nodes) {
      IncludeMembers(nodes, spec);
      IncludeOrder(nodes, spec);
    }
  }

  method PopulateByCommonFields(nodes: seq<Node>, spec: FilterNodeParams) returns (result: seq<Node>)
    ensures result == Populate(nodes, spec)
    ensures spec.selectedDatacenters == [] && spec.selectedHosts == [] && spec.selectedNodeIds == [] ==>
      result == nodes
    ensures spec.selectedDatacenters != [] || spec.selectedHosts != [] || spec.selectedNodeIds != [] ==>
      forall n :: n in result ==>
        n.datacenter in spec.selectedDatacenters || n.host in spec.selectedHosts || n.id in spec.selectedNodeIds
    ensures DistinctIds(nodes) ==> Selects(nodes, result, n => Chosen(spec, None, n))
  {
    if Unspecified(spec) {
      return nodes;
    }
    result := IncludeByFilterNodeParams(nodes, spec);
    IncludedAreNamed(nodes, spec);
  }

  method ExcludeByCommonFields(nodes: seq<Node>, spec: FilterNodeParams) returns (filtered: seq<Node>)
    ensures filtered == Exclude(nodes, spec)
    ensures forall n :: n in filtered <==> n in nodes && Passes(spec, n)
  {
    FilterMembers(nodes, n => Passes(spec, n));
    filtered := [];
    for i := 0 to |nodes|
      invariant filtered == Exclude(nodes[..i], spec)
    {
      assert nodes[..i + 1][..i] == nodes[..i];
      var node := nodes[i];
      var excluded := Contains(spec.excludeHosts, Itoa(node.id));
      if excluded {
        continue;
      }
      excluded := Contains(spec.excludeHosts, node.host);
      if excluded {
        continue;
      }
      if !SatisfiesStartingTime(node, spec.startedTime) {
        continue;
      }
      if spec.version.Some? {
        if node.version.raw == "" {
          continue;
        }
        if !Satisfies(spec.version.value, node.version) {
          continue;
        }
      }
      filtered := filtered + [node];
    }
    assert nodes[..|nodes|] == nodes;
  }

  method BelongsToTenant(selected: seq<string>, index: TenantIndex, node: Node) returns (found: bool)
    ensures found <==> InSelectedTenant(selected, index, node)
  {
    for j := 0 to |selected|
      invariant !InSelectedTenant(selected[..j], index, node)
    {
      var ids := if selected[j] in index then index[selected[j]] else [];
      found := Contains(ids, node.id);
      if found {
        assert selected[j] in selected;
        return true;
      }
    }
    assert selected[..|selected|] == selected;
    return false;
  }

  method ExcludeByTenantNames(nodes: seq<Node>, selected: seq<string>, index: TenantIndex) returns (result: seq<Node>)
    ensures result == ByTenants(nodes, selected, index)
    ensures forall n :: n in result <==> n in nodes && (selected == [] || InSelectedTenant(selected, index, n))
  {
    if |selected| == 0 {
      return nodes;
    }
    FilterMembers(nodes, n => InSelectedTenant(selected, index, n));
    result := [];
    for i := 0 to |nodes|
      invariant result == ByTenants(nodes[..i], selected, index)
    {
      assert nodes[..i + 1][..i] == nodes[..i];
      var keep := BelongsToTenant(selected, index, nodes[i]);
      if keep {
        result := result + [nodes[i]];
      }
    }
    assert nodes[..|nodes|] == nodes;
  }

  method PopulateTenantToNodesMapping(nodes: seq<Node>) returns (index: TenantIndex)
    ensures index == IndexAll(nodes)
    ensures forall t, id :: t in index && id in index[t] <==> HasDynamic(nodes, t, id)
  {
    index := map[];
    for i := 0 to |nodes|
      invariant index == IndexAll(nodes[..i])
    {
      assert nodes[..i + 1][..i] == nodes[..i];
      if nodes[i].kind.Dynamic? {
        var tenant := nodes[i].kind.tenant;
        index := index[tenant := (if tenant in index then index[tenant] else []) + [nodes[i].id]];
      }
    }
    assert nodes[..|nodes|] == nodes;
    forall t, id
      ensures t in index && id in index[t] <==> HasDynamic(nodes, t, id)
    {
      IndexMembers(nodes, t, id);
    }
  }

  lemma NamedOnceMore(node: Node, hosts: seq<string>, j: nat, pod: string)
    requires j < |hosts|
    ensures Repeat(node, multiset(hosts[..j + 1])[pod])
      == Repeat(node, multiset(hosts[..j])[pod]) + if hosts[j] == pod then [node] else []
  {
    assert hosts[..j + 1] == hosts[..j] + [hosts[j]];
  }

  method PopulateWithK8sRules(nodes: seq<Node>, spec: FilterNodeParams, pods: PodNames) returns (selected: seq<Node>)
    ensures selected == K8sRules(nodes, spec, pods)
    ensures spec.selectedDatacenters == [] && spec.selectedHosts == [] && spec.selectedNodeIds == [] ==>
      selected == nodes
    ensures spec.selectedDatacenters != [] || spec.selectedHosts != [] || spec.selectedNodeIds != [] ==>
      forall n :: n in selected <==> n in nodes && InPods(spec, pods, n)
  {
    if Unspecified(spec) {
      return nodes;
    }
    ByPodsMembers(nodes, spec.selectedHosts, pods);
    selected := [];
    var hosts := spec.selectedHosts;
    for i := 0 to |nodes|
      invariant selected == ByPods(nodes[..i], hosts, pods)
    {
      assert nodes[..i + 1][..i] == nodes[..i];
      var node, pod := nodes[i], PodOf(pods, nodes[i]);
      ghost var before := selected;
      for j := 0 to |hosts|
        invariant selected == before + Repeat(node, multiset(hosts[..j])[pod])
      {
        NamedOnceMore(node, hosts, j, pod);
        if hosts[j] == pod {
          selected := selected + [node];
        }
      }
      assert hosts[..|hosts|] == hosts;
    }
    assert nodes[..|nodes|] == nodes;
  }

  method StorageSSHFilter(spec: FilterNodeParams, cluster: ClusterNodesInfo) returns (filteredNodes: seq<Node>)
    ensures filteredNodes == StorageSSH(spec, cluster)
    ensures DistinctIds(cluster.allNodes) ==>
      Selects(cluster.allNodes, filteredNodes, n => WantedStorage(spec, None, n))
  {
    if DistinctIds(cluster.allNodes) {
      SSHSelects(spec, cluster);
    }
    var storageNodes := FilterStorageNodes(cluster.allNodes, spec.maxStaticNodeID);
    var preSelectedNodes := PopulateByCommonFields(storageNodes, spec);
    filteredNodes := ExcludeByCommonFields(preSelectedNodes, spec);
  }

  method TenantSSHFilter(spec: FilterNodeParams, cluster: ClusterNodesInfo) returns (filteredNodes: seq<Node>)
    ensures filteredNodes == TenantSSH(spec, cluster)
    ensures Indexed(cluster) ==> Selects(cluster.allNodes, filteredNodes, n => WantedTenant(spec, None, n))
  {
    if DistinctIds(cluster.allNodes) {
      SSHSelects(spec, cluster);
    }
    var tenantNodes := FilterTenantNodes(cluster.allNodes);
    var preSelectedNodes := PopulateByCommonFields(tenantNodes, spec);
    preSelectedNodes := ExcludeByTenantNames(preSelectedNodes, spec.selectedTenants, cluster.tenantToNodeIds);
    filteredNodes := ExcludeByCommonFields(preSelectedNodes, spec);
  }

  method ApplyStorageK8sFilteringRules(spec: FilterNodeParams, cluster: ClusterNodesInfo, pods: PodNames)
    returns (filteredNodes: seq<Node>)
    ensures filteredNodes == StorageK8s(spec, cluster, pods)
    ensures DistinctIds(cluster.allNodes) ==>
      Selects(cluster.allNodes, filteredNodes, n => WantedStorage(spec, Some(pods), n))
  {
    if DistinctIds(cluster.allNodes) {
      K8sSelects(spec, cluster, pods);
    }
    var allStorageNodes := FilterStorageNodes(cluster.allNodes, spec.maxStaticNodeID);
    var selectedByCMSNodes := PopulateByCommonFields(allStorageNodes, spec);
    var selectedByK8sNodes := PopulateWithK8sRules(allStorageNodes, spec, pods);
    ConcatTwo(selectedByCMSNodes, selectedByK8sNodes);
    var selectedNodes := MergeAndUnique([selectedByCMSNodes, selectedByK8sNodes]);
    filteredNodes := ExcludeByCommonFields(selectedNodes, spec);
  }

  method ApplyTenantK8sFilteringRules(spec: FilterNodeParams, cluster: ClusterNodesInfo, pods: PodNames)
    returns (filteredNodes: seq<Node>)
    ensures filteredNodes == TenantK8s(spec, cluster, pods)
    ensures Indexed(cluster) ==> Selects(cluster.allNodes, filteredNodes, n => WantedTenant(spec, Some(pods), n))
  {
    if DistinctIds(cluster.allNodes) {
      K8sSelects(spec, cluster, pods);
    }
    var tenantNodes := FilterTenantNodes(cluster.allNodes);
    var selectedByCMSNodes := PopulateByCommonFields(tenantNodes, spec);
    var selectedByK8sNodes := PopulateWithK8sRules(tenantNodes, spec, pods);
    ConcatTwo(selectedByCMSNodes, selectedByK8sNodes);
    var selectedNodes := MergeAndUnique([selectedByCMSNodes, selectedByK8sNodes]);
    var filteredByTenantNodes := ExcludeByTenantNames(selectedNodes, spec.selectedTenants, cluster.tenantToNodeIds);
    filteredNodes := ExcludeByCommonFields(filteredByTenantNodes, spec);
  }

  class RunRestarter {
    var storageOnly: bool
    var dynnodeOnly: bool

    constructor ()
      ensures !storageOnly && !dynnodeOnly
    {
      storageOnly, dynnodeOnly := false, false;
    }

    method SetStorageOnly()
      modifies this
      ensures storageOnly && !dynnodeOnly
    {
      storageOnly, dynnodeOnly := true, false;
    }

    method SetDynnodeOnly()
      modifies this
      ensures dynnodeOnly && !storageOnly
    {
      storageOnly, dynnodeOnly := false, true;
    }

    /** In storage mode it selects what the SSH storage restarter does, in dynnode mode what the tenant one does. */
    method Filter(spec: FilterNodeParams, cluster: ClusterNodesInfo) returns (filteredNodes: seq<Node>)
      ensures storageOnly ==> filteredNodes == StorageSSH(spec, cluster)
      ensures !storageOnly && dynnodeOnly ==> filteredNodes == TenantSSH(spec, cluster)
      ensures !storageOnly && !dynnodeOnly ==> filteredNodes == []
      ensures storageOnly && DistinctIds(cluster.allNodes) ==>
        Selects(cluster.allNodes, filteredNodes, n => WantedStorage(spec, None, n))
      ensures !storageOnly && dynnodeOnly && Indexed(cluster) ==>
        Selects(cluster.allNodes, filteredNodes, n => WantedTenant(spec, None, n))
    {
      if DistinctIds(cluster.allNodes) {
        SSHSelects(spec, cluster);
      }
      var runScopeNodes := [];
      if storageOnly {
        var storageNodes := FilterStorageNodes(cluster.allNodes, spec.maxStaticNodeID);
        runScopeNodes := PopulateByCommonFields(storageNodes, spec);
      } else if dynnodeOnly {
        var tenantNodes := FilterTenantNodes(cluster.allNodes);
        var preSelectedNodes := PopulateByCommonFields(tenantNodes, spec);
        runScopeNodes := ExcludeByTenantNames(preSelectedNodes, spec.selectedTenants, cluster.tenantToNodeIds);
      }
      filteredNodes := ExcludeByCommonFields(runScopeNodes, spec);
    }
  }
}
