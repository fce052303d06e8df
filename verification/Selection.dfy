/** Which nodes each restarter selects. */
module Selection {
  import opened Wrappers
  import opened Collections

  datatype Kind = Storage | Dynamic(tenant: string) | Untyped

  /** A version string and, if it matches a known pattern, its numbers. */
  datatype NodeVersion = NodeVersion(raw: string, parsed: Option<(nat, nat, nat)>)

  /** startTime in seconds since 1970; None is a missing timestamp. */
  datatype Node = Node(
    id: nat,
    host: string,
    datacenter: string,
    kind: Kind,
    up: bool,
    startTime: Option<int>,
    version: NodeVersion)

  datatype Sign = Equal | NotEqual | Less | Greater | OtherSign

  datatype VersionSpec = MajorMinorPatch(sign: Sign, numbers: (nat, nat, nat)) | RawVersion(sign: Sign, raw: string)

  datatype StartedTime = StartedTime(timestamp: int, before: bool)

  datatype FilterNodeParams = FilterNodeParams(
    version: Option<VersionSpec>,
    startedTime: Option<StartedTime>,
    excludeHosts: seq<string>,
    selectedTenants: seq<string>,
    selectedNodeIds: seq<nat>,
    selectedHosts: seq<string>,
    selectedDatacenters: seq<string>,
    maxStaticNodeID: nat)

  type TenantIndex = map<string, seq<nat>>

  datatype ClusterNodesInfo = ClusterNodesInfo(allNodes: seq<Node>, tenantToNodeIds: TenantIndex)

  type PodNames = map<string, string>

  ghost predicate DistinctIds(nodes: seq<Node>) {
    forall i, j :: 0 <= i < j < |nodes| ==> nodes[i].id != nodes[j].id
  }

  // ---------------------------------------------------------------------------
  // Tests on a single node
  // ---------------------------------------------------------------------------

  predicate IsStorageNode(n: Node, maxStaticNodeID: nat) {
    n.kind.Storage? && n.id < maxStaticNodeID
  }

  predicate IsTenantNode(n: Node) {
    n.kind.Dynamic?
  }

  /** strconv.Itoa */
  function Itoa(n: nat): string {
    if n < 10 then [Digit(n)] else Itoa(n / 10) + [Digit(n % 10)]
  }

  function Digit(n: nat): char
    requires n < 10
  {
    '0' + n as char
  }

  /** The zero time of Go, January 1 of year 1; a missing timestamp is not zero but 1970. */
  const ZERO_TIME: int := -62_135_596_800

  predicate SatisfiesStartingTime(n: Node, startedTime: Option<StartedTime>) {
    match startedTime
    case None => true
    case Some(t) =>
      var started := if n.startTime.Some? then n.startTime.value else 0;
      started != ZERO_TIME && if t.before then t.timestamp > started else t.timestamp < started
  }

  function Compare(a: (nat, nat, nat), b: (nat, nat, nat)): int {
    if a.0 != b.0 then (if a.0 < b.0 then -1 else 1)
    else if a.1 != b.1 then (if a.1 < b.1 then -1 else 1)
    else if a.2 != b.2 then (if a.2 < b.2 then -1 else 1)
    else 0
  }

  predicate Satisfies(spec: VersionSpec, v: NodeVersion) {
    match spec
    case MajorMinorPatch(sign, numbers) =>
      v.parsed.Some? &&
      (var order := Compare(v.parsed.value, numbers);
       match sign
       case Equal => order == 0
       case NotEqual => order != 0
       case Less => order == -1
       case Greater => order == 1
       case OtherSign => false)
    case RawVersion(sign, raw) =>
      (sign == Equal && v.raw == raw) || (sign == NotEqual && v.raw != raw)
  }

  /** Not excluded, started at the right time, and of the right version. */
  predicate Passes(spec: FilterNodeParams, n: Node) {
    && Itoa(n.id) !in spec.excludeHosts
    && n.host !in spec.excludeHosts
    && SatisfiesStartingTime(n, spec.startedTime)
    && (spec.version.Some? ==> n.version.raw != "" && Satisfies(spec.version.value, n.version))
  }

  predicate Unspecified(spec: FilterNodeParams) {
    spec.selectedDatacenters == [] && spec.selectedHosts == [] && spec.selectedNodeIds == []
  }

  predicate Included(spec: FilterNodeParams, n: Node) {
    n.datacenter in spec.selectedDatacenters || n.host in spec.selectedHosts || n.id in spec.selectedNodeIds
  }

  /** The pod of a node; the empty name if its host is unknown. */
  function PodOf(pods: PodNames, n: Node): string {
    if n.host in pods then pods[n.host] else ""
  }

  // ---------------------------------------------------------------------------
  // The filter stages
  // ---------------------------------------------------------------------------

  predicate HasId(nodes: seq<Node>, id: nat) {
    exists i :: 0 <= i < |nodes| && nodes[i].id == id
  }

  /** The first node with each id. */
  function Unique(nodes: seq<Node>): seq<Node> {
    if nodes == [] then []
    else
      var earlier, last := nodes[..|nodes| - 1], nodes[|nodes| - 1];
      Unique(earlier) + if HasId(earlier, last.id) then [] else [last]
  }

  lemma UniqueNext(before: seq<Node>, arg: seq<Node>, j: nat)
    requires j < |arg|
    ensures Unique(before + arg[..j + 1])
      == Unique(before + arg[..j]) + if HasId(before + arg[..j], arg[j].id) then [] else [arg[j]]
    ensures forall id :: HasId(before + arg[..j + 1], id) <==> HasId(before + arg[..j], id) || id == arg[j].id
  {
    assert before + arg[..j + 1] == before + arg[..j] + [arg[j]];
    UniqueOneMore(before + arg[..j], arg[j]);
  }

  lemma UniqueOneMore(nodes: seq<Node>, n: Node)
    ensures Unique(nodes + [n]) == Unique(nodes) + if HasId(nodes, n.id) then [] else [n]
    ensures forall id :: HasId(nodes + [n], id) <==> HasId(nodes, id) || id == n.id
  {
    assert (nodes + [n])[..|nodes|] == nodes;
    forall id
      ensures HasId(nodes + [n], id) <==> HasId(nodes, id) || id == n.id
    {
      if HasId(nodes, id) {
        var i :| 0 <= i < |nodes| && nodes[i].id == id;
        assert (nodes + [n])[i].id == id;
      } else if id == n.id {
        assert (nodes + [n])[|nodes|].id == id;
      }
    }
  }

  function StorageNodes(nodes: seq<Node>, maxStaticNodeID: nat): seq<Node> {
    Filter(nodes, n => IsStorageNode(n, maxStaticNodeID))
  }

  function TenantNodes(nodes: seq<Node>): seq<Node> {
    Filter(nodes, IsTenantNode)
  }

  function Include(nodes: seq<Node>, spec: FilterNodeParams): seq<Node> {
    Unique(Filter(nodes, (n: Node) => n.datacenter in spec.selectedDatacenters)
           + Filter(nodes, (n: Node) => n.host in spec.selectedHosts)
           + Filter(nodes, (n: Node) => n.id in spec.selectedNodeIds))
  }

  function Populate(nodes: seq<Node>, spec: FilterNodeParams): seq<Node> {
    if Unspecified(spec) then nodes else Include(nodes, spec)
  }

  function Exclude(nodes: seq<Node>, spec: FilterNodeParams): seq<Node> {
    Filter(nodes, n => Passes(spec, n))
  }

  /** Some selected tenant lists the node in the index. */
  predicate InSelectedTenant(selected: seq<string>, index: TenantIndex, n: Node) {
    exists t :: t in selected && t in index && n.id in index[t]
  }

  function ByTenants(nodes: seq<Node>, selected: seq<string>, index: TenantIndex): seq<Node> {
    if selected == [] then nodes else Filter(nodes, n => InSelectedTenant(selected, index, n))
  }

  function IndexOne(index: TenantIndex, n: Node): TenantIndex {
    match n.kind
    case Dynamic(tenant) => index[tenant := (if tenant in index then index[tenant] else []) + [n.id]]
    case _ => index
  }

  function IndexAll(nodes: seq<Node>): TenantIndex {
    if nodes == [] then map[] else IndexOne(IndexAll(nodes[..|nodes| - 1]), nodes[|nodes| - 1])
  }

  /** A node is added once per selected host that names its pod. */
  function Repeat(n: Node, times: nat): seq<Node> {
    seq(times, _ => n)
  }

  function ByPods(nodes: seq<Node>, hosts: seq<string>, pods: PodNames): seq<Node> {
    if nodes == [] then []
    else
      var last := nodes[|nodes| - 1];
      ByPods(nodes[..|nodes| - 1], hosts, pods) + Repeat(last, multiset(hosts)[PodOf(pods, last)])
  }

  function K8sRules(nodes: seq<Node>, spec: FilterNodeParams, pods: PodNames): seq<Node> {
    if Unspecified(spec) then nodes else ByPods(nodes, spec.selectedHosts, pods)
  }

  // ---------------------------------------------------------------------------
  // The restarters
  // ---------------------------------------------------------------------------

  function StorageSSH(spec: FilterNodeParams, cluster: ClusterNodesInfo): seq<Node> {
    Exclude(Populate(StorageNodes(cluster.allNodes, spec.maxStaticNodeID), spec), spec)
  }

  function TenantSSH(spec: FilterNodeParams, cluster: ClusterNodesInfo): seq<Node> {
    var named := Populate(TenantNodes(cluster.allNodes), spec);
    Exclude(ByTenants(named, spec.selectedTenants, cluster.tenantToNodeIds), spec)
  }

  function WithPods(nodes: seq<Node>, spec: FilterNodeParams, pods: PodNames): seq<Node> {
    Unique(Populate(nodes, spec) + K8sRules(nodes, spec, pods))
  }

  function StorageK8s(spec: FilterNodeParams, cluster: ClusterNodesInfo, pods: PodNames): seq<Node> {
    Exclude(WithPods(StorageNodes(cluster.allNodes, spec.maxStaticNodeID), spec, pods), spec)
  }

  function TenantK8s(spec: FilterNodeParams, cluster: ClusterNodesInfo, pods: PodNames): seq<Node> {
    var named := WithPods(TenantNodes(cluster.allNodes), spec, pods);
    Exclude(ByTenants(named, spec.selectedTenants, cluster.tenantToNodeIds), spec)
  }
}
