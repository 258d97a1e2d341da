/** What an ownership assessment says, as sets: the graph built from a snapshot
    and its ownership evidence, the claims laid over it, and the decision made
    about each physical device. */
module Ownership {
  import opened Text
  import opened Inventory
  import opened Canonical
  import opened IssueOrder
  import opened Backing

  datatype Use =
    | Held | Mounted | Root | Boot | Home | Swap | Lvm | Raid
    | Zfs | Configured | Guest | BlockHandle | FileHandle

  datatype NodeKind =
    | BlockDevice | LvmPv | LvmVg | LvmLv | MdArray | ZfsPool | ZfsVdev | ProxmoxStorage | ProxmoxGuest

  /** `facts` lists names and values in the order of the names. */
  datatype NodeRecord = NodeRecord(key: Key, kind: NodeKind, facts: seq<(string, string)>, complete: bool)

  datatype NamespaceMount = NamespaceMount(namespaceId: string, mount: MountEvidence)

  datatype Edge = Edge(consumer: Key, provider: Key, relation: string, source: string)

  datatype Claim = Claim(consumer: Key, use: Use, source: string, detail: string)

  datatype FreshState =
    | Unavailable | NoSignature | Filesystem | Membership | Unsupported
    | PermissionDenied | ReadFailed | Vanished | Conflicting

  datatype Fresh = Fresh(state: FreshState, signature: string, detail: string)

  datatype Evidence = Evidence(
    nodes: seq<NodeRecord>,
    edges: seq<Edge>,
    claims: seq<Claim>,
    issues: seq<Reason>,
    signatures: map<Key, Fresh>,
    namespaceMounts: seq<NamespaceMount>,
    inactiveLoops: seq<Key>,
    gaps: map<string, seq<Reason>>,
    coverage: map<string, bool>)

  datatype AssessmentScope = AllPhysical | Disks

  datatype PhysicalOwner = PhysicalOwner(node: Key, id: Option<DriveId>, scope: IdentityScope)

  datatype OwnershipTrace = OwnershipTrace(owners: seq<PhysicalOwner>, complete: bool, reasons: seq<Reason>)

  datatype Decision = Decision(id: Option<DriveId>, status: DriveStatus, reasons: seq<Reason>)

  /** Records the source keeps in key order are maps here. */
  datatype Assessment = Assessment(
    coverage: map<string, bool>,
    gaps: map<string, seq<Reason>>,
    signatures: map<Key, Fresh>,
    namespaceMounts: seq<NamespaceMount>,
    nodes: map<Key, NodeRecord>,
    edges: seq<Edge>,
    claims: seq<Claim>,
    traces: map<Key, OwnershipTrace>,
    devices: map<Key, Decision>,
    issues: seq<Reason>)

  // Sort keys

  function CodeRank(c: Code): int {
    match c
    case ChecksComplete => 0 case IdentityUnavailable => 1 case PathUnavailable => 2 case ReadOnly => 3
    case Mount => 4 case SystemRoot => 5 case BootFilesystem => 6 case HomeFilesystem => 7
    case ActiveSwap => 8 case Holder => 9 case LvmMember => 10 case RaidMember => 11 case ZfsMember => 12
    case ConfiguredStorage => 13 case GuestAssignment => 14 case OpenBlockHandle => 15 case OpenFileHandle => 16
    case MissingSource => 17 case MissingRelationship => 18 case AsymmetricRelationship => 19
    case DuplicateNode => 20 case Cycle => 21 case UnsupportedTopology => 22 case ConflictingEvidence => 23
    case SnapshotChanged => 24 case IncompleteCoverage => 25 case SignatureUnavailable => 26 case NamespaceScope => 27
  }

  function UseRank(u: Use): int {
    match u
    case Held => 0 case Mounted => 1 case Root => 2 case Boot => 3 case Home => 4 case Swap => 5 case Lvm => 6
    case Raid => 7 case Zfs => 8 case Configured => 9 case Guest => 10 case BlockHandle => 11 case FileHandle => 12
  }

  function ReasonKey(r: Reason): seq<int> {
    [CodeRank(r.code)] + (Bytes(r.node) + (Bytes(r.source) + Bytes(r.detail)))
  }

  function EdgeKey(e: Edge): seq<int> {
    Bytes(e.consumer) + (Bytes(e.provider) + (Bytes(e.relation) + Bytes(e.source)))
  }

  function ClaimKey(c: Claim): seq<int> {
    Bytes(c.consumer) + ([UseRank(c.use)] + (Bytes(c.source) + Bytes(c.detail)))
  }

  function KindRank(k: NodeKind): int {
    match k
    case BlockDevice => 0 case LvmPv => 1 case LvmVg => 2 case LvmLv => 3 case MdArray => 4
    case ZfsPool => 5 case ZfsVdev => 6 case ProxmoxStorage => 7 case ProxmoxGuest => 8
  }

  function FactsKey(facts: seq<(string, string)>): seq<int> {
    if facts == [] then [0] else [1] + (Bytes(facts[0].0) + (Bytes(facts[0].1) + FactsKey(facts[1..])))
  }

  function RecordKey(r: NodeRecord): seq<int> {
    Bytes(r.key) + ([KindRank(r.kind)] + (FactsKey(r.facts) + [if r.complete then 1 else 0]))
  }

  function MountKey(m: MountEvidence): seq<int> {
    [m.mountId] + ([m.device.major] + ([m.device.minor] +
      (Bytes(m.root) + (Bytes(m.mountPoint) + (Bytes(m.filesystem) + (Bytes(m.source) + NameKey(m.node)))))))
  }

  function NamespaceMountKey(n: NamespaceMount): seq<int> {
    Bytes(n.namespaceId) + MountKey(n.mount)
  }

  lemma PairFree(s: string, t: string, x: string, y: string)
    requires Bytes(s) + Bytes(t) == Bytes(x) + Bytes(y)
    ensures s == x && t == y
  {
    BytesPrefixFree(s, x, Bytes(t), Bytes(y));
    BytesInjective();
  }

  lemma CodeRankInjective(a: Code, b: Code)
    requires CodeRank(a) == CodeRank(b)
    ensures a == b
  {
  }

  lemma ReasonKeyInjective()
    ensures Injective(ReasonKey)
  {
    hide CodeRank;
    forall a, b | ReasonKey(a) == ReasonKey(b) ensures a == b {
      var x, y := Bytes(a.source) + Bytes(a.detail), Bytes(b.source) + Bytes(b.detail);
      HeadFree(CodeRank(a.code), CodeRank(b.code), Bytes(a.node) + x, Bytes(b.node) + y);
      BytesPrefixFree(a.node, b.node, x, y);
      hide Bytes;
      CodeRankInjective(a.code, b.code);
      PairFree(a.source, a.detail, b.source, b.detail);
    }
  }

  lemma UseRankInjective(a: Use, b: Use)
    requires UseRank(a) == UseRank(b)
    ensures a == b
  {
  }

  lemma ClaimKeyInjective()
    ensures Injective(ClaimKey)
  {
    hide UseRank;
    forall a, b | ClaimKey(a) == ClaimKey(b) ensures a == b {
      var x, y := Bytes(a.source) + Bytes(a.detail), Bytes(b.source) + Bytes(b.detail);
      BytesPrefixFree(a.consumer, b.consumer, [UseRank(a.use)] + x, [UseRank(b.use)] + y);
      HeadFree(UseRank(a.use), UseRank(b.use), x, y);
      UseRankInjective(a.use, b.use);
      hide Bytes;
      PairFree(a.source, a.detail, b.source, b.detail);
    }
  }

  lemma KindRankInjective(a: NodeKind, b: NodeKind)
    requires KindRank(a) == KindRank(b)
    ensures a == b
  {
  }

  lemma FactsHead(facts: seq<(string, string)>, x: seq<int>)
    ensures FactsKey(facts) + x ==
      if facts == [] then [0] + x else [1] + (Bytes(facts[0].0) + (Bytes(facts[0].1) + (FactsKey(facts[1..]) + x)))
  {
    hide Bytes;
    if facts != [] {
      var a, b, c := Bytes(facts[0].0), Bytes(facts[0].1), FactsKey(facts[1..]);
      assert [1] + (a + (b + c)) + x == [1] + (a + (b + (c + x)));
    }
  }

  lemma {:induction false} FactsFree(a: seq<(string, string)>, b: seq<(string, string)>, x: seq<int>, y: seq<int>)
    requires FactsKey(a) + x == FactsKey(b) + y
    ensures a == b && x == y
  {
    hide FactsKey, Bytes;
    FactsHead(a, x);
    FactsHead(b, y);
    if a != [] && b != [] {
      var p, q := FactsKey(a[1..]) + x, FactsKey(b[1..]) + y;
      HeadFree(1, 1, Bytes(a[0].0) + (Bytes(a[0].1) + p), Bytes(b[0].0) + (Bytes(b[0].1) + q));
      BytesPrefixFree(a[0].0, b[0].0, Bytes(a[0].1) + p, Bytes(b[0].1) + q);
      BytesPrefixFree(a[0].1, b[0].1, p, q);
      FactsFree(a[1..], b[1..], x, y);
      assert a == [a[0]] + a[1..] && b == [b[0]] + b[1..];
    } else if a == [] && b == [] {
      HeadFree(0, 0, x, y);
    } else if a == [] {
      HeadFree(0, 1, x, Bytes(b[0].0) + (Bytes(b[0].1) + (FactsKey(b[1..]) + y)));
    } else {
      HeadFree(1, 0, Bytes(a[0].0) + (Bytes(a[0].1) + (FactsKey(a[1..]) + x)), y);
    }
  }

  lemma RecordKeyInjective()
    ensures Injective(RecordKey)
  {
    hide KindRank, FactsKey, Bytes;
    forall a, b | RecordKey(a) == RecordKey(b) ensures a == b {
      var x, y := FactsKey(a.facts) + [if a.complete then 1 else 0], FactsKey(b.facts) + [if b.complete then 1 else 0];
      BytesPrefixFree(a.key, b.key, [KindRank(a.kind)] + x, [KindRank(b.kind)] + y);
      HeadFree(KindRank(a.kind), KindRank(b.kind), x, y);
      KindRankInjective(a.kind, b.kind);
      FactsFree(a.facts, b.facts, [if a.complete then 1 else 0], [if b.complete then 1 else 0]);
    }
  }

  lemma MountKeyFree(a: MountEvidence, b: MountEvidence)
    requires MountKey(a) == MountKey(b)
    ensures a == b
  {
    hide Bytes, NameKey;
    var s, t := Bytes(a.source) + NameKey(a.node), Bytes(b.source) + NameKey(b.node);
    var p, q := Bytes(a.root) + (Bytes(a.mountPoint) + (Bytes(a.filesystem) + s)), Bytes(b.root) + (Bytes(b.mountPoint) + (Bytes(b.filesystem) + t));
    HeadFree(a.mountId, b.mountId, [a.device.major] + ([a.device.minor] + p), [b.device.major] + ([b.device.minor] + q));
    HeadFree(a.device.major, b.device.major, [a.device.minor] + p, [b.device.minor] + q);
    HeadFree(a.device.minor, b.device.minor, p, q);
    BytesPrefixFree(a.root, b.root, Bytes(a.mountPoint) + (Bytes(a.filesystem) + s), Bytes(b.mountPoint) + (Bytes(b.filesystem) + t));
    BytesPrefixFree(a.mountPoint, b.mountPoint, Bytes(a.filesystem) + s, Bytes(b.filesystem) + t);
    BytesPrefixFree(a.filesystem, b.filesystem, s, t);
    BytesPrefixFree(a.source, b.source, NameKey(a.node), NameKey(b.node));
    assert NameKey(a.node) + [] == NameKey(a.node) && NameKey(b.node) + [] == NameKey(b.node);
    NameKeyFree(a.node, b.node, [], []);
  }

  lemma NamespaceMountKeyInjective()
    ensures Injective(NamespaceMountKey)
  {
    hide MountKey, Bytes;
    forall a, b | NamespaceMountKey(a) == NamespaceMountKey(b) ensures a == b {
      BytesPrefixFree(a.namespaceId, b.namespaceId, MountKey(a.mount), MountKey(b.mount));
      MountKeyFree(a.mount, b.mount);
    }
  }

  lemma EdgeKeyInjective()
    ensures Injective(EdgeKey)
  {
    forall a, b | EdgeKey(a) == EdgeKey(b) ensures a == b {
      var x, y := Bytes(a.relation) + Bytes(a.source), Bytes(b.relation) + Bytes(b.source);
      BytesPrefixFree(a.consumer, b.consumer, Bytes(a.provider) + x, Bytes(b.provider) + y);
      BytesPrefixFree(a.provider, b.provider, x, y);
      hide Bytes;
      PairFree(a.relation, a.source, b.relation, b.source);
    }
  }

  // Claims and mounts

  function ClaimReason(c: Claim): Reason {
    var code := match c.use
      case Held => Holder
      case Mounted => Mount
      case Root => SystemRoot
      case Boot => BootFilesystem
      case Home => HomeFilesystem
      case Swap => ActiveSwap
      case Lvm => LvmMember
      case Raid => RaidMember
      case Zfs => ZfsMember
      case Configured => ConfiguredStorage
      case Guest => GuestAssignment
      case BlockHandle => OpenBlockHandle
      case FileHandle => OpenFileHandle;
    Reason(code, c.consumer, c.source, c.detail)
  }

  predicate Protects(u: Use) {
    u != Held && u != BlockHandle && u != FileHandle
  }

  function BlockKey(name: string): Key {
    "block:" + name
  }

  const KERNEL_FILESYSTEMS: set<string> := {
    "proc", "sysfs", "devtmpfs", "devpts", "tmpfs", "ramfs", "cgroup", "cgroup2",
    "securityfs", "debugfs", "tracefs", "configfs", "pstore", "efivarfs", "hugetlbfs",
    "mqueue", "bpf", "fusectl", "binfmt_misc", "rpc_pipefs", "autofs"
  }

  predicate PmxcfsMount(m: MountEvidence) {
    m.device.major == 0 && m.filesystem == "fuse" && m.source == "/dev/fuse"
    && m.mountPoint == "/etc/pve" && m.root == "/"
  }

  predicate HarmlessMount(m: MountEvidence) {
    PmxcfsMount(m)
    || (m.device.major == 0
        && ((m.filesystem == "fuse.lxcfs" && m.source == "lxcfs")
            || (!("/dev/" <= m.source) && m.filesystem in KERNEL_FILESYSTEMS)))
  }

  predicate SignatureComplete(f: Fresh) {
    f.state == NoSignature || f.state == Filesystem || f.state == Membership
  }

  function MountUse(m: MountEvidence): Use {
    if m.mountPoint == "/" then Root
    else if m.mountPoint == "/boot" || "/boot/" <= m.mountPoint then Boot
    else if m.mountPoint == "/home" || "/home/" <= m.mountPoint then Home
    else Mounted
  }

  function MountSource(m: MountEvidence): string {
    "mountinfo:" + Decimal(m.mountId)
  }

  function MountClaim(m: MountEvidence): Claim
    requires m.node.Some?
  {
    Claim(BlockKey(m.node.value), MountUse(m), MountSource(m), m.mountPoint)
  }

  function SwapClaim(s: SwapEvidence): Claim
    requires s.node.Some?
  {
    Claim(BlockKey(s.node.value), Swap, "swaps", s.path)
  }

  function FreshClaim(k: Key, f: Fresh): Claim {
    Claim(k,
          if f.signature == "LVM2_member" then Lvm else if f.signature == "zfs_member" then Zfs else Raid,
          "libblkid:fresh",
          "membership: " + f.signature)
  }

  // The graph

  /** The first inventory node of each key. */
  function Blocks(nodes: seq<ResolvedNode>): map<Key, ResolvedNode> {
    if nodes == [] then map[]
    else
      var rest := Blocks(nodes[..|nodes| - 1]);
      var b := nodes[|nodes| - 1];
      var k := BlockKey(b.observation.kernelName);
      if k in rest then rest else rest[k := b]
  }

  function BlockRecord(b: ResolvedNode): NodeRecord {
    NodeRecord(BlockKey(b.observation.kernelName), BlockDevice, [("kernel_name", b.observation.kernelName)], true)
  }

  function BlockRecords(nodes: seq<ResolvedNode>): seq<NodeRecord> {
    seq(|nodes|, i requires 0 <= i < |nodes| => BlockRecord(nodes[i]))
  }

  function Records(inv: Snapshot, ev: Evidence): seq<NodeRecord> {
    ev.nodes + BlockRecords(inv.nodes)
  }

  ghost function Keys(records: multiset<NodeRecord>): set<Key> {
    set r | r in records :: r.key
  }

  /** Two records, equal or not, carry the key. */
  ghost predicate Duplicated(records: multiset<NodeRecord>, k: Key) {
    exists r :: r in records && r.key == k && (records[r] >= 2 || exists s :: s in records && s != r && s.key == k)
  }

  ghost predicate DeclaredComplete(records: multiset<NodeRecord>, k: Key) {
    forall r :: r in records && r.key == k ==> r.complete
  }

  function DuplicateIssue(k: Key): Reason {
    Reason(DuplicateNode, k, "graph", "duplicate key")
  }

  predicate IsPartition(b: ResolvedNode) {
    b.observation.nodeType == PartitionNode
  }

  function ParentKey(b: ResolvedNode): Key {
    BlockKey(b.observation.parentName.GetOr(""))
  }

  predicate CleanRelations(b: ResolvedNode) {
    forall i :: 0 <= i < |b.observation.issues| ==>
      b.observation.issues[i].code != InvalidRelationship && b.observation.issues[i].code != DeviceDisappeared
  }

  /** The partition's parent disk lists it exactly once and nothing disputes the link. */
  predicate Reciprocal(blocks: map<Key, ResolvedNode>, b: ResolvedNode) {
    && CleanRelations(b)
    && b.observation.partitionNumber.Some?
    && ParentKey(b) in blocks
    && blocks[ParentKey(b)].observation.nodeType == WholeDisk
    && multiset(blocks[ParentKey(b)].observation.childNames)[b.observation.kernelName] == 1
  }

  function PartitionEdge(k: Key, b: ResolvedNode): Edge {
    Edge(k, ParentKey(b), "partition-of", "0.3.0A")
  }

  function PartitionIssue(k: Key): Reason {
    Reason(MissingRelationship, k, "inventory", "parent not reciprocal")
  }

  function PartitionEdges(blocks: map<Key, ResolvedNode>): set<Edge> {
    set k | k in blocks && IsPartition(blocks[k]) && Reciprocal(blocks, blocks[k]) :: PartitionEdge(k, blocks[k])
  }

  function PartitionIssues(blocks: map<Key, ResolvedNode>): set<Reason> {
    set k | k in blocks && IsPartition(blocks[k]) && !Reciprocal(blocks, blocks[k]) :: PartitionIssue(k)
  }

  ghost function Edges(inv: Snapshot, ev: Evidence): set<Edge> {
    Elements(ev.edges) + PartitionEdges(Blocks(inv.nodes))
  }

  predicate Dangling(keys: set<Key>, e: Edge) {
    e.consumer !in keys || e.provider !in keys
  }

  function DanglingIssue(e: Edge): Reason {
    Reason(MissingRelationship, e.consumer, e.source, "missing endpoint: " + e.provider)
  }

  predicate IsPhysical(b: ResolvedNode) {
    b.observation.nodeType == WholeDisk && b.observation.kind != VirtualOrPseudo
  }

  function BackedEndpointIssue(k: Key): Reason {
    Reason(ConflictingEvidence, k, "graph", "backed endpoint")
  }

  ghost function ProviderSet(edges: set<Edge>, k: Key): set<Key> {
    set e | e in edges && e.consumer == k :: e.provider
  }

  /** Every structural issue: reported, or raised while the graph is built. */
  ghost function IssuesOf(blocks: map<Key, ResolvedNode>, records: multiset<NodeRecord>, edges: set<Edge>,
                          reported: set<Reason>): set<Reason> {
    reported
    + (set k | k in Keys(records) && Duplicated(records, k) :: DuplicateIssue(k))
    + PartitionIssues(blocks)
    + (set e | e in edges && Dangling(Keys(records), e) :: DanglingIssue(e))
    + (set k | k in blocks && IsPhysical(blocks[k]) && ProviderSet(edges, k) != {} :: BackedEndpointIssue(k))
  }

  ghost function Issues(inv: Snapshot, ev: Evidence): set<Reason> {
    IssuesOf(Blocks(inv.nodes), multiset(Records(inv, ev)), Edges(inv, ev), Elements(ev.issues))
  }

  /** A node is complete when its records say so, no edge to it starts nowhere,
      and no issue names it. */
  ghost predicate NodeComplete(records: multiset<NodeRecord>, edges: set<Edge>, issues: set<Reason>, k: Key) {
    && DeclaredComplete(records, k)
    && (forall e :: e in edges && e.provider == k ==> !Dangling(Keys(records), e))
    && (forall r :: r in issues ==> r.node != k)
  }

  function EndpointOf(b: ResolvedNode): Endpoint {
    Endpoint(b.identity.id, b.identity.scope, b.identity.state == Resolved, b.currentPath.Some?)
  }

  function Physical(blocks: map<Key, ResolvedNode>): map<Key, Endpoint> {
    map k | k in blocks && IsPhysical(blocks[k]) :: EndpointOf(blocks[k])
  }

  ghost function AscendingKeys(s: set<Key>): (r: seq<Key>)
    ensures Ascending(r, Bytes) && Elements(r) == s
  {
    AscendingExists(s);
    var r :| Ascending(r, Bytes) && Elements(r) == s;
    r
  }

  lemma {:induction false} AscendingExists(s: set<Key>)
    ensures exists r :: Ascending(r, Bytes) && Elements(r) == s
  {
    if s == {} {
      assert Ascending<Key>([], Bytes) && Elements<Key>([]) == {};
    } else {
      var x :| x in s;
      AscendingExists(s - {x});
      var r :| Ascending(r, Bytes) && Elements(r) == s - {x};
      InsertKey(x, r);
      assert Elements(Insert(x, r, Bytes)) == s;
    }
  }

  ghost function GraphOf(blocks: map<Key, ResolvedNode>, records: multiset<NodeRecord>, edges: set<Edge>,
                         issues: set<Reason>): Graph {
    Graph(
      map k | k in Keys(records) :: NodeComplete(records, edges, issues, k),
      map k | k in (set e | e in edges :: e.consumer) :: AscendingKeys(ProviderSet(edges, k)),
      Physical(blocks),
      issues)
  }

  ghost function OwnershipGraph(inv: Snapshot, ev: Evidence): Graph {
    GraphOf(Blocks(inv.nodes), multiset(Records(inv, ev)), Edges(inv, ev), Issues(inv, ev))
  }

  ghost function Traces(g: Graph): map<Key, Walk> {
    map k | k in g.nodes :: Trace(g, k)
  }

  // Claims laid over the graph

  function FreshClaims(blocks: map<Key, ResolvedNode>, signatures: map<Key, Fresh>): set<Claim> {
    set k | k in signatures && k in blocks && signatures[k].state == Membership :: FreshClaim(k, signatures[k])
  }

  function MountClaims(mounts: seq<MountEvidence>): set<Claim> {
    set i | 0 <= i < |mounts| && mounts[i].node.Some? :: MountClaim(mounts[i])
  }

  function SwapClaims(swaps: seq<SwapEvidence>): set<Claim> {
    set i | 0 <= i < |swaps| && swaps[i].node.Some? :: SwapClaim(swaps[i])
  }

  /** Reported claims and those read from fresh signatures, before mounts are added. */
  ghost function InitialClaims(inv: Snapshot, ev: Evidence): set<Claim> {
    Elements(ev.claims) + FreshClaims(Blocks(inv.nodes), ev.signatures)
  }

  ghost function Claims(inv: Snapshot, ev: Evidence): set<Claim> {
    InitialClaims(inv, ev) + MountClaims(inv.mounts) + SwapClaims(inv.swaps)
  }

  /** Row `i` is accounted for by a claim reported under its mount id, or by an
      earlier attributed row with the same id. */
  ghost predicate MountCovered(inv: Snapshot, ev: Evidence, i: nat)
    requires i < |inv.mounts|
  {
    || (exists c :: c in InitialClaims(inv, ev) && c.source == MountSource(inv.mounts[i]))
    || (exists j :: 0 <= j < i && inv.mounts[j].node.Some? && MountSource(inv.mounts[j]) == MountSource(inv.mounts[i]))
  }

  /** Some use of the host could not be attributed to any device. */
  ghost predicate UnknownUsage(inv: Snapshot, ev: Evidence, traces: map<Key, Walk>) {
    || (exists k :: k in traces && !traces[k].structural && k !in ev.inactiveLoops)
    || (exists i :: 0 <= i < |inv.mounts| && inv.mounts[i].node.None?
                    && !MountCovered(inv, ev, i) && !HarmlessMount(inv.mounts[i]))
    || (exists i :: 0 <= i < |inv.swaps| && inv.swaps[i].node.None?)
    || (exists c :: c in Claims(inv, ev) && (c.consumer !in traces || !traces[c.consumer].structural))
  }

  // Per-device decisions

  /** The node's backing is completely known and does not include `owner`. */
  predicate Separate(traces: map<Key, Walk>, node: Key, owner: Key) {
    node in traces && traces[node].structural && traces[node].owners != {} && owner !in traces[node].owners
  }

  /** The consumer's failures that may concern `owner`. */
  function OwnerReasons(traces: map<Key, Walk>, consumer: Key, owner: Key): set<Reason>
    requires consumer in traces
  {
    set r | r in traces[consumer].reasons && !Separate(traces, r.node, owner)
  }

  predicate Owns(traces: map<Key, Walk>, consumer: Key, owner: Key) {
    consumer in traces && owner in traces[consumer].owners
  }

  ghost predicate Incomplete(traces: map<Key, Walk>, owner: Key) {
    exists k :: Owns(traces, k, owner) && OwnerReasons(traces, k, owner) != {}
  }

  ghost predicate ProtectedUse(claims: set<Claim>, traces: map<Key, Walk>, owner: Key) {
    exists c :: c in claims && Protects(c.use) && Owns(traces, c.consumer, owner)
  }

  ghost predicate BusyUse(claims: set<Claim>, traces: map<Key, Walk>, owner: Key) {
    exists c :: c in claims && !Protects(c.use) && Owns(traces, c.consumer, owner)
  }

  predicate Disturbed(f: Fresh) {
    f.state == Vanished || f.state == Conflicting
  }

  ghost predicate FreshConflict(signatures: map<Key, Fresh>, traces: map<Key, Walk>, owner: Key) {
    exists k :: k in signatures && Disturbed(signatures[k]) && Owns(traces, k, owner)
  }

  ghost predicate LocalUnknown(signatures: map<Key, Fresh>, traces: map<Key, Walk>, d: Key)
    requires d in traces
  {
    Incomplete(traces, d) || traces[d].reasons != {} || FreshConflict(signatures, traces, d)
  }

  const REQUIRED_SOURCES: set<string> := {"sysfs", "zfs", "proxmox", "processes", "inactive_membership"}

  function Coverage(inv: Snapshot, ev: Evidence): map<string, bool> {
    var reported := ev.coverage["mountinfo" := inv.mountinfoComplete]["swaps" := inv.swapsComplete];
    (map s | s in REQUIRED_SOURCES :: false) + reported
  }

  predicate HostCoverage(coverage: map<string, bool>, gaps: map<string, seq<Reason>>) {
    forall s :: s in coverage ==>
      s == "inactive_membership" || coverage[s] || (s in gaps && gaps[s] != [])
  }

  ghost function ScopedGaps(gaps: map<string, seq<Reason>>, traces: map<Key, Walk>, d: Key): set<Reason> {
    set s, r | s in gaps && r in gaps[s] && !Separate(traces, r.node, d) :: r
  }

  predicate Superseded(signatures: map<Key, Fresh>, issue: DiscoveryIssue) {
    issue.field == "signature" && issue.code == MissingEvidence
    && BlockKey(issue.node) in signatures && SignatureComplete(signatures[BlockKey(issue.node)])
  }

  predicate HarmlessMountIssue(inv: Snapshot, issue: DiscoveryIssue) {
    && issue.code == UncorrelatedUsage && issue.field == "mountinfo" && issue.node == ""
    && issue.nativeError.None? && issue.mountId.Some?
    && exists i :: 0 <= i < |inv.mounts| && SoleHarmlessMount(inv, i, issue.mountId.value)
  }

  predicate SoleHarmlessMount(inv: Snapshot, i: nat, id: nat)
    requires i < |inv.mounts|
  {
    && inv.mounts[i].mountId == id && inv.mounts[i].node.None? && HarmlessMount(inv.mounts[i])
    && (forall j :: 0 <= j < |inv.mounts| && j != i ==> inv.mounts[j].mountId != id)
    && (forall j :: 0 <= j < |inv.nodes| ==> inv.nodes[j].observation.deviceNumber != Some(inv.mounts[i].device))
  }

  ghost predicate CoverageComplete(inv: Snapshot, ev: Evidence, issues: set<Reason>, traces: map<Key, Walk>, d: Key) {
    && HostCoverage(Coverage(inv, ev), ev.gaps)
    && ScopedGaps(ev.gaps, traces, d) == {}
    && (forall r :: r in issues && r.source != "inactive_membership" ==> Separate(traces, r.node, d))
    && (forall i :: 0 <= i < |inv.inventoryIssues| ==>
          inv.inventoryIssues[i].kernelName.Some?
          && Separate(traces, BlockKey(inv.inventoryIssues[i].kernelName.value), d))
    && (forall i :: 0 <= i < |inv.issues| ==>
          HarmlessMountIssue(inv, inv.issues[i]) || Superseded(ev.signatures, inv.issues[i])
          || Separate(traces, BlockKey(inv.issues[i].node), d))
  }

  predicate SettledIssues(signatures: map<Key, Fresh>, b: ResolvedNode) {
    forall i :: 0 <= i < |b.issues| ==> Superseded(signatures, b.issues[i])
  }

  /** A block carries fresh evidence of no membership and no unsettled observation. */
  predicate FreshlyClear(signatures: map<Key, Fresh>, k: Key, b: ResolvedNode) {
    && k in signatures && SignatureComplete(signatures[k]) && signatures[k].state != Membership
    && b.observation.issues == [] && SettledIssues(signatures, b)
  }

  ghost predicate SignaturesComplete(blocks: map<Key, ResolvedNode>, signatures: map<Key, Fresh>,
                                     traces: map<Key, Walk>, d: Key) {
    forall k :: k in blocks && Owns(traces, k, d) ==> FreshlyClear(signatures, k, blocks[k])
  }

  predicate CleanDevice(signatures: map<Key, Fresh>, b: ResolvedNode) {
    SettledIssues(signatures, b) && b.observation.capacityBytes.GetOr(0) > 0 && b.observation.readOnly == Some(false)
  }

  /** What READY needs once no local doubt and no use is known. */
  datatype Checks = Checks(coverage: bool, attributed: bool, signatures: bool, clean: bool, scope: IdentityScope)
  {
    predicate Pass() {
      coverage && attributed && signatures && clean && scope == WholeDevice
    }
  }

  ghost function ChecksOf(inv: Snapshot, ev: Evidence, issues: set<Reason>, traces: map<Key, Walk>, d: Key): Checks
    requires d in Blocks(inv.nodes)
  {
    var blocks := Blocks(inv.nodes);
    Checks(CoverageComplete(inv, ev, issues, traces, d),
           !UnknownUsage(inv, ev, traces),
           SignaturesComplete(blocks, ev.signatures, traces, d),
           CleanDevice(ev.signatures, blocks[d]),
           blocks[d].identity.scope)
  }

  /** The order in which findings settle a device. */
  function Verdict(doubt: bool, protectedUse: bool, busyUse: bool, checks: bool): DriveStatus {
    if doubt then Unknown
    else if protectedUse then Protected
    else if busyUse then Busy
    else if checks then Ready
    else Unknown
  }

  ghost function StatusOf(inv: Snapshot, ev: Evidence, issues: set<Reason>, traces: map<Key, Walk>, d: Key): DriveStatus
    requires d in traces && d in Blocks(inv.nodes)
  {
    Verdict(LocalUnknown(ev.signatures, traces, d),
            ProtectedUse(Claims(inv, ev), traces, d) || Blocks(inv.nodes)[d].observation.readOnly == Some(true),
            BusyUse(Claims(inv, ev), traces, d),
            ChecksOf(inv, ev, issues, traces, d).Pass())
  }

  // Reasons attached to a decision

  ghost function Attributed(claims: set<Claim>, traces: map<Key, Walk>, d: Key): set<Reason> {
    (set k, r | k in traces && d in traces[k].owners && r in OwnerReasons(traces, k, d) :: r)
    + (set c | c in claims && Owns(traces, c.consumer, d) :: ClaimReason(c))
  }

  function ConflictReason(k: Key, f: Fresh): Reason {
    Reason(ConflictingEvidence, k, "libblkid:fresh", f.detail)
  }

  ghost function ConflictReasons(signatures: map<Key, Fresh>, traces: map<Key, Walk>, d: Key): set<Reason> {
    set k | k in signatures && Disturbed(signatures[k]) && Owns(traces, k, d) :: ConflictReason(k, signatures[k])
  }

  function FreshStateName(s: FreshState): string {
    match s
    case Unavailable => "Unavailable"
    case NoSignature => "None"
    case Filesystem => "Filesystem"
    case Membership => "Membership"
    case Unsupported => "Unsupported"
    case PermissionDenied => "PermissionDenied"
    case ReadFailed => "ReadFailure"
    case Vanished => "Disappeared"
    case Conflicting => "Conflicting"
  }

  function ChildSignatureReason(k: Key, f: Fresh): Reason {
    Reason(SignatureUnavailable, k, "libblkid:fresh", FreshStateName(f.state) + ": " + f.detail)
  }

  ghost function ChildSignatureReasons(blocks: map<Key, ResolvedNode>, signatures: map<Key, Fresh>,
                                       traces: map<Key, Walk>, d: Key): set<Reason> {
    set k | k in blocks && Owns(traces, k, d) && k in signatures && !SignatureComplete(signatures[k])
      :: ChildSignatureReason(k, signatures[k])
  }

  function ReadOnlyReason(d: Key): Reason {
    Reason(ReadOnly, d, "sysfs", "read-only")
  }

  function CoverageReason(d: Key): Reason {
    Reason(IncompleteCoverage, d, "host", "host coverage")
  }

  function SignatureReason(d: Key): Reason {
    Reason(SignatureUnavailable, d, "signature", "descendants")
  }

  function CleanReason(d: Key): Reason {
    Reason(ConflictingEvidence, d, "inventory", "observation")
  }

  function ScopeReason(d: Key): Reason {
    Reason(NamespaceScope, d, "identity", "controller")
  }

  function ReadyReason(d: Key): Reason {
    Reason(ChecksComplete, d, "classifier", "checks complete")
  }

  function NoEvidenceReason(d: Key): Reason {
    Reason(IncompleteCoverage, d, "classifier", "insufficient")
  }

  function When(b: bool, r: Reason): set<Reason> {
    if b then {r} else {}
  }

  function CheckReasons(checks: Checks, d: Key): set<Reason> {
    When(!checks.coverage || !checks.attributed, CoverageReason(d))
    + When(!checks.signatures, SignatureReason(d))
    + When(!checks.clean, CleanReason(d))
    + When(checks.scope == IdentityScope.NvmeNamespace, ScopeReason(d))
    + When(checks.Pass(), ReadyReason(d))
  }

  ghost function RawReasons(inv: Snapshot, ev: Evidence, issues: set<Reason>, traces: map<Key, Walk>, d: Key): set<Reason>
    requires d in traces && d in Blocks(inv.nodes)
  {
    var claims := Claims(inv, ev);
    var blocks := Blocks(inv.nodes);
    var readOnly := blocks[d].observation.readOnly == Some(true);
    Attributed(claims, traces, d)
    + ScopedGaps(ev.gaps, traces, d)
    + ConflictReasons(ev.signatures, traces, d)
    + (if LocalUnknown(ev.signatures, traces, d) then traces[d].reasons
       else if ProtectedUse(claims, traces, d) || readOnly then When(readOnly, ReadOnlyReason(d))
       else if BusyUse(claims, traces, d) then {}
       else ChildSignatureReasons(blocks, ev.signatures, traces, d) + CheckReasons(ChecksOf(inv, ev, issues, traces, d), d))
  }

  ghost function DecisionReasons(inv: Snapshot, ev: Evidence, issues: set<Reason>, traces: map<Key, Walk>, d: Key): set<Reason>
    requires d in traces && d in Blocks(inv.nodes)
  {
    var raw := RawReasons(inv, ev, issues, traces, d);
    if raw == {} then {NoEvidenceReason(d)} else raw
  }

  // The whole assessment

  predicate Candidate(inv: Snapshot, scope: AssessmentScope, d: Key) {
    var blocks := Blocks(inv.nodes);
    d in blocks && IsPhysical(blocks[d]) && (scope == AllPhysical || blocks[d].observation.physicalKind == DiskKind)
  }

  /** The assessed status of one candidate. */
  ghost function Status(inv: Snapshot, ev: Evidence, d: Key): DriveStatus
    requires d in Blocks(inv.nodes)
  {
    BlocksAreNodes(inv, ev, d);
    StatusOf(inv, ev, Issues(inv, ev), Traces(OwnershipGraph(inv, ev)), d)
  }

  lemma {:induction false} BlocksHaveKeys(nodes: seq<ResolvedNode>, k: Key)
    requires k in Blocks(nodes)
    ensures exists i :: 0 <= i < |nodes| && nodes[i] == Blocks(nodes)[k] && k == BlockKey(nodes[i].observation.kernelName)
  {
    var n := |nodes| - 1;
    if k in Blocks(nodes[..n]) {
      BlocksHaveKeys(nodes[..n], k);
      var i :| 0 <= i < n && nodes[..n][i] == Blocks(nodes[..n])[k] && k == BlockKey(nodes[..n][i].observation.kernelName);
      assert nodes[i] == nodes[..n][i];
    } else {
      assert nodes[n] == Blocks(nodes)[k];
    }
  }

  lemma BlocksAreNodes(inv: Snapshot, ev: Evidence, k: Key)
    requires k in Blocks(inv.nodes)
    ensures k in OwnershipGraph(inv, ev).nodes
  {
    BlocksHaveKeys(inv.nodes, k);
    var i :| 0 <= i < |inv.nodes| && k == BlockKey(inv.nodes[i].observation.kernelName);
    var r := BlockRecord(inv.nodes[i]);
    assert Records(inv, ev)[|ev.nodes| + i] == r;
    assert r in multiset(Records(inv, ev));
  }

  // What the assessment returns

  ghost predicate Lists<T>(s: seq<T>, elements: set<T>, key: T -> seq<int>) {
    Ascending(s, key) && Elements(s) == elements
  }

  function OwnerOf(g: Graph, k: Key): PhysicalOwner
    requires k in g.physical
  {
    PhysicalOwner(k, g.physical[k].id, g.physical[k].scope)
  }

  function OwnerKey(o: PhysicalOwner): seq<int> {
    Bytes(o.node)
  }

  /** A recorded trace reports exactly what the walk found, in order. */
  ghost predicate RepresentsTrace(t: OwnershipTrace, g: Graph, w: Walk) {
    && (forall o :: o in w.owners ==> o in g.physical)
    && Lists(t.owners, set o | o in w.owners :: OwnerOf(g, o), OwnerKey)
    && t.complete == (w.reasons == {})
    && Lists(t.reasons, w.reasons, ReasonKey)
  }

  ghost predicate RepresentsDecision(c: Decision, inv: Snapshot, ev: Evidence, issues: set<Reason>,
                                     traces: map<Key, Walk>, d: Key)
    requires d in traces && d in Blocks(inv.nodes)
  {
    && c.id == Blocks(inv.nodes)[d].identity.id
    && c.status == StatusOf(inv, ev, issues, traces, d)
    && Lists(c.reasons, DecisionReasons(inv, ev, issues, traces, d), ReasonKey)
  }

  ghost predicate RepresentsDevices(devices: map<Key, Decision>, inv: Snapshot, ev: Evidence, scope: AssessmentScope,
                                    issues: set<Reason>, traces: map<Key, Walk>) {
    && (forall d :: d in devices <==> Candidate(inv, scope, d))
    && (forall d :: d in devices ==> d in traces && d in Blocks(inv.nodes)
                                     && RepresentsDecision(devices[d], inv, ev, issues, traces, d))
  }

  /** The first record of the key. */
  function FirstOf(records: seq<NodeRecord>, k: Key): Option<NodeRecord> {
    if records == [] then None
    else
      var n := |records| - 1;
      var front := FirstOf(records[..n], k);
      if front.Some? then front else if records[n].key == k then Some(records[n]) else None
  }

  /** Every node is listed as its first record in sorted order says, but for its flag. */
  ghost predicate ListsNodes(nodes: map<Key, NodeRecord>, inv: Snapshot, ev: Evidence, flags: map<Key, bool>) {
    var sorted := Sort(Records(inv, ev), RecordKey);
    && nodes.Keys == flags.Keys
    && forall k :: k in nodes ==> FirstOf(sorted, k).Some? && nodes[k] == FirstOf(sorted, k).value.(complete := flags[k])
  }

  /** `out` is the assessment of the evidence: every part holds what it should, in its one order. */
  ghost predicate Represents(out: Assessment, inv: Snapshot, ev: Evidence, scope: AssessmentScope) {
    var g := OwnershipGraph(inv, ev);
    && out.coverage == Coverage(inv, ev)
    && out.gaps.Keys == ev.gaps.Keys
    && (forall s :: s in out.gaps ==> Lists(out.gaps[s], Elements(ev.gaps[s]), ReasonKey))
    && out.signatures == ev.signatures
    && Lists(out.namespaceMounts, Elements(ev.namespaceMounts), NamespaceMountKey)
    && ListsNodes(out.nodes, inv, ev, g.nodes)
    && Lists(out.edges, Edges(inv, ev), EdgeKey)
    && Lists(out.claims, Claims(inv, ev), ClaimKey)
    && Lists(out.issues, Issues(inv, ev), ReasonKey)
    && out.traces.Keys == g.nodes.Keys
    && (forall k :: k in out.traces ==> RepresentsTrace(out.traces[k], g, Trace(g, k)))
    && RepresentsDevices(out.devices, inv, ev, scope, Issues(inv, ev), Traces(g))
  }
}
