/** The block inventory records that every later stage reads: raw observations,
    resolved nodes, and the mounts and swaps attributed to them. */
module Inventory {
  import opened Text

  datatype NodeType = UnknownNode | WholeDisk | PartitionNode

  /** Physical media class, independent of transport, identity and safety. */
  datatype PhysicalKind = DiskKind | OpticalKind | FloppyKind | UnknownPhysical

  datatype ObservationKind = UnknownObservation | VirtualOrPseudo

  datatype DeviceNumber = DeviceNumber(major: nat, minor: nat)

  datatype BlockIssueCode =
    | MissingRequiredField
    | MalformedAttribute
    | CapacityOverflow
    | DuplicateRecord
    | DeviceDisappeared
    | SourceReadFailure
    | ConflictingAttribute
    | InvalidRelationship

  datatype BlockIssue = BlockIssue(code: BlockIssueCode, kernelName: Option<string>, field: string)

  datatype Observation = Observation(
    kernelName: string,
    currentPath: Option<string>,
    sysfsPath: Option<string>,
    nodeType: NodeType,
    deviceNumber: Option<DeviceNumber>,
    capacityBytes: Option<nat>,
    vendor: Option<string>,
    model: Option<string>,
    serial: Option<string>,
    wwn: Option<string>,
    nvmeEui: Option<string>,
    nvmeNguid: Option<string>,
    transport: Option<string>,
    rotational: Option<bool>,
    removable: Option<bool>,
    readOnly: Option<bool>,
    parentName: Option<string>,
    childNames: seq<string>,
    partitionNumber: Option<nat>,
    kind: ObservationKind,
    physicalKind: PhysicalKind,
    issues: seq<BlockIssue>)

  datatype ResolutionState = Unresolved | Resolved | Ambiguous

  datatype IdentityScope = WholeDevice | NvmeNamespace

  type DriveId = string

  datatype Identity = Identity(
    state: ResolutionState,
    scope: IdentityScope,
    id: Option<DriveId>,
    strongAliases: seq<string>,
    fallback: Option<string>)

  datatype DiscoveryIssueCode =
    | MissingEvidence
    | MalformedEvidence
    | ReadFailure
    | Disappeared
    | Conflict
    | AmbiguousIdentity
    | UnsupportedTopology
    | UncorrelatedUsage
    | SnapshotChanged

  datatype DiscoveryIssue = DiscoveryIssue(
    code: DiscoveryIssueCode,
    node: string,
    field: string,
    nativeError: Option<int>,
    mountId: Option<nat>)

  datatype MountEvidence = MountEvidence(
    mountId: nat,
    device: DeviceNumber,
    root: string,
    mountPoint: string,
    filesystem: string,
    source: string,
    node: Option<string>)

  datatype SwapEvidence = SwapEvidence(path: string, kind: string, device: Option<DeviceNumber>, node: Option<string>)

  datatype SignatureState = NotObserved | Reported | MalformedSignature | ConflictingSignature | UnsupportedSignature

  /** Cached signature evidence; `kind` is its filesystem or member type. */
  datatype Signature = Signature(state: SignatureState, kind: Option<string>, usage: Option<string>)

  const NO_SIGNATURE := Signature(NotObserved, None, None)

  datatype ResolvedNode = ResolvedNode(
    observation: Observation,
    identity: Identity,
    currentPath: Option<string>,
    signature: Signature,
    mounts: seq<nat>,
    swaps: seq<nat>,
    usageNodes: seq<string>,
    issues: seq<DiscoveryIssue>)

  datatype Snapshot = Snapshot(
    nodes: seq<ResolvedNode>,
    mounts: seq<MountEvidence>,
    swaps: seq<SwapEvidence>,
    inventoryIssues: seq<BlockIssue>,
    issues: seq<DiscoveryIssue>,
    mountinfoComplete: bool,
    swapsComplete: bool)

  datatype DriveStatus = Ready | Busy | Protected | Degraded | Failing | Offline | Unknown

  predicate DistinctNames(observations: seq<Observation>) {
    forall i, j :: 0 <= i < j < |observations| ==> observations[i].kernelName != observations[j].kernelName
  }
}
