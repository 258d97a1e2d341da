/** A host whose scan leaves a READY disk, and on which a further gap can still make a
    disk READY. */
module ScannedExample {
  import opened Text
  import opened Inventory
  import opened Canonical
  import opened IssueOrder
  import opened Backing
  import opened Ownership
  import opened OwnershipExceptions
  import opened HostReads
  import opened MountUsage
  import opened SwapUsage
  import opened DiskUsage
  import opened HostUsage
  import opened HostUsageTheorems
  import opened UsageSoundness

  const PROC := MountEvidence(7, DeviceNumber(0, 22), "/", "/proc", "proc", "proc", None)

  /** A disk before the scan has looked at it. */
  function Unread(disk: ResolvedNode): ResolvedNode {
    disk.(usageNodes := [], issues := [])
  }

  const HOST := Host([Unread(SDA), Unread(SDB)], [PROC], [], [])

  function Disk(k: nat): ResolvedNode {
    if k % 2 == 0 then SDA else SDB
  }

  /** Both paths name what they should, whenever they are looked at in turn. */
  function AsObserved(n: nat): PathRead {
    PathRead(Some(PathStatus(true, Disk(n).observation.deviceNumber)), [])
  }

  /** No cached signature is known. */
  function NoneCached(k: nat): SignatureRead {
    SignatureRead([], NO_SIGNATURE, [Issue(MissingEvidence, Disk(k).observation.kernelName, "signature")])
  }

  /** The snapshot that the scan leaves: its one mount has no node, and is reported. */
  const QUIET := Snapshot([SDA, SDB], [PROC], [], [], [UncorrelatedMount(PROC)], true, true)

  // The scan

  lemma ProcHasNoNode()
    ensures MountOwner(Observations(HOST.nodes), HOST.mounts, 0).None?
  {
    var seen := Observations(HOST.nodes);
    assert seen[0] == HOST.nodes[0].observation && seen[1] == HOST.nodes[1].observation;
    forall i: nat ensures !Sole(seen, PROC.device, i) {
    }
  }

  lemma NoRowsHeld(k: nat)
    ensures MountRowsOf(HOST, k) == [] && SwapRowsOf(HOST, AsObserved, k) == []
  {
    hide MountOwner, Observations;
    ProcHasNoNode();
    var owners := MountOwners(Observations(HOST.nodes), HOST.mounts);
    assert RowsOf(owners, k, 0) == [];
    assert RowsOf(owners, k, 1) == [];
  }

  lemma Times()
    ensures PathReads(HOST.nodes, 0) == 0 && PathReads(HOST.nodes, 1) == 1 && MountTime(HOST) == 2 && ConfirmTime(HOST) == 2
  {
    hide MountOwner, Observations;
    ProcHasNoNode();
    assert PathReads(HOST.nodes, 1) == 1;
    var seen := Observations(HOST.nodes);
    assert MountReads(seen, HOST.mounts, 0) == 0;
    assert MountReads(seen, HOST.mounts, 1) == 0;
  }

  lemma CheckedStays(node: ResolvedNode, read: PathRead)
    requires node.currentPath.Some? && Confirms(read, node.observation)
    ensures Checked(node, read) == node
  {
    assert node.issues + [] == node.issues;
  }

  /** Either disk ends as the plain disk it is. */
  lemma DiskFiled(k: nat)
    requires k < 2
    ensures Filed(HOST, AsObserved, NoneCached, k) == Disk(k)
  {
    hide MountRowsOf, SwapRowsOf, HoldMounts, HoldSwaps, Confirms, Checked;
    NoRowsHeld(k);
    Times();
    var node := HOST.nodes[k];
    assert node == Unread(Disk(k));
    DiskConfirmed(k);
    CheckedStays(node, AsObserved(k));
    var entered := Signed(node, NoneCached(k));
    assert [] + [] + [Issue(MissingEvidence, Disk(k).observation.kernelName, "signature")] == Disk(k).issues;
    assert entered == Disk(k);
    HoldNoMounts(entered, HOST.mounts);
    HoldNoSwaps(entered);
  }

  lemma DiskConfirmed(n: nat)
    ensures Confirms(AsObserved(n), Disk(n).observation) && Disk(n).currentPath.Some?
  {
  }

  lemma ReadAgain(k: nat)
    requires k < 2
    ensures SecondRead(HOST, AsObserved, NoneCached, k) == 2 + k
  {
    hide Checked, Confirms;
    Times();
    var entered := Opened(HOST.nodes, AsObserved, NoneCached);
    forall j | 0 <= j < 2 ensures entered[j].currentPath.Some? {
      DiskConfirmed(j);
      assert HOST.nodes[j] == Unread(Disk(j));
      CheckedStays(HOST.nodes[j], AsObserved(j));
      OpenedAt(HOST.nodes, AsObserved, NoneCached, j);
    }
    assert PathReads(entered, 0) == 0 && PathReads(entered, 1) == 1;
  }

  lemma DiskFinished(k: nat)
    requires k < 2
    ensures Finished(Disk(k)) == Disk(k)
  {
    var d := Disk(k);
    assert Sort(d.usageNodes[1..], Bytes) == [] && Sort(d.usageNodes, Bytes) == d.usageNodes;
    NormalizedOne(d.issues[0]);
    assert d.issues + [] == d.issues;
  }

  lemma NormalizedOne(issue: DiscoveryIssue)
    ensures Normalize([issue], DiscoveryIssueKey) == [issue]
  {
    assert [issue][..0] == [];
  }

  lemma NothingToGather(p: nat, n: nat)
    requires p < 2 && n <= 2
    ensures Gathered([SDA, SDB], p, n) == [SDA, SDB][p]
    ensures ParentIssues([SDA, SDB], n) == []
  {
    if n > 0 {
      NothingToGather(p, n - 1);
    }
  }

  lemma AttributedDisks()
    ensures AttributedNodes(HOST, AsObserved, NoneCached) == [SDA, SDB]
  {
    hide AttributedNodes, Filed, SecondRead, Checked;
    var nodes := AttributedNodes(HOST, AsObserved, NoneCached);
    AttributedLength(HOST, AsObserved, NoneCached);
    forall k | 0 <= k < 2 ensures nodes[k] == Disk(k) {
      AttributedNode(HOST, AsObserved, NoneCached, k);
      DiskFiled(k);
      ReadAgain(k);
      assert Disk(2 + k) == Disk(k);
      DiskConfirmed(2 + k);
      CheckedStays(Disk(k), AsObserved(2 + k));
    }
    assert nodes == [SDA, SDB];
  }

  lemma ScannedNodes()
    ensures UsageScan(HOST, AsObserved, NoneCached).nodes == [SDA, SDB]
  {
    hide AttributedNodes, UsageScan, Finished, Gathered;
    var nodes := UsageScan(HOST, AsObserved, NoneCached).nodes;
    AttributedDisks();
    ScanShape(HOST, AsObserved, NoneCached);
    forall k | 0 <= k < 2 ensures nodes[k] == Disk(k) {
      ScannedNode(HOST, AsObserved, NoneCached, k);
      NothingToGather(k, 2);
      DiskFinished(k);
    }
    ScanKeepsNodes(HOST, AsObserved, NoneCached);
    assert nodes == [SDA, SDB];
  }

  lemma ScannedRows()
    ensures UsageScan(HOST, AsObserved, NoneCached).mounts == [PROC] && UsageScan(HOST, AsObserved, NoneCached).swaps == []
  {
    hide AttributedNodes, UsageScan, MountOwner;
    ProcHasNoNode();
    ScanShape(HOST, AsObserved, NoneCached);
  }

  lemma ScannedReports()
    ensures UsageScan(HOST, AsObserved, NoneCached).issues == [UncorrelatedMount(PROC)]
  {
    hide AttributedNodes, UsageScan, MountOwner, Normalize, Observations;
    ProcHasNoNode();
    AttributedDisks();
    NothingToGather(0, 2);
    ScanIssues(HOST, AsObserved, NoneCached);
    var seen, first := Observations(HOST.nodes), Later(AsObserved, MountTime(HOST));
    assert MountIssues(seen, HOST.mounts, first, 0) == [];
    assert MountIssues(seen, HOST.mounts, first, 1) == [UncorrelatedMount(PROC)];
    assert [] + [UncorrelatedMount(PROC)] + [] + [] == [UncorrelatedMount(PROC)];
    NormalizedOne(UncorrelatedMount(PROC));
  }

  /** The snapshot is what a scan of an untouched host leaves. */
  lemma QuietIsScanned()
    ensures Untouched(HOST) && Scanned(QUIET, HOST, AsObserved, NoneCached) && NoBlankNode(HOST, ALL_CLEAR)
  {
    hide UsageScan;
    ScannedNodes();
    ScannedRows();
    ScannedReports();
  }

  // The decisions

  lemma QuietClaims(ev: Evidence)
    requires Clear(ev) && ev.claims == []
    ensures Claims(QUIET, ev) == {}
  {
    TwoBlocks();
    hide Blocks;
    assert FreshClaims(Blocks(QUIET.nodes), ev.signatures) == {};
    assert MountClaims(QUIET.mounts) == {} && SwapClaims(QUIET.swaps) == {};
    ElementsEmpty<Claim>([]);
  }

  lemma QuietUsage(ev: Evidence, traces: map<Key, Walk>)
    requires Clear(ev) && ev.claims == [] && TracedAlone(traces)
    ensures !UnknownUsage(QUIET, ev, traces)
  {
    hide Claims, MountCovered;
    QuietClaims(ev);
    assert HarmlessMount(PROC);
  }

  lemma QuietCovered(ev: Evidence, traces: map<Key, Walk>)
    requires HostCoverage(Coverage(QUIET, ev), ev.gaps) && ScopedGaps(ev.gaps, traces, "block:sda") == {}
    ensures CoverageComplete(QUIET, ev, {}, traces, "block:sda")
  {
    hide HostCoverage, Coverage, ScopedGaps, Separate;
    assert HarmlessMount(PROC);
    assert SoleHarmlessMount(QUIET, 0, 7);
    assert HarmlessMountIssue(QUIET, QUIET.issues[0]);
  }

  /** With everything read and nothing found the disk is READY: what READY promises of
      a scanned host is promised of some host. */
  lemma QuietDiskIsReady()
    ensures Candidate(QUIET, AllPhysical, "block:sda") && Status(QUIET, ALL_CLEAR, "block:sda") == Ready
  {
    hide Claims, OwnershipGraph, Status, TracedAlone, CoverageComplete, UnknownUsage;
    var traces := Traces(OwnershipGraph(QUIET, ALL_CLEAR));
    TwoBlocks();
    TwoTraces(QUIET, ALL_CLEAR);
    QuietClaims(ALL_CLEAR);
    QuietUsage(ALL_CLEAR, traces);
    QuietCovered(ALL_CLEAR, traces);
    FirstDiskStatus(QUIET, ALL_CLEAR);
  }

  /** The same with one source incomplete, and with a gap explaining that. */
  const UNEXPLAINED := ALL_CLEAR.(coverage := ALL_CLEAR.coverage["zfs" := false])
  const EXPLAINED := UNEXPLAINED.(gaps := map["zfs" := [Reason(MissingSource, "block:sdb", "zfs", "")]])

  lemma ExplainedCoverage()
    ensures HostCoverage(Coverage(QUIET, EXPLAINED), EXPLAINED.gaps)
    ensures !HostCoverage(Coverage(QUIET, UNEXPLAINED), UNEXPLAINED.gaps)
  {
    assert "zfs" in Coverage(QUIET, UNEXPLAINED) && !Coverage(QUIET, UNEXPLAINED)["zfs"];
  }

  lemma ExplainedElsewhere(traces: map<Key, Walk>)
    requires TracedAlone(traces)
    ensures ScopedGaps(EXPLAINED.gaps, traces, "block:sda") == {}
  {
    KeysDiffer();
    assert Separate(traces, "block:sdb", "block:sda");
  }

  lemma MoreExplained()
    ensures MoreGaps(UNEXPLAINED, EXPLAINED) && Clear(EXPLAINED) && Clear(UNEXPLAINED) && EXPLAINED.claims == []
  {
  }

  /** On a snapshot that a scan left: with one source unread the disk is not READY; told
      of a gap in that source that concerns only the other disk, it is. */
  lemma GapMakesReady()
    ensures Scanned(QUIET, HOST, AsObserved, NoneCached) && MoreGaps(UNEXPLAINED, EXPLAINED)
    ensures "block:sda" in Blocks(QUIET.nodes)
    ensures Status(QUIET, EXPLAINED, "block:sda") == Ready && Status(QUIET, UNEXPLAINED, "block:sda") != Ready
  {
    hide Status, Blocks, OwnershipGraph, CoverageComplete, HostCoverage, Coverage, TracedAlone, Claims, UnknownUsage, Scanned;
    var traces := Traces(OwnershipGraph(QUIET, EXPLAINED));
    QuietIsScanned();
    MoreExplained();
    TwoTraces(QUIET, EXPLAINED);
    ExplainedCoverage();
    ExplainedElsewhere(traces);
    QuietClaims(EXPLAINED);
    QuietUsage(EXPLAINED, traces);
    QuietCovered(EXPLAINED, traces);
    FirstDiskStatus(QUIET, EXPLAINED);
    GapsFailClosedExactly(QUIET, UNEXPLAINED, EXPLAINED, "block:sda");
  }
}
