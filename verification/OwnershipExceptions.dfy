/** Evidence that can make a device READY although it says more, and exactly when. */
module OwnershipExceptions {
  import opened Text
  import opened Inventory
  import opened Canonical
  import opened Backing
  import opened Ownership
  import opened OwnershipTheorems

  // More claims

  /** `more` reports the claims of `ev` and perhaps others. */
  ghost predicate MoreClaims(ev: Evidence, more: Evidence) {
    more == ev.(claims := more.claims) && Elements(ev.claims) <= Elements(more.claims)
  }

  /** Every mount without a node is harmless or reported by some claim. */
  ghost predicate MountsCovered(inv: Snapshot, ev: Evidence) {
    forall i :: 0 <= i < |inv.mounts| && inv.mounts[i].node.None? ==> MountCovered(inv, ev, i) || HarmlessMount(inv.mounts[i])
  }

  /** Further claims can make a device READY only by covering a mount that no claim
      covered before: short of that, READY with them means READY without them. */
  lemma ClaimsFailClosedExactly(inv: Snapshot, ev: Evidence, more: Evidence, d: Key)
    requires MoreClaims(ev, more) && d in Blocks(inv.nodes) && Status(inv, more, d) == Ready
    ensures Status(inv, ev, d) == Ready <==> MountsCovered(inv, ev)
  {
    BlocksAreNodes(inv, ev, d);
    BlocksAreNodes(inv, more, d);
    SameGraphs(inv, ev, more);
    var g := OwnershipGraph(inv, ev);
    hide OwnershipGraph, Issues, Trace;
    ClaimsOn(inv, ev, more, Issues(inv, ev), Traces(g), d);
  }

  lemma SameGraphs(inv: Snapshot, ev: Evidence, more: Evidence)
    requires more.nodes == ev.nodes && more.edges == ev.edges && more.issues == ev.issues
    ensures OwnershipGraph(inv, more) == OwnershipGraph(inv, ev) && Issues(inv, more) == Issues(inv, ev)
  {
    hide GraphOf, IssuesOf, Blocks;
  }

  lemma ClaimsOn(inv: Snapshot, ev: Evidence, more: Evidence, issues: set<Reason>, traces: map<Key, Walk>, d: Key)
    requires MoreClaims(ev, more) && d in Blocks(inv.nodes) && d in traces && StatusOf(inv, more, issues, traces, d) == Ready
    ensures StatusOf(inv, ev, issues, traces, d) == Ready <==> MountsCovered(inv, ev)
  {
    hide Blocks, LocalUnknown, CoverageComplete, SignaturesComplete, CleanDevice, HarmlessMount, MountCovered, FreshClaims;
    assert Claims(inv, ev) <= Claims(inv, more);
    assert CoverageComplete(inv, ev, issues, traces, d) by {
      SameCoverage(inv, ev, more, issues, traces, d);
    }
    assert ProtectedUse(Claims(inv, ev), traces, d) ==> ProtectedUse(Claims(inv, more), traces, d);
    assert BusyUse(Claims(inv, ev), traces, d) ==> BusyUse(Claims(inv, more), traces, d);
    hide Claims, ProtectedUse, BusyUse;
    assert !UnknownUsage(inv, ev, traces) <==> MountsCovered(inv, ev);
  }

  lemma SameCoverage(inv: Snapshot, ev: Evidence, more: Evidence, issues: set<Reason>, traces: map<Key, Walk>, d: Key)
    requires more == ev.(claims := more.claims)
    ensures CoverageComplete(inv, ev, issues, traces, d) == CoverageComplete(inv, more, issues, traces, d)
  {
    hide Separate, HarmlessMountIssue, Superseded, ScopedGaps, HostCoverage;
  }

  // More gaps

  /** `more` reports the gaps of `ev` and perhaps others. */
  ghost predicate MoreGaps(ev: Evidence, more: Evidence) {
    && more == ev.(gaps := more.gaps)
    && forall s :: s in ev.gaps ==> s in more.gaps && Elements(ev.gaps[s]) <= Elements(more.gaps[s])
  }

  /** Further gaps can make a device READY only by explaining a source that was
      neither complete nor explained before. */
  lemma GapsFailClosedExactly(inv: Snapshot, ev: Evidence, more: Evidence, d: Key)
    requires MoreGaps(ev, more) && d in Blocks(inv.nodes) && Status(inv, more, d) == Ready
    ensures Status(inv, ev, d) == Ready <==> HostCoverage(Coverage(inv, ev), ev.gaps)
  {
    BlocksAreNodes(inv, ev, d);
    BlocksAreNodes(inv, more, d);
    SameGraphs(inv, ev, more);
    var g := OwnershipGraph(inv, ev);
    hide OwnershipGraph, Issues, Trace;
    GapsOn(inv, ev, more, Issues(inv, ev), Traces(g), d);
  }

  lemma GapsOn(inv: Snapshot, ev: Evidence, more: Evidence, issues: set<Reason>, traces: map<Key, Walk>, d: Key)
    requires MoreGaps(ev, more) && d in Blocks(inv.nodes) && d in traces && StatusOf(inv, more, issues, traces, d) == Ready
    ensures StatusOf(inv, ev, issues, traces, d) == Ready <==> HostCoverage(Coverage(inv, ev), ev.gaps)
  {
    hide Blocks, LocalUnknown, SignaturesComplete, CleanDevice, HarmlessMount, FreshClaims;
    assert Claims(inv, ev) == Claims(inv, more);
    assert forall i: nat :: i < |inv.mounts| ==> MountCovered(inv, ev, i) == MountCovered(inv, more, i);
    hide Claims, ProtectedUse, BusyUse, MountCovered;
    assert UnknownUsage(inv, ev, traces) == UnknownUsage(inv, more, traces);
    hide UnknownUsage;
    GapsCoverage(inv, ev, more, issues, traces, d);
    hide CoverageComplete;
  }

  lemma GapsCoverage(inv: Snapshot, ev: Evidence, more: Evidence, issues: set<Reason>, traces: map<Key, Walk>, d: Key)
    requires MoreGaps(ev, more) && CoverageComplete(inv, more, issues, traces, d)
    ensures CoverageComplete(inv, ev, issues, traces, d) <==> HostCoverage(Coverage(inv, ev), ev.gaps)
  {
    hide Separate, HarmlessMountIssue, Superseded, HostCoverage, Coverage;
    assert ScopedGaps(ev.gaps, traces, d) <= ScopedGaps(more.gaps, traces, d) by {
      forall s, r | s in ev.gaps && r in ev.gaps[s] ensures s in more.gaps && r in more.gaps[s] {
        assert r in Elements(ev.gaps[s]);
      }
    }
  }

  // An example

  const NO_ASSIGNMENT := Observation("", None, None, WholeDisk, None, Some(1), None, None, None, None, None, None, None, None, None, Some(false),
                                     None, [], None, UnknownObservation, DiskKind, [])

  /** A writable disk of known identity and path, without a cached signature. */
  function PlainDisk(name: string, minor: nat): ResolvedNode {
    ResolvedNode(NO_ASSIGNMENT.(kernelName := name, deviceNumber := Some(DeviceNumber(8, minor))),
                 Identity(Resolved, WholeDevice, Some(name), [], None), Some("/dev/" + name), NO_SIGNATURE, [], [], [name],
                 [DiscoveryIssue(MissingEvidence, name, "signature", None, None)])
  }

  const SDA := PlainDisk("sda", 0)
  const SDB := PlainDisk("sdb", 16)

  /** Two plain disks and a filesystem mounted from neither, which is not reported. */
  const TWO_DISKS := Snapshot([SDA, SDB], [MountEvidence(7, DeviceNumber(0, 1), "/", "/srv", "nfs", "server", None)], [], [], [], true, true)

  const NOTHING_FOUND := Fresh(NoSignature, "", "")

  /** Everything was read completely, and nothing was found. */
  const ALL_CLEAR := Evidence([], [], [], [], map["block:sda" := NOTHING_FOUND, "block:sdb" := NOTHING_FOUND], [], [], map[],
                              map["sysfs" := true, "zfs" := true, "proxmox" := true, "processes" := true])

  /** A claim on the second disk that names the mount as its source. */
  const COVERING := ALL_CLEAR.(claims := [Claim("block:sdb", Held, "mountinfo:7", "")])

  lemma TwoBlocks()
    ensures Blocks([SDA, SDB]) == map["block:sda" := SDA, "block:sdb" := SDB]
  {
    var nodes := [SDA, SDB];
    assert nodes[..1] == [SDA];
    assert nodes[..1][..0] == [];
    assert BlockKey("sda") == "block:sda" && BlockKey("sdb") == "block:sdb";
    assert Blocks(nodes[..1]) == map["block:sda" := SDA];
  }

  /** Nothing is known beyond claims, gaps and coverage. */
  predicate Clear(ev: Evidence) {
    ev.(claims := [], gaps := map[], coverage := ALL_CLEAR.coverage) == ALL_CLEAR
  }

  const RECORDS := multiset([BlockRecord(SDA), BlockRecord(SDB)])

  lemma KeysDiffer()
    ensures "block:sda" != "block:sdb"
  {
    assert "block:sda"[8] != "block:sdb"[8];
  }

  lemma ApartRecords(a: NodeRecord, b: NodeRecord)
    requires a.key != b.key && a.complete && b.complete
    ensures var records := multiset([a, b]);
      && Keys(records) == {a.key, b.key}
      && forall k :: DeclaredComplete(records, k) && !Duplicated(records, k)
  {
    var records := multiset([a, b]);
    assert records[a] == 1 && records[b] == 1;
    assert a in records && b in records && forall r :: r in records ==> r == a || r == b;
  }

  lemma TwoRecords(inv: Snapshot, ev: Evidence)
    requires inv.nodes == [SDA, SDB] && Clear(ev)
    ensures multiset(Records(inv, ev)) == RECORDS
    ensures Keys(RECORDS) == {"block:sda", "block:sdb"}
    ensures forall k :: DeclaredComplete(RECORDS, k) && !Duplicated(RECORDS, k)
  {
    hide Keys, DeclaredComplete, Duplicated;
    KeysDiffer();
    var a, b := BlockRecord(SDA), BlockRecord(SDB);
    assert a.key == "block:sda" && b.key == "block:sdb";
    ApartRecords(a, b);
    assert Records(inv, ev) == [a, b];
  }

  lemma NothingRaised(blocks: map<Key, ResolvedNode>, records: multiset<NodeRecord>)
    requires forall k :: k in blocks ==> !IsPartition(blocks[k])
    requires forall k :: !Duplicated(records, k)
    ensures PartitionEdges(blocks) == {} && IssuesOf(blocks, records, {}, {}) == {}
  {
    hide Duplicated, Reciprocal, Dangling;
    assert PartitionEdges(blocks) == {} && PartitionIssues(blocks) == {};
    forall k ensures ProviderSet({}, k) == {} {
    }
    hide PartitionEdges, PartitionIssues, ProviderSet, IsPhysical;
  }

  lemma NoIssues(inv: Snapshot, ev: Evidence)
    requires inv.nodes == [SDA, SDB] && Clear(ev)
    ensures Edges(inv, ev) == {} && Issues(inv, ev) == {}
  {
    TwoBlocks();
    TwoRecords(inv, ev);
    KeysDiffer();
    var blocks := Blocks(inv.nodes);
    assert forall k :: k in blocks ==> !IsPartition(blocks[k]);
    NothingRaised(blocks, RECORDS);
    ElementsEmpty<Edge>([]);
    ElementsEmpty<Reason>([]);
    hide Blocks, Records, Elements, IssuesOf, PartitionEdges;
  }

  /** A disk in a graph without edges and issues. */
  lemma LoneDisk(blocks: map<Key, ResolvedNode>, records: multiset<NodeRecord>, d: Key)
    requires d in Keys(records) && DeclaredComplete(records, d) && d in blocks && IsPhysical(blocks[d])
    requires blocks[d].identity.state == Resolved && blocks[d].identity.id.Some? && blocks[d].currentPath.Some?
    ensures var g := GraphOf(blocks, records, {}, {});
      && g.nodes.Keys == Keys(records)
      && Trace(g, d).owners == {d} && Trace(g, d).reasons == {} && Trace(g, d).structural
  {
    hide DeclaredComplete, ProviderSet;
    var g := GraphOf(blocks, records, {}, {});
    assert g.nodes[d];
    assert d in g.physical && g.physical[d] == EndpointOf(blocks[d]);
    EndpointTrace(g, d);
    hide Trace;
    assert g.LocalReasons(d) == {};
  }

  lemma TwoGraph(inv: Snapshot, ev: Evidence)
    requires inv.nodes == [SDA, SDB] && Clear(ev)
    ensures OwnershipGraph(inv, ev) == GraphOf(Blocks(inv.nodes), RECORDS, {}, {})
  {
    NoIssues(inv, ev);
    TwoRecords(inv, ev);
    hide Blocks, Issues, Edges, Records, Duplicated, DeclaredComplete, Keys, GraphOf;
  }

  lemma TwoTraces(inv: Snapshot, ev: Evidence)
    requires inv.nodes == [SDA, SDB] && Clear(ev)
    ensures TracedAlone(Traces(OwnershipGraph(inv, ev)))
  {
    hide Blocks, Records, Duplicated, DeclaredComplete, Keys, GraphOf, Trace, OwnershipGraph;
    TwoGraph(inv, ev);
    TwoBlocks();
    TwoRecords(inv, ev);
    var blocks := Blocks(inv.nodes);
    KeysDiffer();
    assert blocks["block:sda"] == SDA && blocks["block:sdb"] == SDB;
    LoneDisk(blocks, RECORDS, "block:sda");
    LoneDisk(blocks, RECORDS, "block:sdb");
  }

  /** Each of the two disks is backed by itself alone, without a failure. */
  predicate TracedAlone(traces: map<Key, Walk>) {
    && traces.Keys == {"block:sda", "block:sdb"}
    && forall d :: d in traces ==> traces[d].owners == {d} && traces[d].reasons == {} && traces[d].structural
  }

  lemma FirstDiskClean(ev: Evidence)
    requires Clear(ev)
    ensures CleanDevice(ev.signatures, SDA) && FreshlyClear(ev.signatures, "block:sda", SDA)
  {
    assert BlockKey("sda") == "block:sda";
    assert ev.signatures == ALL_CLEAR.signatures;
    assert Superseded(ev.signatures, SDA.issues[0]);
  }

  lemma FirstDiskReady(inv: Snapshot, ev: Evidence, traces: map<Key, Walk>)
    requires inv.nodes == [SDA, SDB] && Clear(ev) && TracedAlone(traces)
    requires Blocks(inv.nodes) == map["block:sda" := SDA, "block:sdb" := SDB]
    requires forall c :: c in Claims(inv, ev) ==> c.consumer == "block:sdb"
    requires CoverageComplete(inv, ev, {}, traces, "block:sda") && !UnknownUsage(inv, ev, traces)
    ensures StatusOf(inv, ev, {}, traces, "block:sda") == Ready
  {
    hide Blocks, Claims, CoverageComplete, UnknownUsage, CleanDevice, FreshlyClear;
    var d := "block:sda";
    KeysDiffer();
    FirstDiskClean(ev);
    assert !LocalUnknown(ev.signatures, traces, d);
    assert !ProtectedUse(Claims(inv, ev), traces, d) && !BusyUse(Claims(inv, ev), traces, d);
    assert SignaturesComplete(Blocks(inv.nodes), ev.signatures, traces, d);
    hide LocalUnknown, ProtectedUse, BusyUse, SignaturesComplete;
  }

  /** With nothing amiss the first disk is READY, whatever else is claimed of the second. */
  lemma FirstDiskStatus(inv: Snapshot, ev: Evidence)
    requires inv.nodes == [SDA, SDB] && Clear(ev)
    requires forall c :: c in Claims(inv, ev) ==> c.consumer == "block:sdb"
    requires var traces := Traces(OwnershipGraph(inv, ev));
      CoverageComplete(inv, ev, {}, traces, "block:sda") && !UnknownUsage(inv, ev, traces)
    ensures "block:sda" in Blocks(inv.nodes) && Status(inv, ev, "block:sda") == Ready
  {
    hide OwnershipGraph, Issues, Claims, Blocks, StatusOf, TracedAlone, CoverageComplete, UnknownUsage;
    TwoBlocks();
    TwoTraces(inv, ev);
    NoIssues(inv, ev);
    BlocksAreNodes(inv, ev, "block:sda");
    FirstDiskReady(inv, ev, Traces(OwnershipGraph(inv, ev)));
  }

  lemma MountSourceIs()
    ensures MountSource(TWO_DISKS.mounts[0]) == "mountinfo:7"
  {
    assert Decimal(7) == "7";
  }

  lemma MountUncovered()
    ensures !MountsCovered(TWO_DISKS, ALL_CLEAR)
  {
    MountSourceIs();
    TwoBlocks();
    hide Blocks, MountSource;
    assert FreshClaims(Blocks(TWO_DISKS.nodes), ALL_CLEAR.signatures) == {};
    assert InitialClaims(TWO_DISKS, ALL_CLEAR) == {};
    assert !HarmlessMount(TWO_DISKS.mounts[0]);
    assert !MountCovered(TWO_DISKS, ALL_CLEAR, 0);
  }

  lemma CoveringClaims()
    ensures Claims(TWO_DISKS, COVERING) == {COVERING.claims[0]} && MountCovered(TWO_DISKS, COVERING, 0)
  {
    TwoBlocks();
    MountSourceIs();
    hide Blocks, MountSource;
    assert FreshClaims(Blocks(TWO_DISKS.nodes), COVERING.signatures) == {};
    assert MountClaims(TWO_DISKS.mounts) == {} && SwapClaims(TWO_DISKS.swaps) == {};
    assert COVERING.claims[0] in InitialClaims(TWO_DISKS, COVERING);
  }

  lemma UsageCovered(traces: map<Key, Walk>)
    requires TracedAlone(traces)
    ensures !UnknownUsage(TWO_DISKS, COVERING, traces)
  {
    hide Claims, MountCovered;
    CoveringClaims();
  }

  /** Of a snapshot that omits the report of its mount: with nothing else known of the
      mount the disk is not READY; told only that the other disk is in use, under the
      mount's name, it is. */
  lemma ClaimMakesReady()
    ensures MoreClaims(ALL_CLEAR, COVERING)
    ensures "block:sda" in Blocks(TWO_DISKS.nodes)
    ensures Status(TWO_DISKS, COVERING, "block:sda") == Ready && Status(TWO_DISKS, ALL_CLEAR, "block:sda") != Ready
  {
    hide Status, Blocks, MountsCovered, MountCovered, OwnershipGraph, Claims, UnknownUsage, TracedAlone;
    var traces := Traces(OwnershipGraph(TWO_DISKS, COVERING));
    assert CoverageComplete(TWO_DISKS, COVERING, {}, traces, "block:sda") by {
      hide Separate;
      assert HostCoverage(Coverage(TWO_DISKS, COVERING), map[]);
    }
    hide CoverageComplete;
    TwoTraces(TWO_DISKS, COVERING);
    UsageCovered(traces);
    CoveringClaims();
    FirstDiskStatus(TWO_DISKS, COVERING);
    MountUncovered();
    ElementsEmpty<Claim>([]);
    ClaimsFailClosedExactly(TWO_DISKS, ALL_CLEAR, COVERING, "block:sda");
  }
}
