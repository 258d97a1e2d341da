/** What READY says of the mounts and swaps that a host-usage scan found. */
module UsageSoundness {
  import opened Text
  import opened Inventory
  import opened Canonical
  import opened IssueOrder
  import opened Backing
  import opened BackingTheory
  import opened Ownership
  import opened OwnershipTheorems
  import opened OwnershipExceptions
  import P = ProductionTheorems
  import opened HostReads
  import opened MountUsage
  import opened SwapUsage
  import opened HostUsage
  import opened HostUsageTheorems

  /** The snapshot that an assessment reads is the one that the scan left. */
  predicate Scanned(inv: Snapshot, host: Host, inspect: Inspect, signatures: Signatures) {
    var scan := UsageScan(host, inspect, signatures);
    inv.nodes == scan.nodes && inv.mounts == scan.mounts && inv.swaps == scan.swaps && inv.issues == scan.issues
  }

  /** No device is nameless, and no source reports a node under the key of a nameless
      device: an issue about no node is about no node of the graph. */
  predicate NoBlankNode(host: Host, ev: Evidence) {
    && (forall k :: 0 <= k < |host.nodes| ==> host.nodes[k].observation.kernelName != "")
    && (forall i :: 0 <= i < |ev.nodes| ==> ev.nodes[i].key != BlockKey(""))
  }

  lemma BlankIsNoNode(inv: Snapshot, ev: Evidence, host: Host, inspect: Inspect, signatures: Signatures)
    requires Scanned(inv, host, inspect, signatures) && NoBlankNode(host, ev)
    ensures BlockKey("") !in OwnershipGraph(inv, ev).nodes
  {
    hide UsageScan, Blocks, Issues, Edges, NodeComplete, ProviderSet;
    ScanKeepsNodes(host, inspect, signatures);
    forall r | r in Records(inv, ev) ensures r.key != BlockKey("") {
      var i :| 0 <= i < |Records(inv, ev)| && Records(inv, ev)[i] == r;
      if i >= |ev.nodes| {
        var k := i - |ev.nodes|;
        assert r == BlockRecord(inv.nodes[k]) && inv.nodes[k].observation == host.nodes[k].observation;
        if r.key == BlockKey("") {
          P.BlockKeyInjective(inv.nodes[k].observation.kernelName, "");
        }
      }
    }
    forall r | r in multiset(Records(inv, ev)) ensures r.key != BlockKey("") {
      assert r in Records(inv, ev);
    }
  }

  lemma ReadyCovered(inv: Snapshot, ev: Evidence, d: Key)
    requires IsReady(inv, ev, d)
    ensures CoverageComplete(inv, ev, Issues(inv, ev), Traces(OwnershipGraph(inv, ev)), d)
  {
    hide CoverageComplete, OwnershipGraph, Issues, Traces, LocalUnknown, ProtectedUse, BusyUse, Claims, Blocks, UnknownUsage;
    BlocksAreNodes(inv, ev, d);
  }

  /** The scan reports every mount that it leaves without a node. */
  lemma LeftOutIsReported(host: Host, inspect: Inspect, signatures: Signatures, i: nat)
    requires i < |host.mounts| && MountOwner(Observations(host.nodes), host.mounts, i).None?
    ensures UncorrelatedMount(host.mounts[i]) in UsageScan(host, inspect, signatures).issues
  {
    hide UsageScan, AttributedNodes, MountIssues, SwapIssues, Normalize, DiscoveryIssueKey, MountTime, SwapTime, MountOwner, Observations;
    var seen, first := Observations(host.nodes), Later(inspect, MountTime(host));
    var nodes := AttributedNodes(host, inspect, signatures);
    ScanIssues(host, inspect, signatures);
    LeftOutIsListed(seen, host.mounts, first, |host.mounts|, i);
    var mounts := MountIssues(seen, host.mounts, first, |host.mounts|);
    var swaps := SwapIssues(seen, host.swaps, Later(inspect, SwapTime(host)), |host.swaps|);
    var all := host.issues + mounts + swaps + DiskUsage.ParentIssues(nodes, |nodes|);
    assert UncorrelatedMount(host.mounts[i]) in Elements(all);
    DiscoveryIssueKeyInjective();
    NormalizeCorrect(all, DiscoveryIssueKey);
  }

  lemma {:induction false} LeftOutIsListed(seen: seq<Observation>, mounts: seq<MountEvidence>, inspect: Inspect, n: nat, i: nat)
    requires i < n <= |mounts| && MountOwner(seen, mounts, i).None?
    ensures UncorrelatedMount(mounts[i]) in MountIssues(seen, mounts, inspect, n)
  {
    hide MountOwner, SourceIssues, RootIssues;
    if i < n - 1 {
      LeftOutIsListed(seen, mounts, inspect, n - 1, i);
    } else {
      assert UncorrelatedMount(mounts[i]) in MountIssue(seen, mounts, inspect, i);
    }
  }

  /** On a READY host every mount without a node is harmless, alone under its id, and
      on a device number that no node has. */
  lemma LeftOutIsHarmless(inv: Snapshot, ev: Evidence, host: Host, inspect: Inspect, signatures: Signatures, d: Key, i: nat)
    requires Untouched(host) && Scanned(inv, host, inspect, signatures) && NoBlankNode(host, ev)
    requires IsReady(inv, ev, d)
    requires i < |host.mounts| && MountOwner(Observations(host.nodes), host.mounts, i).None?
    ensures |inv.mounts| == |host.mounts| && inv.mounts[i] == host.mounts[i]
    ensures SoleHarmlessMount(inv, i, host.mounts[i].mountId)
  {
    hide UsageScan, IsReady, OwnershipGraph, Issues, HostCoverage, ScopedGaps, Superseded, Untouched, SoleHarmlessMount, MountOwner,
         Observations, NoBlankNode;
    var issue := UncorrelatedMount(host.mounts[i]);
    LeftOutIsReported(host, inspect, signatures, i);
    BlankIsNoNode(inv, ev, host, inspect, signatures);
    ReadyCovered(inv, ev, d);
    LeftOutStays(host, inspect, signatures, i);
    var j :| 0 <= j < |inv.issues| && inv.issues[j] == issue;
    assert !Separate(Traces(OwnershipGraph(inv, ev)), BlockKey(""), d);
    NeverSuperseded(ev.signatures, host.mounts[i]);
    assert HarmlessMountIssue(inv, inv.issues[j]);
    var m :| 0 <= m < |inv.mounts| && SoleHarmlessMount(inv, m, issue.mountId.value);
    OnlyThatMount(inv, m, i, issue.mountId.value);
  }

  lemma NeverSuperseded(signatures: map<Key, Fresh>, mount: MountEvidence)
    ensures !Superseded(signatures, UncorrelatedMount(mount))
  {
  }

  lemma OnlyThatMount(inv: Snapshot, m: nat, i: nat, id: nat)
    requires m < |inv.mounts| && i < |inv.mounts| && SoleHarmlessMount(inv, m, id) && inv.mounts[i].mountId == id
    ensures m == i
  {
  }

  lemma LeftOutStays(host: Host, inspect: Inspect, signatures: Signatures, i: nat)
    requires i < |host.mounts| && MountOwner(Observations(host.nodes), host.mounts, i).None?
    ensures |UsageScan(host, inspect, signatures).mounts| == |host.mounts|
    ensures UsageScan(host, inspect, signatures).mounts[i] == host.mounts[i]
  {
    hide UsageScan, AttributedNodes, MountOwner;
    ScanShape(host, inspect, signatures);
  }

  /** The path of a READY device named its device number both before and after all
      usage was read, and its signature source did not vanish. */
  lemma ReadyPathConfirmed(inv: Snapshot, ev: Evidence, host: Host, inspect: Inspect, signatures: Signatures, k: nat)
    requires Scanned(inv, host, inspect, signatures) && k < |host.nodes|
    requires IsReady(inv, ev, BlockKey(host.nodes[k].observation.kernelName))
    ensures var o, first, second := host.nodes[k].observation, FirstRead(host, k), SecondRead(host, inspect, signatures, k);
      && first < second && Confirms(inspect(first), o) && Confirms(inspect(second), o)
      && !SourceLost(signatures(k).source)
  {
    hide UsageScan, Candidate, Status, Blocks, Confirms, SourceLost, FirstRead, SecondRead, Unused, ClearAbove, MountsExplained, MountTime,
         ConfirmTime;
    var d := BlockKey(host.nodes[k].observation.kernelName);
    ReadyIsSound(inv, ev, d);
    KeptPath(host, inspect, signatures, k);
    ScanKeepsNodes(host, inspect, signatures);
    ReadyBlock(inv, ev, k);
  }

  lemma ReadyBlock(inv: Snapshot, ev: Evidence, k: nat)
    requires k < |inv.nodes|
    requires IsReady(inv, ev, BlockKey(inv.nodes[k].observation.kernelName))
    ensures var d := BlockKey(inv.nodes[k].observation.kernelName); d in Blocks(inv.nodes) && Blocks(inv.nodes)[d] == inv.nodes[k]
  {
    hide Status, Blocks;
    var d := BlockKey(inv.nodes[k].observation.kernelName);
    BlocksHaveKeys(inv.nodes, d);
    var m :| 0 <= m < |inv.nodes| && inv.nodes[m] == Blocks(inv.nodes)[d] && d == BlockKey(inv.nodes[m].observation.kernelName);
    P.BlockKeyInjective(inv.nodes[k].observation.kernelName, inv.nodes[m].observation.kernelName);
    P.ReadyIsUnique(inv, ev, k, m);
  }

  // Nothing of a READY device is mounted or swapped to

  /** No mount has the device number of a node that reaches `d`; and every mount without
      a node is harmless and has the number of no node. */
  ghost predicate NothingMounted(host: Host, g: Graph, d: Key) {
    var seen := Observations(host.nodes);
    && (forall i, k :: 0 <= i < |host.mounts| && 0 <= k < |seen| && HasNumber(seen, host.mounts[i].device, k) ==>
          !Reaches(g, BlockKey(seen[k].kernelName), d))
    && (forall i :: 0 <= i < |host.mounts| && MountOwner(seen, host.mounts, i).None? ==>
          HarmlessMount(host.mounts[i]) && forall k :: 0 <= k < |seen| ==> !HasNumber(seen, host.mounts[i].device, k))
  }

  /** Every swap has a node, which does not reach `d`. */
  ghost predicate NothingSwapped(host: Host, inspect: Inspect, g: Graph, d: Key) {
    var seen, later := Observations(host.nodes), Later(inspect, SwapTime(host));
    forall i :: 0 <= i < |host.swaps| ==>
      && SwapOwner(seen, host.swaps, later, i).Some?
      && !Reaches(g, BlockKey(seen[SwapOwner(seen, host.swaps, later, i).value].kernelName), d)
  }

  /** On a scanned host nothing that reaches a READY device is mounted or swapped to, and
      no mount or swap is left unaccounted for. */
  lemma ReadyIsUnmounted(inv: Snapshot, ev: Evidence, host: Host, inspect: Inspect, signatures: Signatures, d: Key)
    requires Untouched(host) && Scanned(inv, host, inspect, signatures) && NoBlankNode(host, ev) && IsReady(inv, ev, d)
    ensures NothingMounted(host, OwnershipGraph(inv, ev), d) && NothingSwapped(host, inspect, OwnershipGraph(inv, ev), d)
  {
    hide UsageScan, IsReady, OwnershipGraph, Untouched, HarmlessMount, MountOwner, SwapOwner, HasNumber, Observations, NoBlankNode, Reaches,
         SwapTime;
    var seen := Observations(host.nodes);
    forall i | 0 <= i < |host.mounts| && MountOwner(seen, host.mounts, i).None?
      ensures HarmlessMount(host.mounts[i]) && forall k :: 0 <= k < |seen| ==> !HasNumber(seen, host.mounts[i].device, k)
    {
      LeftOutNumber(inv, ev, host, inspect, signatures, d, i);
    }
    forall i, k | 0 <= i < |host.mounts| && 0 <= k < |seen| && HasNumber(seen, host.mounts[i].device, k)
      ensures !Reaches(OwnershipGraph(inv, ev), BlockKey(seen[k].kernelName), d)
    {
      MountedElsewhere(inv, ev, host, inspect, signatures, d, i, k);
    }
    forall i | 0 <= i < |host.swaps|
      ensures var later := Later(inspect, SwapTime(host));
        && SwapOwner(seen, host.swaps, later, i).Some?
        && !Reaches(OwnershipGraph(inv, ev), BlockKey(seen[SwapOwner(seen, host.swaps, later, i).value].kernelName), d)
    {
      SwappedElsewhere(inv, ev, host, inspect, signatures, d, i);
    }
  }

  lemma LeftOutNumber(inv: Snapshot, ev: Evidence, host: Host, inspect: Inspect, signatures: Signatures, d: Key, i: nat)
    requires Untouched(host) && Scanned(inv, host, inspect, signatures) && NoBlankNode(host, ev)
    requires IsReady(inv, ev, d)
    requires i < |host.mounts| && MountOwner(Observations(host.nodes), host.mounts, i).None?
    ensures HarmlessMount(host.mounts[i])
    ensures forall k :: 0 <= k < |host.nodes| ==> !HasNumber(Observations(host.nodes), host.mounts[i].device, k)
  {
    hide UsageScan, IsReady, Untouched, HarmlessMount, MountOwner, NoBlankNode;
    LeftOutIsHarmless(inv, ev, host, inspect, signatures, d, i);
    ScanKeepsNodes(host, inspect, signatures);
    assert forall k :: 0 <= k < |host.nodes| ==> inv.nodes[k].observation == host.nodes[k].observation;
  }

  lemma MountedElsewhere(inv: Snapshot, ev: Evidence, host: Host, inspect: Inspect, signatures: Signatures, d: Key, i: nat, k: nat)
    requires Untouched(host) && Scanned(inv, host, inspect, signatures) && NoBlankNode(host, ev)
    requires IsReady(inv, ev, d)
    requires i < |host.mounts| && k < |host.nodes| && HasNumber(Observations(host.nodes), host.mounts[i].device, k)
    ensures !Reaches(OwnershipGraph(inv, ev), BlockKey(Observations(host.nodes)[k].kernelName), d)
  {
    hide UsageScan, Candidate, Status, Untouched, MountOwner, NoBlankNode, OwnershipGraph, Reaches, ClearAbove, SoundDevice, MountsExplained,
         Observations, HasNumber, Claims;
    if MountOwner(Observations(host.nodes), host.mounts, i).None? {
      LeftOutNumber(inv, ev, host, inspect, signatures, d, i);
    } else {
      ReadyIsSound(inv, ev, d);
      RowNamesOwner(host, inspect, signatures, MountRow(i));
      RowCounts(host, inspect, signatures);
      SoleOwner(host, i, k);
      ObservationAt(host.nodes, k);
    }
  }

  lemma SwappedElsewhere(inv: Snapshot, ev: Evidence, host: Host, inspect: Inspect, signatures: Signatures, d: Key, i: nat)
    requires Untouched(host) && Scanned(inv, host, inspect, signatures) && i < |host.swaps|
    requires IsReady(inv, ev, d)
    ensures var seen, later := Observations(host.nodes), Later(inspect, SwapTime(host));
      && SwapOwner(seen, host.swaps, later, i).Some?
      && !Reaches(OwnershipGraph(inv, ev), BlockKey(seen[SwapOwner(seen, host.swaps, later, i).value].kernelName), d)
  {
    hide UsageScan, Candidate, Status, Untouched, SwapOwner, OwnershipGraph, Reaches, ClearAbove, SoundDevice, MountsExplained, Observations,
         Claims, SwapTime;
    ReadyIsSound(inv, ev, d);
    RowNamesOwner(host, inspect, signatures, SwapRow(i));
    RowCounts(host, inspect, signatures);
    var owner := SwapOwner(Observations(host.nodes), host.swaps, Later(inspect, SwapTime(host)), i);
    if owner.Some? {
      ObservationAt(host.nodes, owner.value);
    }
  }

  lemma RowCounts(host: Host, inspect: Inspect, signatures: Signatures)
    ensures |UsageScan(host, inspect, signatures).mounts| == |host.mounts|
    ensures |UsageScan(host, inspect, signatures).swaps| == |host.swaps|
  {
    hide UsageScan, AttributedNodes, AttributedMount, AttributedSwap;
    ScanShape(host, inspect, signatures);
  }

  lemma SoleOwner(host: Host, i: nat, k: nat)
    requires i < |host.mounts| && k < |host.nodes| && HasNumber(Observations(host.nodes), host.mounts[i].device, k)
    ensures var owner := MountOwner(Observations(host.nodes), host.mounts, i);
      owner.None? || owner == Some(k)
  {
    hide UniqueMount, HasNumber;
  }

  // Claims fail closed on what a scan leaves

  /** On a scanned host further claims never make a device READY: what the scan reports
      of a mount without a node cannot be explained away by a claim. */
  lemma ClaimsFailClosed(inv: Snapshot, ev: Evidence, more: Evidence, host: Host, inspect: Inspect, signatures: Signatures, d: Key)
    requires Untouched(host) && Scanned(inv, host, inspect, signatures) && NoBlankNode(host, ev)
    requires MoreClaims(ev, more) && IsReady(inv, more, d)
    ensures IsReady(inv, ev, d)
  {
    hide UsageScan, Status, Blocks, Untouched, HarmlessMount, MountCovered, MountOwner, SoleHarmlessMount;
    assert d in Blocks(inv.nodes);
    forall i | 0 <= i < |inv.mounts| && inv.mounts[i].node.None? ensures HarmlessMount(inv.mounts[i]) {
      RowCounts(host, inspect, signatures);
      RowNamesOwner(host, inspect, signatures, MountRow(i));
      LeftOutIsHarmless(inv, more, host, inspect, signatures, d, i);
      HarmlessAlone(inv, i, host.mounts[i].mountId);
    }
    ClaimsFailClosedExactly(inv, ev, more, d);
  }

  lemma HarmlessAlone(inv: Snapshot, i: nat, id: nat)
    requires i < |inv.mounts| && SoleHarmlessMount(inv, i, id)
    ensures HarmlessMount(inv.mounts[i])
  {
    hide HarmlessMount;
  }
}
