/** Everything that a host-usage scan finds about a node is among its issues. */
module UsageIssues {
  import opened Text
  import opened Inventory
  import opened Canonical
  import opened IssueOrder
  import opened HostReads
  import opened MountUsage
  import opened SwapUsage
  import opened DiskUsage
  import opened HostUsage
  import opened HostUsageTheorems

  /** A read of the node's path reported `x`, or did not confirm the device and `x` says so. */
  predicate PathFinding(read: PathRead, o: Observation, x: DiscoveryIssue) {
    x in read.issues || (!Confirms(read, o) && x == DiscoveryIssue(SnapshotChanged, o.kernelName, "current_path", None, None))
  }

  /** The signature source said `x` of itself or of its record, or the signature reported
      contradicts a mount or swap of the node and `x` says so. */
  predicate SignatureFinding(host: Host, inspect: Inspect, read: SignatureRead, k: nat, x: DiscoveryIssue)
    requires k < |host.nodes|
  {
    || x in read.source || x in read.raised
    || (read.signature.state == Reported && Contradicted(host, inspect, read.signature, k)
        && x == DiscoveryIssue(DiscoveryIssueCode.Conflict, host.nodes[k].observation.kernelName, "signature", None, None))
  }

  /** `x` was known of node `k` before the scan, or the scan found it: on the first read of
      its path, with its signature, on the second read of a path that was still there, or
      as usage of a virtual node. */
  predicate Found(host: Host, inspect: Inspect, signatures: Signatures, k: nat, used: bool, x: DiscoveryIssue)
    requires k < |host.nodes|
  {
    var was, first, second := host.nodes[k], inspect(FirstRead(host, k)), inspect(SecondRead(host, inspect, signatures, k));
    || x in was.issues
    || (was.currentPath.Some? && PathFinding(first, was.observation, x))
    || SignatureFinding(host, inspect, signatures(k), k, x)
    || (was.currentPath.Some? && Confirms(first, was.observation) && !SourceLost(signatures(k).source) && PathFinding(second, was.observation, x))
    || (used && was.observation.kind == VirtualOrPseudo
        && x == DiscoveryIssue(UnsupportedTopology, was.observation.kernelName, "usage_parent", None, None))
  }

  lemma CheckedIssues(node: ResolvedNode, read: PathRead, x: DiscoveryIssue)
    ensures x in Checked(node, read).issues <==>
      x in node.issues || (node.currentPath.Some? && PathFinding(read, node.observation, x))
  {
  }

  lemma SignedIssues(node: ResolvedNode, read: SignatureRead, x: DiscoveryIssue)
    ensures x in Signed(node, read).issues <==> x in node.issues || x in read.source || x in read.raised
    ensures Signed(node, read).signature == read.signature && Signed(node, read).observation == node.observation
  {
    hide SourceLost;
  }

  lemma HeldIssues(node: ResolvedNode, mounts: seq<MountEvidence>, rows: seq<nat>, swaps: seq<nat>, x: DiscoveryIssue)
    ensures var held := HoldSwaps(HoldMounts(node, mounts, rows), swaps);
      x in held.issues <==>
        || x in node.issues
        || (node.signature.state == Reported && (MountsDispute(node.signature, mounts, rows) || (node.signature.kind != Some("swap") && swaps != []))
            && x == DiscoveryIssue(DiscoveryIssueCode.Conflict, node.observation.kernelName, "signature", None, None))
  {
    hide MountsDispute;
  }

  lemma FiledIssues(host: Host, inspect: Inspect, signatures: Signatures, k: nat, x: DiscoveryIssue)
    requires k < |host.nodes|
    ensures var was := host.nodes[k];
      x in Filed(host, inspect, signatures, k).issues <==>
        || x in was.issues
        || (was.currentPath.Some? && PathFinding(inspect(FirstRead(host, k)), was.observation, x))
        || SignatureFinding(host, inspect, signatures(k), k, x)
  {
    hide HoldMounts, HoldSwaps, Signed, Checked, MountRowsOf, SwapRowsOf, MountsDispute, PathFinding, FirstRead, MountOwner, SwapOwner,
         MountDisagrees, SwapTime;
    var node := host.nodes[k];
    var checked := Checked(node, inspect(FirstRead(host, k)));
    CheckedSame(node, inspect(FirstRead(host, k)));
    CheckedIssues(node, inspect(FirstRead(host, k)), x);
    SignedIssues(checked, signatures(k), x);
    HeldIssues(Signed(checked, signatures(k)), host.mounts, MountRowsOf(host, k), SwapRowsOf(host, inspect, k), x);
    MountsDisputeIs(host, signatures(k).signature, k);
    SwapsHeldIs(host, inspect, k);
  }

  lemma CheckedSame(node: ResolvedNode, read: PathRead)
    ensures Checked(node, read).observation == node.observation
  {
  }

  lemma {:induction false} GatheredIssues(nodes: seq<ResolvedNode>, p: nat, n: nat)
    requires p < |nodes| && n <= |nodes|
    ensures Gathered(nodes, p, n).issues == nodes[p].issues
  {
    if n > 0 {
      GatheredIssues(nodes, p, n - 1);
    }
  }

  lemma FinishedIssues(node: ResolvedNode, x: DiscoveryIssue)
    ensures var done := Finished(node);
      && (x in done.issues <==>
           || x in node.issues
           || ((done.mounts != [] || done.swaps != []) && node.observation.kind == VirtualOrPseudo
               && x == DiscoveryIssue(UnsupportedTopology, node.observation.kernelName, "usage_parent", None, None)))
      && done.observation == node.observation
  {
    hide Sort, Normalize, Bytes, DiscoveryIssueKey;
    SortCorrect(node.mounts, IndexKey);
    SortCorrect(node.swaps, IndexKey);
    SameCount(node.mounts, Sort(node.mounts, IndexKey));
    SameCount(node.swaps, Sort(node.swaps, IndexKey));
    var found := if (node.mounts != [] || node.swaps != []) && node.observation.kind == VirtualOrPseudo
                 then [Issue(UnsupportedTopology, node.observation.kernelName, "usage_parent")] else [];
    DiscoveryIssueKeyInjective();
    NormalizeCorrect(node.issues + found, DiscoveryIssueKey);
    assert x in Finished(node).issues <==> x in Elements(Finished(node).issues);
    assert x in node.issues + found <==> x in Elements(node.issues + found);
  }

  lemma SameCount<T>(a: seq<T>, b: seq<T>)
    requires multiset(a) == multiset(b)
    ensures a == [] <==> b == []
  {
    assert |multiset(a)| == |a| && |multiset(b)| == |b|;
  }

  /** After a scan the issues of a node are those known before and those found, no more
      and no less. */
  lemma IssuesAreFindings(host: Host, inspect: Inspect, signatures: Signatures, k: nat, x: DiscoveryIssue)
    requires k < |host.nodes|
    ensures |UsageScan(host, inspect, signatures).nodes| == |host.nodes|
    ensures var node := UsageScan(host, inspect, signatures).nodes[k];
      x in node.issues <==> Found(host, inspect, signatures, k, node.mounts != [] || node.swaps != [], x)
  {
    hide AttributedNodes, UsageScan, Filed, Finished, Gathered, Confirms, SourceLost, FirstRead, SecondRead, MountRowsOf, SwapRowsOf,
         SignatureFinding, PathFinding;
    var nodes := AttributedNodes(host, inspect, signatures);
    ScannedNode(host, inspect, signatures, k);
    AttributedNode(host, inspect, signatures, k);
    AttributedFields(host, inspect, signatures, k);
    var filed := Filed(host, inspect, signatures, k);
    FiledIssues(host, inspect, signatures, k, x);
    CheckedIssues(filed, inspect(SecondRead(host, inspect, signatures, k)), x);
    CheckedSame(filed, inspect(SecondRead(host, inspect, signatures, k)));
    GatheredKeeps(nodes, k, |nodes|);
    GatheredIssues(nodes, k, |nodes|);
    FinishedIssues(Gathered(nodes, k, |nodes|), x);
  }

  // Issues of the snapshot

  /** What the i-th mount leaves to report: that it has no node; or a source path that does
      not confirm its node, or a root that is not the whole filesystem. */
  predicate MountFinding(host: Host, inspect: Inspect, i: nat, x: DiscoveryIssue)
    requires i < |host.mounts|
  {
    var m, owner := host.mounts[i], MountOwner(Observations(host.nodes), host.mounts, i);
    if owner.None? then x == DiscoveryIssue(UncorrelatedUsage, "", "mountinfo", None, Some(m.mountId))
    else
      var o := host.nodes[owner.value].observation;
      var read := inspect(MountTime(host) + MountReads(Observations(host.nodes), host.mounts, i));
      || ("/dev/" <= m.source && (x in read.issues
          || (!Confirms(read, o) && x == DiscoveryIssue(SnapshotChanged, o.kernelName, "mount_source", None, None))))
      || (m.root != "/" && x == DiscoveryIssue(UnsupportedTopology, o.kernelName, "mount_root", None, None))
  }

  /** What the i-th swap leaves to report: that it is none that is looked at; or what two
      reads of its path met, and that they gave it no node. */
  predicate SwapFinding(host: Host, inspect: Inspect, i: nat, x: DiscoveryIssue)
    requires i < |host.swaps|
  {
    var at := SwapTime(host) + SwapReads(host.swaps, i);
    var plain := host.swaps[i].kind == "partition" && forall j :: 0 <= j < |host.swaps| && host.swaps[j].path == host.swaps[i].path ==> j == i;
    if !plain then x == DiscoveryIssue(UnsupportedTopology, "", "swap_source", None, None)
    else
      || x in inspect(at).issues || x in inspect(at + 1).issues
      || (SwapOwner(Observations(host.nodes), host.swaps, Later(inspect, SwapTime(host)), i).None?
          && x == DiscoveryIssue(UncorrelatedUsage, "", "swap_source", None, None))
  }

  /** A partition that counts for no disk is reported. */
  predicate ParentFinding(nodes: seq<ResolvedNode>, c: nat, x: DiscoveryIssue)
    requires c < |nodes|
  {
    && nodes[c].observation.nodeType == PartitionNode && (forall p :: 0 <= p < |nodes| ==> !Accepts(nodes, c, p))
    && x == DiscoveryIssue(UnsupportedTopology, nodes[c].observation.kernelName, "usage_parent", None, None)
  }

  lemma MountIssueIs(host: Host, inspect: Inspect, i: nat, x: DiscoveryIssue)
    requires i < |host.mounts|
    ensures x in MountIssue(Observations(host.nodes), host.mounts, Later(inspect, MountTime(host)), i) <==> MountFinding(host, inspect, i, x)
  {
    hide MountOwner, MountReads, MountTime, Confirms;
  }

  lemma {:induction false} MountIssuesAre(host: Host, inspect: Inspect, n: nat, x: DiscoveryIssue)
    requires n <= |host.mounts|
    ensures x in MountIssues(Observations(host.nodes), host.mounts, Later(inspect, MountTime(host)), n) <==>
      exists i :: 0 <= i < n && MountFinding(host, inspect, i, x)
  {
    hide MountIssue, MountFinding, MountTime, Later, Observations;
    if n > 0 {
      MountIssuesAre(host, inspect, n - 1, x);
      MountIssueIs(host, inspect, n - 1, x);
    }
  }

  lemma SwapIssueIs(host: Host, inspect: Inspect, i: nat, x: DiscoveryIssue)
    requires i < |host.swaps|
    ensures x in SwapIssue(Observations(host.nodes), host.swaps, Later(inspect, SwapTime(host)), i) <==> SwapFinding(host, inspect, i, x)
  {
    hide SwapOwner, SwapReads, SwapTime;
    OnceOnly(SwapPaths(host.swaps), i);
    assert forall j :: 0 <= j < |host.swaps| ==> SwapPaths(host.swaps)[j] == host.swaps[j].path;
  }

  lemma {:induction false} SwapIssuesAre(host: Host, inspect: Inspect, n: nat, x: DiscoveryIssue)
    requires n <= |host.swaps|
    ensures x in SwapIssues(Observations(host.nodes), host.swaps, Later(inspect, SwapTime(host)), n) <==>
      exists i :: 0 <= i < n && SwapFinding(host, inspect, i, x)
  {
    hide SwapIssue, SwapFinding, SwapTime, Later, Observations;
    if n > 0 {
      SwapIssuesAre(host, inspect, n - 1, x);
      SwapIssueIs(host, inspect, n - 1, x);
    }
  }

  lemma ParentIssueIs(nodes: seq<ResolvedNode>, c: nat, x: DiscoveryIssue)
    requires c < |nodes|
    ensures x in ParentIssue(nodes, c) <==> ParentFinding(nodes, c, x)
  {
    hide Accepts;
  }

  lemma {:induction false} ParentIssuesAre(nodes: seq<ResolvedNode>, n: nat, x: DiscoveryIssue)
    requires n <= |nodes|
    ensures x in ParentIssues(nodes, n) <==> exists c :: 0 <= c < n && ParentFinding(nodes, c, x)
  {
    hide ParentIssue, ParentFinding;
    if n > 0 {
      ParentIssuesAre(nodes, n - 1, x);
      ParentIssueIs(nodes, n - 1, x);
    }
  }

  lemma ParentFindingSame(a: seq<ResolvedNode>, b: seq<ResolvedNode>, c: nat, x: DiscoveryIssue)
    requires SameNodes(a, b) && c < |a|
    ensures ParentFinding(a, c, x) <==> ParentFinding(b, c, x)
  {
    forall p | 0 <= p < |a| ensures Accepts(a, c, p) == Accepts(b, c, p) {
      AcceptsSame(a, b, c, p);
    }
    hide Accepts;
  }

  /** After a scan the issues of the snapshot are those known before, and those that some
      mount, swap or partition left, no more and no less. */
  lemma SnapshotIssuesAreFindings(host: Host, inspect: Inspect, signatures: Signatures, x: DiscoveryIssue)
    ensures x in UsageScan(host, inspect, signatures).issues <==>
      || x in host.issues
      || (exists i :: 0 <= i < |host.mounts| && MountFinding(host, inspect, i, x))
      || (exists i :: 0 <= i < |host.swaps| && SwapFinding(host, inspect, i, x))
      || (exists c :: 0 <= c < |host.nodes| && ParentFinding(host.nodes, c, x))
  {
    hide UsageScan, AttributedNodes, MountIssues, SwapIssues, ParentIssues, Observations, MountTime, SwapTime, Later, MountFinding, SwapFinding,
         ParentFinding, Normalize, DiscoveryIssueKey;
    var nodes, seen := AttributedNodes(host, inspect, signatures), Observations(host.nodes);
    var a, b, c := MountIssues(seen, host.mounts, Later(inspect, MountTime(host)), |host.mounts|),
                   SwapIssues(seen, host.swaps, Later(inspect, SwapTime(host)), |host.swaps|), ParentIssues(nodes, |nodes|);
    ScanIssues(host, inspect, signatures);
    DiscoveryIssueKeyInjective();
    NormalizeCorrect(host.issues + a + b + c, DiscoveryIssueKey);
    var issues := UsageScan(host, inspect, signatures).issues;
    assert x in issues <==> x in Elements(issues);
    assert x in host.issues + a + b + c <==> x in Elements(host.issues + a + b + c);
    MountIssuesAre(host, inspect, |host.mounts|, x);
    SwapIssuesAre(host, inspect, |host.swaps|, x);
    ParentIssuesAre(nodes, |nodes|, x);
    AttributedSame(host, inspect, signatures);
    forall k | 0 <= k < |nodes| ensures ParentFinding(host.nodes, k, x) <==> ParentFinding(nodes, k, x) {
      ParentFindingSame(host.nodes, nodes, k, x);
    }
  }

  // Whose usage a node lists

  lemma {:induction false} GatheredNames(nodes: seq<ResolvedNode>, p: nat, n: nat, name: string)
    requires p < |nodes| && n <= |nodes|
    ensures name in Gathered(nodes, p, n).usageNodes <==>
      name in nodes[p].usageNodes || exists c :: 0 <= c < n && Accepts(nodes, c, p) && nodes[c].observation.kernelName == name
  {
    hide Accepts;
    if n > 0 {
      GatheredNames(nodes, p, n - 1, name);
    }
  }

  lemma FiledNames(host: Host, inspect: Inspect, signatures: Signatures, k: nat)
    requires k < |host.nodes|
    ensures Checked(Filed(host, inspect, signatures, k), inspect(SecondRead(host, inspect, signatures, k))).usageNodes ==
      host.nodes[k].usageNodes + [host.nodes[k].observation.kernelName]
  {
    hide MountsDispute, MountRowsOf, SwapRowsOf, Confirms, SourceLost, FirstRead, SecondRead;
  }

  lemma FinishedNames(node: ResolvedNode, name: string)
    ensures name in Finished(node).usageNodes <==> name in node.usageNodes
  {
    hide Sort, Normalize, Bytes, DiscoveryIssueKey;
    SortCorrect(node.usageNodes, Bytes);
    assert name in node.usageNodes <==> name in multiset(node.usageNodes);
    assert name in Finished(node).usageNodes <==> name in multiset(Finished(node).usageNodes);
  }

  /** A node lists the usage of itself and of every partition that counts for it, and of
      nothing that it did not list before. */
  lemma UsageNodesAre(host: Host, inspect: Inspect, signatures: Signatures, p: nat, name: string)
    requires p < |host.nodes|
    ensures |UsageScan(host, inspect, signatures).nodes| == |host.nodes|
    ensures name in UsageScan(host, inspect, signatures).nodes[p].usageNodes <==>
      || name in host.nodes[p].usageNodes || name == host.nodes[p].observation.kernelName
      || exists c :: 0 <= c < |host.nodes| && Accepts(host.nodes, c, p) && host.nodes[c].observation.kernelName == name
  {
    hide AttributedNodes, UsageScan, Filed, Finished, Gathered, Accepts, SecondRead;
    var nodes := AttributedNodes(host, inspect, signatures);
    ScannedNode(host, inspect, signatures, p);
    AttributedNode(host, inspect, signatures, p);
    AttributedSame(host, inspect, signatures);
    FiledNames(host, inspect, signatures, p);
    GatheredNames(nodes, p, |nodes|, name);
    FinishedNames(Gathered(nodes, p, |nodes|), name);
    forall c | 0 <= c < |nodes| ensures Accepts(nodes, c, p) <==> Accepts(host.nodes, c, p) {
      AcceptsSame(host.nodes, nodes, c, p);
    }
  }
}
