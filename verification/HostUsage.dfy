/** The whole pass over a freshly resolved inventory: paths and signatures, mounts,
    swaps, paths once more, partitions, and the order of every list. */
module HostUsage {
  import opened Inventory
  import opened Canonical
  import opened IssueOrder
  import opened HostReads
  import opened MountUsage
  import opened SwapUsage
  import opened DiskUsage

  function IndexKey(row: nat): seq<int> {
    [row]
  }

  /** A virtual node with usage of its own is reported, and every list is sorted. */
  function Finished(node: ResolvedNode): ResolvedNode {
    var found := if (node.mounts != [] || node.swaps != []) && node.observation.kind == VirtualOrPseudo
                 then [Issue(UnsupportedTopology, node.observation.kernelName, "usage_parent")] else [];
    node.(mounts := Sort(node.mounts, IndexKey), swaps := Sort(node.swaps, IndexKey), usageNodes := Sort(node.usageNodes, Bytes),
          issues := Normalize(node.issues + found, DiscoveryIssueKey))
  }

  function AllFinished(nodes: seq<ResolvedNode>): seq<ResolvedNode> {
    seq(|nodes|, k requires 0 <= k < |nodes| => Finished(nodes[k]))
  }

  method FinishNodes(nodes: array<ResolvedNode>)
    modifies nodes
    ensures nodes[..] == AllFinished(old(nodes[..]))
  {
    hide Sort, Normalize, Midway, AllFinished;
    ghost var was := nodes[..];
    ghost var goal := AllFinished(was);
    FinishedLength(was);
    MidwayEnds(was, goal);
    for k := 0 to nodes.Length
      invariant nodes[..] == Midway(was, goal, k)
    {
      MidwayStep(was, goal, k);
      FinishedAt(was, k);
      ghost var now := nodes[..];
      var node := nodes[k];
      assert node == now[k];
      var found := node.issues;
      if (node.mounts != [] || node.swaps != []) && node.observation.kind == VirtualOrPseudo {
        found := found + [Issue(UnsupportedTopology, node.observation.kernelName, "usage_parent")];
      }
      assert node.issues + [] == node.issues;
      nodes[k] := node.(mounts := Sort(node.mounts, IndexKey), swaps := Sort(node.swaps, IndexKey), usageNodes := Sort(node.usageNodes, Bytes),
                        issues := Normalize(found, DiscoveryIssueKey));
      assert nodes[..] == now[k := goal[k]];
    }
  }

  lemma FinishedLength(nodes: seq<ResolvedNode>)
    ensures |AllFinished(nodes)| == |nodes|
  {
  }

  lemma FinishedAt(nodes: seq<ResolvedNode>, k: nat)
    requires k < |nodes|
    ensures |AllFinished(nodes)| == |nodes| && AllFinished(nodes)[k] == Finished(nodes[k])
  {
  }

  // The whole scan

  function OpenPass(host: Host, inspect: Inspect, signatures: Signatures): Host {
    host.(nodes := Opened(host.nodes, inspect, signatures))
  }

  function MountPass(host: Host, inspect: Inspect): Host {
    var seen := Observations(host.nodes);
    host.(nodes := Mounted(host.nodes, host.mounts), mounts := NamedMounts(seen, host.mounts),
          issues := host.issues + MountIssues(seen, host.mounts, inspect, |host.mounts|))
  }

  function SwapPass(host: Host, inspect: Inspect): Host {
    var seen := Observations(host.nodes);
    host.(nodes := Swapped(host.nodes, host.swaps, inspect), swaps := NamedSwaps(seen, host.swaps, inspect),
          issues := host.issues + SwapIssues(seen, host.swaps, inspect, |host.swaps|))
  }

  function ConfirmPass(host: Host, inspect: Inspect): Host {
    host.(nodes := Confirmed(host.nodes, inspect))
  }

  function GatherPass(host: Host): Host {
    host.(nodes := AllGathered(host.nodes, |host.nodes|), issues := host.issues + ParentIssues(host.nodes, |host.nodes|))
  }

  function FinishPass(host: Host): Host {
    host.(nodes := AllFinished(host.nodes), issues := Normalize(host.issues, DiscoveryIssueKey))
  }

  /** When each pass makes its first metadata read: the reads follow one another. */
  function MountTime(host: Host): nat {
    PathReads(host.nodes, |host.nodes|)
  }

  function SwapTime(host: Host): nat {
    MountTime(host) + MountReads(Observations(host.nodes), host.mounts, |host.mounts|)
  }

  function ConfirmTime(host: Host): nat {
    SwapTime(host) + SwapReads(host.swaps, |host.swaps|)
  }

  /** The snapshot after the usage of the host was read. */
  function UsageScan(host: Host, inspect: Inspect, signatures: Signatures): Host {
    var entered := OpenPass(host, inspect, signatures);
    var mounted := MountPass(entered, Later(inspect, MountTime(host)));
    var swapped := SwapPass(mounted, Later(inspect, SwapTime(host)));
    FinishPass(GatherPass(ConfirmPass(swapped, Later(inspect, ConfirmTime(host)))))
  }

  lemma OpenedSame(nodes: seq<ResolvedNode>, inspect: Inspect, signatures: Signatures)
    ensures Observations(Opened(nodes, inspect, signatures)) == Observations(nodes)
  {
    hide Opened, SourceLost, PathReads, Confirms;
    OpenedLength(nodes, inspect, signatures);
    forall k | 0 <= k < |nodes| ensures Opened(nodes, inspect, signatures)[k].observation == nodes[k].observation {
      OpenedAt(nodes, inspect, signatures, k);
    }
  }

  lemma ScanStages(host: Host, inspect: Inspect, signatures: Signatures, entered: Host, mounted: Host, swapped: Host)
    requires entered == OpenPass(host, inspect, signatures)
    requires mounted == MountPass(entered, Later(inspect, MountTime(host)))
    requires swapped == SwapPass(mounted, Later(inspect, SwapTime(host)))
    ensures UsageScan(host, inspect, signatures) == FinishPass(GatherPass(ConfirmPass(swapped, Later(inspect, ConfirmTime(host)))))
  {
    hide OpenPass, MountPass, SwapPass, ConfirmPass, GatherPass, FinishPass, MountTime, SwapTime, ConfirmTime, Later;
  }

  /** The host-usage scan over freshly resolved nodes and parsed rows. */
  method ScanUsage(nodes: array<ResolvedNode>, mounts: array<MountEvidence>, swaps: array<SwapEvidence>, known: seq<DiscoveryIssue>,
                   inspect: Inspect, signatures: Signatures)
    returns (issues: seq<DiscoveryIssue>)
    modifies nodes, mounts, swaps
    ensures Host(nodes[..], mounts[..], swaps[..], issues) ==
      UsageScan(Host(old(nodes[..]), old(mounts[..]), old(swaps[..]), known), inspect, signatures)
  {
    hide Opened, Mounted, NamedMounts, MountIssues, Swapped, NamedSwaps, SwapIssues, Confirmed, AllGathered, ParentIssues, AllFinished,
         Normalize, Later, Observations, PathReads, MountReads, SwapReads, UsageScan;
    ghost var host := Host(nodes[..], mounts[..], swaps[..], known);
    OpenedSame(nodes[..], inspect, signatures);
    var time := OpenNodes(nodes, inspect, signatures);
    ghost var entered := OpenPass(host, inspect, signatures);
    assert nodes[..] == entered.nodes && mounts[..] == host.mounts && swaps[..] == host.swaps && time == MountTime(host);
    var mountIssues, taken := AttributeMounts(nodes, mounts, Later(inspect, time));
    ghost var mounted := MountPass(entered, Later(inspect, time));
    assert nodes[..] == mounted.nodes && mounts[..] == mounted.mounts && known + mountIssues == mounted.issues;
    time := time + taken;
    assert time == SwapTime(host);
    var swapIssues, more := AttributeSwaps(nodes, swaps, Later(inspect, time));
    ghost var swapped := SwapPass(mounted, Later(inspect, time));
    assert nodes[..] == swapped.nodes && swaps[..] == swapped.swaps && known + mountIssues + swapIssues == swapped.issues;
    time := time + more;
    assert time == ConfirmTime(host);
    ConfirmPaths(nodes, Later(inspect, time));
    ghost var confirmed := ConfirmPass(swapped, Later(inspect, time));
    var parentIssues := AggregateUsage(nodes);
    ghost var gathered := GatherPass(confirmed);
    assert nodes[..] == gathered.nodes && known + mountIssues + swapIssues + parentIssues == gathered.issues;
    FinishNodes(nodes);
    issues := Normalize(known + mountIssues + swapIssues + parentIssues, DiscoveryIssueKey);
    assert Host(nodes[..], mounts[..], swaps[..], issues) == FinishPass(gathered);
    ScanStages(host, inspect, signatures, entered, mounted, swapped);
  }
}
