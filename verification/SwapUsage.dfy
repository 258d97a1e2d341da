/** The node that each active swap is on. */
module SwapUsage {
  import opened Text
  import opened Inventory
  import opened HostReads

  function SwapPaths(swaps: seq<SwapEvidence>): seq<string> {
    seq(|swaps|, i requires 0 <= i < |swaps| => swaps[i].path)
  }

  predicate UniqueSwap(swaps: seq<SwapEvidence>, i: nat)
    requires i < |swaps|
  {
    multiset(SwapPaths(swaps))[swaps[i].path] == 1
  }

  /** Only a swap partition under a path of its own is looked at. */
  predicate Inspected(swaps: seq<SwapEvidence>, i: nat)
    requires i < |swaps|
  {
    swaps[i].kind == "partition" && UniqueSwap(swaps, i)
  }

  /** Two reads of a swap path agree on the block node behind it. */
  predicate SteadyBlock(first: PathRead, second: PathRead) {
    && first.status.Some? && second.status.Some? && first.issues == [] && second.issues == [] && first.status == second.status
    && first.status.value.isBlock && first.status.value.number.Some?
  }

  /** How many metadata reads the first n swaps take. */
  function SwapReads(swaps: seq<SwapEvidence>, n: nat): nat
    requires n <= |swaps|
  {
    if n == 0 then 0 else SwapReads(swaps, n - 1) + if Inspected(swaps, n - 1) then 2 else 0
  }

  /** The device number found behind the i-th swap. */
  function SwapDevice(swaps: seq<SwapEvidence>, inspect: Inspect, i: nat): Option<DeviceNumber>
    requires i < |swaps|
  {
    var at := SwapReads(swaps, i);
    if Inspected(swaps, i) && SteadyBlock(inspect(at), inspect(at + 1)) then inspect(at).status.value.number else None
  }

  /** The node that the i-th swap is attributed to. */
  function SwapOwner(seen: seq<Observation>, swaps: seq<SwapEvidence>, inspect: Inspect, i: nat): (k: Option<nat>)
    requires i < |swaps|
    ensures k.Some? ==> k.value < |seen|
  {
    var device := SwapDevice(swaps, inspect, i);
    if device.None? then None else SoleNode(seen, device.value)
  }

  function SwapOwners(seen: seq<Observation>, swaps: seq<SwapEvidence>, inspect: Inspect): seq<Option<nat>> {
    seq(|swaps|, i requires 0 <= i < |swaps| => SwapOwner(seen, swaps, inspect, i))
  }

  function Located(swap: SwapEvidence, device: Option<DeviceNumber>): SwapEvidence {
    if device.None? then swap else swap.(device := device)
  }

  function AttributedSwap(seen: seq<Observation>, swaps: seq<SwapEvidence>, inspect: Inspect, i: nat): SwapEvidence
    requires i < |swaps|
  {
    var owner, swap := SwapOwner(seen, swaps, inspect, i), Located(swaps[i], SwapDevice(swaps, inspect, i));
    if owner.None? then swap else swap.(node := Some(seen[owner.value].kernelName))
  }

  function NamedSwaps(seen: seq<Observation>, swaps: seq<SwapEvidence>, inspect: Inspect): seq<SwapEvidence> {
    seq(|swaps|, i requires 0 <= i < |swaps| => AttributedSwap(seen, swaps, inspect, i))
  }

  /** The node holding further swaps; any of them contradicts a reported signature
      that is not a swap's. */
  function HoldSwaps(node: ResolvedNode, rows: seq<nat>): ResolvedNode {
    var held := node.(swaps := node.swaps + rows);
    if node.signature.state == Reported && rows != [] && node.signature.kind != Some("swap") then Disputed(held) else held
  }

  function Swapped(nodes: seq<ResolvedNode>, swaps: seq<SwapEvidence>, inspect: Inspect): seq<ResolvedNode> {
    seq(|nodes|, k requires 0 <= k < |nodes| =>
      HoldSwaps(nodes[k], RowsOf(SwapOwners(Observations(nodes), swaps, inspect), k, |swaps|)))
  }

  /** What the i-th swap adds to the issues of the snapshot. */
  function SwapIssue(seen: seq<Observation>, swaps: seq<SwapEvidence>, inspect: Inspect, i: nat): seq<DiscoveryIssue>
    requires i < |swaps|
  {
    var at := SwapReads(swaps, i);
    if !Inspected(swaps, i) then [Issue(UnsupportedTopology, "", "swap_source")]
    else
      inspect(at).issues + inspect(at + 1).issues +
      if SwapOwner(seen, swaps, inspect, i).None? then [Issue(UncorrelatedUsage, "", "swap_source")] else []
  }

  function SwapIssues(seen: seq<Observation>, swaps: seq<SwapEvidence>, inspect: Inspect, n: nat): seq<DiscoveryIssue>
    requires n <= |swaps|
  {
    if n == 0 then [] else SwapIssues(seen, swaps, inspect, n - 1) + SwapIssue(seen, swaps, inspect, n - 1)
  }

  /** The first n swaps have been attributed. */
  ghost predicate SwapsGiven(was: seq<ResolvedNode>, rows: seq<SwapEvidence>, inspect: Inspect, n: nat, nodes: seq<ResolvedNode>,
                             swaps: seq<SwapEvidence>) {
    var seen := Observations(was);
    && n <= |rows| == |swaps| && |nodes| == |was|
    && (forall j :: 0 <= j < n ==> swaps[j] == AttributedSwap(seen, rows, inspect, j))
    && (forall j :: n <= j < |rows| ==> swaps[j] == rows[j])
    && (forall k :: 0 <= k < |was| ==> nodes[k] == HoldSwaps(was[k], RowsOf(SwapOwners(seen, rows, inspect), k, n)))
  }

  lemma HoldNoSwaps(node: ResolvedNode)
    ensures HoldSwaps(node, []) == node
  {
    assert node.swaps + [] == node.swaps;
  }

  lemma NoSwapsGiven(was: seq<ResolvedNode>, rows: seq<SwapEvidence>, inspect: Inspect)
    ensures SwapsGiven(was, rows, inspect, 0, was, rows)
  {
    hide HoldSwaps;
    forall k | 0 <= k < |was| ensures HoldSwaps(was[k], []) == was[k] {
      HoldNoSwaps(was[k]);
    }
  }

  lemma SwapsUnchanged(was: seq<ResolvedNode>, rows: seq<SwapEvidence>, inspect: Inspect, i: nat, nodes: seq<ResolvedNode>,
                       swaps: seq<SwapEvidence>)
    requires SwapsGiven(was, rows, inspect, i, nodes, swaps)
    ensures Observations(nodes) == Observations(was)
    ensures i < |rows| ==> swaps[i] == rows[i]
  {
    hide RowsOf, AttributedSwap, SwapOwners;
    assert forall k :: 0 <= k < |was| ==> nodes[k].observation == was[k].observation;
  }

  lemma AllSwapsGiven(was: seq<ResolvedNode>, rows: seq<SwapEvidence>, inspect: Inspect, nodes: seq<ResolvedNode>, swaps: seq<SwapEvidence>)
    requires SwapsGiven(was, rows, inspect, |rows|, nodes, swaps)
    ensures nodes == Swapped(was, rows, inspect) && swaps == NamedSwaps(Observations(was), rows, inspect)
  {
    hide HoldSwaps, RowsOf, AttributedSwap, Observations, SwapOwners;
  }

  function GiveSwap(nodes: seq<ResolvedNode>, i: nat, owner: Option<nat>): (next: seq<ResolvedNode>)
    requires owner.Some? ==> owner.value < |nodes|
    ensures |next| == |nodes|
  {
    if owner.None? then nodes else nodes[owner.value := HoldSwaps(nodes[owner.value], [i])]
  }

  lemma HoldOneSwap(node: ResolvedNode, rows: seq<nat>, i: nat)
    ensures HoldSwaps(node, rows + [i]) == HoldSwaps(HoldSwaps(node, rows), [i])
  {
    assert node.swaps + (rows + [i]) == node.swaps + rows + [i];
  }

  lemma SwapGiven(was: seq<ResolvedNode>, rows: seq<SwapEvidence>, inspect: Inspect, i: nat, nodes: seq<ResolvedNode>,
                  swaps: seq<SwapEvidence>, k: nat)
    requires SwapsGiven(was, rows, inspect, i, nodes, swaps) && i < |rows| && k < |was|
    ensures var owners := SwapOwners(Observations(was), rows, inspect);
      GiveSwap(nodes, i, owners[i])[k] == HoldSwaps(was[k], RowsOf(owners, k, i + 1))
  {
    hide HoldSwaps, SwapOwner, AttributedSwap, Observations;
    var owners := SwapOwners(Observations(was), rows, inspect);
    if owners[i] == Some(k) {
      HoldOneSwap(was[k], RowsOf(owners, k, i), i);
    } else {
      assert RowsOf(owners, k, i) + [] == RowsOf(owners, k, i);
    }
  }

  lemma SwapStep(was: seq<ResolvedNode>, rows: seq<SwapEvidence>, inspect: Inspect, i: nat, nodes: seq<ResolvedNode>,
                 swaps: seq<SwapEvidence>)
    requires SwapsGiven(was, rows, inspect, i, nodes, swaps) && i < |rows|
    ensures |nodes| == |was| && |swaps| == |rows|
    ensures var owner := SwapOwner(Observations(was), rows, inspect, i);
      SwapsGiven(was, rows, inspect, i + 1, GiveSwap(nodes, i, owner), swaps[i := AttributedSwap(Observations(was), rows, inspect, i)])
  {
    hide HoldSwaps, GiveSwap, SwapOwner, AttributedSwap, Observations, RowsOf;
    forall k | 0 <= k < |was|
      ensures var owners := SwapOwners(Observations(was), rows, inspect);
        GiveSwap(nodes, i, owners[i])[k] == HoldSwaps(was[k], RowsOf(owners, k, i + 1))
    {
      SwapGiven(was, rows, inspect, i, nodes, swaps, k);
    }
  }

  method SwapPathsOf(swaps: array<SwapEvidence>) returns (paths: seq<string>)
    ensures paths == SwapPaths(swaps[..])
  {
    paths := [];
    for i := 0 to swaps.Length
      invariant paths == SwapPaths(swaps[..])[..i]
    {
      paths := paths + [swaps[i].path];
    }
  }

  method FileSwap(nodes: array<ResolvedNode>, k: nat, i: nat)
    requires k < nodes.Length
    modifies nodes
    ensures nodes[..] == GiveSwap(old(nodes[..]), i, Some(k))
  {
    var node := nodes[k];
    node := node.(swaps := node.swaps + [i]);
    if node.signature.state == Reported && node.signature.kind != Some("swap") {
      node := node.(signature := node.signature.(state := ConflictingSignature),
                    issues := node.issues + [Issue(Conflict, node.observation.kernelName, "signature")]);
    }
    nodes[k] := node;
  }

  /** Reads a swap's path twice for the steady block node behind it. */
  method LocateSwap(nodes: array<ResolvedNode>, inspect: Inspect, time: nat)
    returns (device: Option<DeviceNumber>, owner: Option<nat>, issues: seq<DiscoveryIssue>)
    ensures device == if SteadyBlock(inspect(time), inspect(time + 1)) then inspect(time).status.value.number else None
    ensures owner == if device.None? then None else SoleNode(Observations(nodes[..]), device.value)
    ensures issues == inspect(time).issues + inspect(time + 1).issues
              + if owner.None? then [Issue(UncorrelatedUsage, "", "swap_source")] else []
  {
    hide SoleNode, Observations;
    var first, second := inspect(time), inspect(time + 1);
    issues := first.issues + second.issues;
    device, owner := None, None;
    if SteadyBlock(first, second) {
      device := first.status.value.number;
      owner := Correlate(nodes, device.value);
    }
    if owner.None? {
      issues := issues + [Issue(UncorrelatedUsage, "", "swap_source")];
    }
  }

  /** The row of one swap, inspected or not. */
  lemma SwapRow(seen: seq<Observation>, rows: seq<SwapEvidence>, inspect: Inspect, i: nat, device: Option<DeviceNumber>)
    requires i < |rows|
    requires var at := SwapReads(rows, i);
      device == if Inspected(rows, i) && SteadyBlock(inspect(at), inspect(at + 1)) then inspect(at).status.value.number else None
    ensures var at, owner := SwapReads(rows, i), if device.None? then None else SoleNode(seen, device.value);
      && SwapOwner(seen, rows, inspect, i) == owner
      && SwapReads(rows, i + 1) == at + (if Inspected(rows, i) then 2 else 0)
      && SwapIssues(seen, rows, inspect, i + 1) == SwapIssues(seen, rows, inspect, i)
           + (if !Inspected(rows, i) then [Issue(UnsupportedTopology, "", "swap_source")]
              else inspect(at).issues + inspect(at + 1).issues
                   + (if owner.None? then [Issue(UncorrelatedUsage, "", "swap_source")] else []))
      && AttributedSwap(seen, rows, inspect, i) ==
           if owner.None? then Located(rows[i], device) else Located(rows[i], device).(node := Some(seen[owner.value].kernelName))
  {
    hide SoleNode, Inspected, SteadyBlock;
  }

  lemma SwapInspected(rows: seq<SwapEvidence>, counts: map<string, nat>, i: nat)
    requires i < |rows|
    requires forall path :: path in counts <==> path in SwapPaths(rows)
    requires forall path :: path in counts ==> counts[path] == multiset(SwapPaths(rows))[path]
    ensures rows[i].path in counts
    ensures Inspected(rows, i) <==> rows[i].kind == "partition" && counts[rows[i].path] == 1
  {
    assert SwapPaths(rows)[i] == rows[i].path;
  }

  /** Gives each active swap on a steady block node that node, and the node the swap. */
  method AttributeSwaps(nodes: array<ResolvedNode>, swaps: array<SwapEvidence>, inspect: Inspect)
    returns (issues: seq<DiscoveryIssue>, time: nat)
    modifies nodes, swaps
    ensures nodes[..] == Swapped(old(nodes[..]), old(swaps[..]), inspect)
    ensures swaps[..] == NamedSwaps(Observations(old(nodes[..])), old(swaps[..]), inspect)
    ensures issues == SwapIssues(Observations(old(nodes[..])), old(swaps[..]), inspect, swaps.Length)
    ensures time == SwapReads(old(swaps[..]), swaps.Length)
  {
    hide SoleNode, SwapsGiven, Swapped, NamedSwaps, GiveSwap, Observations, SwapOwner, AttributedSwap, SwapIssues, SwapReads, SwapPaths,
         Inspected, SteadyBlock;
    ghost var was, rows := nodes[..], swaps[..];
    ghost var seen := Observations(was);
    var paths := SwapPathsOf(swaps);
    var counts := CountAll(paths);
    issues, time := [], 0;
    NoSwapsGiven(was, rows, inspect);
    NoSwapIssues(seen, rows, inspect);
    for i := 0 to swaps.Length
      invariant SwapsGiven(was, rows, inspect, i, nodes[..], swaps[..])
      invariant issues == SwapIssues(seen, rows, inspect, i) && time == SwapReads(rows, i)
    {
      ghost var now, given := nodes[..], swaps[..];
      SwapStep(was, rows, inspect, i, now, given);
      SwapsUnchanged(was, rows, inspect, i, now, given);
      SwapInspected(rows, counts, i);
      SwapNotGiven(now, i);
      var swap := swaps[i];
      assert swap == given[i];
      if swap.kind != "partition" || counts[swap.path] != 1 {
        SwapRow(seen, rows, inspect, i, None);
        issues := issues + [Issue(UnsupportedTopology, "", "swap_source")];
        assert given[i := swap] == given;
        continue;
      }
      var device, index, found := LocateSwap(nodes, inspect, time);
      SwapRow(seen, rows, inspect, i, device);
      issues, time := issues + found, time + 2;
      swap := Located(swap, device);
      if index.Some? {
        ObservationAt(now, index.value);
        swap := swap.(node := Some(nodes[index.value].observation.kernelName));
        FileSwap(nodes, index.value, i);
      }
      swaps[i] := swap;
      assert swaps[..] == given[i := swap];
    }
    AllSwapsGiven(was, rows, inspect, nodes[..], swaps[..]);
  }

  lemma SwapNotGiven(nodes: seq<ResolvedNode>, i: nat)
    ensures GiveSwap(nodes, i, None) == nodes
  {
  }

  lemma NoSwapIssues(seen: seq<Observation>, rows: seq<SwapEvidence>, inspect: Inspect)
    ensures SwapIssues(seen, rows, inspect, 0) == [] && SwapReads(rows, 0) == 0
  {
  }
}
