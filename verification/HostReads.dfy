/** What is read of the host about each node, and which node a device number
    belongs to. Reads are answered by functions about which nothing is assumed. */
module HostReads {
  import opened Text
  import opened Inventory

  datatype PathStatus = PathStatus(isBlock: bool, number: Option<DeviceNumber>)

  /** What reading a path's metadata gave. */
  datatype PathRead = PathRead(status: Option<PathStatus>, issues: seq<DiscoveryIssue>)

  /** What the signature source reported about itself, and what was made of its record. */
  datatype SignatureRead = SignatureRead(source: seq<DiscoveryIssue>, signature: Signature, raised: seq<DiscoveryIssue>)

  /** The answer to the n-th metadata read. */
  type Inspect = nat -> PathRead

  /** The signature read for the k-th node. */
  type Signatures = nat -> SignatureRead

  /** The snapshot under construction. */
  datatype Host = Host(nodes: seq<ResolvedNode>, mounts: seq<MountEvidence>, swaps: seq<SwapEvidence>, issues: seq<DiscoveryIssue>)

  /** The metadata reads from the n-th on. */
  function Later(inspect: Inspect, n: nat): Inspect {
    (k: nat) => inspect(n + k)
  }

  function Observations(nodes: seq<ResolvedNode>): (seen: seq<Observation>)
    ensures |seen| == |nodes|
  {
    seq(|nodes|, k requires 0 <= k < |nodes| => nodes[k].observation)
  }

  lemma ObservationAt(nodes: seq<ResolvedNode>, k: nat)
    requires k < |nodes|
    ensures Observations(nodes)[k] == nodes[k].observation
  {
  }

  predicate Confirms(read: PathRead, o: Observation) {
    && read.status.Some? && read.issues == [] && read.status.value.isBlock
    && o.deviceNumber.Some? && read.status.value.number == o.deviceNumber
  }

  function Issue(code: DiscoveryIssueCode, node: string, field: string): DiscoveryIssue {
    DiscoveryIssue(code, node, field, None, None)
  }

  // Paths and signatures

  /** A path that no longer names the observed device number is dropped. */
  function Checked(node: ResolvedNode, read: PathRead): ResolvedNode {
    if node.currentPath.None? then node
    else if Confirms(read, node.observation) then node.(issues := node.issues + read.issues)
    else node.(currentPath := None, issues := node.issues + read.issues + [Issue(SnapshotChanged, node.observation.kernelName, "current_path")])
  }

  predicate SourceLost(issues: seq<DiscoveryIssue>) {
    exists i :: 0 <= i < |issues| && (issues[i].code == Disappeared || issues[i].code == SnapshotChanged)
  }

  /** The node with its cached signature, entered as its own usage node. */
  function Signed(node: ResolvedNode, read: SignatureRead): ResolvedNode {
    node.(signature := read.signature,
          issues := node.issues + read.source + read.raised,
          currentPath := if SourceLost(read.source) then None else node.currentPath,
          usageNodes := node.usageNodes + [node.observation.kernelName])
  }

  /** How many metadata reads confirming the first n nodes takes. */
  function PathReads(nodes: seq<ResolvedNode>, n: nat): nat
    requires n <= |nodes|
  {
    if n == 0 then 0 else PathReads(nodes, n - 1) + if nodes[n - 1].currentPath.Some? then 1 else 0
  }

  function CheckedAt(nodes: seq<ResolvedNode>, inspect: Inspect, k: nat): ResolvedNode
    requires k < |nodes|
  {
    Checked(nodes[k], inspect(PathReads(nodes, k)))
  }

  function Confirmed(nodes: seq<ResolvedNode>, inspect: Inspect): seq<ResolvedNode> {
    seq(|nodes|, k requires 0 <= k < |nodes| => CheckedAt(nodes, inspect, k))
  }

  function Opened(nodes: seq<ResolvedNode>, inspect: Inspect, signatures: Signatures): seq<ResolvedNode> {
    seq(|nodes|, k requires 0 <= k < |nodes| => Signed(CheckedAt(nodes, inspect, k), signatures(k)))
  }

  method CheckPath(node: ResolvedNode, inspect: Inspect, time: nat) returns (checked: ResolvedNode, next: nat)
    ensures checked == Checked(node, inspect(time))
    ensures next == time + if node.currentPath.Some? then 1 else 0
  {
    checked, next := node, time;
    if checked.currentPath.Some? {
      var read := inspect(time);
      next := time + 1;
      checked := checked.(issues := checked.issues + read.issues);
      if !Confirms(read, checked.observation) {
        checked := checked.(currentPath := None,
          issues := checked.issues + [Issue(SnapshotChanged, checked.observation.kernelName, "current_path")]);
      }
    }
  }

  /** A pass over a list in place, with the first k elements done. */
  function Midway<T>(was: seq<T>, goal: seq<T>, k: nat): seq<T>
    requires k <= |was| == |goal|
  {
    goal[..k] + was[k..]
  }

  lemma MidwayStep<T>(was: seq<T>, goal: seq<T>, k: nat)
    requires k < |was| == |goal|
    ensures |Midway(was, goal, k)| == |was| && Midway(was, goal, k)[k] == was[k]
    ensures Midway(was, goal, k)[k := goal[k]] == Midway(was, goal, k + 1)
  {
    assert goal[..k + 1] == goal[..k] + [goal[k]];
  }

  lemma MidwayEnds<T>(was: seq<T>, goal: seq<T>)
    requires |was| == |goal|
    ensures Midway(was, goal, 0) == was && Midway(was, goal, |was|) == goal
  {
  }

  lemma ConfirmedAt(nodes: seq<ResolvedNode>, inspect: Inspect, k: nat)
    requires k < |nodes|
    ensures |Confirmed(nodes, inspect)| == |nodes|
    ensures Confirmed(nodes, inspect)[k] == Checked(nodes[k], inspect(PathReads(nodes, k)))
  {
  }

  lemma OpenedAt(nodes: seq<ResolvedNode>, inspect: Inspect, signatures: Signatures, k: nat)
    requires k < |nodes|
    ensures |Opened(nodes, inspect, signatures)| == |nodes|
    ensures Opened(nodes, inspect, signatures)[k] == Signed(Checked(nodes[k], inspect(PathReads(nodes, k))), signatures(k))
  {
  }

  method ReadSignature(node: ResolvedNode, read: SignatureRead) returns (signed: ResolvedNode)
    ensures signed == Signed(node, read)
  {
    signed := node.(signature := read.signature, issues := node.issues + read.source + read.raised);
    if SourceLost(read.source) {
      signed := signed.(currentPath := None);
    }
    signed := signed.(usageNodes := signed.usageNodes + [signed.observation.kernelName]);
  }

  /** Confirms each path and reads each signature. */
  method OpenNodes(nodes: array<ResolvedNode>, inspect: Inspect, signatures: Signatures) returns (time: nat)
    modifies nodes
    ensures nodes[..] == Opened(old(nodes[..]), inspect, signatures)
    ensures time == PathReads(old(nodes[..]), nodes.Length)
  {
    hide Checked, Signed, Opened, Midway;
    ghost var was := nodes[..];
    ghost var goal := Opened(was, inspect, signatures);
    time := 0;
    OpenedLength(was, inspect, signatures);
    MidwayEnds(was, goal);
    for k := 0 to nodes.Length
      invariant time == PathReads(was, k)
      invariant nodes[..] == Midway(was, goal, k)
    {
      MidwayStep(was, goal, k);
      OpenedAt(was, inspect, signatures, k);
      ghost var now := nodes[..];
      assert nodes[k] == now[k];
      var node;
      node, time := CheckPath(nodes[k], inspect, time);
      nodes[k] := ReadSignature(node, signatures(k));
      assert nodes[..] == now[k := goal[k]];
    }
  }

  lemma OpenedLength(nodes: seq<ResolvedNode>, inspect: Inspect, signatures: Signatures)
    ensures |Opened(nodes, inspect, signatures)| == |nodes|
  {
  }

  lemma ConfirmedLength(nodes: seq<ResolvedNode>, inspect: Inspect)
    ensures |Confirmed(nodes, inspect)| == |nodes|
  {
  }

  /** Confirms each path once more. */
  method ConfirmPaths(nodes: array<ResolvedNode>, inspect: Inspect)
    modifies nodes
    ensures nodes[..] == Confirmed(old(nodes[..]), inspect)
  {
    hide Checked, Confirmed, Midway;
    ghost var was := nodes[..];
    ghost var goal := Confirmed(was, inspect);
    var time := 0;
    ConfirmedLength(was, inspect);
    MidwayEnds(was, goal);
    for k := 0 to nodes.Length
      invariant time == PathReads(was, k)
      invariant nodes[..] == Midway(was, goal, k)
    {
      MidwayStep(was, goal, k);
      ConfirmedAt(was, inspect, k);
      ghost var now := nodes[..];
      assert nodes[k] == now[k];
      var node;
      node, time := CheckPath(nodes[k], inspect, time);
      nodes[k] := node;
      assert nodes[..] == now[k := goal[k]];
    }
  }

  // Correlation

  predicate HasNumber(seen: seq<Observation>, number: DeviceNumber, i: nat)
    requires i < |seen|
  {
    seen[i].deviceNumber == Some(number)
  }

  /** The i-th node is the only one with this device number. */
  predicate Sole(seen: seq<Observation>, number: DeviceNumber, i: nat) {
    i < |seen| && HasNumber(seen, number, i) && forall j :: 0 <= j < |seen| && HasNumber(seen, number, j) ==> j == i
  }

  function SoleNode(seen: seq<Observation>, number: DeviceNumber): (k: Option<nat>)
    ensures k.Some? ==> k.value < |seen|
  {
    if i: nat :| i < |seen| && Sole(seen, number, i) then Some(i) else None
  }

  method Correlate(nodes: array<ResolvedNode>, number: DeviceNumber) returns (found: Option<nat>)
    ensures found == SoleNode(Observations(nodes[..]), number)
  {
    ghost var seen := Observations(nodes[..]);
    var match_: Option<nat> := None;
    for i := 0 to nodes.Length
      invariant match_.None? ==> forall j :: 0 <= j < i ==> !HasNumber(seen, number, j)
      invariant match_.Some? ==> match_.value < i && HasNumber(seen, number, match_.value)
      invariant match_.Some? ==> forall j :: 0 <= j < i && HasNumber(seen, number, j) ==> j == match_.value
    {
      assert seen[i] == nodes[i].observation;
      if nodes[i].observation.deviceNumber != Some(number) {
        continue;
      }
      assert HasNumber(seen, number, i);
      if match_.Some? {
        return None;
      }
      match_ := Some(i);
    }
    found := match_;
    assert found.Some? ==> Sole(seen, number, found.value);
  }

  /** How often each key occurs. */
  method CountAll<T(==)>(keys: seq<T>) returns (counts: map<T, nat>)
    ensures forall key :: key in counts <==> key in keys
    ensures forall key :: key in counts ==> counts[key] == multiset(keys)[key]
  {
    counts := map[];
    for i := 0 to |keys|
      invariant forall key :: key in counts <==> key in keys[..i]
      invariant forall key :: key in counts ==> counts[key] == multiset(keys[..i])[key]
    {
      assert keys[..i + 1] == keys[..i] + [keys[i]];
      counts := counts[keys[i] := (if keys[i] in counts then counts[keys[i]] else 0) + 1];
    }
    assert keys[..|keys|] == keys;
  }

  /** The rows among the first n whose owner is node `k`. */
  function RowsOf(owners: seq<Option<nat>>, k: nat, n: nat): seq<nat>
    requires n <= |owners|
  {
    if n == 0 then [] else RowsOf(owners, k, n - 1) + if owners[n - 1] == Some(k) then [n - 1] else []
  }

  /** The node once what it holds contradicts its cached signature. */
  function Disputed(node: ResolvedNode): ResolvedNode {
    node.(signature := node.signature.(state := ConflictingSignature),
          issues := node.issues + [Issue(Conflict, node.observation.kernelName, "signature")])
  }
}
