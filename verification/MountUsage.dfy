/** The node that each mount is on. */
module MountUsage {
  import opened Text
  import opened Inventory
  import opened HostReads

  function MountIds(mounts: seq<MountEvidence>): seq<nat> {
    seq(|mounts|, i requires 0 <= i < |mounts| => mounts[i].mountId)
  }

  predicate UniqueMount(mounts: seq<MountEvidence>, i: nat)
    requires i < |mounts|
  {
    multiset(MountIds(mounts))[mounts[i].mountId] == 1
  }

  /** The node that the i-th mount is attributed to. */
  function MountOwner(seen: seq<Observation>, mounts: seq<MountEvidence>, i: nat): (k: Option<nat>)
    requires i < |mounts|
    ensures k.Some? ==> k.value < |seen|
  {
    if UniqueMount(mounts, i) then SoleNode(seen, mounts[i].device) else None
  }

  function MountOwners(seen: seq<Observation>, mounts: seq<MountEvidence>): seq<Option<nat>> {
    seq(|mounts|, i requires 0 <= i < |mounts| => MountOwner(seen, mounts, i))
  }

  function AttributedMount(seen: seq<Observation>, mounts: seq<MountEvidence>, i: nat): MountEvidence
    requires i < |mounts|
  {
    var owner := MountOwner(seen, mounts, i);
    if owner.None? then mounts[i] else mounts[i].(node := Some(seen[owner.value].kernelName))
  }

  function NamedMounts(seen: seq<Observation>, mounts: seq<MountEvidence>): seq<MountEvidence> {
    seq(|mounts|, i requires 0 <= i < |mounts| => AttributedMount(seen, mounts, i))
  }

  predicate MountDisagrees(signature: Signature, mount: MountEvidence) {
    signature.usage != Some("filesystem") || signature.kind != Some(mount.filesystem)
  }

  predicate MountsDispute(signature: Signature, mounts: seq<MountEvidence>, rows: seq<nat>) {
    exists j :: 0 <= j < |rows| && rows[j] < |mounts| && MountDisagrees(signature, mounts[rows[j]])
  }

  /** The node holding further mounts; the first of them that contradicts a reported
      signature turns it into a conflict. */
  function HoldMounts(node: ResolvedNode, mounts: seq<MountEvidence>, rows: seq<nat>): ResolvedNode {
    var held := node.(mounts := node.mounts + rows);
    if node.signature.state == Reported && MountsDispute(node.signature, mounts, rows) then Disputed(held) else held
  }

  function Mounted(nodes: seq<ResolvedNode>, mounts: seq<MountEvidence>): seq<ResolvedNode> {
    seq(|nodes|, k requires 0 <= k < |nodes| =>
      HoldMounts(nodes[k], mounts, RowsOf(MountOwners(Observations(nodes), mounts), k, |mounts|)))
  }

  predicate FromDevice(mount: MountEvidence) {
    "/dev/" <= mount.source
  }

  /** How many metadata reads the first n mounts take. */
  function MountReads(seen: seq<Observation>, mounts: seq<MountEvidence>, n: nat): nat
    requires n <= |mounts|
  {
    if n == 0 then 0
    else MountReads(seen, mounts, n - 1) + if MountOwner(seen, mounts, n - 1).Some? && FromDevice(mounts[n - 1]) then 1 else 0
  }

  function UncorrelatedMount(mount: MountEvidence): DiscoveryIssue {
    DiscoveryIssue(UncorrelatedUsage, "", "mountinfo", None, Some(mount.mountId))
  }

  /** A source path that cannot corroborate the device number is reported. */
  function SourceIssues(mount: MountEvidence, o: Observation, read: PathRead): seq<DiscoveryIssue> {
    if !FromDevice(mount) then []
    else read.issues + if Confirms(read, o) then [] else [Issue(SnapshotChanged, o.kernelName, "mount_source")]
  }

  function RootIssues(mount: MountEvidence, o: Observation): seq<DiscoveryIssue> {
    if mount.root == "/" then [] else [Issue(UnsupportedTopology, o.kernelName, "mount_root")]
  }

  /** What the i-th mount adds to the issues of the snapshot. */
  function MountIssue(seen: seq<Observation>, mounts: seq<MountEvidence>, inspect: Inspect, i: nat): seq<DiscoveryIssue>
    requires i < |mounts|
  {
    var owner := MountOwner(seen, mounts, i);
    if owner.None? then [UncorrelatedMount(mounts[i])]
    else SourceIssues(mounts[i], seen[owner.value], inspect(MountReads(seen, mounts, i))) + RootIssues(mounts[i], seen[owner.value])
  }

  function MountIssues(seen: seq<Observation>, mounts: seq<MountEvidence>, inspect: Inspect, n: nat): seq<DiscoveryIssue>
    requires n <= |mounts|
  {
    if n == 0 then [] else MountIssues(seen, mounts, inspect, n - 1) + MountIssue(seen, mounts, inspect, n - 1)
  }

  /** One more mount filed with its node. */
  function FiledMount(node: ResolvedNode, mount: MountEvidence, i: nat): ResolvedNode {
    var held := node.(mounts := node.mounts + [i]);
    if node.signature.state == Reported && MountDisagrees(node.signature, mount) then Disputed(held) else held
  }

  lemma HoldOneMount(node: ResolvedNode, mounts: seq<MountEvidence>, rows: seq<nat>, i: nat)
    requires i < |mounts|
    ensures HoldMounts(node, mounts, rows + [i]) == FiledMount(HoldMounts(node, mounts, rows), mounts[i], i)
  {
    hide MountDisagrees;
    assert node.mounts + (rows + [i]) == node.mounts + rows + [i];
    assert (rows + [i])[|rows|] == i;
    if MountsDispute(node.signature, mounts, rows) {
      var j :| 0 <= j < |rows| && rows[j] < |mounts| && MountDisagrees(node.signature, mounts[rows[j]]);
      assert (rows + [i])[j] == rows[j];
    }
  }

  lemma HoldNoMounts(node: ResolvedNode, mounts: seq<MountEvidence>)
    ensures HoldMounts(node, mounts, []) == node
  {
    assert node.mounts + [] == node.mounts;
  }

  /** The first n mounts have been attributed. */
  ghost predicate MountsGiven(was: seq<ResolvedNode>, rows: seq<MountEvidence>, n: nat, nodes: seq<ResolvedNode>, mounts: seq<MountEvidence>) {
    var seen := Observations(was);
    && n <= |rows| == |mounts| && |nodes| == |was|
    && (forall j :: 0 <= j < n ==> mounts[j] == AttributedMount(seen, rows, j))
    && (forall j :: n <= j < |rows| ==> mounts[j] == rows[j])
    && (forall k :: 0 <= k < |was| ==> nodes[k] == HoldMounts(was[k], rows, RowsOf(MountOwners(seen, rows), k, n)))
  }

  lemma NoMountsGiven(was: seq<ResolvedNode>, rows: seq<MountEvidence>)
    ensures MountsGiven(was, rows, 0, was, rows)
  {
    hide HoldMounts;
    forall k | 0 <= k < |was| ensures HoldMounts(was[k], rows, []) == was[k] {
      HoldNoMounts(was[k], rows);
    }
  }

  lemma MountsUnchanged(was: seq<ResolvedNode>, rows: seq<MountEvidence>, i: nat, nodes: seq<ResolvedNode>, mounts: seq<MountEvidence>)
    requires MountsGiven(was, rows, i, nodes, mounts)
    ensures Observations(nodes) == Observations(was)
    ensures i < |rows| ==> mounts[i] == rows[i]
  {
    hide MountsDispute, RowsOf;
    assert forall k :: 0 <= k < |was| ==> nodes[k].observation == was[k].observation;
  }

  lemma AllMountsGiven(was: seq<ResolvedNode>, rows: seq<MountEvidence>, nodes: seq<ResolvedNode>, mounts: seq<MountEvidence>)
    requires MountsGiven(was, rows, |rows|, nodes, mounts)
    ensures nodes == Mounted(was, rows) && mounts == NamedMounts(Observations(was), rows)
  {
    hide HoldMounts, RowsOf, AttributedMount, Observations, MountOwners;
  }

  function GiveMount(nodes: seq<ResolvedNode>, mount: MountEvidence, i: nat, owner: Option<nat>): (next: seq<ResolvedNode>)
    requires owner.Some? ==> owner.value < |nodes|
    ensures |next| == |nodes|
  {
    if owner.None? then nodes else nodes[owner.value := FiledMount(nodes[owner.value], mount, i)]
  }

  lemma MountGiven(was: seq<ResolvedNode>, rows: seq<MountEvidence>, i: nat, nodes: seq<ResolvedNode>, mounts: seq<MountEvidence>, k: nat)
    requires MountsGiven(was, rows, i, nodes, mounts) && i < |rows| && k < |was|
    ensures var owners := MountOwners(Observations(was), rows);
      GiveMount(nodes, rows[i], i, owners[i])[k] == HoldMounts(was[k], rows, RowsOf(owners, k, i + 1))
  {
    hide HoldMounts, FiledMount, MountOwner, AttributedMount, Observations;
    var owners := MountOwners(Observations(was), rows);
    if owners[i] == Some(k) {
      HoldOneMount(was[k], rows, RowsOf(owners, k, i), i);
    } else {
      assert RowsOf(owners, k, i) + [] == RowsOf(owners, k, i);
    }
  }

  lemma MountStep(was: seq<ResolvedNode>, rows: seq<MountEvidence>, i: nat, nodes: seq<ResolvedNode>, mounts: seq<MountEvidence>)
    requires MountsGiven(was, rows, i, nodes, mounts) && i < |rows|
    ensures |nodes| == |was| && |mounts| == |rows|
    ensures var owner := MountOwner(Observations(was), rows, i);
      MountsGiven(was, rows, i + 1, GiveMount(nodes, rows[i], i, owner), mounts[i := AttributedMount(Observations(was), rows, i)])
  {
    hide HoldMounts, FiledMount, GiveMount, MountOwner, AttributedMount, Observations, RowsOf;
    forall k | 0 <= k < |was|
      ensures var owners := MountOwners(Observations(was), rows);
        GiveMount(nodes, rows[i], i, owners[i])[k] == HoldMounts(was[k], rows, RowsOf(owners, k, i + 1))
    {
      MountGiven(was, rows, i, nodes, mounts, k);
    }
  }

  method MountIdsOf(mounts: array<MountEvidence>) returns (ids: seq<nat>)
    ensures ids == MountIds(mounts[..])
  {
    ids := [];
    for i := 0 to mounts.Length
      invariant ids == MountIds(mounts[..])[..i]
    {
      ids := ids + [mounts[i].mountId];
    }
  }

  method FileMount(nodes: array<ResolvedNode>, k: nat, mount: MountEvidence, i: nat)
    requires k < nodes.Length
    modifies nodes
    ensures nodes[..] == GiveMount(old(nodes[..]), mount, i, Some(k))
  {
    hide MountDisagrees;
    var node := nodes[k];
    node := node.(mounts := node.mounts + [i]);
    if node.signature.state == Reported && MountDisagrees(node.signature, mount) {
      node := node.(signature := node.signature.(state := ConflictingSignature),
                    issues := node.issues + [Issue(Conflict, node.observation.kernelName, "signature")]);
    }
    nodes[k] := node;
  }

  /** What an attributed mount says besides its device number. */
  method CorroborateMount(mount: MountEvidence, o: Observation, inspect: Inspect, time: nat)
    returns (issues: seq<DiscoveryIssue>, next: nat)
    ensures issues == SourceIssues(mount, o, inspect(time)) + RootIssues(mount, o)
    ensures next == time + if FromDevice(mount) then 1 else 0
  {
    hide Confirms;
    issues, next := [], time;
    if FromDevice(mount) {
      var read := inspect(time);
      next := time + 1;
      issues := read.issues;
      if !Confirms(read, o) {
        issues := issues + [Issue(SnapshotChanged, o.kernelName, "mount_source")];
      }
    }
    if mount.root != "/" {
      issues := issues + [Issue(UnsupportedTopology, o.kernelName, "mount_root")];
    }
  }

  /** The row of one mount, once its owner is known. */
  lemma MountRow(seen: seq<Observation>, rows: seq<MountEvidence>, inspect: Inspect, i: nat, owner: Option<nat>)
    requires i < |rows| && owner == MountOwner(seen, rows, i)
    ensures var at := MountReads(seen, rows, i);
      && MountIssues(seen, rows, inspect, i + 1) == MountIssues(seen, rows, inspect, i)
           + (if owner.None? then [UncorrelatedMount(rows[i])]
              else SourceIssues(rows[i], seen[owner.value], inspect(at)) + RootIssues(rows[i], seen[owner.value]))
      && MountReads(seen, rows, i + 1) == at + (if owner.Some? && FromDevice(rows[i]) then 1 else 0)
      && AttributedMount(seen, rows, i) ==
           if owner.None? then rows[i] else rows[i].(node := Some(seen[owner.value].kernelName))
  {
    hide SourceIssues, RootIssues, MountOwner;
  }

  /** The owner in terms of the tables that the program builds. */
  lemma OwnerFound(seen: seq<Observation>, rows: seq<MountEvidence>, counts: map<nat, nat>, i: nat)
    requires i < |rows|
    requires forall id :: id in counts <==> id in MountIds(rows)
    requires forall id :: id in counts ==> counts[id] == multiset(MountIds(rows))[id]
    ensures rows[i].mountId in counts
    ensures MountOwner(seen, rows, i) == if counts[rows[i].mountId] == 1 then SoleNode(seen, rows[i].device) else None
  {
    hide SoleNode;
    assert MountIds(rows)[i] == rows[i].mountId;
  }

  /** Gives each mount its node, and each node its mounts. */
  method AttributeMounts(nodes: array<ResolvedNode>, mounts: array<MountEvidence>, inspect: Inspect)
    returns (issues: seq<DiscoveryIssue>, time: nat)
    modifies nodes, mounts
    ensures nodes[..] == Mounted(old(nodes[..]), old(mounts[..]))
    ensures mounts[..] == NamedMounts(Observations(old(nodes[..])), old(mounts[..]))
    ensures issues == MountIssues(Observations(old(nodes[..])), old(mounts[..]), inspect, mounts.Length)
    ensures time == MountReads(Observations(old(nodes[..])), old(mounts[..]), mounts.Length)
  {
    hide SoleNode, MountsGiven, Mounted, NamedMounts, GiveMount, Observations, FromDevice, MountOwner, AttributedMount, MountIssues,
         MountReads, MountIds, SourceIssues, RootIssues;
    ghost var was, rows := nodes[..], mounts[..];
    ghost var seen := Observations(was);
    var ids := MountIdsOf(mounts);
    var counts := CountAll(ids);
    issues, time := [], 0;
    NoMountsGiven(was, rows);
    NoMountIssues(seen, rows, inspect);
    for i := 0 to mounts.Length
      invariant MountsGiven(was, rows, i, nodes[..], mounts[..])
      invariant issues == MountIssues(seen, rows, inspect, i) && time == MountReads(seen, rows, i)
    {
      ghost var now, given := nodes[..], mounts[..];
      MountStep(was, rows, i, now, given);
      MountsUnchanged(was, rows, i, now, given);
      OwnerFound(seen, rows, counts, i);
      var mount := mounts[i];
      assert mount == given[i];
      MountRow(seen, rows, inspect, i, MountOwner(seen, rows, i));
      var index := Correlate(nodes, mount.device);
      if index.None? || counts[mount.mountId] != 1 {
        issues := issues + [UncorrelatedMount(mount)];
        NothingGiven(now, mount, i);
        assert given[i := mount] == given;
        continue;
      }
      var o := nodes[index.value].observation;
      ObservationAt(now, index.value);
      mounts[i] := mount.(node := Some(o.kernelName));
      var found;
      found, time := CorroborateMount(mount, o, inspect, time);
      issues := issues + found;
      FileMount(nodes, index.value, mount, i);
      assert mounts[..] == given[i := mounts[i]];
    }
    AllMountsGiven(was, rows, nodes[..], mounts[..]);
  }

  lemma NothingGiven(nodes: seq<ResolvedNode>, mount: MountEvidence, i: nat)
    ensures GiveMount(nodes, mount, i, None) == nodes
  {
  }

  lemma NoMountIssues(seen: seq<Observation>, rows: seq<MountEvidence>, inspect: Inspect)
    ensures MountIssues(seen, rows, inspect, 0) == [] && MountReads(seen, rows, 0) == 0
  {
  }
}
