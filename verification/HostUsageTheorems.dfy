/** What a host-usage scan leaves behind: which rows each node lists, which paths and
    signatures survive, and what READY then says of the mounts. */
module HostUsageTheorems {
  import opened Text
  import opened Inventory
  import opened Canonical
  import opened IssueOrder
  import opened HostReads
  import opened MountUsage
  import opened SwapUsage
  import opened DiskUsage
  import opened HostUsage

  /** Nothing has been attributed yet. */
  predicate Untouched(host: Host) {
    && (forall k :: 0 <= k < |host.nodes| ==> host.nodes[k].mounts == [] && host.nodes[k].swaps == [])
    && (forall i :: 0 <= i < |host.mounts| ==> host.mounts[i].node.None?)
    && (forall i :: 0 <= i < |host.swaps| ==> host.swaps[i].node.None?)
  }

  /** The nodes before partitions are counted for their disks. */
  function AttributedNodes(host: Host, inspect: Inspect, signatures: Signatures): seq<ResolvedNode> {
    var mounted := Mounted(Opened(host.nodes, inspect, signatures), host.mounts);
    Confirmed(Swapped(mounted, host.swaps, Later(inspect, SwapTime(host))), Later(inspect, ConfirmTime(host)))
  }

  // One node at a time

  function FirstRead(host: Host, k: nat): nat
    requires k < |host.nodes|
  {
    PathReads(host.nodes, k)
  }

  /** The read that confirms the k-th path again, after everything else was read. */
  function SecondRead(host: Host, inspect: Inspect, signatures: Signatures, k: nat): nat
    requires k < |host.nodes|
  {
    ConfirmTime(host) + PathReads(Opened(host.nodes, inspect, signatures), k)
  }

  function MountRowsOf(host: Host, k: nat): seq<nat> {
    RowsOf(MountOwners(Observations(host.nodes), host.mounts), k, |host.mounts|)
  }

  function SwapRowsOf(host: Host, inspect: Inspect, k: nat): seq<nat> {
    RowsOf(SwapOwners(Observations(host.nodes), host.swaps, Later(inspect, SwapTime(host))), k, |host.swaps|)
  }

  /** The k-th node before it is confirmed again. */
  function Filed(host: Host, inspect: Inspect, signatures: Signatures, k: nat): ResolvedNode
    requires k < |host.nodes|
  {
    var entered := Signed(Checked(host.nodes[k], inspect(FirstRead(host, k))), signatures(k));
    HoldSwaps(HoldMounts(entered, host.mounts, MountRowsOf(host, k)), SwapRowsOf(host, inspect, k))
  }

  lemma {:induction false} SameReads(a: seq<ResolvedNode>, b: seq<ResolvedNode>, n: nat)
    requires n <= |a| == |b| && forall k :: 0 <= k < |a| ==> a[k].currentPath == b[k].currentPath
    ensures PathReads(a, n) == PathReads(b, n)
  {
    if n > 0 {
      SameReads(a, b, n - 1);
    }
  }

  lemma MountedSame(nodes: seq<ResolvedNode>, mounts: seq<MountEvidence>)
    ensures Observations(Mounted(nodes, mounts)) == Observations(nodes)
    ensures forall k :: 0 <= k < |nodes| ==> Mounted(nodes, mounts)[k].currentPath == nodes[k].currentPath
  {
    hide MountsDispute, RowsOf, MountOwners;
  }

  lemma SwappedSame(nodes: seq<ResolvedNode>, swaps: seq<SwapEvidence>, inspect: Inspect)
    ensures Observations(Swapped(nodes, swaps, inspect)) == Observations(nodes)
    ensures forall k :: 0 <= k < |nodes| ==> Swapped(nodes, swaps, inspect)[k].currentPath == nodes[k].currentPath
  {
    hide RowsOf, SwapOwners;
  }

  lemma AttributedNode(host: Host, inspect: Inspect, signatures: Signatures, k: nat)
    requires k < |host.nodes|
    ensures |AttributedNodes(host, inspect, signatures)| == |host.nodes|
    ensures AttributedNodes(host, inspect, signatures)[k] ==
      Checked(Filed(host, inspect, signatures, k), inspect(SecondRead(host, inspect, signatures, k)))
  {
    hide Checked, Signed, HoldMounts, HoldSwaps, RowsOf, MountOwners, SwapOwners, SwapTime, ConfirmTime, PathReads, Observations;
    var entered := Opened(host.nodes, inspect, signatures);
    var mounted := Mounted(entered, host.mounts);
    var swapped := Swapped(mounted, host.swaps, Later(inspect, SwapTime(host)));
    OpenedSame(host.nodes, inspect, signatures);
    MountedSame(entered, host.mounts);
    SwappedSame(mounted, host.swaps, Later(inspect, SwapTime(host)));
    SameReads(entered, swapped, k);
  }

  /** What the passes leave of each field of a node. */
  lemma AttributedFields(host: Host, inspect: Inspect, signatures: Signatures, k: nat)
    requires k < |host.nodes|
    ensures var was, node := host.nodes[k], Filed(host, inspect, signatures, k);
      && node.observation == was.observation && node.identity == was.identity
      && node.mounts == was.mounts + MountRowsOf(host, k) && node.swaps == was.swaps + SwapRowsOf(host, inspect, k)
      && node.currentPath == (if Confirms(inspect(FirstRead(host, k)), was.observation) && !SourceLost(signatures(k).source)
                              then was.currentPath else None)
  {
    hide Confirms, SourceLost, MountRowsOf, SwapRowsOf, MountsDispute, FirstRead;
  }

  lemma AttributedSame(host: Host, inspect: Inspect, signatures: Signatures)
    ensures SameNodes(host.nodes, AttributedNodes(host, inspect, signatures))
  {
    hide AttributedNodes, Filed, Confirms, SecondRead;
    AttributedLength(host, inspect, signatures);
    forall k | 0 <= k < |host.nodes|
      ensures var node := AttributedNodes(host, inspect, signatures)[k];
        node.observation == host.nodes[k].observation && node.identity == host.nodes[k].identity
    {
      AttributedNode(host, inspect, signatures, k);
      AttributedFields(host, inspect, signatures, k);
    }
  }

  lemma AttributedLength(host: Host, inspect: Inspect, signatures: Signatures)
    ensures |AttributedNodes(host, inspect, signatures)| == |host.nodes|
  {
    hide MountTime, SwapTime, ConfirmTime;
  }

  /** The scan in three stages: attribution, gathering, sorting. */
  lemma ScanShape(host: Host, inspect: Inspect, signatures: Signatures)
    ensures var nodes := AttributedNodes(host, inspect, signatures);
      UsageScan(host, inspect, signatures).nodes == AllFinished(AllGathered(nodes, |nodes|))
    ensures var seen := Observations(host.nodes);
      && UsageScan(host, inspect, signatures).mounts == NamedMounts(seen, host.mounts)
      && UsageScan(host, inspect, signatures).swaps == NamedSwaps(seen, host.swaps, Later(inspect, SwapTime(host)))
  {
    hide Opened, Mounted, Swapped, Confirmed, NamedMounts, NamedSwaps, AllGathered, AllFinished, Normalize, Observations, SwapTime, ConfirmTime,
         MountIssues, SwapIssues, ParentIssues;
    var entered := Opened(host.nodes, inspect, signatures);
    OpenedSame(host.nodes, inspect, signatures);
    MountedSame(entered, host.mounts);
  }

  lemma ScannedNode(host: Host, inspect: Inspect, signatures: Signatures, k: nat)
    requires k < |host.nodes|
    ensures var nodes := AttributedNodes(host, inspect, signatures);
      && |nodes| == |host.nodes| == |UsageScan(host, inspect, signatures).nodes|
      && UsageScan(host, inspect, signatures).nodes[k] == Finished(Gathered(nodes, k, |nodes|))
  {
    hide AttributedNodes, UsageScan, Finished, Gathered;
    ScanShape(host, inspect, signatures);
    AttributedSame(host, inspect, signatures);
  }

  /** A scan neither adds, drops, reorders nor re-identifies nodes. */
  lemma ScanKeepsNodes(host: Host, inspect: Inspect, signatures: Signatures)
    ensures SameNodes(host.nodes, UsageScan(host, inspect, signatures).nodes)
  {
    hide AttributedNodes, UsageScan, Finished, Gathered;
    ScanShape(host, inspect, signatures);
    AttributedSame(host, inspect, signatures);
    var nodes := AttributedNodes(host, inspect, signatures);
    forall k | 0 <= k < |host.nodes|
      ensures var node := UsageScan(host, inspect, signatures).nodes[k];
        node.observation == host.nodes[k].observation && node.identity == host.nodes[k].identity
    {
      ScannedNode(host, inspect, signatures, k);
      GatheredKeeps(nodes, k, |nodes|);
      FinishedKeeps(Gathered(nodes, k, |nodes|));
    }
  }

  lemma FinishedKeeps(node: ResolvedNode)
    ensures var done := Finished(node);
      && done.observation == node.observation && done.identity == node.identity
      && done.currentPath == node.currentPath && done.signature == node.signature
      && multiset(done.mounts) == multiset(node.mounts) && Ordered(done.mounts, IndexKey)
      && multiset(done.swaps) == multiset(node.swaps) && Ordered(done.swaps, IndexKey)
  {
    hide Sort, Normalize, Ordered, Bytes, DiscoveryIssueKey;
    SortCorrect(node.mounts, IndexKey);
    SortCorrect(node.swaps, IndexKey);
  }

  // Paths and signatures

  lemma {:induction false} ReadsGrow(nodes: seq<ResolvedNode>, m: nat, n: nat)
    requires m < n <= |nodes| && nodes[m].currentPath.Some?
    ensures PathReads(nodes, m) < PathReads(nodes, n)
  {
    if m < n - 1 {
      ReadsGrow(nodes, m, n - 1);
    }
  }

  /** A path survives the scan exactly when two reads, one before and one after all
      usage was read, confirmed the device number and the device did not vanish from
      the signature source in between. */
  lemma KeptPath(host: Host, inspect: Inspect, signatures: Signatures, k: nat)
    requires k < |host.nodes|
    ensures var was, first, second := host.nodes[k], FirstRead(host, k), SecondRead(host, inspect, signatures, k);
      && |UsageScan(host, inspect, signatures).nodes| == |host.nodes|
      && UsageScan(host, inspect, signatures).nodes[k].currentPath ==
           (if Confirms(inspect(first), was.observation) && !SourceLost(signatures(k).source) && Confirms(inspect(second), was.observation)
            then was.currentPath else None)
      && (was.currentPath.Some? ==> first < MountTime(host) <= ConfirmTime(host) <= second)
  {
    hide AttributedNodes, UsageScan, Filed, Finished, Gathered, Confirms, SourceLost, FirstRead, SecondRead, MountRowsOf, SwapRowsOf;
    var nodes := AttributedNodes(host, inspect, signatures);
    ScannedNode(host, inspect, signatures, k);
    AttributedNode(host, inspect, signatures, k);
    AttributedFields(host, inspect, signatures, k);
    GatheredKeeps(nodes, k, |nodes|);
    FinishedKeeps(Gathered(nodes, k, |nodes|));
    if host.nodes[k].currentPath.Some? {
      ReadsInOrder(host, inspect, signatures, k);
    }
  }

  lemma ReadsInOrder(host: Host, inspect: Inspect, signatures: Signatures, k: nat)
    requires k < |host.nodes| && host.nodes[k].currentPath.Some?
    ensures FirstRead(host, k) < MountTime(host) <= ConfirmTime(host) <= SecondRead(host, inspect, signatures, k)
  {
    hide Opened;
    ReadsGrow(host.nodes, k, |host.nodes|);
  }

  /** A row the node owns disagrees with the signature as it was read. */
  predicate Contradicted(host: Host, inspect: Inspect, signature: Signature, k: nat) {
    || (exists i :: 0 <= i < |host.mounts| && MountOwner(Observations(host.nodes), host.mounts, i) == Some(k)
                    && (signature.usage != Some("filesystem") || signature.kind != Some(host.mounts[i].filesystem)))
    || (signature.kind != Some("swap") &&
        exists i :: 0 <= i < |host.swaps| && SwapOwner(Observations(host.nodes), host.swaps, Later(inspect, SwapTime(host)), i) == Some(k))
  }

  lemma {:induction false} RowsOfCounts(owners: seq<Option<nat>>, k: nat, n: nat, i: nat)
    requires n <= |owners|
    ensures multiset(RowsOf(owners, k, n))[i] == if i < n && owners[i] == Some(k) then 1 else 0
  {
    hide RowsOf;
    if n == 0 {
      NoRows(owners, k);
    } else {
      RowsOfCounts(owners, k, n - 1, i);
      RowsOfStep(owners, k, n - 1);
      var rows := RowsOf(owners, k, n - 1);
      if owners[n - 1] == Some(k) {
        CountsOneMore(rows, n - 1, i);
      } else {
        assert RowsOf(owners, k, n) == rows;
      }
    }
  }

  lemma NoRows(owners: seq<Option<nat>>, k: nat)
    ensures RowsOf(owners, k, 0) == []
  {
  }

  lemma RowsOfStep(owners: seq<Option<nat>>, k: nat, n: nat)
    requires n < |owners|
    ensures RowsOf(owners, k, n + 1) == if owners[n] == Some(k) then RowsOf(owners, k, n) + [n] else RowsOf(owners, k, n)
  {
  }

  lemma CountsOneMore(rows: seq<nat>, row: nat, i: nat)
    ensures multiset(rows + [row])[i] == multiset(rows)[i] + if row == i then 1 else 0
  {
  }

  lemma RowsOfHold(owners: seq<Option<nat>>, k: nat, i: nat)
    ensures i in RowsOf(owners, k, |owners|) <==> i < |owners| && owners[i] == Some(k)
  {
    RowsOfCounts(owners, k, |owners|, i);
    assert i in RowsOf(owners, k, |owners|) <==> i in multiset(RowsOf(owners, k, |owners|));
  }

  lemma MountsDisputeIs(host: Host, signature: Signature, k: nat)
    ensures MountsDispute(signature, host.mounts, MountRowsOf(host, k)) <==>
      exists i :: 0 <= i < |host.mounts| && MountOwner(Observations(host.nodes), host.mounts, i) == Some(k)
                  && (signature.usage != Some("filesystem") || signature.kind != Some(host.mounts[i].filesystem))
  {
    hide MountOwner, RowsOf, Observations;
    var owners, rows := MountOwners(Observations(host.nodes), host.mounts), MountRowsOf(host, k);
    forall i: nat ensures i in rows <==> i < |owners| && owners[i] == Some(k) {
      RowsOfHold(owners, k, i);
    }
    forall i | 0 <= i < |host.mounts| && MountOwner(Observations(host.nodes), host.mounts, i) == Some(k) && MountDisagrees(signature, host.mounts[i])
      ensures MountsDispute(signature, host.mounts, rows)
    {
      assert owners[i] == Some(k) && i in rows;
      var j :| 0 <= j < |rows| && rows[j] == i;
    }
    if MountsDispute(signature, host.mounts, rows) {
      var j :| 0 <= j < |rows| && rows[j] < |host.mounts| && MountDisagrees(signature, host.mounts[rows[j]]);
      assert rows[j] in rows;
    }
  }

  lemma SwapsHeldIs(host: Host, inspect: Inspect, k: nat)
    ensures SwapRowsOf(host, inspect, k) != [] <==>
      exists i :: 0 <= i < |host.swaps| && SwapOwner(Observations(host.nodes), host.swaps, Later(inspect, SwapTime(host)), i) == Some(k)
  {
    hide SwapOwner, RowsOf, Observations, SwapTime;
    var later := Later(inspect, SwapTime(host));
    var owners, rows := SwapOwners(Observations(host.nodes), host.swaps, later), SwapRowsOf(host, inspect, k);
    forall i: nat ensures i in rows <==> i < |owners| && owners[i] == Some(k) {
      RowsOfHold(owners, k, i);
    }
    if rows != [] {
      assert rows[0] in rows;
    }
    forall i | 0 <= i < |host.swaps| && SwapOwner(Observations(host.nodes), host.swaps, later, i) == Some(k) ensures rows != [] {
      assert owners[i] == Some(k) && i in rows;
    }
  }

  lemma FiledSignature(host: Host, inspect: Inspect, signatures: Signatures, k: nat)
    requires k < |host.nodes|
    ensures var read := signatures(k).signature;
      Filed(host, inspect, signatures, k).signature ==
        if read.state == Reported
           && (MountsDispute(read, host.mounts, MountRowsOf(host, k)) || (read.kind != Some("swap") && SwapRowsOf(host, inspect, k) != []))
        then read.(state := ConflictingSignature) else read
  {
    hide MountsDispute, MountRowsOf, SwapRowsOf, Confirms, SourceLost;
  }

  /** A signature ends as it was read, or, if it was reported, as a conflict exactly
      when a mount or swap of the node contradicts it. */
  lemma SignatureIs(host: Host, inspect: Inspect, signatures: Signatures, k: nat)
    requires k < |host.nodes|
    ensures var read := signatures(k).signature;
      && |UsageScan(host, inspect, signatures).nodes| == |host.nodes|
      && UsageScan(host, inspect, signatures).nodes[k].signature ==
           if read.state == Reported && Contradicted(host, inspect, read, k) then read.(state := ConflictingSignature) else read
  {
    hide AttributedNodes, UsageScan, Filed, Finished, Gathered, Confirms, SecondRead, MountRowsOf, SwapRowsOf, MountOwner, SwapOwner, MountsDispute,
         MountDisagrees, SwapTime;
    var nodes := AttributedNodes(host, inspect, signatures);
    ScannedNode(host, inspect, signatures, k);
    AttributedNode(host, inspect, signatures, k);
    FiledSignature(host, inspect, signatures, k);
    GatheredKeeps(nodes, k, |nodes|);
    FinishedKeeps(Gathered(nodes, k, |nodes|));
    MountsDisputeIs(host, signatures(k).signature, k);
    SwapsHeldIs(host, inspect, k);
  }

  // Which rows a node lists

  datatype Row = MountRow(index: nat) | SwapRow(index: nat)

  function Entries(node: ResolvedNode, row: Row): seq<nat> {
    if row.MountRow? then node.mounts else node.swaps
  }

  /** How often a node lists a row. */
  function Listings(node: ResolvedNode, row: Row): nat {
    multiset(Entries(node, row))[row.index]
  }

  /** The node that a row is attributed to. */
  function RowOwner(host: Host, inspect: Inspect, row: Row): Option<nat> {
    match row
    case MountRow(i) => if i < |host.mounts| then MountOwner(Observations(host.nodes), host.mounts, i) else None
    case SwapRow(i) =>
      if i < |host.swaps| then SwapOwner(Observations(host.nodes), host.swaps, Later(inspect, SwapTime(host)), i) else None
  }

  /** A partition below `n` that node `p` accepts owns the row. */
  predicate OwnedBelow(nodes: seq<ResolvedNode>, p: nat, n: nat, owner: Option<nat>)
    requires n <= |nodes|
  {
    owner.Some? && owner.value < n && Accepts(nodes, owner.value, p)
  }

  /** The row is listed, once, by the node that owns it and by no other. */
  predicate OwnedBy(nodes: seq<ResolvedNode>, row: Row, owner: Option<nat>) {
    forall k :: 0 <= k < |nodes| ==> Listings(nodes[k], row) == if owner == Some(k) then 1 else 0
  }

  lemma AttributedOwned(host: Host, inspect: Inspect, signatures: Signatures, row: Row)
    requires Untouched(host)
    ensures OwnedBy(AttributedNodes(host, inspect, signatures), row, RowOwner(host, inspect, row))
  {
    hide AttributedNodes, RowOwner, Listings;
    AttributedSame(host, inspect, signatures);
    forall k | 0 <= k < |host.nodes|
      ensures Listings(AttributedNodes(host, inspect, signatures)[k], row) == if RowOwner(host, inspect, row) == Some(k) then 1 else 0
    {
      AttributedListings(host, inspect, signatures, row, k);
    }
  }

  lemma AttributedListings(host: Host, inspect: Inspect, signatures: Signatures, row: Row, k: nat)
    requires Untouched(host) && k < |host.nodes|
    ensures |AttributedNodes(host, inspect, signatures)| == |host.nodes|
    ensures Listings(AttributedNodes(host, inspect, signatures)[k], row) == if RowOwner(host, inspect, row) == Some(k) then 1 else 0
  {
    hide AttributedNodes, Filed, MountRowsOf, SwapRowsOf, RowOwner, Confirms, SecondRead, FirstRead, SourceLost;
    AttributedNode(host, inspect, signatures, k);
    AttributedFields(host, inspect, signatures, k);
    assert [] + MountRowsOf(host, k) == MountRowsOf(host, k) && [] + SwapRowsOf(host, inspect, k) == SwapRowsOf(host, inspect, k);
    OwnedOnce(host, inspect, row, k);
  }

  lemma OwnedOnce(host: Host, inspect: Inspect, row: Row, k: nat)
    ensures var rows := if row.MountRow? then MountRowsOf(host, k) else SwapRowsOf(host, inspect, k);
      multiset(rows)[row.index] == if RowOwner(host, inspect, row) == Some(k) then 1 else 0
  {
    hide RowsOf, MountOwner, SwapOwner, Observations, SwapTime, Later;
    var seen, later := Observations(host.nodes), Later(inspect, SwapTime(host));
    if row.MountRow? {
      RowsOfCounts(MountOwners(seen, host.mounts), k, |host.mounts|, row.index);
    } else {
      RowsOfCounts(SwapOwners(seen, host.swaps, later), k, |host.swaps|, row.index);
    }
  }

  lemma {:induction false} GatheredCounts(nodes: seq<ResolvedNode>, row: Row, owner: Option<nat>, p: nat, n: nat)
    requires p < |nodes| && n <= |nodes| && OwnedBy(nodes, row, owner)
    ensures Listings(Gathered(nodes, p, n), row) == if owner == Some(p) || OwnedBelow(nodes, p, n, owner) then 1 else 0
  {
    hide Accepts, Listings, Joined;
    if n > 0 {
      GatheredCounts(nodes, row, owner, p, n - 1);
      NotItsOwn(nodes, p);
      JoinedEntries(Gathered(nodes, p, n - 1), nodes[n - 1], row);
    }
  }

  lemma NotItsOwn(nodes: seq<ResolvedNode>, p: nat)
    requires p < |nodes|
    ensures !Accepts(nodes, p, p)
  {
  }

  lemma JoinedEntries(disk: ResolvedNode, child: ResolvedNode, row: Row)
    ensures Listings(Joined(disk, child), row) == Listings(disk, row) + Listings(child, row)
  {
  }

  /** After a scan a node lists each row exactly once when it owns the row itself or
      accepts the partition that owns it, and never otherwise, in ascending order. */
  lemma ListsExactly(host: Host, inspect: Inspect, signatures: Signatures, row: Row, p: nat)
    requires Untouched(host) && p < |host.nodes|
    ensures var nodes, owner := UsageScan(host, inspect, signatures).nodes, RowOwner(host, inspect, row);
      && |nodes| == |host.nodes|
      && Listings(nodes[p], row) == (if owner == Some(p) || OwnedBelow(nodes, p, |nodes|, owner) then 1 else 0)
      && Ordered(Entries(nodes[p], row), IndexKey)
  {
    hide AttributedNodes, UsageScan, RowOwner, Finished, Gathered, Accepts, Ordered;
    var before, nodes, owner := AttributedNodes(host, inspect, signatures), UsageScan(host, inspect, signatures).nodes, RowOwner(host, inspect, row);
    ScannedNode(host, inspect, signatures, p);
    AttributedOwned(host, inspect, signatures, row);
    GatheredCounts(before, row, owner, p, |before|);
    FinishedKeeps(Gathered(before, p, |before|));
    ScanKeepsNodes(host, inspect, signatures);
    AttributedSame(host, inspect, signatures);
    if owner.Some? && owner.value < |before| {
      AcceptsSame(before, nodes, owner.value, p);
    }
  }

  // Owners

  lemma OnceOnly<T>(s: seq<T>, i: nat)
    requires i < |s|
    ensures multiset(s)[s[i]] == 1 <==> forall j :: 0 <= j < |s| && s[j] == s[i] ==> j == i
  {
    assert s == s[..i] + [s[i]] + s[i + 1..];
    if j :| 0 <= j < |s| && j != i && s[j] == s[i] {
      assert j < i ==> s[..i][j] == s[i];
      assert j > i ==> s[i + 1..][j - i - 1] == s[i];
    }
  }

  /** A mount gets a node exactly when its id is its own and one node, and only one,
      has its device number; and then it is that node's. */
  lemma MountOwnerIs(seen: seq<Observation>, mounts: seq<MountEvidence>, i: nat, k: nat)
    requires i < |mounts|
    ensures MountOwner(seen, mounts, i) == Some(k) <==>
      && (forall j :: 0 <= j < |mounts| && mounts[j].mountId == mounts[i].mountId ==> j == i)
      && Sole(seen, mounts[i].device, k)
  {
    OnceOnly(MountIds(mounts), i);
    assert forall j :: 0 <= j < |mounts| ==> MountIds(mounts)[j] == mounts[j].mountId;
  }

  /** A swap gets a node exactly when it is a partition under a path of its own, two
      successive reads of that path agree on a block node without complaint, and that
      node's number is the number of one node only. */
  lemma SwapOwnerIs(seen: seq<Observation>, swaps: seq<SwapEvidence>, inspect: Inspect, i: nat, k: nat)
    requires i < |swaps|
    ensures var at := SwapReads(swaps, i);
      SwapOwner(seen, swaps, inspect, i) == Some(k) <==>
        && swaps[i].kind == "partition"
        && (forall j :: 0 <= j < |swaps| && swaps[j].path == swaps[i].path ==> j == i)
        && inspect(at).status.Some? && inspect(at).issues == [] && inspect(at).status.value.isBlock && inspect(at).status.value.number.Some?
        && inspect(at + 1).status == inspect(at).status && inspect(at + 1).issues == []
        && Sole(seen, inspect(at).status.value.number.value, k)
  {
    OnceOnly(SwapPaths(swaps), i);
    assert forall j :: 0 <= j < |swaps| ==> SwapPaths(swaps)[j] == swaps[j].path;
  }

  function RowNode(host: Host, row: Row): Option<string> {
    match row
    case MountRow(i) => if i < |host.mounts| then host.mounts[i].node else None
    case SwapRow(i) => if i < |host.swaps| then host.swaps[i].node else None
  }

  /** A row names its owner, and no node if it has none. */
  lemma RowNamesOwner(host: Host, inspect: Inspect, signatures: Signatures, row: Row)
    requires Untouched(host)
    ensures var owner := RowOwner(host, inspect, row);
      && (owner.Some? ==> owner.value < |host.nodes|)
      && RowNode(UsageScan(host, inspect, signatures), row) ==
           if owner.None? then None else Some(host.nodes[owner.value].observation.kernelName)
  {
    hide UsageScan, AttributedNodes, MountOwner, SwapOwner, SwapDevice, SwapTime;
    ScanShape(host, inspect, signatures);
  }

  /** Nothing disputes how the device is related to others. */
  predicate Related(o: Observation) {
    forall i :: 0 <= i < |o.issues| ==>
      o.issues[i].code !in {InvalidRelationship, DeviceDisappeared} && o.issues[i].field !in {"parent_kernel_name", "partition_number"}
  }

  /** A partition counts for a node exactly when it is numbered and names it as its parent,
      no other node has that name, the node is a resolved whole disk that is not virtual,
      lists the partition once, and nothing disputes the relation at either end. */
  lemma AcceptsIs(nodes: seq<ResolvedNode>, c: nat, p: nat)
    requires c < |nodes| && p < |nodes|
    ensures var child, parent := nodes[c].observation, nodes[p].observation;
      Accepts(nodes, c, p) <==>
        && child.nodeType == PartitionNode && child.partitionNumber.Some? && child.parentName == Some(parent.kernelName)
        && (forall j :: 0 <= j < |nodes| && nodes[j].observation.kernelName == parent.kernelName ==> j == p)
        && parent.nodeType == WholeDisk && parent.kind != VirtualOrPseudo && nodes[p].identity.state == Resolved
        && (exists i :: 0 <= i < |parent.childNames| && OnlyAt(parent.childNames, i, child.kernelName))
        && Related(child) && Related(parent)
  {
    OnceIs(nodes[p].observation.childNames, nodes[c].observation.kernelName);
  }

  /** A read confirms a device exactly when it succeeded without complaint and found a
      block node of the number observed. */
  lemma ConfirmsIs(read: PathRead, o: Observation)
    ensures Confirms(read, o) <==>
      o.deviceNumber.Some? && read == PathRead(Some(PathStatus(true, o.deviceNumber)), [])
  {
  }

  /** The signature source lost a device exactly when it says that the device vanished or
      changed. */
  lemma SourceLostIs(issues: seq<DiscoveryIssue>)
    ensures SourceLost(issues) <==> exists x :: x in issues && x.code in {Disappeared, SnapshotChanged}
  {
    if SourceLost(issues) {
      var i :| 0 <= i < |issues| && issues[i].code in {Disappeared, SnapshotChanged};
      assert issues[i] in issues;
    }
  }

  /** The name is that of the node `k`, or of a partition that `k` accepts. */
  predicate NamesOrPartition(nodes: seq<ResolvedNode>, name: Option<string>, k: nat)
    requires k < |nodes|
  {
    || name == Some(nodes[k].observation.kernelName)
    || exists c :: 0 <= c < |nodes| && name == Some(nodes[c].observation.kernelName) && Accepts(nodes, c, k)
  }

  /** With distinct kernel names the two records that a scan leaves agree: a node
      lists a row, once, exactly when the row names the node or a partition the node
      accepts. */
  lemma UsageIndexAgrees(host: Host, inspect: Inspect, signatures: Signatures, row: Row, k: nat)
    requires Untouched(host) && DistinctNames(Observations(host.nodes)) && k < |host.nodes|
    ensures var scan := UsageScan(host, inspect, signatures);
      && |scan.nodes| == |host.nodes|
      && Listings(scan.nodes[k], row) == if NamesOrPartition(scan.nodes, RowNode(scan, row), k) then 1 else 0
  {
    hide UsageScan, RowOwner, Accepts, Listings, RowNode, Ordered;
    var nodes, owner := UsageScan(host, inspect, signatures).nodes, RowOwner(host, inspect, row);
    ListsExactly(host, inspect, signatures, row, k);
    RowNamesOwner(host, inspect, signatures, row);
    ScanKeepsNodes(host, inspect, signatures);
    if owner.Some? {
      forall c | 0 <= c < |nodes|
        ensures RowNode(UsageScan(host, inspect, signatures), row) == Some(nodes[c].observation.kernelName) <==> c == owner.value
      {
        NamesApart(host.nodes, c, owner.value);
      }
    }
  }

  lemma NamesApart(nodes: seq<ResolvedNode>, a: nat, b: nat)
    requires DistinctNames(Observations(nodes)) && a < |nodes| && b < |nodes|
    ensures nodes[a].observation.kernelName == nodes[b].observation.kernelName <==> a == b
  {
    assert Observations(nodes)[a] == nodes[a].observation && Observations(nodes)[b] == nodes[b].observation;
  }

  // Which mounts are reported

  /** An issue of the list names the mount id. */
  predicate Cites(issues: seq<DiscoveryIssue>, m: nat) {
    exists j :: 0 <= j < |issues| && issues[j].mountId == Some(m)
  }

  /** No metadata read speaks of a mount. */
  ghost predicate Unspecific(inspect: Inspect) {
    forall n, m :: !Cites(inspect(n).issues, m)
  }

  lemma CitesEither(a: seq<DiscoveryIssue>, b: seq<DiscoveryIssue>, m: nat)
    ensures Cites(a + b, m) <==> Cites(a, m) || Cites(b, m)
  {
    if j :| 0 <= j < |a| && a[j].mountId == Some(m) {
      assert (a + b)[j] == a[j];
    }
    if j :| 0 <= j < |b| && b[j].mountId == Some(m) {
      assert (a + b)[|a| + j] == b[j];
    }
  }

  lemma CitesNormalized(issues: seq<DiscoveryIssue>, m: nat)
    ensures Cites(Normalize(issues, DiscoveryIssueKey), m) <==> Cites(issues, m)
  {
    hide Normalize, DiscoveryIssueKey;
    DiscoveryIssueKeyInjective();
    NormalizeCorrect(issues, DiscoveryIssueKey);
    CitesElements(issues, m);
    CitesElements(Normalize(issues, DiscoveryIssueKey), m);
  }

  lemma CitesElements(issues: seq<DiscoveryIssue>, m: nat)
    ensures Cites(issues, m) <==> exists x :: x in Elements(issues) && x.mountId == Some(m)
  {
    if j :| 0 <= j < |issues| && issues[j].mountId == Some(m) {
      assert issues[j] in Elements(issues);
    }
  }

  /** A mount of this id has no node. */
  predicate Unattributed(seen: seq<Observation>, mounts: seq<MountEvidence>, n: nat, m: nat)
    requires n <= |mounts|
  {
    exists i :: 0 <= i < n && mounts[i].mountId == m && MountOwner(seen, mounts, i).None?
  }

  lemma {:induction false} MountIssuesCite(seen: seq<Observation>, mounts: seq<MountEvidence>, inspect: Inspect, n: nat, m: nat)
    requires n <= |mounts| && Unspecific(inspect)
    ensures Cites(MountIssues(seen, mounts, inspect, n), m) <==> Unattributed(seen, mounts, n, m)
  {
    hide Cites, MountIssue, MountOwner;
    if n == 0 {
      NothingCited(m);
    } else {
      MountIssuesCite(seen, mounts, inspect, n - 1, m);
      MountIssueCites(seen, mounts, inspect, n - 1, m);
      CitesEither(MountIssues(seen, mounts, inspect, n - 1), MountIssue(seen, mounts, inspect, n - 1), m);
    }
  }

  lemma NothingCited(m: nat)
    ensures !Cites([], m)
  {
  }

  lemma MountIssueCites(seen: seq<Observation>, mounts: seq<MountEvidence>, inspect: Inspect, i: nat, m: nat)
    requires i < |mounts| && Unspecific(inspect)
    ensures Cites(MountIssue(seen, mounts, inspect, i), m) <==> mounts[i].mountId == m && MountOwner(seen, mounts, i).None?
  {
    hide MountOwner, Confirms, MountReads;
    var owner := MountOwner(seen, mounts, i);
    if owner.None? {
      assert MountIssue(seen, mounts, inspect, i)[0].mountId == Some(mounts[i].mountId);
    } else {
      var o, read := seen[owner.value], inspect(MountReads(seen, mounts, i));
      assert !Cites(read.issues, m);
      CitesEither(SourceIssues(mounts[i], o, read), RootIssues(mounts[i], o), m);
      CitesEither(read.issues, if Confirms(read, o) then [] else [Issue(SnapshotChanged, o.kernelName, "mount_source")], m);
    }
  }

  lemma SwapIssueCites(seen: seq<Observation>, swaps: seq<SwapEvidence>, inspect: Inspect, i: nat, m: nat)
    requires i < |swaps| && Unspecific(inspect)
    ensures !Cites(SwapIssue(seen, swaps, inspect, i), m)
  {
    hide Cites, SwapOwner, Inspected, SwapReads;
    var at := SwapReads(swaps, i);
    var last := if SwapOwner(seen, swaps, inspect, i).None? then [Issue(UncorrelatedUsage, "", "swap_source")] else [];
    assert !Cites(inspect(at).issues, m) && !Cites(inspect(at + 1).issues, m);
    CitesEither(inspect(at).issues, inspect(at + 1).issues, m);
    CitesEither(inspect(at).issues + inspect(at + 1).issues, last, m);
    PlainIssue(UncorrelatedUsage, "", "swap_source", m);
    PlainIssue(UnsupportedTopology, "", "swap_source", m);
  }

  lemma PlainIssue(code: DiscoveryIssueCode, node: string, field: string, m: nat)
    ensures !Cites([Issue(code, node, field)], m) && !Cites([], m)
  {
  }

  lemma {:induction false} SwapIssuesCite(seen: seq<Observation>, swaps: seq<SwapEvidence>, inspect: Inspect, n: nat, m: nat)
    requires n <= |swaps| && Unspecific(inspect)
    ensures !Cites(SwapIssues(seen, swaps, inspect, n), m)
  {
    hide Cites, SwapIssue, Unspecific;
    if n == 0 {
      NothingCited(m);
    } else {
      SwapIssuesCite(seen, swaps, inspect, n - 1, m);
      SwapIssueCites(seen, swaps, inspect, n - 1, m);
      CitesEither(SwapIssues(seen, swaps, inspect, n - 1), SwapIssue(seen, swaps, inspect, n - 1), m);
    }
  }

  lemma {:induction false} ParentIssuesCite(nodes: seq<ResolvedNode>, n: nat, m: nat)
    requires n <= |nodes|
    ensures !Cites(ParentIssues(nodes, n), m)
  {
    hide Adopted;
    if n > 0 {
      ParentIssuesCite(nodes, n - 1, m);
      CitesEither(ParentIssues(nodes, n - 1), ParentIssue(nodes, n - 1), m);
    }
  }

  lemma LaterUnspecific(inspect: Inspect, n: nat)
    requires Unspecific(inspect)
    ensures Unspecific(Later(inspect, n))
  {
    forall k: nat, m: nat ensures !Cites(Later(inspect, n)(k).issues, m) {
      assert !Cites(inspect(n + k).issues, m);
    }
  }

  lemma ScanIssues(host: Host, inspect: Inspect, signatures: Signatures)
    ensures var nodes, seen := AttributedNodes(host, inspect, signatures), Observations(host.nodes);
      UsageScan(host, inspect, signatures).issues ==
        Normalize(host.issues + MountIssues(seen, host.mounts, Later(inspect, MountTime(host)), |host.mounts|)
                  + SwapIssues(seen, host.swaps, Later(inspect, SwapTime(host)), |host.swaps|) + ParentIssues(nodes, |nodes|),
                  DiscoveryIssueKey)
  {
    hide Opened, Mounted, Swapped, Confirmed, NamedMounts, NamedSwaps, AllGathered, AllFinished, Normalize, Observations, MountTime, SwapTime,
         ConfirmTime, MountIssues, SwapIssues, ParentIssues;
    var entered := Opened(host.nodes, inspect, signatures);
    OpenedSame(host.nodes, inspect, signatures);
    MountedSame(entered, host.mounts);
  }

  /** A scan reports a mount id exactly when a mount of that id has no node, unless
      something before it already named the id. */
  lemma ReportedMounts(host: Host, inspect: Inspect, signatures: Signatures, m: nat)
    requires Unspecific(inspect)
    ensures Cites(UsageScan(host, inspect, signatures).issues, m) <==>
      Cites(host.issues, m) || Unattributed(Observations(host.nodes), host.mounts, |host.mounts|, m)
  {
    hide Cites, UsageScan, AttributedNodes, MountIssues, SwapIssues, ParentIssues, Unattributed, Unspecific, Observations, MountTime, SwapTime, Later;
    var nodes, seen := AttributedNodes(host, inspect, signatures), Observations(host.nodes);
    var first, later := Later(inspect, MountTime(host)), Later(inspect, SwapTime(host));
    LaterUnspecific(inspect, MountTime(host));
    LaterUnspecific(inspect, SwapTime(host));
    var a, b, c := MountIssues(seen, host.mounts, first, |host.mounts|), SwapIssues(seen, host.swaps, later, |host.swaps|),
                   ParentIssues(nodes, |nodes|);
    ScanIssues(host, inspect, signatures);
    CitesNormalized(host.issues + a + b + c, m);
    CitesEither(host.issues + a + b, c, m);
    CitesEither(host.issues + a, b, m);
    CitesEither(host.issues, a, m);
    MountIssuesCite(seen, host.mounts, first, |host.mounts|, m);
    SwapIssuesCite(seen, host.swaps, later, |host.swaps|, m);
    ParentIssuesCite(nodes, |nodes|, m);
  }
}
