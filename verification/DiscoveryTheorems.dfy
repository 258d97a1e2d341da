/** What holds of a snapshot from the source records on, without further assumption. */
module DiscoveryTheorems {
  import opened Text
  import opened Inventory
  import opened Canonical
  import opened IssueOrder
  import RawInventoryTheorems
  import opened Identities
  import opened IdentityTheorems
  import opened HostReads
  import opened HostUsage
  import opened HostUsageTheorems
  import opened Discovery

  /** The rows as they were parsed: attributed to nothing yet. */
  predicate FreshRows(m: Machine) {
    && (forall i :: 0 <= i < |m.mounts| ==> m.mounts[i].node.None?)
    && (forall i :: 0 <= i < |m.swaps| ==> m.swaps[i].node.None?)
  }

  lemma TidiedName(devices: seq<Observation>, k: nat)
    requires k < |devices|
    ensures AllTidied(devices)[k] == Tidied(Settled(devices, k))
    ensures AllTidied(devices)[k].observation.kernelName == devices[k].kernelName
    ensures AllTidied(devices)[k].mounts == [] && AllTidied(devices)[k].swaps == []
  {
    hide Identify, Findings, Contested, Sort, Normalize;
  }

  /** Devices listed by name are not moved by the sorting of their nodes. */
  lemma ResolvedInOrder(devices: seq<Observation>)
    requires forall i, j :: 0 <= i < j < |devices| ==> Before(Bytes(devices[i].kernelName), Bytes(devices[j].kernelName))
    ensures Resolve(devices) == AllTidied(devices)
  {
    hide AllTidied, Sort, Bytes, Before, NodeKey, Tidied, Settled;
    var nodes := AllTidied(devices);
    forall i, j | 0 <= i < j < |nodes| ensures !Before(NodeKey(nodes[j]), NodeKey(nodes[i])) {
      TidiedName(devices, i);
      TidiedName(devices, j);
      KeysBefore(nodes[i], nodes[j]);
    }
    SortKeepsOrder(nodes, NodeKey);
  }

  lemma KeysBefore(a: ResolvedNode, b: ResolvedNode)
    requires Before(Bytes(a.observation.kernelName), Bytes(b.observation.kernelName))
    ensures !Before(NodeKey(b), NodeKey(a))
  {
    hide Bytes, Before, NameKey, NumberKey;
    var x, y := NodeKey(a)[|Bytes(a.observation.kernelName)|..], NodeKey(b)[|Bytes(b.observation.kernelName)|..];
    assert NodeKey(a) == Bytes(a.observation.kernelName) + x && NodeKey(b) == Bytes(b.observation.kernelName) + y;
    FirstKeyDecides(a.observation.kernelName, b.observation.kernelName, x, y);
    BeforeOneWay(NodeKey(a), NodeKey(b));
  }

  /** The nodes that the usage scan starts from are the devices, in their order, under
      distinct names, none of them empty, and with nothing attributed. */
  lemma HostIsResolved(m: Machine)
    ensures HostOf(m).nodes == AllTidied(Devices(m))
    ensures DistinctNames(Observations(HostOf(m).nodes))
    ensures forall k :: 0 <= k < |HostOf(m).nodes| ==> HostOf(m).nodes[k].observation.kernelName != ""
    ensures FreshRows(m) ==> Untouched(HostOf(m))
  {
    hide RawInventory.Scanned, RawInventory.Names, Resolve, AllTidied, Bytes, Before;
    var names, devices := RawInventory.Names(m.records), Devices(m);
    RawInventoryTheorems.ScannedNames(m.records);
    ResolvedInOrder(devices);
    forall k | 0 <= k < |devices|
      ensures HostOf(m).nodes[k].observation.kernelName == names[k] && names[k] != ""
      ensures HostOf(m).nodes[k].mounts == [] && HostOf(m).nodes[k].swaps == []
    {
      TidiedName(devices, k);
    }
    forall i, j | 0 <= i < j < |names| ensures names[i] != names[j] {
      BeforeIrreflexive(Bytes(names[i]));
    }
  }

  /** In every discovered snapshot a node lists a mount or swap, once, exactly when the
      row names the node or a partition that the node accepts. */
  lemma UsageIsConsistent(m: Machine, inspect: Inspect, signatures: Signatures, row: Row, k: nat)
    requires FreshRows(m) && k < |Devices(m)|
    ensures var scan := UsageScan(HostOf(m), inspect, signatures);
      && |Discovered(m, inspect, signatures).nodes| == |Devices(m)|
      && Discovered(m, inspect, signatures).nodes == scan.nodes
      && Listings(scan.nodes[k], row) == if NamesOrPartition(scan.nodes, RowNode(scan, row), k) then 1 else 0
  {
    hide UsageScan, HostOf, Devices, Untouched, NamesOrPartition, Listings, AllTidied;
    HostIsResolved(m);
    UsageIndexAgrees(HostOf(m), inspect, signatures, row, k);
    ScanKeepsNodes(HostOf(m), inspect, signatures);
  }

  /** Looking an identity up in a freshly discovered snapshot never finds it ambiguous. */
  lemma LookupIsNeverAmbiguous(m: Machine, inspect: Inspect, signatures: Signatures, id: DriveId)
    ensures !AmbiguousPath(Discovered(m, inspect, signatures).nodes, id)
  {
    hide UsageScan, Resolve;
    var before, after := HostOf(m).nodes, Discovered(m, inspect, signatures).nodes;
    PathIsNeverAmbiguous(Devices(m), before, id);
    ScanKeepsNodes(HostOf(m), inspect, signatures);
    assert forall k :: 0 <= k < |before| ==> Bears(after[k], id) == Bears(before[k], id);
  }

  /** A table of the host counts as completely read exactly when it was read and nothing
      that was met on the way is about it; and the inventory issues are those reported, and
      for every record whose name cannot be used its own and one about the name. */
  lemma DiscoveredParts(m: Machine, inspect: Inspect, signatures: Signatures, x: BlockIssue)
    ensures var inv := Discovered(m, inspect, signatures);
      && (inv.mountinfoComplete <==> m.mountsRead && forall y :: y in m.found ==> y.field != "mountinfo")
      && (inv.swapsComplete <==> m.swapsRead && forall y :: y in m.found ==> y.field != "swaps")
      && (x in inv.inventoryIssues <==>
           || x in m.reported
           || exists r :: r in m.records && !RawInventory.ValidName(Trimmed(r.name))
                          && (x in r.issues || x == RawInventory.NameIssue(Trimmed(r.name))))
  {
    hide UsageScan, RawInventory.Discarded, RawInventory.ValidName, RawInventory.NameIssue, Trimmed, Normalize, Sort, HostOf, BlockIssueKey;
    RawInventoryTheorems.DiscardedAre(m.records, x);
    var raw := m.reported + RawInventory.Discarded(m.records);
    BlockIssueKeyInjective();
    NormalizeCorrect(raw, BlockIssueKey);
    SortCorrect(RawIssues(m), BlockIssueKey);
    assert x in raw <==> x in Elements(raw);
    assert x in RawIssues(m) <==> x in Elements(RawIssues(m));
    assert x in Sort(RawIssues(m), BlockIssueKey) <==> x in multiset(Sort(RawIssues(m), BlockIssueKey));
    assert x in RawIssues(m) <==> x in multiset(RawIssues(m));
  }
}
