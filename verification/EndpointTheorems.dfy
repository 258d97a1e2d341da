/** Which records of the source make a device that traces end at and rows show. */
module EndpointTheorems {
  import opened Inventory
  import I = Identities
  import opened Backing
  import opened Ownership
  import opened GraphTheorems
  import opened HostReads
  import opened HostUsage
  import opened HostUsageTheorems
  import opened Discovery
  import opened DiscoveryTheorems
  import opened Production
  import opened ProductionTheorems
  import opened PublicationTheorems

  /** Every record of the name says that it is of a whole device, and one at least does not
      report it as virtual. */
  ghost predicate Hardware(m: Machine, name: string) {
    && (forall r :: RawInventoryTheorems.OfDevice(m.records, r, name) ==> SourceRecords.SaidDisk(r))
    && (exists r :: RawInventoryTheorems.OfDevice(m.records, r, name) && r.kind != VirtualOrPseudo)
  }

  /** Every record of the name gives evidence of a disk. */
  ghost predicate Evident(m: Machine, name: string) {
    forall r :: RawInventoryTheorems.OfDevice(m.records, r, name) ==> SourceRecords.EvidentDisk(r)
  }

  lemma NodesAreDevices(m: Machine, inspect: Inspect, signatures: Signatures, k: nat)
    requires k < |Devices(m)|
    ensures var nodes := Discovered(m, inspect, signatures).nodes;
      && |nodes| == |Devices(m)|
      && nodes[k].observation.kernelName == Devices(m)[k].kernelName
      && nodes[k].observation.nodeType == Devices(m)[k].nodeType
      && nodes[k].observation.kind == Devices(m)[k].kind
      && nodes[k].observation.physicalKind == Devices(m)[k].physicalKind
  {
    hide UsageScan, Devices, I.Resolve, I.AllTidied, I.Settled;
    HostIsResolved(m);
    ScanKeepsNodes(HostOf(m), inspect, signatures);
    TidiedName(Devices(m), k);
    SettledKinds(Devices(m), k);
  }

  lemma SettledKinds(devices: seq<Observation>, k: nat)
    requires k < |devices|
    ensures var o := I.Tidied(I.Settled(devices, k)).observation;
      o.nodeType == devices[k].nodeType && o.kind == devices[k].kind && o.physicalKind == devices[k].physicalKind
  {
  }

  lemma DiscoveredNames(m: Machine, inspect: Inspect, signatures: Signatures)
    ensures var nodes := Discovered(m, inspect, signatures).nodes;
      forall i, j :: 0 <= i < j < |nodes| ==> nodes[i].observation.kernelName != nodes[j].observation.kernelName
  {
    hide UsageScan, HostOf, I.AllTidied;
    var host, nodes := HostOf(m), Discovered(m, inspect, signatures).nodes;
    HostIsResolved(m);
    ScanKeepsNodes(host, inspect, signatures);
    forall i, j | 0 <= i < j < |nodes| ensures nodes[i].observation.kernelName != nodes[j].observation.kernelName {
      assert Observations(host.nodes)[i] == nodes[i].observation && Observations(host.nodes)[j] == nodes[j].observation;
    }
  }

  /** A node is shown, and ends traces, exactly when the records make it hardware; and it is
      a disk exactly when all of them give evidence of one. */
  lemma KindsOfNodes(m: Machine, inspect: Inspect, signatures: Signatures, k: nat)
    requires k < |Devices(m)|
    ensures var nodes, name := Discovered(m, inspect, signatures).nodes, Devices(m)[k].kernelName;
      && |nodes| == |Devices(m)|
      && (Listable(nodes[k]) <==> Hardware(m, name))
      && (nodes[k].observation.physicalKind == DiskKind <==> Evident(m, name))
  {
    hide Discovered, RawInventoryTheorems.OfDevice, SourceRecords.SaidDisk, SourceRecords.EvidentDisk, RawInventory.Scanned;
    NodesAreDevices(m, inspect, signatures, k);
    RawInventoryTheorems.KindsAreUnanimous(m.records, k);
  }

  /** `d` is the key of a device that its records make hardware. */
  ghost predicate KeyOfHardware(m: Machine, d: Key) {
    exists k, name :: Named(m, k, name) && d == "block:" + name && Hardware(m, name)
  }

  /** Traces over a discovered snapshot end exactly at hardware: no endpoint stems from
      records that all report a virtual device. */
  lemma EndpointsAreHardware(m: Machine, ev: Evidence, inspect: Inspect, signatures: Signatures, d: Key)
    ensures d in OwnershipGraph(Discovered(m, inspect, signatures), ev).physical <==> KeyOfHardware(m, d)
  {
    hide Discovered, OwnershipGraph, Hardware, Evident, Blocks, Devices;
    var inv := Discovered(m, inspect, signatures);
    EndpointIs(inv, ev, d);
    DiscoveredNames(m, inspect, signatures);
    if d in Blocks(inv.nodes) {
      BlocksHaveKeys(inv.nodes, d);
      var k :| 0 <= k < |inv.nodes| && inv.nodes[k] == Blocks(inv.nodes)[d] && d == BlockKey(inv.nodes[k].observation.kernelName);
      NodesCount(m, inspect, signatures);
      NodesAreDevices(m, inspect, signatures, k);
      KindsOfNodes(m, inspect, signatures, k);
      assert Named(m, k, inv.nodes[k].observation.kernelName);
      KeysOfOne(inv.nodes, k);
    }
    if k, name :| Named(m, k, name) && d == "block:" + name && Hardware(m, name) {
      NodesAreDevices(m, inspect, signatures, k);
      KindsOfNodes(m, inspect, signatures, k);
      SoleBlock(inv.nodes, k);
    }
  }

  /** No other name has the key. */
  lemma KeysOfOne(nodes: seq<ResolvedNode>, k: nat)
    requires k < |nodes|
    ensures forall name :: "block:" + name == BlockKey(nodes[k].observation.kernelName) ==> name == nodes[k].observation.kernelName
  {
    forall name | "block:" + name == BlockKey(nodes[k].observation.kernelName) ensures name == nodes[k].observation.kernelName {
      BlockKeyInjective(name, nodes[k].observation.kernelName);
    }
  }

  lemma NodesCount(m: Machine, inspect: Inspect, signatures: Signatures)
    ensures |Discovered(m, inspect, signatures).nodes| == |Devices(m)|
  {
    hide UsageScan, Devices, I.Resolve, I.AllTidied;
    HostIsResolved(m);
    ScanKeepsNodes(HostOf(m), inspect, signatures);
  }

  /** Rows have the name exactly if it is shown, and are of a disk exactly if it is one. */
  ghost predicate ShownAs(drives: seq<ProductionDrive>, name: string, shown: bool, disk: bool) {
    && ((exists i :: 0 <= i < |drives| && drives[i].observation.kernelName == name) <==> shown)
    && forall i :: 0 <= i < |drives| && drives[i].observation.kernelName == name ==> (drives[i].observation.physicalKind == DiskKind <==> disk)
  }

  ghost predicate PublishedOf(available: bool, steps: seq<Step>, p: ProductionSnapshot, inv: Snapshot) {
    p in Interleaving(available, steps).system.log && p.phase in {OwnershipPhase, CompletePhase} && p.inventory == inv
  }

  /** And the rows of a published snapshot of it show exactly hardware, each as a disk
      exactly when its records give evidence of one. */
  lemma RowsAreHardware(available: bool, steps: seq<Step>, p: ProductionSnapshot, m: Machine, inspect: Inspect, signatures: Signatures,
                        k: nat, name: string)
    requires PublishedOf(available, steps, p, Discovered(m, inspect, signatures)) && Named(m, k, name)
    ensures ShownAs(p.drives, name, Hardware(m, name), Evident(m, name))
  {
    hide Interleaving, Discovered, Hardware, Evident, Devices, Listable, Waits, Tells;
    var at := PublishedShows(available, steps, p);
    NodesCount(m, inspect, signatures);
    NodesAreDevices(m, inspect, signatures, k);
    KindsOfNodes(m, inspect, signatures, k);
    DiscoveredNames(m, inspect, signatures);
    RowOfNode(p.drives, p.inventory.nodes, at, k);
  }

  /** Over distinctly named nodes a row with a node's name shows that node. */
  lemma RowOfNode(drives: seq<ProductionDrive>, nodes: seq<ResolvedNode>, at: seq<nat>, k: nat)
    requires ListsAt(drives, nodes, at) && k < |nodes|
    requires forall i, j :: 0 <= i < j < |nodes| ==> nodes[i].observation.kernelName != nodes[j].observation.kernelName
    ensures (exists i :: 0 <= i < |drives| && drives[i].observation.kernelName == nodes[k].observation.kernelName) <==> Listable(nodes[k])
    ensures forall i :: 0 <= i < |drives| && drives[i].observation.kernelName == nodes[k].observation.kernelName ==> Shows(drives[i], nodes[k])
  {
    hide Listable;
    if k in at {
      var i :| 0 <= i < |at| && at[i] == k;
      assert Shows(drives[i], nodes[k]);
    }
    forall i | 0 <= i < |drives| && drives[i].observation.kernelName == nodes[k].observation.kernelName ensures at[i] == k {
      assert Shows(drives[i], nodes[at[i]]);
    }
    if i :| 0 <= i < |drives| && drives[i].observation.kernelName == nodes[k].observation.kernelName {
      assert at[i] in at;
    }
  }
}
