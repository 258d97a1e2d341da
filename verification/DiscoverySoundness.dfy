/** What READY says of the machine: from the decision back to the source records, the
    mount table and the paths. */
module DiscoverySoundness {
  import opened Text
  import opened Inventory
  import opened Canonical
  import opened IssueOrder
  import I = Identities
  import IdentifyTheorems
  import opened Backing
  import opened Ownership
  import opened OwnershipTheorems
  import opened OwnershipExceptions
  import opened HostReads
  import opened HostUsage
  import opened HostUsageTheorems
  import opened UsageSoundness
  import opened Discovery
  import opened DiscoveryTheorems

  /** No source reports a node under the key that a nameless device would have. */
  predicate NoBlankKey(ev: Evidence) {
    forall i :: 0 <= i < |ev.nodes| ==> ev.nodes[i].key != BlockKey("")
  }

  lemma DiscoveredIsScanned(m: Machine, inspect: Inspect, signatures: Signatures)
    requires FreshRows(m)
    ensures Scanned(Discovered(m, inspect, signatures), HostOf(m), inspect, signatures) && Untouched(HostOf(m))
    ensures forall ev :: NoBlankKey(ev) ==> NoBlankNode(HostOf(m), ev)
  {
    hide UsageScan, HostOf, Untouched, FreshRows, RawIssues, Sort;
    HostIsResolved(m);
  }

  /** A READY device of a discovered snapshot: nothing on the machine that reaches it is
      mounted or swapped to, and no mount or swap of the machine is left unaccounted for. */
  lemma ReadyMachineIsUnmounted(m: Machine, ev: Evidence, inspect: Inspect, signatures: Signatures, d: Key)
    requires FreshRows(m) && NoBlankKey(ev) && IsReady(Discovered(m, inspect, signatures), ev, d)
    ensures var g := OwnershipGraph(Discovered(m, inspect, signatures), ev);
      NothingMounted(HostOf(m), g, d) && NothingSwapped(HostOf(m), inspect, g, d)
  {
    hide Scanned, Discovered, IsReady, OwnershipGraph, Untouched, NothingMounted, NothingSwapped, NoBlankNode, NoBlankKey, FreshRows, HostOf;
    DiscoveredIsScanned(m, inspect, signatures);
    ReadyIsUnmounted(Discovered(m, inspect, signatures), ev, HostOf(m), inspect, signatures, d);
  }

  /** On a discovered snapshot further claims never make a device READY. */
  lemma MachineClaimsFailClosed(m: Machine, ev: Evidence, more: Evidence, inspect: Inspect, signatures: Signatures, d: Key)
    requires FreshRows(m) && NoBlankKey(ev) && MoreClaims(ev, more) && IsReady(Discovered(m, inspect, signatures), more, d)
    ensures IsReady(Discovered(m, inspect, signatures), ev, d)
  {
    hide Scanned, Discovered, IsReady, Untouched, NoBlankNode, NoBlankKey, FreshRows, HostOf;
    DiscoveredIsScanned(m, inspect, signatures);
    ClaimsFailClosed(Discovered(m, inspect, signatures), ev, more, HostOf(m), inspect, signatures, d);
  }

  // The evidence behind a READY device

  lemma ReadyWithoutIssues(inv: Snapshot, ev: Evidence, d: Key)
    requires IsReady(inv, ev, d)
    ensures d in Blocks(inv.nodes)
    ensures Blocks(inv.nodes)[d].observation.issues == [] && Blocks(inv.nodes)[d].identity.state == Resolved
    ensures Blocks(inv.nodes)[d].identity.scope == WholeDevice
  {
    hide CoverageComplete, LocalUnknown, ProtectedUse, BusyUse, Claims, UnknownUsage, Issues, Edges, Trace, OwnershipGraph, Blocks;
    GraphOfBlocks(inv, ev, d);
    BlocksAreNodes(inv, ev, d);
    EndpointTrace(OwnershipGraph(inv, ev), d);
    ReadyIsSound(inv, ev, d);
    assert Owns(Traces(OwnershipGraph(inv, ev)), d, d);
    assert FreshlyClear(ev.signatures, d, Blocks(inv.nodes)[d]);
  }

  lemma SortedEmpty(issues: seq<BlockIssue>)
    requires Sort(issues, BlockIssueKey) == []
    ensures issues == []
  {
    hide Sort, BlockIssueKey;
    SortCorrect(issues, BlockIssueKey);
    assert |multiset(issues)| == 0;
  }

  lemma TidiedParts(devices: seq<Observation>, k: nat)
    requires k < |devices|
    ensures I.AllTidied(devices)[k].observation.issues == Sort(devices[k].issues, BlockIssueKey)
    ensures I.AllTidied(devices)[k].identity.scope == I.Identify(devices[k]).scope
    ensures I.AllTidied(devices)[k].identity.state == Resolved ==>
      I.Identify(devices[k]).state == Resolved && !IdentityTheorems.InConflict(devices, k)
  {
    hide I.Identify, I.Findings, I.Contested, Sort, Normalize, IdentityTheorems.InConflict;
    IdentityTheorems.SettledIsResolution(devices);
    IdentityTheorems.ResolvedIsUnique(devices, seq(|devices|, i requires 0 <= i < |devices| => I.Settled(devices, i)), k);
  }

  /** The record is of a whole device that is not virtual, and nothing in it hints at an
      NVMe namespace. */
  predicate OfPlainDevice(r: SourceRecords.SourceRecord) {
    && r.nodeType.Some? && Trimmed(r.nodeType.value) == "disk" && r.kind != VirtualOrPseudo
    && r.nvmeEui.None? && r.nvmeNguid.None?
    && !(r.transport.Some? && Trimmed(r.transport.value) == "nvme")
    && !(r.wwn.Some? && ("eui." <= Trimmed(r.wwn.value) || "nvme." <= Trimmed(r.wwn.value) || "uuid." <= Trimmed(r.wwn.value)))
  }

  lemma PlainByScope(r: SourceRecords.SourceRecord, o: Observation)
    requires SourceRecords.Whole(r, o) && I.Identify(o).state == Resolved && I.Identify(o).scope == WholeDevice
    ensures OfPlainDevice(r)
  {
    hide I.Identify, Trimmed, SourceRecords.NumberIs, SourceRecords.SectorsAre, SourceRecords.EvidentDisk, IdentifyTheorems.NamespaceId,
         IdentifyTheorems.DeviceId;
    IdentifyTheorems.ScopeIs(o);
    IdentifyTheorems.IdentityIs(o, I.Identify(o).id.GetOr(""));
  }

  /** A device was read whole: a single source record bears its name; that record came
      without issues, is of a plain whole device, and every attribute of it was taken over
      as spelled; its own evidence resolves the identity, and no other device shares any
      of it. */
  ghost predicate ReadWhole(m: Machine, k: nat) {
    && k < |Devices(m)|
    && var o := Devices(m)[k];
    && |RawInventory.Under(m.records, o.kernelName)| == 1
    && (exists r :: r in m.records && Trimmed(r.name) == o.kernelName && r.issues == [] && SourceRecords.Whole(r, o) && OfPlainDevice(r))
    && I.Identify(o).state == Resolved && !IdentityTheorems.InConflict(Devices(m), k)
  }

  /** The k-th path was confirmed by two reads, one before and one after the others. */
  ghost predicate TwiceConfirmed(host: Host, inspect: Inspect, signatures: Signatures, k: nat) {
    && k < |host.nodes|
    && var o, first, second := host.nodes[k].observation, FirstRead(host, k), SecondRead(host, inspect, signatures, k);
    first < second && Confirms(inspect(first), o) && Confirms(inspect(second), o)
  }

  lemma CleanIsWhole(m: Machine, k: nat)
    requires k < |Devices(m)| && k < |HostOf(m).nodes|
    requires HostOf(m).nodes[k].observation.issues == [] && HostOf(m).nodes[k].identity.state == Resolved
    requires HostOf(m).nodes[k].identity.scope == WholeDevice
    ensures ReadWhole(m, k)
  {
    hide I.Resolve, I.AllTidied, RawInventory.Scanned, RawInventory.Under, SourceRecords.Whole, Sort;
    hide I.Identify, IdentityTheorems.InConflict, OfPlainDevice, Trimmed;
    HostIsResolved(m);
    TidiedParts(Devices(m), k);
    SortedEmpty(Devices(m)[k].issues);
    RawInventoryTheorems.CleanDeviceIsWhole(m.records, k);
    var o := Devices(m)[k];
    var r :| r in m.records && Trimmed(r.name) == o.kernelName && r.issues == [] && SourceRecords.Whole(r, o);
    PlainByScope(r, o);
  }

  /** What is known of a READY device was read whole, and its path confirmed twice. */
  lemma ReadyMachineIsWhole(m: Machine, ev: Evidence, inspect: Inspect, signatures: Signatures, k: nat, name: string)
    requires FreshRows(m) && Named(m, k, name) && IsReady(Discovered(m, inspect, signatures), ev, BlockKey(name))
    ensures ReadWhole(m, k) && TwiceConfirmed(HostOf(m), inspect, signatures, k)
  {
    hide Discovered, IsReady, Blocks, UsageScan, I.Resolve, I.AllTidied, RawInventory.Scanned, ReadWhole, Confirms, FirstRead, SecondRead,
         FreshRows, SourceLost;
    var inv := Discovered(m, inspect, signatures);
    HostIsResolved(m);
    DiscoveredIsScanned(m, inspect, signatures);
    ScanKeepsNodes(HostOf(m), inspect, signatures);
    TidiedName(Devices(m), k);
    ReadyWithoutIssues(inv, ev, BlockKey(name));
    ReadyBlock(inv, ev, k);
    CleanIsWhole(m, k);
    ReadyPathConfirmed(inv, ev, HostOf(m), inspect, signatures, k);
  }
}
