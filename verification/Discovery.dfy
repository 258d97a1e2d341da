/** The resolved inventory from beginning to end: source records, identities, and the
    usage of the host. */
module Discovery {
  import opened Inventory
  import opened Canonical
  import opened IssueOrder
  import opened SourceRecords
  import RawInventory
  import Identities
  import opened HostReads
  import opened HostUsage

  /** What is read of the machine: records and issues of the block source; the rows of
      the mount table and of the active swaps, the issues met on the way, and whether
      either table was read without a failure. */
  datatype Machine = Machine(
    records: seq<SourceRecord>,
    reported: seq<BlockIssue>,
    mounts: seq<MountEvidence>,
    swaps: seq<SwapEvidence>,
    found: seq<DiscoveryIssue>,
    mountsRead: bool,
    swapsRead: bool)

  function Devices(m: Machine): seq<Observation> {
    RawInventory.Scanned(m.records)
  }

  /** The k-th device is the one with this name. */
  predicate Named(m: Machine, k: nat, name: string) {
    k < |Devices(m)| && Devices(m)[k].kernelName == name
  }

  function RawIssues(m: Machine): seq<BlockIssue> {
    Normalize(m.reported + RawInventory.Discarded(m.records), BlockIssueKey)
  }

  /** The host as the usage scan finds it. */
  function HostOf(m: Machine): Host {
    Host(Identities.Resolve(Devices(m)), m.mounts, m.swaps, m.found)
  }

  /** A table counts as complete when it was read and no issue is about it. */
  predicate Intact(read: bool, found: seq<DiscoveryIssue>, table: string) {
    read && forall i :: 0 <= i < |found| ==> found[i].field != table
  }

  function Discovered(m: Machine, inspect: Inspect, signatures: Signatures): Snapshot {
    var scan := UsageScan(HostOf(m), inspect, signatures);
    Snapshot(scan.nodes, scan.mounts, scan.swaps, Sort(RawIssues(m), BlockIssueKey), scan.issues,
             Intact(m.mountsRead, m.found, "mountinfo"), Intact(m.swapsRead, m.found, "swaps"))
  }

  /** One scan of the machine. */
  method ScanMachine(m: Machine, inspect: Inspect, signatures: Signatures) returns (inv: Snapshot)
    ensures inv == Discovered(m, inspect, signatures)
  {
    hide UsageScan, Identities.Resolve, RawInventory.Scanned, RawInventory.Discarded, Normalize, Sort;
    var devices, issues := RawInventory.Scan(m.records, m.reported);
    var resolved, inventoryIssues := Identities.ResolveBlockIdentities(devices[..], issues);
    var nodes := new ResolvedNode[|resolved|](i requires 0 <= i < |resolved| => resolved[i]);
    var mounts := new MountEvidence[|m.mounts|](i requires 0 <= i < |m.mounts| => m.mounts[i]);
    var swaps := new SwapEvidence[|m.swaps|](i requires 0 <= i < |m.swaps| => m.swaps[i]);
    var mountsComplete, swapsComplete := m.mountsRead, m.swapsRead;
    for i := 0 to |m.found|
      invariant mountsComplete == Intact(m.mountsRead, m.found[..i], "mountinfo")
      invariant swapsComplete == Intact(m.swapsRead, m.found[..i], "swaps")
    {
      if m.found[i].field == "mountinfo" {
        mountsComplete := false;
      }
      if m.found[i].field == "swaps" {
        swapsComplete := false;
      }
      assert m.found[..i + 1] == m.found[..i] + [m.found[i]];
    }
    assert m.found[..|m.found|] == m.found;
    assert nodes[..] == resolved && mounts[..] == m.mounts && swaps[..] == m.swaps;
    var found := ScanUsage(nodes, mounts, swaps, m.found, inspect, signatures);
    inv := Snapshot(nodes[..], mounts[..], swaps[..], inventoryIssues, found, mountsComplete, swapsComplete);
  }
}
