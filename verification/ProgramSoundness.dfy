/** What a READY row on the screen says of the machine. */
module ProgramSoundness {
  import opened Ownership
  import opened OwnershipTheorems
  import opened Production
  import opened ProductionTheorems
  import opened ProductionEvidence
  import opened HostReads
  import opened UsageSoundness
  import opened Discovery
  import opened DiscoveryTheorems
  import opened DiscoverySoundness

  /** Nothing that the worker reads of ownership names a nameless device. */
  predicate NoBlankEvidence(steps: seq<Step>) {
    forall n :: 0 <= n < |steps| && steps[n].Run? && steps[n].progress.ReadOwnership? ==> NoBlankKey(steps[n].progress.evidence)
  }

  /** In any interleaving of worker, controller and reader: if a published snapshot has
      the inventory that a scan of the machine found, then behind each of its READY rows
      is evidence that the worker read for it, by which nothing of the machine that
      reaches the device is mounted or swapped to. */
  lemma PublishedReadyIsUnmounted(available: bool, steps: seq<Step>, p: ProductionSnapshot, row: ProductionDrive,
                                  m: Machine, inspect: Inspect, signatures: Signatures)
    requires ShownReady(available, steps, p, row) && p.inventory == Discovered(m, inspect, signatures)
    requires FreshRows(m) && NoBlankEvidence(steps)
    ensures exists ev ::
      && JudgedOn(available, steps, p, ev)
      && NothingMounted(HostOf(m), OwnershipGraph(p.inventory, ev), RowKey(row))
      && NothingSwapped(HostOf(m), inspect, OwnershipGraph(p.inventory, ev), RowKey(row))
  {
    hide ShownReady, Discovered, IsReady, OwnershipGraph, NothingMounted, NothingSwapped, HostOf, FreshRows, NoBlankKey, JudgedOn, SoundRow;
    var ev := PublishedReadyWasRead(available, steps, p, row);
    EvidenceNotBlank(available, steps, p, ev);
    ReadyMachineIsUnmounted(m, ev, inspect, signatures, RowKey(row));
  }

  lemma EvidenceNotBlank(available: bool, steps: seq<Step>, p: ProductionSnapshot, ev: Evidence)
    requires JudgedOn(available, steps, p, ev) && NoBlankEvidence(steps)
    ensures NoBlankKey(ev)
  {
    hide Interleaving, Represents, NoBlankKey;
  }

  /** And the disk that such a row shows was read whole, its path confirmed twice. */
  lemma PublishedReadyIsWhole(available: bool, steps: seq<Step>, p: ProductionSnapshot, row: ProductionDrive,
                              m: Machine, inspect: Inspect, signatures: Signatures, j: nat)
    requires ShownReady(available, steps, p, row) && p.inventory == Discovered(m, inspect, signatures)
    requires FreshRows(m) && Named(m, j, row.observation.kernelName)
    ensures ReadWhole(m, j) && TwiceConfirmed(HostOf(m), inspect, signatures, j)
  {
    hide ShownReady, Discovered, IsReady, ReadWhole, TwiceConfirmed, HostOf, FreshRows, Named, JudgedOn, SoundRow;
    var ev := PublishedReadyWasRead(available, steps, p, row);
    ReadyMachineIsWhole(m, ev, inspect, signatures, j, row.observation.kernelName);
  }
}
