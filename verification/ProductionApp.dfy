/** The application's scan and the reader's model as the program keeps them; each
    method is one atomic step, proved against the functions in `Production`. */
module ProductionApp {
  import opened Text
  import opened Inventory
  import opened Backing
  import opened Ownership
  import opened Production
  import opened Classifier

  class CoreApplication {
    const available: bool
    var published: ProductionSnapshot
    var version: nat
    var running: bool
    var worker: Worker
    var stop: bool
    var lock: Lock
    ghost var log: seq<ProductionSnapshot>

    ghost predicate Valid()
      reads this
    {
      |log| == version + 1 && log[version] == published
    }

    ghost function View(): System
      reads this
    {
      System(available, log, running, worker, stop, lock)
    }

    constructor (available: bool)
      ensures Valid() && View() == Idling(available)
    {
      this.available := available;
      published, version, running, worker, stop, lock := INITIAL, 0, false, NoWorker, false, Free;
      log := [INITIAL];
    }

    /** Replaces the published snapshot. */
    method PublishProduction(snapshot: ProductionSnapshot)
      requires Valid()
      modifies `published, `version, `log
      ensures Valid() && log == old(log) + [snapshot]
    {
      published, version := snapshot, version + 1;
      log := log + [snapshot];
    }

    method StartProductionScan() returns (started: bool)
      requires Valid()
      modifies this
      ensures Valid() && View() == Control(old(View()), StartScan)
      ensures started == (available && old(lock) == Free && !old(running))
    {
      if !available || lock != Free || running {
        return false;
      }
      worker := NoWorker;
      var generation := published.generation + 1;
      PublishProduction(Listing(generation));
      running := true;
      lock := Spawning(generation);
      started := true;
    }

    method FinishSpawn(failure: Option<string>)
      requires Valid() && lock.Spawning?
      modifies this
      ensures Valid()
      ensures View() == Control(old(View()), if failure.None? then Spawned else SpawnFailed(failure.value))
    {
      if failure.Some? {
        running := false;
        PublishProduction(FailedScan(lock.generation, failure.value));
      } else {
        worker := Scanning(lock.generation);
        stop := false;
      }
      lock := Free;
    }

    method CancelProductionScan()
      requires Valid() && lock == Free
      modifies `stop, `lock
      ensures Valid() && View() == Control(old(View()), CancelScan)
    {
      stop := true;
      lock := Joining;
    }

    method WaitForProductionScan()
      requires Valid() && lock == Free
      modifies `lock
      ensures Valid() && View() == Control(old(View()), WaitForScan)
    {
      lock := Joining;
    }

    method FinishJoin()
      requires Valid() && lock == Joining && (worker.NoWorker? || worker.Finished?)
      modifies `worker, `lock
      ensures Valid() && View() == Control(old(View()), Joined)
    {
      worker := NoWorker;
      lock := Free;
    }

    // The worker's code, cut where other threads may intervene

    method AbortScan(generation: nat, error: string)
      requires Valid()
      modifies this
      ensures Valid() && View() == Abort(old(View()), generation, error)
    {
      PublishProduction(FailedScan(generation, error));
      worker := Leaving;
    }

    method FinishInventory(inventory: Result<Snapshot, string>)
      requires Valid() && worker.Scanning?
      modifies this
      ensures Valid() && View() == Work(old(View()), Scanned(inventory))
    {
      if stop {
        AbortScan(worker.generation, CANCELLED);
        return;
      }
      if inventory.Failure? {
        worker := Closing(FailedScan(worker.generation, inventory.error));
        return;
      }
      var rows := InventoryRows(inventory.value.nodes);
      var draft := INITIAL.(phase := OwnershipPhase, generation := worker.generation, inventory := inventory.value);
      worker := Announcing(draft.(drives := rows));
    }

    method PublishRows()
      requires Valid() && worker.Announcing?
      modifies this
      ensures Valid() && View() == Work(old(View()), AnnounceRows)
    {
      PublishProduction(worker.draft);
      worker := Reading(worker.draft);
    }

    method FinishEvidence(evidence: Evidence)
      requires Valid() && worker.Reading?
      modifies this
      ensures Valid() && View() == Work(old(View()), ReadOwnership(evidence))
    {
      if stop {
        AbortScan(worker.draft.generation, CANCELLED);
      } else {
        worker := Assessing(worker.draft, evidence);
      }
    }

    method ClassifyRows() returns (ghost assessment: Assessment)
      requires Valid() && worker.Assessing?
      modifies this
      ensures Valid() && Assesses(old(worker.draft), old(worker.evidence), assessment)
      ensures View() == Work(old(View()), Assess(assessment))
    {
      hide Represents;
      var draft := worker.draft;
      var ownership := NO_ASSESSMENT;
      if HasDisk(draft.drives) {
        ownership := AssessOwnership(draft.inventory, worker.evidence, Disks);
      }
      assessment := ownership;
      if stop {
        AbortScan(draft.generation, CANCELLED);
        return;
      }
      var rows := SettleRows(draft.drives, ownership.devices);
      worker := Closing(draft.(phase := CompletePhase, ownership := ownership, drives := rows));
    }

    method CheckLast()
      requires Valid() && worker.Closing?
      modifies this
      ensures Valid() && View() == Work(old(View()), FinalCheck)
    {
      if stop {
        AbortScan(worker.draft.generation, CANCELLED);
      } else {
        worker := Publishing(worker.draft);
      }
    }

    method PublishResult()
      requires Valid() && worker.Publishing?
      modifies this
      ensures Valid() && View() == Work(old(View()), Publish)
    {
      PublishProduction(worker.draft);
      worker := Leaving;
    }

    method HandleException(error: string)
      requires Valid() && Working(worker)
      modifies this
      ensures Valid() && View() == Work(old(View()), Throw(error))
    {
      AbortScan(GenerationOf(worker), error);
    }

    method LeaveWorker()
      requires Valid() && worker.Leaving?
      modifies `worker, `running
      ensures Valid() && View() == Work(old(View()), Leave)
    {
      running := false;
      worker := Finished;
    }
  }

  method InventoryRows(nodes: seq<ResolvedNode>) returns (rows: seq<ProductionDrive>)
    ensures rows == Rows(nodes)
  {
    rows := [];
    for i := 0 to |nodes|
      invariant rows == Rows(nodes[..i])
    {
      assert nodes[..i + 1][..i] == nodes[..i];
      if nodes[i].observation.nodeType != WholeDisk || nodes[i].observation.kind == VirtualOrPseudo {
        continue;
      }
      rows := rows + [Row(nodes[i])];
    }
    assert nodes[..|nodes|] == nodes;
  }

  method SettleRows(drives: seq<ProductionDrive>, devices: map<Key, Decision>) returns (rows: seq<ProductionDrive>)
    ensures rows == SettleAll(drives, devices)
  {
    rows := drives;
    for i := 0 to |drives|
      invariant |rows| == |drives|
      invariant forall j :: 0 <= j < i ==> rows[j] == Settle(drives[j], devices)
      invariant forall j :: i <= j < |drives| ==> rows[j] == drives[j]
    {
      var row := rows[i].(proofPending := false);
      var key := RowKey(row);
      if key in devices {
        row := row.(status := devices[key].status, reasons := devices[key].reasons);
      }
      rows := rows[i := row];
    }
  }

  class ProductionReadModel {
    var version: Option<nat>
    var shown: ProductionSnapshot
    var anchor: Option<ProductionDrive>
    var selected: Option<nat>
    var notice: Notice

    ghost function View(): Reader
      reads this
    {
      Reader(version, shown, anchor, selected, notice)
    }

    constructor ()
      ensures View() == NEW_READER
    {
      version, shown, anchor, selected, notice := None, INITIAL, None, None, NoNotice;
    }

    method Refresh(fetched: Option<(nat, ProductionSnapshot)>)
      modifies this
      ensures View() == Production.Refresh(old(View()), fetched)
    {
      hide Retained;
      if fetched.None? {
        version, shown, anchor, selected, notice := None, INITIAL, None, None, NoSnapshot;
        return;
      }
      if version == Some(fetched.value.0) {
        return;
      }
      var next := fetched.value.1;
      if next.generation != shown.generation {
        if selected.Some? && selected.value < |shown.drives| {
          anchor := Some(AnchorOf(shown.drives[selected.value]));
        }
        selected := None;
      }
      if next.phase != InventoryPhase && anchor.Some? {
        var retained: Option<nat> := None;
        if next.scanError.None? {
          retained := FindRetained(anchor.value, next.drives);
        }
        if retained.None? {
          notice := LostDrive;
        }
        selected := retained;
        anchor := None;
      }
      if next.scanError.Some? {
        if selected.Some? {
          notice := ScanFailed;
        }
        selected := None;
        anchor := None;
      }
      version := Some(fetched.value.0);
      shown := next;
    }

    method Select(index: nat) returns (picked: bool)
      modifies `anchor, `selected, `notice
      ensures (View(), picked) == Production.Select(old(View()), index)
    {
      if index >= |shown.drives| || shown.scanError.Some? {
        return false;
      }
      selected := Some(index);
      anchor := None;
      notice := NoNotice;
      picked := true;
    }
  }

  /** Looks for the only drive that can be `before`; a second match ends the search
      empty-handed. */
  method FindRetained(before: ProductionDrive, drives: seq<ProductionDrive>) returns (retained: Option<nat>)
    ensures retained == Retained(before, drives)
    ensures forall i: nat :: retained == Some(i) <==> SoleMatch(before, drives, i)
  {
    hide SameSelection;
    retained := None;
    for i := 0 to |drives|
      invariant retained.None? ==> forall j :: 0 <= j < i ==> !SameSelection(before, drives[j])
      invariant retained.Some? ==> retained.value < i && SoleMatch(before, drives[..i], retained.value)
    {
      if !SameSelection(before, drives[i]) {
        continue;
      }
      if retained.Some? {
        assert !SoleMatch(before, drives, i) && !SoleMatch(before, drives, retained.value);
        return None;
      }
      retained := Some(i);
    }
    assert drives[..|drives|] == drives;
  }
}
