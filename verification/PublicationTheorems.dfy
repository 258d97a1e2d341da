/** What a published snapshot shows: which devices, and what is said of each. */
module PublicationTheorems {
  import opened Text
  import opened Inventory
  import opened Backing
  import opened Ownership
  import opened Production
  import opened ProductionTheorems

  // The listing

  /** A whole disk that is not virtual. */
  predicate Listable(b: ResolvedNode) {
    b.observation.nodeType == WholeDisk && b.observation.kind != VirtualOrPseudo
  }

  /** Row `i` shows node `at[i]`, for every row in the order of the nodes; and the nodes
      shown are exactly the listable ones. */
  ghost predicate ListsAt(drives: seq<ProductionDrive>, nodes: seq<ResolvedNode>, at: seq<nat>) {
    && |at| == |drives|
    && (forall i :: 0 <= i < |at| ==> at[i] < |nodes| && Shows(drives[i], nodes[at[i]]))
    && (forall i, j :: 0 <= i < j < |at| ==> at[i] < at[j])
    && (forall k :: 0 <= k < |nodes| ==> (k in at <==> Listable(nodes[k])))
  }

  predicate Shows(row: ProductionDrive, b: ResolvedNode) {
    row.observation == b.observation && row.identity == b.identity && row.currentPath == b.currentPath
  }

  lemma {:induction false} RowsListed(nodes: seq<ResolvedNode>) returns (at: seq<nat>)
    ensures ListsAt(Rows(nodes), nodes, at)
  {
    at := [];
    if nodes != [] {
      hide ListsAt, Row;
      var n := |nodes| - 1;
      var front := RowsListed(nodes[..n]);
      FrontListed(Rows(nodes[..n]), nodes, front);
      if Listable(nodes[n]) {
        at := front + [n];
        LastShows(nodes[n]);
        LastListed(Rows(nodes[..n]), Row(nodes[n]), nodes, front);
      } else {
        at := front;
        LastLeftOut(Rows(nodes[..n]), nodes, front);
      }
    }
  }

  lemma LastShows(b: ResolvedNode)
    ensures Shows(Row(b), b)
  {
  }

  /** Like `ListsAt` for all nodes but the last. */
  ghost predicate ListsFront(drives: seq<ProductionDrive>, nodes: seq<ResolvedNode>, at: seq<nat>)
    requires nodes != []
  {
    && |at| == |drives|
    && (forall i :: 0 <= i < |at| ==> at[i] < |nodes| - 1 && Shows(drives[i], nodes[at[i]]))
    && (forall i, j :: 0 <= i < j < |at| ==> at[i] < at[j])
    && (forall k :: 0 <= k < |nodes| - 1 ==> (k in at <==> Listable(nodes[k])))
  }

  lemma FrontListed(drives: seq<ProductionDrive>, nodes: seq<ResolvedNode>, at: seq<nat>)
    requires nodes != [] && ListsAt(drives, nodes[..|nodes| - 1], at)
    ensures ListsFront(drives, nodes, at)
  {
    hide Shows, Listable;
    var front := nodes[..|nodes| - 1];
    forall k | 0 <= k < |front| ensures front[k] == nodes[k] {
    }
  }

  lemma LastLeftOut(drives: seq<ProductionDrive>, nodes: seq<ResolvedNode>, at: seq<nat>)
    requires nodes != [] && ListsFront(drives, nodes, at) && !Listable(nodes[|nodes| - 1])
    ensures ListsAt(drives, nodes, at)
  {
    hide Shows, Listable;
  }

  lemma LastListed(drives: seq<ProductionDrive>, row: ProductionDrive, nodes: seq<ResolvedNode>, at: seq<nat>)
    requires nodes != [] && ListsFront(drives, nodes, at) && Listable(nodes[|nodes| - 1]) && Shows(row, nodes[|nodes| - 1])
    ensures ListsAt(drives + [row], nodes, at + [|nodes| - 1])
  {
    hide Shows, Listable;
    forall k | 0 <= k < |nodes| - 1 ensures k in at + [|nodes| - 1] <==> k in at {
    }
  }

  lemma SameRowsListed(a: seq<ProductionDrive>, b: seq<ProductionDrive>, nodes: seq<ResolvedNode>, at: seq<nat>)
    requires SameRows(a, b) && ListsAt(b, nodes, at)
    ensures ListsAt(a, nodes, at)
  {
    hide Listable;
  }

  // The verdicts

  /** A row waits for its proof, as disks do, and nothing is said of it yet. */
  predicate Waits(row: ProductionDrive) {
    row.status == Unknown && row.reasons == [] && row.proofPending == (row.observation.physicalKind == DiskKind)
  }

  /** The row's proof is over. It says what was decided about its device; where nothing
      was decided it says nothing. */
  predicate Tells(row: ProductionDrive, devices: map<Key, Decision>) {
    var d := "block:" + row.observation.kernelName;
    && !row.proofPending
    && if d in devices then row.status == devices[d].status && row.reasons == devices[d].reasons
       else row.status == Unknown && row.reasons == []
  }

  lemma SettledTells(rows: seq<ProductionDrive>, devices: map<Key, Decision>, i: nat)
    requires i < |rows| && Unproven(rows[i])
    ensures Tells(SettleAll(rows, devices)[i], devices)
  {
  }

  /** What every snapshot ever published shows. Without a listing it has no rows. In
      Ownership and Complete its rows are, in order and once each, exactly the whole
      disks of its inventory that are not virtual; each waits in Ownership, and in
      Complete tells exactly what was decided. */
  lemma PublishedShows(available: bool, steps: seq<Step>, p: ProductionSnapshot) returns (at: seq<nat>)
    requires p in Interleaving(available, steps).system.log
    ensures p.phase in {Idle, InventoryPhase, FailedPhase} ==> p.drives == []
    ensures p.phase in {OwnershipPhase, CompletePhase} ==> ListsAt(p.drives, p.inventory.nodes, at)
    ensures p.phase == OwnershipPhase ==> forall i :: 0 <= i < |p.drives| ==> Waits(p.drives[i])
    ensures p.phase == CompletePhase ==> forall i :: 0 <= i < |p.drives| ==> Tells(p.drives[i], p.ownership.devices)
  {
    hide Interleaving, ListsAt, Follows, Waits, Tells, Rows, SettleAll, Assesses;
    InterleavingSound(available, steps);
    var k :| 0 <= k < |Interleaving(available, steps).system.log| && Interleaving(available, steps).system.log[k] == p;
    assert Proper(p);
    at := RowsListed(p.inventory.nodes);
    var rows := Rows(p.inventory.nodes);
    if p.phase == CompletePhase {
      SameRowsListed(p.drives, rows, p.inventory.nodes, at);
      forall i | 0 <= i < |p.drives| ensures Tells(p.drives[i], p.ownership.devices) {
        RowsUnproven(p.inventory.nodes, i);
        SettledTells(rows, p.ownership.devices, i);
      }
    }
    if p.phase == OwnershipPhase {
      forall i | 0 <= i < |p.drives| ensures Waits(p.drives[i]) {
        RowsUnproven(p.inventory.nodes, i);
        UnprovenWaits(p.drives[i]);
      }
    }
  }

  lemma UnprovenWaits(row: ProductionDrive)
    requires Unproven(row)
    ensures Waits(row)
  {
  }

  /** In a Complete snapshot over distinctly named devices a row has a decision exactly
      when it is a disk: its verdict is the status assessed on evidence that fits the
      snapshot, and no other row has one. */
  lemma DisksAreDecided(available: bool, steps: seq<Step>, p: ProductionSnapshot, i: nat)
    requires p in Interleaving(available, steps).system.log && p.phase == CompletePhase && i < |p.drives|
    requires forall j, k :: 0 <= j < k < |p.inventory.nodes| ==>
      p.inventory.nodes[j].observation.kernelName != p.inventory.nodes[k].observation.kernelName
    ensures "block:" + p.drives[i].observation.kernelName in p.ownership.devices <==> p.drives[i].observation.physicalKind == DiskKind
  {
    hide Interleaving, Follows, Rows, SettleAll, RepresentsTrace, OwnershipGraph, Lists, ListsNodes, RepresentsDecision, Blocks;
    InterleavingSound(available, steps);
    var k :| 0 <= k < |Interleaving(available, steps).system.log| && Interleaving(available, steps).system.log[k] == p;
    assert Proper(p);
    var ev :| Assesses(p, ev, p.ownership);
    var at := PublishedShows(available, steps, p);
    var b := p.inventory.nodes[at[i]];
    assert Listable(b) by {
      assert at[i] in at;
    }
    SoleBlock(p.inventory.nodes, at[i]);
    if IsDisk(p.drives[i]) {
      assert HasDisk(p.drives);
    }
    if HasDisk(p.drives) {
      assert RowKey(p.drives[i]) in p.ownership.devices <==> Candidate(p.inventory, Disks, RowKey(p.drives[i]));
    }
  }

  lemma SoleBlock(nodes: seq<ResolvedNode>, i: nat)
    requires i < |nodes|
    requires forall j, k :: 0 <= j < k < |nodes| ==> nodes[j].observation.kernelName != nodes[k].observation.kernelName
    ensures BlockKey(nodes[i].observation.kernelName) in Blocks(nodes)
    ensures Blocks(nodes)[BlockKey(nodes[i].observation.kernelName)] == nodes[i]
  {
    NodesHaveBlocks(nodes, i);
    var k := BlockKey(nodes[i].observation.kernelName);
    BlocksHaveKeys(nodes, k);
    var j :| 0 <= j < |nodes| && nodes[j] == Blocks(nodes)[k] && k == BlockKey(nodes[j].observation.kernelName);
    BlockKeyInjective(nodes[i].observation.kernelName, nodes[j].observation.kernelName);
  }

  lemma {:induction false} NodesHaveBlocks(nodes: seq<ResolvedNode>, i: nat)
    requires i < |nodes|
    ensures BlockKey(nodes[i].observation.kernelName) in Blocks(nodes)
  {
    var n := |nodes| - 1;
    if i < n {
      NodesHaveBlocks(nodes[..n], i);
    }
  }

  // Scans that nothing stops

  /** Every step of a scan that goes well. */
  function GoodScan(inv: Snapshot, ev: Evidence, assessment: Assessment): seq<Step> {
    [Ask(StartScan), Ask(Spawned), Run(Scanned(Success(inv))), Run(AnnounceRows), Run(ReadOwnership(ev)),
     Run(Assess(assessment)), Run(FinalCheck), Run(Publish), Run(Leave)]
  }

  /** No scan is under way and nobody waits for one to end. */
  predicate AtRest(s: System) {
    s.available && s.lock == Free && !s.running
  }

  /** The assessment is one of what was read; without a disk there is none. */
  ghost predicate Warranted(inv: Snapshot, ev: Evidence, assessment: Assessment) {
    if exists k :: 0 <= k < |inv.nodes| && Listable(inv.nodes[k]) && inv.nodes[k].observation.physicalKind == DiskKind
    then Represents(assessment, inv, ev, Disks)
    else assessment == NO_ASSESSMENT
  }

  lemma AfterNext(w: World, steps: seq<Step>, k: nat)
    requires w.system.log != [] && k < |steps|
    ensures After(w, steps[..k + 1]) == Move(After(w, steps[..k]), steps[k])
  {
    hide Move;
    assert steps[..k + 1][..k] == steps[..k];
  }

  lemma WarrantedAssesses(generation: nat, inv: Snapshot, ev: Evidence, assessment: Assessment)
    requires Warranted(inv, ev, assessment)
    ensures Assesses(Listed(generation, inv), ev, assessment)
  {
    hide Represents;
    var rows := Rows(inv.nodes);
    var at := RowsListed(inv.nodes);
    hide Rows;
    if k :| 0 <= k < |inv.nodes| && Listable(inv.nodes[k]) && inv.nodes[k].observation.physicalKind == DiskKind {
      assert k in at;
      var i :| 0 <= i < |at| && at[i] == k;
      assert IsDisk(rows[i]);
    }
    if i :| 0 <= i < |rows| && IsDisk(rows[i]) {
      assert at[i] in at && Listable(inv.nodes[at[i]]);
    }
  }

  lemma FirstHalf(s: System, inv: Snapshot)
    requires s.log != [] && AtRest(s)
    ensures var draft := Listed(Current(s).generation + 1, inv);
      var t := Work(Work(Control(Control(s, StartScan), Spawned), Scanned(Success(inv))), AnnounceRows);
      && t.log == s.log + [Listing(Current(s).generation + 1), draft]
      && t.worker == Reading(draft) && !t.stop && t.running && t.lock == Free && t.available
  {
    hide Rows;
  }

  lemma SecondHalf(t: System, draft: ProductionSnapshot, ev: Evidence, assessment: Assessment)
    requires t.log != [] && t.worker == Reading(draft) && !t.stop && t.lock == Free && t.available && Assesses(draft, ev, assessment)
    ensures var u := Work(Work(Work(Work(Work(t, ReadOwnership(ev)), Assess(assessment)), FinalCheck), Publish), Leave);
      u.log == t.log + [Completed(draft, assessment)] && AtRest(u)
  {
    hide Assesses, Completed;
  }

  /** From wherever a scan may start, one that nothing disturbs publishes its rows and
      then, complete, the assessment of what it read; and then another may start. */
  lemma GoodScanCompletes(w: World, inv: Snapshot, ev: Evidence, assessment: Assessment)
    requires w.system.log != [] && AtRest(w.system) && Warranted(inv, ev, assessment)
    ensures var v := After(w, GoodScan(inv, ev, assessment)).system;
      && AtRest(v) && |v.log| == |w.system.log| + 3
      && Current(v).phase == CompletePhase && Current(v).generation == Current(w.system).generation + 1
      && Current(v).inventory == inv && Current(v).ownership == assessment
  {
    hide Warranted, Assesses, Work, Control, Move, After, Listed, Completed;
    var steps := GoodScan(inv, ev, assessment);
    var draft := Listed(Current(w.system).generation + 1, inv);
    WarrantedAssesses(Current(w.system).generation + 1, inv, ev, assessment);
    FirstHalf(w.system, inv);
    SystemAfter(w, steps);
    var s := w.system;
    var t := Work(Work(Control(Control(s, StartScan), Spawned), Scanned(Success(inv))), AnnounceRows);
    SecondHalf(t, draft, ev, assessment);
    CompletedIs(Current(w.system).generation + 1, inv, assessment);
  }

  lemma CompletedIs(generation: nat, inv: Snapshot, assessment: Assessment)
    ensures var p := Completed(Listed(generation, inv), assessment);
      p.phase == CompletePhase && p.generation == generation && p.inventory == inv && p.ownership == assessment
  {
    hide Rows, SettleAll;
  }

  lemma MovesSystem(w: World, step: Step)
    requires w.system.log != []
    ensures step.Ask? ==> Move(w, step).system == Control(w.system, step.request)
    ensures step.Run? ==> Move(w, step).system == Work(w.system, step.progress)
  {
  }

  lemma SystemAfter(w: World, steps: seq<Step>)
    requires w.system.log != [] && |steps| == 9 && steps[0].Ask? && steps[1].Ask? && forall k :: 2 <= k < 9 ==> steps[k].Run?
    ensures After(w, steps).system ==
      Work(Work(Work(Work(Work(Work(Work(Control(Control(w.system, steps[0].request), steps[1].request),
        steps[2].progress), steps[3].progress), steps[4].progress), steps[5].progress), steps[6].progress), steps[7].progress), steps[8].progress)
  {
    hide Work, Control, Move;
    assert After(w, steps[..0]) == w;
    hide After;
    forall k | 0 <= k < 9 ensures After(w, steps[..k + 1]) == Move(After(w, steps[..k]), steps[k]) {
      AfterNext(w, steps, k);
    }
    forall v: World, step: Step | v.system.log != []
      ensures step.Ask? ==> Move(v, step).system == Control(v.system, step.request)
      ensures step.Run? ==> Move(v, step).system == Work(v.system, step.progress)
    {
      MovesSystem(v, step);
    }
    assert steps[..9] == steps;
    assert After(w, steps[..0 + 1]).system == Control(w.system, steps[0].request);
    assert After(w, steps[..1 + 1]).system == Control(After(w, steps[..1]).system, steps[1].request);
    assert After(w, steps[..2 + 1]).system == Work(After(w, steps[..2]).system, steps[2].progress);
    assert After(w, steps[..3 + 1]).system == Work(After(w, steps[..3]).system, steps[3].progress);
    assert After(w, steps[..4 + 1]).system == Work(After(w, steps[..4]).system, steps[4].progress);
    assert After(w, steps[..5 + 1]).system == Work(After(w, steps[..5]).system, steps[5].progress);
    assert After(w, steps[..6 + 1]).system == Work(After(w, steps[..6]).system, steps[6].progress);
    assert After(w, steps[..7 + 1]).system == Work(After(w, steps[..7]).system, steps[7].progress);
    assert After(w, steps[..8 + 1]).system == Work(After(w, steps[..8]).system, steps[8].progress);
  }

  /** A scan that fails, one that is stopped and one that throws each publish, for their
      generation, a snapshot with nothing but the reason. */
  lemma FailuresAreTold(s: System, error: string)
    requires s.log != [] && s.worker.Scanning?
    ensures var failed := INITIAL.(phase := FailedPhase, generation := s.worker.generation, scanError := Some(error));
      && (!s.stop ==> Work(Work(Work(s, Scanned(Failure(error))), FinalCheck), Publish).log == s.log + [failed])
      && (s.stop && error == "cancelled" ==> forall found :: Work(s, Scanned(found)).log == s.log + [failed])
      && Work(s, Throw(error)).log == s.log + [failed]
  {
  }

  /** A stop found at any later check is told the same way. */
  lemma StopsAreTold(s: System, progress: Progress)
    requires s.log != [] && s.stop
    requires match progress
      case ReadOwnership(_) => s.worker.Reading?
      case Assess(assessment) => s.worker.Assessing? && Assesses(s.worker.draft, s.worker.evidence, assessment)
      case FinalCheck => s.worker.Closing?
      case _ => false
    ensures Work(s, progress).log ==
      s.log + [INITIAL.(phase := FailedPhase, generation := s.worker.draft.generation, scanError := Some("cancelled"))]
    ensures Work(s, progress).worker == Leaving
  {
    hide Assesses;
  }

  /** Cancelling a scan that has not passed its last check keeps its generation from ever
      being completed, however the run goes on; waiting for a scan does not. */
  lemma CancelIsHeeded(available: bool, before: seq<Step>, after: seq<Step>, k: nat)
    requires var s := Interleaving(available, before).system; s.lock == Free && Working(s.worker) && !s.worker.Publishing?
    requires k < |Interleaving(available, before + [Ask(CancelScan)] + after).system.log|
    ensures var generation := Current(Interleaving(available, before).system).generation;
      var p := Interleaving(available, before + [Ask(CancelScan)] + after).system.log[k];
      p.generation == generation ==> p.phase != CompletePhase
    ensures Control(Interleaving(available, before).system, WaitForScan).stop == Interleaving(available, before).system.stop
  {
    hide Interleaving, Work;
    var asked := before + [Ask(CancelScan)];
    CancelledWorld(available, before);
    AfterConcat(NewWorld(available), asked, after);
    InterleavingIs(available, asked);
    InterleavingIs(available, asked + after);
    CancellationHolds(available, asked, after, k);
  }

  lemma CancelledWorld(available: bool, before: seq<Step>)
    requires Interleaving(available, before).system.lock == Free
    ensures Interleaving(available, before + [Ask(CancelScan)]) ==
      var w := Interleaving(available, before); w.(system := w.system.(stop := true, lock := Joining))
  {
    var asked := before + [Ask(CancelScan)];
    assert asked[..|asked| - 1] == before;
  }

  lemma InterleavingIs(available: bool, steps: seq<Step>)
    ensures Interleaving(available, steps) == After(NewWorld(available), steps)
  {
  }

  lemma {:induction false} AfterConcat(w: World, a: seq<Step>, b: seq<Step>)
    requires w.system.log != []
    ensures After(w, a + b) == After(After(w, a), b)
  {
    hide Move;
    if b == [] {
      assert a + b == a;
    } else {
      var n := |b| - 1;
      assert (a + b)[..|a| + n] == a + b[..n] && (a + b)[|a| + n] == b[n];
      AfterConcat(w, a, b[..n]);
    }
  }
}
