/** Publication of scan results and selection of a drive from them, as a system of
    atomic steps: a scan worker fills and publishes snapshots, a controller starts
    and cancels scans, and a reader polls whenever it likes. */
module Production {
  import opened Text
  import opened Inventory
  import opened Backing
  import opened Ownership

  datatype ScanPhase = Idle | InventoryPhase | OwnershipPhase | CompletePhase | FailedPhase

  datatype ProductionDrive = ProductionDrive(
    observation: Observation,
    identity: Identity,
    currentPath: Option<string>,
    status: DriveStatus,
    reasons: seq<Reason>,
    proofPending: bool)

  datatype ProductionSnapshot = ProductionSnapshot(
    phase: ScanPhase,
    generation: nat,
    drives: seq<ProductionDrive>,
    inventory: Snapshot,
    ownership: Assessment,
    scanError: Option<string>)

  const NO_INVENTORY := Snapshot([], [], [], [], [], false, false)
  const NO_ASSESSMENT := Assessment(map[], map[], map[], [], map[], [], [], map[], map[], [])
  const INITIAL := ProductionSnapshot(Idle, 0, [], NO_INVENTORY, NO_ASSESSMENT, None)
  const CANCELLED := "cancelled"

  // Filling a snapshot

  /** A physical device's row before any proof about it. */
  function Row(b: ResolvedNode): ProductionDrive {
    ProductionDrive(b.observation, b.identity, b.currentPath, Unknown, [], b.observation.physicalKind == DiskKind)
  }

  function Rows(nodes: seq<ResolvedNode>): seq<ProductionDrive> {
    if nodes == [] then []
    else
      var last := nodes[|nodes| - 1];
      Rows(nodes[..|nodes| - 1]) + if IsPhysical(last) then [Row(last)] else []
  }

  predicate IsDisk(row: ProductionDrive) {
    row.observation.physicalKind == DiskKind
  }

  predicate HasDisk(rows: seq<ProductionDrive>) {
    exists i :: 0 <= i < |rows| && IsDisk(rows[i])
  }

  function RowKey(row: ProductionDrive): Key {
    BlockKey(row.observation.kernelName)
  }

  /** A row after the assessment: its proof is no longer pending, and a decision on
      its key is its verdict. */
  function Settle(row: ProductionDrive, devices: map<Key, Decision>): ProductionDrive {
    var settled := row.(proofPending := false);
    if RowKey(row) in devices then settled.(status := devices[RowKey(row)].status, reasons := devices[RowKey(row)].reasons)
    else settled
  }

  function SettleAll(rows: seq<ProductionDrive>, devices: map<Key, Decision>): seq<ProductionDrive> {
    seq(|rows|, i requires 0 <= i < |rows| => Settle(rows[i], devices))
  }

  function Listing(generation: nat): ProductionSnapshot {
    INITIAL.(phase := InventoryPhase, generation := generation)
  }

  function FailedScan(generation: nat, error: string): ProductionSnapshot {
    INITIAL.(phase := FailedPhase, generation := generation, scanError := Some(error))
  }

  function Listed(generation: nat, inv: Snapshot): ProductionSnapshot {
    INITIAL.(phase := OwnershipPhase, generation := generation, inventory := inv, drives := Rows(inv.nodes))
  }

  function Completed(draft: ProductionSnapshot, assessment: Assessment): ProductionSnapshot {
    draft.(phase := CompletePhase, ownership := assessment, drives := SettleAll(draft.drives, assessment.devices))
  }

  // The scan worker

  /** Where the worker is: acquiring the inventory, about to publish its rows,
      reading ownership, assessing, before and after the last cancellation check,
      about to clear the running flag, and gone. */
  datatype Worker =
    | NoWorker
    | Scanning(generation: nat)
    | Announcing(draft: ProductionSnapshot)
    | Reading(draft: ProductionSnapshot)
    | Assessing(draft: ProductionSnapshot, evidence: Evidence)
    | Closing(draft: ProductionSnapshot)
    | Publishing(draft: ProductionSnapshot)
    | Leaving
    | Finished

  /** Who holds the control lock. */
  datatype Lock = Free | Spawning(generation: nat) | Joining

  /** `log` is every snapshot published so far, the current one last; `available` says
      whether there is a source to scan at all. */
  datatype System = System(
    available: bool,
    log: seq<ProductionSnapshot>,
    running: bool,
    worker: Worker,
    stop: bool,
    lock: Lock)

  function Idling(available: bool): System {
    System(available, [INITIAL], false, NoWorker, false, Free)
  }

  /** What a controller does. */
  datatype Request =
    | StartScan
    | Spawned
    | SpawnFailed(error: string)
    | CancelScan
    | WaitForScan
    | Joined

  /** What the worker does. */
  datatype Progress =
    | Scanned(inventory: Result<Snapshot, string>)
    | AnnounceRows
    | ReadOwnership(evidence: Evidence)
    | Assess(assessment: Assessment)
    | FinalCheck
    | Publish
    | Throw(error: string)
    | Leave

  function Current(s: System): ProductionSnapshot
    requires s.log != []
  {
    s.log[|s.log| - 1]
  }

  /** An exception inside the worker, cancellation included: the generation fails. */
  function Abort(s: System, generation: nat, error: string): System {
    s.(log := s.log + [FailedScan(generation, error)], worker := Leaving)
  }

  predicate Working(w: Worker) {
    !w.NoWorker? && !w.Leaving? && !w.Finished?
  }

  function GenerationOf(w: Worker): nat
    requires Working(w)
  {
    if w.Scanning? then w.generation else w.draft.generation
  }

  /** A disk-less inventory is not assessed at all. */
  ghost predicate Assesses(draft: ProductionSnapshot, evidence: Evidence, assessment: Assessment) {
    if HasDisk(draft.drives) then Represents(assessment, draft.inventory, evidence, Disks)
    else assessment == NO_ASSESSMENT
  }

  // A step that is not possible changes nothing

  function Control(s: System, request: Request): (t: System)
    requires s.log != []
    ensures s.log <= t.log && t.available == s.available
  {
    match request
    case StartScan =>
      if !s.available || s.lock != Free || s.running then s
      else
        var generation := Current(s).generation + 1;
        s.(log := s.log + [Listing(generation)], running := true, worker := NoWorker, lock := Spawning(generation))
    case Spawned =>
      if !s.lock.Spawning? then s
      else s.(worker := Scanning(s.lock.generation), stop := false, lock := Free)
    case SpawnFailed(error) =>
      if !s.lock.Spawning? then s
      else s.(log := s.log + [FailedScan(s.lock.generation, error)], running := false, lock := Free)
    case CancelScan =>
      if s.lock == Free then s.(stop := true, lock := Joining) else s
    case WaitForScan =>
      if s.lock == Free then s.(lock := Joining) else s
    case Joined =>
      if s.lock == Joining && (s.worker.NoWorker? || s.worker.Finished?) then s.(worker := NoWorker, lock := Free) else s
  }

  ghost function Work(s: System, progress: Progress): (t: System)
    requires s.log != []
    ensures s.log <= t.log && t.available == s.available
  {
    hide Represents;
    match progress
    case Scanned(inventory) =>
      if !s.worker.Scanning? then s
      else if s.stop then Abort(s, s.worker.generation, CANCELLED)
      else if inventory.Failure? then s.(worker := Closing(FailedScan(s.worker.generation, inventory.error)))
      else s.(worker := Announcing(Listed(s.worker.generation, inventory.value)))
    case AnnounceRows =>
      if !s.worker.Announcing? then s
      else s.(log := s.log + [s.worker.draft], worker := Reading(s.worker.draft))
    case ReadOwnership(evidence) =>
      if !s.worker.Reading? then s
      else if s.stop then Abort(s, s.worker.draft.generation, CANCELLED)
      else s.(worker := Assessing(s.worker.draft, evidence))
    case Assess(assessment) =>
      if !s.worker.Assessing? || !Assesses(s.worker.draft, s.worker.evidence, assessment) then s
      else if s.stop then Abort(s, s.worker.draft.generation, CANCELLED)
      else s.(worker := Closing(Completed(s.worker.draft, assessment)))
    case FinalCheck =>
      if !s.worker.Closing? then s
      else if s.stop then Abort(s, s.worker.draft.generation, CANCELLED)
      else s.(worker := Publishing(s.worker.draft))
    case Publish =>
      if !s.worker.Publishing? then s
      else s.(log := s.log + [s.worker.draft], worker := Leaving)
    case Throw(error) =>
      if Working(s.worker) then Abort(s, GenerationOf(s.worker), error) else s
    case Leave =>
      if s.worker.Leaving? then s.(worker := Finished, running := false) else s
  }

  // The reader

  datatype Notice = NoNotice | LostDrive | ScanFailed | NoSnapshot

  /** `version` identifies the snapshot last fetched; there is none at first. */
  datatype Reader = Reader(
    version: Option<nat>,
    shown: ProductionSnapshot,
    anchor: Option<ProductionDrive>,
    selected: Option<nat>,
    notice: Notice)

  const NEW_READER := Reader(None, INITIAL, None, None, NoNotice)

  predicate SameSelection(before: ProductionDrive, after: ProductionDrive) {
    && before.identity.state == Resolved && after.identity.state == Resolved
    && before.identity.id.Some? && before.identity.id == after.identity.id
    && before.identity.scope == after.identity.scope
    && before.observation.physicalKind == after.observation.physicalKind
    && before.observation.serial == after.observation.serial
    && before.observation.model == after.observation.model
    && before.observation.capacityBytes == after.observation.capacityBytes
    && before.observation.wwn == after.observation.wwn
    && before.observation.nvmeEui == after.observation.nvmeEui
    && before.observation.nvmeNguid == after.observation.nvmeNguid
  }

  /** Drive `i` is the one drive that `before` can be. */
  predicate SoleMatch(before: ProductionDrive, drives: seq<ProductionDrive>, i: nat) {
    && i < |drives| && SameSelection(before, drives[i])
    && forall j :: 0 <= j < |drives| && SameSelection(before, drives[j]) ==> j == i
  }

  function Retained(before: ProductionDrive, drives: seq<ProductionDrive>): Option<nat> {
    if i: nat :| i < |drives| && SoleMatch(before, drives, i) then Some(i) else None
  }

  function SelectedDrive(r: Reader): Option<ProductionDrive> {
    if r.selected.Some? && r.selected.value < |r.shown.drives| then Some(r.shown.drives[r.selected.value]) else None
  }

  /** What is remembered of the selected drive when its generation passes. */
  function AnchorOf(drive: ProductionDrive): ProductionDrive {
    drive.(status := Unknown, reasons := [], proofPending := false)
  }

  /** A new generation drops the index and keeps the drive as an anchor. */
  function DropIndex(r: Reader, next: ProductionSnapshot): Reader {
    if next.generation == r.shown.generation then r
    else if SelectedDrive(r).Some? then r.(anchor := Some(AnchorOf(SelectedDrive(r).value)), selected := None)
    else r.(selected := None)
  }

  /** Once drives are listed, the anchor is resolved, to an index or to nothing. */
  function ResolveAnchor(r: Reader, next: ProductionSnapshot): Reader {
    if next.phase == InventoryPhase || r.anchor.None? then r
    else
      var retained := if next.scanError.Some? then None else Retained(r.anchor.value, next.drives);
      r.(selected := retained, anchor := None, notice := if retained.None? then LostDrive else r.notice)
  }

  function DropFailed(r: Reader, next: ProductionSnapshot): Reader {
    if next.scanError.None? then r
    else r.(selected := None, anchor := None, notice := if r.selected.Some? then ScanFailed else r.notice)
  }

  /** Fetching the current snapshot, or finding that there is none. */
  function Refresh(r: Reader, fetched: Option<(nat, ProductionSnapshot)>): Reader {
    if fetched.None? then Reader(None, INITIAL, None, None, NoSnapshot)
    else if r.version == Some(fetched.value.0) then r
    else
      var next := fetched.value.1;
      DropFailed(ResolveAnchor(DropIndex(r, next), next), next).(version := Some(fetched.value.0), shown := next)
  }

  function Select(r: Reader, i: nat): (Reader, bool) {
    if i >= |r.shown.drives| || r.shown.scanError.Some? then (r, false)
    else (r.(selected := Some(i), anchor := None, notice := NoNotice), true)
  }

  // Both together

  /** `chosen` is the drive last chosen by a successful `Select`. */
  datatype World = World(system: System, reader: Reader, chosen: Option<ProductionDrive>)

  function NewWorld(available: bool): World {
    World(Idling(available), NEW_READER, None)
  }

  datatype Step = Ask(request: Request) | Run(progress: Progress) | Poll | Pick(index: nat)

  /** The current snapshot, where there is a source. */
  function Fetch(s: System): Option<(nat, ProductionSnapshot)>
    requires s.log != []
  {
    if s.available then Some((|s.log| - 1, Current(s))) else None
  }

  ghost function Move(w: World, step: Step): (v: World)
    requires w.system.log != []
    ensures w.system.log <= v.system.log && v.system.available == w.system.available
  {
    hide Work, Control, Refresh;
    match step
    case Ask(request) => w.(system := Control(w.system, request))
    case Run(progress) => w.(system := Work(w.system, progress))
    case Poll => w.(reader := Refresh(w.reader, Fetch(w.system)))
    case Pick(i) =>
      var picked := Select(w.reader, i);
      w.(reader := picked.0, chosen := if picked.1 then Some(w.reader.shown.drives[i]) else w.chosen)
  }

  /** The world after further steps. */
  ghost function After(w: World, steps: seq<Step>): (v: World)
    requires w.system.log != []
    ensures w.system.log <= v.system.log && v.system.available == w.system.available
  {
    hide Move;
    if steps == [] then w else Move(After(w, steps[..|steps| - 1]), steps[|steps| - 1])
  }

  /** The world after any steps from the start. */
  ghost function Interleaving(available: bool, steps: seq<Step>): (w: World)
    ensures w.system.log != [] && w.system.available == available
  {
    hide After;
    After(NewWorld(available), steps)
  }
}
