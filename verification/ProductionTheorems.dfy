/** What every interleaving of scan and reader keeps. */
module ProductionTheorems {
  import opened Text
  import opened Inventory
  import opened Canonical
  import opened Backing
  import opened Ownership
  import opened OwnershipTheorems
  import opened Production

  // Single snapshots

  predicate Settled(p: ProductionSnapshot) {
    p.phase == Idle || p.phase == CompletePhase || p.phase == FailedPhase
  }

  /** The same drives in the same order, whatever is said of their use. */
  predicate SameRow(a: ProductionDrive, b: ProductionDrive) {
    a.observation == b.observation && a.identity == b.identity && a.currentPath == b.currentPath
  }

  predicate SameRows(a: seq<ProductionDrive>, b: seq<ProductionDrive>) {
    |a| == |b| && forall i :: 0 <= i < |a| ==> SameRow(a[i], b[i])
  }

  /** Nothing is claimed about a disk yet. */
  predicate Unproven(row: ProductionDrive) {
    row.status == Unknown && row.reasons == [] && row.proofPending == IsDisk(row)
  }

  ghost predicate Assessed(p: ProductionSnapshot) {
    && SameRows(p.drives, Rows(p.inventory.nodes))
    && (exists ev :: Assesses(p, ev, p.ownership))
    && p.drives == SettleAll(Rows(p.inventory.nodes), p.ownership.devices)
  }

  /** What each phase may show. Verdicts appear in Complete only; Failed carries an
      error and no drives. */
  ghost predicate Proper(p: ProductionSnapshot) {
    && (p.phase == FailedPhase <==> p.scanError.Some?)
    && (p.phase in {Idle, InventoryPhase, FailedPhase} ==> p.drives == [])
    && (p.phase == OwnershipPhase ==> p.drives == Rows(p.inventory.nodes))
    && (p.phase == CompletePhase ==> Assessed(p))
  }

  /** `b` may be published right after `a`. */
  predicate Follows(a: ProductionSnapshot, b: ProductionSnapshot) {
    if b.generation == a.generation then
      || (a.phase == InventoryPhase && b.phase in {OwnershipPhase, FailedPhase})
      || (a.phase == OwnershipPhase && b.phase == FailedPhase)
      || (a.phase == OwnershipPhase && b.phase == CompletePhase && SameRows(a.drives, b.drives))
    else
      b.generation == a.generation + 1 && b.phase == InventoryPhase && Settled(a)
  }

  ghost predicate ProperLog(log: seq<ProductionSnapshot>) {
    && log != []
    && (forall i :: 0 <= i < |log| ==> Proper(log[i]))
    && (forall i :: 0 < i < |log| ==> Follows(log[i - 1], log[i]))
  }

  // The scan

  /** Where the worker stands with respect to what is published. */
  ghost predicate InStep(s: System)
    requires s.log != []
  {
    var p := Current(s);
    && (s.running <==> s.lock.Spawning? || Working(s.worker) || s.worker.Leaving?)
    && (s.lock.Spawning? ==> s.worker.NoWorker? && p.phase == InventoryPhase && p.generation == s.lock.generation)
    && (Working(s.worker) ==> GenerationOf(s.worker) == p.generation && !Settled(p))
    && (!s.running || s.worker.Leaving? ==> Settled(p))
    && match s.worker
       case Scanning(_) => p.phase == InventoryPhase
       case Announcing(draft) => p.phase == InventoryPhase && draft.phase == OwnershipPhase && Proper(draft)
       case Reading(draft) => p == draft && p.phase == OwnershipPhase
       case Assessing(draft, _) => p == draft && p.phase == OwnershipPhase
       case Closing(draft) => Proper(draft) && Follows(p, draft) && draft.phase in {CompletePhase, FailedPhase}
       case Publishing(draft) => Proper(draft) && Follows(p, draft) && draft.phase in {CompletePhase, FailedPhase}
       case _ => true
  }

  ghost predicate Orderly(s: System) {
    s.log != [] && ProperLog(s.log) && InStep(s) && (!s.available ==> s.log == [INITIAL] && !s.running)
  }

  lemma CompletedProper(draft: ProductionSnapshot, ev: Evidence, assessment: Assessment)
    requires draft.phase == OwnershipPhase && Proper(draft) && Assesses(draft, ev, assessment)
    ensures Proper(Completed(draft, assessment)) && SameRows(draft.drives, Completed(draft, assessment).drives)
  {
    hide Represents;
    hide Rows;
    var p := Completed(draft, assessment);
    assert HasDisk(p.drives) == HasDisk(draft.drives) by {
      assert forall i :: 0 <= i < |draft.drives| ==> IsDisk(p.drives[i]) == IsDisk(draft.drives[i]);
    }
    assert Assesses(p, ev, p.ownership);
  }

  lemma ListedProper(generation: nat, inv: Snapshot)
    ensures Proper(Listed(generation, inv))
  {
  }

  lemma Pushed(log: seq<ProductionSnapshot>, p: ProductionSnapshot)
    requires ProperLog(log) && Proper(p) && Follows(log[|log| - 1], p)
    ensures ProperLog(log + [p])
  {
    hide Proper;
    hide Follows;
  }

  lemma FailedProper(generation: nat, error: string)
    ensures Proper(FailedScan(generation, error)) && Proper(Listing(generation))
  {
  }

  lemma ControlKeeps(s: System, request: Request)
    requires Orderly(s)
    ensures Orderly(Control(s, request))
  {
    hide ProperLog, Proper;
    if request.StartScan? || request.SpawnFailed? {
      hide InStep;
      ControlPublishes(s, request);
    }
  }

  /** The two requests that may publish. */
  lemma ControlPublishes(s: System, request: Request)
    requires Orderly(s) && (request.StartScan? || request.SpawnFailed?)
    ensures Orderly(Control(s, request))
  {
    hide ProperLog, Proper;
    var t := Control(s, request);
    if t != s {
      FailedProper(Current(t).generation, if request.SpawnFailed? then request.error else "");
      Pushed(s.log, Current(t));
    }
  }

  lemma AbortKeeps(s: System, error: string)
    requires Orderly(s) && Working(s.worker)
    ensures Orderly(Abort(s, GenerationOf(s.worker), error))
  {
    hide ProperLog, Proper;
    FailedProper(GenerationOf(s.worker), error);
    Pushed(s.log, FailedScan(GenerationOf(s.worker), error));
  }

  /** The two steps that publish what the worker holds. */
  lemma WorkPublishes(s: System, progress: Progress)
    requires Orderly(s) && (progress.AnnounceRows? || progress.Publish?)
    ensures Orderly(Work(s, progress))
  {
    hide ProperLog, Proper;
    if s.worker.Announcing? || s.worker.Publishing? {
      Pushed(s.log, s.worker.draft);
    }
  }

  /** The scan ends in a listing or in a failure yet to be published. */
  lemma ScannedKeeps(s: System, inventory: Result<Snapshot, string>)
    requires Orderly(s)
    ensures Orderly(Work(s, Scanned(inventory)))
  {
    hide ProperLog, Proper;
    if s.worker.Scanning? {
      if s.stop {
        AbortKeeps(s, CANCELLED);
      } else if inventory.Success? {
        ListedProper(s.worker.generation, inventory.value);
      } else {
        FailedProper(s.worker.generation, inventory.error);
      }
    }
  }

  lemma AssessKeeps(s: System, assessment: Assessment)
    requires Orderly(s)
    ensures Orderly(Work(s, Assess(assessment)))
  {
    hide ProperLog, Proper, Assesses;
    if s.worker.Assessing? && Assesses(s.worker.draft, s.worker.evidence, assessment) {
      if s.stop {
        AbortKeeps(s, CANCELLED);
      } else {
        LogProper(s);
        CompletedProper(s.worker.draft, s.worker.evidence, assessment);
      }
    }
  }

  lemma WorkKeeps(s: System, progress: Progress)
    requires Orderly(s)
    ensures Orderly(Work(s, progress))
  {
    hide ProperLog, Proper, Assesses, Completed, Listed, Abort, Follows;
    if progress.AnnounceRows? || progress.Publish? {
      WorkPublishes(s, progress);
    } else if progress.Scanned? {
      ScannedKeeps(s, progress.inventory);
    } else if progress.Assess? {
      AssessKeeps(s, progress.assessment);
    } else if Working(s.worker) {
      AbortKeeps(s, if progress.Throw? then progress.error else CANCELLED);
    }
  }

  lemma LogProper(s: System)
    requires Orderly(s)
    ensures Proper(Current(s))
  {
  }

  // The reader

  /** The secondary facts a selection is held to. */
  predicate SameFacts(a: ProductionDrive, b: ProductionDrive) {
    && a.identity.state == b.identity.state && a.identity.id == b.identity.id && a.identity.scope == b.identity.scope
    && a.observation.physicalKind == b.observation.physicalKind
    && a.observation.serial == b.observation.serial
    && a.observation.model == b.observation.model
    && a.observation.capacityBytes == b.observation.capacityBytes
    && a.observation.wwn == b.observation.wwn
    && a.observation.nvmeEui == b.observation.nvmeEui
    && a.observation.nvmeNguid == b.observation.nvmeNguid
  }

  /** What is selected, or remembered, is the drive last chosen. */
  predicate Faithful(r: Reader, chosen: Option<ProductionDrive>) {
    && (r.selected.Some? ==>
        && r.selected.value < |r.shown.drives| && chosen.Some?
        && SameFacts(chosen.value, r.shown.drives[r.selected.value]))
    && (r.anchor.Some? ==> chosen.Some? && SameFacts(chosen.value, r.anchor.value))
  }

  /** The reader shows something that was published. */
  predicate Fetched(r: Reader, log: seq<ProductionSnapshot>) {
    if r.version.None? then r.shown == INITIAL else r.version.value < |log| && r.shown == log[r.version.value]
  }

  predicate Continues(a: ProductionSnapshot, b: ProductionSnapshot) {
    b.phase == FailedPhase || (a.phase == OwnershipPhase && b.phase == CompletePhase && SameRows(a.drives, b.drives))
  }

  /** Nothing but Ownership followed by Complete shows drives twice in a generation. */
  lemma {:induction false} SameGeneration(log: seq<ProductionSnapshot>, k: nat, n: nat)
    requires ProperLog(log) && k < n < |log|
    ensures log[k].generation <= log[n].generation
    ensures log[k].generation == log[n].generation && log[k].drives != [] ==> Continues(log[k], log[n])
  {
    hide Assessed;
    assert Follows(log[n - 1], log[n]);
    assert Proper(log[k]);
    if k < n - 1 {
      SameGeneration(log, k, n - 1);
    }
  }

  lemma RefreshFaithful(r: Reader, chosen: Option<ProductionDrive>, log: seq<ProductionSnapshot>)
    requires ProperLog(log) && Fetched(r, log) && Faithful(r, chosen)
    ensures var next := Refresh(r, Some((|log| - 1, log[|log| - 1]))); Fetched(next, log) && Faithful(next, chosen)
    ensures Fetched(Refresh(r, None), log) && Faithful(Refresh(r, None), chosen)
  {
    hide Assessed;
    var n := |log| - 1;
    if r.version != Some(n) {
      var next := log[n];
      if r.version.Some? {
        SameGeneration(log, r.version.value, n);
      }
      assert Proper(next);
      var dropped := DropIndex(r, next);
      if dropped.anchor.Some? {
        RetainedMatches(dropped.anchor.value, next.drives);
      }
    }
  }

  lemma RetainedMatches(before: ProductionDrive, drives: seq<ProductionDrive>)
    ensures Retained(before, drives).Some? ==> SoleMatch(before, drives, Retained(before, drives).value)
  {
  }

  /** The drive that the reader would like to find again. */
  function Remembered(r: Reader): Option<ProductionDrive> {
    if SelectedDrive(r).Some? then SelectedDrive(r) else r.anchor
  }

  /** When the drives of a new generation become known, at once or after its Inventory
      snapshot was shown, a remembered drive is selected again exactly when one of
      them, and only one, can be it. */
  lemma RetentionIsExact(r: Reader, version: nat, next: ProductionSnapshot, i: nat)
    requires r.version != Some(version) && (next.generation != r.shown.generation || SelectedDrive(r).None?)
    requires next.phase != InventoryPhase && next.scanError.None? && Remembered(r).Some?
    ensures Refresh(r, Some((version, next))).selected == Some(i) <==> SoleMatch(Remembered(r).value, next.drives, i)
  {
    hide SameSelection;
    hide SoleMatch;
    hide Retained;
    AnchorMatches(Remembered(r).value, next.drives, i);
    RetainedIs(DropIndex(r, next).anchor.value, next.drives, i);
  }

  lemma AnchorMatches(before: ProductionDrive, drives: seq<ProductionDrive>, i: nat)
    ensures SoleMatch(AnchorOf(before), drives, i) <==> SoleMatch(before, drives, i)
  {
    forall after ensures SameSelection(AnchorOf(before), after) == SameSelection(before, after) {
    }
  }

  lemma RetainedIs(before: ProductionDrive, drives: seq<ProductionDrive>, i: nat)
    ensures Retained(before, drives) == Some(i) <==> SoleMatch(before, drives, i)
  {
    hide SameSelection;
  }

  // Whole runs

  ghost predicate Sound(w: World) {
    Orderly(w.system) && Fetched(w.reader, w.system.log) && Faithful(w.reader, w.chosen)
  }

  lemma PickFaithful(r: Reader, chosen: Option<ProductionDrive>, i: nat)
    requires Faithful(r, chosen)
    ensures var picked := Select(r, i);
      Faithful(picked.0, if picked.1 then Some(r.shown.drives[i]) else chosen)
      && picked.0.version == r.version && picked.0.shown == r.shown
  {
  }

  lemma FetchedSame(r: Reader, next: Reader, log: seq<ProductionSnapshot>)
    requires Fetched(r, log) && next.version == r.version && next.shown == r.shown
    ensures Fetched(next, log)
  {
  }

  lemma FetchedLater(r: Reader, log: seq<ProductionSnapshot>, more: seq<ProductionSnapshot>)
    requires Fetched(r, log) && log <= more
    ensures Fetched(r, more)
  {
  }

  lemma MoveKeeps(w: World, step: Step)
    requires Sound(w)
    ensures Sound(Move(w, step))
  {
    hide Orderly;
    hide Control;
    hide Work;
    hide Refresh;
    hide Select;
    hide Faithful;
    hide Fetched;
    hide ProperLog;
    OrderlyLog(w.system);
    FetchedLater(w.reader, w.system.log, Move(w, step).system.log);
    match step
    case Ask(request) =>
      ControlKeeps(w.system, request);
    case Run(progress) =>
      WorkKeeps(w.system, progress);
    case Poll =>
      RefreshFaithful(w.reader, w.chosen, w.system.log);
    case Pick(i) =>
      PickFaithful(w.reader, w.chosen, i);
      FetchedSame(w.reader, Select(w.reader, i).0, w.system.log);
  }

  lemma OrderlyLog(s: System)
    requires Orderly(s)
    ensures ProperLog(s.log)
  {
  }

  lemma {:induction false} AfterSound(w: World, steps: seq<Step>)
    requires w.system.log != [] && Sound(w)
    ensures Sound(After(w, steps))
  {
    hide Sound, Move;
    if steps != [] {
      AfterSound(w, steps[..|steps| - 1]);
      MoveKeeps(After(w, steps[..|steps| - 1]), steps[|steps| - 1]);
    }
  }

  lemma InterleavingSound(available: bool, steps: seq<Step>)
    ensures Sound(Interleaving(available, steps))
  {
    StartSound(available);
    hide Sound, After;
    AfterSound(NewWorld(available), steps);
  }

  lemma StartSound(available: bool)
    ensures Sound(NewWorld(available))
  {
    assert Proper(INITIAL);
  }

  // Main results

  /** In every interleaving of the scan with polls and picks, skipped snapshots and
      generations included: whatever is selected has the identity and the
      secondary facts of the drive last picked. */
  lemma SelectionKeepsIdentity(available: bool, steps: seq<Step>)
    ensures var w := Interleaving(available, steps);
      w.reader.selected.Some? ==>
        && w.reader.selected.value < |w.reader.shown.drives|
        && w.chosen.Some?
        && SameFacts(w.chosen.value, w.reader.shown.drives[w.reader.selected.value])
  {
    hide Interleaving;
    hide Assessed;
    InterleavingSound(available, steps);
  }

  /** What is published, in every interleaving: generations never decrease; within
      one the phases go Inventory, Ownership, Complete, over one list of drives, or
      end in Failed; the next starts only when the last has ended. */
  lemma PublicationIsOrdered(available: bool, steps: seq<Step>, k: nat)
    requires 0 < k < |Interleaving(available, steps).system.log|
    ensures var log := Interleaving(available, steps).system.log; Follows(log[k - 1], log[k])
  {
    hide Interleaving;
    hide Assessed;
    InterleavingSound(available, steps);
  }

  /** One worker at a time: a scan counts as running exactly while its worker is
      being created, at work or leaving, a worker is created only when there is none,
      and starting another scan meanwhile, or without a source, changes nothing. */
  lemma OneWorkerAtATime(available: bool, steps: seq<Step>)
    ensures var s := Interleaving(available, steps).system;
      && (s.running <==> s.lock.Spawning? || Working(s.worker) || s.worker.Leaving?)
      && (s.lock.Spawning? ==> s.worker.NoWorker?)
      && (s.running || !available ==> Control(s, StartScan) == s)
  {
    hide Interleaving;
    hide Assessed;
    InterleavingSound(available, steps);
  }

  /** A disk shows a verdict or a finished proof only in a Complete snapshot; a
      snapshot carries an error exactly when it is Failed, and then no drives. */
  lemma VerdictsAreFinal(available: bool, steps: seq<Step>, k: nat, i: nat)
    requires k < |Interleaving(available, steps).system.log|
    ensures var p := Interleaving(available, steps).system.log[k];
      && (i < |p.drives| && (p.drives[i].status != Unknown || (IsDisk(p.drives[i]) && !p.drives[i].proofPending))
          ==> p.phase == CompletePhase)
      && (p.scanError.Some? <==> p.phase == FailedPhase)
      && (p.phase == FailedPhase ==> p.drives == [])
  {
    hide Interleaving;
    hide Assessed;
    InterleavingSound(available, steps);
    var p := Interleaving(available, steps).system.log[k];
    assert Proper(p);
    if p.phase == OwnershipPhase && i < |p.drives| {
      RowsUnproven(p.inventory.nodes, i);
    }
  }

  lemma {:induction false} RowsUnproven(nodes: seq<ResolvedNode>, i: nat)
    requires i < |Rows(nodes)|
    ensures Unproven(Rows(nodes)[i])
  {
    var front := nodes[..|nodes| - 1];
    if i < |Rows(front)| {
      RowsUnproven(front, i);
    }
  }

  // Retention over runs

  /** The drive picked in generation `g` is still selected there, or remembered while
      the drives of a later generation are not known yet. */
  predicate Keeps(r: Reader, g: nat) {
    || (r.shown.generation == g && r.shown.scanError.None? && SelectedDrive(r).Some? && r.anchor.None?)
    || (r.shown.generation > g && r.shown.phase == InventoryPhase && SelectedDrive(r).None? && r.anchor.Some?)
  }

  /** A step that does not decide about the drive picked in generation `g`: no pick,
      and no poll of a failure or of the drives of another generation. */
  predicate Undecided(w: World, step: Step, g: nat)
    requires w.system.log != []
  {
    var p := Current(w.system);
    && !step.Pick?
    && (step.Poll? ==> p.phase == InventoryPhase || (p.generation == g && p.scanError.None?))
  }

  lemma PollKeeps(r: Reader, log: seq<ProductionSnapshot>, g: nat)
    requires ProperLog(log) && Fetched(r, log) && Keeps(r, g)
    requires var p := log[|log| - 1]; p.phase == InventoryPhase || (p.generation == g && p.scanError.None?)
    ensures Keeps(Refresh(r, Some((|log| - 1, log[|log| - 1]))), g)
  {
    hide Assessed, Retained;
    var n := |log| - 1;
    assert Proper(log[n]) && Proper(r.shown) by {
      assert Proper(INITIAL);
    }
    if r.version.Some? && r.version.value < n {
      SameGeneration(log, r.version.value, n);
    }
  }

  /** With something picked there is a source, and it has published drives. */
  lemma KeepsMeansAvailable(w: World, g: nat)
    requires Sound(w) && Keeps(w.reader, g)
    ensures w.system.available
  {
    hide ProperLog, InStep, Faithful;
  }

  lemma UndecidedStep(w: World, step: Step, g: nat)
    requires w.system.log != [] && Sound(w) && Keeps(w.reader, g) && Undecided(w, step, g)
    ensures Sound(Move(w, step)) && Keeps(Move(w, step).reader, g) && Move(w, step).chosen == w.chosen
  {
    hide Sound, Keeps, Refresh, Control, Work;
    MoveKeeps(w, step);
    if step.Poll? {
      KeepsMeansAvailable(w, g);
      SoundParts(w);
      hide ProperLog, Faithful, Fetched;
      PollKeeps(w.reader, w.system.log, g);
    }
  }

  /** None of the steps decides about the drive picked in generation `g`. */
  ghost predicate AllUndecided(w: World, steps: seq<Step>, g: nat)
    requires w.system.log != []
  {
    hide Move, Undecided;
    steps == [] || (
      var front := steps[..|steps| - 1];
      AllUndecided(w, front, g) && Undecided(After(w, front), steps[|steps| - 1], g))
  }

  lemma {:induction false} UndecidedKeeps(w: World, steps: seq<Step>, g: nat)
    requires w.system.log != [] && Sound(w) && Keeps(w.reader, g) && AllUndecided(w, steps, g)
    ensures Sound(After(w, steps)) && Keeps(After(w, steps).reader, g) && After(w, steps).chosen == w.chosen
  {
    hide Sound, Keeps, Move, Undecided;
    if steps != [] {
      var front := steps[..|steps| - 1];
      UndecidedKeeps(w, front, g);
      UndecidedStep(After(w, front), steps[|steps| - 1], g);
    }
  }

  lemma SoundParts(w: World)
    requires Sound(w)
    ensures ProperLog(w.system.log) && Fetched(w.reader, w.system.log) && Faithful(w.reader, w.chosen)
  {
  }

  lemma SameFactsMatch(a: ProductionDrive, b: ProductionDrive, drives: seq<ProductionDrive>, i: nat)
    requires SameFacts(a, b)
    ensures SoleMatch(a, drives, i) <==> SoleMatch(b, drives, i)
  {
    forall after ensures SameSelection(a, after) == SameSelection(b, after) {
    }
    hide SameSelection;
  }

  lemma PickStarts(w: World, index: nat)
    requires w.system.log != [] && Sound(w) && Select(w.reader, index).1
    ensures var picked := Move(w, Pick(index));
      Sound(picked) && Keeps(picked.reader, w.reader.shown.generation) && picked.chosen == Some(w.reader.shown.drives[index])
  {
    hide Sound;
    MoveKeeps(w, Pick(index));
  }

  lemma PollDecides(v: World, g: nat, i: nat)
    requires v.system.log != [] && Sound(v) && Keeps(v.reader, g) && v.chosen.Some?
    requires var p := Current(v.system); p.generation != g && p.phase != InventoryPhase && p.scanError.None?
    ensures Move(v, Poll).reader.selected == Some(i) <==> SoleMatch(v.chosen.value, Current(v.system).drives, i)
  {
    hide Sound, Refresh, SoleMatch, SameFacts;
    KeepsMeansAvailable(v, g);
    SoundParts(v);
    hide ProperLog;
    RetentionIsExact(v.reader, |v.system.log| - 1, Current(v.system), i);
    RememberedFacts(v.reader, v.chosen);
    SameFactsMatch(v.chosen.value, Remembered(v.reader).value, Current(v.system).drives, i);
  }

  lemma RememberedFacts(r: Reader, chosen: Option<ProductionDrive>)
    requires Faithful(r, chosen) && Remembered(r).Some?
    ensures chosen.Some? && SameFacts(chosen.value, Remembered(r).value)
  {
  }

  /** The world after a pick and further steps. */
  ghost function PickedThen(w: World, index: nat, rest: seq<Step>): (v: World)
    requires w.system.log != []
    ensures v.system.log != []
  {
    hide Move, After;
    After(Move(w, Pick(index)), rest)
  }

  /** After a pick and any steps that do not decide about it, the first poll that
      finds the drives of a later generation selects exactly the sole drive that has
      the picked drive's identity and secondary facts, if there is one. */
  lemma RetentionOverRuns(available: bool, before: seq<Step>, index: nat, rest: seq<Step>, i: nat)
    requires Select(Interleaving(available, before).reader, index).1
    requires var w := Interleaving(available, before);
      && AllUndecided(Move(w, Pick(index)), rest, w.reader.shown.generation)
      && Current(PickedThen(w, index, rest).system).generation != w.reader.shown.generation
    requires var p := Current(PickedThen(Interleaving(available, before), index, rest).system);
      p.phase != InventoryPhase && p.scanError.None?
    ensures var w := Interleaving(available, before);
      var v := PickedThen(w, index, rest);
      Move(v, Poll).reader.selected == Some(i) <==> SoleMatch(w.reader.shown.drives[index], Current(v.system).drives, i)
  {
    hide Interleaving, After, Sound, Move, SoleMatch, AllUndecided, Keeps;
    var w := Interleaving(available, before);
    InterleavingSound(available, before);
    PickStarts(w, index);
    UndecidedKeeps(Move(w, Pick(index)), rest, w.reader.shown.generation);
    PollDecides(PickedThen(w, index, rest), w.reader.shown.generation, i);
  }

  // Cancellation

  /** The generation cannot be completed any more: its scan was asked to stop before
      the last check, or it has failed. */
  ghost predicate Stopped(s: System, generation: nat)
    requires s.log != []
  {
    && Current(s).generation >= generation
    && (forall i :: 0 <= i < |s.log| && s.log[i].generation == generation ==> s.log[i].phase != CompletePhase)
    && (Current(s).generation == generation && s.running ==>
         s.worker.Leaving? || (Working(s.worker) && !s.worker.Publishing? && s.stop))
  }

  lemma ControlStopped(s: System, request: Request, generation: nat)
    requires Orderly(s) && Stopped(s, generation)
    ensures Stopped(Control(s, request), generation)
  {
    hide ProperLog;
    hide Proper;
    hide Follows;
  }

  lemma WorkStopped(s: System, progress: Progress, generation: nat)
    requires Orderly(s) && Stopped(s, generation)
    ensures Stopped(Work(s, progress), generation)
  {
    hide ProperLog;
    hide Proper;
    hide Follows;
    hide Assesses;
    hide Rows;
    hide SettleAll;
  }

  lemma {:induction false} StoppedForGood(w: World, steps: seq<Step>, generation: nat)
    requires w.system.log != [] && Sound(w) && Stopped(w.system, generation)
    ensures Sound(After(w, steps)) && Stopped(After(w, steps).system, generation)
  {
    hide Sound;
    hide Stopped;
    hide Control;
    hide Work;
    hide Refresh;
    hide Select;
    if steps != [] {
      var front := steps[..|steps| - 1];
      StoppedForGood(w, front, generation);
      var v := After(w, front);
      MoveKeeps(v, steps[|steps| - 1]);
      SoundOrderly(v);
      match steps[|steps| - 1]
      case Ask(request) => ControlStopped(v.system, request, generation);
      case Run(progress) => WorkStopped(v.system, progress, generation);
      case _ =>
    }
  }

  lemma SoundOrderly(w: World)
    requires Sound(w)
    ensures Orderly(w.system)
  {
  }

  /** A scan asked to stop before its last check never publishes a Complete
      snapshot of that generation, however the run goes on. */
  lemma CancellationHolds(available: bool, before: seq<Step>, after: seq<Step>, k: nat)
    requires var s := Interleaving(available, before).system; s.log != [] && s.stop && Working(s.worker) && !s.worker.Publishing?
    requires k < |After(Interleaving(available, before), after).system.log|
    ensures After(Interleaving(available, before), after).system.log[k].generation == Current(Interleaving(available, before).system).generation ==>
      After(Interleaving(available, before), after).system.log[k].phase != CompletePhase
  {
    hide Interleaving;
    hide Assessed;
    var w := Interleaving(available, before);
    InterleavingSound(available, before);
    NotYetComplete(w.system);
    StoppedForGood(w, after, Current(w.system).generation);
  }

  lemma NotYetComplete(s: System)
    requires Orderly(s) && s.stop && Working(s.worker) && !s.worker.Publishing?
    ensures Stopped(s, Current(s).generation)
  {
    hide Proper;
    hide Follows;
    hide ProperLog;
    OrderlyLog(s);
    assert Current(s).phase != CompletePhase;
    var n := |s.log| - 1;
    forall i | 0 <= i < |s.log| && s.log[i].generation == s.log[n].generation ensures s.log[i].phase != CompletePhase {
      if i < n {
        CompleteIsLast(s.log, i, n);
      }
    }
  }

  lemma {:induction false} CompleteIsLast(log: seq<ProductionSnapshot>, i: nat, n: nat)
    requires ProperLog(log) && i < n < |log|
    ensures log[i].generation <= log[n].generation
    ensures log[i].generation == log[n].generation ==> log[i].phase != CompletePhase
  {
    hide Proper;
    assert Follows(log[n - 1], log[n]);
    if i < n - 1 {
      CompleteIsLast(log, i, n - 1);
    }
  }

  // A READY row is sound

  /** What a row published as READY promises of its own device and of the evidence
      it was judged on. */
  ghost predicate SoundRow(row: ProductionDrive, inv: Snapshot, ev: Evidence) {
    && row.identity.state == Resolved && row.identity.id.Some? && row.identity.scope == WholeDevice
    && row.currentPath.Some?
    && row.observation.capacityBytes.GetOr(0) > 0 && row.observation.readOnly == Some(false)
    && IsDisk(row)
    && Unused(inv, ev, OwnershipGraph(inv, ev), RowKey(row))
    && ClearAbove(inv, ev, OwnershipGraph(inv, ev), RowKey(row))
    && MountsExplained(inv, ev)
  }

  lemma DuplicatesReported(inv: Snapshot, ev: Evidence, i: nat, j: nat)
    requires i < |inv.nodes| && j < |inv.nodes| && i != j
    requires inv.nodes[i].observation.kernelName == inv.nodes[j].observation.kernelName
    ensures DuplicateIssue(BlockKey(inv.nodes[i].observation.kernelName)) in Issues(inv, ev)
  {
    hide PartitionIssues;
    hide Edges;
    hide Blocks;
    hide Dangling;
    hide ProviderSet;
    var d := BlockKey(inv.nodes[i].observation.kernelName);
    var records := Records(inv, ev);
    TwiceListed(records, |ev.nodes| + if i < j then i else j, |ev.nodes| + if i < j then j else i);
    var r := records[|ev.nodes| + i];
    assert r.key == d && multiset(records)[r] >= 2;
    assert d in Keys(multiset(records)) && Duplicated(multiset(records), d);
  }

  /** A READY decision is about the only inventory node of its key. */
  lemma ReadyIsUnique(inv: Snapshot, ev: Evidence, i: nat, j: nat)
    requires i < |inv.nodes| && j < |inv.nodes|
    requires var d := BlockKey(inv.nodes[i].observation.kernelName);
      Candidate(inv, AllPhysical, d) && Status(inv, ev, d) == Ready
    requires inv.nodes[i].observation.kernelName == inv.nodes[j].observation.kernelName
    ensures i == j
  {
    hide Issues;
    hide Status;
    hide Candidate;
    var d := BlockKey(inv.nodes[i].observation.kernelName);
    assert DuplicateIssue(d).node == d;
    ReadyComplete(inv, ev, d);
    if i != j {
      DuplicatesReported(inv, ev, i, j);
    }
  }

  lemma ReadyComplete(inv: Snapshot, ev: Evidence, d: Key)
    requires Candidate(inv, AllPhysical, d) && Status(inv, ev, d) == Ready
    ensures forall r :: r in Issues(inv, ev) ==> r.node != d
  {
    var g := OwnershipGraph(inv, ev);
    GraphOfBlocks(inv, ev, d);
    EndpointTrace(g, d);
    assert g.LocalReasons(d) == {};
    assert g.Complete(d);
  }

  lemma BlockKeyInjective(a: string, b: string)
    requires BlockKey(a) == BlockKey(b)
    ensures a == b
  {
    assert BlockKey(a)[6..] == a && BlockKey(b)[6..] == b;
  }

  lemma ReadyNode(inv: Snapshot, ev: Evidence, k: nat)
    requires k < |inv.nodes|
    requires var d := BlockKey(inv.nodes[k].observation.kernelName); Candidate(inv, Disks, d) && Status(inv, ev, d) == Ready
    ensures SoundRow(Row(inv.nodes[k]), inv, ev)
  {
    hide Status;
    hide Blocks;
    hide Unused;
    hide ClearAbove;
    hide MountsExplained;
    var d := BlockKey(inv.nodes[k].observation.kernelName);
    ReadyIsSound(inv, ev, d);
    BlocksHaveKeys(inv.nodes, d);
    var m :| 0 <= m < |inv.nodes| && inv.nodes[m] == Blocks(inv.nodes)[d] && d == BlockKey(inv.nodes[m].observation.kernelName);
    BlockKeyInjective(inv.nodes[k].observation.kernelName, inv.nodes[m].observation.kernelName);
    ReadyIsUnique(inv, ev, k, m);
  }

  lemma {:induction false} RowsAreNodes(nodes: seq<ResolvedNode>, i: nat)
    requires i < |Rows(nodes)|
    ensures exists k :: 0 <= k < |nodes| && Rows(nodes)[i] == Row(nodes[k])
  {
    var front := nodes[..|nodes| - 1];
    if i < |Rows(front)| {
      RowsAreNodes(front, i);
      var k :| 0 <= k < |front| && Rows(front)[i] == Row(front[k]);
      assert front[k] == nodes[k];
    }
  }

  lemma DecidedStatus(out: Assessment, inv: Snapshot, ev: Evidence, d: Key)
    requires Represents(out, inv, ev, Disks) && d in out.devices
    ensures Candidate(inv, Disks, d) && Status(inv, ev, d) == out.devices[d].status
  {
    hide RepresentsTrace;
    hide OwnershipGraph;
    hide Trace;
    hide Lists;
    hide Coverage;
    hide Blocks;
    hide StatusOf;
    hide Issues;
    hide Traces;
    hide DecisionReasons;
    hide Edges;
    hide Claims;
  }

  /** Only a decision makes an unproven row READY. */
  lemma SettledReady(row: ProductionDrive, devices: map<Key, Decision>)
    requires Unproven(row) && Settle(row, devices).status == Ready
    ensures RowKey(row) in devices && devices[RowKey(row)].status == Ready
  {
  }

  lemma SoundSettled(row: ProductionDrive, devices: map<Key, Decision>, inv: Snapshot, ev: Evidence)
    requires SoundRow(row, inv, ev)
    ensures SoundRow(Settle(row, devices), inv, ev)
  {
    hide Unused, ClearAbove, MountsExplained;
  }

  lemma CompleteReadySound(p: ProductionSnapshot, ev: Evidence, i: nat)
    requires Assesses(p, ev, p.ownership) && p.drives == SettleAll(Rows(p.inventory.nodes), p.ownership.devices)
    requires i < |p.drives| && p.drives[i].status == Ready
    ensures Represents(p.ownership, p.inventory, ev, Disks) && SoundRow(p.drives[i], p.inventory, ev)
    ensures IsReady(p.inventory, ev, RowKey(p.drives[i]))
  {
    hide Represents, Rows, Candidate, Status, SoundRow, Settle;
    var rows := Rows(p.inventory.nodes);
    RowsUnproven(p.inventory.nodes, i);
    RowsAreNodes(p.inventory.nodes, i);
    var m :| 0 <= m < |p.inventory.nodes| && rows[i] == Row(p.inventory.nodes[m]);
    assert p.drives[i] == Settle(rows[i], p.ownership.devices);
    SettledReady(rows[i], p.ownership.devices);
    assert p.ownership != NO_ASSESSMENT;
    DecidedStatus(p.ownership, p.inventory, ev, RowKey(rows[i]));
    DiskIsPhysical(p.inventory, RowKey(rows[i]));
    ReadyNode(p.inventory, ev, m);
    SoundSettled(rows[i], p.ownership.devices, p.inventory, ev);
    assert RowKey(Settle(rows[i], p.ownership.devices)) == RowKey(rows[i]) by {
      SettledKey(rows[i], p.ownership.devices);
    }
  }

  lemma DiskIsPhysical(inv: Snapshot, d: Key)
    requires Candidate(inv, Disks, d)
    ensures Candidate(inv, AllPhysical, d)
  {
    hide Blocks;
  }

  lemma SettledKey(row: ProductionDrive, devices: map<Key, Decision>)
    ensures RowKey(Settle(row, devices)) == RowKey(row)
  {
  }
}
