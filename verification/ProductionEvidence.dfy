/** Every verdict shown goes back to evidence that the worker read in that generation. */
module ProductionEvidence {
  import opened Inventory
  import opened Ownership
  import opened OwnershipTheorems
  import opened Production
  import opened ProductionTheorems

  /** Step `n` is the worker reading the ownership evidence `ev` for the rows of `draft`,
      not stopped. */
  ghost predicate ReadAt(available: bool, steps: seq<Step>, n: nat, draft: ProductionSnapshot, ev: Evidence) {
    && n < |steps| && steps[n] == Run(ReadOwnership(ev))
    && Interleaving(available, steps[..n]).system.worker == Reading(draft)
    && !Interleaving(available, steps[..n]).system.stop
  }

  ghost predicate WasRead(available: bool, steps: seq<Step>, draft: ProductionSnapshot, ev: Evidence) {
    exists n: nat :: ReadAt(available, steps, n, draft, ev)
  }

  ghost predicate Concludes(p: ProductionSnapshot, draft: ProductionSnapshot, ev: Evidence) {
    Assesses(draft, ev, p.ownership) && p == Completed(draft, p.ownership)
  }

  /** The snapshot completes rows by an assessment of evidence read for them. */
  ghost predicate Judged(available: bool, steps: seq<Step>, p: ProductionSnapshot) {
    exists draft, ev :: WasRead(available, steps, draft, ev) && Concludes(p, draft, ev)
  }

  ghost predicate HeldJudged(available: bool, steps: seq<Step>, w: Worker) {
    && (w.Assessing? ==> WasRead(available, steps, w.draft, w.evidence))
    && ((w.Closing? || w.Publishing?) && w.draft.phase == CompletePhase ==> Judged(available, steps, w.draft))
  }

  /** Everything complete, published or about to be, is judged on evidence read. */
  ghost predicate AllJudged(available: bool, steps: seq<Step>, s: System) {
    && HeldJudged(available, steps, s.worker)
    && forall k :: 0 <= k < |s.log| && s.log[k].phase == CompletePhase ==> Judged(available, steps, s.log[k])
  }

  lemma ReadsStay(available: bool, steps: seq<Step>, step: Step, draft: ProductionSnapshot, ev: Evidence)
    requires WasRead(available, steps, draft, ev)
    ensures WasRead(available, steps + [step], draft, ev)
  {
    hide Interleaving;
    var n: nat :| ReadAt(available, steps, n, draft, ev);
    assert (steps + [step])[..n] == steps[..n];
    assert ReadAt(available, steps + [step], n, draft, ev);
  }

  lemma JudgedStays(available: bool, steps: seq<Step>, step: Step, p: ProductionSnapshot)
    requires Judged(available, steps, p)
    ensures Judged(available, steps + [step], p)
  {
    hide WasRead, Concludes;
    var draft, ev :| WasRead(available, steps, draft, ev) && Concludes(p, draft, ev);
    ReadsStay(available, steps, step, draft, ev);
  }

  lemma AllJudgedStays(available: bool, steps: seq<Step>, step: Step, s: System)
    requires AllJudged(available, steps, s)
    ensures AllJudged(available, steps + [step], s)
  {
    hide WasRead, Judged;
    if s.worker.Assessing? {
      ReadsStay(available, steps, step, s.worker.draft, s.worker.evidence);
    }
    if (s.worker.Closing? || s.worker.Publishing?) && s.worker.draft.phase == CompletePhase {
      JudgedStays(available, steps, step, s.worker.draft);
    }
    forall k | 0 <= k < |s.log| && s.log[k].phase == CompletePhase ensures Judged(available, steps + [step], s.log[k]) {
      JudgedStays(available, steps, step, s.log[k]);
    }
  }

  lemma ControlJudged(available: bool, steps: seq<Step>, s: System, request: Request)
    requires s.log != [] && AllJudged(available, steps, s)
    ensures AllJudged(available, steps, Control(s, request))
  {
    hide WasRead, Judged;
  }

  /** The worker reads evidence, and remembers it. */
  lemma ReadingJudged(available: bool, steps: seq<Step>, ev: Evidence)
    requires AllJudged(available, steps, Interleaving(available, steps).system)
    ensures AllJudged(available, steps + [Run(ReadOwnership(ev))], Work(Interleaving(available, steps).system, ReadOwnership(ev)))
  {
    hide Interleaving, Judged;
    var s, extended := Interleaving(available, steps).system, steps + [Run(ReadOwnership(ev))];
    AllJudgedStays(available, steps, Run(ReadOwnership(ev)), s);
    if s.worker.Reading? && !s.stop {
      assert extended[..|steps|] == steps;
      assert ReadAt(available, extended, |steps|, s.worker.draft, ev);
    }
    hide WasRead;
  }

  lemma AssessJudged(available: bool, steps: seq<Step>, s: System, assessment: Assessment)
    requires s.log != [] && AllJudged(available, steps, s)
    ensures AllJudged(available, steps, Work(s, Assess(assessment)))
  {
    hide WasRead, Judged, Assesses, Completed;
    if s.worker.Assessing? && Assesses(s.worker.draft, s.worker.evidence, assessment) && !s.stop {
      CompletedBy(s.worker.draft, assessment);
      assert Concludes(Completed(s.worker.draft, assessment), s.worker.draft, s.worker.evidence);
      JudgedBy(available, steps, Completed(s.worker.draft, assessment), s.worker.draft, s.worker.evidence);
    }
  }

  lemma CompletedBy(draft: ProductionSnapshot, assessment: Assessment)
    ensures Completed(draft, assessment).ownership == assessment
  {
  }

  lemma JudgedBy(available: bool, steps: seq<Step>, p: ProductionSnapshot, draft: ProductionSnapshot, ev: Evidence)
    requires WasRead(available, steps, draft, ev) && Concludes(p, draft, ev)
    ensures Judged(available, steps, p)
  {
    hide WasRead, Concludes;
  }

  /** No other progress completes anything. */
  lemma WorkJudged(available: bool, steps: seq<Step>, s: System, progress: Progress)
    requires Orderly(s) && AllJudged(available, steps, s) && !progress.ReadOwnership?
    ensures AllJudged(available, steps, Work(s, progress))
  {
    hide WasRead, Judged, Assesses, ProperLog, Proper;
    if progress.Assess? {
      AssessJudged(available, steps, s, progress.assessment);
    }
  }

  lemma MoveJudged(available: bool, steps: seq<Step>, step: Step)
    requires AllJudged(available, steps, Interleaving(available, steps).system)
    ensures AllJudged(available, steps + [step], Move(Interleaving(available, steps), step).system)
  {
    hide AllJudged, Interleaving, Control, Work, Refresh, Sound;
    var w := Interleaving(available, steps);
    InterleavingSound(available, steps);
    SoundSystem(w);
    AllJudgedStays(available, steps, step, w.system);
    match step
    case Ask(request) => ControlJudged(available, steps + [step], w.system, request);
    case Run(progress) =>
      if progress.ReadOwnership? {
        ReadingJudged(available, steps, progress.evidence);
      } else {
        WorkJudged(available, steps + [step], w.system, progress);
      }
    case Poll =>
    case Pick(_) =>
  }

  lemma SoundSystem(w: World)
    requires Sound(w)
    ensures Orderly(w.system)
  {
  }

  lemma InterleavingStep(available: bool, steps: seq<Step>)
    requires steps != []
    ensures Interleaving(available, steps) == Move(Interleaving(available, steps[..|steps| - 1]), steps[|steps| - 1])
  {
    hide Move;
  }

  lemma {:induction false} InterleavingJudged(available: bool, steps: seq<Step>)
    ensures AllJudged(available, steps, Interleaving(available, steps).system)
  {
    if steps == [] {
      NothingJudged(available);
    } else {
      hide AllJudged, Interleaving, Move;
      var front, last := steps[..|steps| - 1], steps[|steps| - 1];
      InterleavingJudged(available, front);
      MoveJudged(available, front, last);
      InterleavingStep(available, steps);
      assert steps == front + [last];
    }
  }

  lemma NothingJudged(available: bool)
    ensures AllJudged(available, [], Interleaving(available, []).system)
  {
    hide WasRead, Judged;
    assert Interleaving(available, []).system == Idling(available);
  }

  /** `row` is shown READY by the snapshot `p`, published in this interleaving. */
  ghost predicate ShownReady(available: bool, steps: seq<Step>, p: ProductionSnapshot, row: ProductionDrive) {
    p in Interleaving(available, steps).system.log && row in p.drives && row.status == Ready
  }

  /** The worker read, for the rows of the snapshot's generation and on its inventory,
      the evidence `ev`; the snapshot's assessment is an assessment of it. */
  ghost predicate JudgedOn(available: bool, steps: seq<Step>, p: ProductionSnapshot, ev: Evidence) {
    && (exists n: nat, draft ::
          ReadAt(available, steps, n, draft, ev) && draft.generation == p.generation && draft.inventory == p.inventory)
    && Represents(p.ownership, p.inventory, ev, Disks)
  }

  lemma PublishedReadyWasRead(available: bool, steps: seq<Step>, p: ProductionSnapshot, row: ProductionDrive) returns (ev: Evidence)
    requires ShownReady(available, steps, p, row)
    ensures JudgedOn(available, steps, p, ev) && SoundRow(row, p.inventory, ev) && IsReady(p.inventory, ev, RowKey(row))
  {
    hide Interleaving, Represents, SoundRow, Unproven, ReadAt, Completed, Assesses, Rows, SettleAll, IsReady;
    var k :| 0 <= k < |Interleaving(available, steps).system.log| && Interleaving(available, steps).system.log[k] == p;
    var i :| 0 <= i < |p.drives| && p.drives[i] == row;
    VerdictsAreFinal(available, steps, k, i);
    InterleavingSound(available, steps);
    InterleavingJudged(available, steps);
    assert Proper(p);
    var draft;
    draft, ev :| WasRead(available, steps, draft, ev) && Concludes(p, draft, ev);
    var n: nat :| ReadAt(available, steps, n, draft, ev);
    CompletedFrom(p, draft, ev);
    CompleteReadySound(p, ev, i);
  }

  /** A row that any snapshot in any interleaving shows as READY is a resolved, writable,
      sized disk with a path; and the worker read, for the rows of that generation and
      that inventory, the very evidence that was assessed, under which no claim, mount or
      swap rests on the disk and everything it backs was freshly read as carrying no
      membership, detached loop devices excepted. */
  lemma PublishedReadyIsSound(available: bool, steps: seq<Step>, p: ProductionSnapshot, row: ProductionDrive)
    requires ShownReady(available, steps, p, row)
    ensures exists ev :: JudgedOn(available, steps, p, ev) && SoundRow(row, p.inventory, ev)
  {
    hide ShownReady, JudgedOn, SoundRow;
    var ev := PublishedReadyWasRead(available, steps, p, row);
  }

  /** What was concluded for the draft holds of the completed snapshot. */
  lemma CompletedFrom(p: ProductionSnapshot, draft: ProductionSnapshot, ev: Evidence)
    requires Concludes(p, draft, ev)
    ensures p.generation == draft.generation && p.inventory == draft.inventory && Assesses(p, ev, p.ownership)
  {
    hide Represents;
    assert HasDisk(p.drives) == HasDisk(draft.drives) by {
      assert forall i :: 0 <= i < |draft.drives| ==> IsDisk(p.drives[i]) == IsDisk(draft.drives[i]);
    }
  }
}
