/** What the reader is told, and that what it is told is so. */
module ReaderTheorems {
  import opened Text
  import opened Inventory
  import opened Production
  import opened ProductionTheorems

  /** With a notice nothing is selected or remembered, and neither is there after a
      failed scan or without a snapshot. */
  predicate NoticesHold(r: Reader) {
    && (r.notice != NoNotice ==> r.selected.None? && r.anchor.None?)
    && (r.shown.scanError.Some? || r.version.None? ==> r.selected.None? && r.anchor.None?)
    && (r.selected.None? || r.anchor.None?)
  }

  lemma RefreshNotices(r: Reader, fetched: Option<(nat, ProductionSnapshot)>)
    requires NoticesHold(r) && (r.selected.Some? ==> SelectedDrive(r).Some?)
    ensures NoticesHold(Refresh(r, fetched))
  {
    hide Retained;
  }

  /** The drive has a resolved identity, and drive `i` is the only one with that identity
      and the same secondary facts. */
  predicate FoundAt(before: ProductionDrive, drives: seq<ProductionDrive>, i: nat) {
    && before.identity.state == Resolved && before.identity.id.Some?
    && i < |drives| && SameFacts(before, drives[i])
    && forall j :: 0 <= j < |drives| && SameFacts(before, drives[j]) ==> j == i
  }

  lemma FoundIsMatch(before: ProductionDrive, drives: seq<ProductionDrive>, i: nat)
    ensures SoleMatch(before, drives, i) <==> FoundAt(before, drives, i)
  {
    forall after ensures SameSelection(before, after) <==> before.identity.state == Resolved && before.identity.id.Some? && SameFacts(before, after) {
    }
    hide SameSelection, SameFacts;
  }

  /** The deciding poll selects the drive where it is found, and says that it is lost
      exactly when no drive, or more than one, can be it. */
  lemma LossIsTold(r: Reader, version: nat, next: ProductionSnapshot)
    requires r.version != Some(version) && (next.generation != r.shown.generation || SelectedDrive(r).None?)
    requires next.phase != InventoryPhase && next.scanError.None? && Remembered(r).Some?
    requires NoticesHold(r)
    ensures var told := Refresh(r, Some((version, next)));
      && (forall i: nat :: told.selected == Some(i) <==> FoundAt(Remembered(r).value, next.drives, i))
      && (told.notice == LostDrive <==> !exists i: nat :: FoundAt(Remembered(r).value, next.drives, i))
      && told.anchor.None?
  {
    hide SoleMatch, FoundAt, Refresh;
    var told := Refresh(r, Some((version, next)));
    RefreshDecides(r, version, next);
    forall i: nat ensures told.selected == Some(i) <==> FoundAt(Remembered(r).value, next.drives, i) {
      RetentionIsExact(r, version, next, i);
      FoundIsMatch(Remembered(r).value, next.drives, i);
    }
    if told.selected.Some? {
      assert FoundAt(Remembered(r).value, next.drives, told.selected.value);
    }
  }

  lemma RefreshDecides(r: Reader, version: nat, next: ProductionSnapshot)
    requires r.version != Some(version) && (next.generation != r.shown.generation || SelectedDrive(r).None?)
    requires next.phase != InventoryPhase && next.scanError.None? && Remembered(r).Some?
    requires NoticesHold(r)
    ensures var told := Refresh(r, Some((version, next)));
      told.anchor.None? && (told.notice == LostDrive <==> told.selected.None?)
  {
    hide Retained;
  }

  /** A poll of a failed scan forgets the drive, and says so if one was selected. */
  lemma FailureIsTold(r: Reader, version: nat, next: ProductionSnapshot)
    requires r.version != Some(version) && next.scanError.Some? && next.drives == []
    requires next.generation == r.shown.generation && SelectedDrive(r).Some? && r.anchor.None?
    ensures Refresh(r, Some((version, next))).notice == ScanFailed && Refresh(r, Some((version, next))).selected.None?
  {
    hide Retained;
  }

  /** Picking a listed drive of a snapshot without error selects it, and nothing else
      can be picked. */
  lemma PickSelects(w: World, i: nat)
    requires w.system.log != []
    ensures var v := Move(w, Pick(i));
      if i < |w.reader.shown.drives| && w.reader.shown.scanError.None?
      then v.reader == w.reader.(selected := Some(i), anchor := None, notice := NoNotice) && v.chosen == Some(w.reader.shown.drives[i])
      else v == w
  {
  }

  /** So it is over every interleaving. */
  lemma {:induction false} NoticesAreTrue(available: bool, steps: seq<Step>)
    ensures NoticesHold(Interleaving(available, steps).reader)
  {
    if steps == [] {
      assert Interleaving(available, []) == NewWorld(available);
    } else {
      hide Interleaving, NoticesHold, Move;
      var front, last := steps[..|steps| - 1], steps[|steps| - 1];
      NoticesAreTrue(available, front);
      InterleavingSound(available, front);
      MoveNotices(Interleaving(available, front), last);
      assert Interleaving(available, steps) == Move(Interleaving(available, front), last) by {
        LastMove(available, steps);
      }
    }
  }

  lemma LastMove(available: bool, steps: seq<Step>)
    requires steps != []
    ensures Interleaving(available, steps) == Move(Interleaving(available, steps[..|steps| - 1]), steps[|steps| - 1])
  {
    hide Move;
  }

  lemma MoveNotices(w: World, step: Step)
    requires w.system.log != [] && Sound(w) && NoticesHold(w.reader)
    ensures NoticesHold(Move(w, step).reader)
  {
    hide Orderly, Control, Work, Refresh;
    if step.Poll? {
      hide NoticesHold;
      RefreshNotices(w.reader, Fetch(w.system));
    }
  }
}
