/** What every run of the scheduler keeps. */
module SchedulerTheorems {
  import opened Text
  import opened Inventory
  import opened Drives
  import opened Scheduler

  /** Jobs are numbered in submission order. */
  ghost predicate Numbered(s: State) {
    && s.nextId == |s.jobs| + 1
    && forall i :: 0 <= i < |s.jobs| ==> s.jobs[i].id == i + 1
  }

  ghost predicate HoldsLock(s: State, i: nat)
    requires i < |s.jobs|
  {
    s.jobs[i].drive in s.locks && s.locks[s.jobs[i].drive] == s.jobs[i].id
  }

  /** A drive is locked by a job exactly when that job is running or paused on it. */
  ghost predicate LocksExact(s: State) {
    && (forall i :: 0 <= i < |s.jobs| ==> ActiveHolds(s, i))
    && (forall d :: d in s.locks ==> LockedByJob(s, d))
  }

  ghost predicate ActiveHolds(s: State, i: nat)
    requires i < |s.jobs|
  {
    s.jobs[i].Active() <==> HoldsLock(s, i)
  }

  /** The lock of `d` belongs to a job for that drive. */
  ghost predicate LockedByJob(s: State, d: DriveId)
    requires d in s.locks
  {
    1 <= s.locks[d] <= |s.jobs| && s.jobs[s.locks[d] - 1].drive == d
  }

  /** Nothing is left half-started, and dry-run never queues. */
  ghost predicate SettledStates(c: Config, s: State) {
    && (forall i :: 0 <= i < |s.jobs| ==> s.jobs[i].state != Starting)
    && (forall i :: 0 <= i < |s.jobs| ==> (s.jobs[i].state == Planned <==> c.mode == DryRun))
  }

  /** The drive of the a-th attempt. */
  ghost function DriveTried(s: State, a: nat): DriveId
    requires a < |s.attempts|
  {
    if 1 <= s.attempts[a] <= |s.jobs| then s.jobs[s.attempts[a] - 1].drive else ""
  }

  /** The a-th and the b-th start attempt were for one drive. */
  ghost predicate SameTarget(s: State, a: nat, b: nat)
    requires a < |s.attempts| && b < |s.attempts|
  {
    DriveTried(s, a) == DriveTried(s, b)
  }

  /** The i-th job waits for the drive of the a-th attempt. */
  ghost predicate WaitsBehind(s: State, a: nat, i: nat)
    requires a < |s.attempts| && i < |s.jobs|
  {
    s.jobs[i].state == Queued && s.jobs[i].drive == DriveTried(s, a)
  }

  /** Jobs were tried in submission order on each drive, and whoever still queues
      for a drive came after everyone tried on it. */
  ghost predicate InOrder(s: State) {
    && (forall a :: 0 <= a < |s.attempts| ==> 1 <= s.attempts[a] <= |s.jobs|)
    && (forall a, b :: 0 <= a < b < |s.attempts| && SameTarget(s, a, b) ==> s.attempts[a] < s.attempts[b])
    && (forall a, i :: 0 <= a < |s.attempts| && 0 <= i < |s.jobs| && WaitsBehind(s, a, i) ==> s.attempts[a] <= i)
  }

  /** No job waits while its drive is free and the limit allows one more. */
  ghost predicate WorkConserving(c: Config, s: State) {
    forall i :: 0 <= i < |s.jobs| && s.jobs[i].state == Queued ==>
      s.jobs[i].drive in s.locks || |s.locks| >= c.maxParallel
  }

  ghost predicate Consistent(c: Config, s: State) {
    Numbered(s) && LocksExact(s) && SettledStates(c, s) && InOrder(s) && |s.locks| <= c.maxParallel
  }

  ghost predicate Invariant(c: Config, s: State) {
    Consistent(c, s) && WorkConserving(c, s)
  }

  /** `t` continues `s`: the same jobs, of which only queued ones may have moved,
      each to running or failed. */
  ghost predicate OnlyStarts(s: State, t: State) {
    && |t.jobs| == |s.jobs| && t.nextId == s.nextId
    && forall i :: 0 <= i < |s.jobs| ==>
      t.jobs[i] == s.jobs[i]
      || (s.jobs[i].state == Queued && t.jobs[i].state in {Running, Failed} && SameJob(s.jobs[i], t.jobs[i]))
  }

  /** One job at two moments. */
  ghost predicate SameJob(a: Job, b: Job) {
    a.id == b.id && a.operation == b.operation && a.drive == b.drive && a.progress == b.progress
  }

  // Finding

  lemma {:induction false} FindAt(jobs: seq<Job>, i: nat, base: nat)
    requires i < |jobs| && forall j :: 0 <= j < |jobs| ==> jobs[j].id == base + j + 1
    ensures Find(jobs, jobs[i].id) == i
  {
    if i > 0 {
      FindAt(jobs[1..], i - 1, base + 1);
    }
  }

  lemma FindNumbered(s: State, i: nat)
    requires Numbered(s) && i < |s.jobs|
    ensures Find(s.jobs, s.jobs[i].id) == i
  {
    FindAt(s.jobs, i, 0);
  }

  // Starting

  /** What a start may change. */
  lemma StartChanges(c: Config, s: State, i: nat)
    requires c.mode != DryRun && i < |s.jobs|
    ensures var t := Start(c, s, i);
      && t.jobs == s.jobs[i := t.jobs[i]] && SameJob(s.jobs[i], t.jobs[i])
      && t.jobs[i].state in {Running, Failed}
      && t.locks == (if t.jobs[i].state == Running then s.locks[s.jobs[i].drive := s.jobs[i].id] else s.locks)
      && t.nextId == s.nextId && t.attempts == s.attempts + [s.jobs[i].id]
  {
    hide SamePhysicalDevice, DriveIdOf;
  }

  lemma StartKeeps(c: Config, s: State, i: nat)
    requires c.mode != DryRun && Consistent(c, s) && i < |s.jobs| && Eligible(s, i) && |s.locks| < c.maxParallel
    requires forall j :: 0 <= j < i && s.jobs[j].state == Queued ==> s.jobs[j].drive != s.jobs[i].drive
    ensures Consistent(c, Start(c, s, i)) && OnlyStarts(s, Start(c, s, i))
    ensures Start(c, s, i).jobs[i].state != Queued
    ensures s.locks.Keys <= Start(c, s, i).locks.Keys
  {
    hide Start, Numbered, LocksExact, SettledStates, InOrder;
    var t := Start(c, s, i);
    StartChanges(c, s, i);
    IdAt(s, i);
    NumberedKept(s, t, i);
    SettledKept(c, s, t, i);
    LocksAfterStart(s, t, i);
    OrderAfterStart(s, t, i);
  }

  lemma IdAt(s: State, i: nat)
    requires Numbered(s) && i < |s.jobs|
    ensures s.jobs[i].id == i + 1
  {
  }

  lemma NumberedKept(s: State, t: State, i: nat)
    requires Numbered(s) && i < |s.jobs| == |t.jobs| && t.jobs == s.jobs[i := t.jobs[i]]
    requires t.jobs[i].id == s.jobs[i].id && t.nextId == s.nextId
    ensures Numbered(t)
  {
  }

  lemma SettledKept(c: Config, s: State, t: State, i: nat)
    requires SettledStates(c, s) && i < |s.jobs| == |t.jobs| && t.jobs == s.jobs[i := t.jobs[i]]
    requires t.jobs[i].state != Starting && (t.jobs[i].state == Planned <==> s.jobs[i].state == Planned)
    ensures SettledStates(c, t)
  {
  }

  lemma OrderAfterStart(s: State, t: State, i: nat)
    requires InOrder(s) && i < |s.jobs| && s.jobs[i].state == Queued
    requires forall j :: 0 <= j < i && s.jobs[j].state == Queued ==> s.jobs[j].drive != s.jobs[i].drive
    requires |t.jobs| == |s.jobs| && t.jobs == s.jobs[i := t.jobs[i]]
    requires t.jobs[i].drive == s.jobs[i].drive && t.jobs[i].state != Queued
    requires t.attempts == s.attempts + [i + 1]
    ensures InOrder(t)
  {
    forall a | 0 <= a < |t.attempts| ensures DriveTried(t, a) == (if a < |s.attempts| then DriveTried(s, a) else s.jobs[i].drive) {
    }
    forall a, b | 0 <= a < b < |t.attempts| && SameTarget(t, a, b) ensures t.attempts[a] < t.attempts[b] {
      if b == |s.attempts| {
        assert WaitsBehind(s, a, i);
      } else {
        assert SameTarget(s, a, b);
      }
    }
    forall a, j | 0 <= a < |t.attempts| && 0 <= j < |t.jobs| && WaitsBehind(t, a, j) ensures t.attempts[a] <= j {
      if a < |s.attempts| {
        assert WaitsBehind(s, a, j);
      }
    }
  }

  /** Order is kept while jobs only leave the queue. */
  lemma OrderKept(s: State, t: State)
    requires InOrder(s) && t.attempts == s.attempts && |t.jobs| >= |s.jobs|
    requires forall i :: 0 <= i < |s.jobs| ==> t.jobs[i].drive == s.jobs[i].drive
    requires forall i :: 0 <= i < |s.jobs| && t.jobs[i].state == Queued ==> s.jobs[i].state == Queued
    ensures InOrder(t)
  {
    forall a | 0 <= a < |t.attempts| ensures DriveTried(t, a) == DriveTried(s, a) {
    }
    forall a, b | 0 <= a < b < |t.attempts| && SameTarget(t, a, b) ensures t.attempts[a] < t.attempts[b] {
      assert SameTarget(s, a, b);
    }
    forall a, j | 0 <= a < |t.attempts| && 0 <= j < |t.jobs| && WaitsBehind(t, a, j) ensures t.attempts[a] <= j {
      if j < |s.jobs| {
        assert WaitsBehind(s, a, j);
      }
    }
  }

  lemma LocksAfterStart(s: State, t: State, i: nat)
    requires Numbered(s) && LocksExact(s) && i < |s.jobs| && s.jobs[i].drive !in s.locks
    requires |t.jobs| == |s.jobs| && t.jobs == s.jobs[i := t.jobs[i]] && SameJob(s.jobs[i], t.jobs[i])
    requires t.jobs[i].state in {Running, Failed}
    requires t.locks == if t.jobs[i].state == Running then s.locks[s.jobs[i].drive := i + 1] else s.locks
    ensures LocksExact(t)
  {
    forall j | 0 <= j < |t.jobs| ensures ActiveHolds(t, j) {
      assert ActiveHolds(s, j) && s.jobs[j].id == j + 1;
    }
    forall d | d in t.locks ensures LockedByJob(t, d) {
      assert d in s.locks ==> LockedByJob(s, d);
    }
  }

  lemma OnlyStartsMore(s: State, t: State, u: State)
    requires OnlyStarts(s, t) && OnlyStarts(t, u)
    ensures OnlyStarts(s, u)
  {
    forall i | 0 <= i < |s.jobs|
      ensures u.jobs[i] == s.jobs[i]
        || (s.jobs[i].state == Queued && u.jobs[i].state in {Running, Failed} && SameJob(s.jobs[i], u.jobs[i]))
    {
      assert t.jobs[i] == s.jobs[i] || SameJob(s.jobs[i], t.jobs[i]);
    }
  }

  lemma {:induction false} StartEligibleKeeps(c: Config, s: State)
    requires c.mode != DryRun && Consistent(c, s)
    ensures Invariant(c, StartEligible(c, s)) && OnlyStarts(s, StartEligible(c, s))
    decreases QueuedCount(s.jobs)
  {
    hide Consistent, OnlyStarts, Started;
    var i := FirstEligible(s, 0);
    if |s.locks| < c.maxParallel && i < |s.jobs| {
      var t := Start(c, s, i);
      forall j | 0 <= j < i && s.jobs[j].state == Queued ensures s.jobs[j].drive != s.jobs[i].drive {
        assert !Eligible(s, j);
      }
      StartKeeps(c, s, i);
      QueuedCountUpdate(s.jobs, i, t.jobs[i]);
      StartEligibleKeeps(c, t);
      OnlyStartsMore(s, t, StartEligible(c, t));
    } else {
      NothingStarts(s);
      forall j | 0 <= j < |s.jobs| && s.jobs[j].state == Queued
        ensures s.jobs[j].drive in s.locks || |s.locks| >= c.maxParallel
      {
        assert i == |s.jobs| ==> !Eligible(s, j);
      }
    }
  }

  lemma NothingStarts(s: State)
    ensures OnlyStarts(s, s)
  {
  }

  // Releasing

  /** Ending an active job frees its drive and nothing else. */
  lemma ReleaseKeeps(c: Config, s: State, i: nat, job: Job)
    requires Consistent(c, s) && i < |s.jobs| && s.jobs[i].Active() && SameDrive(s.jobs[i], job)
    requires job.state in {Completed, Cancelled, Failed}
    ensures c.mode != DryRun && Consistent(c, ReleaseLock(s.(jobs := s.jobs[i := job]), job))
  {
    hide Numbered, LocksExact, SettledStates, InOrder;
    ActiveIsLocked(c, s, i);
    LocksShrink(s.locks, job.drive);
    var t := ReleaseLock(s.(jobs := s.jobs[i := job]), job);
    NumberedKept(s, t, i);
    SettledKept(c, s, t, i);
    LocksAfterRelease(s, t, i);
    OrderKept(s, t);
  }

  lemma ActiveIsLocked(c: Config, s: State, i: nat)
    requires LocksExact(s) && SettledStates(c, s) && i < |s.jobs| && s.jobs[i].Active()
    ensures HoldsLock(s, i) && c.mode != DryRun
  {
    assert ActiveHolds(s, i);
  }

  /** No other job loses or gains a lock. */
  lemma HoldAfterRelease(s: State, t: State, i: nat, j: nat)
    requires i < |s.jobs| && j < |s.jobs| && Numbered(s) && ActiveHolds(s, j) && HoldsLock(s, i)
    requires |t.jobs| == |s.jobs| && t.jobs == s.jobs[i := t.jobs[i]] && !t.jobs[i].Active() && SameDrive(s.jobs[i], t.jobs[i])
    requires t.locks == s.locks - {s.jobs[i].drive}
    ensures ActiveHolds(t, j)
  {
    assert s.jobs[i].id == i + 1 && s.jobs[j].id == j + 1;
  }

  lemma LocksAfterRelease(s: State, t: State, i: nat)
    requires Numbered(s) && LocksExact(s) && i < |s.jobs| && HoldsLock(s, i)
    requires |t.jobs| == |s.jobs| && t.jobs == s.jobs[i := t.jobs[i]] && !t.jobs[i].Active() && SameDrive(s.jobs[i], t.jobs[i])
    requires t.locks == s.locks - {s.jobs[i].drive}
    ensures LocksExact(t)
  {
    hide ActiveHolds, Numbered;
    forall j | 0 <= j < |t.jobs| ensures ActiveHolds(t, j) {
      HoldAfterRelease(s, t, i, j);
    }
    forall d | d in t.locks ensures LockedByJob(t, d) {
      assert LockedByJob(s, d);
    }
  }

  lemma LocksUnmoved(s: State, t: State)
    requires LocksExact(s) && t.locks == s.locks && |t.jobs| >= |s.jobs|
    requires forall j :: 0 <= j < |s.jobs| ==> SameDrive(s.jobs[j], t.jobs[j]) && t.jobs[j].Active() == s.jobs[j].Active()
    requires forall j :: |s.jobs| <= j < |t.jobs| ==> !t.jobs[j].Active() && t.jobs[j].id > |s.jobs|
    ensures LocksExact(t)
  {
    forall d | d in t.locks ensures LockedByJob(t, d) {
      assert LockedByJob(s, d);
    }
    forall j | 0 <= j < |t.jobs| ensures ActiveHolds(t, j) {
      if j < |s.jobs| {
        assert ActiveHolds(s, j);
      } else {
        assert t.jobs[j].drive in s.locks ==> LockedByJob(s, t.jobs[j].drive);
      }
    }
  }

  ghost predicate SameDrive(a: Job, b: Job) {
    a.id == b.id && a.drive == b.drive
  }

  lemma LocksShrink(locks: map<DriveId, JobId>, d: DriveId)
    requires d in locks
    ensures |locks - {d}| == |locks| - 1
  {
    assert (locks - {d}).Keys == locks.Keys - {d};
    assert |locks| == |locks.Keys| && |locks - {d}| == |(locks - {d}).Keys|;
  }

  /** Changing one job's state or progress without touching its hold on the drive. */
  lemma AmendKeeps(c: Config, s: State, i: nat, job: Job)
    requires Invariant(c, s) && i < |s.jobs| && SameDrive(s.jobs[i], job)
    requires job.Active() == s.jobs[i].Active() && job.state != Queued && job.state != Starting
    requires (job.state == Planned) == (s.jobs[i].state == Planned)
    ensures Invariant(c, s.(jobs := s.jobs[i := job]))
  {
    hide Numbered, LocksExact, SettledStates, InOrder;
    var t := s.(jobs := s.jobs[i := job]);
    NumberedKept(s, t, i);
    SettledKept(c, s, t, i);
    LocksUnmoved(s, t);
    OrderKept(s, t);
  }

  // Each call

  lemma SubmitKeeps(c: Config, s: State, operation: Operation)
    requires c.maxParallel >= 1 && Invariant(c, s)
    ensures Invariant(c, Submit(c, s, operation).0)
  {
    hide Consistent, DriveIdOf, Start;
    AuthorizedMode(operation.target, operation.safety, c.mode);
    hide Authorize;
    var drive := DriveIdOf(operation.target.identity);
    var authorization := Authorize(operation.target, operation.safety, c.mode);
    if drive.Success? && authorization.Success? {
      var state := if authorization.value.plannedOnly then Planned else Queued;
      var job := Job(s.nextId, operation, drive.value, operation.target.currentPath, state, 0, None);
      AppendKeeps(c, s, job);
      AppendedKeeps(c, s, job);
    }
  }

  /** Only a dry run plans without executing. */
  lemma AuthorizedMode(drive: Drive, safety: SafetyClass, mode: ExecutionMode)
    ensures Authorize(drive, safety, mode).Success? ==> (Authorize(drive, safety, mode).value.plannedOnly <==> mode == DryRun)
  {
  }

  /** The appended job is started at once if its drive is free and the limit allows. */
  lemma AppendedKeeps(c: Config, s: State, job: Job)
    requires var t := s.(jobs := s.jobs + [job], nextId := s.nextId + 1);
      Consistent(c, t) && job.state == if c.mode == DryRun then Planned else Queued
    requires c.maxParallel >= 1 && WorkConserving(c, s)
    ensures var t := s.(jobs := s.jobs + [job], nextId := s.nextId + 1);
      Invariant(c, if job.state == Planned || job.drive in t.locks || |t.locks| >= c.maxParallel then t else Start(c, t, |s.jobs|))
  {
    hide Consistent;
    var t := s.(jobs := s.jobs + [job], nextId := s.nextId + 1);
    forall i | 0 <= i < |s.jobs| ensures t.jobs[i] == s.jobs[i] {
    }
    if job.state == Queued && job.drive !in t.locks && |t.locks| < c.maxParallel {
      forall i | 0 <= i < |s.jobs| && s.jobs[i].state == Queued ensures s.jobs[i].drive in s.locks {
      }
      StartKeeps(c, t, |s.jobs|);
    }
  }

  lemma AppendKeeps(c: Config, s: State, job: Job)
    requires Invariant(c, s) && job.id == s.nextId
    requires job.state == if c.mode == DryRun then Planned else Queued
    ensures var t := s.(jobs := s.jobs + [job], nextId := s.nextId + 1);
      && Consistent(c, t)
      && (forall i :: 0 <= i < |s.jobs| && s.jobs[i].state == Queued ==> s.jobs[i].drive in s.locks || |s.locks| >= c.maxParallel)
  {
    hide InOrder;
    hide LocksExact;
    var t := s.(jobs := s.jobs + [job], nextId := s.nextId + 1);
    LocksUnmoved(s, t);
    OrderKept(s, t);
  }

  lemma EndKeeps(c: Config, s: State, i: nat, job: Job)
    requires Invariant(c, s) && i < |s.jobs| && s.jobs[i].Active() && SameDrive(s.jobs[i], job)
    requires job.state in {Completed, Cancelled, Failed}
    ensures var t := StartEligible(c, ReleaseLock(s.(jobs := s.jobs[i := job]), job));
      Invariant(c, t) && OnlyStarts(s.(jobs := s.jobs[i := job]), t)
  {
    hide Consistent, StartEligible, ReleaseLock, OnlyStarts;
    var released := ReleaseLock(s.(jobs := s.jobs[i := job]), job);
    ReleaseKeeps(c, s, i, job);
    StartEligibleKeeps(c, released);
    ReleasedStarts(s.(jobs := s.jobs[i := job]), job, StartEligible(c, released));
  }

  lemma ReleasedStarts(s: State, job: Job, t: State)
    requires OnlyStarts(ReleaseLock(s, job), t)
    ensures OnlyStarts(s, t)
  {
  }

  lemma StepKeeps(c: Config, s: State, call: Call)
    requires c.maxParallel >= 1 && Invariant(c, s)
    ensures Invariant(c, Step(c, s, call))
  {
    hide Invariant;
    hide StartEligible;
    hide ReleaseLock;
    hide Submit;
    match call
    case CallSubmit(operation) =>
      SubmitKeeps(c, s, operation);
    case CallProgress(id, progress) =>
      var i := Find(s.jobs, id);
      if i < |s.jobs| && s.jobs[i].Active() {
        AmendKeeps(c, s, i, s.jobs[i].(progress := progress));
      }
    case CallComplete(id) =>
      var i := Find(s.jobs, id);
      if i < |s.jobs| && s.jobs[i].Active() {
        EndKeeps(c, s, i, s.jobs[i].(state := Completed, progress := 100));
      }
    case CallFail(id, error) =>
      var i := Find(s.jobs, id);
      if i < |s.jobs| {
        NotStarting(c, s, i);
        if s.jobs[i].Active() {
          EndKeeps(c, s, i, FailJob(s.jobs[i], error));
        }
      }
    case CallPause(id) =>
      var i := Find(s.jobs, id);
      if i < |s.jobs| && s.jobs[i].state == Running {
        AmendKeeps(c, s, i, s.jobs[i].(state := Paused));
      }
    case CallResume(id) =>
      var i := Find(s.jobs, id);
      if i < |s.jobs| && s.jobs[i].state == Paused {
        AmendKeeps(c, s, i, s.jobs[i].(state := Running));
      }
    case CallCancel(id) =>
      var i := Find(s.jobs, id);
      if i < |s.jobs| {
        var job := s.jobs[i].(state := Cancelled);
        if s.jobs[i].state == Queued {
          AmendKeeps(c, s, i, job);
        } else if s.jobs[i].Active() {
          EndKeeps(c, s, i, job);
        }
      }
  }

  lemma NotStarting(c: Config, s: State, i: nat)
    requires Invariant(c, s) && i < |s.jobs|
    ensures s.jobs[i].state != Starting
  {
  }

  /** The invariant holds after every sequence of calls. */
  lemma {:induction false} RunKeeps(c: Config, calls: seq<Call>)
    requires c.maxParallel >= 1
    ensures Invariant(c, Run(c, calls))
  {
    if calls != [] {
      RunKeeps(c, calls[..|calls| - 1]);
      StepKeeps(c, Run(c, calls[..|calls| - 1]), calls[|calls| - 1]);
    }
  }

  // What that means

  predicate LockedBy(s: State, d: DriveId, id: JobId) {
    d in s.locks && s.locks[d] == id
  }

  /** The i-th job is running or paused on drive `d`. */
  predicate ActiveOn(s: State, i: nat, d: DriveId)
    requires i < |s.jobs|
  {
    s.jobs[i].Active() && s.jobs[i].drive == d
  }

  /** The i-th job is the active job `id` on drive `d`. */
  predicate Occupies(s: State, i: nat, d: DriveId, id: JobId)
    requires i < |s.jobs|
  {
    s.jobs[i].id == id && ActiveOn(s, i, d)
  }

  lemma LockMeans(s: State, d: DriveId, id: JobId)
    requires Numbered(s) && LocksExact(s)
    ensures LockedBy(s, d, id) <==> exists i :: 0 <= i < |s.jobs| && Occupies(s, i, d, id)
  {
    if LockedBy(s, d, id) {
      assert LockedByJob(s, d) && ActiveHolds(s, id - 1);
      assert Occupies(s, id - 1, d, id);
    }
    if i :| 0 <= i < |s.jobs| && Occupies(s, i, d, id) {
      assert ActiveHolds(s, i);
    }
  }

  lemma OneActive(s: State, i: nat, j: nat, d: DriveId)
    requires Numbered(s) && LocksExact(s) && i < |s.jobs| && j < |s.jobs| && ActiveOn(s, i, d) && ActiveOn(s, j, d)
    ensures i == j
  {
    assert ActiveHolds(s, i) && ActiveHolds(s, j);
  }

  /** Over any run: a drive is locked by exactly its one running or paused job, the
      number of locked drives respects the limit, and no two active jobs share a drive. */
  lemma LocksAreExact(c: Config, calls: seq<Call>)
    requires c.maxParallel >= 1
    ensures var s := Run(c, calls);
      && (forall d, id :: LockedBy(s, d, id) <==> exists i :: 0 <= i < |s.jobs| && Occupies(s, i, d, id))
      && (forall i, j, d :: 0 <= i < |s.jobs| && 0 <= j < |s.jobs| && ActiveOn(s, i, d) && ActiveOn(s, j, d) ==> i == j)
      && |s.locks| <= c.maxParallel
  {
    hide Run, Numbered, LocksExact, InOrder, WorkConserving, LockedBy, Occupies, ActiveOn;
    RunKeeps(c, calls);
    var s := Run(c, calls);
    forall d, id ensures LockedBy(s, d, id) <==> exists i :: 0 <= i < |s.jobs| && Occupies(s, i, d, id) {
      LockMeans(s, d, id);
    }
    forall i, j, d | 0 <= i < |s.jobs| && 0 <= j < |s.jobs| && ActiveOn(s, i, d) && ActiveOn(s, j, d) ensures i == j {
      OneActive(s, i, j, d);
    }
  }

  /** Over any run, after every call: each queued job waits for its drive or for the limit. */
  lemma WorkIsConserved(c: Config, calls: seq<Call>, i: nat)
    requires c.maxParallel >= 1 && i < |Run(c, calls).jobs|
    requires Run(c, calls).jobs[i].state == Queued
    ensures var s := Run(c, calls); s.jobs[i].drive in s.locks || |s.locks| == c.maxParallel
  {
    hide Run;
    RunKeeps(c, calls);
  }

  /** Over any run: starts are tried in submission order on each drive, never twice
      for one job, and a job still queued for a drive came after every job tried on
      it. So when a start is tried, no earlier job for that drive is queued: it
      would be queued still, or be tried later and out of order. */
  lemma NoOvertaking(c: Config, calls: seq<Call>)
    requires c.maxParallel >= 1
    ensures var s := Run(c, calls);
      && (forall a :: 0 <= a < |s.attempts| ==> 1 <= s.attempts[a] <= |s.jobs|)
      && (forall a, b :: 0 <= a < b < |s.attempts| && SameTarget(s, a, b) ==> s.attempts[a] < s.attempts[b])
      && (forall a, i :: 0 <= a < |s.attempts| && 0 <= i < |s.jobs| && WaitsBehind(s, a, i) ==> s.attempts[a] < s.jobs[i].id)
  {
    hide Run;
    RunKeeps(c, calls);
  }

  /** In dry-run mode every job stays planned, no drive is ever locked and the
      inventory is never asked. */
  lemma {:induction false} DryRunOnlyPlans(c: Config, calls: seq<Call>)
    requires c.mode == DryRun
    ensures OnlyPlanned(Run(c, calls))
  {
    hide Step;
    if calls != [] {
      DryRunOnlyPlans(c, calls[..|calls| - 1]);
      StepOnlyPlans(c, Run(c, calls[..|calls| - 1]), calls[|calls| - 1]);
    }
  }

  predicate OnlyPlanned(s: State) {
    (forall i :: 0 <= i < |s.jobs| ==> s.jobs[i].state == Planned) && s.locks == map[] && s.attempts == [] && s.calls == 0
  }

  lemma StepOnlyPlans(c: Config, s: State, call: Call)
    requires c.mode == DryRun && OnlyPlanned(s)
    ensures OnlyPlanned(Step(c, s, call))
  {
    hide StartEligible, Start, DriveIdOf, ReleaseLock;
    if call.CallSubmit? {
      AuthorizedMode(call.operation.target, call.operation.safety, c.mode);
    }
    hide Authorize;
  }
}
