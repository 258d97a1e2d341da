/** No job is kept or runs that the safety policy does not allow. */
module SchedulerSafety {
  import opened Text
  import opened Inventory
  import opened Drives
  import opened Scheduler

  predicate Harmful(safety: SafetyClass) {
    safety == Destructive || safety == Irreversible
  }

  /** The drive may be used so: it is identified; it is neither protected nor of
      unknown ownership, unless only its status is read; and nothing real destroys. */
  predicate Allowed(drive: Drive, safety: SafetyClass, mode: ExecutionMode) {
    && DriveIdOf(drive.identity).Success?
    && (safety == StatusOnly || (drive.status !in {Protected, Unknown} && drive.protectionReasons == []))
    && (mode == Real ==> !Harmful(safety))
  }

  /** The policy authorizes exactly what is allowed. A dry run only plans it, a
      simulation pretends to do it. */
  lemma AuthorizeIs(drive: Drive, safety: SafetyClass, mode: ExecutionMode)
    ensures Authorize(drive, safety, mode).Success? <==> Allowed(drive, safety, mode)
    ensures Authorize(drive, safety, mode).Success? ==>
      && (Authorize(drive, safety, mode).value.mayExecute <==> mode != DryRun)
      && (Authorize(drive, safety, mode).value.plannedOnly <==> mode == DryRun)
      && (Authorize(drive, safety, mode).value.simulated <==> mode == Demo)
  {
  }

  /** The n-th answer of the inventory showed the job's own drive, there and then
      usable for the job, at the path the job keeps. */
  predicate Observed(c: Config, job: Job, n: nat) {
    && c.observe(n).Success?
    && SamePhysicalDevice(job.operation.target.identity, c.observe(n).value.identity)
    && Allowed(c.observe(n).value, job.operation.safety, c.mode)
    && job.observedPath == c.observe(n).value.currentPath
  }

  predicate HasRun(job: Job) {
    job.state == Running || job.state == Paused || job.state == Completed
  }

  /** A job that was allowed when submitted and, if it ran, was observed before. */
  ghost predicate Vetted(c: Config, job: Job, calls: nat) {
    && Allowed(job.operation.target, job.operation.safety, c.mode)
    && DriveIdOf(job.operation.target.identity) == Success(job.drive)
    && (HasRun(job) ==> c.mode != DryRun && exists n :: 0 <= n < calls && Observed(c, job, n))
  }

  ghost predicate AllVetted(c: Config, s: State) {
    forall i :: 0 <= i < |s.jobs| ==> Vetted(c, s.jobs[i], s.calls)
  }

  lemma StartVetted(c: Config, s: State, i: nat)
    requires AllVetted(c, s) && i < |s.jobs| && !HasRun(s.jobs[i])
    ensures AllVetted(c, Start(c, s, i))
  {
    hide SamePhysicalDevice, Allowed;
    var t := Start(c, s, i);
    StartedVetted(c, s.jobs[i], s.calls);
    hide Started, Observed;
    forall j | 0 <= j < |t.jobs| ensures Vetted(c, t.jobs[j], t.calls) {
      assert Vetted(c, s.jobs[j], s.calls);
    }
  }

  lemma StartedVetted(c: Config, job: Job, n: nat)
    requires Vetted(c, job, n) && !HasRun(job)
    ensures Vetted(c, Started(c, job, c.observe(n)), n + 1)
  {
    hide SamePhysicalDevice, DriveIdOf;
    var after := Started(c, job, c.observe(n));
    if c.observe(n).Success? {
      AuthorizeIs(c.observe(n).value, job.operation.safety, c.mode);
    }
    hide Authorize, Allowed;
    if HasRun(after) {
      assert Observed(c, after, n);
    }
  }

  lemma {:induction false} StartEligibleVetted(c: Config, s: State)
    requires AllVetted(c, s)
    ensures AllVetted(c, StartEligible(c, s))
    decreases QueuedCount(s.jobs)
  {
    hide AllVetted;
    var i := FirstEligible(s, 0);
    if |s.locks| < c.maxParallel && i < |s.jobs| {
      StartVetted(c, s, i);
      QueuedCountUpdate(s.jobs, i, Start(c, s, i).jobs[i]);
      StartEligibleVetted(c, Start(c, s, i));
    }
  }

  /** A change of state or progress that does not make a job one that ran. */
  lemma AmendVetted(c: Config, s: State, i: nat, job: Job)
    requires AllVetted(c, s) && i < |s.jobs|
    requires job.operation == s.jobs[i].operation && job.drive == s.jobs[i].drive && job.observedPath == s.jobs[i].observedPath
    requires HasRun(job) ==> HasRun(s.jobs[i])
    ensures AllVetted(c, s.(jobs := s.jobs[i := job]))
  {
    hide Allowed, SamePhysicalDevice;
    assert Vetted(c, s.jobs[i], s.calls);
    if HasRun(job) {
      var n :| 0 <= n < s.calls && Observed(c, s.jobs[i], n);
      assert Observed(c, job, n);
    }
  }

  lemma EndVetted(c: Config, s: State, i: nat, job: Job)
    requires AllVetted(c, s) && i < |s.jobs|
    requires job.operation == s.jobs[i].operation && job.drive == s.jobs[i].drive && job.observedPath == s.jobs[i].observedPath
    requires HasRun(job) ==> HasRun(s.jobs[i])
    ensures AllVetted(c, StartEligible(c, ReleaseLock(s.(jobs := s.jobs[i := job]), job)))
  {
    AmendVetted(c, s, i, job);
    hide StartEligible, Vetted;
    StartEligibleVetted(c, ReleaseLock(s.(jobs := s.jobs[i := job]), job));
  }

  lemma SubmitVetted(c: Config, s: State, operation: Operation)
    requires AllVetted(c, s)
    ensures AllVetted(c, Submit(c, s, operation).0)
  {
    hide Start;
    AuthorizeIs(operation.target, operation.safety, c.mode);
    hide Authorize, Allowed;
    var drive := DriveIdOf(operation.target.identity);
    var authorization := Authorize(operation.target, operation.safety, c.mode);
    if drive.Success? && authorization.Success? {
      var state := if authorization.value.plannedOnly then Planned else Queued;
      var job := Job(s.nextId, operation, drive.value, operation.target.currentPath, state, 0, None);
      var t := s.(jobs := s.jobs + [job], nextId := s.nextId + 1);
      assert Vetted(c, job, s.calls);
      StartVetted(c, t, |s.jobs|);
    }
  }

  lemma StepVetted(c: Config, s: State, call: Call)
    requires AllVetted(c, s)
    ensures AllVetted(c, Step(c, s, call))
  {
    hide AllVetted, StartEligible, ReleaseLock, Submit;
    match call
    case CallSubmit(operation) => SubmitVetted(c, s, operation);
    case CallProgress(id, progress) =>
      var i := Find(s.jobs, id);
      if i < |s.jobs| {
        AmendVetted(c, s, i, s.jobs[i].(progress := progress));
      }
    case CallComplete(id) =>
      var i := Find(s.jobs, id);
      if i < |s.jobs| && s.jobs[i].Active() {
        EndVetted(c, s, i, s.jobs[i].(state := Completed, progress := 100));
      }
    case CallFail(id, error) =>
      var i := Find(s.jobs, id);
      if i < |s.jobs| {
        EndVetted(c, s, i, FailJob(s.jobs[i], error));
      }
    case CallPause(id) =>
      var i := Find(s.jobs, id);
      if i < |s.jobs| && s.jobs[i].state == Running {
        AmendVetted(c, s, i, s.jobs[i].(state := Paused));
      }
    case CallResume(id) =>
      var i := Find(s.jobs, id);
      if i < |s.jobs| && s.jobs[i].state == Paused {
        AmendVetted(c, s, i, s.jobs[i].(state := Running));
      }
    case CallCancel(id) =>
      var i := Find(s.jobs, id);
      if i < |s.jobs| {
        AmendVetted(c, s, i, s.jobs[i].(state := Cancelled));
        EndVetted(c, s, i, s.jobs[i].(state := Cancelled));
      }
  }

  /** Over any sequence of calls: every job was allowed on the drive it was submitted
      for; and every job that ran did so after the inventory showed that very drive,
      usable for it then too, at the path the job keeps. So in a real session no
      destructive job is ever accepted, and none starts on a drive that has become
      protected or unknown. */
  lemma {:induction false} OnlyVettedJobsRun(c: Config, calls: seq<Call>)
    ensures AllVetted(c, Run(c, calls))
  {
    hide AllVetted, Step;
    if calls != [] {
      OnlyVettedJobsRun(c, calls[..|calls| - 1]);
      StepVetted(c, Run(c, calls[..|calls| - 1]), calls[|calls| - 1]);
    } else {
      NoneVetted(c);
    }
  }

  lemma NoneVetted(c: Config)
    ensures AllVetted(c, EMPTY)
  {
  }
}
