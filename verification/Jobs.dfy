/** The scheduler as the program keeps it: a job list, a lock table and a counter
    updated in place, each method proved against the functions in `Scheduler`. */
module Jobs {
  import opened Text
  import opened Inventory
  import opened Drives
  import opened Scheduler

  class JobManager {
    const config: Config
    var jobs: seq<Job>
    var locks: map<DriveId, JobId>
    var nextId: JobId
    var calls: nat
    ghost var attempts: seq<JobId>

    ghost function View(): State
      reads this
    {
      State(jobs, locks, nextId, calls, attempts)
    }

    constructor (mode: ExecutionMode, maxParallel: nat, observe: nat -> Result<Drive, ErrorCode>)
      ensures View() == EMPTY
      ensures config == Config(mode, if maxParallel < 1 then 1 else maxParallel, observe)
    {
      config := Config(mode, if maxParallel < 1 then 1 else maxParallel, observe);
      jobs, locks, nextId, calls, attempts := [], map[], 1, 0, [];
    }

    method SubmitJob(operation: Operation) returns (result: Result<JobId, ErrorCode>)
      modifies this
      ensures (View(), result) == Submit(config, old(View()), operation)
    {
      var drive := DriveIdOf(operation.target.identity);
      if drive.Failure? {
        return Failure(drive.error);
      }
      var authorization := Authorize(operation.target, operation.safety, config.mode);
      if authorization.Failure? {
        return Failure(authorization.error);
      }
      var id := nextId;
      nextId := nextId + 1;
      var state := if authorization.value.plannedOnly then Planned else Queued;
      jobs := jobs + [Job(id, operation, drive.value, operation.target.currentPath, state, 0, None)];
      if state == Planned {
        return Success(id);
      }
      if !(drive.value in locks || |locks| >= config.maxParallel) {
        var started := StartJob(|jobs| - 1);
      }
      result := Success(id);
    }

    /** Tries to start a job; `started` tells whether it now runs. */
    method StartJob(i: nat) returns (started: bool)
      requires i < |jobs|
      modifies `jobs, `locks, `calls, `attempts
      ensures View() == Start(config, old(View()), i)
      ensures started == (jobs[i].state == Running)
    {
      ghost var before := jobs[i];
      attempts := attempts + [before.id];
      jobs := jobs[i := jobs[i].(state := Starting)];
      var observed := config.observe(calls);
      calls := calls + 1;
      if observed.Failure? {
        jobs := jobs[i := FailJob(jobs[i], observed.error)];
        return false;
      }
      if !SamePhysicalDevice(jobs[i].operation.target.identity, observed.value.identity) {
        jobs := jobs[i := FailJob(jobs[i], IdentityMismatch)];
        return false;
      }
      var authorization := Authorize(observed.value, jobs[i].operation.safety, config.mode);
      if authorization.Failure? {
        jobs := jobs[i := FailJob(jobs[i], authorization.error)];
        return false;
      }
      if !authorization.value.mayExecute {
        jobs := jobs[i := jobs[i].(state := Planned)];
        return false;
      }
      jobs := jobs[i := jobs[i].(observedPath := observed.value.currentPath, state := Running)];
      locks := locks[jobs[i].drive := jobs[i].id];
      started := true;
    }

    method StartEligibleJobs()
      modifies `jobs, `locks, `calls, `attempts
      ensures View() == StartEligible(config, old(View()))
    {
      hide Authorize, SamePhysicalDevice, ReleaseLock, Find;
      var madeProgress := true;
      while madeProgress && |locks| < config.maxParallel
        invariant StartEligible(config, View()) == StartEligible(config, old(View()))
        invariant !madeProgress ==> FirstEligible(View(), 0) == |jobs|
        invariant nextId == old(nextId)
        decreases QueuedCount(jobs), madeProgress
      {
        madeProgress := false;
        ghost var before := View();
        for i := 0 to |jobs|
          invariant !madeProgress && View() == before
          invariant forall j :: 0 <= j < i ==> !Eligible(before, j)
        {
          if jobs[i].state != Queued || jobs[i].drive in locks {
            continue;
          }
          FirstEligibleIs(before, 0, i);
          ghost var started := StartJob(i);
          QueuedCountUpdate(before.jobs, i, jobs[i]);
          madeProgress := true;
          break;
        }
        if !madeProgress {
          FirstEligibleIs(before, 0, |jobs|);
        }
      }
    }

    method Release(job: Job)
      modifies `locks
      ensures View() == ReleaseLock(old(View()), job)
    {
      if job.drive in locks && locks[job.drive] == job.id {
        locks := locks - {job.drive};
      }
    }

    method ReportProgress(id: JobId, progress: int) returns (result: Result<(), ErrorCode>)
      modifies `jobs
      ensures (View(), result) == UpdateProgress(old(View()), id, progress)
    {
      var i := Find(jobs, id);
      if i == |jobs| || !jobs[i].Active() {
        return Failure(InvalidState);
      }
      if progress < 0 || progress > 100 {
        return Failure(InvalidArgument);
      }
      jobs := jobs[i := jobs[i].(progress := progress)];
      result := Success(());
    }

    method CompleteJob(id: JobId) returns (result: Result<(), ErrorCode>)
      modifies this
      ensures (View(), result) == Complete(config, old(View()), id)
    {
      var i := Find(jobs, id);
      if i == |jobs| || !jobs[i].Active() {
        return Failure(InvalidState);
      }
      jobs := jobs[i := jobs[i].(state := Completed, progress := 100)];
      Release(jobs[i]);
      StartEligibleJobs();
      result := Success(());
    }

    method FailRunning(id: JobId, error: ErrorCode) returns (result: Result<(), ErrorCode>)
      modifies this
      ensures (View(), result) == MarkFailed(config, old(View()), id, error)
    {
      var i := Find(jobs, id);
      if i == |jobs| || !(jobs[i].Active() || jobs[i].state == Starting) {
        return Failure(InvalidState);
      }
      Release(jobs[i]);
      jobs := jobs[i := FailJob(jobs[i], error)];
      StartEligibleJobs();
      result := Success(());
    }

    method PauseJob(id: JobId) returns (result: Result<(), ErrorCode>)
      modifies `jobs
      ensures (View(), result) == Pause(old(View()), id)
    {
      var i := Find(jobs, id);
      if i == |jobs| || jobs[i].state != Running || !jobs[i].operation.controls.canPause {
        return Failure(InvalidState);
      }
      jobs := jobs[i := jobs[i].(state := Paused)];
      result := Success(());
    }

    method ResumeJob(id: JobId) returns (result: Result<(), ErrorCode>)
      modifies `jobs
      ensures (View(), result) == Resume(old(View()), id)
    {
      var i := Find(jobs, id);
      if i == |jobs| || jobs[i].state != Paused || !jobs[i].operation.controls.canResume {
        return Failure(InvalidState);
      }
      jobs := jobs[i := jobs[i].(state := Running)];
      result := Success(());
    }

    method CancelJob(id: JobId) returns (result: Result<(), ErrorCode>)
      modifies this
      ensures (View(), result) == Cancel(config, old(View()), id)
    {
      var i := Find(jobs, id);
      if i == |jobs| {
        return Failure(InvalidState);
      }
      if jobs[i].state == Queued {
        jobs := jobs[i := jobs[i].(state := Cancelled)];
        return Success(());
      }
      if jobs[i].Active() && jobs[i].operation.controls.canCancel {
        jobs := jobs[i := jobs[i].(state := Cancelled)];
        Release(jobs[i]);
        StartEligibleJobs();
        return Success(());
      }
      result := Failure(InvalidState);
    }
  }
}
