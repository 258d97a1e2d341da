/** The job scheduler as functions on its state: what each call does to the job
    list and the drive locks. */
module Scheduler {
  import opened Text
  import opened Inventory
  import opened Drives

  type JobId = nat

  datatype JobState = Planned | Queued | Starting | Running | Paused | Completed | Cancelled | Failed

  datatype Job = Job(
    id: JobId,
    operation: Operation,
    drive: DriveId,
    observedPath: string,
    state: JobState,
    progress: int,
    failure: Option<ErrorCode>)
  {
    /** Holding its drive. */
    predicate Active() {
      state == Running || state == Paused
    }
  }

  /** The scheduler's fixed parameters. `observe(n)` is the inventory's answer to
      the n-th request to resolve a drive; nothing is assumed of it. */
  datatype Config = Config(mode: ExecutionMode, maxParallel: nat, observe: nat -> Result<Drive, ErrorCode>)

  /** `calls` counts inventory requests; `attempts` lists the jobs whose start was
      tried, in order. Neither influences the scheduler. */
  datatype State = State(
    jobs: seq<Job>,
    locks: map<DriveId, JobId>,
    nextId: JobId,
    calls: nat,
    attempts: seq<JobId>)

  const EMPTY := State([], map[], 1, 0, [])

  /** The index of the first job with this id, or the number of jobs. */
  function Find(jobs: seq<Job>, id: JobId): (i: nat)
    ensures i <= |jobs|
    ensures i < |jobs| ==> jobs[i].id == id
    ensures forall j :: 0 <= j < i ==> jobs[j].id != id
  {
    if jobs == [] || jobs[0].id == id then 0 else 1 + Find(jobs[1..], id)
  }

  predicate Eligible(s: State, i: nat)
    requires i < |s.jobs|
  {
    s.jobs[i].state == Queued && s.jobs[i].drive !in s.locks
  }

  /** The first queued job, from `i` on, whose drive is free, or the number of jobs. */
  function FirstEligible(s: State, i: nat): (k: nat)
    requires i <= |s.jobs|
    ensures i <= k <= |s.jobs|
    ensures k < |s.jobs| ==> Eligible(s, k)
    ensures forall j :: i <= j < k ==> !Eligible(s, j)
    decreases |s.jobs| - i
  {
    if i == |s.jobs| || Eligible(s, i) then i else FirstEligible(s, i + 1)
  }

  /** The loop's search: the first eligible index is the one it stops at. */
  lemma {:induction false} FirstEligibleIs(s: State, from: nat, i: nat)
    requires from <= i <= |s.jobs|
    requires forall j :: from <= j < i ==> !Eligible(s, j)
    requires i < |s.jobs| ==> Eligible(s, i)
    ensures FirstEligible(s, from) == i
    decreases i - from
  {
    if from < i {
      FirstEligibleIs(s, from + 1, i);
    }
  }

  function FailJob(job: Job, error: ErrorCode): Job {
    job.(state := Failed, failure := Some(error))
  }

  /** What becomes of a job whose start is tried and answered by `observed`. */
  function Started(c: Config, job: Job, observed: Result<Drive, ErrorCode>): Job {
    if observed.Failure? then FailJob(job, observed.error)
    else if !SamePhysicalDevice(job.operation.target.identity, observed.value.identity) then FailJob(job, IdentityMismatch)
    else
      var authorization := Authorize(observed.value, job.operation.safety, c.mode);
      if authorization.Failure? then FailJob(job, authorization.error)
      else if !authorization.value.mayExecute then job.(state := Planned)
      else job.(state := Running, observedPath := observed.value.currentPath)
  }

  function Start(c: Config, s: State, i: nat): State
    requires i < |s.jobs|
  {
    var job := Started(c, s.jobs[i], c.observe(s.calls));
    s.(jobs := s.jobs[i := job],
       locks := if job.state == Running then s.locks[job.drive := job.id] else s.locks,
       calls := s.calls + 1,
       attempts := s.attempts + [s.jobs[i].id])
  }

  function QueuedCount(jobs: seq<Job>): nat {
    if jobs == [] then 0 else (if jobs[0].state == Queued then 1 else 0) + QueuedCount(jobs[1..])
  }

  lemma {:induction false} QueuedCountUpdate(jobs: seq<Job>, i: nat, job: Job)
    requires i < |jobs| && jobs[i].state == Queued && job.state != Queued
    ensures QueuedCount(jobs[i := job]) == QueuedCount(jobs) - 1
  {
    if i > 0 {
      assert jobs[i := job][1..] == jobs[1..][i - 1 := job];
      QueuedCountUpdate(jobs[1..], i - 1, job);
    } else {
      assert jobs[i := job][1..] == jobs[1..];
    }
  }

  /** Starts queued jobs on free drives, first come first, until none is left or
      the limit is reached. Every pass takes one job out of the queue, started or
      not, so it ends. */
  function StartEligible(c: Config, s: State): State
    decreases QueuedCount(s.jobs)
  {
    var i := FirstEligible(s, 0);
    if |s.locks| >= c.maxParallel || i == |s.jobs| then s
    else
      var next := Start(c, s, i);
      QueuedCountUpdate(s.jobs, i, next.jobs[i]);
      StartEligible(c, next)
  }

  function ReleaseLock(s: State, job: Job): State {
    if job.drive in s.locks && s.locks[job.drive] == job.id then s.(locks := s.locks - {job.drive}) else s
  }

  // Public calls: each gives the new state and a result

  function Submit(c: Config, s: State, operation: Operation): (State, Result<JobId, ErrorCode>) {
    var drive := DriveIdOf(operation.target.identity);
    if drive.Failure? then (s, Failure(drive.error))
    else
      var authorization := Authorize(operation.target, operation.safety, c.mode);
      if authorization.Failure? then (s, Failure(authorization.error))
      else
        var state := if authorization.value.plannedOnly then Planned else Queued;
        var job := Job(s.nextId, operation, drive.value, operation.target.currentPath, state, 0, None);
        var t := s.(jobs := s.jobs + [job], nextId := s.nextId + 1);
        var u := if state == Planned || job.drive in t.locks || |t.locks| >= c.maxParallel then t
                 else Start(c, t, |s.jobs|);
        (u, Success(job.id))
  }

  function UpdateProgress(s: State, id: JobId, progress: int): (State, Result<(), ErrorCode>) {
    var i := Find(s.jobs, id);
    if i == |s.jobs| || !s.jobs[i].Active() then (s, Failure(InvalidState))
    else if progress < 0 || progress > 100 then (s, Failure(InvalidArgument))
    else (s.(jobs := s.jobs[i := s.jobs[i].(progress := progress)]), Success(()))
  }

  function Complete(c: Config, s: State, id: JobId): (State, Result<(), ErrorCode>) {
    var i := Find(s.jobs, id);
    if i == |s.jobs| || !s.jobs[i].Active() then (s, Failure(InvalidState))
    else
      var job := s.jobs[i].(state := Completed, progress := 100);
      (StartEligible(c, ReleaseLock(s.(jobs := s.jobs[i := job]), job)), Success(()))
  }

  function MarkFailed(c: Config, s: State, id: JobId, error: ErrorCode): (State, Result<(), ErrorCode>) {
    var i := Find(s.jobs, id);
    if i == |s.jobs| || !(s.jobs[i].Active() || s.jobs[i].state == Starting) then (s, Failure(InvalidState))
    else
      var job := FailJob(s.jobs[i], error);
      (StartEligible(c, ReleaseLock(s.(jobs := s.jobs[i := job]), job)), Success(()))
  }

  function Pause(s: State, id: JobId): (State, Result<(), ErrorCode>) {
    var i := Find(s.jobs, id);
    if i == |s.jobs| || s.jobs[i].state != Running || !s.jobs[i].operation.controls.canPause then (s, Failure(InvalidState))
    else (s.(jobs := s.jobs[i := s.jobs[i].(state := Paused)]), Success(()))
  }

  function Resume(s: State, id: JobId): (State, Result<(), ErrorCode>) {
    var i := Find(s.jobs, id);
    if i == |s.jobs| || s.jobs[i].state != Paused || !s.jobs[i].operation.controls.canResume then (s, Failure(InvalidState))
    else (s.(jobs := s.jobs[i := s.jobs[i].(state := Running)]), Success(()))
  }

  function Cancel(c: Config, s: State, id: JobId): (State, Result<(), ErrorCode>) {
    var i := Find(s.jobs, id);
    if i == |s.jobs| then (s, Failure(InvalidState))
    else if s.jobs[i].state == Queued then
      (s.(jobs := s.jobs[i := s.jobs[i].(state := Cancelled)]), Success(()))
    else if s.jobs[i].Active() && s.jobs[i].operation.controls.canCancel then
      var job := s.jobs[i].(state := Cancelled);
      (StartEligible(c, ReleaseLock(s.(jobs := s.jobs[i := job]), job)), Success(()))
    else (s, Failure(InvalidState))
  }

  // Runs

  datatype Call =
    | CallSubmit(operation: Operation)
    | CallProgress(id: JobId, progress: int)
    | CallComplete(id: JobId)
    | CallFail(id: JobId, error: ErrorCode)
    | CallPause(id: JobId)
    | CallResume(id: JobId)
    | CallCancel(id: JobId)

  function Step(c: Config, s: State, call: Call): State {
    match call
    case CallSubmit(operation) => Submit(c, s, operation).0
    case CallProgress(id, progress) => UpdateProgress(s, id, progress).0
    case CallComplete(id) => Complete(c, s, id).0
    case CallFail(id, error) => MarkFailed(c, s, id, error).0
    case CallPause(id) => Pause(s, id).0
    case CallResume(id) => Resume(s, id).0
    case CallCancel(id) => Cancel(c, s, id).0
  }

  /** The state after a sequence of calls to a new scheduler. */
  function Run(c: Config, calls: seq<Call>): State {
    if calls == [] then EMPTY else Step(c, Run(c, calls[..|calls| - 1]), calls[|calls| - 1])
  }
}
