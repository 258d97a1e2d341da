/** The simulated session as functions on its state: what a workflow command, a
    job control and the passing of time do to the scheduler and to the progress
    shown for the last self-test and the last benchmark. */
module Demo {
  import opened Text
  import opened Inventory
  import opened Drives
  import opened Scheduler

  /** Milliseconds per tick. */
  const TICK: int := 500

  /** The progress of the job a feature shows. */
  datatype Tracked = Tracked(job: Option<JobId>, state: JobState, progress: int, path: string)

  const UNTRACKED := Tracked(None, Planned, 0, "")

  datatype Session = Session(scheduler: State, smart: Tracked, benchmark: Tracked, remainder: int)

  const NEW_SESSION := Session(EMPTY, UNTRACKED, UNTRACKED, 0)

  datatype Feature = Smart | Benchmark | OtherFeature

  // One tick

  /** The self-test will report the failing drive. */
  predicate Doomed(job: Job) {
    job.operation.target.status == Failing && IsHealthOperation(job.operation.kind)
  }

  function NextProgress(job: Job): int {
    if job.progress + 2 < 100 then job.progress + 2 else 100
  }

  function TickJob(c: Config, s: State, id: JobId): State {
    var i := Find(s.jobs, id);
    if i == |s.jobs| || s.jobs[i].state != Running then s
    else
      var progress := NextProgress(s.jobs[i]);
      if Doomed(s.jobs[i]) && progress >= 20 then
        var updated := UpdateProgress(s, id, progress);
        if updated.1.Failure? then updated.0 else MarkFailed(c, updated.0, id, ProcessFailure).0
      else if progress == 100 then Complete(c, s, id).0
      else UpdateProgress(s, id, progress).0
  }

  function TickAll(c: Config, s: State, ids: seq<JobId>): State
    decreases |ids|
  {
    if ids == [] then s else TickAll(c, TickJob(c, s, ids[0]), ids[1..])
  }

  function RunningIds(jobs: seq<Job>): seq<JobId> {
    if jobs == [] then []
    else
      var last := jobs[|jobs| - 1];
      RunningIds(jobs[..|jobs| - 1]) + if last.state == Running then [last.id] else []
  }

  function StateTable(jobs: seq<Job>): map<JobId, JobState> {
    if jobs == [] then map[]
    else
      var last := jobs[|jobs| - 1];
      StateTable(jobs[..|jobs| - 1])[last.id := last.state]
  }

  /** The progress of each job that left the queue is reported again, from the i-th job on. */
  function Announce(s: State, before: map<JobId, JobState>, i: nat): State
    requires i <= |s.jobs|
    decreases |s.jobs| - i
  {
    if i == |s.jobs| then s else Announce(AnnounceJob(s, before, i), before, i + 1)
  }

  function AnnounceJob(s: State, before: map<JobId, JobState>, i: nat): (t: State)
    requires i < |s.jobs|
    ensures |t.jobs| == |s.jobs|
  {
    var job := s.jobs[i];
    if job.id in before && before[job.id] == Queued && job.state == Running
    then UpdateProgress(s, job.id, job.progress).0 else s
  }

  function Tick(c: Config, s: State): State {
    Announce(TickAll(c, s, RunningIds(s.jobs)), StateTable(s.jobs), 0)
  }

  // The session

  function Sync(jobs: seq<Job>, shown: Tracked): Tracked {
    if shown.job.None? then shown
    else
      var i := Find(jobs, shown.job.value);
      if i == |jobs| then shown
      else shown.(state := jobs[i].state, progress := jobs[i].progress, path := jobs[i].observedPath)
  }

  function Synced(x: Session, s: State): Session {
    x.(scheduler := s, smart := Sync(s.jobs, x.smart), benchmark := Sync(s.jobs, x.benchmark))
  }

  function TickOnce(c: Config, x: Session): Session {
    Synced(x, Tick(c, x.scheduler))
  }

  /** As many ticks as have elapsed. */
  function Elapse(c: Config, x: Session): Session
    decreases x.remainder
  {
    if x.remainder < TICK then x else Elapse(c, TickOnce(c, x.(remainder := x.remainder - TICK)))
  }

  function Advance(c: Config, x: Session, elapsed: int): Session {
    if elapsed <= 0 then x else Elapse(c, x.(remainder := x.remainder + elapsed))
  }

  /** A workflow command: the drive it names, if any, whether the catalogue knows the
      workflow, whether the drive offers it, the operation planned for it, and whether
      it only inspects. */
  datatype Workflow = Workflow(
    feature: Feature,
    target: Option<Drive>,
    known: bool,
    supported: Result<bool, ErrorCode>,
    planned: Result<Operation, ErrorCode>,
    inspection: bool)

  function RunWorkflow(c: Config, x: Session, w: Workflow): (Session, Result<Option<JobId>, ErrorCode>) {
    if w.target.None? then (x, Failure(NotFound))
    else if w.target.value.IsProtected() then (x, Failure(SafetyBlocked))
    else if !w.known then (x, Failure(InvalidArgument))
    else if w.supported.Failure? then (x, Failure(w.supported.error))
    else if !w.supported.value then (x, Failure(Unavailable))
    else if w.planned.Failure? then (x, Failure(w.planned.error))
    else if w.inspection then (x, Success(None))
    else
      var submitted := Submit(c, x.scheduler, w.planned.value);
      if submitted.1.Failure? then (x.(scheduler := submitted.0), Failure(submitted.1.error))
      else
        var id := submitted.1.value;
        var reported := ReportStart(submitted.0, id);
        if reported.1.Failure? then (x.(scheduler := reported.0), Failure(reported.1.error))
        else (Track(x.(scheduler := reported.0), w, id), Success(Some(id)))
  }

  /** A job that started at once reports no progress yet. */
  function ReportStart(s: State, id: JobId): (State, Result<(), ErrorCode>) {
    var i := Find(s.jobs, id);
    if i < |s.jobs| && s.jobs[i].state == Running then UpdateProgress(s, id, 0) else (s, Success(()))
  }

  function Track(x: Session, w: Workflow, id: JobId): Session
    requires w.target.Some?
  {
    var i := Find(x.scheduler.jobs, id);
    if i == |x.scheduler.jobs| then x
    else
      var shown := Tracked(Some(id), x.scheduler.jobs[i].state, 0, w.target.value.currentPath);
      match w.feature
      case Smart => x.(smart := shown)
      case Benchmark => x.(benchmark := shown)
      case OtherFeature => x
  }

  function PauseJob(x: Session, id: JobId): (Session, Result<(), ErrorCode>) {
    var paused := Pause(x.scheduler, id);
    (if paused.1.Failure? then x.(scheduler := paused.0) else Synced(x, paused.0), paused.1)
  }

  function ResumeJob(x: Session, id: JobId): (Session, Result<(), ErrorCode>) {
    var resumed := Resume(x.scheduler, id);
    (if resumed.1.Failure? then x.(scheduler := resumed.0) else Synced(x, resumed.0), resumed.1)
  }

  function CancelJob(c: Config, x: Session, id: JobId): (Session, Result<(), ErrorCode>) {
    if Find(x.scheduler.jobs, id) == |x.scheduler.jobs| then (x, Failure(NotFound))
    else
      var cancelled := Cancel(c, x.scheduler, id);
      if cancelled.1.Failure? then (x.(scheduler := cancelled.0), cancelled.1)
      else (Synced(x, AnnounceIds(cancelled.0, QueuedIds(x.scheduler.jobs))), cancelled.1)
  }

  function QueuedIds(jobs: seq<Job>): seq<JobId> {
    if jobs == [] then []
    else
      var last := jobs[|jobs| - 1];
      QueuedIds(jobs[..|jobs| - 1]) + if last.state == Queued then [last.id] else []
  }

  function AnnounceId(s: State, id: JobId): State {
    var i := Find(s.jobs, id);
    if i < |s.jobs| && s.jobs[i].state == Running then UpdateProgress(s, id, s.jobs[i].progress).0 else s
  }

  function AnnounceIds(s: State, ids: seq<JobId>): State
    decreases |ids|
  {
    if ids == [] then s else AnnounceIds(AnnounceId(s, ids[0]), ids[1..])
  }

  // Runs

  /** `Direct` is a call on the scheduler that bypasses the session. */
  datatype Command =
    | Launch(workflow: Workflow)
    | Hold(id: JobId)
    | Continue(id: JobId)
    | Stop(id: JobId)
    | Wait(elapsed: int)
    | Direct(call: Call)

  function Obey(c: Config, x: Session, command: Command): Session {
    match command
    case Launch(workflow) => RunWorkflow(c, x, workflow).0
    case Hold(id) => PauseJob(x, id).0
    case Continue(id) => ResumeJob(x, id).0
    case Stop(id) => CancelJob(c, x, id).0
    case Wait(elapsed) => Advance(c, x, elapsed)
    case Direct(call) => x.(scheduler := Step(c, x.scheduler, call))
  }

  /** The session after a sequence of commands. */
  function History(c: Config, commands: seq<Command>): Session {
    if commands == [] then NEW_SESSION
    else Obey(c, History(c, commands[..|commands| - 1]), commands[|commands| - 1])
  }
}
