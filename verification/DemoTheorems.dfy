/** The simulated session drains: what time does to its jobs. */
module DemoTheorems {
  import opened Text
  import opened Inventory
  import opened Drives
  import opened Scheduler
  import opened SchedulerTheorems
  import opened Demo

  predicate Percentages(jobs: seq<Job>) {
    forall i :: 0 <= i < |jobs| ==> 0 <= jobs[i].progress <= 100
  }

  ghost predicate Sane(c: Config, s: State) {
    Invariant(c, s) && Percentages(s.jobs)
  }

  /** Still to be worked off. */
  predicate Pending(job: Job) {
    job.state == Queued || job.state == Running
  }

  predicate Ended(job: Job) {
    job.state == Completed || job.state == Failed
  }

  predicate NonePaused(jobs: seq<Job>) {
    forall i :: 0 <= i < |jobs| ==> jobs[i].state != Paused
  }

  /** A test of the drive's health that is going to report a failing drive. */
  predicate WillFail(job: Job) {
    job.operation.kind in {ShortTest, ExtendedTest, ConveyanceTest} && job.operation.target.status == Failing
  }

  /** A running job was worked on: it is two percent further; but a health test on a
      failing drive fails once that is twenty, and any other job is complete once it is
      a hundred. */
  predicate Advanced(a: Job, b: Job) {
    && a.state == Running
    && if WillFail(a) && a.progress + 2 >= 20
       then b == a.(state := Failed, failure := Some(ProcessFailure), progress := if a.progress + 2 < 100 then a.progress + 2 else 100)
       else if a.progress + 2 >= 100 then b == a.(state := Completed, progress := 100)
       else b == a.(progress := a.progress + 2)
  }

  /** A job was not worked on: unchanged, or taken from the queue. */
  predicate Quiet(a: Job, b: Job) {
    b == a || (a.state == Queued && b.state in {Running, Failed} && b.id == a.id && b.progress == a.progress)
  }

  // One job's tick

  /** After the i-th job was ended as `job`, only queued jobs moved. */
  lemma EndMoves(c: Config, s: State, i: nat, job: Job)
    requires Sane(c, s) && i < |s.jobs| && s.jobs[i].Active() && SameDrive(s.jobs[i], job) && 0 <= job.progress <= 100
    requires job.state in {Completed, Cancelled, Failed}
    ensures var t := StartEligible(c, ReleaseLock(s.(jobs := s.jobs[i := job]), job));
      Sane(c, t) && |t.jobs| == |s.jobs| && t.jobs[i] == job && QuietExcept(s.jobs, t.jobs, i)
  {
    hide Invariant;
    EndKeeps(c, s, i, job);
  }

  predicate QuietExcept(a: seq<Job>, b: seq<Job>, i: nat) {
    |a| == |b| && forall j :: 0 <= j < |a| && j != i ==> Quiet(a[j], b[j])
  }

  lemma TickJobMoves(c: Config, s: State, i: nat)
    requires Sane(c, s) && i < |s.jobs| && s.jobs[i].state == Running
    ensures var t := TickJob(c, s, s.jobs[i].id);
      Sane(c, t) && |t.jobs| == |s.jobs| && Advanced(s.jobs[i], t.jobs[i]) && QuietExcept(s.jobs, t.jobs, i)
  {
    hide Invariant;
    hide StartEligible;
    hide ReleaseLock;
    SaneNumbered(c, s);
    FindNumbered(s, i);
    var progress := NextProgress(s.jobs[i]);
    var moved := s.jobs[i].(progress := progress);
    AmendKeeps(c, s, i, moved);
    var u := s.(jobs := s.jobs[i := moved]);
    if Doomed(s.jobs[i]) && progress >= 20 {
      SaneNumbered(c, u);
      FindNumbered(u, i);
      EndMoves(c, u, i, FailJob(moved, ProcessFailure));
    } else if progress == 100 {
      EndMoves(c, s, i, s.jobs[i].(state := Completed, progress := 100));
    }
  }

  lemma SaneNumbered(c: Config, s: State)
    requires Sane(c, s)
    ensures Numbered(s)
  {
  }

  // A whole tick

  /** The jobs named in `ids` were worked on, the others were not. */
  predicate Worked(a: seq<Job>, b: seq<Job>, ids: seq<JobId>) {
    |a| == |b| && forall i :: 0 <= i < |a| ==> if a[i].id in ids then Advanced(a[i], b[i]) else Quiet(a[i], b[i])
  }

  predicate Distinct(ids: seq<JobId>) {
    forall i, j :: 0 <= i < j < |ids| ==> ids[i] != ids[j]
  }

  /** `ids` names running jobs, each by its position in the job list. */
  predicate AllRunning(s: State, ids: seq<JobId>) {
    forall k :: 0 <= k < |ids| ==> 1 <= ids[k] <= |s.jobs| && s.jobs[ids[k] - 1].id == ids[k] && s.jobs[ids[k] - 1].state == Running
  }

  lemma {:induction false} TickAllMoves(c: Config, s: State, ids: seq<JobId>)
    requires Sane(c, s) && Distinct(ids) && AllRunning(s, ids)
    ensures Sane(c, TickAll(c, s, ids)) && Worked(s.jobs, TickAll(c, s, ids).jobs, ids)
    decreases |ids|
  {
    hide Sane;
    hide TickJob;
    if ids != [] {
      var i := ids[0] - 1;
      TickJobMoves(c, s, i);
      var t := TickJob(c, s, ids[0]);
      forall k | 0 <= k < |ids[1..]| ensures t.jobs[ids[1..][k] - 1] == s.jobs[ids[1..][k] - 1] {
        assert ids[1..][k] == ids[k + 1];
        assert Quiet(s.jobs[ids[k + 1] - 1], t.jobs[ids[k + 1] - 1]);
      }
      TickAllMoves(c, t, ids[1..]);
      SaneIds(c, s);
      WorkedFirst(s.jobs, t.jobs, TickAll(c, t, ids[1..]).jobs, ids, i);
    }
  }

  /** One job worked on, then the rest of them. */
  lemma WorkedFirst(a: seq<Job>, b: seq<Job>, d: seq<Job>, ids: seq<JobId>, i: nat)
    requires ids != [] && Distinct(ids) && i < |a| && ids[0] == i + 1
    requires forall j :: 0 <= j < |a| ==> a[j].id == j + 1
    requires QuietExcept(a, b, i) && Advanced(a[i], b[i]) && Worked(b, d, ids[1..])
    requires forall k :: 0 < k < |ids| ==> 1 <= ids[k] <= |a| && b[ids[k] - 1] == a[ids[k] - 1]
    ensures Worked(a, d, ids)
  {
    forall j | 0 <= j < |a| ensures if a[j].id in ids then Advanced(a[j], d[j]) else Quiet(a[j], d[j]) {
      assert if b[j].id in ids[1..] then Advanced(b[j], d[j]) else Quiet(b[j], d[j]);
      if j != i {
        assert Quiet(a[j], b[j]);
        if a[j].id in ids {
          var k :| 0 <= k < |ids| && ids[k] == a[j].id;
          assert ids[1..][k - 1] == ids[k];
        }
      } else {
        assert forall k :: 0 <= k < |ids[1..]| ==> ids[1..][k] == ids[k + 1];
      }
    }
  }

  lemma SaneIds(c: Config, s: State)
    requires Sane(c, s)
    ensures forall j :: 0 <= j < |s.jobs| ==> s.jobs[j].id == j + 1
  {
  }

  /** `id` is the number of a running job. */
  predicate Names(jobs: seq<Job>, id: JobId) {
    1 <= id <= |jobs| && jobs[id - 1].state == Running
  }

  lemma {:induction false} RunningIdsAre(jobs: seq<Job>)
    requires forall j :: 0 <= j < |jobs| ==> jobs[j].id == j + 1
    ensures Distinct(RunningIds(jobs)) && forall id :: id in RunningIds(jobs) <==> Names(jobs, id)
  {
    hide Names;
    hide Distinct;
    if jobs != [] {
      var front := jobs[..|jobs| - 1];
      RunningIdsAre(front);
      var ids := RunningIds(front);
      forall id ensures Names(jobs, id) <==> Names(front, id) || (id == |jobs| && jobs[id - 1].state == Running) {
        NamesFront(jobs, id);
      }
      assert |jobs| !in ids by {
        NamesFront(jobs, |jobs|);
      }
      DistinctPush(ids, |jobs|);
      assert ids + [] == ids;
    } else {
      NoneNamed();
    }
  }

  lemma NoneNamed()
    ensures Distinct([]) && forall id :: !Names([], id)
  {
  }

  lemma NamesFront(jobs: seq<Job>, id: JobId)
    requires jobs != []
    ensures !Names(jobs[..|jobs| - 1], |jobs|)
    ensures Names(jobs, id) <==> Names(jobs[..|jobs| - 1], id) || (id == |jobs| && jobs[id - 1].state == Running)
  {
  }

  lemma DistinctPush(ids: seq<JobId>, id: JobId)
    requires Distinct(ids) && id !in ids
    ensures Distinct(ids + [id])
  {
  }

  lemma AnnounceOneNothing(s: State, before: map<JobId, JobState>, i: nat)
    requires Numbered(s) && i < |s.jobs|
    ensures AnnounceJob(s, before, i) == s
  {
    FindNumbered(s, i);
    assert s.jobs[i := s.jobs[i].(progress := s.jobs[i].progress)] == s.jobs;
  }

  /** Reporting a job's own progress again changes nothing. */
  lemma {:induction false} AnnounceNothing(s: State, before: map<JobId, JobState>, i: nat)
    requires Numbered(s) && i <= |s.jobs|
    ensures Announce(s, before, i) == s
    decreases |s.jobs| - i
  {
    if i < |s.jobs| {
      AnnounceOneNothing(s, before, i);
      AnnounceNothing(s, before, i + 1);
    }
  }

  lemma TickMoves(c: Config, s: State)
    requires Sane(c, s)
    ensures Sane(c, Tick(c, s)) && TickedJobs(s.jobs, Tick(c, s).jobs)
  {
    hide Sane;
    hide TickAll;
    hide RunningIds;
    hide StateTable;
    SaneIds(c, s);
    RunningIdsAre(s.jobs);
    var ids := RunningIds(s.jobs);
    NamedRun(s, ids);
    TickAllMoves(c, s, ids);
    var u := TickAll(c, s, ids);
    SaneNumbered(c, u);
    AnnounceNothing(u, StateTable(s.jobs), 0);
    WorkedTicked(s.jobs, u.jobs, ids);
  }

  lemma NamedRun(s: State, ids: seq<JobId>)
    requires forall j :: 0 <= j < |s.jobs| ==> s.jobs[j].id == j + 1
    requires forall id :: id in ids <==> Names(s.jobs, id)
    ensures AllRunning(s, ids)
  {
    forall k | 0 <= k < |ids| ensures Names(s.jobs, ids[k]) {
      assert ids[k] in ids;
    }
  }

  lemma WorkedTicked(a: seq<Job>, b: seq<Job>, ids: seq<JobId>)
    requires forall j :: 0 <= j < |a| ==> a[j].id == j + 1
    requires forall id :: id in ids <==> Names(a, id)
    requires Worked(a, b, ids)
    ensures TickedJobs(a, b)
  {
    hide Advanced;
    hide Quiet;
    forall i | 0 <= i < |a| ensures TickedJob(a[i], b[i]) {
      assert a[i].id in ids <==> Names(a, a[i].id);
    }
  }

  predicate TickedJobs(a: seq<Job>, b: seq<Job>) {
    |a| == |b| && forall i :: 0 <= i < |a| ==> TickedJob(a[i], b[i])
  }

  /** What one tick does to a job: every running job is worked on. */
  predicate TickedJob(a: Job, b: Job) {
    if a.state == Running then Advanced(a, b) else Quiet(a, b)
  }

  // The measure

  /** Ticks a job needs once it runs. */
  function Weight(job: Job): nat
    requires 0 <= job.progress <= 100
  {
    if !Pending(job) then 0 else if job.progress >= 99 then 1 else (101 - job.progress) / 2
  }

  function Work(jobs: seq<Job>): nat
    requires Percentages(jobs)
  {
    if jobs == [] then 0 else Weight(jobs[0]) + Work(jobs[1..])
  }

  function PendingCount(jobs: seq<Job>): nat {
    if jobs == [] then 0 else (if Pending(jobs[0]) then 1 else 0) + PendingCount(jobs[1..])
  }

  lemma {:induction false} WorkBound(jobs: seq<Job>)
    requires Percentages(jobs)
    ensures Work(jobs) <= 50 * PendingCount(jobs)
    ensures Work(jobs) == 0 <==> forall i :: 0 <= i < |jobs| ==> !Pending(jobs[i])
  {
    if jobs != [] {
      WorkBound(jobs[1..]);
      assert forall i :: 0 <= i < |jobs| - 1 ==> jobs[1..][i] == jobs[i + 1];
      assert (forall i :: 0 <= i < |jobs| ==> !Pending(jobs[i])) <==>
        !Pending(jobs[0]) && forall i :: 0 <= i < |jobs[1..]| ==> !Pending(jobs[1..][i]);
    }
  }

  /** Every tick lowers the work left unless no job runs. */
  lemma {:induction false} WorkDrops(a: seq<Job>, b: seq<Job>)
    requires Percentages(a) && Percentages(b) && TickedJobs(a, b)
    ensures Work(b) <= Work(a)
    ensures (exists i :: 0 <= i < |a| && a[i].state == Running) ==> Work(b) < Work(a)
  {
    if a != [] {
      WorkDrops(a[1..], b[1..]);
      assert TickedJob(a[0], b[0]);
      if i :| 0 <= i < |a| && a[i].state == Running {
        assert i > 0 ==> a[1..][i - 1].state == Running;
      }
    }
  }

  /** Unless something is paused, work left means that some job runs. */
  lemma SomeRuns(c: Config, s: State, i: nat)
    requires c.maxParallel >= 1 && Invariant(c, s) && NonePaused(s.jobs)
    requires i < |s.jobs| && Pending(s.jobs[i])
    ensures exists k :: 0 <= k < |s.jobs| && s.jobs[k].state == Running
  {
    if s.jobs[i].state == Queued {
      assert s.jobs[i].drive in s.locks || |s.locks| >= c.maxParallel;
      var d :| d in s.locks.Keys;
      var k := s.locks[d] - 1;
      assert LockedByJob(s, d) && HoldsLock(s, k) && ActiveHolds(s, k);
      assert s.jobs[k].Active() && s.jobs[k].state != Paused;
    }
  }

  // Draining

  function Ticks(c: Config, s: State, n: nat): State
    decreases n
  {
    if n == 0 then s else Ticks(c, Tick(c, s), n - 1)
  }

  /** A pending job has ended; any other is as it was. */
  predicate Drained(a: Job, b: Job) {
    if Pending(a) then Ended(b) else b == a
  }

  lemma {:induction false} Drains(c: Config, s: State, n: nat)
    requires c.maxParallel >= 1 && Sane(c, s) && NonePaused(s.jobs) && Work(s.jobs) <= n
    ensures var t := Ticks(c, s, n);
      |t.jobs| == |s.jobs| && forall i :: 0 <= i < |s.jobs| ==> Drained(s.jobs[i], t.jobs[i])
    decreases n
  {
    hide Tick, Invariant, TickedJob, Drained, Pending;
    WorkBound(s.jobs);
    NothingDrained(s);
    if n > 0 {
      var u := Tick(c, s);
      TickMoves(c, s);
      WorkDrops(s.jobs, u.jobs);
      NonePausedTicked(s.jobs, u.jobs);
      if i :| 0 <= i < |s.jobs| && Pending(s.jobs[i]) {
        SomeRuns(c, s, i);
      }
      Drains(c, u, n - 1);
      var t := Ticks(c, u, n - 1);
      forall i | 0 <= i < |s.jobs| ensures Drained(s.jobs[i], t.jobs[i]) {
        DrainedTicked(s.jobs[i], u.jobs[i], t.jobs[i]);
      }
    }
  }

  /** What `n` ticks make of a job that runs. */
  predicate Fate(a: Job, b: Job, n: nat) {
    if n > 0 && WillFail(a) && a.progress + 2 * n >= 20 then b.state == Failed && b.failure == Some(ProcessFailure)
    else if n > 0 && a.progress + 2 * n >= 100 then b.state == Completed && b.progress == 100
    else b == a.(progress := a.progress + 2 * n)
  }

  lemma Settles(a: Job, b: Job)
    requires TickedJob(a, b) && Ended(a)
    ensures b == a
  {
  }

  lemma {:induction false} EndedStays(c: Config, s: State, i: nat, n: nat)
    requires Sane(c, s) && i < |s.jobs| && Ended(s.jobs[i])
    ensures i < |Ticks(c, s, n).jobs| && Ticks(c, s, n).jobs[i] == s.jobs[i]
    decreases n
  {
    hide Tick, Sane, TickedJob;
    if n > 0 {
      TickMoves(c, s);
      Settles(s.jobs[i], Tick(c, s).jobs[i]);
      EndedStays(c, Tick(c, s), i, n - 1);
    }
  }

  /** A running health test on a failing drive has failed, for that reason, as soon as it
      would have reached twenty percent; any other running job is complete as soon as it
      reaches a hundred; and until then both are two percent further with every tick. */
  lemma {:induction false} RunningFates(c: Config, s: State, i: nat, n: nat)
    requires Sane(c, s) && i < |s.jobs| && s.jobs[i].state == Running
    ensures i < |Ticks(c, s, n).jobs| && Fate(s.jobs[i], Ticks(c, s, n).jobs[i], n)
    decreases n
  {
    hide Tick, Sane;
    if n > 0 {
      TickMoves(c, s);
      var t := Tick(c, s);
      assert TickedJob(s.jobs[i], t.jobs[i]);
      if t.jobs[i].state == Running {
        RunningFates(c, t, i, n - 1);
      } else {
        EndedStays(c, t, i, n - 1);
      }
    }
  }

  lemma NothingDrained(s: State)
    ensures (forall i :: 0 <= i < |s.jobs| ==> !Pending(s.jobs[i])) ==> forall i :: 0 <= i < |s.jobs| ==> Drained(s.jobs[i], s.jobs[i])
  {
  }

  lemma NonePausedTicked(a: seq<Job>, b: seq<Job>)
    requires TickedJobs(a, b) && NonePaused(a)
    ensures NonePaused(b)
  {
    forall i | 0 <= i < |a| ensures b[i].state != Paused {
      assert TickedJob(a[i], b[i]);
    }
  }

  lemma DrainedTicked(a: Job, b: Job, d: Job)
    requires TickedJob(a, b) && Drained(b, d) && a.state != Paused
    ensures Drained(a, d)
  {
  }

  // Every session

  lemma {:induction false} StartEligiblePercentages(c: Config, s: State)
    requires Percentages(s.jobs)
    ensures Percentages(StartEligible(c, s).jobs)
    decreases QueuedCount(s.jobs)
  {
    var i := FirstEligible(s, 0);
    if |s.locks| < c.maxParallel && i < |s.jobs| {
      QueuedCountUpdate(s.jobs, i, Start(c, s, i).jobs[i]);
      StartEligiblePercentages(c, Start(c, s, i));
    }
  }

  lemma StepSane(c: Config, s: State, call: Call)
    requires c.maxParallel >= 1 && Sane(c, s)
    ensures Sane(c, Step(c, s, call))
  {
    hide StartEligible;
    hide Invariant;
    hide Authorize;
    hide SamePhysicalDevice;
    StepKeeps(c, s, call);
    forall t: State | Percentages(t.jobs) ensures Percentages(StartEligible(c, t).jobs) {
      StartEligiblePercentages(c, t);
    }
  }

  lemma {:induction false} ElapseSane(c: Config, x: Session)
    requires Sane(c, x.scheduler)
    ensures Sane(c, Elapse(c, x).scheduler)
    decreases x.remainder
  {
    hide Tick;
    hide Sync;
    hide Sane;
    if x.remainder >= TICK {
      TickMoves(c, x.scheduler);
      ElapseSane(c, TickOnce(c, x.(remainder := x.remainder - TICK)));
    }
  }

  lemma {:induction false} AnnounceIdsNothing(s: State, ids: seq<JobId>)
    ensures AnnounceIds(s, ids) == s
  {
    if ids != [] {
      var i := Find(s.jobs, ids[0]);
      assert i < |s.jobs| ==> s.jobs[i := s.jobs[i].(progress := s.jobs[i].progress)] == s.jobs;
      AnnounceIdsNothing(s, ids[1..]);
    }
  }

  lemma LaunchSane(c: Config, x: Session, w: Workflow)
    requires c.maxParallel >= 1 && Sane(c, x.scheduler)
    ensures Sane(c, RunWorkflow(c, x, w).0.scheduler)
  {
    hide Sane;
    hide Submit;
    hide UpdateProgress;
    if w.planned.Success? {
      StepSane(c, x.scheduler, CallSubmit(w.planned.value));
      var submitted := Submit(c, x.scheduler, w.planned.value);
      if submitted.1.Success? {
        StepSane(c, submitted.0, CallProgress(submitted.1.value, 0));
      }
    }
  }

  lemma ObeySane(c: Config, x: Session, command: Command)
    requires c.maxParallel >= 1 && Sane(c, x.scheduler)
    ensures Sane(c, Obey(c, x, command).scheduler)
  {
    hide Sane;
    hide Elapse;
    hide RunWorkflow;
    hide Pause;
    hide Resume;
    hide Cancel;
    match command
    case Launch(workflow) => LaunchSane(c, x, workflow);
    case Hold(id) => StepSane(c, x.scheduler, CallPause(id));
    case Continue(id) => StepSane(c, x.scheduler, CallResume(id));
    case Stop(id) =>
      StepSane(c, x.scheduler, CallCancel(id));
      AnnounceIdsNothing(Cancel(c, x.scheduler, id).0, QueuedIds(x.scheduler.jobs));
    case Wait(elapsed) =>
      ElapseSane(c, x.(remainder := x.remainder + elapsed));
    case Direct(call) => StepSane(c, x.scheduler, call);
  }

  lemma {:induction false} HistorySane(c: Config, commands: seq<Command>)
    requires c.maxParallel >= 1
    ensures Sane(c, History(c, commands).scheduler)
  {
    if commands != [] {
      HistorySane(c, commands[..|commands| - 1]);
      ObeySane(c, History(c, commands[..|commands| - 1]), commands[|commands| - 1]);
    }
  }

  lemma {:induction false} ElapseRemainder(c: Config, x: Session)
    requires x.remainder >= 0
    ensures 0 <= Elapse(c, x).remainder < TICK
    ensures Elapse(c, x).scheduler == Ticks(c, x.scheduler, x.remainder / TICK)
    decreases x.remainder
  {
    hide Tick;
    hide Sync;
    if x.remainder >= TICK {
      ElapseRemainder(c, TickOnce(c, x.(remainder := x.remainder - TICK)));
    }
  }

  lemma {:induction false} HistoryRemainder(c: Config, commands: seq<Command>)
    ensures 0 <= History(c, commands).remainder < TICK
  {
    hide Submit;
    hide Step;
    hide Sync;
    if commands != [] {
      var x := History(c, commands[..|commands| - 1]);
      HistoryRemainder(c, commands[..|commands| - 1]);
      if commands[|commands| - 1].Wait? && commands[|commands| - 1].elapsed > 0 {
        ElapseRemainder(c, x.(remainder := x.remainder + commands[|commands| - 1].elapsed));
      }
    }
  }

  // Main results

  /** From any reachable state without a paused job, n queued or running jobs are
      all over after 25 n seconds (50 n ticks) in which nothing else is asked, and
      no other job has changed. */
  lemma DrainBound(c: Config, commands: seq<Command>)
    requires c.maxParallel >= 1
    requires NonePaused(History(c, commands).scheduler.jobs)
    ensures var x := History(c, commands);
      var n := PendingCount(x.scheduler.jobs);
      var y := Advance(c, x, 25000 * n);
      && y.scheduler == Ticks(c, x.scheduler, 50 * n)
      && |y.scheduler.jobs| == |x.scheduler.jobs|
      && forall i :: 0 <= i < |x.scheduler.jobs| ==> Drained(x.scheduler.jobs[i], y.scheduler.jobs[i])
  {
    hide Invariant;
    hide Tick;
    hide History;
    var x := History(c, commands);
    var n := PendingCount(x.scheduler.jobs);
    HistorySane(c, commands);
    HistoryRemainder(c, commands);
    WorkBound(x.scheduler.jobs);
    ElapseRemainder(c, x.(remainder := x.remainder + 25000 * n));
    assert (x.remainder + 25000 * n) / TICK == 50 * n;
    Drains(c, x.scheduler, 50 * n);
  }

  /** Time may pass in one step or in several. */
  lemma AdvanceSplits(c: Config, x: Session, a: nat, b: nat)
    requires 0 <= x.remainder < TICK
    ensures Advance(c, Advance(c, x, a), b) == Advance(c, x, a + b)
  {
    hide TickOnce;
    ElapseSplits(c, x.(remainder := x.remainder + a), b);
  }

  lemma {:induction false} ElapseSplits(c: Config, x: Session, b: nat)
    requires x.remainder >= 0
    ensures var y := Elapse(c, x); Elapse(c, y.(remainder := y.remainder + b)) == Elapse(c, x.(remainder := x.remainder + b))
    decreases x.remainder
  {
    if x.remainder >= TICK {
      var x' := x.(remainder := x.remainder - TICK);
      ElapseSplits(c, TickOnce(c, x'), b);
      TickKeepsRemainder(c, x', b);
    }
  }

  lemma TickKeepsRemainder(c: Config, x: Session, b: nat)
    ensures TickOnce(c, x).remainder == x.remainder
    ensures TickOnce(c, x.(remainder := x.remainder + b)) == TickOnce(c, x).(remainder := x.remainder + b)
  {
    hide Tick;
    hide Sync;
  }

  // Shown progress

  /** What is shown for a feature is the present state and progress of its job. */
  predicate Mirrors(s: State, shown: Tracked) {
    shown.job.Some? ==>
      var i := Find(s.jobs, shown.job.value);
      i < |s.jobs| && shown.state == s.jobs[i].state && shown.progress == s.jobs[i].progress
  }

  predicate MirrorsBoth(x: Session) {
    Mirrors(x.scheduler, x.smart) && Mirrors(x.scheduler, x.benchmark)
  }

  /** A job on the list stays on it. */
  lemma SyncMirrors(x: Session, s: State)
    requires Numbered(x.scheduler) && Numbered(s) && |x.scheduler.jobs| <= |s.jobs| && MirrorsBoth(x)
    ensures MirrorsBoth(Synced(x, s))
  {
    forall shown: Tracked | Mirrors(x.scheduler, shown) ensures Mirrors(s, Sync(s.jobs, shown)) {
      if shown.job.Some? {
        FindNumbered(s, Find(x.scheduler.jobs, shown.job.value));
      }
    }
  }

  lemma {:induction false} ElapseMirrors(c: Config, x: Session)
    requires Sane(c, x.scheduler) && MirrorsBoth(x)
    ensures MirrorsBoth(Elapse(c, x))
    decreases x.remainder
  {
    hide Tick;
    hide Sync;
    hide Sane;
    hide Mirrors;
    if x.remainder >= TICK {
      var s := Tick(c, x.scheduler);
      TickMoves(c, x.scheduler);
      SaneNumbered(c, x.scheduler);
      SaneNumbered(c, s);
      SyncMirrors(x, s);
      ElapseMirrors(c, TickOnce(c, x.(remainder := x.remainder - TICK)));
    }
  }

  lemma {:induction false} StartEligibleLength(c: Config, s: State)
    ensures |StartEligible(c, s).jobs| == |s.jobs|
    decreases QueuedCount(s.jobs)
  {
    var i := FirstEligible(s, 0);
    if |s.locks| < c.maxParallel && i < |s.jobs| {
      QueuedCountUpdate(s.jobs, i, Start(c, s, i).jobs[i]);
      StartEligibleLength(c, Start(c, s, i));
    }
  }

  lemma CancelLength(c: Config, s: State, id: JobId)
    ensures |Cancel(c, s, id).0.jobs| == |s.jobs|
    ensures Cancel(c, s, id).1.Failure? ==> Cancel(c, s, id).0 == s
  {
    hide StartEligible;
    var i := Find(s.jobs, id);
    if i < |s.jobs| {
      var job := s.jobs[i].(state := Cancelled);
      StartEligibleLength(c, ReleaseLock(s.(jobs := s.jobs[i := job]), job));
    }
  }

  /** A submission adds one job, with no progress, and leaves the others alone. */
  lemma SubmitAppends(c: Config, s: State, operation: Operation)
    ensures var submitted := Submit(c, s, operation);
      && (submitted.1.Failure? ==> submitted.0 == s)
      && (submitted.1.Success? ==>
        && |submitted.0.jobs| == |s.jobs| + 1 && submitted.0.jobs[..|s.jobs|] == s.jobs
        && submitted.1.value == s.nextId && submitted.0.jobs[|s.jobs|].progress == 0)
  {
    hide Authorize;
    hide SamePhysicalDevice;
    hide DriveIdOf;
  }

  lemma AppendedMirrors(s: State, t: State, shown: Tracked)
    requires Numbered(s) && Numbered(t) && |t.jobs| > |s.jobs| && t.jobs[..|s.jobs|] == s.jobs && Mirrors(s, shown)
    ensures Mirrors(t, shown)
  {
    if shown.job.Some? {
      var i := Find(s.jobs, shown.job.value);
      assert t.jobs[i] == t.jobs[..|s.jobs|][i];
      FindNumbered(t, i);
    }
  }

  lemma LaunchMirrors(c: Config, x: Session, w: Workflow)
    requires c.maxParallel >= 1 && Sane(c, x.scheduler) && MirrorsBoth(x)
    ensures MirrorsBoth(RunWorkflow(c, x, w).0)
  {
    hide Sane;
    hide Submit;
    hide Mirrors;
    var s := x.scheduler;
    if w.planned.Success? {
      SubmitAppends(c, s, w.planned.value);
      var submitted := Submit(c, s, w.planned.value);
      if submitted.1.Success? {
        StepSane(c, s, CallSubmit(w.planned.value));
        var t := submitted.0;
        SaneNumbered(c, s);
        SaneNumbered(c, t);
        FindNumbered(t, |s.jobs|);
        AppendedMirrors(s, t, x.smart);
        AppendedMirrors(s, t, x.benchmark);
        ReportNothing(t, |s.jobs|);
        ShownMirrors(t, |s.jobs|, w);
      }
    }
  }

  /** A new job's progress is reported as it stands. */
  lemma ReportNothing(t: State, i: nat)
    requires i < |t.jobs| && Find(t.jobs, t.jobs[i].id) == i && t.jobs[i].progress == 0
    ensures ReportStart(t, t.jobs[i].id) == (t, Success(()))
  {
    assert t.jobs[i := t.jobs[i].(progress := 0)] == t.jobs;
  }

  lemma ShownMirrors(t: State, i: nat, w: Workflow)
    requires i < |t.jobs| && Find(t.jobs, t.jobs[i].id) == i && t.jobs[i].progress == 0
    ensures w.target.Some? ==> Mirrors(t, Tracked(Some(t.jobs[i].id), t.jobs[i].state, 0, w.target.value.currentPath))
  {
  }

  lemma ObeyMirrors(c: Config, x: Session, command: Command)
    requires c.maxParallel >= 1 && Sane(c, x.scheduler) && MirrorsBoth(x) && !command.Direct?
    ensures MirrorsBoth(Obey(c, x, command))
  {
    hide Sane;
    hide Elapse;
    hide RunWorkflow;
    hide Cancel;
    hide Mirrors;
    hide Sync;
    var s := x.scheduler;
    SaneNumbered(c, s);
    match command
    case Launch(workflow) => LaunchMirrors(c, x, workflow);
    case Hold(id) =>
      StepSane(c, s, CallPause(id));
      SaneNumbered(c, Pause(s, id).0);
      SyncMirrors(x, Pause(s, id).0);
    case Continue(id) =>
      StepSane(c, s, CallResume(id));
      SaneNumbered(c, Resume(s, id).0);
      SyncMirrors(x, Resume(s, id).0);
    case Stop(id) =>
      var t := Cancel(c, s, id).0;
      StepSane(c, s, CallCancel(id));
      SaneNumbered(c, t);
      CancelLength(c, s, id);
      AnnounceIdsNothing(t, QueuedIds(s.jobs));
      SyncMirrors(x, t);
    case Wait(elapsed) => ElapseMirrors(c, x.(remainder := x.remainder + elapsed));
  }

  lemma NothingShown(s: State)
    ensures Mirrors(s, UNTRACKED)
  {
  }

  /** Over any session whose scheduler is only reached through it, the progress
      shown for a feature is its job's present state and progress. */
  lemma {:induction false} ShownProgressIsCurrent(c: Config, commands: seq<Command>)
    requires c.maxParallel >= 1
    requires forall k :: 0 <= k < |commands| ==> !commands[k].Direct?
    ensures MirrorsBoth(History(c, commands))
  {
    hide Obey;
    hide Mirrors;
    if commands != [] {
      var front := commands[..|commands| - 1];
      ShownProgressIsCurrent(c, front);
      HistorySane(c, front);
      ObeyMirrors(c, History(c, front), commands[|commands| - 1]);
    } else {
      NothingShown(EMPTY);
    }
  }
}
