/** The simulated session as the program keeps it, driving a `JobManager`; each
    method is proved against the functions in `Demo`. */
module DemoSessions {
  import opened Text
  import opened Drives
  import opened Scheduler
  import opened Demo
  import opened Jobs

  class DemoSession {
    const manager: JobManager
    var smart: Tracked
    var benchmark: Tracked
    var remainder: int

    ghost function View(): Session
      reads this, manager
    {
      Session(manager.View(), smart, benchmark, remainder)
    }

    constructor (jobs: JobManager)
      ensures manager == jobs
      ensures View() == Session(jobs.View(), UNTRACKED, UNTRACKED, 0)
    {
      manager := jobs;
      smart, benchmark, remainder := UNTRACKED, UNTRACKED, 0;
    }

    method SyncTrackedProgress()
      modifies `smart, `benchmark
      ensures View() == Synced(old(View()), manager.View())
    {
      smart := Sync(manager.jobs, smart);
      benchmark := Sync(manager.jobs, benchmark);
    }

    /** Records every job's state and lists the running ones. */
    method ListJobs() returns (before: map<JobId, JobState>, running: seq<JobId>)
      ensures before == StateTable(manager.jobs) && running == RunningIds(manager.jobs)
    {
      before, running := map[], [];
      for i := 0 to |manager.jobs|
        invariant before == StateTable(manager.jobs[..i]) && running == RunningIds(manager.jobs[..i])
      {
        var job := manager.jobs[i];
        assert manager.jobs[..i + 1][..i] == manager.jobs[..i];
        before := before[job.id := job.state];
        if job.state == Running {
          running := running + [job.id];
        }
      }
      assert manager.jobs[..|manager.jobs|] == manager.jobs;
    }

    method TickRunning(id: JobId)
      modifies manager
      ensures manager.View() == TickJob(manager.config, old(manager.View()), id)
    {
      hide StartEligible;
      hide ReleaseLock;
      var i := Find(manager.jobs, id);
      if i == |manager.jobs| || manager.jobs[i].state != Running {
        return;
      }
      var job := manager.jobs[i];
      var progress := NextProgress(job);
      if Doomed(job) && progress >= 20 {
        var updated := manager.ReportProgress(id, progress);
        if updated.Failure? {
          return;
        }
        var failed := manager.FailRunning(id, ProcessFailure);
        return;
      }
      if progress == 100 {
        var completed := manager.CompleteJob(id);
      } else {
        var updated := manager.ReportProgress(id, progress);
      }
    }

    method TickOnce()
      modifies this, manager
      ensures View() == Demo.TickOnce(manager.config, old(View()))
    {
      hide TickJob;
      hide Sync;
      hide UpdateProgress;
      hide StateTable;
      hide RunningIds;
      var before, running := ListJobs();
      ghost var x := View();
      ghost var target := TickAll(manager.config, manager.View(), running);
      for k := 0 to |running|
        invariant TickAll(manager.config, manager.View(), running[k..]) == target
        invariant View() == x.(scheduler := manager.View())
      {
        assert running[k..][0] == running[k] && running[k..][1..] == running[k + 1..];
        TickRunning(running[k]);
      }
      assert manager.View() == target;
      ghost var announced := Announce(target, before, 0);
      for i := 0 to |manager.jobs|
        invariant |manager.jobs| == |target.jobs|
        invariant Announce(manager.View(), before, i) == announced
        invariant View() == x.(scheduler := manager.View())
      {
        var job := manager.jobs[i];
        if job.id in before && before[job.id] == Queued && job.state == Running {
          var updated := manager.ReportProgress(job.id, job.progress);
        }
      }
      SyncTrackedProgress();
    }

    method Advance(elapsed: int)
      modifies this, manager
      ensures View() == Demo.Advance(manager.config, old(View()), elapsed)
    {
      hide Demo.TickOnce;
      if elapsed <= 0 {
        return;
      }
      remainder := remainder + elapsed;
      ghost var target := Elapse(manager.config, View());
      while remainder >= TICK
        invariant Elapse(manager.config, View()) == target
      {
        remainder := remainder - TICK;
        TickKeeps(manager.config, View());
        TickOnce();
      }
    }

    method RunWorkflow(w: Workflow) returns (result: Result<Option<JobId>, ErrorCode>)
      modifies this, manager
      ensures (View(), result) == Demo.RunWorkflow(manager.config, old(View()), w)
    {
      hide Submit;
      hide UpdateProgress;
      if w.target.None? {
        return Failure(NotFound);
      }
      if w.target.value.IsProtected() {
        return Failure(SafetyBlocked);
      }
      if !w.known {
        return Failure(InvalidArgument);
      }
      if w.supported.Failure? {
        return Failure(w.supported.error);
      }
      if !w.supported.value {
        return Failure(Unavailable);
      }
      if w.planned.Failure? {
        return Failure(w.planned.error);
      }
      if w.inspection {
        return Success(None);
      }
      var submitted := manager.SubmitJob(w.planned.value);
      if submitted.Failure? {
        return Failure(submitted.error);
      }
      var id := submitted.value;
      var i := Find(manager.jobs, id);
      if i < |manager.jobs| && manager.jobs[i].state == Running {
        var reported := manager.ReportProgress(id, 0);
        if reported.Failure? {
          return Failure(reported.error);
        }
      }
      i := Find(manager.jobs, id);
      if i < |manager.jobs| {
        var shown := Tracked(Some(id), manager.jobs[i].state, 0, w.target.value.currentPath);
        if w.feature == Smart {
          smart := shown;
        } else if w.feature == Benchmark {
          benchmark := shown;
        }
      }
      result := Success(Some(id));
    }

    method PauseJob(id: JobId) returns (result: Result<(), ErrorCode>)
      modifies this, manager
      ensures (View(), result) == Demo.PauseJob(old(View()), id)
    {
      hide Pause;
      hide Sync;
      result := manager.PauseJob(id);
      if result.Success? {
        SyncTrackedProgress();
      }
    }

    method ResumeJob(id: JobId) returns (result: Result<(), ErrorCode>)
      modifies this, manager
      ensures (View(), result) == Demo.ResumeJob(old(View()), id)
    {
      hide Resume;
      hide Sync;
      result := manager.ResumeJob(id);
      if result.Success? {
        SyncTrackedProgress();
      }
    }

    method ListQueued() returns (queued: seq<JobId>)
      ensures queued == QueuedIds(manager.jobs)
    {
      queued := [];
      for i := 0 to |manager.jobs|
        invariant queued == QueuedIds(manager.jobs[..i])
      {
        assert manager.jobs[..i + 1][..i] == manager.jobs[..i];
        if manager.jobs[i].state == Queued {
          queued := queued + [manager.jobs[i].id];
        }
      }
      assert manager.jobs[..|manager.jobs|] == manager.jobs;
    }

    method CancelJob(id: JobId) returns (result: Result<(), ErrorCode>)
      modifies this, manager
      ensures (View(), result) == Demo.CancelJob(manager.config, old(View()), id)
    {
      hide Cancel;
      hide Sync;
      hide UpdateProgress;
      hide QueuedIds;
      if Find(manager.jobs, id) == |manager.jobs| {
        return Failure(NotFound);
      }
      var queued := ListQueued();
      ghost var x := View();
      result := manager.CancelJob(id);
      if result.Failure? {
        return;
      }
      ghost var target := AnnounceIds(manager.View(), queued);
      for k := 0 to |queued|
        invariant AnnounceIds(manager.View(), queued[k..]) == target
        invariant View() == x.(scheduler := manager.View())
      {
        assert queued[k..][0] == queued[k] && queued[k..][1..] == queued[k + 1..];
        var i := Find(manager.jobs, queued[k]);
        if i < |manager.jobs| && manager.jobs[i].state == Running {
          var updated := manager.ReportProgress(queued[k], manager.jobs[i].progress);
        }
      }
      SyncTrackedProgress();
    }
  }

  lemma TickKeeps(c: Config, x: Session)
    ensures Demo.TickOnce(c, x).remainder == x.remainder
  {
  }
}
