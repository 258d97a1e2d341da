/** What launching a workflow does, and how many ticks a time makes. */
module DemoLaunches {
  import opened Text
  import opened Inventory
  import opened Drives
  import opened Scheduler
  import opened SchedulerSafety
  import opened SchedulerTheorems
  import opened Demo
  import opened DemoTheorems

  /** The workflow names a drive that is not protected, is known, and the drive offers it. */
  predicate Offered(w: Workflow) {
    && w.target.Some? && w.target.value.status != Protected && w.target.value.protectionReasons == []
    && w.known && w.supported == Success(true) && w.planned.Success?
  }

  /** The session shows the new job under the feature it was launched from, as it stands
      and at the path of the drive named, and nothing else has changed there. */
  predicate Shows(x: Session, y: Session, w: Workflow, id: JobId)
    requires w.target.Some? && 1 <= id <= |y.scheduler.jobs|
  {
    var shown := Tracked(Some(id), y.scheduler.jobs[id - 1].state, 0, w.target.value.currentPath);
    && y.remainder == x.remainder
    && y.smart == (if w.feature == Smart then shown else x.smart)
    && y.benchmark == (if w.feature == Benchmark then shown else x.benchmark)
  }

  /** A launch succeeds exactly when the workflow is offered and either only inspects or
      plans something that is allowed; it then submits that, as one more job, and shows it;
      an inspection, and a launch refused, changes nothing. */
  lemma LaunchIs(c: Config, x: Session, w: Workflow)
    requires c.maxParallel >= 1 && Sane(c, x.scheduler)
    ensures var launched := RunWorkflow(c, x, w);
      && (launched.1.Success? <==>
           Offered(w) && (w.inspection || Allowed(w.planned.value.target, w.planned.value.safety, c.mode)))
      && (launched.1.Failure? || w.inspection ==> launched.0 == x)
      && (launched.1.Success? && w.inspection ==> launched.1.value == None)
      && (launched.1.Success? && !w.inspection ==>
           && launched.1.value == Some(|x.scheduler.jobs| + 1)
           && launched.0.scheduler == Submit(c, x.scheduler, w.planned.value).0
           && |launched.0.scheduler.jobs| == |x.scheduler.jobs| + 1
           && Shows(x, launched.0, w, |x.scheduler.jobs| + 1))
  {
    hide Sane, Submit, Allowed;
    var s := x.scheduler;
    if w.planned.Success? {
      SubmitAllows(c, s, w.planned.value);
      SubmitAppends(c, s, w.planned.value);
      var submitted := Submit(c, s, w.planned.value);
      if submitted.1.Success? {
        StepSane(c, s, CallSubmit(w.planned.value));
        SaneNumbered(c, s);
        SaneNumbered(c, submitted.0);
        FindNumbered(submitted.0, |s.jobs|);
        ReportNothing(submitted.0, |s.jobs|);
      }
    }
  }

  lemma SubmitAllows(c: Config, s: State, operation: Operation)
    ensures Submit(c, s, operation).1.Success? <==> Allowed(operation.target, operation.safety, c.mode)
  {
    hide Start, DriveIdOf;
    AuthorizeIs(operation.target, operation.safety, c.mode);
    hide Authorize;
  }

  /** Every half second is a tick, and what is left over counts for the next. */
  lemma HalfSecondsTick(c: Config, x: Session, elapsed: nat)
    requires 0 <= x.remainder < 500
    ensures var y := Advance(c, x, elapsed);
      && y.remainder == (x.remainder + elapsed) % 500
      && y.scheduler == Ticks(c, x.scheduler, (x.remainder + elapsed) / 500)
  {
    hide Tick, Sync;
    if elapsed > 0 {
      ElapsesWhole(c, x.(remainder := x.remainder + elapsed));
      ElapseRemainder(c, x.(remainder := x.remainder + elapsed));
    }
  }

  lemma {:induction false} ElapsesWhole(c: Config, x: Session)
    requires x.remainder >= 0
    ensures Elapse(c, x).remainder == x.remainder % 500
    decreases x.remainder
  {
    hide Tick, Sync;
    if x.remainder >= TICK {
      ElapsesWhole(c, TickOnce(c, x.(remainder := x.remainder - TICK)));
    }
  }
}
