/** What becomes of each job: what a call does to the job it names, what a start does,
    and how a job came to its end. */
module LifecycleTheorems {
  import opened Text
  import opened Inventory
  import opened Drives
  import opened Scheduler
  import opened SchedulerSafety
  import opened SchedulerTheorems

  // A start that is tried

  /** The n-th answer of the inventory is the operation's own drive, usable for it now. */
  predicate Permits(c: Config, operation: Operation, n: nat) {
    && c.observe(n).Success?
    && SamePhysicalDevice(operation.target.identity, c.observe(n).value.identity)
    && Allowed(c.observe(n).value, operation.safety, c.mode)
  }

  /** What an answer that does not permit the start says against it. */
  function Objection(c: Config, operation: Operation, n: nat): ErrorCode {
    if c.observe(n).Failure? then c.observe(n).error
    else if !SamePhysicalDevice(operation.target.identity, c.observe(n).value.identity) then IdentityMismatch
    else if
      && operation.safety != StatusOnly
      && (c.observe(n).value.status in {Protected, Unknown} || c.observe(n).value.protectionReasons != [])
    then SafetyBlocked
    else Unavailable
  }

  /** Job `b` is job `a` once its start was tried and the inventory gave its n-th answer:
      it runs, at the path observed, exactly when that permits it, and otherwise it has
      failed with the objection. */
  predicate Tried(c: Config, a: Job, b: Job, n: nat) {
    if Permits(c, a.operation, n) then b == a.(state := Running, observedPath := c.observe(n).value.currentPath)
    else b == a.(state := Failed, failure := Some(Objection(c, a.operation, n)))
  }

  lemma StartedIsTried(c: Config, job: Job, n: nat)
    requires c.mode != DryRun
    ensures Tried(c, job, Started(c, job, c.observe(n)), n)
  {
    hide SamePhysicalDevice, DriveIdOf;
    if c.observe(n).Success? && SamePhysicalDevice(job.operation.target.identity, c.observe(n).value.identity) {
      AuthorizeIs(c.observe(n).value, job.operation.safety, c.mode);
      SameIsIdentified(job.operation.target.identity, c.observe(n).value.identity);
    }
  }

  lemma SameIsIdentified(a: DriveIdentity, b: DriveIdentity)
    requires SamePhysicalDevice(a, b)
    ensures DriveIdOf(b).Success?
  {
    hide DriveIdOf;
  }

  // One call

  /** The job a call names. */
  function IdOf(call: Call): JobId {
    match call
    case CallSubmit(_) => 0
    case CallProgress(id, _) => id
    case CallComplete(id) => id
    case CallFail(id, _) => id
    case CallPause(id) => id
    case CallResume(id) => id
    case CallCancel(id) => id
  }

  /** The call may be made of a job in this state. */
  predicate Ripe(call: Call, job: Job) {
    match call
    case CallSubmit(_) => false
    case CallProgress(_, progress) => job.state in {Running, Paused} && 0 <= progress <= 100
    case CallComplete(_) => job.state in {Running, Paused}
    case CallFail(_, _) => job.state in {Running, Paused}
    case CallPause(_) => job.state == Running && job.operation.controls.canPause
    case CallResume(_) => job.state == Paused && job.operation.controls.canResume
    case CallCancel(_) => job.state == Queued || (job.state in {Running, Paused} && job.operation.controls.canCancel)
  }

  /** What it makes of the job. */
  function Outcome(call: Call, job: Job): Job {
    match call
    case CallSubmit(_) => job
    case CallProgress(_, progress) => job.(progress := progress)
    case CallComplete(_) => job.(state := Completed, progress := 100)
    case CallFail(_, error) => job.(state := Failed, failure := Some(error))
    case CallPause(_) => job.(state := Paused)
    case CallResume(_) => job.(state := Running)
    case CallCancel(_) => job.(state := Cancelled)
  }

  /** The call names a job that it may be made of. */
  predicate Accepts(s: State, call: Call) {
    1 <= IdOf(call) <= |s.jobs| && Ripe(call, s.jobs[IdOf(call) - 1])
  }

  /** Whether the scheduler reports success. */
  function Answer(c: Config, s: State, call: Call): bool {
    match call
    case CallSubmit(operation) => Submit(c, s, operation).1.Success?
    case CallProgress(id, progress) => UpdateProgress(s, id, progress).1.Success?
    case CallComplete(id) => Complete(c, s, id).1.Success?
    case CallFail(id, error) => MarkFailed(c, s, id, error).1.Success?
    case CallPause(id) => Pause(s, id).1.Success?
    case CallResume(id) => Resume(s, id).1.Success?
    case CallCancel(id) => Cancel(c, s, id).1.Success?
  }

  /** The n-th attempt, made between the two states, took a job out of the queue. */
  ghost predicate TrialAt(c: Config, s: State, t: State, n: nat)
    requires |s.jobs| <= |t.jobs| && n < |t.attempts|
  {
    && 1 <= t.attempts[n] <= |s.jobs|
    && s.jobs[t.attempts[n] - 1].state == Queued
    && Tried(c, s.jobs[t.attempts[n] - 1], t.jobs[t.attempts[n] - 1], n)
  }

  /** Job `i` was tried between the two states. */
  ghost predicate TriedBetween(c: Config, s: State, t: State, i: nat)
    requires i < |s.jobs| <= |t.jobs|
  {
    exists n :: |s.attempts| <= n < |t.attempts| && t.attempts[n] == i + 1 && TrialAt(c, s, t, n)
  }

  /** Every job is as it was, or was tried, by exactly the attempts in between. */
  ghost predicate OnlyTried(c: Config, s: State, t: State) {
    && |t.jobs| == |s.jobs|
    && s.attempts <= t.attempts && t.calls == |t.attempts|
    && (forall i :: 0 <= i < |s.jobs| ==> t.jobs[i] == s.jobs[i] || TriedBetween(c, s, t, i))
    && (forall n :: |s.attempts| <= n < |t.attempts| ==> TrialAt(c, s, t, n))
  }

  lemma StartTries(c: Config, s: State, i: nat)
    requires c.mode != DryRun && i < |s.jobs| && s.jobs[i].state == Queued && s.jobs[i].id == i + 1 && s.calls == |s.attempts|
    ensures OnlyTried(c, s, Start(c, s, i))
  {
    StartedIsTried(c, s.jobs[i], s.calls);
    hide Started, Tried;
    var t := Start(c, s, i);
    assert t.attempts[s.calls] == i + 1 && TrialAt(c, s, t, s.calls);
    assert TriedBetween(c, s, t, i);
  }

  lemma LeavesQueue(c: Config, a: Job, b: Job, n: nat)
    requires Tried(c, a, b, n)
    ensures b.state in {Running, Failed} && b.id == a.id && b.operation == a.operation && b.drive == a.drive && b.progress == a.progress
  {
    hide Permits, Objection;
  }

  lemma TriedMore(c: Config, s: State, t: State, u: State)
    requires OnlyTried(c, s, t) && OnlyTried(c, t, u)
    ensures OnlyTried(c, s, u)
  {
    hide TrialAt, TriedBetween;
    forall n | |s.attempts| <= n < |u.attempts| ensures TrialAt(c, s, u, n) {
      TrialStays(c, s, t, u, n);
    }
    forall i | 0 <= i < |s.jobs| ensures u.jobs[i] == s.jobs[i] || TriedBetween(c, s, u, i) {
      TriedEither(c, s, t, u, i);
    }
  }

  lemma TrialStays(c: Config, s: State, t: State, u: State, n: nat)
    requires OnlyTried(c, s, t) && OnlyTried(c, t, u) && |s.attempts| <= n < |u.attempts|
    ensures TrialAt(c, s, u, n)
  {
    hide Tried;
    if n < |t.attempts| {
      var i := t.attempts[n] - 1;
      assert TrialAt(c, s, t, n) && u.attempts[n] == t.attempts[n];
      LeavesQueue(c, s.jobs[i], t.jobs[i], n);
      forall m | |t.attempts| <= m < |u.attempts| ensures u.attempts[m] != i + 1 {
        assert TrialAt(c, t, u, m);
      }
    } else {
      assert TrialAt(c, t, u, n);
      var i := u.attempts[n] - 1;
      if t.jobs[i] != s.jobs[i] {
        var m :| |s.attempts| <= m < |t.attempts| && t.attempts[m] == i + 1 && TrialAt(c, s, t, m);
        LeavesQueue(c, s.jobs[i], t.jobs[i], m);
      }
    }
  }

  lemma TriedEither(c: Config, s: State, t: State, u: State, i: nat)
    requires OnlyTried(c, s, t) && OnlyTried(c, t, u) && i < |s.jobs|
    ensures u.jobs[i] == s.jobs[i] || TriedBetween(c, s, u, i)
  {
    if u.jobs[i] != s.jobs[i] {
      var n: nat;
      if t.jobs[i] != s.jobs[i] {
        n :| |s.attempts| <= n < |t.attempts| && t.attempts[n] == i + 1;
        assert u.attempts[n] == t.attempts[n];
      } else {
        n :| |t.attempts| <= n < |u.attempts| && u.attempts[n] == i + 1;
      }
      TrialStays(c, s, t, u, n);
    }
  }

  lemma {:induction false} StartEligibleTries(c: Config, s: State)
    requires c.mode != DryRun && s.calls == |s.attempts| && forall j :: 0 <= j < |s.jobs| ==> s.jobs[j].id == j + 1
    ensures OnlyTried(c, s, StartEligible(c, s))
    decreases QueuedCount(s.jobs)
  {
    hide OnlyTried, Started;
    var i := FirstEligible(s, 0);
    if |s.locks| < c.maxParallel && i < |s.jobs| {
      var t := Start(c, s, i);
      StartTries(c, s, i);
      StartChanges(c, s, i);
      QueuedCountUpdate(s.jobs, i, t.jobs[i]);
      hide Start;
      StartEligibleTries(c, t);
      TriedMore(c, s, t, StartEligible(c, t));
    } else {
      NothingTried(c, s);
    }
  }

  lemma NothingTried(c: Config, s: State)
    requires s.calls == |s.attempts|
    ensures OnlyTried(c, s, s)
  {
  }

  /** Job `i` moved as the call has it: the named job, if the call is accepted, to its
      outcome; any other at most by a start tried on it. */
  ghost predicate Moved(c: Config, s: State, t: State, call: Call, i: nat)
    requires i < |s.jobs| <= |t.jobs|
  {
    if IdOf(call) == i + 1 && Ripe(call, s.jobs[i]) then t.jobs[i] == Outcome(call, s.jobs[i])
    else t.jobs[i] == s.jobs[i] || TriedBetween(c, s, t, i)
  }

  ghost predicate AllMoved(c: Config, s: State, t: State, call: Call) {
    && |s.jobs| <= |t.jobs| && s.attempts <= t.attempts && t.calls == |t.attempts|
    && (forall i :: 0 <= i < |s.jobs| ==> Moved(c, s, t, call, i))
    && (forall n :: |s.attempts| <= n < |t.attempts| ==> TrialAt(c, s, t, n))
  }

  /** Only the named job was changed. */
  lemma AmendMoves(c: Config, s: State, call: Call, i: nat)
    requires i < |s.jobs| && IdOf(call) == i + 1 && Ripe(call, s.jobs[i]) && s.calls == |s.attempts|
    ensures AllMoved(c, s, s.(jobs := s.jobs[i := Outcome(call, s.jobs[i])]), call)
  {
  }

  /** The named job ended, and others may have been tried since. */
  lemma EndMovesAll(c: Config, s: State, call: Call, i: nat)
    requires Invariant(c, s) && s.calls == |s.attempts| && i < |s.jobs| && s.jobs[i].Active()
    requires IdOf(call) == i + 1 && Ripe(call, s.jobs[i]) && Outcome(call, s.jobs[i]).state in {Completed, Cancelled, Failed}
    ensures var job := Outcome(call, s.jobs[i]);
      AllMoved(c, s, StartEligible(c, ReleaseLock(s.(jobs := s.jobs[i := job]), job)), call)
  {
    hide StartEligible;
    var job := Outcome(call, s.jobs[i]);
    var released := ReleaseLock(s.(jobs := s.jobs[i := job]), job);
    InvariantParts(c, s, i);
    hide Invariant;
    StartEligibleTries(c, released);
    hide Tried;
    forall j | 0 <= j < |s.jobs| && j != i ensures released.jobs[j] == s.jobs[j] {
    }
    TriedSince(c, s, released, StartEligible(c, released), call, i);
  }

  lemma TriedSince(c: Config, s: State, released: State, t: State, call: Call, i: nat)
    requires i < |s.jobs| == |released.jobs| && released.attempts == s.attempts && OnlyTried(c, released, t)
    requires IdOf(call) == i + 1 && Ripe(call, s.jobs[i]) && released.jobs[i] == Outcome(call, s.jobs[i]) && released.jobs[i].state != Queued
    requires forall j :: 0 <= j < |s.jobs| && j != i ==> released.jobs[j] == s.jobs[j]
    ensures AllMoved(c, s, t, call)
  {
    hide Tried, Ripe, Outcome;
    forall n | |s.attempts| <= n < |t.attempts| ensures TrialAt(c, s, t, n) {
      assert TrialAt(c, released, t, n);
    }
    forall j | 0 <= j < |s.jobs| ensures Moved(c, s, t, call, j) {
      if t.jobs[j] != released.jobs[j] {
        var n :| |released.attempts| <= n < |t.attempts| && t.attempts[n] == j + 1 && TrialAt(c, released, t, n);
        assert TrialAt(c, s, t, n);
      }
    }
  }

  lemma InvariantParts(c: Config, s: State, i: nat)
    requires Invariant(c, s) && i < |s.jobs|
    ensures forall j :: 0 <= j < |s.jobs| ==> s.jobs[j].id == j + 1
    ensures s.jobs[i].Active() ==> c.mode != DryRun
    ensures s.jobs[i].state != Starting
  {
    assert ActiveHolds(s, i);
  }

  lemma NothingMoved(c: Config, s: State, call: Call)
    requires s.calls == |s.attempts| && !Accepts(s, call)
    ensures AllMoved(c, s, s, call)
  {
  }

  lemma FoundAt(c: Config, s: State, id: JobId)
    requires Invariant(c, s)
    ensures if 1 <= id <= |s.jobs| then Find(s.jobs, id) == id - 1 else Find(s.jobs, id) == |s.jobs|
  {
    if 1 <= id <= |s.jobs| {
      FindNumbered(s, id - 1);
    }
  }

  lemma EndLength(c: Config, s: State, i: nat, job: Job)
    requires Invariant(c, s) && s.calls == |s.attempts| && i < |s.jobs| && s.jobs[i].Active() && job.id == s.jobs[i].id
    ensures |StartEligible(c, ReleaseLock(s.(jobs := s.jobs[i := job]), job)).jobs| == |s.jobs|
  {
    hide StartEligible;
    InvariantParts(c, s, i);
    StartEligibleTries(c, ReleaseLock(s.(jobs := s.jobs[i := job]), job));
  }

  /** The calls that end a job, where they are accepted of an active one. */
  lemma EndingMoves(c: Config, s: State, call: Call)
    requires Invariant(c, s) && s.calls == |s.attempts| && Accepts(s, call) && s.jobs[IdOf(call) - 1].Active()
    requires call.CallComplete? || call.CallFail? || call.CallCancel?
    ensures Answer(c, s, call) && AllMoved(c, s, Step(c, s, call), call) && |Step(c, s, call).jobs| == |s.jobs|
  {
    hide StartEligible, ReleaseLock, AllMoved, Invariant;
    FoundAt(c, s, IdOf(call));
    var i := IdOf(call) - 1;
    EndMovesAll(c, s, call, i);
    EndLength(c, s, i, Outcome(call, s.jobs[i]));
  }

  /** The calls that change the named job alone. */
  lemma AmendingMoves(c: Config, s: State, call: Call)
    requires Invariant(c, s) && s.calls == |s.attempts| && Accepts(s, call)
    requires call.CallProgress? || call.CallPause? || call.CallResume? || s.jobs[IdOf(call) - 1].state == Queued
    ensures Answer(c, s, call) && AllMoved(c, s, Step(c, s, call), call)
    ensures Step(c, s, call) == s.(jobs := s.jobs[IdOf(call) - 1 := Outcome(call, s.jobs[IdOf(call) - 1])])
  {
    hide StartEligible, ReleaseLock, AllMoved, Invariant;
    FoundAt(c, s, IdOf(call));
    AmendMoves(c, s, call, IdOf(call) - 1);
  }

  lemma RefusedMoves(c: Config, s: State, call: Call)
    requires Invariant(c, s) && s.calls == |s.attempts| && !Accepts(s, call) && !call.CallSubmit?
    ensures !Answer(c, s, call) && Step(c, s, call) == s && AllMoved(c, s, s, call)
  {
    hide StartEligible, ReleaseLock, Invariant;
    NothingMoved(c, s, call);
    hide AllMoved;
    FoundAt(c, s, IdOf(call));
    if 1 <= IdOf(call) <= |s.jobs| {
      InvariantParts(c, s, IdOf(call) - 1);
    }
  }

  /** A call on a job succeeds exactly when it is accepted; it then makes of the named
      job what it should, and of no other anything but by starts; refused, it changes
      nothing. Progress, pause and resume change the named job alone. */
  lemma CallMoves(c: Config, s: State, call: Call)
    requires Invariant(c, s) && s.calls == |s.attempts| && !call.CallSubmit?
    ensures Answer(c, s, call) <==> Accepts(s, call)
    ensures AllMoved(c, s, Step(c, s, call), call) && |Step(c, s, call).jobs| == |s.jobs|
    ensures !Accepts(s, call) ==> Step(c, s, call) == s
    ensures Accepts(s, call) && (call.CallProgress? || call.CallPause? || call.CallResume?) ==>
      Step(c, s, call) == s.(jobs := s.jobs[IdOf(call) - 1 := Outcome(call, s.jobs[IdOf(call) - 1])])
  {
    hide Step, Answer, AllMoved, Invariant, Outcome;
    if !Accepts(s, call) {
      RefusedMoves(c, s, call);
    } else if (call.CallComplete? || call.CallFail? || call.CallCancel?) && s.jobs[IdOf(call) - 1].Active() {
      EndingMoves(c, s, call);
    } else {
      AmendingMoves(c, s, call);
    }
  }

  // Submission

  /** The job that a submission adds, before any start. */
  function Entry(c: Config, s: State, operation: Operation): Job
    requires DriveIdOf(operation.target.identity).Success?
  {
    Job(|s.jobs| + 1, operation, DriveIdOf(operation.target.identity).value, operation.target.currentPath,
        if c.mode == DryRun then Planned else Queued, 0, None)
  }

  /** A submission is accepted exactly when its drive is allowed; it then adds one job,
      which is tried at once exactly when its drive is free and the limit allows. */
  lemma SubmitMoves(c: Config, s: State, operation: Operation)
    requires Invariant(c, s) && s.calls == |s.attempts|
    ensures var t := Submit(c, s, operation).0;
      && (Submit(c, s, operation).1.Success? <==> Allowed(operation.target, operation.safety, c.mode))
      && (Submit(c, s, operation).1.Failure? ==> t == s)
      && (Submit(c, s, operation).1.Success? ==>
           && Submit(c, s, operation).1.value == |s.jobs| + 1
           && DriveIdOf(operation.target.identity).Success?
           && var entry := Entry(c, s, operation);
              var immediate := c.mode != DryRun && entry.drive !in s.locks && |s.locks| < c.maxParallel;
              && |t.jobs| == |s.jobs| + 1 && t.jobs[..|s.jobs|] == s.jobs
              && OnlyTried(c, s.(jobs := s.jobs + [entry]), t)
              && (if immediate then t.attempts == s.attempts + [|s.jobs| + 1] else t.attempts == s.attempts && t.jobs[|s.jobs|] == entry))
  {
    hide Consistent, DriveIdOf, Started, OnlyTried;
    AuthorizeIs(operation.target, operation.safety, c.mode);
    hide Authorize;
    NextIs(c, s);
    if Submit(c, s, operation).1.Success? {
      var entry := Entry(c, s, operation);
      var added := s.(jobs := s.jobs + [entry], nextId := s.nextId + 1);
      OnlyTriedEntry(c, s, added, entry);
      if c.mode != DryRun {
        StartTries(c, added, |s.jobs|);
      }
    }
  }

  /** Why a submission is refused: the drive cannot be identified, it is protected or of
      unknown ownership, or something real would destroy. */
  lemma RefusalIs(c: Config, s: State, operation: Operation)
    requires Submit(c, s, operation).1.Failure?
    ensures Submit(c, s, operation).1.error ==
      if DriveIdOf(operation.target.identity).Failure? then InvalidIdentity
      else if operation.safety != StatusOnly && (operation.target.status in {Protected, Unknown} || operation.target.protectionReasons != [])
      then SafetyBlocked
      else Unavailable
  {
    hide Start;
  }

  lemma NextIs(c: Config, s: State)
    requires Invariant(c, s)
    ensures s.nextId == |s.jobs| + 1
  {
  }

  lemma OnlyTriedEntry(c: Config, s: State, added: State, entry: Job)
    requires added == s.(jobs := s.jobs + [entry], nextId := added.nextId) && s.calls == |s.attempts|
    ensures OnlyTried(c, s.(jobs := s.jobs + [entry]), added)
    ensures forall t :: OnlyTried(c, added, t) ==> OnlyTried(c, s.(jobs := s.jobs + [entry]), t)
  {
    hide Tried;
    var base := s.(jobs := s.jobs + [entry]);
    forall t | OnlyTried(c, added, t) ensures OnlyTried(c, base, t) {
      forall n | |added.attempts| <= n < |t.attempts| ensures TrialAt(c, base, t, n) {
        assert TrialAt(c, added, t, n);
      }
      forall i | 0 <= i < |added.jobs| && t.jobs[i] != added.jobs[i] ensures TriedBetween(c, base, t, i) {
        var n :| |added.attempts| <= n < |t.attempts| && t.attempts[n] == i + 1 && TrialAt(c, added, t, n);
        assert TrialAt(c, base, t, n);
      }
    }
  }

  // Whole runs

  lemma {:induction false} RunCounts(c: Config, calls: seq<Call>)
    requires c.maxParallel >= 1
    ensures Invariant(c, Run(c, calls)) && Run(c, calls).calls == |Run(c, calls).attempts|
  {
    hide Step, Invariant;
    RunKeeps(c, calls);
    if calls != [] {
      var front, last := calls[..|calls| - 1], calls[|calls| - 1];
      RunCounts(c, front);
      StepCounts(c, Run(c, front), last);
    }
  }

  lemma StepCounts(c: Config, s: State, call: Call)
    requires Invariant(c, s) && s.calls == |s.attempts|
    ensures Step(c, s, call).calls == |Step(c, s, call).attempts| && |Step(c, s, call).jobs| >= |s.jobs|
  {
    hide Moved, TrialAt, Invariant, TriedBetween;
    if call.CallSubmit? {
      SubmitMoves(c, s, call.operation);
      hide Submit;
    } else {
      CallMoves(c, s, call);
      hide Step;
    }
  }

  /** The call was made, of a job that it could be made of, somewhere in the run. */
  ghost predicate Was(c: Config, calls: seq<Call>, call: Call) {
    exists k :: 0 <= k < |calls| && calls[k] == call && Accepts(Run(c, calls[..k]), call)
  }

  /** An attempt to start the job met with this objection. */
  ghost predicate Refused(c: Config, s: State, i: nat, error: ErrorCode)
    requires i < |s.jobs|
  {
    exists n :: 0 <= n < |s.attempts| && s.attempts[n] == i + 1
                && !Permits(c, s.jobs[i].operation, n) && error == Objection(c, s.jobs[i].operation, n)
  }

  lemma WasNext(c: Config, front: seq<Call>, last: Call, call: Call)
    ensures Was(c, front + [last], call) <==> Was(c, front, call) || (last == call && Accepts(Run(c, front), call))
  {
    hide Accepts, Run;
    var calls := front + [last];
    assert calls[..|front|] == front;
    forall k | 0 <= k < |front| ensures calls[..k] == front[..k] && calls[k] == front[k] {
    }
    if Was(c, front, call) {
      var k :| 0 <= k < |front| && front[k] == call && Accepts(Run(c, front[..k]), call);
      assert calls[k] == call;
    }
    if last == call && Accepts(Run(c, front), call) {
      assert calls[|front|] == call;
    }
  }

  /** How job `i` came to the end it has: it is completed, at full progress, exactly after
      an accepted completion; cancelled exactly after an accepted cancellation; and failed,
      with an error, exactly after an accepted failure or a refused start with that error. */
  ghost predicate Accounted(c: Config, calls: seq<Call>, s: State, i: nat)
    requires i < |s.jobs|
  {
    var job := s.jobs[i];
    && (job.state == Completed <==> Was(c, calls, CallComplete(i + 1)))
    && (job.state == Completed ==> job.progress == 100)
    && (job.state == Cancelled <==> Was(c, calls, CallCancel(i + 1)))
    && (job.state == Failed <==> job.failure.Some?)
    && (forall e :: job.failure == Some(e) <==> Was(c, calls, CallFail(i + 1, e)) || Refused(c, s, i, e))
  }

  /** No call was accepted for a job that was not there yet. */
  lemma {:induction false} NotYet(c: Config, calls: seq<Call>, call: Call)
    requires c.maxParallel >= 1 && IdOf(call) > |Run(c, calls).jobs|
    ensures !Was(c, calls, call)
  {
    if calls != [] {
      hide Step, Accepts, Was, Invariant;
      var front, last := calls[..|calls| - 1], calls[|calls| - 1];
      assert calls == front + [last];
      RunCounts(c, front);
      StepCounts(c, Run(c, front), last);
      NotYet(c, front, call);
      WasNext(c, front, last, call);
      NotAccepted(Run(c, front), call);
    }
  }

  lemma NotAccepted(s: State, call: Call)
    requires IdOf(call) > |s.jobs|
    ensures !Accepts(s, call)
  {
  }

  /** A job that was tried is accounted for by the trial. */
  lemma TriedAccounted(c: Config, s: State, t: State, i: nat)
    requires i < |s.jobs| <= |t.jobs| && s.attempts <= t.attempts
    requires s.jobs[i].failure.None? && (forall n :: 0 <= n < |s.attempts| ==> s.attempts[n] != i + 1)
    requires forall n :: |s.attempts| <= n < |t.attempts| ==> TrialAt(c, s, t, n) || t.attempts[n] != i + 1
    requires t.jobs[i] == s.jobs[i] || TriedBetween(c, s, t, i)
    requires t.jobs[i].operation == s.jobs[i].operation
    requires s.jobs[i].state != Failed
    ensures t.jobs[i].state == Failed <==> t.jobs[i].failure.Some?
    ensures forall e :: t.jobs[i].failure == Some(e) <==> Refused(c, t, i, e)
  {
    hide Permits, Objection;
    forall n | 0 <= n < |s.attempts| ensures t.attempts[n] != i + 1 {
      assert t.attempts[n] == s.attempts[n];
    }
    forall e | Refused(c, t, i, e) ensures t.jobs[i].failure == Some(e) {
      var n :| 0 <= n < |t.attempts| && t.attempts[n] == i + 1 && !Permits(c, t.jobs[i].operation, n) && e == Objection(c, t.jobs[i].operation, n);
      assert TrialAt(c, s, t, n);
    }
    if t.jobs[i] != s.jobs[i] {
      var n :| |s.attempts| <= n < |t.attempts| && t.attempts[n] == i + 1 && TrialAt(c, s, t, n);
      if !Permits(c, t.jobs[i].operation, n) {
        assert Refused(c, t, i, Objection(c, t.jobs[i].operation, n));
      }
    }
  }

  /** Refusals stay, and there are none but by trials. */
  lemma RefusedStays(c: Config, s: State, t: State, i: nat)
    requires i < |s.jobs| <= |t.jobs| && s.attempts <= t.attempts && t.jobs[i].operation == s.jobs[i].operation
    requires s.jobs[i].state != Queued && forall n :: |s.attempts| <= n < |t.attempts| ==> TrialAt(c, s, t, n)
    ensures forall e :: Refused(c, t, i, e) <==> Refused(c, s, i, e)
  {
    hide Permits, Objection, Tried;
    forall n | |s.attempts| <= n < |t.attempts| ensures t.attempts[n] != i + 1 {
      assert TrialAt(c, s, t, n);
    }
    forall e ensures Refused(c, t, i, e) <==> Refused(c, s, i, e) {
      if Refused(c, t, i, e) {
        var n :| 0 <= n < |t.attempts| && t.attempts[n] == i + 1 && !Permits(c, t.jobs[i].operation, n) && e == Objection(c, t.jobs[i].operation, n);
        assert s.attempts[n] == i + 1;
      }
      if Refused(c, s, i, e) {
        var n :| 0 <= n < |s.attempts| && s.attempts[n] == i + 1 && !Permits(c, s.jobs[i].operation, n) && e == Objection(c, s.jobs[i].operation, n);
        assert t.attempts[n] == i + 1;
      }
    }
  }

  lemma QueuedUntried(c: Config, s: State, i: nat)
    requires Invariant(c, s) && i < |s.jobs| && s.jobs[i].state == Queued
    ensures forall n :: 0 <= n < |s.attempts| ==> s.attempts[n] != i + 1
  {
    forall n | 0 <= n < |s.attempts| && s.attempts[n] == i + 1 ensures false {
      assert WaitsBehind(s, n, i);
    }
  }

  lemma NewUntried(c: Config, s: State)
    requires Invariant(c, s)
    ensures forall n :: 0 <= n < |s.attempts| ==> 1 <= s.attempts[n] <= |s.jobs|
  {
  }

  lemma UntriedUnrefused(c: Config, s: State, i: nat)
    requires i < |s.jobs| && forall n :: 0 <= n < |s.attempts| ==> s.attempts[n] != i + 1
    ensures forall e :: !Refused(c, s, i, e)
  {
  }

  /** `base` is the state before the last call as far as job `i` goes. */
  ghost predicate StandsFor(c: Config, front: seq<Call>, base: State, i: nat) {
    var s := Run(c, front);
    i < |s.jobs| <= |base.jobs| && base.jobs[i] == s.jobs[i] && base.attempts == s.attempts
  }

  /** What the last call adds to the account of a job that was there before it. */
  lemma CallAccounted(c: Config, front: seq<Call>, last: Call, base: State, t: State, i: nat)
    requires c.maxParallel >= 1 && StandsFor(c, front, base, i)
    requires AllMoved(c, base, t, last) && Accounted(c, front, base, i)
    ensures Accounted(c, front + [last], t, i)
  {
    hide Run, Was, Ripe, TriedBetween, Refused, Tried, Accounted, AllMoved;
    var s := Run(c, front);
    RunCounts(c, front);
    forall call | IdOf(call) == i + 1
      ensures Was(c, front + [last], call) <==> Was(c, front, call) || (last == call && Ripe(call, base.jobs[i]))
    {
      WasNext(c, front, last, call);
    }
    if base.jobs[i].state == Queued {
      QueuedUntried(c, s, i);
    }
    if IdOf(last) == i + 1 && Ripe(last, base.jobs[i]) {
      OutcomeAccounted(c, front, last, base, t, i);
    } else {
      TrialAccounted(c, front, last, base, t, i);
    }
  }

  lemma OutcomeAccounted(c: Config, front: seq<Call>, last: Call, s: State, t: State, i: nat)
    requires i < |s.jobs| && AllMoved(c, s, t, last) && Accounted(c, front, s, i)
    requires s.jobs[i].state == Queued ==> forall n :: 0 <= n < |s.attempts| ==> s.attempts[n] != i + 1
    requires IdOf(last) == i + 1 && Ripe(last, s.jobs[i])
    requires forall call :: IdOf(call) == i + 1 ==>
      (Was(c, front + [last], call) <==> Was(c, front, call) || (last == call && Ripe(call, s.jobs[i])))
    ensures Accounted(c, front + [last], t, i)
  {
    hide Was, TriedBetween, Refused, TrialAt;
    assert Moved(c, s, t, last, i);
    if s.jobs[i].state == Queued {
      CancelledUntried(c, s, t, i);
      UntriedUnrefused(c, s, i);
    } else {
      RefusedStays(c, s, t, i);
    }
  }

  /** A queued job that was cancelled is not tried any more. */
  lemma CancelledUntried(c: Config, s: State, t: State, i: nat)
    requires i < |s.jobs| <= |t.jobs| && s.attempts <= t.attempts && t.jobs[i].state == Cancelled
    requires forall n :: 0 <= n < |s.attempts| ==> s.attempts[n] != i + 1
    requires forall n :: |s.attempts| <= n < |t.attempts| ==> TrialAt(c, s, t, n)
    ensures forall e :: !Refused(c, t, i, e)
  {
    forall n | 0 <= n < |t.attempts| ensures t.attempts[n] != i + 1 {
      if n >= |s.attempts| {
        assert TrialAt(c, s, t, n);
      } else {
        assert t.attempts[n] == s.attempts[n];
      }
    }
    UntriedUnrefused(c, t, i);
  }

  lemma TrialAccounted(c: Config, front: seq<Call>, last: Call, s: State, t: State, i: nat)
    requires i < |s.jobs| && AllMoved(c, s, t, last) && Accounted(c, front, s, i)
    requires s.jobs[i].state == Queued ==> forall n :: 0 <= n < |s.attempts| ==> s.attempts[n] != i + 1
    requires !(IdOf(last) == i + 1 && Ripe(last, s.jobs[i]))
    requires forall call :: IdOf(call) == i + 1 ==>
      (Was(c, front + [last], call) <==> Was(c, front, call) || (last == call && Ripe(call, s.jobs[i])))
    ensures Accounted(c, front + [last], t, i)
  {
    hide Was, Refused, Permits, Objection, Ripe;
    assert Moved(c, s, t, last, i);
    assert forall call :: IdOf(call) == i + 1 ==> (Was(c, front + [last], call) <==> Was(c, front, call));
    if s.jobs[i].state == Queued {
      UntriedUnrefused(c, s, i);
      TriedAccounted(c, s, t, i);
    } else {
      RefusedStays(c, s, t, i);
    }
  }

  lemma EntryAccounted(c: Config, front: seq<Call>, operation: Operation)
    requires c.maxParallel >= 1 && Submit(c, Run(c, front), operation).1.Success?
    ensures var t := Submit(c, Run(c, front), operation).0;
      |t.jobs| == |Run(c, front).jobs| + 1 && Accounted(c, front + [CallSubmit(operation)], t, |t.jobs| - 1)
  {
    hide Run, Was, Submit, Invariant, Refused, OnlyTried, Permits, Objection, DriveIdOf, Allowed;
    var s := Run(c, front);
    var i := |s.jobs|;
    RunCounts(c, front);
    SubmitMoves(c, s, operation);
    NewUntried(c, s);
    var t := Submit(c, s, operation).0;
    forall call | IdOf(call) == i + 1 ensures !Was(c, front + [CallSubmit(operation)], call) {
      NotYet(c, front, call);
      WasNext(c, front, CallSubmit(operation), call);
    }
    EntryTried(c, s.(jobs := s.jobs + [Entry(c, s, operation)]), t, i);
  }

  lemma EntryTried(c: Config, s: State, t: State, i: nat)
    requires OnlyTried(c, s, t) && i < |s.jobs| && s.jobs[i].state in {Queued, Planned} && s.jobs[i].failure.None?
    requires forall n :: 0 <= n < |s.attempts| ==> s.attempts[n] != i + 1
    ensures t.jobs[i].state in {Queued, Planned, Running, Failed}
    ensures t.jobs[i].state == Failed <==> t.jobs[i].failure.Some?
    ensures forall e :: t.jobs[i].failure == Some(e) <==> Refused(c, t, i, e)
  {
    hide Permits, Objection, Refused;
    TriedAccounted(c, s, t, i);
  }

  /** Over every run every job is accounted for. */
  lemma {:induction false} EndsAreAccounted(c: Config, calls: seq<Call>, i: nat)
    requires c.maxParallel >= 1 && i < |Run(c, calls).jobs|
    ensures Accounted(c, calls, Run(c, calls), i)
    decreases |calls|, 0
  {
    hide Accounted, Invariant, Step;
    if calls != [] {
      var front, last := calls[..|calls| - 1], calls[|calls| - 1];
      assert calls == front + [last];
      LastAccounted(c, front, last, i);
    }
  }

  lemma SubmittedMoves(c: Config, s: State, t: State, call: Call)
    requires call.CallSubmit? && OnlyTried(c, s, t)
    ensures AllMoved(c, s, t, call)
  {
    hide TrialAt, TriedBetween;
  }

  lemma SameAccount(c: Config, front: seq<Call>, s: State, base: State, i: nat)
    requires i < |s.jobs| <= |base.jobs| && base.jobs[i] == s.jobs[i] && base.attempts == s.attempts && Accounted(c, front, s, i)
    ensures Accounted(c, front, base, i)
  {
    hide Was, Permits, Objection;
    assert forall e :: Refused(c, base, i, e) <==> Refused(c, s, i, e);
  }

  lemma LastAccounted(c: Config, front: seq<Call>, last: Call, i: nat)
    requires c.maxParallel >= 1 && i < |Step(c, Run(c, front), last).jobs|
    ensures Accounted(c, front + [last], Step(c, Run(c, front), last), i)
    decreases |front|, 1
  {
    hide Accounted, Invariant, Run, Submit, Answer, AllMoved;
    var s := Run(c, front);
    RunCounts(c, front);
    if i < |s.jobs| {
      EndsAreAccounted(c, front, i);
    }
    if last.CallSubmit? {
      SubmitMoves(c, s, last.operation);
      if Submit(c, s, last.operation).1.Success? {
        if i == |s.jobs| {
          EntryAccounted(c, front, last.operation);
        } else {
          var base := s.(jobs := s.jobs + [Entry(c, s, last.operation)]);
          SubmittedMoves(c, base, Step(c, s, last), last);
          SameAccount(c, front, s, base, i);
          CallAccounted(c, front, last, base, Step(c, s, last), i);
        }
      } else {
        NothingMoved(c, s, last);
        CallAccounted(c, front, last, s, s, i);
      }
    } else {
      CallMoves(c, s, last);
      hide Step;
      CallAccounted(c, front, last, s, Step(c, s, last), i);
    }
  }

  /** The n-th attempt got the n-th answer of the inventory, and that decided it: the job
      runs, or ran, at the path observed exactly when the answer permitted it. */
  ghost predicate Decided(c: Config, s: State, n: nat)
    requires n < |s.attempts|
  {
    && 1 <= s.attempts[n] <= |s.jobs|
    && var job := s.jobs[s.attempts[n] - 1];
       if Permits(c, job.operation, n)
       then job.state in {Running, Paused, Completed, Cancelled, Failed} && job.observedPath == c.observe(n).value.currentPath
       else job.state == Failed
  }

  ghost predicate AllDecided(c: Config, s: State) {
    && (forall n :: 0 <= n < |s.attempts| ==> Decided(c, s, n))
    && (forall i :: 0 <= i < |s.jobs| && s.jobs[i].state in {Running, Paused, Completed} ==> Attempted(s, i))
  }

  ghost predicate Attempted(s: State, i: nat) {
    exists n :: 0 <= n < |s.attempts| && s.attempts[n] == i + 1
  }

  lemma MovesDecided(c: Config, s: State, t: State, call: Call)
    requires AllMoved(c, s, t, call) && AllDecided(c, s) && |t.jobs| == |s.jobs|
    ensures AllDecided(c, t)
  {
    hide Permits, AllMoved, AllDecided;
    forall n | 0 <= n < |t.attempts| ensures Decided(c, t, n) {
      DecidedStays(c, s, t, call, n);
    }
    forall i | 0 <= i < |t.jobs| && t.jobs[i].state in {Running, Paused, Completed} ensures Attempted(t, i) {
      AttemptedStays(c, s, t, call, i);
    }
    DecidedBy(c, t);
  }

  lemma DecidedBy(c: Config, t: State)
    requires forall n :: 0 <= n < |t.attempts| ==> Decided(c, t, n)
    requires forall i :: 0 <= i < |t.jobs| && t.jobs[i].state in {Running, Paused, Completed} ==> Attempted(t, i)
    ensures AllDecided(c, t)
  {
    hide Decided, Attempted;
  }

  lemma DecidedStays(c: Config, s: State, t: State, call: Call, n: nat)
    requires AllMoved(c, s, t, call) && AllDecided(c, s) && n < |t.attempts|
    ensures Decided(c, t, n)
  {
    hide Permits, Objection, Attempted;
    if n < |s.attempts| {
      assert Decided(c, s, n) && t.attempts[n] == s.attempts[n];
      var i := s.attempts[n] - 1;
      assert Moved(c, s, t, call, i);
      assert s.jobs[i].state != Queued;
    } else {
      assert TrialAt(c, s, t, n);
    }
  }

  lemma AttemptedStays(c: Config, s: State, t: State, call: Call, i: nat)
    requires AllMoved(c, s, t, call) && AllDecided(c, s) && i < |t.jobs| == |s.jobs| && t.jobs[i].state in {Running, Paused, Completed}
    ensures Attempted(t, i)
  {
    hide Decided, TrialAt;
    assert Moved(c, s, t, call, i);
    if s.jobs[i].state in {Running, Paused, Completed} {
      var n :| 0 <= n < |s.attempts| && s.attempts[n] == i + 1;
      assert t.attempts[n] == i + 1;
    }
  }

  lemma EntryDecided(c: Config, s: State, entry: Job)
    requires AllDecided(c, s) && entry.state in {Queued, Planned}
    ensures AllDecided(c, s.(jobs := s.jobs + [entry]))
  {
    hide Permits, Attempted;
    var t := s.(jobs := s.jobs + [entry]);
    forall n | 0 <= n < |t.attempts| ensures Decided(c, t, n) {
      assert Decided(c, s, n);
    }
    forall i ensures Attempted(t, i) == Attempted(s, i) {
      SameAttempts(s, t, i);
    }
  }

  lemma SameAttempts(s: State, t: State, i: nat)
    requires t.attempts == s.attempts
    ensures Attempted(t, i) == Attempted(s, i)
  {
  }

  /** Over every run: each attempt to start a job was decided by its own answer, and only
      jobs that were tried run. */
  lemma {:induction false} TrialsDecide(c: Config, calls: seq<Call>)
    requires c.maxParallel >= 1
    ensures AllDecided(c, Run(c, calls))
  {
    hide AllDecided, Invariant, Step;
    if calls != [] {
      var front, last := calls[..|calls| - 1], calls[|calls| - 1];
      TrialsDecide(c, front);
      RunCounts(c, front);
      StepDecided(c, Run(c, front), last);
    } else {
      NothingDecided(c);
    }
  }

  lemma NothingDecided(c: Config)
    ensures AllDecided(c, EMPTY)
  {
  }

  lemma StepDecided(c: Config, s: State, call: Call)
    requires Invariant(c, s) && s.calls == |s.attempts| && AllDecided(c, s)
    ensures AllDecided(c, Step(c, s, call))
  {
    hide AllDecided, Invariant, Submit, AllMoved, OnlyTried, Accepts, DriveIdOf, Allowed;
    if call.CallSubmit? {
      SubmitMoves(c, s, call.operation);
      if Submit(c, s, call.operation).1.Success? {
        var base := s.(jobs := s.jobs + [Entry(c, s, call.operation)]);
        var t := Submit(c, s, call.operation).0;
        EntryDecided(c, s, Entry(c, s, call.operation));
        SubmittedMoves(c, base, t, call);
        MovesDecided(c, base, t, call);
      }
    } else {
      CallMoves(c, s, call);
      hide Step;
      MovesDecided(c, s, Step(c, s, call), call);
    }
  }
}
