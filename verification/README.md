# DriveLab 0.3.0: a verified model of its decision code

DriveLab lists the block devices of a Linux host and says which of them nothing
uses. This project models the code that decides this, and the code that acts on
it, in Dafny, and proves properties of the model.

- **Ownership** (`Backing`, `BackingTheory`, `Tracing`, `Ownership`, `GraphBuilder`,
  `Assessor`, `Classifier`, `GraphTheorems`, `OwnershipTheorems`, `StatusTheorems`,
  `ReadyTheorems`, `DecisionTheorems`, `OwnershipStability`, `OwnershipExceptions`).
  From a snapshot of the inventory and evidence about layers, mounts and signatures an
  assessment builds a consumer-to-provider graph, walks it from every node, lays usage
  claims over it and decides for each physical device whether it is READY, busy,
  protected or unknown. `Ownership` says what the result is, on sets; the three
  builder modules compute it with the loops and tables of the program and are proved
  to give just that. The theorem modules then say what this amounts to, edge by edge,
  path by path and status by status.
- **Jobs** (`Drives`, `DriveTheorems`, `Scheduler`, `SchedulerTheorems`,
  `SchedulerSafety`, `LifecycleTheorems`, `Jobs`). A scheduler runs jobs on drives,
  one at a time on each and a limited number in all.
- **Simulated session** (`Demo`, `DemoTheorems`, `DemoLaunches`, `DemoSessions`). A
  tick loop drives the scheduler.
- **Publication** (`Production`, `ProductionTheorems`, `PublicationTheorems`,
  `ReaderTheorems`, `ProductionEvidence`, `ProductionApp`). A worker publishes
  snapshots by generation and phase; a reader polls whenever it likes and keeps a
  selected drive. Worker, controller and reader are atomic steps of one system, and
  the results hold of every interleaving of them, whether or not there is a source to
  scan.
- **Inventory** (`SourceRecords`, `Capacity`, `RawInventory`, `RawInventoryTheorems`,
  `Identifiers`, `Identities`, `IdentifyTheorems`, `IdentityTheorems`,
  `SysfsOwnership`). Attributes are read, records of one device merged, shared
  locators rejected, partitions tied to disks, identities derived and made unique, and
  links between stacked devices read.
- **Host usage** (`HostReads`, `MountUsage`, `SwapUsage`, `DiskUsage`, `HostUsage`,
  `HostUsageTheorems`, `UsageIssues`, `UsageSoundness`, `ScannedExample`). Paths are
  confirmed twice, mounts and swaps attributed, and a partition's usage counted for
  its disk. `UsageSoundness` says what READY then means for the mounts and swaps of
  the host.
- **Discovery** (`Discovery`, `DiscoveryTheorems`, `EndpointTheorems`,
  `DiscoverySoundness`, `ProgramSoundness`). The scan from source records to the
  resolved snapshot, and READY, as assessed and as published, carried all the way
  back.

`Text`, `Canonical`, `Inventory`, `IssueOrder` and `OrderTheorems` hold what these share:
decimal numbers, sorting with and without repetition, the inventory records, and the
orders of their issues and of the parts of an assessment.

Where the program changes an object, an array or a table step by step the model has
a class, an array or a loop, proved against a function; what the program promises
is then proved of that function. What the program asks of the outside (whether a
drive is still there, what a path names, what a scan returns, when another thread
acts) is a parameter about which nothing is assumed.

Three expectations do not hold of the code. Further gaps can turn a device READY:
`OwnershipExceptions` gives the exact condition under which they do not, and
`ScannedExample` a host and a scan of it where they do. Further claims can do so in an
assessment taken alone, on a snapshot that leaves a mount unreported; the exact
condition and an example are in `OwnershipExceptions`, and `UsageSoundness` and
`DiscoverySoundness` prove that they never do on a snapshot that the program's own
scan leaves. The lock identifier built from serial number, model and capacity does not
determine them; `DriveTheorems` gives two drives that share one, and shows that the
comparison made before a job starts tells them apart exactly when their serial numbers
differ in length.

`dafny verify dfyconfig.toml` checks everything.

## Model

| member | source | states |
|---|---|---|
| `BackingTheory.BoundedTraceIsExact` | 0.3.0/source/src/core/ownership_graph.cpp:223-276 | When no simple path from the node exceeds 256 edges, its trace is structurally complete exactly when nothing reachable is missing, incomplete, unbacked or on a cycle; and its owners are exactly the reachable physical endpoints, on cyclic graphs too |
| `BackingTheory.StructuralTraceIsExact` | 0.3.0/source/src/core/ownership_graph.cpp:226-276 | At any depth: a trace reported structurally complete has sound backing, its owners are exactly the physical endpoints reachable, and it visited exactly what is reachable |
| `BackingTheory.TraceBasics` | 0.3.0/source/src/core/ownership_graph.cpp:233-273 | Facts of every trace, cyclic and over-deep ones included: what it finds is reachable, and every reason it gives names a reachable node |
| `Tracing.Tracer.Follow` | 0.3.0/source/src/core/ownership_graph.cpp:233-270 | The recursive walk over shared visited, owner and active sets and a reason list leaves exactly the state that the walk function gives |
| `Tracing.Tracer.Expand` | 0.3.0/source/src/core/ownership_graph.cpp:264-268 | Following every provider of a node with the node marked active, and unmarked again afterwards |
| `Tracing.Tracer.Arrive` | 0.3.0/source/src/core/ownership_graph.cpp:241-263 | What is recorded about a node when the walk enters it |
| `GraphBuilder.BuildGraph` | 0.3.0/source/src/core/ownership_graph.cpp:155-221 | The graph built by the loops is the one defined on sets: completeness flags, providers, physical endpoints and issues |
| `GraphBuilder.ListBlocks` | 0.3.0/source/src/core/ownership_graph.cpp:156-162 | The first inventory node of each key |
| `GraphBuilder.ListNodes` | 0.3.0/source/src/core/ownership_graph.cpp:166-170 | The first record of each key in the sorted list, with its kind, facts and flag, and every key that occurs more than once |
| `GraphBuilder.SortNodes` | 0.3.0/source/src/core/ownership_graph.cpp:163-170 | The table of nodes does not depend on the order in which records were supplied: it is read off the one sorted list |
| `GraphBuilder.MarkDuplicates` | 0.3.0/source/src/core/ownership_graph.cpp:171-174 | Every duplicated key is made incomplete and reported |
| `GraphBuilder.LinkPartitions` | 0.3.0/source/src/core/ownership_graph.cpp:176-192 | A partition gets an edge to its disk exactly when the relation is clean and the disk lists it once, and otherwise an issue |
| `GraphBuilder.IndexEdges` | 0.3.0/source/src/core/ownership_graph.cpp:199-207 | Providers by consumer; an edge with a missing end taints the other end and is reported |
| `GraphBuilder.ApplyIssues` | 0.3.0/source/src/core/ownership_graph.cpp:208-210 | Every node that an issue names is made incomplete |
| `GraphBuilder.ListEndpoints` | 0.3.0/source/src/core/ownership_graph.cpp:211-221 | Physical endpoints, with an issue for each that has backing edges |
| `Assessor.TraceAll` | 0.3.0/source/src/core/ownership_graph.cpp:226-276 | One trace for every node, each representing the walk from it |
| `Assessor.ReasonsFor` | 0.3.0/source/src/core/ownership_graph.cpp:282-293 | The reasons of a trace that may concern one owner: all but those of separate, structurally complete branches |
| `Assessor.ClaimMemberships` | 0.3.0/source/src/core/ownership_graph.cpp:297-302 | A claim for each block freshly read as a member |
| `Assessor.ClaimMounts` | 0.3.0/source/src/core/ownership_graph.cpp:308-325 | A claim for each attributed mount; unknown usage for a mount that no earlier claim covers and that is not harmless |
| `Assessor.ClaimSwaps` | 0.3.0/source/src/core/ownership_graph.cpp:326-329 | A claim for each attributed swap, unknown usage for any other |
| `Assessor.CollectClaims` | 0.3.0/source/src/core/ownership_graph.cpp:297-334 | All claims, in their one order without repetition |
| `Assessor.ChargeTraces` | 0.3.0/source/src/core/ownership_graph.cpp:337-345 | Reasons and doubt charged to the owners of incomplete traces |
| `Assessor.ChargeClaims` | 0.3.0/source/src/core/ownership_graph.cpp:346-357 | Reasons, protection, use and doubt charged to the owners of each claim's consumer |
| `Classifier.CollectGaps` | 0.3.0/source/src/core/ownership_graph.cpp:383-390 | The gaps that are not separate from the device, and whether there are none |
| `Classifier.CollectConflicts` | 0.3.0/source/src/core/ownership_graph.cpp:392-400 | A vanished or conflicting signature above the device makes it doubtful |
| `Classifier.CheckCoverage` | 0.3.0/source/src/core/ownership_graph.cpp:412-421 | Coverage is complete exactly when host coverage holds and every issue is separate, harmless or superseded |
| `Classifier.CheckSignatures` | 0.3.0/source/src/core/ownership_graph.cpp:422-437 | Fresh evidence without membership is required of every block above the device |
| `Classifier.DecideDevice` | 0.3.0/source/src/core/ownership_graph.cpp:378-459 | Status and reasons of one device: doubt, then protection, then use, then the checks |
| `Classifier.DecideAll` | 0.3.0/source/src/core/ownership_graph.cpp:376-460 | A decision for every candidate in scope and for nothing else |
| `Classifier.AssessOwnership` | 0.3.0/source/src/core/ownership_graph.cpp:132-464 | The assessment computed by the loops holds, field by field and in order, what the definitions on sets say, down to the kind and facts of every node |
| `OwnershipTheorems.ReadyIsSound` | 0.3.0/source/src/core/ownership_graph.cpp:295-355 | READY device: resolved whole-device identity, path, size, writable; no claim, attributed mount or swap reaches it; no host mount unexplained; and, listed inactive loop devices excepted, everything it backs is soundly backed and freshly read without membership |
| `OwnershipTheorems.IdentityFailuresAreIsolated` | 0.3.0/source/src/core/ownership_graph.cpp:282-293 | For a consumer with structurally complete backing, the failures charged to a disk are non-empty exactly when that disk itself lacks a resolved id or a path |
| `OwnershipTheorems.ReadyClearAbove` | 0.3.0/source/src/core/ownership_graph.cpp:295-296 | Only a listed inactive loop device may be without sound backing above a READY device |
| `GraphTheorems.BlocksAreFirst` | 0.3.0/source/src/core/ownership_graph.cpp:158-162 | A key stands for the first inventory node that has it |
| `GraphTheorems.FollowsIs` | 0.3.0/source/src/core/ownership_graph.cpp:175-221 | A backing edge is followed exactly from a node that is no whole, non-virtual disk, along a reported edge or from an undisputed, numbered partition to the disk that it names and that lists it once |
| `GraphTheorems.CompleteIs` | 0.3.0/source/src/core/ownership_graph.cpp:163-221 | A node is complete exactly when one record, declared complete, has its key, no issue names it, a partition is linked to its disk, all edges at it have known ends, and no edge leaves an endpoint |
| `StatusTheorems.StatusByTraces` | 0.3.0/source/src/core/ownership_graph.cpp:337-408 | For every snapshot and evidence: a failure not apart from the device or an unsteady signature above it makes it Unknown; else it is Protected exactly when read-only or when a claim other than Held, BlockHandle and FileHandle has it among its owners; else Busy exactly when a claim of those three has |
| `StatusTheorems.StatusIsExact` | 0.3.0/source/src/core/ownership_graph.cpp:337-408 | The same on backing paths, wherever the walk sees all that rests on the device: doubt is something unsound that rests on it, a missing identity or path, or an unsteady signature above; Protected is a claim, membership, mount or swap above it; Busy is an open handle above it |
| `StatusTheorems.MountedIsNotFree` | 0.3.0/source/src/core/ownership_graph.cpp:308-325 | A mount attributed to a device, to a partition of it, or to anything that rests on it and is seen whole, leaves it Protected or, in doubt, Unknown: never Busy, never Ready |
| `StatusTheorems.SwappedIsNotFree` | 0.3.0/source/src/core/ownership_graph.cpp:326-329 | The same of an active swap |
| `StatusTheorems.TracesReport` | 0.3.0/source/src/core/ownership_graph.cpp:226-273 | Where the walk sees all that backs a node its trace reports everything that is wrong with any of it, and nothing else but cycles |
| `StatusTheorems.TracesTell` | 0.3.0/source/src/core/ownership_graph.cpp:226-276 | The recorded trace names exactly the endpoints that back the node, and counts as complete exactly when the backing is sound and every endpoint has its identity and path |
| `StatusTheorems.DirectlyNamed` | 0.3.0/source/src/core/ownership_graph.cpp:263-268 | Neither cycles nor depth hide a disk from a node directly on it |
| `ReadyTheorems.ReadyIsExact` | 0.3.0/source/src/core/ownership_graph.cpp:376-457 | Wherever the walk sees every node whole, a device is READY exactly when nothing about it is in doubt, nothing uses it or holds it open, it is a writable whole device with a size, every source was read or explained, all trouble lies elsewhere, all use is attributed to sound backing, and every block on it was freshly read without membership |
| `DecisionTheorems.DecisionsExplain` | 0.3.0/source/src/core/ownership_graph.cpp:337-459 | The reasons of a decision: all that concerns the device; for Protected and Busy nothing else but the read-only flag, for READY one reason alone, and for a device neither doubted nor used exactly the checks that failed |
| `DecisionTheorems.MountIsTold` | 0.3.0/source/src/core/ownership_graph.cpp:318-325 | A decision says of every mount that rests on the device what and where it is: system root, boot, home or other |
| `DecisionTheorems.SwapIsTold` | 0.3.0/source/src/core/ownership_graph.cpp:326-329 | A decision says of every active swap that rests on the device which it is |
| `DecisionTheorems.MembershipIsTold` | 0.3.0/source/src/core/ownership_graph.cpp:297-302 | A decision says of every block on the device that was freshly read as a member whether of LVM, ZFS or RAID |
| `DecisionTheorems.ReadyPartitions` | 0.3.0/source/src/core/ownership_graph.cpp:175-192 | Every partition that names a READY disk as its parent is listed by the disk and rests on it, so that nothing on it escapes |
| `OwnershipStability.IssuesFailClosed` | 0.3.0/source/src/core/ownership_graph.cpp:208-210 | Further issue records leave a status unchanged or make it Unknown |
| `OwnershipStability.OrderIndependent` | 0.3.0/source/src/core/ownership_graph.cpp:458-463 | Assessments of the same evidence, reordered or repeated, are identical |
| `OwnershipExceptions.ClaimsFailClosedExactly` | 0.3.0/source/src/core/ownership_graph.cpp:308-317 | READY with more claims is READY without them exactly when every unattributed mount was harmless or covered before |
| `OwnershipExceptions.ClaimMakesReady` | 0.3.0/source/src/core/ownership_graph.cpp:311-316 | Of the assessment taken alone: on two disks and a foreign mount that the snapshot does not report, a further claim turns a disk READY |
| `OwnershipExceptions.GapsFailClosedExactly` | 0.3.0/source/src/core/ownership_graph.cpp:358-364 | READY with more gaps is READY without them exactly when host coverage held before |
| `ScannedExample.GapMakesReady` | 0.3.0/source/src/core/ownership_graph.cpp:358-364 | On a snapshot that a scan left, an unread source where a gap on the other disk turns a disk READY |
| `ScannedExample.QuietIsScanned` | 0.3.0/source/src/platform/linux/linux_host_usage.cpp:69-219 | That snapshot, two disks and /proc, is what the scan of an untouched host leaves, its one mount without a node reported |
| `ScannedExample.QuietDiskIsReady` | 0.3.0/source/src/core/ownership_graph.cpp:399-455 | With everything read and nothing found a disk of that snapshot is READY |
| `Ownership.ReasonKeyInjective` | 0.3.0/source/src/core/ownership_graph.cpp:15-20 | The sort key of reasons tells any two reasons apart, so equal contents sort to one list |
| `Ownership.ClaimKeyInjective` | 0.3.0/source/src/core/ownership_graph.cpp:330-333 | The same for claims |
| `Ownership.EdgeKeyInjective` | 0.3.0/source/src/core/ownership_graph.cpp:193-197 | The same for edges |
| `Ownership.RecordKeyInjective` | 0.3.0/source/src/core/ownership_graph.cpp:163-165 | The same for node records, whatever their facts |
| `Ownership.NamespaceMountKeyInjective` | 0.3.0/source/src/core/ownership_graph.cpp:140-149 | The same for mounts of other namespaces |
| `OrderTheorems.ReasonOrder` | 0.3.0/source/src/core/ownership_graph.cpp:458-458 | Reasons are kept in the order of code, node, source and detail |
| `OrderTheorems.ClaimOrder` | 0.3.0/source/src/core/ownership_graph.cpp:330-333 | Claims are kept in the order of consumer, use, source and detail |
| `OrderTheorems.EdgeOrder` | 0.3.0/source/src/core/ownership_graph.cpp:193-198 | Edges are kept in the order of consumer, provider, relation and source |
| `OrderTheorems.BlockIssueOrder` | 0.3.0/source/src/core/resolved_inventory.cpp:181-185 | Inventory issues are kept in the order of code, device and field |
| `OrderTheorems.DiscoveryIssueOrder` | 0.3.0/source/src/core/resolved_inventory.cpp:170-175 | Discovery issues are kept in the order of code, node, field, native error and mount |
| `Canonical.NormalizeCorrect` | 0.3.0/source/src/core/ownership_graph.cpp:15-20 | Sorting and removing duplicates yields an ascending list of the same elements |
| `Canonical.NormalizeCanonical` | 0.3.0/source/src/core/ownership_graph.cpp:15-20 | Two lists normalize alike exactly when they have the same elements |
| `Canonical.SortCorrect` | 0.3.0/source/src/platform/linux/linux_host_usage.cpp:213-215 | Sorting alone orders a list and keeps every repetition |
| `Canonical.OrderedUnique` | 0.3.0/source/src/core/ownership_graph.cpp:163-165 | Two ordered lists with the same elements and repetitions are one list |
| `Jobs.JobManager.constructor` | 0.3.0/source/src/jobs/job_manager.cpp:22-31 | A new scheduler is empty and allows at least one drive |
| `Jobs.JobManager.SubmitJob` | 0.3.0/source/src/jobs/job_manager.cpp:33-62 | Submission: refusal, planning, queueing or an immediate start |
| `Jobs.JobManager.StartJob` | 0.3.0/source/src/jobs/job_manager.cpp:183-218 | Observing, comparing and authorizing again before the lock is taken; every failure leaves the job Failed |
| `Jobs.JobManager.StartEligibleJobs` | 0.3.0/source/src/jobs/job_manager.cpp:220-233 | Starts first-come queued jobs on free drives until none is left or the limit is reached; each pass removes one job from the queue, so it ends |
| `Jobs.JobManager.Release` | 0.3.0/source/src/jobs/job_manager.cpp:235-238 | Frees the lock only if this job holds it |
| `Jobs.JobManager.ReportProgress` | 0.3.0/source/src/jobs/job_manager.cpp:64-82 | Only an active job reports progress, only from 0 to 100 |
| `Jobs.JobManager.CompleteJob` | 0.3.0/source/src/jobs/job_manager.cpp:84-97 | Completion frees the drive and starts what it can |
| `Jobs.JobManager.FailRunning` | 0.3.0/source/src/jobs/job_manager.cpp:99-109 | Failure frees the drive and starts what it can |
| `Jobs.JobManager.PauseJob` | 0.3.0/source/src/jobs/job_manager.cpp:111-119 | A pause keeps the lock |
| `Jobs.JobManager.ResumeJob` | 0.3.0/source/src/jobs/job_manager.cpp:121-129 | Only a paused job that allows it resumes |
| `Jobs.JobManager.CancelJob` | 0.3.0/source/src/jobs/job_manager.cpp:131-152 | Cancelling a queued or an active job |
| `SchedulerTheorems.LocksAreExact` | 0.3.0/source/src/jobs/job_manager.cpp:33-238 | Over any sequence of calls a drive is locked by a job exactly when that job is Running or Paused on it; at most one active job per drive; at most the allowed number of drives |
| `SchedulerTheorems.WorkIsConserved` | 0.3.0/source/src/jobs/job_manager.cpp:220-233 | After every call each Queued job has its drive locked or the limit is reached |
| `SchedulerTheorems.NoOvertaking` | 0.3.0/source/src/jobs/job_manager.cpp:33-62 | Over any sequence of calls starts are tried in submission order on each drive, and a job still Queued was submitted after every job tried on its drive |
| `SchedulerTheorems.DryRunOnlyPlans` | 0.3.0/source/src/jobs/job_manager.cpp:41-53 | In dry-run every job stays Planned, nothing is locked and the inventory is never asked |
| `SchedulerSafety.OnlyVettedJobsRun` | 0.3.0/source/src/jobs/job_manager.cpp:33-218 | Over any sequence of calls every job was allowed on its drive when submitted, and every job that ran was first observed on that drive, allowed there too, at the path it keeps |
| `SchedulerSafety.AuthorizeIs` | 0.3.0/source/src/safety/safety_policy.cpp:5-48 | The policy authorizes exactly identified drives that are neither protected nor of unknown ownership, or status reading, and nothing destructive for real |
| `SchedulerTheorems.RunKeeps` | 0.3.0/source/src/jobs/job_manager.cpp:33-238 | The scheduler invariant holds after every sequence of calls |
| `SchedulerTheorems.StartEligibleKeeps` | 0.3.0/source/src/jobs/job_manager.cpp:220-233 | Starting eligible jobs moves only queued jobs, to Running or Failed, and ends work conserving |
| `SchedulerTheorems.EndKeeps` | 0.3.0/source/src/jobs/job_manager.cpp:84-152 | Ending an active job frees its drive, restarts the queue and touches no other active job |
| `LifecycleTheorems.CallMoves` | 0.3.0/source/src/jobs/job_manager.cpp:62-159 | A call on a job succeeds exactly when the job is in a state for it; it then makes of the named job just what it should, and of others nothing but by starts; refused, it changes nothing; progress, pause and resume touch the named job alone |
| `LifecycleTheorems.SubmitMoves` | 0.3.0/source/src/jobs/job_manager.cpp:33-60 | A submission is accepted exactly when its drive is allowed; it adds one job, tried at once exactly when its drive is free and the limit allows |
| `LifecycleTheorems.RefusalIs` | 0.3.0/source/src/jobs/job_manager.cpp:33-39 | Why a submission is refused |
| `LifecycleTheorems.EndsAreAccounted` | 0.3.0/source/src/jobs/job_manager.cpp:84-159 | Over every run: a job is Completed, at 100 percent, exactly after an accepted completion, Cancelled exactly after an accepted cancellation, and Failed with an error exactly after an accepted failure or a start refused with that error |
| `LifecycleTheorems.TrialsDecide` | 0.3.0/source/src/jobs/job_manager.cpp:183-234 | Over every run: the job of each start tried runs, or ran, at the observed path exactly when its answer showed the same, allowed drive, and has failed otherwise; and only jobs that were tried run |
| `DemoSessions.DemoSession.TickRunning` | 0.3.0/source/src/app/demo_session.cpp:518-546 | One running job's tick: two percent, a simulated failure, or completion |
| `DemoSessions.DemoSession.TickOnce` | 0.3.0/source/src/app/demo_session.cpp:510-558 | One tick over the jobs that ran at its start, then reports for those that left the queue |
| `DemoSessions.DemoSession.Advance` | 0.3.0/source/src/app/demo_session.cpp:432-439 | As many ticks as half seconds have passed, the rest carried over |
| `DemoSessions.DemoSession.RunWorkflow` | 0.3.0/source/src/app/demo_session.cpp:260-375 | A workflow command: unknown and unsupported workflows refused, then inspections and submissions |
| `DemoSessions.DemoSession.CancelJob` | 0.3.0/source/src/app/demo_session.cpp:393-424 | Cancelling, with reports for the jobs that this started |
| `DemoSessions.DemoSession.PauseJob` | 0.3.0/source/src/app/demo_session.cpp:377-383 | Pausing keeps the shown progress current |
| `DemoSessions.DemoSession.ResumeJob` | 0.3.0/source/src/app/demo_session.cpp:385-391 | Resuming keeps the shown progress current |
| `DemoSessions.DemoSession.SyncTrackedProgress` | 0.3.0/source/src/app/demo_session.cpp:560-571 | Both shown features copy their job's state, progress and path |
| `DemoTheorems.DrainBound` | 0.3.0/source/src/app/demo_session.cpp:432-558 | From any reachable state without a Paused job, n Queued or Running jobs are all Completed or Failed after 50 n ticks, and no other job has changed |
| `DemoTheorems.TickMoves` | 0.3.0/source/src/app/demo_session.cpp:510-546 | Every tick works on each Running job and on no other |
| `DemoTheorems.SomeRuns` | 0.3.0/source/src/jobs/job_manager.cpp:220-233 | Without a Paused job, work left means that some job runs |
| `DemoTheorems.WorkDrops` | 0.3.0/source/src/app/demo_session.cpp:521-545 | The work left, counted in ticks, falls with every tick in which a job runs |
| `DemoTheorems.AdvanceSplits` | 0.3.0/source/src/app/demo_session.cpp:432-439 | Time passed in two steps has the effect of the same time in one |
| `DemoTheorems.ShownProgressIsCurrent` | 0.3.0/source/src/app/demo_session.cpp:560-571 | Over any session the progress shown for a feature is its job's present state and progress |
| `DemoTheorems.RunningFates` | 0.3.0/source/src/app/demo_session.cpp:510-545 | A running health test on a failing drive has failed as soon as it would have reached 20 percent; any other running job is complete as soon as it reaches 100; until then both gain two percent with every tick |
| `DemoLaunches.LaunchIs` | 0.3.0/source/src/app/demo_session.cpp:260-330 | A launch succeeds exactly when the workflow is offered for an unprotected drive and only inspects or plans something allowed; it then submits that as one job and shows it under its feature; otherwise nothing changes |
| `DemoLaunches.HalfSecondsTick` | 0.3.0/source/src/app/demo_session.cpp:432-439 | Every half second is one tick, and the rest counts for the next |
| `DriveTheorems.SamePhysicalDeviceIsExact` | 0.3.0/source/src/core/drive.cpp:53-67 | Two identities are one device exactly when they share a world-wide name without contradiction, or have none and agree on known serial number, model and capacity |
| `DriveTheorems.IdentifiedIs` | 0.3.0/source/src/core/drive.cpp:28-45 | A drive can be identified exactly when it has a world-wide name or serial number, model and capacity are all known |
| `DriveTheorems.SharedDriveId` | 0.3.0/source/src/core/drive.cpp:40-44 | Drives sharing a label-based lock identifier have the same serial number, model and capacity exactly when their serial numbers are equally long |
| `DriveTheorems.DriveIdCollides` | 0.3.0/source/src/core/drive.cpp:40-44 | Two different drives with one lock identifier |
| `ProductionApp.CoreApplication.StartProductionScan` | 0.3.0/source/src/app/production_application.cpp:40-51 | Refused without a source to scan or while a scan runs; otherwise publishes the next generation, discarding every verdict |
| `ProductionApp.CoreApplication.FinishSpawn` | 0.3.0/source/src/app/production_application.cpp:54-130 | The worker starts with a fresh stop flag, or the generation fails |
| `ProductionApp.CoreApplication.FinishInventory` | 0.3.0/source/src/app/production_application.cpp:65-75 | The cancellation check, a failed inventory, or the rows of a good one |
| `ProductionApp.CoreApplication.FinishEvidence` | 0.3.0/source/src/app/production_application.cpp:79-81 | The cancellation check after ownership was read |
| `ProductionApp.CoreApplication.ClassifyRows` | 0.3.0/source/src/app/production_application.cpp:84-102 | The assessment and, after the next check, the verdicts on the rows |
| `ProductionApp.CoreApplication.CheckLast` | 0.3.0/source/src/app/production_application.cpp:105-105 | The last cancellation check |
| `ProductionApp.CoreApplication.PublishResult` | 0.3.0/source/src/app/production_application.cpp:106-106 | Publishing the finished snapshot |
| `ProductionApp.CoreApplication.PublishRows` | 0.3.0/source/src/app/production_application.cpp:75-75 | Publishing the rows, unproven |
| `ProductionApp.CoreApplication.CancelProductionScan` | 0.3.0/source/src/app/production_application.cpp:138-142 | The stop flag is raised and the worker waited for |
| `ProductionApp.CoreApplication.WaitForProductionScan` | 0.3.0/source/src/app/production_application.cpp:134-137 | Waiting leaves the stop flag as it is |
| `ProductionApp.CoreApplication.FinishJoin` | 0.3.0/source/src/app/production_application.cpp:134-142 | The wait ends only when the worker is gone |
| `ProductionApp.CoreApplication.LeaveWorker` | 0.3.0/source/src/app/production_application.cpp:120-120 | The scan no longer counts as running |
| `ProductionApp.CoreApplication.HandleException` | 0.3.0/source/src/app/production_application.cpp:107-119 | Any exception publishes an empty failed generation |
| `ProductionApp.CoreApplication.PublishProduction` | 0.3.0/source/src/app/production_application.cpp:35-38 | Publishing replaces the current snapshot |
| `ProductionApp.InventoryRows` | 0.3.0/source/src/app/production_application.cpp:10-17 | A row, unproven, for every physical device in order |
| `ProductionApp.SettleRows` | 0.3.0/source/src/app/production_application.cpp:91-101 | Every row's proof ends; a decision on its key becomes its verdict |
| `ProductionApp.ProductionReadModel.Refresh` | 0.3.0/source/src/ui/production_read_model.cpp:137-175 | Fetching a snapshot: the index within a generation, the anchor across generations |
| `ProductionApp.ProductionReadModel.Select` | 0.3.0/source/src/ui/production_read_model.cpp:177-183 | Selecting a listed drive |
| `ProductionApp.FindRetained` | 0.3.0/source/src/ui/production_read_model.cpp:155-162 | The search for the remembered drive succeeds exactly on a sole match |
| `ProductionTheorems.SelectionKeepsIdentity` | 0.3.0/source/src/ui/production_read_model.cpp:93-187 | In every interleaving of scan, polls and picks, whatever is selected has the identity and secondary facts of the drive last picked |
| `ProductionTheorems.RetentionIsExact` | 0.3.0/source/src/ui/production_read_model.cpp:147-167 | A poll that lists the drives of a generation in which the remembered drive is not selected yet selects it again exactly when one drive, and only one, can be it |
| `ProductionTheorems.RetentionOverRuns` | 0.3.0/source/src/ui/production_read_model.cpp:131-175 | In any interleaving, after a pick the first poll that lists the drives of a later generation, whatever came between, selects drive i exactly when it is the only one that the picked drive can be |
| `ProductionTheorems.PublicationIsOrdered` | 0.3.0/source/src/app/production_application.cpp:47-131 | Generations never decrease; within one the phases go Inventory, Ownership, Complete over one list of drives, or end in Failed; the next begins only after that |
| `ProductionTheorems.OneWorkerAtATime` | 0.3.0/source/src/app/production_application.cpp:44-51 | A scan counts as running exactly while its worker is created, at work or leaving; starting another meanwhile changes nothing |
| `ProductionTheorems.VerdictsAreFinal` | 0.3.0/source/src/app/production_application.cpp:67-118 | A status or a finished proof on a disk appears only in Complete; an error appears exactly in Failed, with no drives |
| `ProductionTheorems.CancellationHolds` | 0.3.0/source/src/app/production_application.cpp:105-142 | A scan asked to stop before its last check never publishes a Complete snapshot of its generation |
| `PublicationTheorems.PublishedShows` | 0.3.0/source/src/app/production_application.cpp:10-106 | What any snapshot in any interleaving shows: in Ownership and Complete exactly the whole disks that are not virtual, once each and in order; each waiting in Ownership; and in Complete each with exactly the status and reasons decided, or Unknown without reasons where nothing was decided, and no proof pending |
| `PublicationTheorems.DisksAreDecided` | 0.3.0/source/src/app/production_application.cpp:84-101 | In a Complete snapshot over distinct names a row has a decision exactly when it is a disk |
| `PublicationTheorems.GoodScanCompletes` | 0.3.0/source/src/app/production_application.cpp:47-121 | From wherever a scan may start, one that nothing disturbs publishes its rows and then, complete, the assessment of what it read; then another may start |
| `PublicationTheorems.FailuresAreTold` | 0.3.0/source/src/app/production_application.cpp:65-119 | A failed, stopped or throwing scan publishes nothing but the reason, for its generation |
| `PublicationTheorems.StopsAreTold` | 0.3.0/source/src/app/production_application.cpp:79-119 | A stop found at a later check is told the same way |
| `PublicationTheorems.CancelIsHeeded` | 0.3.0/source/src/app/production_application.cpp:134-142 | Cancelling a scan before its last check keeps its generation from being completed, in every interleaving; waiting does not stop it |
| `ReaderTheorems.LossIsTold` | 0.3.0/source/src/ui/production_read_model.cpp:147-167 | The deciding poll selects the drive exactly where one row, and only one, has its identity and secondary facts, and says that it is lost exactly when there is none such |
| `ReaderTheorems.FailureIsTold` | 0.3.0/source/src/ui/production_read_model.cpp:168-173 | A poll of a failed scan forgets the selected drive and says so |
| `ReaderTheorems.PickSelects` | 0.3.0/source/src/ui/production_read_model.cpp:177-183 | Picking selects exactly a listed drive of a snapshot without error |
| `ReaderTheorems.NoticesAreTrue` | 0.3.0/source/src/ui/production_read_model.cpp:137-183 | Over every interleaving: with a notice, after a failed scan and without a snapshot nothing is selected or remembered |
| `ProductionEvidence.PublishedReadyIsSound` | 0.3.0/source/src/app/production_application.cpp:76-106 | A row shown READY in any snapshot of any interleaving is a resolved, writable, sized disk with a path, sound under the very evidence that the worker read, unstopped, for the rows and the inventory of that generation |
| `ProductionTheorems.ReadyIsUnique` | 0.3.0/source/src/core/ownership_graph.cpp:171-174 | A READY decision concerns the only inventory node of its key |
| `ProductionTheorems.SameGeneration` | 0.3.0/source/src/app/production_application.cpp:71-106 | Within a generation drives are listed twice only as Ownership and then Complete, over the same rows |
| `Identifiers.ReadHexIdentifier` | 0.3.0/source/src/core/resolved_inventory.cpp:17-41 | The in-place reading of an identifier yields its canonical digits or nothing |
| `Identifiers.HexIdentifierIsCanonical` | 0.3.0/source/src/core/resolved_inventory.cpp:17-41 | An identifier is accepted exactly in the spellings of its canonical digits, and yields them |
| `Identifiers.CanonicalHexIsFixed` | 0.3.0/source/src/core/resolved_inventory.cpp:17-41 | The canonical form reads as itself |
| `IdentifyTheorems.SentinelsAreRejected` | 0.3.0/source/src/core/resolved_inventory.cpp:35-41 | No identifier is all zeros or all ones |
| `Identifiers.TrustworthyIs` | 0.3.0/source/src/core/resolved_inventory.cpp:43-59 | Text is trusted exactly when printable, not padded, and neither a stand-in, in whatever case, nor a run of zeros or of the letter f |
| `Identifiers.ValidPathIs` | 0.3.0/source/src/core/resolved_inventory.cpp:158-166 | A path is usable exactly when it is below /dev/, no part between slashes is empty, a dot or two, and it has no control characters |
| `Identifiers.IsTrustworthy` | 0.3.0/source/src/core/resolved_inventory.cpp:43-58 | Printable text that is no placeholder, not blank at its ends and not all zeros or all f |
| `Identifiers.FingerprintInjective` | 0.3.0/source/src/core/resolved_inventory.cpp:145-146 | Fingerprints are equal only for equal serial number, model and capacity |
| `Identifiers.ComponentFree` | 0.3.0/source/src/core/resolved_inventory.cpp:60-63 | A length-prefixed part can be read back from the front of any text |
| `Identities.IdentifyNode` | 0.3.0/source/src/core/resolved_inventory.cpp:65-156 | One device's identity, scope, aliases, fallback and issues from its own evidence |
| `IdentifyTheorems.ScopeIs` | 0.3.0/source/src/core/resolved_inventory.cpp:66-88 | The scope is that of an NVMe namespace exactly for a whole, non-virtual disk with an EUI or NGUID, transport nvme, or a WWID starting with eui., nvme. or uuid. |
| `IdentifyTheorems.IdentityIs` | 0.3.0/source/src/core/resolved_inventory.cpp:74-155 | An identity is resolved, and is this one, exactly for hardware without a spoiled identifying attribute whose evidence is all readable and agrees: NGUID or EUI of a namespace, else the world-wide name, and only without one serial number, model and size over ATA, SCSI or SAS |
| `Identities.ReadTyped` | 0.3.0/source/src/core/resolved_inventory.cpp:89-102 | A typed namespace identifier or a malformed one |
| `Identities.NamespaceWwidIs` | 0.3.0/source/src/core/resolved_inventory.cpp:110-116 | Behind its prefix, 16 digits in any accepted spelling are an EUI-64, 32 an NGUID, and nothing else is accepted |
| `Identities.WwnHexIs` | 0.3.0/source/src/core/resolved_inventory.cpp:123-127 | A world-wide name is accepted exactly as 16 digits in any accepted spelling, or as 32 characters that start with a 6 |
| `Identities.ReadRawIssues` | 0.3.0/source/src/core/resolved_inventory.cpp:73-84 | Raw issues on identity fields block an identity |
| `Identities.SettleIdentities` | 0.3.0/source/src/core/resolved_inventory.cpp:185-218 | Each node is as its own evidence says, or ambiguous without id and path exactly when another node makes one of its claims |
| `Identities.ResolveBlockIdentities` | 0.3.0/source/src/core/resolved_inventory.cpp:177-236 | The settled nodes with every list sorted, in their one order, and the inventory issues sorted |
| `Identities.SettleClaim` | 0.3.0/source/src/core/resolved_inventory.cpp:206-218 | Every node filed under a claim that two nodes make is marked, and no other |
| `Identities.ResolveCurrentPath` | 0.3.0/source/src/core/resolved_inventory.cpp:238-254 | The path of the one resolved bearer of an identity, ambiguity, or nothing |
| `IdentityTheorems.ResolvedIsUnique` | 0.3.0/source/src/core/resolved_inventory.cpp:186-218 | A node is Resolved exactly when its own evidence resolves it and no other device claims its ids, aliases, fingerprint, kernel name, path or device number |
| `IdentityTheorems.IdentitiesDiffer` | 0.3.0/source/src/core/resolved_inventory.cpp:206-218 | No two nodes of one resolution bear the same identity |
| `IdentityTheorems.PathIsNeverAmbiguous` | 0.3.0/source/src/core/resolved_inventory.cpp:238-254 | On resolved nodes in any order, looking up a path never takes the ambiguity branch |
| `IdentityTheorems.EqualIdsMeanEqualHardware` | 0.3.0/source/src/core/resolved_inventory.cpp:138-155 | Equal identities mean the same kind of evidence with the same content |
| `IdentityTheorems.OverlapIsConflict` | 0.3.0/source/src/core/resolved_inventory.cpp:193-203 | Two nodes share a key of the claim table exactly when they share one of the facts behind the keys |
| `SourceRecords.ReadRecord` | 0.3.0/source/src/platform/linux/linux_inventory_provider.cpp:272-322 | The observation of one record: every attribute read in turn, each failure reported, issues sorted |
| `SourceRecords.KindsAreRead` | 0.3.0/source/src/platform/linux/linux_inventory_provider.cpp:244-279 | Whatever else is wrong with a record: its observation has the kind reported, is of a whole device exactly when the record says disk, and of a disk exactly when every fact is understood, some speak for a disk and none for another drive |
| `SourceRecords.ClassifiedAsOptical` | 0.3.0/source/src/platform/linux/linux_inventory_provider.cpp:207-242 | A device is called an optical drive exactly when all facts agree on that; facts for an optical and for another drive together are reported as a conflict |
| `SourceRecords.ReadNvme` | 0.3.0/source/src/platform/linux/linux_inventory_provider.cpp:192-225 | A namespace identifier, its characters read one by one, in one of the spellings of the kernel |
| `SourceRecords.ReadPhysicalKind` | 0.3.0/source/src/platform/linux/linux_inventory_provider.cpp:227-270 | The kind that all structured facts together speak for |
| `SourceRecords.ClassifiedAsDisk` | 0.3.0/source/src/platform/linux/linux_inventory_provider.cpp:227-270 | A device is classified as a disk exactly when nothing spoils the evidence, every fact is understood, some speaks for a disk, and none for an optical or floppy drive |
| `SourceRecords.CleanRecordIsWhole` | 0.3.0/source/src/platform/linux/linux_inventory_provider.cpp:56-322 | A record mapped without an issue came without one, and every attribute of it is in the observation as it was spelled |
| `RawInventory.MergeOptional` | 0.3.0/source/src/platform/linux/linux_inventory_provider.cpp:324-345 | The value that every record reports, and whether there is none although some record reports one |
| `RawInventory.MergeEnum` | 0.3.0/source/src/platform/linux/linux_inventory_provider.cpp:347-369 | The same with one value standing for not known |
| `RawInventory.MergeOne` | 0.3.0/source/src/platform/linux/linux_inventory_provider.cpp:371-458 | All records of one device merged field by field, with an issue for every field they disagree on |
| `RawInventory.RejectLocatorCollisions` | 0.3.0/source/src/platform/linux/linux_inventory_provider.cpp:460-479 | Comparing all pairs in place clears exactly the locators that two devices share |
| `RawInventory.RejectedLocators` | 0.3.0/source/src/platform/linux/linux_inventory_provider.cpp:467-478 | A locator survives exactly when no other device reported it |
| `RawInventory.ConstructRelationships` | 0.3.0/source/src/platform/linux/linux_inventory_provider.cpp:481-524 | Relating devices in place: refused parents are dropped, accepted partitions entered with their disk, children and issues sorted and freed of repetitions |
| `RawInventory.Scan` | 0.3.0/source/src/platform/linux/linux_inventory_provider.cpp:531-581 | Records mapped to observations, grouped by valid name, merged, cleared of shared locators and related; every record without a usable name is discarded, reported, and its issues kept |
| `RawInventoryTheorems.ScanOrderIndependent` | 0.3.0/source/src/platform/linux/linux_inventory_provider.cpp:531-581 | Records in another order, and issues in another order or repeated, give the same devices and the same issues in the same order |
| `RawInventoryTheorems.KindsAreUnanimous` | 0.3.0/source/src/platform/linux/linux_inventory_provider.cpp:352-380 | After a scan a device is virtual exactly when all records of its name report it so, a whole device exactly when all say so, and a disk exactly when all give the evidence |
| `RawInventoryTheorems.HardwareIsUnanimous` | 0.3.0/source/src/platform/linux/linux_inventory_provider.cpp:326-440 | A device has a model, serial number, identifier, size, transport or write flag exactly when all observations of its name agree on it |
| `RawInventoryTheorems.ParentsAreChecked` | 0.3.0/source/src/platform/linux/linux_inventory_provider.cpp:481-529 | A parent's name is kept where it is a disk's and where no device has it, and dropped otherwise; unless it is a disk's that is reported |
| `RawInventoryTheorems.NamesAreUsable` | 0.3.0/source/src/platform/linux/linux_inventory_provider.cpp:531-560 | No device name is empty, a dot or two, or holds a slash, white space or a control character |
| `RawInventoryTheorems.CleanDeviceIsWhole` | 0.3.0/source/src/platform/linux/linux_inventory_provider.cpp:371-524 | A device left without issues comes from one record, itself without issues, and has all of its attributes as spelled |
| `RawInventory.ScanIsReciprocal` | 0.3.0/source/src/platform/linux/linux_inventory_provider.cpp:481-524 | After a scan a name is listed once among a device's children exactly when a partition of that name names the device, a disk, as its parent; otherwise not at all |
| `RawInventory.ScannedLocators` | 0.3.0/source/src/platform/linux/linux_inventory_provider.cpp:568-573 | After a scan no path, sysfs path or device number is shared, and each was kept exactly when no other device reported it |
| `Capacity.CapacityIsExact` | 0.3.0/source/src/platform/linux/linux_inventory_provider.cpp:144-173 | A decimal sector count, leading zeros and surrounding blanks included, gives its bytes exactly when they fit in 64 bits, and is otherwise too large, never wrapped |
| `Capacity.CapacityMalformed` | 0.3.0/source/src/platform/linux/linux_inventory_provider.cpp:144-173 | Exactly the texts that are no decimal number are malformed |
| `Capacity.CapacityRoundTrip` | 0.3.0/source/src/platform/linux/linux_inventory_provider.cpp:144-173 | A sector count survives its decimal spelling exactly when its bytes fit in 64 bits |
| `HostReads.Correlate` | 0.3.0/source/src/platform/linux/linux_host_usage.cpp:20-29 | The sole node with a device number, or nothing |
| `HostReads.CountAll` | 0.3.0/source/src/platform/linux/linux_host_usage.cpp:69-72 | How often each mount id or swap path occurs |
| `HostReads.OpenNodes` | 0.3.0/source/src/platform/linux/linux_host_usage.cpp:74-93 | Each path kept only if one metadata read confirms the device number, each signature read in turn, a path dropped also when the signature source lost the device; every issue kept |
| `HostReads.ConfirmPaths` | 0.3.0/source/src/platform/linux/linux_host_usage.cpp:164-175 | Each path still there is read once more, at a later time, and dropped with an issue unless confirmed |
| `MountUsage.AttributeMounts` | 0.3.0/source/src/platform/linux/linux_host_usage.cpp:95-129 | Each mount gets its node and each node its mounts; issues for mounts without a node, source paths that do not corroborate, subtrees and contradicted signatures |
| `SwapUsage.AttributeSwaps` | 0.3.0/source/src/platform/linux/linux_host_usage.cpp:130-162 | Each swap on a steady block node gets its device number and its node, and the node the swap; issues for all others and for contradicted signatures |
| `DiskUsage.AggregateUsage` | 0.3.0/source/src/platform/linux/linux_host_usage.cpp:177-205 | A disk gathers the usage of the partitions it accepts; a partition that no disk accepts is reported |
| `HostUsage.FinishNodes` | 0.3.0/source/src/platform/linux/linux_host_usage.cpp:206-217 | Used virtual nodes are reported and every list of every node is sorted |
| `HostUsage.ScanUsage` | 0.3.0/source/src/platform/linux/linux_host_usage.cpp:69-219 | The whole snapshot in place, nodes, mounts, swaps and issues, is the composition of the passes, whose metadata reads follow one another in time |
| `HostUsageTheorems.ListsExactly` | 0.3.0/source/src/platform/linux/linux_host_usage.cpp:95-217 | After a scan every mount and swap is listed, once and in ascending order, by the node that owns it and by the disk that accepts that node, and by no other |
| `HostUsageTheorems.MountOwnerIs` | 0.3.0/source/src/platform/linux/linux_host_usage.cpp:95-109 | A mount gets a node exactly when its id occurs once and exactly one node has its device number |
| `HostUsageTheorems.SwapOwnerIs` | 0.3.0/source/src/platform/linux/linux_host_usage.cpp:130-156 | A swap gets a node exactly when it is a partition under a path of its own, two successive reads agree on a block node, and one node only has its number |
| `HostUsageTheorems.RowNamesOwner` | 0.3.0/source/src/platform/linux/linux_host_usage.cpp:95-156 | Each mount and each swap names the node that owns it, or none |
| `HostUsageTheorems.UsageIndexAgrees` | 0.3.0/source/src/platform/linux/linux_host_usage.cpp:179-205 | With distinct kernel names a node lists a row, once, exactly when the row names it or a partition it accepts |
| `HostUsageTheorems.KeptPath` | 0.3.0/source/src/platform/linux/linux_host_usage.cpp:74-175 | A path survives exactly when two separate reads, before and after everything else was read, confirm it and the signature source did not lose the device |
| `HostUsageTheorems.ConfirmsIs` | 0.3.0/source/src/platform/linux/linux_host_usage.cpp:17-20 | A read confirms a device exactly when it found, without complaint, a block node of the observed number |
| `HostUsageTheorems.SourceLostIs` | 0.3.0/source/src/platform/linux/linux_host_usage.cpp:86-89 | The signature source lost a device exactly when it says that it vanished or changed |
| `HostUsageTheorems.AcceptsIs` | 0.3.0/source/src/platform/linux/linux_host_usage.cpp:182-205 | A partition counts for a disk exactly when it is numbered and names it, the name is the disk's alone, the disk is resolved and not virtual, lists the partition once, and nothing disputes either end |
| `UsageIssues.IssuesAreFindings` | 0.3.0/source/src/platform/linux/linux_host_usage.cpp:74-218 | After a scan a node's issues are exactly those known before and those found: on both reads of its path, by and about the signature source, a contradicted signature, and usage of a virtual node |
| `UsageIssues.SnapshotIssuesAreFindings` | 0.3.0/source/src/platform/linux/linux_host_usage.cpp:94-219 | After a scan the issues of the snapshot are exactly those known before and those that some mount, swap or partition left |
| `UsageIssues.UsageNodesAre` | 0.3.0/source/src/platform/linux/linux_host_usage.cpp:90-206 | A node lists the usage of itself and of every partition that counts for it |
| `HostUsageTheorems.SignatureIs` | 0.3.0/source/src/platform/linux/linux_host_usage.cpp:118-161 | A reported signature ends as a conflict exactly when a mount or swap of the node contradicts it; any other stays as read |
| `HostUsageTheorems.ReportedMounts` | 0.3.0/source/src/platform/linux/linux_host_usage.cpp:97-104 | A mount id is reported exactly when a mount of that id has no node |
| `UsageSoundness.ReadyIsUnmounted` | 0.3.0/source/src/core/ownership_graph.cpp:400-455 | On a snapshot that a scan left: no mount has the device number of a node that reaches a READY device, every mount without a node is harmless and has the number of no node, and every swap has a node that does not reach the device, provided that no ownership source names the bare key of a nameless device |
| `UsageSoundness.ClaimsFailClosed` | 0.3.0/source/src/core/ownership_graph.cpp:308-421 | On a snapshot that a scan left further claims never make a device READY, under the same proviso |
| `UsageSoundness.ReadyPathConfirmed` | 0.3.0/source/src/platform/linux/linux_host_usage.cpp:74-175 | The path of a READY device was confirmed by two separate reads around the scan |
| `Discovery.ScanMachine` | 0.3.0/source/src/platform/linux/linux_host_usage.cpp:45-220 | One scan from source records to the resolved snapshot: raw inventory, identities, host usage, and whether either table is complete |
| `DiscoveryTheorems.HostIsResolved` | 0.3.0/source/src/core/resolved_inventory.cpp:177-236 | The host-usage scan starts from the scanned devices in order, under distinct names, none empty, and with nothing attributed |
| `DiscoveryTheorems.UsageIsConsistent` | 0.3.0/source/src/platform/linux/linux_host_usage.cpp:179-205 | In every discovered snapshot a node lists a row, once, exactly when the row names it or a partition it accepts |
| `DiscoveryTheorems.LookupIsNeverAmbiguous` | 0.3.0/source/src/platform/linux/linux_host_usage.cpp:222-226 | Looking up the path of an identity in a fresh snapshot never finds it ambiguous |
| `DiscoveryTheorems.DiscoveredParts` | 0.3.0/source/src/platform/linux/linux_host_usage.cpp:53-68 | The mount and swap tables count as complete exactly when read and nothing met is about them; inventory issues are those reported and those of unusable names |
| `EndpointTheorems.EndpointsAreHardware` | 0.3.0/source/src/core/ownership_graph.cpp:211-221 | Traces over a discovered snapshot end exactly at devices that all records say are whole and not all report as virtual |
| `EndpointTheorems.RowsAreHardware` | 0.3.0/source/src/app/production_application.cpp:10-17 | And the rows published of it show exactly those, each as a disk exactly when all its records give evidence of one |
| `DiscoverySoundness.ReadyMachineIsUnmounted` | 0.3.0/source/src/platform/linux/linux_host_usage.cpp:45-220 | The same as for scanned snapshots, from the source records on: nothing of the machine that reaches a READY device is mounted or swapped to, under the same proviso |
| `DiscoverySoundness.MachineClaimsFailClosed` | 0.3.0/source/src/core/ownership_graph.cpp:308-421 | On every discovered snapshot further claims never make a device READY, under the same proviso |
| `DiscoverySoundness.ReadyMachineIsWhole` | 0.3.0/source/src/core/ownership_graph.cpp:422-439 | A READY device stems from one source record without issues, of a whole device that is not virtual and with nothing that hints at an NVMe namespace, all of whose attributes were taken over; its own evidence resolves an identity that no other device shares; and its path was confirmed twice |
| `ProgramSoundness.PublishedReadyIsUnmounted` | 0.3.0/source/src/app/production_application.cpp:76-106 | A row shown READY in any snapshot of any interleaving whose inventory is what a scan of the machine found: by the evidence that the worker read for it nothing of the machine that reaches the row's device is mounted or swapped to, under the same proviso on all that the worker read |
| `ProgramSoundness.PublishedReadyIsWhole` | 0.3.0/source/src/app/production_application.cpp:76-106 | The disk of such a row was read whole from one record and its path confirmed twice |
| `IssueOrder.DiscoveryIssueKeyInjective` | 0.3.0/source/src/core/resolved_inventory.cpp:169-175 | The order of discovery issues tells any two apart, so equal contents sort to one list |
| `IssueOrder.BlockIssueKeyInjective` | 0.3.0/source/src/platform/linux/linux_inventory_provider.cpp:32-43 | The same for inventory issues |
| `SysfsOwnership.ReadDmNames` | 0.3.0/source/src/platform/linux/linux_ownership_source.cpp:36-47 | The parts of a mapping name, read character by character |
| `SysfsOwnership.DmNamesInverts` | 0.3.0/source/src/platform/linux/linux_ownership_source.cpp:36-47 | Reading inverts the hyphen-doubling encoding of two or three valid parts exactly when no later part starts with a hyphen |
| `SysfsOwnership.ReadAllLinks` | 0.3.0/source/src/platform/linux/linux_ownership_source.cpp:230-250 | Every link seen from either end, an issue naming both ends of each link that one end only reports, and complete coverage exactly without such a link |
| `SysfsOwnership.OneSidedLinkBlocksReady` | 0.3.0/source/src/platform/linux/linux_ownership_source.cpp:230-250 | A one-sided link keeps every disk below either named end from being READY |
| `SysfsOwnership.StackedIsNotReady` | 0.3.0/source/src/platform/linux/linux_ownership_source.cpp:229-249 | A device stacked on a disk, or on anything that rests on it, rests on it too and keeps it from being READY |
| `SysfsOwnership.LeafCollector.Descend` | 0.3.0/source/src/platform/linux/linux_ownership_source.cpp:277-293 | The recursive descent over shared sets |
| `SysfsOwnership.LeavesAreExact` | 0.3.0/source/src/platform/linux/linux_ownership_source.cpp:276-294 | The descent reports no issue exactly when no chain of layers circles, breaks off or exceeds the depth limit; and then it finds exactly the devices below the layers |

## Left out

- Front ends, layout, reports, logging, profiling, command line and configuration: no decision is made there.
- Acquisition from sysfs, procfs, udev, libblkid, ZFS, Proxmox and process tables: its results are arbitrary inputs. The ownership sources for processes, Proxmox and ZFS are not part of this model.
- Message texts: reasons and issues keep their code, node, source and field, with shorter or no wording; issues that differ in wording alone coincide, also where lists are sorted and freed of repetitions.
- Records that the program keeps in sorted maps are maps here: traces, nodes and decisions by key.
- Observations kept for display only: model and kind observations of a device, parent ids and options of mounts, partition tables of signatures.
- Sorting of values that the order of the program does not tell apart is that of a stable sort.
- Discovery.ScanMachine: mount and swap rows and cached signatures arrive parsed; the text of mountinfo, swaps and signature properties is not read here.
- StatusTheorems.StatusIsExact: speaks, as do ReadyTheorems.ReadyIsExact and what follows them, of devices above which every simple backing path has at most 256 edges or the trace is structurally complete; where the walk gives up on longer ones the program's own traces decide, as StatusTheorems.StatusByTraces says of every graph.
- UsageSoundness.ReadyIsUnmounted: supposes, as do the results built on it, that no ownership source reports a node under the key of a device without a name (`block:`); none of the program's sources does, but not all of them are part of this model.
- SysfsOwnership.ReadAllLinks: the order in which links are listed is not modelled; neither are md arrays and the nodes and edges made from LVM labels.
- Job numbers and scan generations are unbounded; the program's 64-bit counters wrap.
- Estimated times, time stamps, session events and drive fixtures of the simulated session.
- DemoSessions.DemoSession.RunWorkflow: a workflow's planning is an input (whether it is known, whether the drive supports it, the operation planned or a refusal); the planner is not part of this model.
- Threads and locks: each stretch of code that other threads cannot interrupt visibly is one step. Cancellation inside an assessment is an exception that may occur at any point of it.
- The `0.1.0` and `0.2.0` sources: earlier forms of the same code.
