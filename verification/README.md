# Zero3 protocols: models and proofs

Dafny models of the stateful cores of Zero3, with proofs about whole runs of them.

- **The workflow engine** (`apps/zero3-desktop/execution-runtime`). A task is a graph of steps. Every operation reads a
  stored snapshot, appends numbered events to a file and writes a new snapshot; a crash may come after any append.
  `Engine` gives each operation as a function of what is on disk, `RuntimeMethods` is the class that computes it,
  `Guards`, `Gates` and `Outputs` say over the stored fields when a call completes and what it leaves, and the other
  modules prove what every run keeps: dependency closure, bookkeeping, the parallelism cap, event replay, recovery from a
  crash, and that the driving loop ends with the task completed.
- **Reporters** deliver reports under a ticket, at least once, against the current assignment (`Reporter`, `Reports`,
  `ReportAnswers`).
- **The control plane** hands out expiring leases with fencing tokens (`ControlPlane`, `Fencing`, `Deliveries`); a desktop
  client writes a task's sidecar and then the task over a network that loses answers (`TaskExtensions`, `Dispatch`,
  `DispatchAnswers`), and decides what is a replay by comparing canonical JSON texts (`CanonicalJson`).
- **The worker queue** (`WorkerGateway`, `Queue`, `Outcomes`, `DedupeKeys`), **routing with bounded failover** (`Router`,
  `Failover`), **the OAuth server** (`OAuth`, `Families`, `Authorizations`) and **paged catch-up** of the memory server
  (`Catchup`).

Files follow one pattern. Code that updates state is a class whose methods are proved equal to a specification function
(`Exec`, `Handle`, `PutOutcome`, `Deliver`, `Route`). Lemmas named `...Exactly` say, without those functions, when such a
call succeeds and what it leaves. Runs are sequences of calls, with crashes, failed writes and lost messages among the
moves; the theorems are about all runs.

What the code does where a reader might expect otherwise, with the runs that show it and the exact conditions:

- A progress report sets a step that was sent back running with no check of the cap or of an assignment
  (`Capacity.CapKeptUnlessGap`, `Loopholes.ReadyStepEscapes`, `Loopholes.CapBroken`).
- A task can be declared completed whatever its steps do, and in no other way does a completed task have an open step
  (`Loopholes.CompletedByDecree`, `Loopholes.DecreeOverRuns`). Cancelling its last open step then appends an event and
  throws, as does passing the last gate of a task that waits for a human and adding steps that make the graph invalid;
  `Losses` decides exactly when, `Stranded` has the runs.
- The fold of the event file is what the snapshot shows only in runs that lose nothing; `Agreement` says exactly which
  moves lose something, over all runs with crashes, repeated events and throwing calls.
- Once the event file says more than the snapshot, one later call makes the stored event number equal to the length of
  the file again, so that the number no longer shows the loss (`Divergence.NumbersHideLoss`); a report lost that way is then
  acknowledged as a duplicate (`Reports.LostReportIsAcknowledged`).
- Operations without an event id of their own record their event twice when they are retried after a crash
  (`Recovery.RetryRepeatsEvent`, `Recovery.GatePassedTwice`), an assignment or a binding even under two identifiers
  (`Recovery.RetryDrawsAnew`); those with one do not (`Recovery.RetryAfterCrash`).
- Two worker requests of different scope share an idempotency key exactly when there is a colon to move from one field to
  the next (`DedupeKeys.KeyTellsScopeExactly`, `DedupeKeys.KeyTellsAllExactly`); the second is then refused
  (`DedupeKeys.RivalIsRefused`), never answered with the first (`Queue.AnswerIsForTheSameRequest`).
- A comment in the orchestrator says that a task that cannot be routed before its first attempt becomes blocked; nothing
  is stored in that case (`Failover.RoutingFailureNeverBlocks`).
- A failed write leaves the OAuth server's memory ahead of its file (`Families.CodeComesBack`); the families of tokens stay
  intact all the same, also across restarts (`Families.TokensFormFamilies`).

## Model

| member | source | states |
|---|---|---|
| Dag.ValidateExecutionDag | apps/zero3-desktop/execution-runtime/scheduler.ts:18-49 | No error exactly when identifiers are unique, dependencies known and the graph acyclic; every cycle reported is a walk back to its start; the duplicate, self and unknown-dependency errors are exactly those of the graph |
| Dag.DagValidator.Validate | apps/zero3-desktop/execution-runtime/scheduler.ts:18-49 | An error-free search has visited every step and yields a topological order of them all |
| Dag.DagValidator.Visit | apps/zero3-desktop/execution-runtime/scheduler.ts:29-43 | The depth-first visit ends, restores the set of open steps, adds only real cycles, and finishes the step when none was found |
| Dag.RankFalls | apps/zero3-desktop/execution-runtime/scheduler.ts:18-49 | Along every walk through the dependencies the rank given by a topological order strictly falls |
| Dag.TopologicalIsAcyclic | apps/zero3-desktop/execution-runtime/scheduler.ts:18-49 | A graph all of whose steps are topologically ordered has no cycle of any length |
| Dag.MinimalStep | apps/zero3-desktop/execution-runtime/scheduler.ts:51-56 | In an acyclic graph every nonempty set of steps has one that depends on none of the others: something can always start |
| Scheduler.PlanExecutionSchedule | apps/zero3-desktop/execution-runtime/scheduler.ts:58-100 | The plan is valid exactly for a valid graph with known steps and a positive integer cap; it lists the ready, waiting and capability-blocked steps, and dispatches ready ones in order up to the free capacity |
| Scheduler.FilterDistinct | apps/zero3-desktop/execution-runtime/scheduler.ts:80-96 | No step is listed twice in a list of the plan |
| Plans.DispatchedExactly | apps/zero3-desktop/execution-runtime/scheduler.ts:76-99 | A step is dispatched if and only if it is ready, its dependencies are completed, its skills found, and fewer such steps come before it than places are free; it then stands at its rank among them |
| Plans.ListedExactly | apps/zero3-desktop/execution-runtime/scheduler.ts:80-96 | Which steps are listed as ready, as waiting and as lacking skills, by their stored fields |
| Scheduler.TaskProgressRange | apps/zero3-desktop/execution-runtime/scheduler.ts:102-106 | Task progress stays between 0 and 1, and is 1 when every step is completed |
| EventLedger.EventFile.Read | apps/zero3-desktop/execution-runtime/event-ledger.ts:40-60 | Reading succeeds exactly when the events are numbered 1..n without a repeated id |
| EventLedger.EventFile.Append | apps/zero3-desktop/execution-runtime/event-ledger.ts:62-73 | An event is added exactly when it carries the next number and a new id; the same event again is a duplicate; nothing else changes the file, which stays well formed |
| Store.ExecutionStore.CheckSnapshot | apps/zero3-desktop/execution-runtime/store.ts:49-74 | A snapshot is accepted exactly when its definition is valid and its runtime matches it |
| Store.ExecutionStore.WriteSnapshot | apps/zero3-desktop/execution-runtime/store.ts:116-125 | A snapshot replaces the stored one exactly when both are valid, the revision does not fall, and a definition of the same revision is the same definition |
| Store.ExecutionStore.Reconcile | apps/zero3-desktop/execution-runtime/store.ts:199-214 | Which of the corruptions is reported, and when the ledger is found ahead of the snapshot |
| RuntimeMethods.ExecutionRuntime.AppendEvent | apps/zero3-desktop/execution-runtime/runtime.ts:124-186 | A repeated id with the same content is answered with the recorded event, with other content refused; otherwise the next number is used and the runtime stamped with it |
| RuntimeMethods.ExecutionRuntime.CreateTask | apps/zero3-desktop/execution-runtime/runtime.ts:188-217 | Refused exactly for a definition that cannot be initialised; otherwise the disk holds the initial snapshot and its first event |
| RuntimeMethods.ExecutionRuntime.AddSteps | apps/zero3-desktop/execution-runtime/runtime.ts:219-250 | Same disk and same refusal as the specification, including the events left behind by a refused graph |
| RuntimeMethods.ExecutionRuntime.TransitionTask | apps/zero3-desktop/execution-runtime/runtime.ts:252-265 | Same disk and refusal as the specification |
| RuntimeMethods.ExecutionRuntime.ReconcileReadiness | apps/zero3-desktop/execution-runtime/runtime.ts:267-287 | Same disk and refusal as the specification; the plan returned is that of the state written |
| RuntimeMethods.ExecutionRuntime.RecordSkillPreflight | apps/zero3-desktop/execution-runtime/runtime.ts:289-310 | Same disk and refusal as the specification |
| RuntimeMethods.ExecutionRuntime.CreateAssignment | apps/zero3-desktop/execution-runtime/runtime.ts:312-359 | Same disk and refusal as the specification: skills, status, dependencies, cap, attempts and executor are checked in this order |
| RuntimeMethods.ExecutionRuntime.BindSession | apps/zero3-desktop/execution-runtime/runtime.ts:361-398 | Same disk and refusal as the specification |
| RuntimeMethods.ExecutionRuntime.UpdateSessionBindingState | apps/zero3-desktop/execution-runtime/runtime.ts:408-430 | Same disk and refusal as the specification |
| RuntimeMethods.ExecutionRuntime.TransitionStep | apps/zero3-desktop/execution-runtime/runtime.ts:432-465 | Same disk and refusal as the specification, including the cancellation of a task whose last open step is cancelled |
| RuntimeMethods.ExecutionRuntime.RecordProgress | apps/zero3-desktop/execution-runtime/runtime.ts:467-484 | Same disk and refusal as the specification |
| RuntimeMethods.ExecutionRuntime.RecordArtifact | apps/zero3-desktop/execution-runtime/runtime.ts:486-497 | Same disk and refusal as the specification |
| RuntimeMethods.ExecutionRuntime.RequestCompletion | apps/zero3-desktop/execution-runtime/runtime.ts:499-513 | Same disk and refusal as the specification |
| RuntimeMethods.ExecutionRuntime.GatePassed | apps/zero3-desktop/execution-runtime/runtime.ts:515-563 | Same disk and refusal as the specification: required outputs are counted in the event file, freed steps promoted in order, the task closed when no step is open |
| RuntimeMethods.ExecutionRuntime.GateFailed | apps/zero3-desktop/execution-runtime/runtime.ts:565-578 | Same disk and refusal as the specification |
| Operations.ExecGood | apps/zero3-desktop/execution-runtime/runtime.ts:188-578 | Every operation, completed or thrown out of, keeps the whole invariant of snapshot and event file |
| Runs.BornInv | apps/zero3-desktop/execution-runtime/runtime.ts:188-217 | Creation establishes the invariant, also when it crashes before or after its event |
| Runs.RunInv | apps/zero3-desktop/execution-runtime/runtime.ts:111-186 | Every run of calls, failures and crashes keeps the invariant, and the event file only grows |
| Runs.DependencyClosed | apps/zero3-desktop/execution-runtime/runtime.ts:325-345 | In every reachable state the dependencies of a completed or assigned step are all completed |
| Runs.ReadinessIsCurrent | apps/zero3-desktop/execution-runtime/runtime.ts:73-87 | In every reachable state a waiting step has an unmet dependency, a ready one has none, and none is pending |
| Runs.ReconcileNeverActs | apps/zero3-desktop/execution-runtime/runtime.ts:267-287 | In every reachable state recomputing readiness appends no event and writes the snapshot back unchanged: incremental promotion equals full recomputation |
| Runs.BooksAgree | apps/zero3-desktop/execution-runtime/runtime.ts:326-398 | A step's attempt is the number of its assignments, which are numbered 1..attempt within its limit; its assignment is the newest; no assignment has two open bindings |
| Runs.TaskFollowsSteps | apps/zero3-desktop/execution-runtime/runtime.ts:456-558 | All steps completed implies the task completed; all closed with one cancelled implies it cancelled |
| Runs.DerivedFieldsCurrent | apps/zero3-desktop/execution-runtime/runtime.ts:89-100 | The stored progress and list of active steps are those recomputed from the step states |
| Runs.StoreStaysConsistent | apps/zero3-desktop/execution-runtime/store.ts:199-214 | Whatever crashes, the file stays numbered 1..n with distinct ids, the snapshot is valid and never ahead of it, so reconciling never reports corruption |
| Effects.ExecEffect | apps/zero3-desktop/execution-runtime/runtime.ts:252-578 | The state a completed call gives every step, the assignments and the task status it leaves, and that all else about them stays, event numbers aside |
| History.CallForward | apps/zero3-desktop/execution-runtime/runtime.ts:432-563 | A completed call takes back no step, assignment, attempt, completion or cancellation, and completes exactly the step whose gate it passes, which was verifying |
| History.CompletionOrder | apps/zero3-desktop/execution-runtime/runtime.ts:515-563 | In every run the order in which completions were stored is a linear extension of the step graph, restricted to the completed steps |
| History.RunOnlyMovesOn | apps/zero3-desktop/execution-runtime/runtime.ts:188-578 | Over whole runs steps and assignments are only added, attempts never fall, and completed or cancelled steps stay so |
| Capacity.CapKeptUnlessGap | apps/zero3-desktop/execution-runtime/runtime.ts:467-484 | From a state within the cap a completed call leaves it exceeded exactly when it reports progress on a step that was sent back while the cap is reached |
| Capacity.AssignedKeptUnlessGap | apps/zero3-desktop/execution-runtime/runtime.ts:467-484 | A completed call makes an unassigned step active exactly when it reports progress on a step that was sent back without an assignment |
| Capacity.CapOverRuns | apps/zero3-desktop/execution-runtime/runtime.ts:318-330 | A run stays within the cap at every moment if and only if none of its moves is such a report at the cap with a finite number and an event that is not refused, which is known before the call |
| Capacity.WithoutGapAllIsWell | apps/zero3-desktop/execution-runtime/runtime.ts:318-513 | In runs without such reports active steps are assigned and never exceed maxParallelSteps |
| Success.SingleSucceeds | apps/zero3-desktop/execution-runtime/runtime.ts:124-186 | In every state of the invariant a single-event call whose guards hold and whose ids are new completes, with exactly one event |
| Success.SingleCompletes | apps/zero3-desktop/execution-runtime/runtime.ts:124-186 | A single-event call that draws no identifier completes if and only if its guards hold and its event is new or repeats one recorded under its own id with the same content |
| Success.GatePassSucceeds | apps/zero3-desktop/execution-runtime/runtime.ts:511-563 | In a running task a gate passes when all it asks for is there, whatever it frees or closes |
| Guards.CompletesExactly | apps/zero3-desktop/execution-runtime/runtime.ts:219-578 | In every state of the invariant a call with new identifiers completes if and only if the stored fields allow it, operation by operation: which steps, statuses, dependencies, free places, attempts, executors, skills, assignments and bindings it needs |
| Guards.CallLeaves | apps/zero3-desktop/execution-runtime/runtime.ts:219-578 | What a completed call leaves in each field of each step, the steps it adds, the assignments and the task status |
| Guards.CallTells | apps/zero3-desktop/execution-runtime/runtime.ts:124-186 | The one event of a single-event call: its number, its step and assignment, its content, its id and report |
| Guards.BindingLeft | apps/zero3-desktop/execution-runtime/runtime.ts:361-418 | A binding is appended for the step and executor of its assignment; an update changes the state of one binding |
| Guards.BlockersLeft | apps/zero3-desktop/execution-runtime/runtime.ts:252-265 | The text a task is blocked with is kept until it is blocked with another |
| Guards.CreationExactly | apps/zero3-desktop/execution-runtime/runtime.ts:188-217 | A task is created if and only if its definition is valid and of revision one; its steps are ready or waiting and not yet attempted |
| Outputs.PassedGateWasMet | apps/zero3-desktop/execution-runtime/runtime.ts:511-533 | A gate that passes was of a verifying step; a human review was of the present assignment and has a note; where the gate or the review asks for outputs, each required one has as many differently named artifacts, produced under the present assignment, as it asks for, one if it does not say |
| Outputs.GateExactly | apps/zero3-desktop/execution-runtime/runtime.ts:511-563 | With new identifiers a gate passes if and only if all that is there and the task may take the status its steps then give it |
| Outputs.ClosingIsTold | apps/zero3-desktop/execution-runtime/runtime.ts:538-558 | The gate of the last open step records that it passed and then that the task is completed, with its steps in definition order, or cancelled if a step was |
| Outputs.CompletedHaveDelivered | apps/zero3-desktop/execution-runtime/runtime.ts:526-533 | In every reachable state a completed step whose gate asks for outputs has delivered them under its present assignment |
| Derived.DerivedFieldsMean | apps/zero3-desktop/execution-runtime/runtime.ts:89-98 | In every reachable state step progress is a share, all of it for a completed step, the task progress is the mean of them rounded to four places, and the active list names exactly the steps under way |
| Driver.AssignAll | apps/zero3-desktop/execution-runtime/runtime.ts:312-359 | In any state of a task that is not completed, cancelled or failed, whatever its other steps are doing, ready steps with an attempt and an executor left that fit the free capacity can all be assigned, in any order, without a refusal; each is then dispatched under its own assignment, the others are as they were |
| Driver.PlanCanBeAssigned | apps/zero3-desktop/execution-runtime/scheduler.ts:58-100 | What the plan of any such state dispatches can be assigned in plan order without a refusal, given an attempt and an executor for each of its steps |
| Liveness.Round | apps/zero3-desktop/execution-runtime/scheduler.ts:58-100 | From a state with nothing active and something open, a round reconciles, gets a nonempty plan, assigns exactly it and passes exactly its gates, all calls completing |
| Liveness.Drive | apps/zero3-desktop/execution-runtime/runtime.ts:312-563 | Repeated rounds never stall: at most one round per open step completes the task, each gate is passed exactly once, and the cap is kept at every moment |
| Liveness.NewTaskCompletes | apps/zero3-desktop/execution-runtime/runtime.ts:188-563 | Every creatable task with at least one step is completed by that loop once its skills are reported |
| Loopholes.ReadyStepEscapes | apps/zero3-desktop/execution-runtime/runtime.ts:472-477 | In every live state, whatever the cap, three completed calls set a ready step running unassigned |
| Loopholes.CapBroken | apps/zero3-desktop/execution-runtime/runtime.ts:472-477 | A concrete task limited to one parallel step reaches two running steps, neither assigned |
| Loopholes.BothRunsExist | apps/zero3-desktop/execution-runtime/runtime.ts:188-563 | The hypotheses of the two kinds of theorem are met: one concrete task limited to one parallel step has a run of completed calls that ends with two running steps, and one that completes it within its cap |
| Loopholes.CompletedByDecree | apps/zero3-desktop/execution-runtime/runtime.ts:252-265 | From a state without the fault, a completed call leaves a completed task with an open step if and only if it declares the task completed over an open step |
| Loopholes.DecreeOverRuns | apps/zero3-desktop/execution-runtime/runtime.ts:252-265 | In a run a completed task has all its steps completed at every moment if and only if no call of the run is such a declaration with a permitted status and a new event id, which is known before the call |
| Loopholes.DecreeFromBirth | apps/zero3-desktop/execution-runtime/runtime.ts:252-265 | The same for every run of a new task, its creation crashed or not |
| Stranded.DecreeReached | apps/zero3-desktop/execution-runtime/runtime.ts:252-265 | A run of completed calls from a new task that ends in a completed task with open steps |
| Losses.GateThrowsAfterAppend | apps/zero3-desktop/execution-runtime/runtime.ts:548-558 | A gate that has all it asks for throws after its append exactly when it closes the last open step of a task whose status does not allow the closing one; what is left on disk then |
| Losses.CancelThrowsAfterAppend | apps/zero3-desktop/execution-runtime/runtime.ts:432-465 | A permitted transition that records a new event, under an id of its own or not, throws after that append exactly when it cancels the last open step of a task already declared completed; what is left then |
| Losses.AdditionThrowsAfterAppend | apps/zero3-desktop/execution-runtime/runtime.ts:219-250 | An addition that is not refused at once records all its steps and then throws exactly when the extended definition is invalid |
| Stranded.EveryLossIsReached | apps/zero3-desktop/execution-runtime/runtime.ts:219-563 | Each of the three losses is reached by completed calls from one concrete new task |
| Stranded.CancelStrands | apps/zero3-desktop/execution-runtime/runtime.ts:432-465 | Running, declared completed, one step cancelled: the cancellation of the other step is recorded and then throws |
| Stranded.GateStrands | apps/zero3-desktop/execution-runtime/runtime.ts:515-563 | Both steps driven as intended, the task set waiting for a human meanwhile: the last gate is recorded as passed and then throws |
| Stranded.AdditionStrands | apps/zero3-desktop/execution-runtime/runtime.ts:219-250 | Two steps that wait for each other, and a step that waits for an unknown one, are recorded on a new task and then refused |
| Replay.EventTellsChange | apps/zero3-desktop/execution-runtime/runtime.ts:252-578 | Applying the event of a single-event call to the view before it gives the view after it |
| Replay.SnapshotIsTheFold | apps/zero3-desktop/execution-runtime/runtime.ts:124-578 | In every run with new event ids, no crash and no throw after an append, folding the event file over the step definitions gives each step's stored status, attempt, assignment and progress and the task status |
| Agreement.FoldIsTheSnapshotExactly | apps/zero3-desktop/execution-runtime/runtime.ts:111-578 | In every run of a new task, with crashes, repeated event ids and throwing calls, the fold of the file is what the snapshot shows at every moment if and only if no move leaves events of a call that is not mute without its snapshot, or writes such a call's snapshot for an event already in the file |
| Agreement.AgreementStep | apps/zero3-desktop/execution-runtime/runtime.ts:111-186 | Where fold and snapshot agree, one move separates them if and only if it loses something in that sense |
| Recovery.RetryAfterCrash | apps/zero3-desktop/execution-runtime/runtime.ts:128-184 | For a single-event operation with a new event id, a crash before or after its append followed by a retry equals the uncrashed call, with one event |
| Recovery.RetryTransition | apps/zero3-desktop/execution-runtime/runtime.ts:432-465 | A step transition with a new event id that crashed after any of its events and is retried: unless the cancellation of its task was appended already, the snapshot is that of the uncrashed call with as many events of the same contents; else the cancellation is appended a second time and the snapshot differs in event numbers only |
| Recovery.RetryRepeatsEvent | apps/zero3-desktop/execution-runtime/runtime.ts:128-184 | Without an event id of its own, the retry of a single-event call that draws nothing appends a second event of the same content and ends in the same snapshot up to event numbers |
| Recovery.RetryDrawsAnew | apps/zero3-desktop/execution-runtime/runtime.ts:312-398 | The retry of an assignment or of a binding draws a new identifier: the file tells of two of the same step and attempt, or of the same assignment and session, and the snapshot knows the second alone and is that of the uncrashed second call up to event numbers |
| Recovery.GatePassedTwice | apps/zero3-desktop/execution-runtime/runtime.ts:515-563 | A gate that has all it asks for, interrupted after its first event, is recorded as passed a second time by the retry |
| Divergence.NumbersHideLoss | apps/zero3-desktop/execution-runtime/runtime.ts:124-186 | When the fold of the file differs from the snapshot, recording any artifact makes the numbers equal again while the two still differ |
| Divergence.AppendingCatchesUp | apps/zero3-desktop/execution-runtime/runtime.ts:124-186 | Whatever was lost before, every completed call that appends leaves the stored event number at the end of the file |
| Divergence.CrashLosesCall | apps/zero3-desktop/execution-runtime/runtime.ts:252-578 | A crash of a single-event call behind its append makes fold and snapshot differ exactly when the call would have changed a status, attempt, assignment or progress; which calls change none is decided by the state before |
| Divergence.LateDuplicate | apps/zero3-desktop/execution-runtime/runtime.ts:128-164 | A single-event call delivered again appends nothing but still writes its change; fold and snapshot agree afterwards exactly when it changes nothing |
| Reporter.ExecutionReporter.Report | apps/zero3-desktop/execution-runtime/reporter.ts:222-275 | Same answer and disk as the specification of a delivery, whatever the ticket, the report and the state |
| Reports.AcceptedReportRepeats | apps/zero3-desktop/execution-runtime/reporter.ts:228-239 | An accepted report delivered again gets the same answer, marked as duplicate, and changes nothing |
| ReportAnswers.ReportExactly | apps/zero3-desktop/execution-runtime/reporter.ts:222-275 | A report under a new id is accepted if and only if it is well formed and allowed, its ticket is in scope, its step still takes reports and the call it means may complete; then that call is what it does |
| ReportAnswers.KnownReportExactly | apps/zero3-desktop/execution-runtime/reporter.ts:229-239 | A report whose id is in the file changes nothing: a duplicate if it is the recorded one and the snapshot has caught up, refused otherwise |
| ReportAnswers.ScopeExactly | apps/zero3-desktop/execution-runtime/reporter.ts:353-385 | A ticket is in scope if and only if it names the present assignment of its step as it was made and, with a binding, an open session of it |
| ReportAnswers.AnswerIsCurrent | apps/zero3-desktop/execution-runtime/reporter.ts:114-135 | An accepted answer tells the stored states after it, and what the executor is to do next follows from the state of its step |
| Reports.StaleForever | apps/zero3-desktop/execution-runtime/reporter.ts:367-384 | Once a step has a newer assignment, in every later state of every run a report under the old one is refused and changes nothing |
| Reports.ReportsStayInBounds | apps/zero3-desktop/execution-runtime/reporter.ts:222-275 | No report completes a step, and none makes an unassigned step active |
| Reports.LostReportIsAcknowledged | apps/zero3-desktop/execution-runtime/reporter.ts:230-239 | A report of any kind whose call crashed behind its append is refused as long as the snapshot is not written; the next completed call that appends, whichever it is, has the effect it would have had without the report, after which the report is acknowledged as a duplicate while its ticket is in scope |
| ControlPlane.Server.Open | apps/web/src/control_plane.rs:330-355 | Reopening from the files gives in memory exactly the records on disk |
| ControlPlane.Server.CreateTask | apps/web/src/control_plane.rs:357-401 | Same state and reply as the specification: a replay is answered, a reused task or execution id refused, a failed write leaves no record |
| ControlPlane.Server.Select | apps/web/src/control_plane.rs:470-490 | The record offered to a node is the first leasable one in key order, and there is one whenever any is leasable |
| ControlPlane.Server.TryLease | apps/web/src/control_plane.rs:459-521 | Same state and reply as the specification, including the return to the old record when the write fails |
| ControlPlane.Server.Renew | apps/web/src/control_plane.rs:523-558 | Same state and reply as the specification |
| ControlPlane.Server.AcceptEvent | apps/web/src/control_plane.rs:560-628 | Same state and reply as the specification |
| ControlPlane.Server.AcceptTerminal | apps/web/src/control_plane.rs:630-691 | Same state and reply as the specification |
| Fencing.EveryRecordInOrder | apps/web/src/control_plane.rs:560-691 | In every run accepted events have strictly increasing sequence numbers and tokens that never fall; there is a terminal record exactly in a terminal state; fingerprints number the events plus the terminal record; memory equals disk; no two tasks share an execution |
| Fencing.LeasesAreFenced | apps/web/src/control_plane.rs:459-521 | The leases a task was ever granted carry the tokens 1, 2, 3, ... and all went to its one sticky node |
| Fencing.RunMovesOn | apps/web/src/control_plane.rs:560-691 | Over every run events are only added at the end, the token never falls, the sticky node stays, and a closed record never changes again |
| Fencing.OldTokenNeverWrites | apps/web/src/control_plane.rs:1040-1076 | A delivery under a token older than the newest changes nothing, now or after any run |
| Fencing.GrantAfterExpiry | apps/web/src/control_plane.rs:459-521 | A lease is granted only on an open task whose earlier lease has run out |
| Fencing.FingerprintsAreAccepted | apps/web/src/control_plane.rs:575-689 | The fingerprints of a task are exactly the deliveries that were answered with success |
| Fencing.RepeatsCanBeErased | apps/web/src/control_plane.rs:575-691 | Every run with repeated or conflicting deliveries ends in exactly the state of the run with those deliveries deleted |
| Deliveries.EventExactly | apps/web/src/control_plane.rs:560-628 | An event under a new delivery id is accepted if and only if the task is open, the delivery names its execution and comes from the holder of its running lease under the newest token, its number is above all accepted ones and the write succeeds; it is appended and nothing else changes |
| Deliveries.TerminalExactly | apps/web/src/control_plane.rs:630-691 | The same for a terminal outcome, which has to fit its route; it closes the task and ends the lease |
| Deliveries.RepeatsAreAnswered | apps/web/src/control_plane.rs:575-583 | An accepted delivery posted again is answered with the record, another one under its id is refused; neither changes anything |
| Deliveries.RedeliveryIsAnswered | apps/web/src/control_plane.rs:575-583 | A delivery once answered with success is answered with the record whenever it comes again, after any run; another one under its id is always refused |
| Deliveries.CreationIsAnswered | apps/web/src/control_plane.rs:357-401 | A stored task posted again is answered with its record after any run; another task under its id or a new one for its execution is refused |
| Deliveries.LeaseExactly | apps/web/src/control_plane.rs:459-521 | The first free task in key order is granted under the next token until the lease time is over, if its tokens are not used up and the write succeeds |
| Deliveries.NothingExactly | apps/web/src/control_plane.rs:459-521 | An able node is told that there is nothing to do exactly when no task is free for it |
| Deliveries.RenewExactly | apps/web/src/control_plane.rs:523-558 | The holder of a running lease, and no one else, extends it to the lease time from now |
| Deliveries.LeaseholderCanDeliver | apps/web/src/control_plane.rs:459-691 | Until a lease expires its holder can deliver, whatever anyone asks for meanwhile: unless the task is closed, any new event with a higher number and any new outcome on its route is accepted |
| Deliveries.NodeExactly | apps/web/src/control_plane.rs:403-457 | What a registration and a heartbeat store, and when |
| Deliveries.RegisteredStaysAble | apps/web/src/control_plane.rs:403-457 | A registered node can ask for work ever after |
| CanonicalJson.CanonicalText | apps/zero3-desktop/control-runtime/control-client.ts:48-55 | Two JSON values (RFC 8259) print equally if and only if they are equal up to the order of object keys |
| CanonicalJson.Readable | apps/zero3-desktop/control-runtime/control-client.ts:48-55 | The end of a printed value can be found in any text that continues it, and the value read back up to key order |
| CanonicalJson.QuotedReadable | apps/zero3-desktop/control-runtime/control-client.ts:48-55 | String printing with its escapes is injective, and self-delimiting |
| CanonicalJson.SimilarPrints | apps/zero3-desktop/control-runtime/control-client.ts:48-55 | Sorting the keys makes values that differ only in key order print equally |
| TaskExtensions.ExtensionStore.Put | apps/web/src/control_extensions.rs:212-296 | Same records and reply as the specification, and the files stay equal to the records |
| TaskExtensions.PutExactly | apps/web/src/control_extensions.rs:244-294 | A sidecar is accepted if and only if it has a field and is the stored one again, or no other execution has one, the version is the expected one and the write succeeds; what is stored then |
| TaskExtensions.ClientAgreesWithServer | apps/zero3-desktop/control-runtime/control-client.ts:57-65 | The client's comparison of canonical texts accepts a stored sidecar exactly when the server's comparison of fields does |
| Dispatch.TaskOnlyWithItsSidecar | apps/zero3-desktop/control-runtime/control-client.ts:190-222 | Under loss, repetition, delay and competition, and whatever other tasks are dispatched: when all dispatches of a task carry an extension, its record exists only if its sidecar is stored at version 1 and is the extension of a dispatch of exactly that task; it shares its execution with no other record |
| Dispatch.SidecarsNeverChange | apps/web/src/control_extensions.rs:212-296 | A sidecar stored by a dispatch is the same at every later moment of every run |
| Dispatch.BareDispatchNeedsNoSidecar | apps/zero3-desktop/control-runtime/control-client.ts:190-206 | The hypothesis is needed: one dispatch without an extension makes a task that has no sidecar |
| DispatchAnswers.DispatchExactly | apps/zero3-desktop/control-runtime/control-client.ts:190-222 | From any reachable state a dispatch whose messages get through succeeds if and only if no other sidecar is stored for its task and neither its id nor its execution is taken by another task; then its sidecar and its task are stored |
| WorkerGateway.Gateway.Submit | apps/web/src/worker_gateway.rs:345-427 | Same requests and reply as the specification |
| WorkerGateway.Gateway.TryLease | apps/web/src/worker_gateway.rs:435-501 | Same requests and reply as the specification |
| WorkerGateway.Gateway.MinByAge | apps/web/src/worker_gateway.rs:450-470 | The request chosen is the oldest the node can serve |
| WorkerGateway.Gateway.Finish | apps/web/src/worker_gateway.rs:551-589 | Same requests and reply as the specification |
| WorkerGateway.Gateway.Get | apps/web/src/worker_gateway.rs:590-598 | Same requests and reply as the specification |
| WorkerGateway.Gateway.Refresh | apps/web/src/worker_gateway.rs:600-639 | The sweep expires, requeues and purges each request as its own clock says, and reports failure exactly when a needed write failed |
| Queue.QueueStaysOk | apps/web/src/worker_gateway.rs:345-427 | In every run the idempotency keys of stored requests are pairwise distinct and at most 1024 requests are open |
| Queue.AnswerIsForTheSameRequest | apps/web/src/worker_gateway.rs:355-390 | A submission is answered with a request for the same capability, tool and arguments, be it new or stored |
| Queue.RequestsMoveOn | apps/web/src/worker_gateway.rs:551-639 | A finished request is unchanged until it is purged; what was asked never changes and tokens never fall |
| Queue.OldTokenNeverFinishes | apps/web/src/worker_gateway.rs:1100-1131 | An outcome under a token older than the newest lease has no effect, now or after any run |
| Queue.NewestTokenFinishes | apps/web/src/worker_gateway.rs:551-589 | In every run from an empty queue, a request finished by an outcome was finished by a call under the token of the last lease it was ever granted, and holds that call's outcome |
| Queue.TokenCountsLeases | apps/web/src/worker_gateway.rs:435-501 | In every run from an empty queue the leases of a request carry the tokens 1, 2, 3, ..., and its token is their number |
| Queue.TokensAreConsecutive | apps/web/src/worker_gateway.rs:435-501 | From any stored request on, its leases carry consecutive tokens and its token counts them |
| Outcomes.SweptExactly | apps/web/src/worker_gateway.rs:600-639 | What time makes of the requests: finished ones past their time are removed, open ones past theirs expire, those without a running lease are queued |
| Outcomes.SubmitAgain | apps/web/src/worker_gateway.rs:345-371 | A submission whose key is stored is answered with that request if the arguments are the same, and refused otherwise |
| Outcomes.SubmitNew | apps/web/src/worker_gateway.rs:372-427 | Another submission makes a new request if and only if fewer than 1024 are open and the write succeeds |
| Outcomes.LeaseExactly | apps/web/src/worker_gateway.rs:435-500 | The waiting request submitted first is leased under the next token for thirty seconds or fifteen minutes |
| Outcomes.NothingExactly | apps/web/src/worker_gateway.rs:435-463 | A node is told that nothing waits exactly when nothing does |
| Outcomes.FinishExactly | apps/web/src/worker_gateway.rs:551-589 | An outcome for an open request is accepted if and only if the request is leased to this node under this lease id and token, the lease is running and the write succeeds |
| Outcomes.FinishedExactly | apps/web/src/worker_gateway.rs:562-574 | An outcome for a finished request is answered with the request if it is the same, and refused otherwise |
| Outcomes.GetExactly | apps/web/src/worker_gateway.rs:590-598 | A stored request is shown as time has made it |
| Outcomes.LeaseholderCanFinish | apps/web/src/worker_gateway.rs:551-612 | Until its lease or the request expires the node can finish the request, whatever else is asked for: an outcome was accepted under this lease, or its own is |
| DedupeKeys.KeyTellsScopeExactly | apps/web/src/worker_gateway.rs:1133-1154 | Among requests that bring the same key string, the idempotency key determines the scope if and only if no field of the request contains a colon |
| DedupeKeys.KeyTellsAllExactly | apps/web/src/worker_gateway.rs:1133-1154 | Among all requests, the key determines the scope, key string included, if and only if no field contains a colon and no colon of the key string leaves a trimmed rest |
| DedupeKeys.ColonsCollide | apps/web/src/worker_gateway.rs:1133-1154 | Whichever field of a request has a colon, there is a request of another scope with the same key string and the same key |
| DedupeKeys.RivalIsRefused | apps/web/src/worker_gateway.rs:362-377 | While one of two colliding requests is stored, submitting the other is refused as a reuse of its key |
| Router.RouteTask | apps/zero3-desktop/agent-routing-runtime/intelligent-router.ts:257-411 | The loop over the catalog and the sort compute the decision of the specification |
| Router.SortByScore | apps/zero3-desktop/agent-routing-runtime/intelligent-router.ts:325-325 | The array ends as the stable order by falling score of what it held |
| Router.SelectionRule | apps/zero3-desktop/agent-routing-runtime/intelligent-router.ts:325-411 | When a decision exists; that an eligible requested executor is taken, a pinned one never replaced, and otherwise one of maximal score is; that no excluded executor is selected |
| Router.DecisionFacts | apps/zero3-desktop/agent-routing-runtime/intelligent-router.ts:325-411 | The selected executor has the score reported, which lies between 0 and 1, and the fallbacks are exactly the other eligible ones |
| Router.QualifiedExactly | apps/zero3-desktop/agent-routing-runtime/intelligent-router.ts:148-163 | An executor is eligible if and only if it is not excluded, ready in the catalog and by its probe, not known to be logged out, and has the capabilities the task type and the request ask for |
| Router.ScoreIsTheWeightedSum | apps/zero3-desktop/agent-routing-runtime/intelligent-router.ts:102-215 | The score is the weighted sum of the unrounded factors up to a thousandth |
| Router.DecisionDividesCatalog | apps/zero3-desktop/agent-routing-runtime/intelligent-router.ts:285-411 | Selected, fallback and rejected executors divide the catalog: each executor is in exactly one of the three |
| Failover.ResolveRoutingMode | apps/zero3-desktop/agent-routing-runtime/agent-runtime-orchestrator.ts:298-318 | Automatic exactly when no executor is requested; refused exactly for a pin without a target; an explicit target is never overridden, and is pinned unless preference is asked for |
| Failover.DispatchAgentTask | apps/zero3-desktop/agent-routing-runtime/agent-runtime-orchestrator.ts:559-735 | How a dispatch of a fresh task ends and what is stored: each attempt went to the executor the router selects with the blamed ones excluded and follows one that allowed it; the loop never falls through to its final throw |
| Failover.AttemptsAreBounded | apps/zero3-desktop/agent-routing-runtime/agent-runtime-orchestrator.ts:559-735 | At most maxAttempts and at most maxExecutorSwitches + 1 attempts |
| Failover.PinnedIsTriedOnce | apps/zero3-desktop/agent-routing-runtime/agent-runtime-orchestrator.ts:709-719 | A pinned task is attempted at most once, on the executor it is pinned to |
| Failover.BlamedIsNeverReselected | apps/zero3-desktop/agent-routing-runtime/agent-runtime-orchestrator.ts:724-726 | An executor blamed for a failed attempt makes no later attempt of the task |
| Failover.NextAttemptExactly | apps/zero3-desktop/agent-routing-runtime/agent-runtime-orchestrator.ts:347-413 | An attempt is followed by another, or by the search for one, if and only if the task is not pinned, both budgets allow it, and it was a declared reroute or retry, a failed result that declares nothing, or an error that neither leaves the outcome unknown nor waits for a human |
| Failover.StoredState | apps/zero3-desktop/agent-routing-runtime/agent-runtime-orchestrator.ts:250-258 | Which state is stored for each outcome of the last attempt |
| Failover.RoutingFailureNeverBlocks | apps/zero3-desktop/agent-routing-runtime/agent-runtime-orchestrator.ts:588-599 | A routing failure ends a task that was attempted as failed and stores nothing for one that was not: the blocked state is never reached |
| Failover.BestRemainingIsTried | apps/zero3-desktop/agent-routing-runtime/agent-runtime-orchestrator.ts:559-735 | In automatic mode each attempt goes to an eligible executor of maximal score among those not blamed before, where exactly the executors of blamed outcomes are excluded |
| OAuth.ScopeNormal | apps/web/src/oauth.rs:649-669 | A scope is accepted exactly when all its words are known; it then has the worker word, the offline word exactly when asked for, no repeats, and the first word asked for, or else the worker word, in front |
| OAuth.Server.RegisterClient | apps/web/src/oauth.rs:263-314 | Same memory, file and reply as the specification: an accepted client is known in memory even when the write fails |
| OAuth.Server.BeginAuthorization | apps/web/src/oauth.rs:316-366 | Same memory, file and reply as the specification |
| OAuth.Server.ApproveAuthorization | apps/web/src/oauth.rs:368-401 | Same memory, file and reply as the specification |
| OAuth.Server.ExchangeAuthorizationCode | apps/web/src/oauth.rs:411-454 | Same memory, file and reply as the specification |
| OAuth.Server.ExchangeRefreshToken | apps/web/src/oauth.rs:456-480 | Same memory, file and reply as the specification |
| OAuth.Server.RevokeToken | apps/web/src/oauth.rs:482-504 | Same memory, file and reply as the specification |
| OAuth.Server.CleanupState | apps/web/src/oauth.rs:737-749 | Exactly the expired and used records are dropped |
| Authorizations.CodeExactly | apps/web/src/oauth.rs:411-454 | A code is exchanged if and only if it is stored, unused and not expired, the request has its client, redirect address and challenge, and the write succeeds; which tokens are stored then |
| Authorizations.RefreshExactly | apps/web/src/oauth.rs:456-480 | A refresh token is rotated if and only if it is stored, neither revoked nor expired, presented by its client, and the write succeeds |
| Authorizations.BeginExactly | apps/web/src/oauth.rs:316-366 | A request for authorization is stored if and only if its scope is known, its client is registered with the redirect address and the write succeeds |
| Authorizations.ApproveExactly | apps/web/src/oauth.rs:368-401 | An approval is answered with a code if and only if it is by the owner, in time, and the write succeeds; the code takes over what was asked for |
| Authorizations.RevokeExactly | apps/web/src/oauth.rs:482-504 | Which stored tokens a revocation marks |
| Authorizations.CleanedExactly | apps/web/src/oauth.rs:737-749 | The sweep drops exactly what has expired and the used codes |
| Authorizations.IssuedWasAuthorized | apps/web/src/oauth.rs:316-454 | Over all runs tokens are given for a code only to the client the owner approved, at a redirect address it had registered, with the challenge and for the scope it had asked with, within the times allowed |
| Authorizations.ApprovedCodeWorks | apps/web/src/oauth.rs:368-454 | An approved code stays as it is, through failed writes and restarts, until it expires or its client presents it, and is then exchanged for the approved scope |
| Authorizations.RotatedWasDrawn | apps/web/src/oauth.rs:456-480 | A refresh token is rotated only for the client it was drawn for, within thirty days, for a scope approved for that client |
| Authorizations.GivenTokenWorks | apps/web/src/oauth.rs:456-480 | A refresh token that was given out can be rotated, for the same scope, until it expires, is presented or is revoked |
| Authorizations.RevokedNeverRotates | apps/web/src/oauth.rs:482-504 | A revoked refresh token is never rotated again, after any run |
| Families.TokensFormFamilies | apps/web/src/oauth.rs:368-480 | In every run with failed writes and restarts a code is exchanged at most once and a refresh token rotates at most once; every token has the client and scope of its approval; one approval has at most one live refresh token |
| Families.CodeComesBack | apps/web/src/oauth.rs:411-454 | A run in which the write of a code exchange fails: memory holds the code as used, the file as usable, and after a restart it is exchanged, for the first time with success |
| Catchup.Repository.Append | apps/memory-server/src/lib.rs:217-239 | An event id is recorded once, under the next number; a repeat gets the first number and changes nothing |
| Catchup.Repository.EventsAfter | apps/memory-server/src/lib.rs:241-263 | The page is the first part, up to the limit, of the subscribed events above the cursor |
| Catchup.Session.SendCatchup | apps/memory-server/src/lib.rs:935-961 | With events arriving between pages and sends that may fail, the call ends once no more arrive; caught up means that the frames of the socket's life concatenate to exactly the subscribed events above its first cursor |
| Catchup.SelectSplits | apps/memory-server/src/lib.rs:241-263 | A filter over a range of numbers is the concatenation of the filters over its two parts |
| Catchup.SelectedExactly | apps/memory-server/src/lib.rs:241-263 | A selection has exactly the events in range whose project is subscribed to |
| Catchup.PageIsSelection | apps/memory-server/src/lib.rs:241-263 | A nonempty page is everything subscribed between the cursor and its last event, as much as the limit allows, for any positive limit |
| Catchup.PagesAreOneFilter | apps/memory-server/src/lib.rs:935-961 | However appends and pages interleave, the frames so far are one selection without gap or repeat, in order, and whenever the next page is empty exactly the events above the first cursor whose project is subscribed to |

## Left out

- Archiving and deleting tasks (`setTaskArchived`, `deleteTask`), the definition archive and `writeDefinition`: the runtime only adds steps, and the invariants rely on that.
- `recommendedExecutorByStep` of the plan: a copy of the definition.
- Several tasks at once: one task is modelled at a time, and finding the task of an assignment is taken as done.
- Times: timestamps are dropped; in the servers the time is an input of each call.
- Text and length checks, trimming, and the wording of errors: texts are taken as already normalised.
- RuntimeMethods.ExecutionRuntime.AppendEvent: says nothing when the event file is already corrupt, because where in a call the corruption is noticed is not modelled; torn or unparsable lines are not modelled.
- An event identity whose extra payload overrides a field of the event itself: payloads carry only their own fields.
- Liveness.NewTaskCompletes: the loop's calls are made by one driver without crashes; executors answer with every required output.
- Ticket signing, expiry and issuing: a ticket is taken as verified; the hash of a report and the id of its event are injective.
- A new assignment between the scope check of a report and the runtime call: the pair is one step, as the runtime serialises calls on a task.
- Reading requests, environment, tokens, headers, long polling and the tool catalogs of the servers.
- A failed write fails before the rename, so the file is the old or the new record; a file is named by the id it holds.
- DedupeKeys.KeyTellsAllExactly: what trimming a key string removes is any set of characters; key strings come trimmed.
- CanonicalJson.CanonicalText: number texts are taken as given, different for different numbers.
- Failover.DispatchAgentTask: dispatching a task again is not modelled, attempt numbers would repeat; what executors, probes and metrics answer is input; skills, bindings, the review store and the remapping of a reviewer do not influence the attempts and are left out.
- Router.RouteTask: the latency part is a factor between 0 and 1; roundings are on exact rationals.
- Hashes, random identifiers and the PKCE challenge: injective or new; a reused identifier is a repeated draw and excluded.
- OAuth metadata, the approval page, building the redirect, and the checks of a client registration.
- The Postgres repository and its triggers; the projection of events to a project context; the 64-bit range of sequence numbers.
- Executors, git evidence, metrics percentiles, review cycles and artifact references.
