# Verified model of AgentWorks' durable core

AgentWorks runs teams of coding agents from one local SQLite store. This project
models the parts of it whose correctness spans several operations, crashes or
goroutines, and proves what they promise:

- **Runs, leases, approvals and retries** (`RunModel`, `RunInvariant`,
  `RunTransitions`, `RunHistory`, `RunCauses`, `RunLifecycle`, `RunRetries`,
  `RunClock`, `RunWitnesses`, `RunStore`). The five tables are maps; a committed
  transaction is one `Step` with a guard and an effect. The class `RunStore.Store`
  performs each operation statement by statement with BEGIN and ROLLBACK and is
  proved to make exactly that step. One joint invariant is kept by every operation
  with any arguments, so stale and forged claims are covered, and the history
  theorems hold over every sequence of these operations, pinning and pruning of
  ended runs included. They also say where each answer and each ending comes from,
  and what the operations achieve together: a worker that acts in time gets from its
  claim to the end, recovery gives back what a dead worker had only leased, a retry
  comes due exactly when asked.
- **The approval broker** (`ApprovalCoverage`, `ApprovalBroker`, `PathClean`). When
  a stored grant covers a request, on texts and on the places and commands they mean,
  and what a yes from the polling loop guarantees while others act on the store: that
  somebody gave it.
- **The MCP client** (`McpClient`). Every locked section and every channel operation
  is an atomic step; the theorems hold in every interleaving of any number of calls.
  No channel is misused, and no answer taken for an open call is lost.
- **Schedules** (`Scheduler`, `ScheduleRuntime`). Catch-up arithmetic, and timers
  turned into events across crashes between any two store writes.
- **Events and routing** (`Normalization`, `Router`, `EventStore`, `Database`,
  `EventService`). Normalising and redacting envelopes, idempotent ingestion, the
  event status machine, the transactions that touch events and runs together, route
  selection and recovery.
- **Graph checks** (`Graphs`, `AgentGraph`, `Requires`). Two depth-first searches,
  proved sound, complete and terminating through the finish order they leave.
- **Packs** (`PackClosure`, `ClosureSuccess`, `PackArchive`, `PackInstall`). Which
  files a pack carries and when it can be made, the archive and its manifest,
  extraction, the verifier's seen/expected counting, that tampering shows, and when a
  packed project can be installed.

`Wrappers`, `Strings`, `Times` and `Ordering` hold shared definitions: option and
result types, blank trimming, instants and their whole milliseconds, byte-wise string
order and sorting.

Where the code does less than its documentation or its design suggests, the code is
modelled as it is and the exact condition is proved:

- A schedule keeps to its grid exactly when the interval is a whole number of
  milliseconds, because due times are stored in milliseconds
  (`ScheduleRuntime.GridNeedsWholeMillis`). Event ids are distinct exactly from one
  millisecond on (`ScheduleRuntime.EventIdsDistinct`), which alone does not keep the
  grid.
- An exact grant covers a request exactly when the kind has no surrounding blanks:
  validation trims the kind, coverage compares it untrimmed
  (`ApprovalCoverage.ExactGrantCovers`, `ApprovalCoverage.BlankKindIsNeverCovered`).
- Workspace exclusion holds at a time exactly when no claim or heartbeat writes a
  lease that reaches beyond it while a conflicting lease is live then
  (`RunClock.ExclusiveExactly`). A claim does so only by a clock that ran ahead, a
  heartbeat only by one that ran behind (`RunClock.ClaimClashesOnlyBefore`,
  `RunClock.HeartbeatClashesOnlyAfterExpiry`), and each kind of skew does break it
  (`RunWitnesses`). Clocks that never run backwards are enough
  (`RunClock.ExclusiveThroughout`).
- Retries let a run start again: it starts at most once more than its retries are
  scheduled, while each attempt starts at most once (`RunHistory.StartedOncePerRetry`,
  `RunHistory.AttemptStartedAtMostOnce`, `RunHistory.RetryRequeues`).
- The store documents routed events as immutable. Pruning the detail of an ended run
  rewrites the data of the event it names and the results of its attempts; what stays
  is stated by `RunHistory.EndedRunKeepsOutcome`,
  `RunHistory.FinishedAttemptKeepsEnding`, `EventStore.DataChangeOnlyByPruning` and
  `Database.EventKeepsDataUntilRunEnds`. The last needs runs to come from their
  events, as the program's all do (`Database.AttachedExactly`,
  `Database.PruningReachesNamedEvent`).
- The declared run transitions do not list pausing a run that is still preparing or
  resuming it; approvals make both, and nothing else leaves the table
  (`RunTransitions.StepFollowsTransitions`).
- A run may be created in any state; only pending and ended ones keep the store
  consistent (`RunInvariant.CreationKeepsInv`, and `Database.RoutingKeepsInvExactly`
  for runs created by routing).
- The requirement check is documented to report each cycle once, at its first member.
  It writes one message for each requirement that closes a chain, under the artifact
  that has it, and may leave other cycles unreported; every cycle takes a requirement
  that is reported as closing a chain (`Requires.CheckRequires`).
- Deciding an approval does not look at leases (`RunWitnesses.DecisionIgnoresLease`),
  which is harmless while clocks never run backwards (`RunClock.DecisionHarmless`);
  cancelling one leaves its run waiting for good
  (`RunHistory.CancelApprovalStrands`, `RunHistory.StrandedRunNeverResumes`);
  preparing and heartbeating accept a stale attempt of the same owner
  (`RunHistory.AttemptNotFenced`).
- A pack verifies exactly when no memory reference cleans to `pack.json`, or that file
  wins its place and is itself a manifest of the rest
  (`PackInstall.PackedProjectAccepted`); if its text is no manifest of the rest, no
  archive of the project verifies (`PackInstall.MemoryFileRefused`). It installs
  exactly if besides it is within the limits of extraction
  (`PackInstall.PackedProjectInstalls`), which creating a pack does not check
  (`PackInstall.BigProjectRefused`). The file mode a manifest declares is not
  verified.
- `Client.Close` is documented to fail calls in flight with "client is closed"; the
  code fails them with "connection closed" and whatever read error is recorded,
  possibly none, and so does the model.

## Model

| member | source | states |
|---|---|---|
| Strings.TrimSpaceCuts | internal/approval/broker.go:24-26 | trimming a kind, id or owner cuts blanks and nothing else off both ends |
| RunModel.OldestClaimable | internal/store/leases.go:83-125 | the run a claim may take: pending, allowed harness, workspace available, and no such run has an earlier (created_at, id) |
| RunModel.OldestClaimableExists | internal/store/leases.go:83-125 | whenever some run is claimable there is an oldest one |
| RunModel.OldestClaimableUnique | internal/store/leases.go:83-125 | the order by creation time and id has no ties, so the oldest claimable run is unique |
| RunModel.MaxNumber | internal/store/leases.go:167-172 | the largest attempt number of a run, 0 without attempts |
| RunInvariant.InvInitially | internal/store/leases.go:58-467 | the empty tables satisfy the joint invariant |
| RunInvariant.StepKeepsInv | internal/store/leases.go:58-467 | every operation on runs, attempts, leases, approvals and retry timers keeps the joint invariant, whatever its arguments; retries, pinning and pruning are among them |
| RunInvariant.CreationKeepsInv | internal/store/runs.go:15-43 | inserting a run keeps the invariant exactly when the run is created pending or ended |
| RunInvariant.StepKeepsRunKeys | internal/store/runs.go:19-27 | idempotency keys stay unique |
| RunInvariant.ClaimKeepsInv | internal/store/leases.go:153-201 | a claimed run gets one lease and one unfinished attempt with the next number |
| RunInvariant.CompleteKeepsInv | internal/store/leases.go:308-387 | completion leaves neither a lease nor an unfinished attempt |
| RunInvariant.RecoverKeepsInv | internal/store/leases.go:391-453 | reconciling expired leases keeps each run's invariant, for runs whose lease expired and for all others |
| RunInvariant.RequestKeepsInv | internal/store/approvals.go:16-87 | a pause creates the run's only pending approval, which remembers the attempt's state |
| RunInvariant.DecideKeepsInv | internal/store/approvals.go:92-140 | a resumed run agrees again with its unfinished attempt |
| RunInvariant.CancelApprovalKeepsInv | internal/store/approvals.go:146-180 | cancelling leaves the run waiting and keeps the invariant |
| RunInvariant.CancelPendingKeepsInv | internal/store/runs.go:264-316 | cancelling a run that waits for an attempt or a retry keeps the leases, attempts and approvals of the run consistent |
| RunInvariant.ScheduleRetryKeepsInv | internal/store/retries.go:29-95 | a run whose retry is scheduled has neither a lease nor an unfinished attempt |
| RunInvariant.TouchedRunKeepsRetries | internal/store/retries.go:57-158 | after every operation a run waits for a retry exactly when it has a pending timer, its only one, and timers belong to finished attempts |
| RunInvariant.ActivateKeepsInv | internal/store/retries.go:135-155 | activating a retry leaves a pending run without lease or unfinished attempt |
| RunInvariant.PruneKeepsInv | internal/store/pruning.go:92-111 | pruning an ended run keeps its invariant |
| RunInvariant.OtherRunsUnchanged | internal/store/leases.go:58-387 | every operation but recovery leaves the run, lease, attempt, approval and timer rows of all other runs as they are |
| RunTransitions.StepFollowsTransitions | internal/store/models.go:325-349 | every operation moves a run along the declared transitions or not at all, exactly unless it pauses a run that is still preparing or resumes one paused so; a run starts waiting for a retry exactly by scheduling one |
| RunInvariant.AttemptNumbersAreAnInterval | internal/store/leases.go:167-190 | attempt numbers of a run are exactly 1..n |
| RunHistory.ReplayKeepsInv | internal/store/leases.go:58-467 | the joint invariant holds after every history of operations |
| RunHistory.EndedRunKeptByStep | internal/store/pruning.go:17-117 | only pinning and pruning touch the row of an ended run |
| RunHistory.EndedRunKeepsOutcome | internal/store/leases.go:308-453 | terminal run states are absorbing over every history; an ended run keeps its state, conclusion and all but its pin and the times of its last touch and pruning |
| RunHistory.DecidedApprovalNeverChanges | internal/store/approvals.go:110-180 | no history deletes or rewrites an approval's question, and approved, denied and cancelled approvals never change |
| RunHistory.NoAnswerAfterTheEnd | internal/store/approvals.go:110-126 | an approval left pending on an ended run can never become approved or denied |
| RunHistory.ResumeRestoresPausedState | internal/store/approvals.go:50-126 | whatever happens between a request and its decision, the run resumes in the state it was paused in |
| RunHistory.CancelApprovalStrands | internal/store/approvals.go:146-180 | cancelling the pending approval of a waiting run leaves it waiting with no approval that could resume it |
| RunHistory.StrandedRunNeverResumes | internal/store/approvals.go:146-180 | such a run never prepares or runs again; it waits until it ends |
| RunHistory.RequeuedOncePerRetry | internal/store/retries.go:57-151 | over every history a prepared run returns to pending or leased at most once for each retry that is scheduled, one it already waits for included |
| RunHistory.PreparedRunNeverRequeued | internal/store/leases.go:205-235 | over histories without a retry of it, a run that was ever prepared never returns to pending or leased |
| RunHistory.RetryRequeues | internal/store/retries.go:97-155 | with a retry it does: activated at its due time or later, it makes the run pending and finishes the timer |
| RunHistory.StartedOncePerRetry | internal/store/leases.go:238-281 | over every history StartAttempt succeeds for a run at most once more than retries of it are scheduled, and not once more when it has started or ended |
| RunHistory.AttemptStartedAtMostOnce | internal/store/leases.go:264-273 | over every history, retries or not, StartAttempt succeeds at most once for each attempt |
| RunHistory.FinishedAttemptKeepsEnding | internal/store/pruning.go:101-103 | a finished attempt keeps its state, worker, process and times over every history, and its result too, except that the log entry is pruned once its run has ended |
| RunHistory.FinishedAttemptFenced | internal/store/leases.go:264-351 | no later start, completion or retry carrying a finished attempt succeeds |
| RunHistory.AttemptFinishedBy | internal/store/leases.go:332-441 | recovery, completion and a retry finish the attempt they are about |
| RunHistory.StaleClaimFenced | internal/store/leases.go:391-453 | after recovery of an expired lease the stale claim never starts, completes or retries anything, even if the same owner name reclaims the run |
| RunHistory.AttemptNotFenced | internal/store/leases.go:205-304 | prepare and heartbeat read run and owner only, so any attempt in the claim gives the same step |
| RunHistory.ClaimTakesTheOldest | internal/store/leases.go:58-201 | a claim is found exactly when a pending run with allowed harness and available workspace exists; it takes the oldest and leaves all other runs alone |
| RunCauses.ApprovalAnsweredExactly | internal/store/approvals.go:92-180 | a pending approval gets an answer exactly from a decision of that id with that decision, or from its cancellation, and the answer is recorded with the time and the reason given |
| RunCauses.ApprovalAskedBy | internal/store/approvals.go:50-87 | an approval appears pending, with the question its request asked |
| RunCauses.AnsweredExactly | internal/store/approvals.go:92-180 | an approval pending or not asked yet is approved, denied or cancelled after a history exactly if some operation of the history gave it that answer |
| RunCauses.RunEndedExactly | internal/store/leases.go:308-453 | a run ends exactly by its worker's completion, by cancelling it while it waits for an attempt, or by recovery of its expired lease once it was prepared, in the state and with the conclusion that each gives it |
| RunCauses.EndedExactly | internal/store/leases.go:308-453 | after a history a run has a final state and conclusion exactly if some operation of the history ended it so |
| RunCauses.AttemptFinishedExactly | internal/store/leases.go:332-441 | an unfinished attempt finishes exactly by the completion or retry that carries it or by recovery of its run, with the state, time and result that each gives it |
| RunCauses.ChangedRunStamped | internal/store/leases.go:58-453 | every change of a run carries the time of the operation and keeps what the run is for |
| RunCauses.RunKeepsIntent | internal/store/runs.go:15-43 | over every history a run keeps its key, event, parent, team, agent, workspace, harness, permission and creation time |
| RunCauses.IdentityIgnoresProgress | internal/store/runs.go:412-421 | two runs are the same run exactly when they differ at most in what a run goes through |
| RunCauses.PinnedRunKeepsDetail | internal/store/pruning.go:17-117 | while an ended run is pinned, no history prunes it or changes its attempts |
| RunCauses.PruningStripsLogs | internal/store/pruning.go:92-111 | pruning marks the run and takes the log entry, and nothing else, out of the result of each of its attempts |
| RunLifecycle.FreeIsClaimable | internal/store/leases.go:83-151 | a run may be claimed exactly if it is pending, its harness is allowed, and it shares with every run whose lease is live: in another workspace, or both reading only |
| RunLifecycle.ClaimTakesFirstFree | internal/store/leases.go:77-125 | a claim succeeds exactly when some run may be claimed, and takes the one created first, the first by id among those created at once |
| RunLifecycle.ClaimGivesLease | internal/store/leases.go:153-201 | a claim gives a new attempt and a lease in the run's workspace, readonly exactly if the run is, until now and the time to live |
| RunLifecycle.ClaimKeepsBackExactly | internal/store/leases.go:139-201 | after a claim another run may be claimed exactly if it could be before and either shares with the claimed one or that lease has expired |
| RunLifecycle.GuardedByOwner | internal/store/leases.go:455-467 | only the owner of a live lease takes a step that the lease guards |
| RunLifecycle.HolderSucceedsExactly | internal/store/leases.go:205-387 | before its lease expires the holder of a run succeeds with a step exactly when the state of the run allows it: prepare when leased, start when preparing, succeed only when running, fail unless only leased, be cancelled or interrupted at any time, ask when preparing or running and no identical grant exists, retry when running |
| RunLifecycle.DecisionSucceedsExactly | internal/store/approvals.go:92-126 | a decision succeeds exactly on a pending approval of a run that has not ended |
| RunLifecycle.ClaimedRunCompletes | internal/store/leases.go:58-387 | a worker that acts before its lease expires prepares, starts and completes successfully; the run ends in the state and with the conclusion it gives, and the lease is gone |
| RunLifecycle.HeartbeatsKeepLease | internal/store/leases.go:284-304 | heartbeats that each come before the expiry the last one set all succeed, and the lease reaches one time to live beyond the last |
| RunLifecycle.RecoveryOutcome | internal/store/leases.go:391-453 | a run whose lease expired becomes pending if it was only leased and interrupted otherwise; exactly the expired leases go, and all other runs stay |
| RunLifecycle.RecoveredRunIsFree | internal/store/leases.go:427-430 | a run that its dead worker had only leased may be claimed again at any later clock, exactly when its harness is allowed and it shares with the runs whose leases are live |
| RunLifecycle.AnswerIsReused | internal/store/approvals.go:40-126 | after a request was answered, an identical request of the run is granted without asking exactly if the answer was yes |
| RunLifecycle.RetryComesDueExactly | internal/store/retries.go:45-155 | a scheduled retry can be activated exactly from the time asked for, or from now if that has passed; its run is then pending without a conclusion and its timer completed |
| RunLifecycle.CancelledRunsTimers | internal/store/runs.go:264-316 | cancelling a waiting run cancels exactly its pending timers |
| RunLifecycle.CancelledRunStays | internal/store/runs.go:264-316 | over every later history the run stays cancelled, with its conclusion and without a pending timer |
| RunClock.StepExclusiveExactly | internal/store/leases.go:139-304 | at any clock, one operation keeps the live leases of a workspace at a time exclusive exactly unless it writes a lease that outlives that time while a conflicting lease is live then |
| RunClock.ExclusiveExactly | internal/store/leases.go:139-304 | over every history and for every clock, the exclusion holds at a time in all its states exactly when no claim or heartbeat clashes at that time |
| RunClock.ClaimClashesOnlyBefore | internal/store/leases.go:139-201 | a claim clashes only at times before its own clock, so only if that clock ran ahead |
| RunClock.HeartbeatClashesOnlyAfterExpiry | internal/store/leases.go:284-304 | a heartbeat clashes only when it is stamped before the expiry of its lease, at times from that expiry on, so only if its clock ran behind |
| RunClock.MonotoneIsClashFree | internal/store/leases.go:139-304 | with clocks that never run backwards nothing clashes from the last clock on |
| RunClock.ExclusiveThroughout | internal/store/leases.go:139-304 | with nondecreasing clocks the exclusion holds in every reachable state |
| RunClock.GuardedStepHasNoConflict | internal/store/leases.go:205-387 | after a history without clashes at its clock, every lease-guarded step that succeeds runs while its own lease is live and no conflicting lease is |
| RunClock.MonotoneGuardedStep | internal/store/leases.go:205-387 | in particular with clocks that never run backwards |
| RunClock.ExpiredLeaseNeverRevives | internal/store/leases.go:455-467 | with such clocks an expired lease stays as it is until it is recovered, and no step it guards ever succeeds again |
| RunClock.DecisionHarmless | internal/store/approvals.go:92-140 | the run a decision resumes either holds its workspace undisturbed, or, its lease having expired, can take no guarded step until it is recovered |
| RunWitnesses.LateHeartbeatBreaksExclusion | internal/store/leases.go:284-304 | from the empty store: a heartbeat stamped in the past makes two write leases of one workspace live at once |
| RunWitnesses.EarlyClaimBreaksExclusion | internal/store/leases.go:139-201 | from the empty store: after a claim stamped in the future another worker prepares its run while both write leases are live |
| RunWitnesses.DecisionIgnoresLease | internal/store/approvals.go:110-126 | from the empty store: a decision resumes a run whose lease expired while another writer holds the workspace |
| RunStore.Store.Rollback | internal/store/leases.go:66-69 | the tables are those saved when the transaction began |
| RunStore.Store.FindRunByKey | internal/store/runs.go:362-364 | finds a run exactly when one has the idempotency key |
| RunStore.Store.CreateRun | internal/store/runs.go:15-43 | stores a well-formed run of a new key and id once, as it was handed in with its texts trimmed; a duplicate key returns the stored run exactly when it is the same run, and conflicts otherwise |
| RunStore.Store.PendingRuns | internal/store/leases.go:77-82 | exactly the pending runs, by creation time and id |
| RunStore.Store.ContainsHarness | internal/store/leases.go:130-137 | membership in the allowed harnesses |
| RunStore.Store.WorkspaceLeaseAvailable | internal/store/leases.go:139-151 | counts to zero exactly when no live lease conflicts |
| RunStore.Store.NextAttemptNumber | internal/store/leases.go:167-172 | one more than the largest attempt number |
| RunStore.Store.ClaimRun | internal/store/leases.go:153-201 | leases a pending run and inserts its attempt and lease rows, or fails |
| RunStore.Store.ClaimNextForHarnesses | internal/store/leases.go:58-128 | makes exactly the claim step; found exactly when a run is claimable, and the claim names the oldest and its new attempt |
| RunStore.Store.PrepareClaim | internal/store/leases.go:205-235 | makes exactly the prepare step, and reports an error exactly when it changes nothing |
| RunStore.Store.VerifyLease | internal/store/leases.go:455-467 | the run's lease row has the claim's owner and is live |
| RunStore.Store.StartAttempt | internal/store/leases.go:238-281 | makes exactly the start step; a mismatched attempt takes the run update back |
| RunStore.Store.HeartbeatLease | internal/store/leases.go:284-304 | makes exactly the heartbeat step |
| RunStore.Store.CompleteClaim | internal/store/leases.go:308-387 | makes exactly the completion step; a run in the wrong state takes the attempt update back |
| RunStore.Store.RecoverExpiredLeases | internal/store/leases.go:391-453 | reconciling one by one in any order recovers exactly the expired runs and counts them; a run that was leased is pending again, any other interrupted, and runs whose leases live stay |
| RunStore.Store.RequestApproval | internal/store/approvals.go:16-87 | reuses an approved grant of the same run, kind and scope or makes exactly the pause step |
| RunStore.Store.FindApprovedScope | internal/store/approvals.go:205-213 | finds a grant exactly when one exists, and none decided later |
| RunStore.Store.DecideApproval | internal/store/approvals.go:92-140 | makes exactly the decision step: the row has the decision, time and reason given; a run that no longer waits takes the decision back |
| RunStore.Store.CancelApprovalById | internal/store/approvals.go:146-180 | cancels a pending approval only, fails only for an unknown id, leaves the run |
| RunStore.Store.CancelPendingRun | internal/store/runs.go:264-316 | cancels a run that is pending or waits for a retry, and its pending timers, and reports whether it did |
| RunStore.Store.ScheduleClaimRetry | internal/store/retries.go:29-95 | makes exactly the step that finishes the running attempt, releases the lease and leaves a timer; whatever does not fit takes everything back |
| RunStore.Store.ListDueRetries | internal/store/retries.go:113-133 | the earliest due timers by due time and id text, all of them when the page is not full |
| RunStore.Store.ActivateOne | internal/store/retries.go:135-155 | makes the run pending if it waits for the timer, and finishes or cancels the timer |
| RunStore.Store.ActivateDueRetries | internal/store/retries.go:97-160 | activates such a page timer by timer and counts the runs made pending |
| RunStore.Store.SetRunPinned | internal/store/pruning.go:17-30 | pins or unpins a stored run |
| RunStore.Store.PruneRunRows | internal/store/pruning.go:85-111 | strips the logs of an ended run that is not pinned, and fails without a change otherwise |
| RunRetries.ActivationIsHistory | internal/store/retries.go:135-155 | a page of activations is the history of its single steps |
| RunRetries.EveryDueRetryActivates | internal/store/retries.go:135-151 | no due timer is stale: each one of a page makes its run pending, and all other runs stay as they are |
| RunStore.FirstClaimableIsOldest | internal/store/leases.go:83-125 | the first claimable candidate in query order is the oldest claimable run |
| RunStore.NoneClaimable | internal/store/leases.go:83-125 | when no candidate is claimable, no run is |
| RunStore.RecoverOne | internal/store/leases.go:421-447 | reconciling one more run extends what was reconciled by that run, whatever the order |
| RunStore.RecoveredAll | internal/store/leases.go:391-453 | when all expired runs are reconciled the tables are those of the recovery step |
| PathClean.JoinPrefix | internal/approval/broker.go:80-84 | the text prefix test with a slash is the segment prefix test |
| PathClean.TextPrefixIsSegmentPrefix | internal/approval/broker.go:80-84 | equal, "." or a prefix ending in a slash, on cleaned relative paths, says that the segments are a prefix |
| PathClean.ParentSegmentShows | internal/approval/broker.go:37-41 | a cleaned relative path climbs out exactly when it is ".." or starts with "../" |
| PathClean.CleanIdempotent | internal/pack/pack.go:203-222 | cleaning twice is cleaning once and keeps a path relative |
| PathClean.JoinSplit | internal/approval/broker.go:37-37 | splitting takes a path apart at its slashes: joined again the parts give the path |
| PathClean.CleanLeadsToSamePlace | internal/approval/broker.go:37-37 | cleaning keeps what a path means: from every base the cleaned segments lead to the place that the path as written leads to, entering one segment after the other, or both lead nowhere |
| PathClean.StaysInsideExactly | internal/approval/broker.go:37-41 | a relative path leads somewhere from the root exactly when no parent segment is left after cleaning, and then the cleaned segments are the way down from every base |
| ApprovalCoverage.CoverageIsPrefix | internal/approval/broker.go:66-99 | between valid scopes coverage holds exactly when the request's directory leads to the place the grant's leads to or below it, or its command line begins with the grant's words |
| ApprovalCoverage.ValidReachStaysInside | internal/approval/broker.go:33-41 | a valid directory leads from every base to a place at or below that base |
| ApprovalCoverage.ValidDirectoryStaysBelow | internal/approval/broker.go:37-41 | a directory is accepted exactly if it is not empty, not absolute, and leads from every base to that base or below it |
| ApprovalCoverage.DirectoryCoverage | internal/approval/broker.go:78-80 | on accepted directories the three text tests hold exactly when the wanted place lies at or below the allowed one |
| ApprovalCoverage.ValidCommandIsBounded | internal/approval/broker.go:42-55 | a command is accepted exactly if it is a bare executable name with at least one subcommand word and no blank word, so no grant covers everything an executable can do |
| ApprovalCoverage.ForeignFieldRefused | internal/approval/broker.go:29-58 | only the two kinds are accepted, and their scopes only without fields of the other kind or unknown ones |
| ApprovalCoverage.ExactGrantCovers | internal/approval/broker.go:24-99 | an exact approved grant covers a valid request if and only if the kind has no surrounding blanks |
| ApprovalCoverage.CoverageTransitive | internal/approval/broker.go:66-99 | what covers a covering grant covers the request |
| ApprovalCoverage.BlankKindIsNeverCovered | internal/approval/broker.go:66-70 | a request whose kind has surrounding blanks is covered by no grant |
| ApprovalCoverage.BlankKindIsValid | internal/approval/broker.go:24-63 | such a request may be valid |
| ApprovalBroker.CoveredStays | internal/store/approvals.go:40-49 | a covering grant is never lost |
| ApprovalBroker.FindCovering | internal/approval/broker.go:113-121 | finds a covering grant of the run exactly when one is stored |
| ApprovalBroker.ApprovedAnswerCovers | internal/approval/broker.go:122-158 | an approved answer to the request's own question covers it |
| ApprovalBroker.Authorize | internal/approval/broker.go:109-176 | a yes to a request whose kind has no blanks means the run has an approved grant covering it, on all three ways to yes; a yes to what was not covered means an identical grant was found or somebody approved the question while the broker waited, a no that somebody denied or cancelled it; a covered request is never refused; an invalid one changes nothing |
| ApprovalBroker.AskAndWait | internal/approval/broker.go:134-176 | the same for the part after the search: yes only by reuse of an identical grant or by somebody's approval, no only by a denial or a cancellation |
| ApprovalBroker.InterferenceAnswers | internal/store/approvals.go:92-180 | what others do answers a pending approval only if one of their operations gives it that answer |
| ApprovalBroker.PollOnce | internal/approval/broker.go:151-174 | one poll answers exactly what the approval was found decided as, and answers nothing while it is pending; then the claim's lease has been extended by the heartbeat, or the wait ends; the question stays as asked |
| ApprovalBroker.AwaitDecision | internal/approval/broker.go:145-176 | yes means the approval asked for was approved, no that it was decided otherwise, each by somebody while it waited if it was pending before; what is decided at the first poll is the answer; a cancelled wait leaves it decided |
| McpClient.InvInitially | internal/mcpclient/client.go:57-65 | a new client satisfies the invariant |
| McpClient.StepKeepsInv | internal/mcpclient/client.go:67-165 | every locked section and channel operation keeps the invariant |
| McpClient.RegisterKeepsInv | internal/mcpclient/client.go:126-133 | a registered call owns a fresh untouched channel |
| McpClient.TakeKeepsInv | internal/mcpclient/client.go:101-110 | the channel taken for a message belongs to the call of that id and is no longer pending |
| McpClient.ReceiveKeepsInv | internal/mcpclient/client.go:142-158 | what a call receives carries its id |
| McpClient.ShutdownKeepsInv | internal/mcpclient/client.go:85-94 | closing all pending channels closes each once and none that the read loop is sending to |
| McpClient.ExecuteKeepsInv | internal/mcpclient/client.go:67-165 | the invariant holds in every interleaving |
| McpClient.NeverPanicsOrBlocks | internal/mcpclient/client.go:67-165 | in every interleaving no channel is sent to after being closed, closed twice or sent a second value, and the read loop never blocks on a send |
| McpClient.ResponseCarriesOwnId | internal/mcpclient/client.go:101-165 | a call that returns a response returns the one with its own id |
| McpClient.ClosedForGood | internal/mcpclient/client.go:126-133 | once closed, the pending map is and stays empty |
| McpClient.NothingPendingAfterClose | internal/mcpclient/client.go:338-352 | after Close, in every continuation, nothing is pending and a later call is refused |
| McpClient.WaitingCallsReleased | internal/mcpclient/client.go:338-352 | after Close every waiting call can return, at once or after the send in progress |
| McpClient.RegisteredCallIsPending | internal/mcpclient/client.go:126-133 | an open client registers a call on an empty channel of its own, a closed one returns that it is closed |
| McpClient.CallStaysPending | internal/mcpclient/client.go:101-165 | in every interleaving a registered call stays registered until a message of its id is taken, it gives up, or the client ends |
| McpClient.TakeExactly | internal/mcpclient/client.go:101-113 | a message for a pending call is taken for exactly that call: the entry is gone and the answer on its way; any other message changes nothing |
| McpClient.AnswerReachesCall | internal/mcpclient/client.go:101-158 | in every interleaving, once a message is taken for an open call, the call returns that message when it receives, at the latest after the send in progress, whatever the others and Close do |
| McpClient.GivingUpReturns | internal/mcpclient/client.go:135-163 | a call whose send fails or whose context ends returns that, and its entry goes |
| McpClient.EndOfInputReleases | internal/mcpclient/client.go:85-94 | the end of the input lets every waiting call return: its answer if it was sent, otherwise that the connection is closed and why |
| McpClient.Client.NumberCall | internal/mcpclient/client.go:120-120 | call ids are new |
| McpClient.Client.RegisterCall | internal/mcpclient/client.go:126-133 | registers exactly when the client is not closed |
| McpClient.Client.Abandon | internal/mcpclient/client.go:135-163 | removes the call's own entry only |
| McpClient.Client.Await | internal/mcpclient/client.go:142-158 | returns the message in the call's channel, which carries the caller's id, or the read error when the channel is closed empty |
| McpClient.Client.Dispatch | internal/mcpclient/client.go:101-110 | takes the pending channel of the message's id out of the map, which enables the send; drops notifications and unknown ids without a change |
| McpClient.Client.SendTaken | internal/mcpclient/client.go:111-113 | the send neither panics nor blocks |
| McpClient.Client.CloseChannels | internal/mcpclient/client.go:90-93 | closes and forgets every pending channel, in any order |
| McpClient.Client.FinishReading | internal/mcpclient/client.go:85-94 | records the read error and releases all pending calls |
| McpClient.Client.CloseClient | internal/mcpclient/client.go:338-352 | closes once; a second call changes nothing |
| Scheduler.ScheduleOccurrences | internal/scheduler/scheduler.go:138-168 | the loop and branches compute the batch the grid theorems are about |
| Scheduler.AppendOccurrences | internal/scheduler/scheduler.go:148-152 | appends exactly the first count grid points |
| Scheduler.StepsBracketNow | internal/scheduler/scheduler.go:142-142 | now lies between the last passed grid point and the next |
| Scheduler.BatchIsOnGrid | internal/scheduler/scheduler.go:138-168 | for every policy occurrences are grid points in [due, now] before next; next is a grid point, after due once due has passed, and after now exactly when the cap did not cut the batch |
| Scheduler.AllLeavesNoGap | internal/scheduler/scheduler.go:143-153 | under "all" the batch is every grid point from due up to next |
| Scheduler.LatestIsLastPoint | internal/scheduler/scheduler.go:164-166 | under "latest" a due timer emits exactly the last grid point that is not after now, and is next due one interval later |
| Scheduler.SkipWithinTolerance | internal/scheduler/scheduler.go:154-163 | under "skip" it emits its due time exactly if it is late by at most a tenth of the interval and at most a minute, and is next due at the first grid point after now |
| Scheduler.AllIsEveryPoint | internal/scheduler/scheduler.go:143-153 | under "all" it emits the grid points from its due time in order, all that are not after now or the first hundred, and is next due at the point after them |
| Scheduler.DrainReachesNow | internal/scheduler/scheduler.go:143-153 | repeated capped batches reach now in ceil((steps+1)/100) calls and emit every grid point in [due, now] once, in order |
| ScheduleRuntime.Runtime.DueScheduleTimers | internal/store/subscriptions.go:83-107 | the earliest due pending timers by due time and id, at most 100 |
| ScheduleRuntime.Runtime.Ingest | internal/scheduler/scheduler.go:123-130 | an occurrence is stored once per millisecond key |
| ScheduleRuntime.Runtime.AdvanceScheduleTimer | internal/store/subscriptions.go:108-118 | moves a timer only if it still has the expected due time |
| ScheduleRuntime.Runtime.FireTimer | internal/scheduler/scheduler.go:119-133 | the timer moves only after all its occurrences are stored, wherever the process dies |
| ScheduleRuntime.Runtime.ProcessDue | internal/scheduler/scheduler.go:98-136 | every run, crashed or not, is a process step; a run that completes has left for every listed enabled timer the events and the next due time that its policy calls for, and met no unusable interval; without one it completes if it lives for the writes; it lists due timers only, and all of them if they are fewer than 100 |
| ScheduleRuntime.AdvancedDelivers | internal/scheduler/scheduler.go:119-133 | a fired timer has delivered: under "latest" the event of the last point not after now, under "skip" that of the due time within the tolerance, under "all" those of every point up to now or a hundred |
| ScheduleRuntime.AdvanceKeepsStanding | internal/scheduler/scheduler.go:119-133 | an advanced timer stands on a later grid point and under "all" every earlier point has its event |
| ScheduleRuntime.ProcessKeepsInv | internal/scheduler/scheduler.go:98-136 | one run keeps the schedule invariant |
| ScheduleRuntime.NewEventIsPoint | internal/scheduler/scheduler.go:123-130 | a new event's time is a grid point of its schedule |
| ScheduleRuntime.RunsKeepInv | internal/scheduler/scheduler.go:98-136 | any sequence of runs keeps the schedule invariant |
| ScheduleRuntime.FreshScheduleInv | internal/store/subscriptions.go:60-72 | when no timer has fired yet, each stands at the start of its schedule and the schedule invariant holds |
| ScheduleRuntime.NoOccurrenceLostOrRepeated | internal/scheduler/scheduler.go:123-133 | from a store whose timers have not fired, over any sequence of runs with crashes anywhere, each grid point has at most one event, every event is a grid point, and under "all" no point before the stored due time is missing |
| ScheduleRuntime.EventIdsDistinct | internal/scheduler/scheduler.go:124-127 | event ids of grid points differ exactly when the interval is at least one millisecond |
| ScheduleRuntime.GridNeedsWholeMillis | internal/store/subscriptions.go:108-118 | the stored due time stays on the grid for every clock and policy exactly when the interval is a whole number of milliseconds |
| Graphs.WalkDescends | internal/resolver/resolve.go:205-229 | every walk from a finished node that takes no skipped edge stays among nodes finished earlier |
| Graphs.NoCycleThroughFinished | internal/resolver/resolve.go:205-229 | no cycle without a skipped edge starts at a finished node |
| Graphs.EveryCycleSkipped | internal/artifact/deps.go:109-137 | when every node is finished, with some edges skipped on the way, every cycle takes a skipped edge |
| Graphs.AllFinishedMeansAcyclic | internal/resolver/resolve.go:205-233 | a search that finished every node leaves no cycle |
| Graphs.ClosedPathIsCycle | internal/resolver/resolve.go:206-215 | the end of the search path closed by the node reached again is a cycle |
| AgentGraph.Search.CycleTo | internal/resolver/resolve.go:206-215 | the reported path is a closed path of delegations |
| AgentGraph.Search.Visit | internal/resolver/resolve.go:204-227 | visiting either finishes everything below an agent or returns a cycle, and terminates because the unvisited set shrinks |
| AgentGraph.CollectOffences | internal/resolver/resolve.go:186-199 | exactly the delegations that leave the team |
| AgentGraph.SearchTeam | internal/resolver/resolve.go:200-234 | no cycle is returned exactly when delegation is acyclic |
| AgentGraph.ValidateAgentGraph | internal/resolver/resolve.go:186-234 | accepts exactly the teams whose delegates are members and whose delegation is acyclic; a reported cycle is real |
| Requires.IndexIsExact | internal/artifact/deps.go:81-84 | every artifact's reference is indexed; for distinct references by that artifact |
| Requires.BuildIndex | internal/artifact/deps.go:81-84 | the index loop keeps the last artifact of each reference |
| Requires.FindDangling | internal/artifact/deps.go:86-101 | one message for exactly the unresolved non-self references |
| Requires.Checker.Report | internal/artifact/deps.go:113-128 | adds one message whose chain is a cycle filed under the artifact that closes it |
| Requires.Checker.Follow | internal/artifact/deps.go:109-133 | following a requirement finishes it or leaves a message |
| Requires.Checker.Visit | internal/artifact/deps.go:105-137 | the recursive search finishes the artifact, its requirements finished before it or reported as closing a chain, and keeps the path, the state map and all earlier messages |
| Requires.FindCycles | internal/artifact/deps.go:103-144 | for distinct references nothing is reported exactly when the requirements are acyclic, every chain is a cycle, and every cycle takes the closing edge of a reported chain |
| Requires.MessagesTogether | internal/artifact/deps.go:80-144 | joining both message lists adds or hides none |
| Requires.CheckRequires | internal/artifact/deps.go:80-144 | dangling messages are exactly the unresolved non-self references; for distinct references a cycle message appears exactly when the requirements have a cycle, every chain is one, and every cycle takes the closing edge of a reported chain |
| Normalization.RedactedHoldsNothingSensitive | internal/router/router.go:170-209 | after redaction no field with a sensitive name holds a value of its own, at any depth |
| Normalization.RedactChangesExactly | internal/router/router.go:170-209 | redaction leaves a value as it is exactly when it holds nothing sensitive, so redacting twice is redacting once |
| Normalization.RedactKeepsOtherPaths | internal/router/router.go:179-200 | what a path without sensitive names leads to is there after redaction exactly if it was before, redacted itself, so routes match on it as before |
| Normalization.SensitiveExactly | internal/router/router.go:202-209 | a field is sensitive exactly when its lower-case name has one of the ten words in it |
| Normalization.NormalizedEvent | internal/router/router.go:125-168 | an acceptable envelope becomes a well-formed ingested event with its trimmed source, id and type, its time or else the time of receipt, and its data redacted, the raw data too |
| Router.MatchesAreCandidates | internal/router/router.go:211-222 | the match list stands one for one for the enabled matching routes |
| Router.MatchesExactly | internal/router/router.go:243-261 | an event matches a route exactly if source and type agree where the route names them and each field path of the route leads down through the event's data to the value the route gives |
| Router.LookupExactly | internal/router/router.go:262-275 | a value is looked up exactly when going down the objects by the names of the path leads to it |
| Router.SplitDotsExactly | internal/router/router.go:264-264 | a field path is taken apart at its dots and nowhere else |
| Router.CandidateExactly | internal/router/router.go:211-222 | a matching route counts exactly if its stored switch is on, or it is enabled and no switch is stored |
| Router.DecisionListsMatches | internal/router/router.go:211-241 | the decision lists all matches, each as often as it matched, by priority and then by name |
| Router.Evaluate | internal/router/router.go:211-241 | the loop computes the decision the selection theorems are about |
| Router.SelectsExactlySoleHighest | internal/router/router.go:223-241 | a route is selected exactly when one enabled matching route has strictly higher priority than all others, and it is that route; no match is reported exactly when there is none |
| Router.MatchingPermutation | internal/router/router.go:211-222 | permuted routes give the same matches |
| Router.DecisionIgnoresRouteOrder | internal/router/router.go:211-241 | the whole decision, its sorted match list included, is unchanged by any permutation of the routes |
| EventStore.StepKeepsInv | internal/store/events.go:15-182 | source and external id stay unique and a run is recorded exactly for routed events |
| EventStore.ReplayKeepsInv | internal/store/events.go:15-182 | the same over every history |
| EventStore.RoutedEventStaysRouted | internal/store/events.go:59-182 | over every history a routed event keeps its status, reason, run and everything but its data |
| EventStore.DecisionChangedBy | internal/store/events.go:59-182 | an event becomes routed, unrouted or ingested again exactly by the operation that makes it so, with the run and reason that operation gives; every other operation leaves the decision alone |
| EventStore.DataChangeOnlyByPruning | internal/store/pruning.go:104-108 | an event's source, id, kind and times never change; its data change exactly when it is pruned, and then to the pruned mark |
| EventStore.CreatedAtMostOnce | internal/store/events.go:15-56 | over every history an event of one source and external id is created at most once, never once known |
| EventStore.Table.FindByKey | internal/store/events.go:98-105 | finds a row exactly when the key is known |
| EventStore.Table.IngestEvent | internal/store/events.go:15-56 | stores a new well-formed event once, as it was handed in with texts trimmed and times in whole milliseconds; a duplicate returns the stored record; nothing else is refused but a taken record id |
| EventStore.Table.MarkEventUnrouted | internal/store/events.go:59-96 | makes exactly the unrouted step, never on a routed event |
| EventStore.Table.ReopenEvent | internal/store/events.go:166-182 | makes exactly the reopen step, on unrouted events only |
| EventStore.Table.AttachRun | internal/store/runs.go:183-187 | the event part of routing |
| EventStore.Table.PruneEvent | internal/store/pruning.go:104-108 | the event part of pruning |
| EventStore.Table.ListEventsByStatus | internal/store/events.go:141-162 | the earliest events of a status, all of them when fewer than the limit |
| Database.DbStepKeepsInv | internal/store/runs.go:138-195 | every transaction, routing and pruning across both sides included, keeps the run invariant, the event invariant, and that routed events and their runs name each other |
| Database.DbReplayKeepsInv | internal/store/runs.go:138-195 | the same over every history |
| Database.ReachableDatabase | internal/store/runs.go:138-195 | every database reached from the empty one satisfies the joint invariant, and an event has at most one run if runs come from their events |
| Database.RoutingKeepsInvExactly | internal/store/runs.go:138-195 | routing to a new run of any state keeps the joint invariant exactly when the run was known already or is pending or ended |
| Database.RouteEffect | internal/store/runs.go:138-195 | routing leaves the event routed to a stored run of that key and identity, caused by the event, and adds no other run |
| Database.AttachedExactly | internal/store/runs.go:15-195 | every run that names an event stays the run the event is routed to, exactly unless a run naming an event is created without routing it |
| Database.OneRunPerEvent | internal/store/runs.go:149-187 | an event causes at most one run |
| Database.DataChangedByPruning | internal/store/pruning.go:76-117 | only the pruning of an ended run that names the event changes an event's data |
| Database.EventKeepsDataUntilRunEnds | internal/store/pruning.go:76-117 | over every history in which runs come from their events, an event keeps its data as long as the run it causes has not ended |
| Database.PruningReachesNamedEvent | internal/store/pruning.go:104-108 | otherwise pruning any ended run that names an event prunes it, whatever run the event is routed to |
| Database.Db.RouteEvent | internal/store/runs.go:47-82 | makes exactly the routing step, whatever state the run is created in; success means the event is routed to the returned run, which is stored, as handed in if it is new and the same run otherwise; a conflict means another run has the key or the event, a violation that the id is taken or the parent missing; repeating the routing changes nothing |
| Database.Db.InsertOrFind | internal/store/runs.go:160-182 | inserts the run, whatever its state, or finds the stored one of that key if it is the same run |
| Database.Db.PruneRunDetail | internal/store/pruning.go:76-117 | prunes run and event together or leaves both alone |
| EventService.Service.RouteTo | internal/router/router.go:428-451 | routes the event to the chosen route and a stored run of its own with the team, agent, workspace, harness and permission given, newly queued unless it was stored, or changes nothing; it fails only if the route is unknown, its run cannot be prepared, or the database refuses that run |
| EventService.Service.Dispatch | internal/router/router.go:406-452 | success leaves exactly this event handled as its routes or the forced route call for, with at most one pending run added; failure changes nothing and has such a cause |
| EventService.HandledBySoleHighest | internal/router/router.go:406-452 | what routes call for: an ingested event that is handled is routed to the enabled matching route whose priority is above all others, and is unrouted when there is none |
| EventService.Service.RouteNow | internal/router/router.go:360-369 | routes an event that is not routed to the named route, or changes nothing and has a cause for it |
| EventService.Service.DispatchStored | internal/router/router.go:304-313 | success leaves the stored event decided as its routes call for; failure leaves it ingested; no other event changes and no run but its own is added |
| EventService.Service.IngestAndDispatch | internal/router/router.go:349-358 | the event is stored once and an error changes nothing; after that only this event is decided, as its routes call for, and all other events stay as they are |
| EventService.Service.Receive | internal/router/router.go:344-358 | an envelope that is refused changes nothing; any other is normalised, ingested and dispatched as above, and a new event holds no sensitive value |
| EventService.Service.DispatchPage | internal/router/router.go:325-332 | failures are exactly the events of the page still ingested, and each could not be handled in some state recovery reached |
| EventService.Service.RoundLowersIngested | internal/router/router.go:333-341 | a continuing round strictly lowers the number of ingested events |
| EventService.Service.RecoverIngested | internal/router/router.go:315-342 | terminates, changes ingested events only and each as its routes call for, adds one pending run for each event it routes and no other, reports only failures that have a cause, and no failure means no event is left ingested |
| PackClosure.ClosureDetermined | internal/pack/pack.go:105-194 | the closure's path map does not depend on the order in which the memory and source maps are iterated |
| PackClosure.ListingDetermined | internal/pack/pack.go:188-193 | however the path map is iterated, the closure's entries come in one order |
| PackClosure.ListingPathsDiffer | internal/pack/pack.go:188-193 | a listing has one entry for each path |
| PackClosure.ClosurePaths | internal/pack/pack.go:105-222 | every path of a closure stays inside the pack; one is named pack.json exactly when a memory reference cleans to that name |
| PackClosure.ClosureExactly | internal/pack/pack.go:105-194 | a closure holds under each path exactly the project file, the walked files of components, routes and sources with their bytes and modes, and memory files in place of component files of the same path |
| PackClosure.ReadableExactly | internal/pack/pack.go:203-222 | a memory reference is readable exactly when it leads from the project to a regular file below it |
| PackClosure.MemoryFileInClosure | internal/pack/pack.go:148-186 | a memory file is in the closure as it is in the project; it replaces what came before it and nothing replaces it |
| PackClosure.OneMoreSource | internal/pack/pack.go:179-186 | the order-dependent check of one more source decides the order-free condition on all of them |
| PackClosure.Builder.AddDir | internal/pack/pack.go:118-127 | succeeds exactly when all walked files are regular and their paths are new, and adds exactly them |
| PackClosure.Builder.AddDirs | internal/pack/pack.go:128-147 | succeeds exactly when the directories can be added one after the other |
| PackClosure.Builder.AddSingleFile | internal/pack/pack.go:203-222 | accepts exactly regular files inside the project and replaces an entry with the same path |
| PackClosure.Builder.AddMemory | internal/pack/pack.go:148-161 | taking the references in any order succeeds exactly when all are readable |
| PackClosure.Builder.AddSources | internal/pack/pack.go:179-186 | taking the sources in any order succeeds exactly when all load and no path occurs twice |
| PackClosure.Builder.Collect | internal/pack/pack.go:188-193 | every entry once, in path order |
| PackClosure.Builder.Closure | internal/pack/pack.go:105-194 | succeeds exactly when the steps can all be taken and lists exactly the files they give |
| ClosureSuccess.ClosureExistsExactly | internal/pack/pack.go:105-222 | a project has a closure exactly when its memory references are readable, its routes are valid and its sources load, every walked file is regular, and no path occurs twice, except that a memory file may stand for a component's |
| ClosureSuccess.AllAddedExists | internal/pack/pack.go:118-147 | directories can be added one after the other exactly when all their files are regular and have paths of their own |
| PackArchive.PackMode | internal/pack/pack.go:305-310 | a packed file is executable exactly when any execute bit was set |
| PackArchive.Create | internal/pack/pack.go:75-90 | the manifest declares exactly the closure's entries with path, digest, size and mode; the archive is those and the manifest in path order |
| PackArchive.Unzip | internal/targets/filecopy/extract.go:28-88 | extracts exactly the archives within the limits, with every path inside, files at no path that is or lies above another file or a folder; links are passed over, and the last file of a path wins |
| PackArchive.OneMoreMember | internal/targets/filecopy/extract.go:43-66 | the checks of one more member, given the files, folders and bytes so far, decide whether the members up to it can be taken |
| PackArchive.ExtractedExactly | internal/targets/filecopy/extract.go:43-66 | extraction writes exactly the file members, neither folders nor links |
| PackArchive.LastExtracted | internal/targets/filecopy/extract.go:69-88 | of files with one path the last is what stays |
| PackArchive.JoinsExactly | internal/targets/filecopy/extract.go:181-191 | a member's path is accepted exactly if it is relative and leads from the destination to it or below, and a file is written only below it |
| PackArchive.InTheWayExactly | internal/targets/filecopy/extract.go:69-88 | two files exclude each other exactly when one would stand above the other, a file and a folder exactly when the file would stand at the folder or above it |
| PackArchive.FitsNext | internal/targets/filecopy/extract.go:42-66 | the checks of one more entry decide whether the longer archive can be extracted |
| PackArchive.WrittenUnzippable | internal/pack/pack.go:269-283 | an archive as it is written, of files only, can be extracted exactly when its files fit |
| PackArchive.Expected | internal/pack/pack.go:383-389 | accepts exactly lists of valid, distinct names and names what is wrong otherwise |
| PackArchive.Walk | internal/pack/pack.go:390-427 | passes exactly when every file is regular, listed and intact, and has then seen all but the manifest |
| PackArchive.CountShowsMissing | internal/pack/pack.go:431-433 | as many seen as expected means each expected file was seen |
| PackArchive.MatchesByCount | internal/pack/pack.go:383-433 | the loop checks and the count together hold exactly when the tree holds the declared files and the manifest |
| PackArchive.Verify | internal/pack/pack.go:365-435 | accepts exactly the trees that hold the declared files with matching digests and sizes, the manifest and nothing else; each refusal names something wrong |
| PackArchive.AcceptedPacksAgree | internal/pack/pack.go:365-435 | tampering shows: accepted packs declaring the same content digest hold the same files besides the manifest, as far as hashes tell contents apart |
| PackArchive.Install | internal/pack/pack.go:336-362 | installs exactly what can be extracted and verifies, into an absent destination |
| PackInstall.ExtractAt | internal/targets/filecopy/extract.go:43-88 | where only one entry has a path, extraction finds its content whatever the entry order |
| PackInstall.DeclaredFilesValid | internal/pack/pack.go:75-79 | the manifest of a closure has valid names exactly when no entry is named pack.json |
| PackInstall.OwnManifestDescribes | internal/pack/pack.go:75-89 | the manifest describes the rest of the closure exactly if no entry is named pack.json |
| PackInstall.ManifestOrFile | internal/pack/pack.go:89-90 | what is extracted as pack.json is the manifest or the closure's file of that name |
| PackInstall.OwnPackAccepted | internal/pack/pack.go:365-435 | whichever of two entries named pack.json comes last, the extracted archive is accepted exactly when its text is a manifest of the rest of the closure |
| PackInstall.PackedProjectAccepted | internal/pack/pack.go:64-103 | a packed project is accepted after extraction if and only if no memory reference cleans to pack.json, or the file it names wins its place and is a manifest of all other files |
| PackInstall.MemoryFileRefused | internal/pack/pack.go:148-161 | a memory file named pack.json whose text is no manifest of the other files makes every archive of the project refused |
| PackInstall.SizeOfPermutation | internal/targets/filecopy/extract.go:58-61 | the bytes of an archive do not depend on the order of its entries |
| PackInstall.ExtractableExactly | internal/targets/filecopy/extract.go:38-66 | an archive as it was made can be extracted exactly when the closure has fewer than 5000 entries, they and the manifest have at most 64 MiB, and no path is both a file and a directory |
| PackInstall.PackedProjectInstalls | internal/pack/pack.go:336-362 | a packed project can be installed if and only if it is within these limits and accepted as above |
| PackInstall.BigProjectRefused | internal/pack/pack.go:64-103 | a project of one agent and a team whose directory holds 5000 short-named files beside team.yaml has a closure, and none of its archives can be installed |
| PackInstall.PackDetermined | internal/pack/pack.go:64-103 | two packings of one project give the same manifest and archive, whatever the map iteration orders |

## Left out

- Nothing was executed. Dafny's verifier checks the model; that the model follows the
  Go source rests on reading it.
- SQL text, the driver, contexts, mutexes, commit failures and the runtime_events
  journal: an operation is one atomic method that commits or rolls back.
- `TransitionRun`, which only tests call; `IngestAndRoute`, which is ingesting and
  routing in one transaction; the list of runs to prune and the log files; the columns
  of an event that no modelled operation reads (subject, work item, replay link) and
  the times of timer rows.
- RunHistory.PreparedRunNeverRequeued: for histories without a retry of the run,
  because a retry does requeue it; `RunHistory.RequeuedOncePerRetry` covers all.
- Integers are unbounded: 64-bit overflow of call ids, times and durations (a
  schedule about 292 years behind) is not modelled. A zero time is not replaced by
  the current time; callers pass times.
- The attempt id text is modelled as its pair of run id and number, and the router's
  hashed run id as a text of its parts.
- JSON text and compaction: an approval scope is its text, its known fields, whose
  names match in any letter case, and whether there are others; event data is a value;
  manifests go through abstract encode and decode.
- RunClock.ExclusiveThroughout: assumes nondecreasing clocks, because the code takes
  expiry from each caller's clock; `RunClock.ExclusiveExactly` does without.
- RunClock.MonotoneGuardedStep: same assumption, for the same reason.
- Liveness of MCP calls: that the goroutines go on is not stated, only that the steps
  which release or answer a call are enabled; a call made after the read loop ended is
  released only by its context or by Close. The read error a released call reports is
  read in the same step as the receive. The transport, message decoding and
  notifications are not modelled.
- ScheduleRuntime.NoOccurrenceLostOrRepeated: for whole-millisecond intervals and
  fixed schedule definitions; `Sync`, timer payloads and the wake-up loop are left
  out, and a timer is keyed by its source name.
- EventService.Service.IngestAndDispatch: starts from the event as normalised;
  `EventService.Service.Receive` does the rest.
- Normalization.RedactedHoldsNothingSensitive: lower-casing is any function, and the
  loss of number precision in re-encoded JSON is not modelled.
- RunHistory.ReplayKeepsInv: histories create runs pending or ended, as the program
  does; `RunInvariant.CreationKeepsInv` and `Database.RoutingKeepsInvExactly` say what
  any other state does.
- Replay and re-evaluation of single events; definition issues passed through a
  decision; synchronising subscriptions while evaluating.
- RunStore.Store.CreateRun: an unknown permission text and a missing creation time
  cannot be written in the model.
- EventService.Service.RecoverIngested: no event is inserted by others meanwhile; a
  failing list query is left out.
- Requires.CheckRequires: the cycle claims are for artifacts with distinct
  references, since a later artifact hides an earlier one of the same reference; the
  did-you-mean hint is left out.
- `ResolveTeam` around the delegation check: loading, skills, tools and variants.
- PackInstall.PackedProjectAccepted: the codec is assumed to decode this manifest as
  it was encoded (paths are valid UTF-8).
- PackInstall.PackedProjectInstalls: same assumption; the destination is absent.
- Walking directories, skipped directory names, file modes after extraction, the
  rename into place, and an entry path that leaves the staging directory and names it
  again.
- Library sorts are stable insertion sorts here; where ties could show, the results
  are stated for any sorted order or the order is total.
- Importers, exporters, connectors, the inspector, the CLI, YAML loading, linting
  and scaffolding: I/O or easy checks.
