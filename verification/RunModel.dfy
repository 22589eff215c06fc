/** Rows of the runs, run_attempts, run_leases, approvals and retry timer tables, and
    what one committed store operation does to them.

    Every operation is one serialized transaction, so it is described by a guard
    on the tables it finds (`Succeeds`) and the tables it leaves (`After`). When
    the guard fails the transaction rolls back and the tables stay as they were. */
module RunModel {
  import opened Wrappers
  import opened Times
  import opened Ordering
  import opened Strings

  datatype RunState =
    | RunPending | RunLeased | RunPreparing | RunRunning | RunWaitingForApproval | RunRetryScheduled
    | RunSucceeded | RunFailed | RunCancelled | RunInterrupted

  datatype Permission =
    PermissionReadonly | PermissionReadwrite | PermissionCollaborate | PermissionAutonomous

  datatype LeaseMode = LeaseReadonly | LeaseWrite

  datatype ApprovalState =
    ApprovalPending | ApprovalApproved | ApprovalDenied | ApprovalCancelled | ApprovalExpired

  /** Stands for the text id "<run>:attempt:<number>"; the number has no colon, so
      the text determines both parts. */
  datatype AttemptId = AttemptId(runId: string, number: int)

  /** JSON text handed in by a caller. */
  datatype Payload = Absent | Text(json: string) | Malformed

  /** A stored result: the text a worker handed in, or such a text with its log entry
      replaced by the mark that the log was pruned. */
  datatype ResultText = Whole(json: string) | WithoutLog(json: string)

  /** An approval scope: its compacted text, and what decoding it gives. A field is
      recognised whatever the letter case of its name; `unknown` says that the text
      is no object of such fields alone. */
  datatype Scope =
    | InvalidScope
    | Scope(text: string, directory: Option<string>, executable: Option<string>,
            subcommand: Option<seq<string>>, unknown: bool)

  /** `key` is the idempotency key, `event` the event that caused the run. */
  datatype Run = Run(
    key: string, event: Option<string>, parent: string, team: string, agent: string,
    workspace: string, harness: string, permission: Permission, createdAt: int,
    state: RunState, conclusion: Option<string>, updatedAt: int, pinned: bool, prunedAt: Option<int>)

  datatype Attempt = Attempt(
    worker: string, state: RunState, processId: Option<int>,
    startedAt: Option<int>, finishedAt: Option<int>, result: Option<ResultText>)

  datatype Lease = Lease(
    workspace: string, mode: LeaseMode, owner: string,
    acquiredAt: int, heartbeatAt: int, expiresAt: int)

  datatype Approval = Approval(
    runId: string, attempt: AttemptId, kind: string, scope: Scope, summary: string,
    state: ApprovalState, resumeState: RunState, requestedAt: int,
    decidedAt: Option<int>, reason: Option<string>)

  datatype TimerState = TimerPending | TimerCompleted | TimerCancelled

  /** A run-retry timer. Its id "retry:<run>:<attempt>" determines both parts, so the
      attempt that is retried stands for it. */
  datatype Retry = Retry(due: int, state: TimerState)

  datatype Tables = Tables(
    runs: map<string, Run>,
    attempts: map<AttemptId, Attempt>,
    leases: map<string, Lease>,
    approvals: map<string, Approval>,
    retries: map<AttemptId, Retry>)

  const EMPTY_TABLES := Tables(map[], map[], map[], map[], map[])

  /** What a worker carries from a claim into later calls. A stale or forged claim
      is any value of this type. */
  datatype Claim = Claim(runId: string, attempt: AttemptId, owner: string)

  datatype Op =
    | Enqueue(newRun: string, row: FreshRow)
    | ClaimNext(worker: string, harnesses: Option<seq<string>>, now: Instant, ttl: Duration)
    | Prepare(claim: Claim, now: Instant)
    | Start(claim: Claim, processId: int, now: Instant)
    | Heartbeat(claim: Claim, now: Instant, ttl: Duration)
    | Complete(claim: Claim, state: RunState, conclusion: string, result: Payload, now: Instant)
    | Recover(now: Instant)
    | Request(claim: Claim, approvalId: string, kind: string, scope: Scope, summary: string, now: Instant)
    | Decide(approvalId: string, decision: ApprovalState, reason: string, now: Instant)
    | CancelApproval(approvalId: string, reason: string, now: Instant)
    | CancelPending(runId: string, now: Instant)
    | ScheduleRetry(claim: Claim, dueAt: Option<Instant>, why: string, result: Payload, now: Instant)
    | ActivateRetry(timer: AttemptId, now: Instant)
    | Pin(runId: string, pinned: bool, now: Instant)
    | Prune(runId: string, now: Instant)

  /** States a run may be created in without owning rows it does not have. */
  predicate FreshState(s: RunState) {
    s == RunPending || IsTerminal(s)
  }

  type FreshRow = row: Run | FreshState(row.state)
    witness Run("k", None, "", "", "a", "w", "h", PermissionReadonly, 0, RunPending, None, 0, false, None)

  predicate IsTerminal(s: RunState) {
    s == RunSucceeded || s == RunFailed || s == RunCancelled || s == RunInterrupted
  }

  /** States in which a run owns a lease row. */
  predicate HoldsLease(s: RunState) {
    s == RunLeased || s == RunPreparing || s == RunRunning || s == RunWaitingForApproval
  }

  /** States of an attempt that has not finished. */
  predicate IsActive(s: RunState) {
    s == RunPreparing || s == RunRunning
  }

  function LeaseModeFor(permission: Permission): LeaseMode {
    if permission == PermissionReadonly then LeaseReadonly else LeaseWrite
  }

  // ---- Creating runs --------------------------------------------------------

  /** normalizeRun accepts the row. */
  predicate RunWellFormed(id: string, row: Run) {
    && TrimSpace(id) != "" && TrimSpace(row.key) != "" && TrimSpace(row.agent) != ""
    && TrimSpace(row.workspace) != "" && TrimSpace(row.harness) != ""
  }

  function NormalRow(row: Run): Run {
    row.(key := TrimSpace(row.key), agent := TrimSpace(row.agent), workspace := TrimSpace(row.workspace),
         harness := TrimSpace(row.harness), prunedAt := None)
  }

  /** sameRunIdentity. */
  predicate SameIdentity(a: Run, b: Run) {
    && a.key == b.key && a.event == b.event && a.parent == b.parent && a.team == b.team && a.agent == b.agent
    && a.workspace == b.workspace && a.harness == b.harness && a.permission == b.permission
  }

  predicate HasRunKey(t: Tables, r: string, key: string) {
    r in t.runs && t.runs[r].key == key
  }

  ghost predicate KeyTaken(t: Tables, key: string) {
    exists r :: HasRunKey(t, r, key)
  }

  /** The row can be inserted: it is well formed, its key and id are new, and its
      parent is a stored run or itself. */
  ghost predicate Insertable(t: Tables, id: string, row: Run) {
    && RunWellFormed(id, row)
    && !KeyTaken(t, TrimSpace(row.key)) && TrimSpace(id) !in t.runs
    && (row.parent == "" || row.parent == TrimSpace(id) || row.parent in t.runs)
  }

  function AfterInsert(t: Tables, id: string, row: Run): Tables {
    t.(runs := t.runs[TrimSpace(id) := NormalRow(row)])
  }

  // ---- Leases ---------------------------------------------------------------

  /** The lease row is unexpired at row time `at`. */
  predicate LiveAt(lease: Lease, at: int) {
    lease.expiresAt > at
  }

  /** verifyLease: the run's lease row belongs to the claim's owner and is live. The
      attempt named by the claim plays no part. */
  predicate LeaseVerified(t: Tables, claim: Claim, now: Instant) {
    && claim.runId in t.leases
    && t.leases[claim.runId].owner == claim.owner
    && LiveAt(t.leases[claim.runId], Millis(now))
  }

  /** Two leases may be live together only in different workspaces or both readonly. */
  predicate Compatible(a: Lease, workspace: string, mode: LeaseMode) {
    a.workspace != workspace || (mode == LeaseReadonly && a.mode == LeaseReadonly)
  }

  ghost predicate WorkspaceAvailable(t: Tables, workspace: string, mode: LeaseMode, now: Instant) {
    forall r :: r in t.leases && LiveAt(t.leases[r], Millis(now)) ==>
      Compatible(t.leases[r], workspace, mode)
  }

  // ---- Claiming -------------------------------------------------------------

  /** ORDER BY created_at, id. */
  predicate NoYounger(t: Tables, a: string, b: string) {
    && a in t.runs && b in t.runs
    && (|| t.runs[a].createdAt < t.runs[b].createdAt
        || (t.runs[a].createdAt == t.runs[b].createdAt && StringLeq(a, b)))
  }

  predicate HarnessAllowed(harnesses: Option<seq<string>>, harness: string) {
    harnesses == None || harness in harnesses.value
  }

  ghost predicate Claimable(t: Tables, r: string, harnesses: Option<seq<string>>, now: Instant) {
    && r in t.runs
    && t.runs[r].state == RunPending
    && HarnessAllowed(harnesses, t.runs[r].harness)
    && WorkspaceAvailable(t, t.runs[r].workspace, LeaseModeFor(t.runs[r].permission), now)
  }

  ghost predicate SomeClaimable(t: Tables, harnesses: Option<seq<string>>, now: Instant) {
    exists r :: Claimable(t, r, harnesses, now)
  }

  /** `r` is the oldest claimable run, ties broken by id. */
  ghost predicate IsOldestClaimable(t: Tables, r: string, harnesses: Option<seq<string>>, now: Instant) {
    && Claimable(t, r, harnesses, now)
    && forall other :: Claimable(t, other, harnesses, now) ==> NoYounger(t, r, other)
  }

  /** A nonempty set of runs has one that is no younger than all others. */
  lemma OldestAmong(t: Tables, candidates: set<string>) returns (oldest: string)
    requires candidates != {} && candidates <= t.runs.Keys
    ensures oldest in candidates && forall r :: r in candidates ==> NoYounger(t, oldest, r)
  {
    StringsTotallyOrdered();
    oldest := LeastExists((a, b) => NoYounger(t, a, b), candidates);
  }

  lemma OldestClaimableExists(t: Tables, harnesses: Option<seq<string>>, now: Instant)
    requires SomeClaimable(t, harnesses, now)
    ensures exists r :: IsOldestClaimable(t, r, harnesses, now)
  {
    var candidates := set r | r in t.runs && Claimable(t, r, harnesses, now);
    var some :| Claimable(t, some, harnesses, now);
    assert some in candidates;
    var oldest := OldestAmong(t, candidates);
    assert IsOldestClaimable(t, oldest, harnesses, now);
  }

  ghost function OldestClaimable(t: Tables, harnesses: Option<seq<string>>, now: Instant): (r: string)
    requires SomeClaimable(t, harnesses, now)
    ensures IsOldestClaimable(t, r, harnesses, now)
  {
    OldestClaimableExists(t, harnesses, now);
    var r :| IsOldestClaimable(t, r, harnesses, now);
    r
  }

  lemma OldestClaimableUnique(t: Tables, a: string, b: string, harnesses: Option<seq<string>>, now: Instant)
    requires IsOldestClaimable(t, a, harnesses, now) && IsOldestClaimable(t, b, harnesses, now)
    ensures a == b
  {
    assert NoYounger(t, a, b) && NoYounger(t, b, a);
    StringLeqAntisymmetric(a, b);
  }

  /** `n` is COALESCE(MAX(number), 0) over the attempts of run `r`. */
  ghost predicate IsMaxNumber(t: Tables, r: string, n: int) {
    && n >= 0
    && (forall k {:trigger AttemptId(r, k)} :: AttemptId(r, k) in t.attempts ==> k <= n)
    && (n > 0 ==> AttemptId(r, n) in t.attempts)
  }

  lemma {:induction false} MaxOfAttempts(r: string, ids: set<AttemptId>) returns (n: int)
    requires forall a :: a in ids ==> a.runId == r
    ensures n >= 0 && (forall a :: a in ids ==> a.number <= n) && (n > 0 ==> AttemptId(r, n) in ids)
    decreases ids
  {
    if ids == {} {
      return 0;
    }
    var a :| a in ids;
    n := MaxOfAttempts(r, ids - {a});
    n := if a.number > n then a.number else n;
  }

  lemma MaxNumberExists(t: Tables, r: string)
    ensures exists n :: IsMaxNumber(t, r, n)
  {
    var ids := set a | a in t.attempts && a.runId == r;
    var n := MaxOfAttempts(r, ids);
    assert IsMaxNumber(t, r, n) by {
      forall k | AttemptId(r, k) in t.attempts ensures k <= n { assert AttemptId(r, k) in ids; }
    }
  }

  ghost function MaxNumber(t: Tables, r: string): (n: int)
    ensures IsMaxNumber(t, r, n)
  {
    MaxNumberExists(t, r);
    var n :| IsMaxNumber(t, r, n);
    n
  }

  function ResultOf(payload: Payload): Option<ResultText> {
    if payload.Text? then Some(Whole(payload.json)) else None
  }

  ghost function AfterClaim(t: Tables, r: string, worker: string, now: Instant, ttl: Duration): Tables
    requires r in t.runs
  {
    var run := t.runs[r];
    t.(runs := t.runs[r := run.(state := RunLeased, updatedAt := Millis(now))],
       attempts := t.attempts[AttemptId(r, MaxNumber(t, r) + 1) :=
                     Attempt(worker, RunPreparing, None, None, None, None)],
       leases := t.leases[r := Lease(run.workspace, LeaseModeFor(run.permission), worker,
                                     Millis(now), Millis(now), Millis(now + ttl))])
  }

  // ---- Running --------------------------------------------------------------

  predicate AttemptMatches(t: Tables, claim: Claim) {
    && claim.attempt in t.attempts
    && claim.attempt.runId == claim.runId
    && t.attempts[claim.attempt].worker == claim.owner
  }

  predicate CompletableAttempt(target: RunState, attempt: RunState) {
    attempt == RunRunning || (target != RunSucceeded && attempt == RunPreparing)
  }

  predicate CompletableRun(target: RunState, run: RunState) {
    match target
    case RunSucceeded => run == RunRunning
    case RunFailed => run == RunPreparing || run == RunRunning || run == RunWaitingForApproval
    case _ => HoldsLease(run)
  }

  function SetRunState(t: Tables, r: string, state: RunState, now: Instant): Tables
    requires r in t.runs
  {
    t.(runs := t.runs[r := t.runs[r].(state := state, updatedAt := Millis(now))])
  }

  function AfterStart(t: Tables, claim: Claim, processId: int, now: Instant): Tables
    requires claim.runId in t.runs && claim.attempt in t.attempts
  {
    SetRunState(t, claim.runId, RunRunning, now).(
      attempts := t.attempts[claim.attempt :=
        t.attempts[claim.attempt].(state := RunRunning, processId := Some(processId), startedAt := Some(Millis(now)))])
  }

  function AfterComplete(t: Tables, claim: Claim, state: RunState, conclusion: string, result: Payload,
                         now: Instant): Tables
    requires claim.runId in t.runs && claim.attempt in t.attempts
  {
    Tables(
      t.runs[claim.runId := t.runs[claim.runId].(
        state := state, conclusion := NullIfEmpty(conclusion), updatedAt := Millis(now))],
      t.attempts[claim.attempt := t.attempts[claim.attempt].(
        state := state, finishedAt := Some(Millis(now)), result := ResultOf(result))],
      t.leases - {claim.runId},
      t.approvals,
      t.retries)
  }

  // ---- Recovery -------------------------------------------------------------

  predicate Expired(t: Tables, r: string, now: Instant) {
    r in t.leases && r in t.runs && !LiveAt(t.leases[r], Millis(now))
  }

  function RecoveredRun(run: Run, now: Instant): Run {
    run.(state := if run.state == RunLeased then RunPending else RunInterrupted, updatedAt := Millis(now))
  }

  function RecoveredAttempt(attempt: Attempt, now: Instant): Attempt {
    if IsActive(attempt.state)
    then attempt.(state := RunInterrupted, finishedAt := Some(Millis(now)))
    else attempt
  }

  function AfterRecover(t: Tables, now: Instant): Tables {
    Tables(
      map r | r in t.runs :: if Expired(t, r, now) then RecoveredRun(t.runs[r], now) else t.runs[r],
      map a | a in t.attempts ::
        if Expired(t, a.runId, now) then RecoveredAttempt(t.attempts[a], now) else t.attempts[a],
      map r | r in t.leases && !Expired(t, r, now) :: t.leases[r],
      t.approvals,
      t.retries)
  }

  // ---- Retries --------------------------------------------------------------

  predicate IsPendingRetry(t: Tables, timer: AttemptId) {
    timer in t.retries && t.retries[timer].state == TimerPending
  }

  function AfterSchedule(t: Tables, claim: Claim, due: Instant, why: string, result: Payload, now: Instant): Tables
    requires claim.runId in t.runs && claim.attempt in t.attempts
  {
    Tables(
      t.runs[claim.runId := t.runs[claim.runId].(
        state := RunRetryScheduled, conclusion := NullIfEmpty(why), updatedAt := Millis(now))],
      t.attempts[claim.attempt := t.attempts[claim.attempt].(
        state := RunFailed, finishedAt := Some(Millis(now)), result := ResultOf(result))],
      t.leases - {claim.runId},
      t.approvals,
      t.retries[claim.attempt := Retry(Millis(if due < now then now else due), TimerPending)])
  }

  /** One due timer: it completes and its run is pending again, or it is cancelled
      because the run no longer waits for it. */
  function AfterActivate(t: Tables, timer: AttemptId, now: Instant): Tables
    requires timer in t.retries
  {
    var r := timer.runId;
    if r in t.runs && t.runs[r].state == RunRetryScheduled then
      t.(runs := t.runs[r := t.runs[r].(state := RunPending, conclusion := None, updatedAt := Millis(now))],
         retries := t.retries[timer := t.retries[timer].(state := TimerCompleted)])
    else
      t.(retries := t.retries[timer := t.retries[timer].(state := TimerCancelled)])
  }

  function AfterCancelPending(t: Tables, r: string, now: Instant): Tables
    requires r in t.runs
  {
    t.(runs := t.runs[r := t.runs[r].(
         state := RunCancelled, conclusion := Some("cancelled before next execution"), updatedAt := Millis(now))],
       retries := map a | a in t.retries ::
         if a.runId == r && t.retries[a].state == TimerPending then t.retries[a].(state := TimerCancelled)
         else t.retries[a])
  }

  // ---- Pruning --------------------------------------------------------------

  function StripLog(result: Option<ResultText>): Option<ResultText> {
    Some(WithoutLog(if result.None? then "{}" else result.value.json))
  }

  function AfterPrune(t: Tables, r: string, now: Instant): Tables
    requires r in t.runs
  {
    t.(runs := t.runs[r := t.runs[r].(prunedAt := Some(Millis(now)), updatedAt := Millis(now))],
       attempts := map a | a in t.attempts ::
         if a.runId == r then t.attempts[a].(result := StripLog(t.attempts[a].result)) else t.attempts[a])
  }

  // ---- Approvals ------------------------------------------------------------

  /** An approved grant of the run with exactly this kind and scope. */
  predicate MatchesGrant(a: Approval, runId: string, kind: string, scope: Scope) {
    a.runId == runId && a.kind == kind && a.scope == scope && a.state == ApprovalApproved
  }

  ghost predicate GrantExists(t: Tables, runId: string, kind: string, scope: Scope) {
    exists id :: id in t.approvals && MatchesGrant(t.approvals[id], runId, kind, scope)
  }

  predicate RequestWellFormed(approvalId: string, kind: string, scope: Scope) {
    TrimSpace(approvalId) != "" && TrimSpace(kind) != "" && scope.Scope?
  }

  /** The call creates a pending approval and pauses the run, rather than reusing an
      earlier grant or failing. The attempt is a foreign key, the id a primary key. */
  ghost predicate Pauses(t: Tables, claim: Claim, approvalId: string, kind: string, scope: Scope, now: Instant) {
    && RequestWellFormed(approvalId, kind, scope)
    && LeaseVerified(t, claim, now)
    && !GrantExists(t, claim.runId, TrimSpace(kind), scope)
    && claim.runId in t.runs && IsActive(t.runs[claim.runId].state)
    && claim.attempt in t.attempts
    && TrimSpace(approvalId) !in t.approvals
  }

  function PendingApproval(t: Tables, claim: Claim, kind: string, scope: Scope, summary: string, now: Instant): Approval
    requires claim.runId in t.runs
  {
    Approval(claim.runId, claim.attempt, TrimSpace(kind), scope, TrimSpace(summary),
             ApprovalPending, t.runs[claim.runId].state, Millis(now), None, None)
  }

  function AfterPause(t: Tables, claim: Claim, approvalId: string, kind: string, scope: Scope, summary: string,
                      now: Instant): Tables
    requires claim.runId in t.runs
  {
    SetRunState(t, claim.runId, RunWaitingForApproval, now).(
      approvals := t.approvals[TrimSpace(approvalId) := PendingApproval(t, claim, kind, scope, summary, now)])
  }

  function DecidedApproval(a: Approval, decision: ApprovalState, reason: string, now: Instant): Approval {
    a.(state := decision, decidedAt := Some(Millis(now)), reason := NullIfEmpty(reason))
  }

  predicate IsPendingApproval(t: Tables, id: string) {
    id in t.approvals && t.approvals[id].state == ApprovalPending
  }

  function AfterDecide(t: Tables, id: string, decision: ApprovalState, reason: string, now: Instant): Tables
    requires id in t.approvals && t.approvals[id].runId in t.runs
  {
    SetRunState(t, t.approvals[id].runId, t.approvals[id].resumeState, now).(
      approvals := t.approvals[id := DecidedApproval(t.approvals[id], decision, reason, now)])
  }

  // ---- One operation --------------------------------------------------------

  /** The operation changes the tables. */
  ghost predicate Succeeds(t: Tables, op: Op) {
    match op
    case Enqueue(id, row) =>
      Insertable(t, id, row)
    case ClaimNext(worker, harnesses, now, ttl) =>
      && TrimSpace(worker) != "" && ttl > 0 && SomeClaimable(t, harnesses, now)
      && OldestClaimable(t, harnesses, now) !in t.leases
    case Prepare(claim, now) =>
      LeaseVerified(t, claim, now) && claim.runId in t.runs && t.runs[claim.runId].state == RunLeased
    case Start(claim, processId, now) =>
      && processId > 0 && LeaseVerified(t, claim, now)
      && claim.runId in t.runs && t.runs[claim.runId].state == RunPreparing
      && AttemptMatches(t, claim) && t.attempts[claim.attempt].state == RunPreparing
    case Heartbeat(claim, now, ttl) =>
      ttl > 0 && LeaseVerified(t, claim, now)
    case Complete(claim, state, _, result, now) =>
      && IsTerminal(state) && !result.Malformed? && LeaseVerified(t, claim, now)
      && AttemptMatches(t, claim) && CompletableAttempt(state, t.attempts[claim.attempt].state)
      && claim.runId in t.runs && CompletableRun(state, t.runs[claim.runId].state)
    case Recover(_) =>
      true
    case Request(claim, id, kind, scope, _, now) =>
      Pauses(t, claim, id, kind, scope, now)
    case Decide(id, decision, _, _) =>
      && (decision == ApprovalApproved || decision == ApprovalDenied)
      && IsPendingApproval(t, id)
      && t.approvals[id].runId in t.runs && t.runs[t.approvals[id].runId].state == RunWaitingForApproval
    case CancelApproval(id, _, _) =>
      IsPendingApproval(t, id)
    case CancelPending(r, _) =>
      r in t.runs && (t.runs[r].state == RunPending || t.runs[r].state == RunRetryScheduled)
    case ScheduleRetry(claim, dueAt, _, result, now) =>
      && dueAt.Some? && !result.Malformed? && LeaseVerified(t, claim, now)
      && AttemptMatches(t, claim) && t.attempts[claim.attempt].state == RunRunning
      && claim.runId in t.runs && t.runs[claim.runId].state == RunRunning
      && claim.attempt !in t.retries
    case ActivateRetry(timer, now) =>
      IsPendingRetry(t, timer) && t.retries[timer].due <= Millis(now)
    case Pin(r, _, _) =>
      r in t.runs
    case Prune(r, _) =>
      r in t.runs && !t.runs[r].pinned && IsTerminal(t.runs[r].state)
  }

  ghost function After(t: Tables, op: Op): Tables
    requires Succeeds(t, op)
  {
    match op
    case Enqueue(id, row) =>
      AfterInsert(t, id, row)
    case ClaimNext(worker, harnesses, now, ttl) =>
      AfterClaim(t, OldestClaimable(t, harnesses, now), TrimSpace(worker), now, ttl)
    case Prepare(claim, now) =>
      SetRunState(t, claim.runId, RunPreparing, now)
    case Start(claim, processId, now) =>
      AfterStart(t, claim, processId, now)
    case Heartbeat(claim, now, ttl) =>
      t.(leases := t.leases[claim.runId :=
        t.leases[claim.runId].(heartbeatAt := Millis(now), expiresAt := Millis(now + ttl))])
    case Complete(claim, state, conclusion, result, now) =>
      AfterComplete(t, claim, state, conclusion, result, now)
    case Recover(now) =>
      AfterRecover(t, now)
    case Request(claim, id, kind, scope, summary, now) =>
      AfterPause(t, claim, id, kind, scope, summary, now)
    case Decide(id, decision, reason, now) =>
      AfterDecide(t, id, decision, reason, now)
    case CancelApproval(id, reason, now) =>
      t.(approvals := t.approvals[id := DecidedApproval(t.approvals[id], ApprovalCancelled, reason, now)])
    case CancelPending(r, now) =>
      AfterCancelPending(t, r, now)
    case ScheduleRetry(claim, dueAt, why, result, now) =>
      AfterSchedule(t, claim, dueAt.value, why, result, now)
    case ActivateRetry(timer, now) =>
      AfterActivate(t, timer, now)
    case Pin(r, pinned, now) =>
      t.(runs := t.runs[r := t.runs[r].(pinned := pinned, updatedAt := Millis(now))])
    case Prune(r, now) =>
      AfterPrune(t, r, now)
  }

  ghost function Step(t: Tables, op: Op): Tables {
    if Succeeds(t, op) then After(t, op) else t
  }
}
