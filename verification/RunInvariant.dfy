/** The joint invariant of the five tables, kept by every operation.

    The invariant speaks about one run at a time: its row, its lease, its attempts
    its approvals and its retry timers. Every operation but recovery touches the rows of a single
    run, so what remains to show is that run's part. */
module RunInvariant {
  import opened Wrappers
  import opened Times
  import opened Strings
  import opened RunModel

  predicate ActiveAttempt(t: Tables, r: string, n: int) {
    AttemptId(r, n) in t.attempts && IsActive(t.attempts[AttemptId(r, n)].state)
  }

  predicate ApprovalOf(t: Tables, id: string, r: string) {
    id in t.approvals && t.approvals[id].runId == r
  }

  predicate PendingFor(t: Tables, id: string, r: string) {
    ApprovalOf(t, id, r) && t.approvals[id].state == ApprovalPending
  }

  /** A run has a lease row exactly when it is leased, preparing, running or waiting,
      and the row carries the run's workspace and the mode its permission asks for. */
  predicate LeaseInv(t: Tables, r: string) {
    && (r in t.leases <==> r in t.runs && HoldsLease(t.runs[r].state))
    && (r in t.leases ==>
          && t.leases[r].workspace == t.runs[r].workspace
          && t.leases[r].mode == LeaseModeFor(t.runs[r].permission))
  }

  /** Attempts are numbered 1..n and belong to a run; each is unfinished or ended. */
  ghost predicate NumberInv(t: Tables, r: string) {
    && (forall n :: AttemptId(r, n) in t.attempts ==>
          && r in t.runs && n >= 1
          && (IsActive(t.attempts[AttemptId(r, n)].state) || IsTerminal(t.attempts[AttemptId(r, n)].state)))
    && (forall n, k :: AttemptId(r, n) in t.attempts && 1 <= k <= n ==> AttemptId(r, k) in t.attempts)
  }

  /** The state an unfinished attempt has while its run is in state `run`. A waiting
      run keeps the state it was paused in. */
  predicate Agrees(run: RunState, attempt: RunState) {
    match run
    case RunLeased => attempt == RunPreparing
    case RunPreparing => attempt == RunPreparing
    case RunRunning => attempt == RunRunning
    case RunWaitingForApproval => true
    case _ => false
  }

  /** A run with a lease has exactly one unfinished attempt, worked by the lease's
      owner, whose state agrees with the run; a run without a lease has none. */
  ghost predicate ActiveInv(t: Tables, r: string) {
    && (forall n :: ActiveAttempt(t, r, n) ==>
          && r in t.leases && r in t.runs
          && t.attempts[AttemptId(r, n)].worker == t.leases[r].owner
          && Agrees(t.runs[r].state, t.attempts[AttemptId(r, n)].state))
    && (forall n, m :: ActiveAttempt(t, r, n) && ActiveAttempt(t, r, m) ==> n == m)
    && (r in t.leases ==> exists n :: ActiveAttempt(t, r, n))
  }

  /** A pending approval belongs to a run that waits or has ended, is the only one of
      its run, and remembers the state of the run's unfinished attempt. */
  ghost predicate ApprovalInv(t: Tables, r: string) {
    && (forall id :: ApprovalOf(t, id, r) ==> r in t.runs)
    && (forall id :: PendingFor(t, id, r) ==>
          && IsActive(t.approvals[id].resumeState)
          && (t.runs[r].state == RunWaitingForApproval || IsTerminal(t.runs[r].state)))
    && (forall id, n :: PendingFor(t, id, r) && ActiveAttempt(t, r, n) ==>
          t.attempts[AttemptId(r, n)].state == t.approvals[id].resumeState)
    && (forall x, y :: PendingFor(t, x, r) && PendingFor(t, y, r) ==> x == y)
  }

  predicate PendingRetry(t: Tables, r: string, n: int) {
    IsPendingRetry(t, AttemptId(r, n))
  }

  /** Retry timers belong to finished attempts, and a run waits for a retry exactly
      when it has a pending timer, which is then its only one. */
  ghost predicate RetryInv(t: Tables, r: string) {
    && (forall n :: AttemptId(r, n) in t.retries ==>
          AttemptId(r, n) in t.attempts && !IsActive(t.attempts[AttemptId(r, n)].state))
    && (forall n :: PendingRetry(t, r, n) ==> r in t.runs && t.runs[r].state == RunRetryScheduled)
    && (forall n, m :: PendingRetry(t, r, n) && PendingRetry(t, r, m) ==> n == m)
    && (r in t.runs && t.runs[r].state == RunRetryScheduled ==> exists n :: PendingRetry(t, r, n))
  }

  ghost predicate CoreInv(t: Tables, r: string) {
    LeaseInv(t, r) && NumberInv(t, r) && ActiveInv(t, r) && ApprovalInv(t, r)
  }

  ghost predicate RunInv(t: Tables, r: string) {
    CoreInv(t, r) && RetryInv(t, r)
  }

  /** Approvals name stored attempts: the table's foreign key. */
  ghost predicate AttemptKeys(t: Tables) {
    forall id :: id in t.approvals ==> t.approvals[id].attempt in t.attempts
  }

  /** Idempotency keys are unique. */
  ghost predicate RunKeys(t: Tables) {
    forall r, s :: r in t.runs && s in t.runs && t.runs[r].key == t.runs[s].key ==> r == s
  }

  ghost predicate Inv(t: Tables) {
    (forall r :: RunInv(t, r)) && AttemptKeys(t) && RunKeys(t)
  }

  lemma InvInitially()
    ensures Inv(EMPTY_TABLES)
  {
  }

  /** The rows of run `r` are the same in both. */
  ghost predicate SameRun(t: Tables, u: Tables, r: string) {
    && (r in t.runs <==> r in u.runs) && (r in t.runs ==> t.runs[r] == u.runs[r])
    && (r in t.leases <==> r in u.leases) && (r in t.leases ==> t.leases[r] == u.leases[r])
    && (forall n :: AttemptId(r, n) in t.attempts <==> AttemptId(r, n) in u.attempts)
    && (forall n :: AttemptId(r, n) in t.attempts ==> t.attempts[AttemptId(r, n)] == u.attempts[AttemptId(r, n)])
    && (forall id :: ApprovalOf(t, id, r) <==> ApprovalOf(u, id, r))
    && (forall id :: ApprovalOf(t, id, r) ==> t.approvals[id] == u.approvals[id])
    && (forall n :: AttemptId(r, n) in t.retries <==> AttemptId(r, n) in u.retries)
    && (forall n :: AttemptId(r, n) in t.retries ==> t.retries[AttemptId(r, n)] == u.retries[AttemptId(r, n)])
  }

  lemma SameRunKeepsInv(t: Tables, u: Tables, r: string)
    requires SameRun(t, u, r) && RunInv(t, r)
    ensures RunInv(u, r)
  {
    assert forall n :: ActiveAttempt(u, r, n) <==> ActiveAttempt(t, r, n);
    assert forall id :: PendingFor(u, id, r) <==> PendingFor(t, id, r);
    assert forall n :: PendingRetry(u, r, n) <==> PendingRetry(t, r, n);
  }

  // ---- Leases, attempts and approvals ---------------------------------------

  lemma EnqueueKeepsInv(t: Tables, op: Op)
    requires op.Enqueue? && Succeeds(t, op) && CoreInv(t, TrimSpace(op.newRun))
    ensures CoreInv(After(t, op), TrimSpace(op.newRun))
  {
  }

  lemma ClaimKeepsInv(t: Tables, r: string, worker: string, now: Instant, ttl: Duration)
    requires CoreInv(t, r) && r in t.runs && t.runs[r].state == RunPending
    ensures CoreInv(AfterClaim(t, r, worker, now, ttl), r)
  {
    var u, last := AfterClaim(t, r, worker, now, ttl), MaxNumber(t, r);
    assert IsMaxNumber(t, r, last);
    assert forall n :: !ActiveAttempt(t, r, n);
    assert ActiveAttempt(u, r, last + 1);
    assert forall n :: ActiveAttempt(u, r, n) <==> n == last + 1;
    assert forall id :: PendingFor(u, id, r) <==> PendingFor(t, id, r);
    forall n, k | AttemptId(r, n) in u.attempts && 1 <= k <= n ensures AttemptId(r, k) in u.attempts {
      assert k <= last + 1;
      assert last > 0 ==> AttemptId(r, last) in t.attempts;
    }
  }

  lemma PrepareKeepsInv(t: Tables, op: Op)
    requires op.Prepare? && Succeeds(t, op) && CoreInv(t, op.claim.runId)
    ensures CoreInv(After(t, op), op.claim.runId)
  {
    var u, r := After(t, op), op.claim.runId;
    assert forall n :: ActiveAttempt(u, r, n) <==> ActiveAttempt(t, r, n);
    assert forall id :: PendingFor(u, id, r) <==> PendingFor(t, id, r);
  }

  lemma StartKeepsInv(t: Tables, op: Op)
    requires op.Start? && Succeeds(t, op) && CoreInv(t, op.claim.runId)
    ensures CoreInv(After(t, op), op.claim.runId)
  {
    var u, r, started := After(t, op), op.claim.runId, op.claim.attempt.number;
    assert op.claim.attempt == AttemptId(r, started);
    assert ActiveAttempt(t, r, started) && ActiveAttempt(u, r, started);
    assert forall n :: ActiveAttempt(u, r, n) <==> ActiveAttempt(t, r, n);
    assert forall id :: PendingFor(u, id, r) <==> PendingFor(t, id, r);
  }

  lemma HeartbeatKeepsInv(t: Tables, op: Op)
    requires op.Heartbeat? && Succeeds(t, op) && CoreInv(t, op.claim.runId)
    ensures CoreInv(After(t, op), op.claim.runId)
  {
    var u, r := After(t, op), op.claim.runId;
    assert forall n :: ActiveAttempt(u, r, n) <==> ActiveAttempt(t, r, n);
    assert forall id :: PendingFor(u, id, r) <==> PendingFor(t, id, r);
  }

  lemma CompleteKeepsInv(t: Tables, op: Op)
    requires op.Complete? && Succeeds(t, op) && CoreInv(t, op.claim.runId)
    ensures CoreInv(After(t, op), op.claim.runId)
  {
    var u, r, ended := After(t, op), op.claim.runId, op.claim.attempt.number;
    assert op.claim.attempt == AttemptId(r, ended);
    assert ActiveAttempt(t, r, ended);
    assert u == AfterComplete(t, op.claim, op.state, op.conclusion, op.result, op.now);
    assert !ActiveAttempt(u, r, ended);
    forall n | n != ended ensures !ActiveAttempt(u, r, n) {
      assert !ActiveAttempt(t, r, n) by { assert ActiveInv(t, r); }
    }
    assert forall id :: PendingFor(u, id, r) <==> PendingFor(t, id, r);
  }

  lemma ExpiredKeepsInv(t: Tables, r: string, now: Instant)
    requires CoreInv(t, r) && Expired(t, r, now)
    ensures CoreInv(AfterRecover(t, now), r)
  {
    var u := AfterRecover(t, now);
    assert forall n :: !ActiveAttempt(u, r, n);
    assert forall id :: PendingFor(u, id, r) <==> PendingFor(t, id, r);
  }

  lemma RecoverKeepsInv(t: Tables, r: string, now: Instant)
    requires RunInv(t, r)
    ensures RunInv(AfterRecover(t, now), r)
  {
    var u := AfterRecover(t, now);
    if Expired(t, r, now) {
      ExpiredKeepsInv(t, r, now);
      assert forall n :: PendingRetry(u, r, n) <==> PendingRetry(t, r, n);
      UntouchedRetriesKept(t, u, r);
    } else {
      SameRunKeepsInv(t, u, r);
    }
  }

  lemma RequestKeepsInv(t: Tables, op: Op)
    requires op.Request? && Succeeds(t, op) && CoreInv(t, op.claim.runId)
    ensures CoreInv(After(t, op), op.claim.runId)
  {
    var u, r := After(t, op), op.claim.runId;
    assert forall n :: ActiveAttempt(u, r, n) <==> ActiveAttempt(t, r, n);
    assert forall id :: !PendingFor(t, id, r);
    assert forall id :: PendingFor(u, id, r) <==> id == TrimSpace(op.approvalId);
  }

  lemma DecideKeepsInv(t: Tables, op: Op)
    requires op.Decide? && Succeeds(t, op) && CoreInv(t, t.approvals[op.approvalId].runId)
    ensures CoreInv(After(t, op), t.approvals[op.approvalId].runId)
  {
    var u, r := After(t, op), t.approvals[op.approvalId].runId;
    assert PendingFor(t, op.approvalId, r);
    assert forall n :: ActiveAttempt(u, r, n) <==> ActiveAttempt(t, r, n);
    forall id ensures !PendingFor(u, id, r) {
      assert PendingFor(t, id, r) ==> id == op.approvalId;
    }
  }

  lemma CancelApprovalKeepsInv(t: Tables, op: Op)
    requires op.CancelApproval? && Succeeds(t, op) && CoreInv(t, t.approvals[op.approvalId].runId)
    ensures CoreInv(After(t, op), t.approvals[op.approvalId].runId)
  {
    var u, r := After(t, op), t.approvals[op.approvalId].runId;
    assert PendingFor(t, op.approvalId, r);
    assert forall n :: ActiveAttempt(u, r, n) <==> ActiveAttempt(t, r, n);
    forall id ensures !PendingFor(u, id, r) {
      assert PendingFor(t, id, r) ==> id == op.approvalId;
    }
  }

  lemma CancelPendingKeepsInv(t: Tables, r: string, now: Instant)
    requires r in t.runs && (t.runs[r].state == RunPending || t.runs[r].state == RunRetryScheduled) && CoreInv(t, r)
    ensures CoreInv(AfterCancelPending(t, r, now), r)
  {
    var u := AfterCancelPending(t, r, now);
    assert u.attempts == t.attempts && u.leases == t.leases && u.approvals == t.approvals;
    assert forall n :: ActiveAttempt(u, r, n) <==> ActiveAttempt(t, r, n);
    assert forall id :: ApprovalOf(u, id, r) <==> ApprovalOf(t, id, r);
    assert forall id :: PendingFor(u, id, r) <==> PendingFor(t, id, r);
  }

  lemma ScheduleRetryKeepsInv(t: Tables, op: Op)
    requires op.ScheduleRetry? && Succeeds(t, op) && CoreInv(t, op.claim.runId)
    ensures CoreInv(After(t, op), op.claim.runId)
  {
    var u, r, ended := After(t, op), op.claim.runId, op.claim.attempt.number;
    assert op.claim.attempt == AttemptId(r, ended);
    assert ActiveAttempt(t, r, ended) && !ActiveAttempt(u, r, ended);
    forall n | n != ended ensures !ActiveAttempt(u, r, n) {
      assert !ActiveAttempt(t, r, n) by { assert ActiveInv(t, r); }
    }
    assert forall id :: !PendingFor(t, id, r);
    assert forall id :: PendingFor(u, id, r) <==> PendingFor(t, id, r);
  }

  lemma ActivateKeepsInv(t: Tables, timer: AttemptId, now: Instant)
    requires timer in t.retries && CoreInv(t, timer.runId)
    ensures CoreInv(AfterActivate(t, timer, now), timer.runId)
  {
    var u, r := AfterActivate(t, timer, now), timer.runId;
    assert forall id :: ApprovalOf(u, id, r) <==> ApprovalOf(t, id, r);
    assert u.attempts == t.attempts && u.leases == t.leases && u.approvals == t.approvals;
    assert forall n :: ActiveAttempt(u, r, n) <==> ActiveAttempt(t, r, n);
    assert forall id :: PendingFor(u, id, r) <==> PendingFor(t, id, r);
  }

  lemma PinKeepsInv(t: Tables, op: Op)
    requires op.Pin? && Succeeds(t, op) && CoreInv(t, op.runId)
    ensures CoreInv(After(t, op), op.runId)
  {
    var u, r := After(t, op), op.runId;
    assert u.attempts == t.attempts && u.leases == t.leases && u.approvals == t.approvals;
    assert forall n :: ActiveAttempt(u, r, n) <==> ActiveAttempt(t, r, n);
    assert forall id :: PendingFor(u, id, r) <==> PendingFor(t, id, r);
  }

  lemma PruneKeepsInv(t: Tables, r: string, now: Instant)
    requires r in t.runs && IsTerminal(t.runs[r].state) && CoreInv(t, r)
    ensures CoreInv(AfterPrune(t, r, now), r)
  {
    var u := AfterPrune(t, r, now);
    assert forall a :: a in t.attempts <==> a in u.attempts;
    assert forall a :: a in t.attempts ==> u.attempts[a].state == t.attempts[a].state;
    assert forall n :: ActiveAttempt(u, r, n) <==> ActiveAttempt(t, r, n);
    assert forall id :: PendingFor(u, id, r) <==> PendingFor(t, id, r);
  }

  // ---- Retry timers ---------------------------------------------------------

  /** A step that leaves the timers of a run as they are, finishes no fewer of its
      attempts and neither starts nor ends its waiting for a retry. */
  lemma UntouchedRetriesKept(t: Tables, u: Tables, r: string)
    requires RetryInv(t, r)
    requires forall n :: AttemptId(r, n) in u.retries <==> AttemptId(r, n) in t.retries
    requires forall n :: PendingRetry(u, r, n) <==> PendingRetry(t, r, n)
    requires forall n :: AttemptId(r, n) in t.retries ==>
      AttemptId(r, n) in u.attempts && !IsActive(u.attempts[AttemptId(r, n)].state)
    requires r in u.runs && u.runs[r].state == RunRetryScheduled <==>
      r in t.runs && t.runs[r].state == RunRetryScheduled
    ensures RetryInv(u, r)
  {
  }

  lemma ScheduleKeepsRetries(t: Tables, op: Op)
    requires op.ScheduleRetry? && Succeeds(t, op) && RunInv(t, op.claim.runId)
    ensures RetryInv(After(t, op), op.claim.runId)
  {
    var u := AfterSchedule(t, op.claim, op.dueAt.value, op.why, op.result, op.now);
    var r, n := op.claim.runId, op.claim.attempt.number;
    assert op.claim.attempt == AttemptId(r, n) && PendingRetry(u, r, n);
    assert forall m :: !PendingRetry(t, r, m);
    forall m ensures PendingRetry(u, r, m) <==> m == n {
      assert !PendingRetry(t, r, m);
      assert u.retries == t.retries[op.claim.attempt := u.retries[op.claim.attempt]];
    }
  }

  lemma ActivateKeepsRetries(t: Tables, op: Op)
    requires op.ActivateRetry? && Succeeds(t, op) && RunInv(t, op.timer.runId)
    ensures RetryInv(After(t, op), op.timer.runId)
  {
    var u, r := After(t, op), op.timer.runId;
    var n := op.timer.number;
    assert op.timer == AttemptId(r, n) && PendingRetry(t, r, n);
    assert u == AfterActivate(t, op.timer, op.now);
    assert u.retries == t.retries[op.timer := t.retries[op.timer].(state := TimerCompleted)];
    forall m ensures !PendingRetry(u, r, m) {
      assert PendingRetry(t, r, m) ==> m == n;
    }
  }

  lemma CancelKeepsRetries(t: Tables, op: Op)
    requires op.CancelPending? && Succeeds(t, op) && RunInv(t, op.runId)
    ensures RetryInv(After(t, op), op.runId)
  {
    assert forall m :: !PendingRetry(After(t, op), op.runId, m);
  }

  lemma TouchedRunKeepsRetries(t: Tables, op: Op)
    requires Succeeds(t, op) && !op.Recover? && RunInv(t, TouchedRun(t, op))
    ensures RetryInv(After(t, op), TouchedRun(t, op))
  {
    if op.ScheduleRetry? {
      ScheduleKeepsRetries(t, op);
    } else if op.ActivateRetry? {
      ActivateKeepsRetries(t, op);
    } else if op.CancelPending? {
      CancelKeepsRetries(t, op);
    } else {
      TimersOutsideRetries(t, op);
    }
  }

  /** A claim gives its run a new attempt and leaves those it has as they are. */
  lemma ClaimKeepsRetries(t: Tables, r: string, worker: string, now: Instant, ttl: Duration)
    requires RunInv(t, r) && r in t.runs && t.runs[r].state == RunPending
    ensures RetryInv(AfterClaim(t, r, worker, now, ttl), r)
  {
    var u := AfterClaim(t, r, worker, now, ttl);
    assert IsMaxNumber(t, r, MaxNumber(t, r));
    assert u.retries == t.retries;
    assert forall n :: PendingRetry(u, r, n) <==> PendingRetry(t, r, n);
    UntouchedRetriesKept(t, u, r);
  }

  /** Every other operation finishes attempts or leaves them as they are. */
  lemma FinishedStayFinished(t: Tables, op: Op, a: AttemptId)
    requires Succeeds(t, op) && !op.ClaimNext? && a in t.attempts && !IsActive(t.attempts[a].state)
    ensures a in After(t, op).attempts && !IsActive(After(t, op).attempts[a].state)
  {
  }

  lemma TimersOutsideRetries(t: Tables, op: Op)
    requires Succeeds(t, op) && !op.Recover? && !op.ScheduleRetry? && !op.ActivateRetry? && !op.CancelPending?
    requires RunInv(t, TouchedRun(t, op))
    ensures RetryInv(After(t, op), TouchedRun(t, op))
  {
    var u, r := After(t, op), TouchedRun(t, op);
    if op.ClaimNext? {
      ClaimKeepsRetries(t, r, TrimSpace(op.worker), op.now, op.ttl);
    } else {
      TimersKept(t, op);
      forall n | AttemptId(r, n) in t.retries
        ensures AttemptId(r, n) in u.attempts && !IsActive(u.attempts[AttemptId(r, n)].state)
      {
        FinishedStayFinished(t, op, AttemptId(r, n));
      }
      assert forall n :: PendingRetry(u, r, n) <==> PendingRetry(t, r, n);
      UntouchedRetriesKept(t, u, r);
    }
  }

  lemma TimersKept(t: Tables, op: Op)
    requires Succeeds(t, op) && !op.Recover? && !op.ScheduleRetry? && !op.ActivateRetry? && !op.CancelPending?
    requires CoreInv(t, TouchedRun(t, op))
    ensures var u, r := After(t, op), TouchedRun(t, op);
      && u.retries == t.retries
      && (r in u.runs && u.runs[r].state == RunRetryScheduled <==> r in t.runs && t.runs[r].state == RunRetryScheduled)
  {
    if op.Decide? {
      assert PendingFor(t, op.approvalId, TouchedRun(t, op));
    }
  }

  /** The run whose rows a successful operation other than recovery changes. */
  ghost function TouchedRun(t: Tables, op: Op): string
    requires Succeeds(t, op) && !op.Recover?
  {
    match op
    case Enqueue(r, _) => TrimSpace(r)
    case ClaimNext(_, harnesses, now, _) => OldestClaimable(t, harnesses, now)
    case Decide(id, _, _, _) => t.approvals[id].runId
    case CancelApproval(id, _, _) => t.approvals[id].runId
    case CancelPending(r, _) => r
    case ActivateRetry(timer, _) => timer.runId
    case Pin(r, _, _) => r
    case Prune(r, _) => r
    case ScheduleRetry(claim, _, _, _, _) => claim.runId
    case Prepare(claim, _) => claim.runId
    case Start(claim, _, _) => claim.runId
    case Heartbeat(claim, _, _) => claim.runId
    case Complete(claim, _, _, _, _) => claim.runId
    case Request(claim, _, _, _, _, _) => claim.runId
  }

  /** Every operation other than recovery changes the rows of one run only. */
  lemma OtherRunsUnchanged(t: Tables, op: Op, r: string)
    requires Succeeds(t, op) && !op.Recover? && r != TouchedRun(t, op)
    ensures SameRun(t, After(t, op), r)
  {
    match op
    case CancelPending(touched, now) => CancelPendingFrame(t, touched, now, r);
    case Prune(touched, now) => PruneFrame(t, touched, now, r);
    case ActivateRetry(timer, now) => ActivateFrame(t, timer, now, r);
    case ScheduleRetry(_, _, _, _, _) => FinishFrame(t, op, r);
    case Complete(_, _, _, _, _) => FinishFrame(t, op, r);
    case ClaimNext(_, harnesses, now, _) => ClaimFrame(t, op, r);
    case _ => OneRowFrame(t, op, r);
  }

  lemma CancelPendingFrame(t: Tables, touched: string, now: Instant, r: string)
    requires touched in t.runs && r != touched
    ensures SameRun(t, AfterCancelPending(t, touched, now), r)
  {
  }

  lemma PruneFrame(t: Tables, touched: string, now: Instant, r: string)
    requires touched in t.runs && r != touched
    ensures SameRun(t, AfterPrune(t, touched, now), r)
  {
  }

  lemma ActivateFrame(t: Tables, timer: AttemptId, now: Instant, r: string)
    requires timer in t.retries && r != timer.runId
    ensures SameRun(t, AfterActivate(t, timer, now), r)
  {
  }

  lemma FinishFrame(t: Tables, op: Op, r: string)
    requires (op.Complete? || op.ScheduleRetry?) && Succeeds(t, op) && r != op.claim.runId
    ensures SameRun(t, After(t, op), r)
  {
  }

  lemma ClaimFrame(t: Tables, op: Op, r: string)
    requires op.ClaimNext? && Succeeds(t, op) && r != OldestClaimable(t, op.harnesses, op.now)
    ensures SameRun(t, After(t, op), r)
  {
  }

  lemma OneRowFrame(t: Tables, op: Op, r: string)
    requires op.Enqueue? || op.Prepare? || op.Start? || op.Heartbeat? || op.Request? || op.Decide?
          || op.CancelApproval? || op.Pin?
    requires Succeeds(t, op) && r != TouchedRun(t, op)
    ensures SameRun(t, After(t, op), r)
  {
    if op.Request? {
      RequestFrame(t, op, r);
    }
  }

  lemma RequestFrame(t: Tables, op: Op, r: string)
    requires op.Request? && Succeeds(t, op) && r != op.claim.runId
    ensures SameRun(t, After(t, op), r)
  {
  }

  lemma TouchedRunKeepsInv(t: Tables, op: Op)
    requires Succeeds(t, op) && !op.Recover? && RunInv(t, TouchedRun(t, op))
    ensures RunInv(After(t, op), TouchedRun(t, op))
  {
    TouchedRunKeepsRetries(t, op);
    TouchedRunKeepsCore(t, op);
  }

  lemma TouchedRunKeepsCore(t: Tables, op: Op)
    requires Succeeds(t, op) && !op.Recover? && CoreInv(t, TouchedRun(t, op))
    ensures CoreInv(After(t, op), TouchedRun(t, op))
  {
    match op
    case Enqueue(_, _) => EnqueueKeepsInv(t, op);
    case ClaimNext(worker, harnesses, now, ttl) =>
      ClaimKeepsInv(t, OldestClaimable(t, harnesses, now), TrimSpace(worker), now, ttl);
    case Prepare(_, _) => PrepareKeepsInv(t, op);
    case Start(_, _, _) => StartKeepsInv(t, op);
    case Heartbeat(_, _, _) => HeartbeatKeepsInv(t, op);
    case Complete(_, _, _, _, _) => CompleteKeepsInv(t, op);
    case Request(_, _, _, _, _, _) => RequestKeepsInv(t, op);
    case Decide(_, _, _, _) => DecideKeepsInv(t, op);
    case CancelApproval(_, _, _) => CancelApprovalKeepsInv(t, op);
    case CancelPending(r, now) => CancelPendingKeepsInv(t, r, now);
    case ScheduleRetry(_, _, _, _, _) => ScheduleRetryKeepsInv(t, op);
    case ActivateRetry(timer, now) => ActivateKeepsInv(t, timer, now);
    case Pin(_, _, _) => PinKeepsInv(t, op);
    case Prune(r, now) => PruneKeepsInv(t, r, now);
  }

  /** Attempts are never deleted, so foreign keys keep pointing at rows. */
  lemma StepKeepsAttemptKeys(t: Tables, op: Op)
    requires AttemptKeys(t)
    ensures AttemptKeys(Step(t, op))
  {
  }

  /** No operation but an insertion changes which run has which key. */
  lemma KeyKeptByStep(t: Tables, op: Op, r: string)
    requires !op.Enqueue?
    ensures r in Step(t, op).runs <==> r in t.runs
    ensures r in t.runs ==> Step(t, op).runs[r].key == t.runs[r].key
  {
    if Succeeds(t, op) && !op.Recover? {
      if r == TouchedRun(t, op) {
        TouchedKeyKept(t, op);
      } else {
        OtherRunsUnchanged(t, op, r);
      }
    }
  }

  lemma TouchedKeyKept(t: Tables, op: Op)
    requires Succeeds(t, op) && !op.Recover? && !op.Enqueue?
    ensures var r := TouchedRun(t, op);
      (r in t.runs <==> r in After(t, op).runs) && (r in t.runs ==> After(t, op).runs[r].key == t.runs[r].key)
  {
  }

  lemma StepKeepsRunKeys(t: Tables, op: Op)
    requires RunKeys(t)
    ensures RunKeys(Step(t, op))
  {
    if op.Enqueue? {
      forall r | r in t.runs && Succeeds(t, op) ensures t.runs[r].key != TrimSpace(op.row.key) {
        assert !HasRunKey(t, r, TrimSpace(op.row.key));
      }
    } else {
      forall r ensures r in Step(t, op).runs <==> r in t.runs
               ensures r in t.runs ==> Step(t, op).runs[r].key == t.runs[r].key {
        KeyKeptByStep(t, op, r);
      }
    }
  }

  /** Every operation keeps the joint invariant, whatever its arguments. */
  lemma StepKeepsInv(t: Tables, op: Op)
    requires Inv(t)
    ensures Inv(Step(t, op))
  {
    StepKeepsAttemptKeys(t, op);
    StepKeepsRunKeys(t, op);
    forall r ensures RunInv(Step(t, op), r) {
      if !Succeeds(t, op) {
      } else if op.Recover? {
        RecoverKeepsInv(t, r, op.now);
      } else if r == TouchedRun(t, op) {
        TouchedRunKeepsInv(t, op);
      } else {
        OtherRunsUnchanged(t, op, r);
        SameRunKeepsInv(t, After(t, op), r);
      }
    }
  }

  /** A run created in a state that owns rows lacks those rows: creating a run keeps
      the invariant exactly when the run is created pending or ended. */
  lemma CreationKeepsInv(t: Tables, id: string, row: Run)
    requires Inv(t) && Insertable(t, id, row)
    ensures Inv(AfterInsert(t, id, row)) <==> FreshState(row.state)
  {
    var r := TrimSpace(id);
    assert RunInv(t, r);
    if FreshState(row.state) {
      StepKeepsInv(t, Enqueue(id, row));
    } else {
      assert AfterInsert(t, id, row).retries == t.retries;
      assert forall n :: !PendingRetry(t, r, n) && !PendingRetry(AfterInsert(t, id, row), r, n);
      assert !RunInv(AfterInsert(t, id, row), r);
    }
  }

  /** Read off the invariant: the attempt numbers of a run are exactly 1..n. */
  lemma AttemptNumbersAreAnInterval(t: Tables, r: string)
    requires Inv(t)
    ensures forall k :: AttemptId(r, k) in t.attempts <==> 1 <= k <= MaxNumber(t, r)
  {
    assert RunInv(t, r);
    assert IsMaxNumber(t, r, MaxNumber(t, r));
  }
}
