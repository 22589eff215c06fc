/** What the operations achieve together: a claim leads to a finished run, recovery
    gives back what a dead worker held, an approval is reused, a retry comes due. */
module RunLifecycle {
  import opened Wrappers
  import opened Times
  import opened Ordering
  import opened Strings
  import opened RunModel
  import opened RunInvariant
  import opened RunHistory
  import opened RunClock

  // ---- Claiming -------------------------------------------------------------

  /** Two runs may hold leases at once: they work in different workspaces, or both
      only read. */
  predicate MayShare(a: Run, b: Run) {
    a.workspace != b.workspace || (a.permission == PermissionReadonly && b.permission == PermissionReadonly)
  }

  /** The run's lease is live at the row time `at`. */
  predicate LeaseLive(t: Tables, r: string, at: int) {
    r in t.leases && at < t.leases[r].expiresAt
  }

  /** What a claim by these harnesses may take: a pending run that shares with every run
      whose lease is live. */
  ghost predicate Free(t: Tables, r: string, harnesses: Option<seq<string>>, at: int) {
    && r in t.runs && t.runs[r].state == RunPending
    && (harnesses.Some? ==> t.runs[r].harness in harnesses.value)
    && forall s :: s in t.runs && LeaseLive(t, s, at) ==> MayShare(t.runs[r], t.runs[s])
  }

  lemma FreeIsClaimable(t: Tables, r: string, harnesses: Option<seq<string>>, now: Instant)
    requires Inv(t)
    ensures Claimable(t, r, harnesses, now) <==> Free(t, r, harnesses, Millis(now))
  {
    forall s | s in t.leases ensures s in t.runs && t.leases[s].workspace == t.runs[s].workspace
                                && t.leases[s].mode == LeaseModeFor(t.runs[s].permission) {
      assert RunInv(t, s);
    }
    if r in t.runs {
      forall s | s in t.leases && LiveAt(t.leases[s], Millis(now))
        ensures Compatible(t.leases[s], t.runs[r].workspace, LeaseModeFor(t.runs[r].permission)) <==>
          MayShare(t.runs[r], t.runs[s])
      {
      }
    }
  }

  /** A claim succeeds exactly when some run is free, and takes the one that was created
      first, the first by id among those created at once. */
  lemma ClaimTakesFirstFree(t: Tables, op: Op)
    requires Inv(t) && op.ClaimNext?
    ensures Succeeds(t, op) <==>
      TrimSpace(op.worker) != "" && op.ttl > 0 && exists r :: Free(t, r, op.harnesses, Millis(op.now))
    ensures Succeeds(t, op) ==> var r := OldestClaimable(t, op.harnesses, op.now);
      && Free(t, r, op.harnesses, Millis(op.now))
      && forall s :: Free(t, s, op.harnesses, Millis(op.now)) ==>
           && t.runs[r].createdAt <= t.runs[s].createdAt
           && (t.runs[r].createdAt == t.runs[s].createdAt ==> StringLeq(r, s))
  {
    ClaimSucceedsExactly(t, op);
    forall r ensures Claimable(t, r, op.harnesses, op.now) <==> Free(t, r, op.harnesses, Millis(op.now)) {
      FreeIsClaimable(t, r, op.harnesses, op.now);
    }
  }

  /** The claim a worker gets. */
  ghost function ClaimOf(t: Tables, op: Op): Claim
    requires op.ClaimNext? && Succeeds(t, op)
  {
    var r := OldestClaimable(t, op.harnesses, op.now);
    Claim(r, AttemptId(r, MaxNumber(t, r) + 1), TrimSpace(op.worker))
  }

  /** The claim holds the run until `until`: its lease and its attempt are the worker's
      own, and the run and the attempt are in these states. */
  predicate Holds(t: Tables, claim: Claim, until: int, run: RunState, attempt: RunState) {
    && claim.runId in t.runs && t.runs[claim.runId].state == run
    && claim.runId in t.leases && t.leases[claim.runId].owner == claim.owner
    && t.leases[claim.runId].expiresAt == until
    && claim.attempt.runId == claim.runId && claim.attempt in t.attempts
    && t.attempts[claim.attempt].worker == claim.owner && t.attempts[claim.attempt].state == attempt
  }

  /** A claim gives a new attempt and a lease in the run's workspace, for reading only
      exactly if the run may only read, until its time is over. */
  lemma ClaimGivesLease(t: Tables, op: Op)
    requires op.ClaimNext? && Succeeds(t, op)
    ensures var u, claim := Step(t, op), ClaimOf(t, op);
      && Holds(u, claim, Millis(op.now + op.ttl), RunLeased, RunPreparing)
      && claim.attempt !in t.attempts
      && u.attempts[claim.attempt] == Attempt(claim.owner, RunPreparing, None, None, None, None)
      && u.leases[claim.runId].workspace == t.runs[claim.runId].workspace
      && (u.leases[claim.runId].mode == LeaseReadonly <==> t.runs[claim.runId].permission == PermissionReadonly)
      && u.leases[claim.runId].acquiredAt == u.leases[claim.runId].heartbeatAt == Millis(op.now)
  {
    NewAttemptIsNew(t, OldestClaimable(t, op.harnesses, op.now));
  }

  /** A claim keeps back exactly the runs that may not share with the claimed one, for
      as long as its lease lives. */
  lemma ClaimKeepsBackExactly(t: Tables, op: Op, s: string, harnesses: Option<seq<string>>, at: int)
    requires Inv(t) && op.ClaimNext? && Succeeds(t, op) && s != ClaimOf(t, op).runId
    ensures Free(Step(t, op), s, harnesses, at) <==>
      && Free(t, s, harnesses, at)
      && (at < Millis(op.now + op.ttl) ==> MayShare(t.runs[s], t.runs[ClaimOf(t, op).runId]))
  {
    var r := ClaimOf(t, op).runId;
    var u := Step(t, op);
    assert RunInv(t, r);
    assert u.runs == t.runs[r := u.runs[r]] && u.leases == t.leases[r := u.leases[r]];
    if Free(u, s, harnesses, at) {
      forall q | q in t.runs && LeaseLive(t, q, at) ensures MayShare(t.runs[s], t.runs[q]) {
        assert q != r && LeaseLive(u, q, at);
      }
      if at < Millis(op.now + op.ttl) {
        assert LeaseLive(u, r, at);
      }
    }
    if Free(t, s, harnesses, at) && (at < Millis(op.now + op.ttl) ==> MayShare(t.runs[s], t.runs[r])) {
      forall q | q in u.runs && LeaseLive(u, q, at) ensures MayShare(u.runs[s], u.runs[q]) {
        assert q != r ==> LeaseLive(t, q, at);
      }
    }
  }

  // ---- From claim to end ----------------------------------------------------

  /** Nobody but the owner of a live lease takes a step that a lease guards. */
  lemma GuardedByOwner(t: Tables, op: Op)
    requires LeaseGuarded(op) && Succeeds(t, op)
    ensures op.claim.runId in t.leases && t.leases[op.claim.runId].owner == op.claim.owner
    ensures Millis(op.now) < t.leases[op.claim.runId].expiresAt
  {
  }

  /** An identical request of the run was approved. */
  ghost predicate WasGranted(t: Tables, runId: string, kind: string, scope: Scope) {
    exists id :: id in t.approvals && t.approvals[id].runId == runId && t.approvals[id].kind == kind
      && t.approvals[id].scope == scope && t.approvals[id].state == ApprovalApproved
  }

  /** What the holder of a run may do while its lease lives, by the state of the run. */
  ghost predicate HolderMay(t: Tables, op: Op, run: RunState)
    requires LeaseGuarded(op)
  {
    match op
    case Prepare(_, _) => run == RunLeased
    case Start(_, processId, _) => processId > 0 && run == RunPreparing
    case Heartbeat(_, _, ttl) => ttl > 0
    case Complete(_, state, _, result, _) =>
      && !result.Malformed?
      && (|| (state == RunSucceeded && run == RunRunning)
          || (state == RunFailed && run != RunLeased)
          || state == RunCancelled || state == RunInterrupted)
    case Request(claim, id, kind, scope, _, _) =>
      && TrimSpace(id) != "" && TrimSpace(kind) != "" && scope.Scope? && TrimSpace(id) !in t.approvals
      && (run == RunPreparing || run == RunRunning)
      && !WasGranted(t, claim.runId, TrimSpace(kind), scope)
    case ScheduleRetry(_, dueAt, _, result, _) => dueAt.Some? && !result.Malformed? && run == RunRunning
  }

  /** The holder of a run succeeds with a step, before its lease expires, exactly when the
      state of the run allows it. */
  lemma HolderSucceedsExactly(t: Tables, op: Op, until: int, run: RunState, attempt: RunState)
    requires Inv(t) && LeaseGuarded(op) && Holds(t, op.claim, until, run, attempt) && IsActive(attempt)
    requires Millis(op.now) < until
    ensures Succeeds(t, op) <==> HolderMay(t, op, run)
  {
    var r := op.claim.runId;
    assert RunInv(t, r);
    assert op.claim.attempt == AttemptId(r, op.claim.attempt.number);
    assert ActiveAttempt(t, r, op.claim.attempt.number);
    match op
    case Request(_, id, kind, scope, _, _) => HolderAsks(t, op, until, run, attempt);
    case Complete(_, _, _, _, _) => HolderCompletes(t, op, until, run, attempt);
    case _ =>
  }

  lemma HolderAsks(t: Tables, op: Op, until: int, run: RunState, attempt: RunState)
    requires op.Request? && Holds(t, op.claim, until, run, attempt) && Millis(op.now) < until
    ensures Succeeds(t, op) <==> HolderMay(t, op, run)
  {
    assert GrantExists(t, op.claim.runId, TrimSpace(op.kind), op.scope) <==>
      WasGranted(t, op.claim.runId, TrimSpace(op.kind), op.scope);
  }

  lemma HolderCompletes(t: Tables, op: Op, until: int, run: RunState, attempt: RunState)
    requires op.Complete? && Holds(t, op.claim, until, run, attempt) && Millis(op.now) < until
    requires RunInv(t, op.claim.runId) && ActiveAttempt(t, op.claim.runId, op.claim.attempt.number)
    requires op.claim.attempt == AttemptId(op.claim.runId, op.claim.attempt.number)
    ensures Succeeds(t, op) <==> HolderMay(t, op, run)
  {
  }

  /** A decision succeeds exactly on a pending approval of a run that has not ended. */
  lemma DecisionSucceedsExactly(t: Tables, op: Op)
    requires Inv(t) && op.Decide?
    ensures Succeeds(t, op) <==>
      && (op.decision == ApprovalApproved || op.decision == ApprovalDenied)
      && op.approvalId in t.approvals && t.approvals[op.approvalId].state == ApprovalPending
      && !Ended(t, t.approvals[op.approvalId].runId)
  {
    if op.approvalId in t.approvals {
      var r := t.approvals[op.approvalId].runId;
      assert RunInv(t, r) && ApprovalOf(t, op.approvalId, r);
      assert t.approvals[op.approvalId].state == ApprovalPending ==> PendingFor(t, op.approvalId, r);
    }
  }

  lemma PrepareGoesOn(t: Tables, claim: Claim, until: int, now: Instant)
    requires Holds(t, claim, until, RunLeased, RunPreparing) && Millis(now) < until
    ensures Succeeds(t, Prepare(claim, now))
    ensures Holds(Step(t, Prepare(claim, now)), claim, until, RunPreparing, RunPreparing)
    ensures Step(t, Prepare(claim, now)).attempts == t.attempts
  {
  }

  lemma StartGoesOn(t: Tables, claim: Claim, until: int, processId: int, now: Instant)
    requires Holds(t, claim, until, RunPreparing, RunPreparing) && Millis(now) < until && processId > 0
    ensures Succeeds(t, Start(claim, processId, now))
    ensures Holds(Step(t, Start(claim, processId, now)), claim, until, RunRunning, RunRunning)
    ensures Step(t, Start(claim, processId, now)).attempts[claim.attempt] ==
      t.attempts[claim.attempt].(state := RunRunning, processId := Some(processId), startedAt := Some(Millis(now)))
  {
  }

  lemma CompleteEnds(t: Tables, op: Op, until: int)
    requires op.Complete? && IsTerminal(op.state) && !op.result.Malformed?
    requires Holds(t, op.claim, until, RunRunning, RunRunning) && Millis(op.now) < until
    ensures Succeeds(t, op)
    ensures var u, claim := Step(t, op), op.claim;
      && claim.runId in u.runs && u.runs[claim.runId].state == op.state
      && u.runs[claim.runId].conclusion == (if op.conclusion == "" then None else Some(op.conclusion))
      && claim.runId !in u.leases
      && u.attempts[claim.attempt].state == op.state && u.attempts[claim.attempt].finishedAt == Some(Millis(op.now))
      && u.attempts[claim.attempt].processId == t.attempts[claim.attempt].processId
      && u.attempts[claim.attempt].startedAt == t.attempts[claim.attempt].startedAt
  {
  }

  /** A worker that acts before its lease expires gets from the claim to the end: each
      of its steps succeeds, the run ends in the state and with the conclusion it gives,
      and the workspace is free of its lease. */
  lemma ClaimedRunCompletes(t: Tables, op: Op, prepared: Instant, processId: int, started: Instant, complete: Op)
    requires op.ClaimNext? && Succeeds(t, op) && processId > 0
    requires complete.Complete? && complete.claim == ClaimOf(t, op)
    requires IsTerminal(complete.state) && !complete.result.Malformed?
    requires Millis(prepared) < Millis(op.now + op.ttl) && Millis(started) < Millis(op.now + op.ttl)
    requires Millis(complete.now) < Millis(op.now + op.ttl)
    ensures var claim := ClaimOf(t, op);
      var a, b := Prepare(claim, prepared), Start(claim, processId, started);
      var leased := Step(t, op);
      var preparing := Step(leased, a);
      var running := Step(preparing, b);
      var ended := Step(running, complete);
      && Succeeds(leased, a) && Succeeds(preparing, b) && Succeeds(running, complete)
      && claim.runId in ended.runs && ended.runs[claim.runId].state == complete.state
      && ended.runs[claim.runId].conclusion == (if complete.conclusion == "" then None else Some(complete.conclusion))
      && claim.runId !in ended.leases
      && claim.attempt in ended.attempts
      && ended.attempts[claim.attempt].state == complete.state
      && ended.attempts[claim.attempt].processId == Some(processId)
      && ended.attempts[claim.attempt].startedAt == Some(Millis(started))
  {
    var claim, until := ClaimOf(t, op), Millis(op.now + op.ttl);
    ClaimGivesLease(t, op);
    PrepareGoesOn(Step(t, op), claim, until, prepared);
    var preparing := Step(Step(t, op), Prepare(claim, prepared));
    StartGoesOn(preparing, claim, until, processId, started);
    CompleteEnds(Step(preparing, Start(claim, processId, started)), complete, until);
  }

  function Heartbeats(claim: Claim, times: seq<Instant>, ttl: Duration): History {
    seq(|times|, i requires 0 <= i < |times| => Heartbeat(claim, times[i], ttl))
  }

  /** Each heartbeat comes before the expiry that the one before it has set. */
  predicate InTime(times: seq<Instant>, ttl: Duration, until: int)
    decreases |times|
  {
    times == [] || (Millis(times[0]) < until && InTime(times[1..], ttl, Millis(times[0] + ttl)))
  }

  function LastExpiry(times: seq<Instant>, ttl: Duration, until: int): int {
    if times == [] then until else Millis(times[|times| - 1] + ttl)
  }

  /** A worker whose heartbeats come in time holds its run for as long as they go on:
      each succeeds and the lease reaches one time to live beyond the last. */
  lemma {:induction false} HeartbeatsKeepLease(t: Tables, claim: Claim, times: seq<Instant>, ttl: Duration, until: int,
                                               run: RunState, attempt: RunState)
    requires ttl > 0 && Holds(t, claim, until, run, attempt) && InTime(times, ttl, until)
    ensures Holds(Replay(t, Heartbeats(claim, times, ttl)), claim, LastExpiry(times, ttl, until), run, attempt)
    decreases |times|
  {
    if times != [] {
      var beat := Heartbeat(claim, times[0], ttl);
      HeartbeatGoesOn(t, claim, until, times[0], ttl, run, attempt);
      HeartbeatsKeepLease(Step(t, beat), claim, times[1..], ttl, Millis(times[0] + ttl), run, attempt);
      assert Heartbeats(claim, times, ttl)[1..] == Heartbeats(claim, times[1..], ttl);
    }
  }

  lemma HeartbeatGoesOn(t: Tables, claim: Claim, until: int, now: Instant, ttl: Duration, run: RunState,
                        attempt: RunState)
    requires ttl > 0 && Holds(t, claim, until, run, attempt) && Millis(now) < until
    ensures Succeeds(t, Heartbeat(claim, now, ttl))
    ensures Holds(Step(t, Heartbeat(claim, now, ttl)), claim, Millis(now + ttl), run, attempt)
    ensures Step(t, Heartbeat(claim, now, ttl)).leases[claim.runId].heartbeatAt == Millis(now)
  {
  }

  // ---- Recovery -------------------------------------------------------------

  /** The lease of the run has expired. */
  predicate Dead(t: Tables, r: string, at: int) {
    r in t.leases && t.leases[r].expiresAt <= at
  }

  /** Recovery makes a run whose worker died before preparing it pending again and
      interrupts every other run whose lease expired; it takes exactly the expired
      leases away, and leaves all other runs as they are. */
  lemma RecoveryOutcome(t: Tables, now: Instant, r: string)
    requires Inv(t)
    ensures var u := Step(t, Recover(now));
      && u.runs.Keys == t.runs.Keys
      && (r in t.runs && Dead(t, r, Millis(now)) ==>
            && r !in u.leases
            && u.runs[r].state == (if t.runs[r].state == RunLeased then RunPending else RunInterrupted))
      && (r in t.runs && !Dead(t, r, Millis(now)) ==> u.runs[r] == t.runs[r])
      && (r in u.leases <==> r in t.leases && !Dead(t, r, Millis(now)))
      && (r in u.leases ==> u.leases[r] == t.leases[r])
  {
    assert RunInv(t, r);
  }

  /** A run that its dead worker had only leased can be claimed again: after recovery it
      is free whenever it shares with the runs whose leases are still live and the
      harness suits. */
  lemma RecoveredRunIsFree(t: Tables, now: Instant, r: string, harnesses: Option<seq<string>>, at: int)
    requires Inv(t) && r in t.runs && t.runs[r].state == RunLeased && Dead(t, r, Millis(now)) && Millis(now) <= at
    ensures Free(Step(t, Recover(now)), r, harnesses, at) <==>
      && (harnesses.Some? ==> t.runs[r].harness in harnesses.value)
      && forall s :: s in t.runs && LeaseLive(t, s, at) ==> MayShare(t.runs[r], t.runs[s])
  {
    var u := Step(t, Recover(now));
    forall s ensures s in t.runs && LeaseLive(t, s, at) <==> s in u.runs && LeaseLive(u, s, at) {
      RecoveryOutcome(t, now, s);
      assert RunInv(t, s);
    }
    RecoveryOutcome(t, now, r);
    forall s | s in t.runs ensures u.runs[s].workspace == t.runs[s].workspace
                                && u.runs[s].permission == t.runs[s].permission {
    }
  }

  // ---- Approvals ------------------------------------------------------------

  /** Once a request is answered, an identical one of the same run is granted without
      asking exactly if the answer, or an earlier one, was yes. */
  lemma AnswerIsReused(t: Tables, request: Op, decide: Op)
    requires request.Request? && Succeeds(t, request)
    requires decide.Decide? && decide.approvalId == TrimSpace(request.approvalId)
    requires Succeeds(Step(t, request), decide)
    ensures GrantExists(Step(Step(t, request), decide), request.claim.runId, TrimSpace(request.kind), request.scope)
      <==> decide.decision == ApprovalApproved
  {
    var u := Step(Step(t, request), decide);
    var runId, kind := request.claim.runId, TrimSpace(request.kind);
    assert decide.approvalId in u.approvals;
    if decide.decision == ApprovalApproved {
      assert MatchesGrant(u.approvals[decide.approvalId], runId, kind, request.scope);
    } else {
      forall id | id in u.approvals ensures !MatchesGrant(u.approvals[id], runId, kind, request.scope) {
        assert id != decide.approvalId ==> id in t.approvals && u.approvals[id] == t.approvals[id];
      }
    }
  }

  // ---- Retries --------------------------------------------------------------

  /** A scheduled retry comes due exactly at the time asked for, or at once if that has
      passed, and its run is then pending without a conclusion. */
  lemma RetryComesDueExactly(t: Tables, schedule: Op, now: Instant)
    requires schedule.ScheduleRetry? && Succeeds(t, schedule)
    ensures var u, r := Step(t, schedule), schedule.claim.runId;
      var v := Step(u, ActivateRetry(schedule.claim.attempt, now));
      && (Succeeds(u, ActivateRetry(schedule.claim.attempt, now)) <==>
            Millis(schedule.dueAt.value) <= Millis(now) && Millis(schedule.now) <= Millis(now))
      && r in u.runs && u.runs[r].state == RunRetryScheduled
      && u.runs[r].conclusion == (if schedule.why == "" then None else Some(schedule.why))
      && r in v.runs
      && (Succeeds(u, ActivateRetry(schedule.claim.attempt, now)) ==>
            && v.runs[r].state == RunPending && v.runs[r].conclusion == None
            && schedule.claim.attempt in v.retries && v.retries[schedule.claim.attempt].state == TimerCompleted)
  {
  }

  /** Cancelling a waiting run cancels exactly its pending timers. */
  lemma CancelledRunsTimers(t: Tables, r: string, now: Instant, a: AttemptId)
    requires r in t.runs && (t.runs[r].state == RunPending || t.runs[r].state == RunRetryScheduled)
    ensures var u := Step(t, CancelPending(r, now));
      && (a in u.retries <==> a in t.retries)
      && (a in t.retries && a.runId == r && t.retries[a].state == TimerPending ==>
            u.retries[a] == t.retries[a].(state := TimerCancelled))
      && (a in t.retries && !(a.runId == r && t.retries[a].state == TimerPending) ==> u.retries[a] == t.retries[a])
  {
  }

  /** A run that waits for its first attempt or a retry is cancelled at once, and its
      timers never make it pending again. */
  lemma CancelledRunStays(t: Tables, r: string, now: Instant, h: History)
    requires Inv(t) && r in t.runs && (t.runs[r].state == RunPending || t.runs[r].state == RunRetryScheduled)
    ensures var u := Replay(Step(t, CancelPending(r, now)), h);
      && Ended(u, r) && u.runs[r].state == RunCancelled
      && u.runs[r].conclusion == Some("cancelled before next execution")
      && forall n :: !PendingRetry(u, r, n)
  {
    var u := Step(t, CancelPending(r, now));
    StepKeepsInv(t, CancelPending(r, now));
    EndedRunKeepsOutcome(u, h, r);
    ReplayKeepsInv(u, h);
    assert RunInv(Replay(u, h), r);
  }
}
