/** What holds over every history of the modelled store operations, retries, pinning
    and pruning among them, in any order and with any arguments, stale and forged
    claims included. */
module RunHistory {
  import opened Wrappers
  import opened Times
  import opened Strings
  import opened RunModel
  import opened RunInvariant
  import opened RunTransitions

  type History = seq<Op>

  ghost function Replay(t: Tables, h: History): Tables
    decreases |h|
  {
    if h == [] then t else Replay(Step(t, h[0]), h[1..])
  }

  lemma {:induction false} ReplayKeepsInv(t: Tables, h: History)
    requires Inv(t)
    ensures Inv(Replay(t, h))
    decreases |h|
  {
    if h != [] {
      StepKeepsInv(t, h[0]);
      ReplayKeepsInv(Step(t, h[0]), h[1..]);
    }
  }

  lemma {:induction false} ReplayAppend(t: Tables, h: History, op: Op)
    ensures Replay(t, h + [op]) == Step(Replay(t, h), op)
    decreases |h|
  {
    var more := h + [op];
    if h == [] {
      assert Replay(Step(t, op), []) == Step(t, op);
      assert more[1..] == [];
    } else {
      assert more[0] == h[0] && more[1..] == h[1..] + [op];
      ReplayAppend(Step(t, h[0]), h[1..], op);
    }
  }

  // ---- Terminal runs --------------------------------------------------------

  predicate Ended(t: Tables, r: string) {
    r in t.runs && IsTerminal(t.runs[r].state)
  }

  /** Everything of a run but its pin and the marks that pinning and pruning leave. */
  predicate SameOutcome(a: Run, b: Run) {
    a == b.(updatedAt := a.updatedAt, pinned := a.pinned, prunedAt := a.prunedAt)
  }

  lemma EndedRunKeptByStep(t: Tables, op: Op, r: string)
    requires Inv(t) && Ended(t, r)
    ensures Ended(Step(t, op), r) && SameOutcome(Step(t, op).runs[r], t.runs[r])
    ensures !(op.Pin? && op.runId == r) && !(op.Prune? && op.runId == r) ==> Step(t, op).runs[r] == t.runs[r]
  {
    assert RunInv(t, r);
    if Succeeds(t, op) && !op.Recover? {
      if r == TouchedRun(t, op) {
        EndedRunTouched(t, op);
      } else {
        OtherRunsUnchanged(t, op, r);
      }
    }
  }

  lemma EndedRunTouched(t: Tables, op: Op)
    requires Succeeds(t, op) && !op.Recover? && Ended(t, TouchedRun(t, op)) && RunInv(t, TouchedRun(t, op))
    ensures TouchedRun(t, op) in After(t, op).runs
    ensures SameOutcome(After(t, op).runs[TouchedRun(t, op)], t.runs[TouchedRun(t, op)])
    ensures !op.Pin? && !op.Prune? ==> After(t, op).runs[TouchedRun(t, op)] == t.runs[TouchedRun(t, op)]
  {
  }

  /** Terminal states are absorbing: an ended run keeps its state, conclusion and
      everything else but its pin and the time it was last touched or pruned. */
  lemma {:induction false} EndedRunKeepsOutcome(t: Tables, h: History, r: string)
    requires Inv(t) && Ended(t, r)
    ensures Ended(Replay(t, h), r) && SameOutcome(Replay(t, h).runs[r], t.runs[r])
    decreases |h|
  {
    if h != [] {
      StepKeepsInv(t, h[0]);
      EndedRunKeptByStep(t, h[0], r);
      EndedRunKeepsOutcome(Step(t, h[0]), h[1..], r);
    }
  }

  // ---- Approvals ------------------------------------------------------------

  /** Everything of an approval but its decision. */
  predicate SameQuestion(a: Approval, b: Approval) {
    && a.runId == b.runId && a.attempt == b.attempt && a.kind == b.kind && a.scope == b.scope
    && a.summary == b.summary && a.resumeState == b.resumeState && a.requestedAt == b.requestedAt
  }

  lemma ApprovalKeptByStep(t: Tables, op: Op, id: string)
    requires id in t.approvals
    ensures id in Step(t, op).approvals && SameQuestion(t.approvals[id], Step(t, op).approvals[id])
    ensures t.approvals[id].state != ApprovalPending ==> Step(t, op).approvals[id] == t.approvals[id]
  {
  }

  /** An approval row is never deleted or rewritten, and once it is approved, denied
      or cancelled it never changes at all. */
  lemma {:induction false} DecidedApprovalNeverChanges(t: Tables, h: History, id: string)
    requires id in t.approvals
    ensures id in Replay(t, h).approvals && SameQuestion(t.approvals[id], Replay(t, h).approvals[id])
    ensures t.approvals[id].state != ApprovalPending ==> Replay(t, h).approvals[id] == t.approvals[id]
    decreases |h|
  {
    if h != [] {
      ApprovalKeptByStep(t, h[0], id);
      DecidedApprovalNeverChanges(Step(t, h[0]), h[1..], id);
    }
  }

  predicate Unanswered(a: Approval) {
    a.state == ApprovalPending || a.state == ApprovalCancelled
  }

  lemma NoAnswerStep(t: Tables, op: Op, id: string)
    requires Inv(t) && id in t.approvals && Unanswered(t.approvals[id]) && Ended(t, t.approvals[id].runId)
    ensures id in Step(t, op).approvals && Unanswered(Step(t, op).approvals[id])
    ensures Step(t, op).approvals[id].runId == t.approvals[id].runId
  {
    ApprovalKeptByStep(t, op, id);
    NoDecisionAfterTheEnd(t, op, id);
  }

  /** What a step leaves of the state of an approval of an ended run. */
  lemma NoDecisionAfterTheEnd(t: Tables, op: Op, id: string)
    requires id in t.approvals && Unanswered(t.approvals[id]) && Ended(t, t.approvals[id].runId)
    ensures id in Step(t, op).approvals && Unanswered(Step(t, op).approvals[id])
  {
  }

  /** An approval left pending on an ended run can afterwards only be cancelled. */
  lemma {:induction false} NoAnswerAfterTheEnd(t: Tables, h: History, id: string)
    requires Inv(t) && id in t.approvals && Unanswered(t.approvals[id]) && Ended(t, t.approvals[id].runId)
    ensures id in Replay(t, h).approvals && Unanswered(Replay(t, h).approvals[id])
    decreases |h|
  {
    if h != [] {
      StepKeepsInv(t, h[0]);
      EndedRunKeptByStep(t, h[0], t.approvals[id].runId);
      NoAnswerStep(t, h[0], id);
      NoAnswerAfterTheEnd(Step(t, h[0]), h[1..], id);
    }
  }

  /** However much happens in between, a decision puts the run back into the state
      it was paused in. */
  lemma ResumeRestoresPausedState(t: Tables, request: Op, h: History, decide: Op)
    requires Inv(t) && request.Request? && Succeeds(t, request)
    requires decide.Decide? && decide.approvalId == TrimSpace(request.approvalId)
    requires Succeeds(Replay(Step(t, request), h), decide)
    ensures var r := request.claim.runId;
      && r in t.runs && r in Step(Replay(Step(t, request), h), decide).runs
      && Step(Replay(Step(t, request), h), decide).runs[r].state == t.runs[r].state
  {
    DecidedApprovalNeverChanges(Step(t, request), h, decide.approvalId);
  }

  /** The run waits and no approval is left that could resume it. */
  ghost predicate Stranded(t: Tables, r: string) {
    r in t.runs && t.runs[r].state == RunWaitingForApproval && forall id :: !PendingFor(t, id, r)
  }

  /** Cancelling the pending approval of a waiting run strands the run. */
  lemma CancelApprovalStrands(t: Tables, op: Op)
    requires Inv(t) && op.CancelApproval? && Succeeds(t, op)
    requires t.approvals[op.approvalId].runId in t.runs
    requires t.runs[t.approvals[op.approvalId].runId].state == RunWaitingForApproval
    ensures Stranded(Step(t, op), t.approvals[op.approvalId].runId)
  {
    var r := t.approvals[op.approvalId].runId;
    assert RunInv(t, r) && PendingFor(t, op.approvalId, r);
    forall id ensures !PendingFor(Step(t, op), id, r) {
      assert PendingFor(t, id, r) ==> id == op.approvalId;
    }
  }

  /** Only a request of a running or preparing run gives it a pending approval. */
  lemma NoNewPending(t: Tables, op: Op, id: string, r: string)
    requires r in t.runs && !IsActive(t.runs[r].state) && !PendingFor(t, id, r)
    ensures !PendingFor(Step(t, op), id, r)
  {
  }

  lemma StrandedStep(t: Tables, op: Op, r: string)
    requires Inv(t) && Stranded(t, r)
    ensures Stranded(Step(t, op), r) || Ended(Step(t, op), r)
  {
    var u := Step(t, op);
    forall id ensures !PendingFor(u, id, r) {
      NoNewPending(t, op, id, r);
    }
    StepFollowsTransitions(t, op, r);
    WaitingRunLeftByDecision(t, op, r);
  }

  /** A waiting run whose state changes has ended, or a pending approval of it was
      decided. */
  lemma WaitingRunLeftByDecision(t: Tables, op: Op, r: string)
    requires Inv(t) && r in t.runs && t.runs[r].state == RunWaitingForApproval
    ensures r in Step(t, op).runs
    ensures Step(t, op).runs[r].state == RunWaitingForApproval || Ended(Step(t, op), r)
         || (op.Decide? && PendingFor(t, op.approvalId, r))
  {
    assert RunInv(t, r);
    if Succeeds(t, op) && !op.Recover? && r != TouchedRun(t, op) {
      OtherRunsUnchanged(t, op, r);
    }
  }

  /** A stranded run never prepares or runs again: it waits until it is completed or
      its lease expires. */
  lemma {:induction false} StrandedRunNeverResumes(t: Tables, h: History, r: string)
    requires Inv(t) && (Stranded(t, r) || Ended(t, r))
    ensures Stranded(Replay(t, h), r) || Ended(Replay(t, h), r)
    decreases |h|
  {
    if h != [] {
      StepKeepsInv(t, h[0]);
      if Ended(t, r) {
        EndedRunKeptByStep(t, h[0], r);
      } else {
        StrandedStep(t, h[0], r);
      }
      StrandedRunNeverResumes(Step(t, h[0]), h[1..], r);
    }
  }

  // ---- Starting -------------------------------------------------------------

  predicate EverPrepared(t: Tables, r: string) {
    r in t.runs && t.runs[r].state != RunPending && t.runs[r].state != RunLeased
  }

  predicate RetryWaiting(t: Tables, r: string) {
    r in t.runs && t.runs[r].state == RunRetryScheduled
  }

  ghost predicate Schedules(t: Tables, op: Op, r: string) {
    op.ScheduleRetry? && op.claim.runId == r && Succeeds(t, op)
  }

  /** How often a retry of the run is scheduled. */
  ghost function Schedulings(t: Tables, h: History, r: string): nat
    decreases |h|
  {
    if h == [] then 0
    else (if Schedules(t, h[0], r) then 1 else 0) + Schedulings(Step(t, h[0]), h[1..], r)
  }

  ghost predicate Requeued(t: Tables, op: Op, r: string) {
    EverPrepared(t, r) && !EverPrepared(Step(t, op), r)
  }

  /** How often the run returns to pending or leased after it was prepared. */
  ghost function Requeues(t: Tables, h: History, r: string): nat
    decreases |h|
  {
    if h == [] then 0
    else (if Requeued(t, h[0], r) then 1 else 0) + Requeues(Step(t, h[0]), h[1..], r)
  }

  /** What the transition table says about requeuing. */
  lemma RequeueFollows(t: Tables, op: Op, r: string, u: Tables)
    requires r in t.runs && r in u.runs && Follows(t, op, r, u.runs[r].state)
    ensures EverPrepared(t, r) && !EverPrepared(u, r) ==> RetryWaiting(t, r) && !Schedules(t, op, r)
    ensures RetryWaiting(u, r) ==> RetryWaiting(t, r) || Schedules(t, op, r)
    ensures Schedules(t, op, r) ==> !RetryWaiting(t, r)
  {
  }

  lemma MissingRunNotRequeued(t: Tables, op: Op, r: string)
    requires r !in t.runs
    ensures !RetryWaiting(Step(t, op), r) && !Schedules(t, op, r)
  {
    if r in Step(t, op).runs {
      NewRunIsFresh(t, op, r);
    }
  }

  lemma RequeueStep(t: Tables, op: Op, r: string)
    requires Inv(t)
    ensures Requeued(t, op, r) ==> RetryWaiting(t, r) && !RetryWaiting(Step(t, op), r) && !Schedules(t, op, r)
    ensures RetryWaiting(Step(t, op), r) ==> RetryWaiting(t, r) || Schedules(t, op, r)
    ensures Schedules(t, op, r) ==> !RetryWaiting(t, r)
  {
    if r in t.runs {
      StepFollowsTransitions(t, op, r);
      RequeueFollows(t, op, r, Step(t, op));
    } else {
      MissingRunNotRequeued(t, op, r);
    }
  }

  /** A run that was ever prepared returns to pending or leased at most once for each
      retry that is scheduled, the one it may be waiting for included. */
  lemma {:induction false} RequeuedOncePerRetry(t: Tables, h: History, r: string)
    requires Inv(t)
    ensures Requeues(t, h, r) <= Schedulings(t, h, r) + if RetryWaiting(t, r) then 1 else 0
    decreases |h|
  {
    if h != [] {
      StepKeepsInv(t, h[0]);
      RequeueStep(t, h[0], r);
      RequeuedOncePerRetry(Step(t, h[0]), h[1..], r);
    }
  }

  /** Without a retry a run that was ever prepared never returns to pending or leased. */
  lemma {:induction false} PreparedRunNeverRequeued(t: Tables, h: History, r: string)
    requires Inv(t) && EverPrepared(t, r) && !RetryWaiting(t, r) && Schedulings(t, h, r) == 0
    ensures EverPrepared(Replay(t, h), r)
    decreases |h|
  {
    if h != [] {
      StepKeepsInv(t, h[0]);
      RequeueStep(t, h[0], r);
      PreparedRunNeverRequeued(Step(t, h[0]), h[1..], r);
    }
  }

  /** With one it does: activating a scheduled retry at its due time or later makes
      the run pending again and finishes the timer. */
  lemma RetryRequeues(t: Tables, schedule: Op, now: Instant)
    requires Inv(t) && schedule.ScheduleRetry? && Succeeds(t, schedule)
    requires Millis(schedule.dueAt.value) <= Millis(now) && Millis(schedule.now) <= Millis(now)
    ensures var u := Step(t, schedule);
      var v := Step(u, ActivateRetry(schedule.claim.attempt, now));
      && EverPrepared(u, schedule.claim.runId)
      && schedule.claim.runId in v.runs && v.runs[schedule.claim.runId].state == RunPending
      && !IsPendingRetry(v, schedule.claim.attempt)
  {
  }

  /** The run has not been started since it was last queued, and has not ended. */
  ghost predicate MayStart(t: Tables, r: string) {
    || r !in t.runs
    || t.runs[r].state == RunPending || t.runs[r].state == RunLeased || t.runs[r].state == RunPreparing
    || t.runs[r].state == RunRetryScheduled
    || (t.runs[r].state == RunWaitingForApproval
        && exists n :: ActiveAttempt(t, r, n) && t.attempts[AttemptId(r, n)].state == RunPreparing)
  }

  predicate StartsRun(op: Op, r: string) {
    op.Start? && op.claim.runId == r
  }

  lemma StartUsesUpMayStart(t: Tables, op: Op, r: string)
    requires Inv(t) && StartsRun(op, r) && Succeeds(t, op)
    ensures MayStart(t, r) && !MayStart(Step(t, op), r)
  {
  }

  lemma ScheduledRunHasStarted(t: Tables, op: Op, r: string)
    requires Schedules(t, op, r)
    ensures !MayStart(t, r)
  {
  }

  lemma UnfinishedRunHasAttempt(t: Tables, r: string) returns (n: int)
    requires Inv(t) && !MayStart(t, r) && !Ended(t, r)
    ensures ActiveAttempt(t, r, n) && t.attempts[AttemptId(r, n)].state == RunRunning
  {
    assert RunInv(t, r);
    n :| ActiveAttempt(t, r, n);
  }

  /** A new attempt is that of a run just claimed. */
  lemma NewAttemptIsClaimed(t: Tables, op: Op, a: AttemptId)
    requires a !in t.attempts && a in Step(t, op).attempts
    ensures a.runId in Step(t, op).runs && Step(t, op).runs[a.runId].state == RunLeased
  {
  }

  /** The states a started run can be in after a step that schedules no retry. */
  lemma StartedRunGoesOn(t: Tables, op: Op, r: string, n: int)
    requires Inv(t) && !MayStart(t, r) && !Ended(t, r) && !Schedules(t, op, r)
    requires ActiveAttempt(t, r, n) && t.attempts[AttemptId(r, n)].state == RunRunning
    ensures Ended(Step(t, op), r)
      || (r in Step(t, op).runs && Step(t, op).runs[r].state in {RunRunning, RunWaitingForApproval})
  {
    assert RunInv(t, r);
    StepFollowsTransitions(t, op, r);
    if Succeeds(t, op) && ResumesPreparing(t, op, r) {
      assert PendingFor(t, op.approvalId, r);
    }
  }

  lemma NoAttemptPreparing(t: Tables, op: Op, r: string, n: int, m: int)
    requires Inv(t) && ActiveAttempt(t, r, n) && t.attempts[AttemptId(r, n)].state == RunRunning
    requires r in Step(t, op).runs && Step(t, op).runs[r].state == RunWaitingForApproval
    requires ActiveAttempt(Step(t, op), r, m)
    ensures Step(t, op).attempts[AttemptId(r, m)].state == RunRunning
  {
    assert RunInv(t, r);
    if AttemptId(r, m) in t.attempts {
      AttemptStep(t, op, AttemptId(r, m));
      assert ActiveAttempt(t, r, m) ==> m == n;
    } else {
      NewAttemptIsClaimed(t, op, AttemptId(r, m));
    }
  }

  lemma MayStartStep(t: Tables, op: Op, r: string)
    requires Inv(t) && !MayStart(t, r) && !Schedules(t, op, r)
    ensures !MayStart(Step(t, op), r)
  {
    if Ended(t, r) {
      EndedRunKeptByStep(t, op, r);
    } else {
      var n := UnfinishedRunHasAttempt(t, r);
      StartedRunGoesOn(t, op, r, n);
      StartedAttemptGoesOn(t, op, r, n, Step(t, op));
    }
  }

  lemma StartedAttemptGoesOn(t: Tables, op: Op, r: string, n: int, u: Tables)
    requires Inv(t) && ActiveAttempt(t, r, n) && t.attempts[AttemptId(r, n)].state == RunRunning && u == Step(t, op)
    requires Ended(u, r) || (r in u.runs && (u.runs[r].state == RunRunning || u.runs[r].state == RunWaitingForApproval))
    ensures !MayStart(u, r)
  {
    if u.runs[r].state == RunWaitingForApproval {
      forall m | ActiveAttempt(u, r, m) ensures u.attempts[AttemptId(r, m)].state == RunRunning {
        NoAttemptPreparing(t, op, r, n, m);
      }
    }
  }

  ghost function Starts(t: Tables, h: History, r: string): nat
    decreases |h|
  {
    if h == [] then 0
    else (if StartsRun(h[0], r) && Succeeds(t, h[0]) then 1 else 0) + Starts(Step(t, h[0]), h[1..], r)
  }

  /** Over any history StartAttempt succeeds for a run at most once more than retries
      of the run are scheduled, and not once more when it has started or ended. */
  lemma {:induction false} StartedOncePerRetry(t: Tables, h: History, r: string)
    requires Inv(t)
    ensures Starts(t, h, r) <= Schedulings(t, h, r) + if MayStart(t, r) then 1 else 0
    decreases |h|
  {
    if h != [] {
      StepKeepsInv(t, h[0]);
      StartedOncePerRetry(Step(t, h[0]), h[1..], r);
      if StartsRun(h[0], r) && Succeeds(t, h[0]) {
        StartUsesUpMayStart(t, h[0], r);
      } else if Schedules(t, h[0], r) {
        ScheduledRunHasStarted(t, h[0], r);
      } else if !MayStart(t, r) {
        MayStartStep(t, h[0], r);
      }
    }
  }

  predicate StartsAttempt(op: Op, a: AttemptId) {
    op.Start? && op.claim.attempt == a
  }

  ghost function AttemptStarts(t: Tables, h: History, a: AttemptId): nat
    decreases |h|
  {
    if h == [] then 0
    else (if StartsAttempt(h[0], a) && Succeeds(t, h[0]) then 1 else 0) + AttemptStarts(Step(t, h[0]), h[1..], a)
  }

  predicate AttemptMayStart(t: Tables, a: AttemptId) {
    a in t.attempts ==> t.attempts[a].state == RunPreparing
  }

  lemma AttemptStep(t: Tables, op: Op, a: AttemptId)
    requires a in t.attempts
    ensures a in Step(t, op).attempts
    ensures t.attempts[a].state != RunPreparing ==> Step(t, op).attempts[a].state != RunPreparing
    ensures StartsAttempt(op, a) && Succeeds(t, op) ==> AttemptMayStart(t, a) && !AttemptMayStart(Step(t, op), a)
  {
    if Succeeds(t, op) && op.ClaimNext? {
      NewAttemptIsNew(t, OldestClaimable(t, op.harnesses, op.now));
    }
  }

  lemma NewAttemptIsNew(t: Tables, r: string)
    ensures AttemptId(r, MaxNumber(t, r) + 1) !in t.attempts
  {
    assert IsMaxNumber(t, r, MaxNumber(t, r));
  }

  /** Retries or not, no attempt is started twice. */
  lemma {:induction false} AttemptStartedAtMostOnce(t: Tables, h: History, a: AttemptId)
    ensures AttemptStarts(t, h, a) <= if AttemptMayStart(t, a) then 1 else 0
    decreases |h|
  {
    if h != [] {
      AttemptStartedAtMostOnce(Step(t, h[0]), h[1..], a);
      if a in t.attempts {
        AttemptStep(t, h[0], a);
      }
    }
  }

  // ---- Fencing --------------------------------------------------------------

  predicate Finished(t: Tables, a: AttemptId) {
    a in t.attempts && !IsActive(t.attempts[a].state)
  }

  /** Everything of an attempt but its result. */
  predicate SameEnding(a: Attempt, b: Attempt) {
    a == b.(result := a.result)
  }

  /** What may become of a finished attempt: its log is pruned once its run ended. */
  predicate KeptOrPruned(t: Tables, a: AttemptId, before: Attempt) {
    && a in t.attempts && SameEnding(t.attempts[a], before)
    && (|| t.attempts[a].result == before.result
        || (t.attempts[a].result == StripLog(before.result) && Ended(t, a.runId)))
  }

  lemma FinishedKeptByStep(t: Tables, op: Op, a: AttemptId)
    requires Inv(t) && Finished(t, a)
    ensures Finished(Step(t, op), a) && KeptOrPruned(Step(t, op), a, t.attempts[a])
    ensures !(op.Prune? && op.runId == a.runId) ==> Step(t, op).attempts[a] == t.attempts[a]
  {
    if Succeeds(t, op) && op.ClaimNext? {
      NewAttemptIsNew(t, OldestClaimable(t, op.harnesses, op.now));
    }
  }

  lemma KeptOrPrunedKept(t: Tables, op: Op, a: AttemptId, before: Attempt)
    requires Inv(t) && Finished(t, a) && KeptOrPruned(t, a, before)
    ensures KeptOrPruned(Step(t, op), a, before)
  {
    FinishedKeptByStep(t, op, a);
    if Ended(t, a.runId) {
      EndedRunKeptByStep(t, op, a.runId);
    }
  }

  lemma {:induction false} FinishedSince(t: Tables, h: History, a: AttemptId, before: Attempt)
    requires Inv(t) && Finished(t, a) && KeptOrPruned(t, a, before)
    ensures Finished(Replay(t, h), a) && KeptOrPruned(Replay(t, h), a, before)
    decreases |h|
  {
    if h != [] {
      StepKeepsInv(t, h[0]);
      FinishedKeptByStep(t, h[0], a);
      KeptOrPrunedKept(t, h[0], a, before);
      FinishedSince(Step(t, h[0]), h[1..], a, before);
    }
  }

  /** A finished attempt keeps its state, worker, process and times forever, and its
      result too, except that the log entry is pruned from it once its run ended. */
  lemma FinishedAttemptKeepsEnding(t: Tables, h: History, a: AttemptId)
    requires Inv(t) && Finished(t, a)
    ensures Finished(Replay(t, h), a) && KeptOrPruned(Replay(t, h), a, t.attempts[a])
  {
    FinishedSince(t, h, a, t.attempts[a]);
  }

  /** A finished attempt is fenced for good: whoever holds the run's lease later, no
      start, completion or retry carrying that attempt succeeds. */
  lemma FinishedAttemptFenced(t: Tables, h: History, op: Op)
    requires Inv(t) && (op.Start? || op.Complete? || op.ScheduleRetry?) && Finished(t, op.claim.attempt)
    ensures !Succeeds(Replay(t, h), op)
  {
    FinishedAttemptKeepsEnding(t, h, op.claim.attempt);
  }

  /** Recovery, completion and a retry finish the attempt they are about. */
  lemma AttemptFinishedBy(t: Tables, op: Op, a: AttemptId)
    requires Inv(t) && a in t.attempts && Succeeds(t, op)
    requires (op.Recover? && Expired(t, a.runId, op.now))
          || ((op.Complete? || op.ScheduleRetry?) && op.claim.attempt == a)
    ensures Finished(Step(t, op), a)
  {
  }

  /** A claim made stale by recovery never starts, completes or retries anything, even
      when the same owner name claims the run again. */
  lemma StaleClaimFenced(t: Tables, recovery: Op, h: History, op: Op)
    requires Inv(t) && recovery.Recover? && (op.Start? || op.Complete? || op.ScheduleRetry?)
    requires op.claim.attempt in t.attempts && Expired(t, op.claim.attempt.runId, recovery.now)
    ensures !Succeeds(Replay(Step(t, recovery), h), op)
  {
    StepKeepsInv(t, recovery);
    AttemptFinishedBy(t, recovery, op.claim.attempt);
    FinishedAttemptFenced(Step(t, recovery), h, op);
  }

  /** The lease check reads the run and the owner only, so preparing and heartbeating
      do not tell a stale claim from the current one of the same owner. */
  lemma AttemptNotFenced(t: Tables, claim: Claim, stale: AttemptId, now: Instant, ttl: Duration)
    ensures Step(t, Prepare(claim, now)) == Step(t, Prepare(claim.(attempt := stale), now))
    ensures Step(t, Heartbeat(claim, now, ttl)) == Step(t, Heartbeat(claim.(attempt := stale), now, ttl))
  {
  }

  // ---- Claiming -------------------------------------------------------------

  /** Under the invariant a claim is found exactly when a pending run with an allowed
      harness and an available workspace exists, and what it takes is the oldest
      such run; the rows of every other run stay as they are. */
  lemma ClaimTakesTheOldest(t: Tables, op: Op)
    requires Inv(t) && op.ClaimNext?
    ensures Succeeds(t, op) <==>
      TrimSpace(op.worker) != "" && op.ttl > 0 && exists r :: Claimable(t, r, op.harnesses, op.now)
    ensures Succeeds(t, op) ==>
      exists r :: IsOldestClaimable(t, r, op.harnesses, op.now)
        && Step(t, op).runs[r].state == RunLeased
        && ActiveAttempt(Step(t, op), r, MaxNumber(t, r) + 1)
        && forall s :: s != r ==> SameRun(t, Step(t, op), s)
  {
    ClaimSucceedsExactly(t, op);
    if Succeeds(t, op) {
      ClaimedRun(t, op, OldestClaimable(t, op.harnesses, op.now));
    }
  }

  /** A claimable run has no lease, so nothing stands in the way of the oldest one. */
  lemma ClaimSucceedsExactly(t: Tables, op: Op)
    requires Inv(t) && op.ClaimNext?
    ensures Succeeds(t, op) <==>
      TrimSpace(op.worker) != "" && op.ttl > 0 && exists r :: Claimable(t, r, op.harnesses, op.now)
  {
    if SomeClaimable(t, op.harnesses, op.now) {
      assert RunInv(t, OldestClaimable(t, op.harnesses, op.now));
    }
  }

  lemma ClaimedRun(t: Tables, op: Op, r: string)
    requires op.ClaimNext? && Succeeds(t, op) && r == OldestClaimable(t, op.harnesses, op.now)
    ensures r in Step(t, op).runs && Step(t, op).runs[r].state == RunLeased
    ensures ActiveAttempt(Step(t, op), r, MaxNumber(t, r) + 1)
    ensures forall s :: s != r ==> SameRun(t, Step(t, op), s)
  {
    forall s | s != r ensures SameRun(t, Step(t, op), s) {
      OtherRunsUnchanged(t, op, s);
    }
  }
}
