/** The run state machine: how the operations relate to the transitions the store
    declares. */
module RunTransitions {
  import opened Wrappers
  import opened Times
  import opened Strings
  import opened RunModel
  import opened RunInvariant

  /** runTransitions. */
  predicate Declared(from: RunState, to: RunState) {
    match from
    case RunPending => to == RunLeased || to == RunCancelled
    case RunLeased => to == RunPending || to == RunPreparing || to == RunCancelled || to == RunInterrupted
    case RunPreparing => to == RunRunning || to == RunFailed || to == RunCancelled || to == RunInterrupted
    case RunRunning =>
      to == RunWaitingForApproval || to == RunRetryScheduled || IsTerminal(to)
    case RunWaitingForApproval =>
      to == RunRunning || to == RunFailed || to == RunCancelled || to == RunInterrupted
    case RunRetryScheduled => to == RunPending || to == RunCancelled
    case _ => false
  }

  /** The two transitions that approvals make besides the declared ones: a run may be
      paused while it is still preparing, and then resumes preparing. */
  predicate PausesPreparing(t: Tables, op: Op, r: string) {
    op.Request? && op.claim.runId == r && r in t.runs && t.runs[r].state == RunPreparing
  }

  predicate ResumesPreparing(t: Tables, op: Op, r: string) {
    && op.Decide? && op.approvalId in t.approvals
    && t.approvals[op.approvalId].runId == r && t.approvals[op.approvalId].resumeState == RunPreparing
  }

  ghost predicate Follows(t: Tables, op: Op, r: string, to: RunState)
    requires r in t.runs
  {
    var from := t.runs[r].state;
    && (from == to || Declared(from, to) <==>
        !(Succeeds(t, op) && (PausesPreparing(t, op, r) || ResumesPreparing(t, op, r))))
    && (Succeeds(t, op) && PausesPreparing(t, op, r) ==> to == RunWaitingForApproval)
    && (Succeeds(t, op) && ResumesPreparing(t, op, r) ==> from == RunWaitingForApproval && to == RunPreparing)
    && (to == RunRetryScheduled && from != to ==> op.ScheduleRetry? && op.claim.runId == r && Succeeds(t, op))
    && (op.ScheduleRetry? && op.claim.runId == r && Succeeds(t, op) ==> from == RunRunning && to == RunRetryScheduled)
  }

  lemma RecoveryFollows(t: Tables, now: Instant, r: string)
    requires RunInv(t, r) && r in t.runs
    ensures Follows(t, Recover(now), r, AfterRecover(t, now).runs[r].state)
  {
  }

  lemma DecisionFollows(t: Tables, op: Op)
    requires op.Decide? && Succeeds(t, op) && RunInv(t, TouchedRun(t, op))
    ensures Follows(t, op, TouchedRun(t, op), After(t, op).runs[TouchedRun(t, op)].state)
  {
    assert PendingFor(t, op.approvalId, TouchedRun(t, op));
  }

  /** The operations of the worker that holds the lease. */
  lemma OwnerFollows(t: Tables, op: Op)
    requires op.Prepare? || op.Start? || op.Heartbeat? || op.Complete? || op.Request? || op.ScheduleRetry?
    requires Succeeds(t, op) && RunInv(t, op.claim.runId)
    ensures op.claim.runId in t.runs && op.claim.runId in After(t, op).runs
    ensures Follows(t, op, op.claim.runId, After(t, op).runs[op.claim.runId].state)
  {
    if op.Request? {
      PauseFollows(t, op);
    }
  }

  lemma PauseFollows(t: Tables, op: Op)
    requires op.Request? && Succeeds(t, op)
    ensures op.claim.runId in t.runs && op.claim.runId in After(t, op).runs
    ensures Follows(t, op, op.claim.runId, After(t, op).runs[op.claim.runId].state)
  {
  }

  lemma OwnRunFollows(t: Tables, op: Op)
    requires Succeeds(t, op) && !op.Recover? && !op.Decide? && !op.Enqueue?
    requires TouchedRun(t, op) in t.runs && RunInv(t, TouchedRun(t, op))
    ensures TouchedRun(t, op) in After(t, op).runs
    ensures Follows(t, op, TouchedRun(t, op), After(t, op).runs[TouchedRun(t, op)].state)
  {
    if op.Prepare? || op.Start? || op.Heartbeat? || op.Complete? || op.Request? || op.ScheduleRetry? {
      OwnerFollows(t, op);
    }
  }

  lemma OtherRunFollows(t: Tables, op: Op, r: string)
    requires Succeeds(t, op) && !op.Recover? && r != TouchedRun(t, op) && r in t.runs
    ensures r in After(t, op).runs && Follows(t, op, r, After(t, op).runs[r].state)
  {
    OtherRunsUnchanged(t, op, r);
  }

  /** Every operation moves a run along the declared transitions, or not at all,
      exactly unless it pauses a preparing run or resumes one paused so. */
  lemma StepFollowsTransitions(t: Tables, op: Op, r: string)
    requires Inv(t) && r in t.runs
    ensures r in Step(t, op).runs && Follows(t, op, r, Step(t, op).runs[r].state)
  {
    assert RunInv(t, r);
    if Succeeds(t, op) {
      if op.Recover? {
        RecoveryFollows(t, op.now, r);
      } else if r != TouchedRun(t, op) {
        OtherRunFollows(t, op, r);
      } else if op.Decide? {
        DecisionFollows(t, op);
      } else if !op.Enqueue? {
        OwnRunFollows(t, op);
      }
    }
  }

  /** A run appears pending or ended. */
  lemma NewRunIsFresh(t: Tables, op: Op, r: string)
    requires r !in t.runs && r in Step(t, op).runs
    ensures op.Enqueue? && FreshState(Step(t, op).runs[r].state)
  {
    if !op.Enqueue? {
      KeyKeptByStep(t, op, r);
    }
  }
}
