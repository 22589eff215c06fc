/** Where the rows come from: which operation answered an approval, ended a run or
    finished an attempt, and that nothing else does. */
module RunCauses {
  import opened Wrappers
  import opened Times
  import opened Strings
  import opened RunModel
  import opened RunInvariant
  import opened RunHistory

  // ---- Approvals ------------------------------------------------------------

  /** The operation gives the approval `id` this answer. */
  predicate Answers(op: Op, id: string, answer: ApprovalState) {
    match answer
    case ApprovalApproved => op.Decide? && op.approvalId == id && op.decision == ApprovalApproved
    case ApprovalDenied => op.Decide? && op.approvalId == id && op.decision == ApprovalDenied
    case ApprovalCancelled => op.CancelApproval? && op.approvalId == id
    case _ => false
  }

  /** The answer with its time and reason. */
  predicate Recorded(a: Approval, answer: ApprovalState, now: Instant, reason: string) {
    && a.state == answer && a.decidedAt == Some(Millis(now))
    && a.reason == if reason == "" then None else Some(reason)
  }

  /** A pending approval gets an answer exactly from an operation that gives it that
      answer, which is recorded with the operation's time and reason. */
  lemma ApprovalAnsweredExactly(t: Tables, op: Op, id: string, answer: ApprovalState)
    requires id in t.approvals && t.approvals[id].state == ApprovalPending && answer != ApprovalPending
    ensures id in Step(t, op).approvals
    ensures Step(t, op).approvals[id].state == answer <==> Answers(op, id, answer) && Succeeds(t, op)
    ensures Step(t, op).approvals[id].state == answer ==>
      Recorded(Step(t, op).approvals[id], answer, op.now, op.reason)
  {
    if !op.Decide? && !op.CancelApproval? {
      UnansweredStays(t, op, id);
    }
  }

  lemma UnansweredStays(t: Tables, op: Op, id: string)
    requires id in t.approvals && !op.Decide? && !op.CancelApproval?
    ensures id in Step(t, op).approvals && Step(t, op).approvals[id].state == t.approvals[id].state
  {
  }

  /** An approval appears pending, with the question its request asked. */
  lemma ApprovalAskedBy(t: Tables, op: Op, id: string)
    requires id !in t.approvals && id in Step(t, op).approvals
    ensures op.Request? && Succeeds(t, op) && id == TrimSpace(op.approvalId)
    ensures var a := Step(t, op).approvals[id];
      && a.state == ApprovalPending && a.decidedAt == None && a.reason == None
      && a.runId == op.claim.runId && a.attempt == op.claim.attempt
      && a.kind == TrimSpace(op.kind) && a.scope == op.scope && a.summary == TrimSpace(op.summary)
      && a.requestedAt == Millis(op.now)
  {
  }

  /** Along the history the approval was given this answer. */
  ghost predicate AnsweredIn(t: Tables, h: History, id: string, answer: ApprovalState)
    decreases |h|
  {
    h != [] && ((Answers(h[0], id, answer) && Succeeds(t, h[0])) || AnsweredIn(Step(t, h[0]), h[1..], id, answer))
  }

  /** No answer comes from nowhere: an approval that was pending, or not asked yet, is
      approved, denied or cancelled after a history exactly if some operation of the
      history gave it that answer. */
  lemma {:induction false} AnsweredExactly(t: Tables, h: History, id: string, answer: ApprovalState)
    requires id in t.approvals ==> t.approvals[id].state == ApprovalPending
    requires answer != ApprovalPending
    ensures id in Replay(t, h).approvals && Replay(t, h).approvals[id].state == answer <==> AnsweredIn(t, h, id, answer)
    decreases |h|
  {
    if h != [] {
      var u := Step(t, h[0]);
      if id !in t.approvals {
        if id in u.approvals {
          ApprovalAskedBy(t, h[0], id);
        }
        AnsweredExactly(u, h[1..], id, answer);
      } else {
        ApprovalAnsweredExactly(t, h[0], id, answer);
        ApprovalKeptByStep(t, h[0], id);
        if u.approvals[id].state == ApprovalPending {
          AnsweredExactly(u, h[1..], id, answer);
        } else {
          DecidedApprovalNeverChanges(u, h[1..], id);
          NeverAnsweredAgain(u, h[1..], id, answer);
        }
      }
    }
  }

  lemma {:induction false} NeverAnsweredAgain(t: Tables, h: History, id: string, answer: ApprovalState)
    requires id in t.approvals && t.approvals[id].state != ApprovalPending
    ensures !AnsweredIn(t, h, id, answer)
    decreases |h|
  {
    if h != [] {
      ApprovalKeptByStep(t, h[0], id);
      NeverAnsweredAgain(Step(t, h[0]), h[1..], id, answer);
    }
  }

  // ---- The ends of runs -----------------------------------------------------

  /** The operation ends the run in this state with this conclusion. */
  ghost predicate Ends(t: Tables, op: Op, r: string, state: RunState, conclusion: Option<string>)
    requires r in t.runs
  {
    || (op.Complete? && op.claim.runId == r && state == op.state
        && conclusion == if op.conclusion == "" then None else Some(op.conclusion))
    || (op.CancelPending? && op.runId == r && state == RunCancelled
        && conclusion == Some("cancelled before next execution"))
    || (op.Recover? && r in t.leases && t.leases[r].expiresAt <= Millis(op.now) && t.runs[r].state != RunLeased
        && state == RunInterrupted && conclusion == t.runs[r].conclusion)
  }

  /** A run ends exactly by an operation that ends it, in the state and with the
      conclusion that the operation gives it: the worker's word, a cancellation, or an
      interruption when its lease expired after it was prepared. */
  lemma RunEndedExactly(t: Tables, op: Op, r: string, state: RunState, conclusion: Option<string>)
    requires Inv(t) && r in t.runs && !IsTerminal(t.runs[r].state) && IsTerminal(state)
    ensures r in Step(t, op).runs
    ensures Step(t, op).runs[r].state == state && Step(t, op).runs[r].conclusion == conclusion <==>
      Succeeds(t, op) && Ends(t, op, r, state, conclusion)
  {
    if Succeeds(t, op) {
      assert RunInv(t, r);
      EndedBySuccess(t, op, r, state, conclusion);
    }
  }

  lemma EndedBySuccess(t: Tables, op: Op, r: string, state: RunState, conclusion: Option<string>)
    requires RunInv(t, r) && r in t.runs && !IsTerminal(t.runs[r].state) && IsTerminal(state) && Succeeds(t, op)
    ensures r in After(t, op).runs
    ensures After(t, op).runs[r].state == state && After(t, op).runs[r].conclusion == conclusion <==>
      Ends(t, op, r, state, conclusion)
  {
    if op.Recover? {
      EndsRecovered(t, op, r, state, conclusion);
    } else if r == TouchedRun(t, op) {
      EndsTouched(t, op, state, conclusion);
    } else {
      EndsNoOther(t, op, r, state, conclusion);
    }
  }

  lemma EndsRecovered(t: Tables, op: Op, r: string, state: RunState, conclusion: Option<string>)
    requires op.Recover? && r in t.runs && RunInv(t, r) && !IsTerminal(t.runs[r].state) && IsTerminal(state)
    ensures r in After(t, op).runs
    ensures After(t, op).runs[r].state == state && After(t, op).runs[r].conclusion == conclusion <==>
      Ends(t, op, r, state, conclusion)
  {
  }

  lemma EndsNoOther(t: Tables, op: Op, r: string, state: RunState, conclusion: Option<string>)
    requires Succeeds(t, op) && !op.Recover? && r != TouchedRun(t, op) && r in t.runs
    ensures r in After(t, op).runs && After(t, op).runs[r] == t.runs[r] && !Ends(t, op, r, state, conclusion)
  {
    OtherRunsUnchanged(t, op, r);
  }

  lemma EndsTouched(t: Tables, op: Op, state: RunState, conclusion: Option<string>)
    requires Succeeds(t, op) && !op.Recover? && IsTerminal(state)
    requires TouchedRun(t, op) in t.runs && RunInv(t, TouchedRun(t, op))
    requires !IsTerminal(t.runs[TouchedRun(t, op)].state)
    ensures var r := TouchedRun(t, op);
      && r in After(t, op).runs
      && (After(t, op).runs[r].state == state && After(t, op).runs[r].conclusion == conclusion <==>
            Ends(t, op, r, state, conclusion))
  {
    if !op.Complete? && !op.CancelPending? {
      EndsNothing(t, op, state, conclusion);
    }
  }

  lemma EndsNothing(t: Tables, op: Op, state: RunState, conclusion: Option<string>)
    requires Succeeds(t, op) && !op.Recover? && !op.Complete? && !op.CancelPending?
    requires TouchedRun(t, op) in t.runs && RunInv(t, TouchedRun(t, op))
    requires !IsTerminal(t.runs[TouchedRun(t, op)].state)
    ensures var r := TouchedRun(t, op);
      && r in After(t, op).runs && !IsTerminal(After(t, op).runs[r].state) && !Ends(t, op, r, state, conclusion)
  {
    if op.Decide? {
      assert PendingFor(t, op.approvalId, TouchedRun(t, op));
    }
  }

  ghost predicate EndedIn(t: Tables, h: History, r: string, state: RunState, conclusion: Option<string>)
    decreases |h|
  {
    h != [] && ((r in t.runs && !Ended(t, r) && Ends(t, h[0], r, state, conclusion) && Succeeds(t, h[0]))
                || EndedIn(Step(t, h[0]), h[1..], r, state, conclusion))
  }

  /** A run that has not ended is, after a history, in an ended state with a conclusion
      exactly if some operation of the history ended it so. */
  lemma {:induction false} EndedExactly(t: Tables, h: History, r: string, state: RunState, conclusion: Option<string>)
    requires Inv(t) && r in t.runs && !Ended(t, r) && IsTerminal(state)
    ensures var u := Replay(t, h);
      r in u.runs && u.runs[r].state == state && u.runs[r].conclusion == conclusion <==>
        EndedIn(t, h, r, state, conclusion)
    decreases |h|
  {
    if h != [] {
      var u := Step(t, h[0]);
      StepKeepsInv(t, h[0]);
      RunEndedExactly(t, h[0], r, state, conclusion);
      if Ended(u, r) {
        EndedRunKeepsOutcome(u, h[1..], r);
        NeverEndedAgain(u, h[1..], r, state, conclusion);
      } else {
        EndedExactly(u, h[1..], r, state, conclusion);
      }
    }
  }

  lemma {:induction false} NeverEndedAgain(t: Tables, h: History, r: string, state: RunState,
                                           conclusion: Option<string>)
    requires Inv(t) && Ended(t, r)
    ensures !EndedIn(t, h, r, state, conclusion)
    decreases |h|
  {
    if h != [] {
      StepKeepsInv(t, h[0]);
      EndedRunKeptByStep(t, h[0], r);
      NeverEndedAgain(Step(t, h[0]), h[1..], r, state, conclusion);
    }
  }

  // ---- The ends of attempts -------------------------------------------------

  /** How the operation finishes an unfinished attempt. */
  predicate Finishes(t: Tables, op: Op, a: AttemptId, after: Attempt)
    requires a in t.attempts
  {
    match op
    case Complete(claim, state, _, result, now) =>
      && claim.attempt == a
      && after == t.attempts[a].(state := state, finishedAt := Some(Millis(now)), result := Handed(result))
    case ScheduleRetry(claim, _, _, result, now) =>
      && claim.attempt == a
      && after == t.attempts[a].(state := RunFailed, finishedAt := Some(Millis(now)), result := Handed(result))
    case Recover(now) =>
      && a.runId in t.leases && t.leases[a.runId].expiresAt <= Millis(now)
      && after == t.attempts[a].(state := RunInterrupted, finishedAt := Some(Millis(now)))
    case _ => false
  }

  /** The result a worker handed in. */
  function Handed(result: Payload): Option<ResultText> {
    match result
    case Text(json) => Some(Whole(json))
    case _ => None
  }

  /** An unfinished attempt finishes exactly by a completion or a retry that carries it
      or by recovery of its run, and with what that operation gives it. */
  lemma AttemptFinishedExactly(t: Tables, op: Op, a: AttemptId)
    requires Inv(t) && a in t.attempts && IsActive(t.attempts[a].state)
    ensures a in Step(t, op).attempts
    ensures !IsActive(Step(t, op).attempts[a].state) <==>
      Succeeds(t, op) && Finishes(t, op, a, Step(t, op).attempts[a])
  {
    if Succeeds(t, op) {
      if op.ClaimNext? {
        NewAttemptIsNew(t, OldestClaimable(t, op.harnesses, op.now));
      } else if op.Prune? {
        PrunedAttemptFinished(t, op, a);
      } else if op.Complete? || op.ScheduleRetry? || op.Recover? {
        FinishingStep(t, op, a);
      } else {
        OtherStepFinishesNone(t, op, a);
      }
    }
  }

  lemma FinishingStep(t: Tables, op: Op, a: AttemptId)
    requires Inv(t) && a in t.attempts && IsActive(t.attempts[a].state) && Succeeds(t, op)
    requires op.Complete? || op.ScheduleRetry? || op.Recover?
    ensures a in After(t, op).attempts
    ensures !IsActive(After(t, op).attempts[a].state) <==> Finishes(t, op, a, After(t, op).attempts[a])
  {
    assert RunInv(t, a.runId);
    assert a == AttemptId(a.runId, a.number) && ActiveAttempt(t, a.runId, a.number);
  }

  lemma PrunedAttemptFinished(t: Tables, op: Op, a: AttemptId)
    requires Inv(t) && a in t.attempts && IsActive(t.attempts[a].state) && op.Prune? && Succeeds(t, op)
    ensures a in After(t, op).attempts && After(t, op).attempts[a] == t.attempts[a]
  {
    assert RunInv(t, a.runId);
    assert a == AttemptId(a.runId, a.number) && ActiveAttempt(t, a.runId, a.number);
  }

  lemma OtherStepFinishesNone(t: Tables, op: Op, a: AttemptId)
    requires a in t.attempts && IsActive(t.attempts[a].state) && Succeeds(t, op)
    requires !op.ClaimNext? && !op.Prune? && !op.Complete? && !op.ScheduleRetry? && !op.Recover?
    ensures a in After(t, op).attempts && IsActive(After(t, op).attempts[a].state)
  {
  }

  // ---- Identity and time ----------------------------------------------------

  /** What never changes of a run. */
  predicate SameIntent(a: Run, b: Run) {
    && a.key == b.key && a.event == b.event && a.parent == b.parent && a.team == b.team && a.agent == b.agent
    && a.workspace == b.workspace && a.harness == b.harness && a.permission == b.permission
    && a.createdAt == b.createdAt
  }

  /** A changed run keeps what it is for and carries the time of the operation. */
  lemma ChangedRunStamped(t: Tables, op: Op, r: string)
    requires r in t.runs
    ensures r in Step(t, op).runs && SameIntent(Step(t, op).runs[r], t.runs[r])
    ensures Step(t, op).runs[r] != t.runs[r] ==> !op.Enqueue? && Step(t, op).runs[r].updatedAt == Millis(op.now)
  {
    if Succeeds(t, op) && !op.Recover? && r != TouchedRun(t, op) {
      OtherRunsUnchanged(t, op, r);
    }
  }

  lemma {:induction false} RunKeepsIntent(t: Tables, h: History, r: string)
    requires r in t.runs
    ensures r in Replay(t, h).runs && SameIntent(Replay(t, h).runs[r], t.runs[r])
    decreases |h|
  {
    if h != [] {
      ChangedRunStamped(t, h[0], r);
      RunKeepsIntent(Step(t, h[0]), h[1..], r);
    }
  }

  /** sameRunIdentity: the rows differ at most in what a run goes through. */
  lemma IdentityIgnoresProgress(a: Run, b: Run)
    ensures SameIdentity(a, b) <==>
      a == b.(createdAt := a.createdAt, state := a.state, conclusion := a.conclusion, updatedAt := a.updatedAt,
              pinned := a.pinned, prunedAt := a.prunedAt)
  {
  }

  // ---- Pinning and pruning --------------------------------------------------

  ghost predicate NoUnpin(h: History, r: string) {
    forall i :: 0 <= i < |h| && h[i].Pin? && h[i].runId == r ==> h[i].pinned
  }

  /** While a run is pinned its detail is never pruned. */
  lemma {:induction false} PinnedRunKeepsDetail(t: Tables, h: History, r: string)
    requires Inv(t) && Ended(t, r) && t.runs[r].pinned && NoUnpin(h, r)
    ensures r in Replay(t, h).runs && Replay(t, h).runs[r].pinned && Replay(t, h).runs[r].prunedAt == t.runs[r].prunedAt
    ensures forall n :: AttemptId(r, n) in t.attempts ==>
      AttemptId(r, n) in Replay(t, h).attempts && Replay(t, h).attempts[AttemptId(r, n)] == t.attempts[AttemptId(r, n)]
    decreases |h|
  {
    if h != [] {
      StepKeepsInv(t, h[0]);
      EndedRunKeptByStep(t, h[0], r);
      PinnedStep(t, h[0], r);
      forall n | AttemptId(r, n) in t.attempts
        ensures AttemptId(r, n) in Step(t, h[0]).attempts
        ensures Step(t, h[0]).attempts[AttemptId(r, n)] == t.attempts[AttemptId(r, n)]
      {
        PinnedAttemptKept(t, h[0], r, n);
      }
      PinnedRunKeepsDetail(Step(t, h[0]), h[1..], r);
    }
  }

  lemma PinnedAttemptKept(t: Tables, op: Op, r: string, n: int)
    requires Inv(t) && Ended(t, r) && t.runs[r].pinned && AttemptId(r, n) in t.attempts
    ensures AttemptId(r, n) in Step(t, op).attempts
    ensures Step(t, op).attempts[AttemptId(r, n)] == t.attempts[AttemptId(r, n)]
  {
    assert RunInv(t, r);
    assert !ActiveAttempt(t, r, n);
    if op.Prune? && op.runId == r {
      assert !Succeeds(t, op);
    } else {
      FinishedKeptByStep(t, op, AttemptId(r, n));
    }
  }

  lemma PinnedStep(t: Tables, op: Op, r: string)
    requires Inv(t) && Ended(t, r) && t.runs[r].pinned && (op.Pin? && op.runId == r ==> op.pinned)
    ensures r in Step(t, op).runs && Step(t, op).runs[r].pinned && Step(t, op).runs[r].prunedAt == t.runs[r].prunedAt
  {
    EndedRunKeptByStep(t, op, r);
  }

  function Json(result: Option<ResultText>): string {
    match result
    case None => "{}"
    case Some(Whole(json)) => json
    case Some(WithoutLog(json)) => json
  }

  /** Pruning marks the run and takes the log entry, and nothing else, out of the
      result of each of its attempts; the results of other runs stay. */
  lemma PruningStripsLogs(t: Tables, r: string, now: Instant)
    requires Succeeds(t, Prune(r, now))
    ensures var u := Step(t, Prune(r, now));
      && u.runs == t.runs[r := t.runs[r].(prunedAt := Some(Millis(now)), updatedAt := Millis(now))]
      && u.attempts.Keys == t.attempts.Keys
      && (forall a :: a in t.attempts && a.runId != r ==> u.attempts[a] == t.attempts[a])
      && (forall a :: a in t.attempts && a.runId == r ==>
            u.attempts[a] == t.attempts[a].(result := Some(WithoutLog(Json(t.attempts[a].result)))))
  {
  }
}
