/** Workspace exclusion: exactly when the leases give it, and that clocks which never
    run backwards are enough. */
module RunClock {
  import opened Wrappers
  import opened Times
  import opened Ordering
  import opened Strings
  import opened RunModel
  import opened RunInvariant
  import opened RunHistory

  /** Leases of one workspace that are live at row time `at` are all readonly, or
      there is only one. */
  ghost predicate Exclusive(t: Tables, at: int) {
    forall r, s :: (r in t.leases && s in t.leases && r != s
                    && LiveAt(t.leases[r], at) && LiveAt(t.leases[s], at)) ==>
      Compatible(t.leases[r], t.leases[s].workspace, t.leases[s].mode)
  }

  /** The row time of an operation; enqueuing reads no clock. */
  function ClockAfter(op: Op, clock: int): int {
    if op.Enqueue? then clock else Millis(op.now)
  }

  /** The callers' clocks never run backwards. */
  ghost predicate Monotone(h: History, clock: int)
    decreases |h|
  {
    h == [] || (clock <= ClockAfter(h[0], clock) && Monotone(h[1..], ClockAfter(h[0], clock)))
  }

  function LastClock(h: History, clock: int): int
    decreases |h|
  {
    if h == [] then clock else LastClock(h[1..], ClockAfter(h[0], clock))
  }

  ghost predicate WritesLease(t: Tables, op: Op) {
    (op.ClaimNext? || op.Heartbeat?) && Succeeds(t, op)
  }

  ghost function WrittenRun(t: Tables, op: Op): (r: string)
    requires WritesLease(t, op)
    ensures r in Step(t, op).leases
  {
    if op.ClaimNext? then OldestClaimable(t, op.harnesses, op.now) else op.claim.runId
  }

  /** Another run's lease that excludes `lease` is live at `at`. */
  ghost predicate ConflictLive(t: Tables, r: string, lease: Lease, at: int) {
    exists s ::
      && s in t.leases && s != r && LiveAt(t.leases[s], at)
      && !Compatible(t.leases[s], lease.workspace, lease.mode)
  }

  /** The operation writes a lease that reaches beyond `at` although a lease it
      excludes is live then. */
  ghost predicate Clashes(t: Tables, op: Op, at: int) {
    && WritesLease(t, op) && at < Millis(op.now + op.ttl)
    && ConflictLive(t, WrittenRun(t, op), Step(t, op).leases[WrittenRun(t, op)], at)
  }

  /** Operations that write no lease only keep or remove leases. */
  lemma NoLeaseWritten(t: Tables, op: Op)
    requires !WritesLease(t, op)
    ensures forall r :: r in Step(t, op).leases ==> r in t.leases && Step(t, op).leases[r] == t.leases[r]
  {
  }

  /** The lease written is the run's live lease with a new expiry. */
  predicate Renews(t: Tables, r: string, lease: Lease, now: Instant) {
    && r in t.leases && LiveAt(t.leases[r], Millis(now))
    && t.leases[r].workspace == lease.workspace && t.leases[r].mode == lease.mode
  }

  lemma LeaseWritten(t: Tables, op: Op)
    requires WritesLease(t, op)
    ensures var r, u := WrittenRun(t, op), Step(t, op);
      && u.leases == t.leases[r := u.leases[r]]
      && u.leases[r].expiresAt == Millis(op.now + op.ttl)
      && (op.ClaimNext? ==> r !in t.leases)
      && (op.Heartbeat? ==> Renews(t, r, u.leases[r], op.now))
  {
  }

  /** One operation at any clock keeps the exclusion at a time exactly unless it
      clashes at that time. */
  lemma StepExclusiveExactly(t: Tables, op: Op, at: int)
    requires Exclusive(t, at)
    ensures Exclusive(Step(t, op), at) <==> !Clashes(t, op, at)
  {
    if WritesLease(t, op) {
      var r, u := WrittenRun(t, op), Step(t, op);
      LeaseWritten(t, op);
      LeaseExclusiveExactly(t, u, r, at);
    } else {
      NoLeaseWritten(t, op);
    }
  }

  lemma LeaseExclusiveExactly(t: Tables, u: Tables, r: string, at: int)
    requires Exclusive(t, at) && r in u.leases && u.leases == t.leases[r := u.leases[r]]
    ensures Exclusive(u, at) <==> !(LiveAt(u.leases[r], at) && ConflictLive(t, r, u.leases[r], at))
  {
    if LiveAt(u.leases[r], at) && ConflictLive(t, r, u.leases[r], at) {
      var s :| s in t.leases && s != r && LiveAt(t.leases[s], at)
            && !Compatible(t.leases[s], u.leases[r].workspace, u.leases[r].mode);
      assert u.leases[s] == t.leases[s];
      assert !Exclusive(u, at);
    } else {
      forall x, y | x in u.leases && y in u.leases && x != y && LiveAt(u.leases[x], at) && LiveAt(u.leases[y], at)
        ensures Compatible(u.leases[x], u.leases[y].workspace, u.leases[y].mode)
      {
        if x != r && y != r {
          assert u.leases[x] == t.leases[x] && u.leases[y] == t.leases[y];
        }
      }
    }
  }

  /** A claim clashes only at times before its own clock: its clock was ahead. */
  lemma ClaimClashesOnlyBefore(t: Tables, op: Op, at: int)
    requires op.ClaimNext? && Clashes(t, op, at)
    ensures at < Millis(op.now)
  {
    var r := OldestClaimable(t, op.harnesses, op.now);
    assert Claimable(t, r, op.harnesses, op.now);
  }

  /** A heartbeat clashes only at times at which its lease had already expired: its
      clock was behind. */
  lemma HeartbeatClashesOnlyAfterExpiry(t: Tables, op: Op, at: int)
    requires Exclusive(t, at) && op.Heartbeat? && Clashes(t, op, at)
    ensures Millis(op.now) < t.leases[op.claim.runId].expiresAt <= at
  {
    var r := op.claim.runId;
    LeaseWritten(t, op);
    var s :| s in t.leases && s != r && LiveAt(t.leases[s], at)
          && !Compatible(t.leases[s], t.leases[r].workspace, t.leases[r].mode);
  }

  /** The exclusion holds at `at` in every state along the history. */
  ghost predicate ExclusiveAlong(t: Tables, h: History, at: int)
    decreases |h|
  {
    Exclusive(t, at) && (h == [] || ExclusiveAlong(Step(t, h[0]), h[1..], at))
  }

  ghost predicate ClashFree(t: Tables, h: History, at: int)
    decreases |h|
  {
    h == [] || (!Clashes(t, h[0], at) && ClashFree(Step(t, h[0]), h[1..], at))
  }

  /** Over every history and for every clock, the leases live at `at` exclude each
      other in every state exactly when no claim or heartbeat clashes at `at`. */
  lemma {:induction false} ExclusiveExactly(t: Tables, h: History, at: int)
    requires Exclusive(t, at)
    ensures ExclusiveAlong(t, h, at) <==> ClashFree(t, h, at)
    ensures ClashFree(t, h, at) ==> Exclusive(Replay(t, h), at)
    decreases |h|
  {
    if h != [] {
      StepExclusiveExactly(t, h[0], at);
      if Exclusive(Step(t, h[0]), at) {
        ExclusiveExactly(Step(t, h[0]), h[1..], at);
      }
    }
  }

  /** Clocks that never run backwards are enough: then nothing clashes from the last
      clock on. */
  lemma {:induction false} MonotoneIsClashFree(t: Tables, h: History, clock: int, at: int)
    requires Exclusive(t, clock) && Monotone(h, clock) && LastClock(h, clock) <= at
    ensures clock <= LastClock(h, clock) && ClashFree(t, h, at)
    decreases |h|
  {
    if h != [] {
      MonotoneFromStep(t, h[0], clock);
      MonotoneIsClashFree(Step(t, h[0]), h[1..], ClockAfter(h[0], clock), at);
      ExclusiveLater(t, clock, at);
      if Clashes(t, h[0], at) {
        if h[0].ClaimNext? {
          ClaimClashesOnlyBefore(t, h[0], at);
        } else {
          LateConflictWasLive(t, h[0], clock, at);
        }
      }
    }
  }

  lemma ExclusiveLater(t: Tables, clock: int, at: int)
    requires Exclusive(t, clock) && clock <= at
    ensures Exclusive(t, at)
  {
  }

  /** A heartbeat at a clock no earlier than a time of exclusion clashes never after. */
  lemma LateConflictWasLive(t: Tables, op: Op, clock: int, at: int)
    requires Exclusive(t, clock) && op.Heartbeat? && clock <= Millis(op.now) <= at
    ensures !Clashes(t, op, at)
  {
    ExclusiveLater(t, clock, Millis(op.now));
    if WritesLease(t, op) {
      LeaseWritten(t, op);
    }
  }

  lemma MonotoneFromStep(t: Tables, op: Op, clock: int)
    requires Exclusive(t, clock) && clock <= ClockAfter(op, clock)
    ensures Exclusive(Step(t, op), ClockAfter(op, clock))
  {
    var at := ClockAfter(op, clock);
    ExclusiveLater(t, clock, at);
    StepExclusiveExactly(t, op, at);
    if op.ClaimNext? && Clashes(t, op, at) {
      ClaimClashesOnlyBefore(t, op, at);
    } else if op.Heartbeat? {
      LateConflictWasLive(t, op, clock, at);
    }
  }

  /** With clocks that never run backwards, in every reachable state the unexpired
      leases of a workspace are all readonly or a single write lease. */
  lemma ExclusiveThroughout(t: Tables, h: History, clock: int)
    requires Exclusive(t, clock) && Monotone(h, clock)
    ensures Exclusive(Replay(t, h), LastClock(h, clock)) && clock <= LastClock(h, clock)
  {
    MonotoneIsClashFree(t, h, clock, LastClock(h, clock));
    ExclusiveLater(t, clock, LastClock(h, clock));
    ExclusiveExactly(t, h, LastClock(h, clock));
  }

  predicate LeaseGuarded(op: Op) {
    op.Prepare? || op.Start? || op.Heartbeat? || op.Complete? || op.Request? || op.ScheduleRetry?
  }

  /** No lease of another run that excludes the run's own is live. */
  ghost predicate Undisturbed(t: Tables, r: string, at: int) {
    r in t.leases && LiveAt(t.leases[r], at) && !ConflictLive(t, r, t.leases[r], at)
  }

  /** Every lease-guarded step that succeeds after a history without clashes at its
      clock does so while its own lease is live and no conflicting lease is. */
  lemma GuardedStepHasNoConflict(h: History, op: Op)
    requires LeaseGuarded(op) && ClashFree(EMPTY_TABLES, h, Millis(op.now)) && Succeeds(Replay(EMPTY_TABLES, h), op)
    ensures Undisturbed(Replay(EMPTY_TABLES, h), op.claim.runId, Millis(op.now))
  {
    ExclusiveExactly(EMPTY_TABLES, h, Millis(op.now));
    GuardedStepUndisturbed(Replay(EMPTY_TABLES, h), op);
  }

  lemma GuardedStepUndisturbed(t: Tables, op: Op)
    requires LeaseGuarded(op) && Succeeds(t, op) && Exclusive(t, Millis(op.now))
    ensures Undisturbed(t, op.claim.runId, Millis(op.now))
  {
  }

  /** In particular when clocks never run backwards. */
  lemma MonotoneGuardedStep(h: History, clock: int, op: Op)
    requires Monotone(h, clock) && LeaseGuarded(op)
    requires LastClock(h, clock) <= Millis(op.now) && Succeeds(Replay(EMPTY_TABLES, h), op)
    ensures Undisturbed(Replay(EMPTY_TABLES, h), op.claim.runId, Millis(op.now))
  {
    MonotoneIsClashFree(EMPTY_TABLES, h, clock, Millis(op.now));
    GuardedStepHasNoConflict(h, op);
  }

  // ---- Expired leases and decisions -----------------------------------------

  predicate ActsOn(op: Op, r: string) {
    LeaseGuarded(op) && op.claim.runId == r
  }

  lemma DeadLeaseFences(t: Tables, op: Op, r: string)
    requires r in t.leases && ActsOn(op, r) && !LiveAt(t.leases[r], Millis(op.now))
    ensures !Succeeds(t, op)
  {
  }

  ghost predicate NoRecovery(h: History) {
    forall i :: 0 <= i < |h| ==> !h[i].Recover?
  }

  lemma DeadLeaseKept(t: Tables, op: Op, r: string, clock: int)
    requires r in t.leases && !LiveAt(t.leases[r], clock) && clock <= ClockAfter(op, clock) && !op.Recover?
    ensures r in Step(t, op).leases && Step(t, op).leases[r] == t.leases[r]
  {
    if Succeeds(t, op) && LeaseGuarded(op) && op.claim.runId == r {
      DeadLeaseFences(t, op, r);
    }
  }

  /** With clocks that never run backwards an expired lease stays as it is until it is
      recovered, and no step it guards ever succeeds again. */
  lemma {:induction false} ExpiredLeaseNeverRevives(t: Tables, h: History, clock: int, r: string, op: Op)
    requires r in t.leases && !LiveAt(t.leases[r], clock) && Monotone(h, clock) && NoRecovery(h)
    requires ActsOn(op, r) && LastClock(h, clock) <= Millis(op.now)
    ensures r in Replay(t, h).leases && Replay(t, h).leases[r] == t.leases[r] && !Succeeds(Replay(t, h), op)
    ensures clock <= LastClock(h, clock)
    decreases |h|
  {
    if h != [] {
      assert !h[0].Recover?;
      DeadLeaseKept(t, h[0], r, clock);
      ExpiredLeaseNeverRevives(Step(t, h[0]), h[1..], ClockAfter(h[0], clock), r, op);
    } else {
      DeadLeaseFences(t, op, r);
    }
  }

  /** A decision looks at no lease, and is harmless all the same: a run it resumes
      either holds its workspace undisturbed, or, its lease being dead, can do nothing
      with it until it is recovered, while clocks never run backwards. */
  lemma DecisionHarmless(t: Tables, decide: Op, h: History, op: Op)
    requires Inv(t) && decide.Decide? && Succeeds(t, decide) && Exclusive(t, Millis(decide.now))
    requires Monotone(h, Millis(decide.now)) && NoRecovery(h)
    requires ActsOn(op, t.approvals[decide.approvalId].runId) && LastClock(h, Millis(decide.now)) <= Millis(op.now)
    ensures var r := t.approvals[decide.approvalId].runId;
      && r in t.leases
      && (LiveAt(t.leases[r], Millis(decide.now)) ==> Undisturbed(Step(t, decide), r, Millis(decide.now)))
      && (!LiveAt(t.leases[r], Millis(decide.now)) ==> !Succeeds(Replay(Step(t, decide), h), op))
  {
    var r := t.approvals[decide.approvalId].runId;
    assert RunInv(t, r);
    DecisionKeepsLeases(t, decide);
    if !LiveAt(t.leases[r], Millis(decide.now)) {
      ExpiredLeaseNeverRevives(Step(t, decide), h, Millis(decide.now), r, op);
    }
  }

  lemma DecisionKeepsLeases(t: Tables, decide: Op)
    requires decide.Decide?
    ensures Step(t, decide).leases == t.leases
  {
  }
}
