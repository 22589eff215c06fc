/** The store: one method per operation, each a transaction on the five tables that
    commits or rolls back, proved to make exactly the step of `RunModel`. */
module RunStore {
  import opened Wrappers
  import opened Times
  import opened Ordering
  import opened Strings
  import opened RunModel

  datatype StoreError = InvalidArgument | Conflict | NotFound | ConstraintViolation

  class Store {
    var runs: map<string, Run>
    var attempts: map<AttemptId, Attempt>
    var leases: map<string, Lease>
    var approvals: map<string, Approval>
    var retries: map<AttemptId, Retry>

    ghost function Contents(): Tables
      reads this
    {
      Tables(runs, attempts, leases, approvals, retries)
    }

    constructor ()
      ensures Contents() == EMPTY_TABLES
    {
      runs, attempts, leases, approvals, retries := map[], map[], map[], map[], map[];
    }

    /** BEGIN: what a rollback returns to. */
    method Begin() returns (saved: Tables)
      ensures saved == Contents()
    {
      saved := Tables(runs, attempts, leases, approvals, retries);
    }

    method Rollback(saved: Tables)
      modifies this
      ensures Contents() == saved
    {
      runs, attempts, leases, approvals := saved.runs, saved.attempts, saved.leases, saved.approvals;
      retries := saved.retries;
    }

    method FindRunByKey(key: string) returns (found: Option<string>)
      ensures found.Some? <==> KeyTaken(Contents(), key)
      ensures found.Some? ==> HasRunKey(Contents(), found.value, key)
    {
      var rest := runs.Keys;
      while rest != {}
        invariant rest <= runs.Keys
        invariant forall r :: HasRunKey(Contents(), r, key) ==> r in rest
        decreases rest
      {
        var r :| r in rest;
        if runs[r].key == key {
          assert HasRunKey(Contents(), r, key);
          return Some(r);
        }
        rest := rest - {r};
      }
      return None;
    }

    /** Stores a run once for each idempotency key. A duplicate returns the stored run
        if it is the same run, whatever has become of it. `eventStored` says that the
        event the run names, if any, is stored. */
    method CreateRun(id: string, row: Run, eventStored: bool) returns (outcome: Result<(string, bool), StoreError>)
      modifies this
      ensures outcome.Ok? && outcome.value.1 <==>
        Insertable(old(Contents()), id, row) && (row.event.None? || eventStored)
      ensures Contents() ==
        if outcome.Ok? && outcome.value.1 then AfterInsert(old(Contents()), id, row) else old(Contents())
      ensures outcome.Ok? ==>
        outcome.value.0 in runs && SameIdentity(runs[outcome.value.0], NormalRow(row))
      ensures outcome.Ok? && !outcome.value.1 ==> KeyTaken(old(Contents()), TrimSpace(row.key))
      ensures outcome.Ok? && outcome.value.1 ==> outcome.value.0 == TrimSpace(id)
      ensures outcome.Ok? && outcome.value.1 ==> StoredAs(row, runs[outcome.value.0])
      ensures outcome == Err(InvalidArgument) <==>
        || TrimSpace(id) == "" || TrimSpace(row.key) == "" || TrimSpace(row.agent) == ""
        || TrimSpace(row.workspace) == "" || TrimSpace(row.harness) == ""
      ensures outcome != Err(NotFound)
      ensures outcome == Err(Conflict) ==> exists r ::
        HasRunKey(old(Contents()), r, TrimSpace(row.key)) && !SameIdentity(old(runs)[r], NormalRow(row))
      ensures outcome == Err(ConstraintViolation) ==> !KeyTaken(old(Contents()), TrimSpace(row.key))
    {
      if !RunWellFormed(id, row) {
        return Err(InvalidArgument);
      }
      var r, run := TrimSpace(id), NormalRow(row);
      var known := FindRunByKey(run.key);
      if known.Some? {
        return if SameIdentity(runs[known.value], run) then Ok((known.value, false)) else Err(Conflict);
      }
      if r in runs || !(run.parent == "" || run.parent == r || run.parent in runs)
         || !(run.event.None? || eventStored) {
        return Err(ConstraintViolation);
      }
      runs := runs[r := run];
      return Ok((r, true));
    }

    /** SELECT id FROM runs WHERE state = 'pending' ORDER BY created_at, id. */
    method PendingRuns() returns (candidates: seq<string>)
      ensures forall r :: r in candidates <==> r in runs && runs[r].state == RunPending
      ensures forall i, j :: 0 <= i < j < |candidates| ==> NoYounger(Contents(), candidates[i], candidates[j])
    {
      var t := Tables(runs, attempts, leases, approvals, retries);
      var rest := set r | r in runs && runs[r].state == RunPending;
      candidates := [];
      while rest != {}
        invariant rest <= runs.Keys
        invariant forall r :: r in candidates || r in rest <==> r in runs && runs[r].state == RunPending
        invariant forall i, r :: 0 <= i < |candidates| && r in rest ==> NoYounger(t, candidates[i], r)
        invariant forall i, j :: 0 <= i < j < |candidates| ==> NoYounger(t, candidates[i], candidates[j])
        decreases rest
      {
        ghost var witnessed := OldestAmong(t, rest);
        var r :| r in rest && forall other :: other in rest ==> NoYounger(t, r, other);
        candidates, rest := candidates + [r], rest - {r};
      }
    }

    method ContainsHarness(harnesses: seq<string>, wanted: string) returns (found: bool)
      ensures found <==> wanted in harnesses
    {
      for i := 0 to |harnesses|
        invariant wanted !in harnesses[..i]
      {
        if harnesses[i] == wanted {
          return true;
        }
      }
      return false;
    }

    /** SELECT COUNT(*) of the conflicting live leases, compared with zero. */
    method WorkspaceLeaseAvailable(workspace: string, mode: LeaseMode, now: Instant) returns (available: bool)
      ensures available <==> WorkspaceAvailable(Contents(), workspace, mode, now)
    {
      var conflicts, rest := 0, leases.Keys;
      while rest != {}
        invariant rest <= leases.Keys && conflicts >= 0
        invariant conflicts == 0 <==>
          forall r :: r in leases && r !in rest && LiveAt(leases[r], Millis(now)) ==>
            Compatible(leases[r], workspace, mode)
        decreases rest
      {
        var r :| r in rest;
        rest := rest - {r};
        var lease := leases[r];
        if
          && lease.workspace == workspace && lease.expiresAt > Millis(now)
          && (mode != LeaseReadonly || lease.mode == LeaseWrite)
        {
          conflicts := conflicts + 1;
        }
      }
      available := conflicts == 0;
    }

    /** SELECT COALESCE(MAX(number), 0) + 1. */
    method NextAttemptNumber(r: string) returns (number: int)
      ensures number == MaxNumber(Contents(), r) + 1
    {
      number := 1;
      var rest := attempts.Keys;
      while rest != {}
        invariant rest <= attempts.Keys && number >= 1
        invariant forall a :: a in attempts && a !in rest && a.runId == r ==> a.number < number
        invariant number > 1 ==> AttemptId(r, number - 1) in attempts
        decreases rest
      {
        var a :| a in rest;
        rest := rest - {a};
        if a.runId == r && a.number >= number {
          number := a.number + 1;
        }
      }
      assert forall k {:trigger AttemptId(r, k)} :: AttemptId(r, k) in attempts ==> AttemptId(r, k).runId == r;
      assert IsMaxNumber(Contents(), r, number - 1);
      assert IsMaxNumber(Contents(), r, MaxNumber(Contents(), r));
    }

    /** claimRun: marks the run leased and inserts its attempt and lease rows. */
    method ClaimRun(r: string, owner: string, mode: LeaseMode, now: Instant, ttl: Duration)
      returns (outcome: Result<Claim, StoreError>)
      requires r in runs && mode == LeaseModeFor(runs[r].permission)
      modifies this
      ensures outcome.Ok? ==> runs == AfterClaim(old(Contents()), r, owner, now, ttl).runs
      ensures outcome.Ok? ==> attempts == AfterClaim(old(Contents()), r, owner, now, ttl).attempts
      ensures outcome.Ok? ==> leases == AfterClaim(old(Contents()), r, owner, now, ttl).leases
      ensures approvals == old(approvals) && retries == old(retries)
      ensures outcome.Ok? ==> outcome.value == Claim(r, AttemptId(r, MaxNumber(old(Contents()), r) + 1), owner)
      ensures outcome.Ok? <==> old(runs[r].state) == RunPending && r !in old(leases)
      ensures outcome != Err(InvalidArgument)
    {
      if runs[r].state != RunPending {
        return Err(Conflict);
      }
      var number := NextAttemptNumber(r);
      var attempt := AttemptId(r, number);
      var run := runs[r];
      runs := runs[r := run.(state := RunLeased, updatedAt := Millis(now))];
      attempts := attempts[attempt := Attempt(owner, RunPreparing, None, None, None, None)];
      if r in leases {
        return Err(ConstraintViolation);
      }
      leases := leases[r := Lease(run.workspace, mode, owner, Millis(now), Millis(now), Millis(now + ttl))];
      outcome := Ok(Claim(r, attempt, owner));
    }

    /** Claims the oldest runnable pending run, or finds none. */
    method ClaimNextForHarnesses(worker: string, harnesses: Option<seq<string>>, now: Instant, ttl: Duration)
      returns (outcome: Result<Option<Claim>, StoreError>)
      modifies this
      ensures Contents() == Step(old(Contents()), ClaimNext(worker, harnesses, now, ttl))
      ensures outcome.Ok? && outcome.value.Some? <==> Succeeds(old(Contents()), ClaimNext(worker, harnesses, now, ttl))
      ensures outcome == Err(InvalidArgument) <==> TrimSpace(worker) == "" || ttl <= 0
      ensures outcome == Ok(None) <==>
        TrimSpace(worker) != "" && ttl > 0 && !SomeClaimable(old(Contents()), harnesses, now)
      ensures outcome.Ok? && outcome.value.Some? ==>
        var r := OldestClaimable(old(Contents()), harnesses, now);
        outcome.value.value == Claim(r, AttemptId(r, MaxNumber(old(Contents()), r) + 1), TrimSpace(worker))
    {
      var owner := TrimSpace(worker);
      if owner == "" || ttl <= 0 {
        return Err(InvalidArgument);
      }
      var saved := Begin();
      var candidates := PendingRuns();
      for i := 0 to |candidates|
        invariant Contents() == saved == old(Contents())
        invariant forall j :: 0 <= j < i ==> !Claimable(saved, candidates[j], harnesses, now)
      {
        var run := runs[candidates[i]];
        var allowed := true;
        if harnesses.Some? {
          allowed := ContainsHarness(harnesses.value, run.harness);
        }
        if allowed {
          var mode := LeaseModeFor(run.permission);
          var compatible := WorkspaceLeaseAvailable(run.workspace, mode, now);
          if compatible {
            FirstClaimableIsOldest(saved, candidates, i, harnesses, now);
            var claimed := ClaimRun(candidates[i], owner, mode, now, ttl);
            if claimed.Err? {
              Rollback(saved);
              return Err(claimed.error);
            }
            return Ok(Some(claimed.value));
          }
        }
      }
      NoneClaimable(saved, candidates, harnesses, now);
      return Ok(None);
    }

    method PrepareClaim(claim: Claim, now: Instant) returns (error: Option<StoreError>)
      modifies this
      ensures Contents() == Step(old(Contents()), Prepare(claim, now))
      ensures error == None <==> Succeeds(old(Contents()), Prepare(claim, now))
    {
      var verified := VerifyLease(claim, now);
      if !verified {
        return Some(Conflict);
      }
      if claim.runId !in runs || runs[claim.runId].state != RunLeased {
        return Some(Conflict);
      }
      runs := runs[claim.runId := runs[claim.runId].(state := RunPreparing, updatedAt := Millis(now))];
      error := None;
    }

    method VerifyLease(claim: Claim, now: Instant) returns (verified: bool)
      ensures verified <==> LeaseVerified(Contents(), claim, now)
    {
      verified := claim.runId in leases && leases[claim.runId].owner == claim.owner
                  && leases[claim.runId].expiresAt > Millis(now);
    }

    /** Updates the run, then the attempt; a claim whose attempt does not match takes
        the run update back with it. */
    method StartAttempt(claim: Claim, processId: int, now: Instant) returns (error: Option<StoreError>)
      modifies this
      ensures Contents() == Step(old(Contents()), Start(claim, processId, now))
      ensures error == None <==> Succeeds(old(Contents()), Start(claim, processId, now))
      ensures error == Some(InvalidArgument) <==> processId <= 0
    {
      if processId <= 0 {
        return Some(InvalidArgument);
      }
      var saved := Begin();
      var verified := VerifyLease(claim, now);
      if !verified {
        return Some(Conflict);
      }
      if claim.runId !in runs || runs[claim.runId].state != RunPreparing {
        return Some(Conflict);
      }
      runs := runs[claim.runId := runs[claim.runId].(state := RunRunning, updatedAt := Millis(now))];
      if claim.attempt !in attempts || claim.attempt.runId != claim.runId
         || attempts[claim.attempt].worker != claim.owner || attempts[claim.attempt].state != RunPreparing {
        Rollback(saved);
        return Some(Conflict);
      }
      attempts := attempts[claim.attempt := attempts[claim.attempt].(
        state := RunRunning, processId := Some(processId), startedAt := Some(Millis(now)))];
      error := None;
    }

    method HeartbeatLease(claim: Claim, now: Instant, ttl: Duration) returns (error: Option<StoreError>)
      modifies this
      ensures Contents() == Step(old(Contents()), Heartbeat(claim, now, ttl))
      ensures error == None <==> Succeeds(old(Contents()), Heartbeat(claim, now, ttl))
      ensures error == Some(InvalidArgument) <==> ttl <= 0
    {
      if ttl <= 0 {
        return Some(InvalidArgument);
      }
      var verified := VerifyLease(claim, now);
      if !verified {
        return Some(Conflict);
      }
      leases := leases[claim.runId := leases[claim.runId].(heartbeatAt := Millis(now), expiresAt := Millis(now + ttl))];
      error := None;
    }

    /** Updates the attempt, then the run, then deletes the lease. */
    method CompleteClaim(claim: Claim, state: RunState, conclusion: string, result: Payload, now: Instant)
      returns (error: Option<StoreError>)
      modifies this
      ensures Contents() == Step(old(Contents()), Complete(claim, state, conclusion, result, now))
      ensures error == None <==> Succeeds(old(Contents()), Complete(claim, state, conclusion, result, now))
      ensures error == Some(InvalidArgument) <==>
        result.Malformed? || state !in {RunSucceeded, RunFailed, RunCancelled, RunInterrupted}
    {
      if !IsTerminal(state) || result.Malformed? {
        return Some(InvalidArgument);
      }
      var saved := Begin();
      var verified := VerifyLease(claim, now);
      if !verified {
        return Some(Conflict);
      }
      if claim.attempt !in attempts || claim.attempt.runId != claim.runId
         || attempts[claim.attempt].worker != claim.owner || !CompletableAttempt(state, attempts[claim.attempt].state) {
        return Some(Conflict);
      }
      attempts := attempts[claim.attempt := attempts[claim.attempt].(
        state := state, finishedAt := Some(Millis(now)), result := ResultOf(result))];
      if claim.runId !in runs || !CompletableRun(state, runs[claim.runId].state) {
        Rollback(saved);
        return Some(Conflict);
      }
      runs := runs[claim.runId := runs[claim.runId].(
        state := state, conclusion := NullIfEmpty(conclusion), updatedAt := Millis(now))];
      if claim.runId in leases && leases[claim.runId].owner == claim.owner {
        leases := leases - {claim.runId};
      }
      error := None;
    }

    /** The three statements that reconcile one expired lease. */
    method RecoverRun(r: string, found: RunState, now: Instant)
      requires r in runs
      modifies this
      ensures Contents() == AfterRecoverRun(old(Contents()), r, found, now)
    {
      var next := RunInterrupted;
      if found == RunLeased {
        next := RunPending;
      }
      runs := runs[r := runs[r].(state := next, updatedAt := Millis(now))];
      attempts := map a | a in attempts ::
        if a.runId == r && (attempts[a].state == RunPreparing || attempts[a].state == RunRunning)
        then attempts[a].(state := RunInterrupted, finishedAt := Some(Millis(now)))
        else attempts[a];
      leases := leases - {r};
    }

    /** One turn of the recovery loop. */
    method RecoverNext(ghost t: Tables, ghost done: set<string>, r: string, found: RunState, now: Instant)
      requires Contents() == RecoveredAmong(t, done, now)
      requires r in t.runs && r !in done && found == t.runs[r].state
      modifies this
      ensures Contents() == RecoveredAmong(t, done + {r}, now)
    {
      RecoverOne(t, done, r, now);
      RecoverRun(r, found, now);
    }

    /** Reconciles expired leases one by one, in no particular order. */
    method RecoverExpiredLeases(now: Instant) returns (recovered: nat)
      modifies this
      ensures Contents() == Step(old(Contents()), Recover(now))
      ensures recovered == |ExpiredRuns(old(Contents()), now)|
      ensures runs.Keys == old(runs).Keys
      ensures forall r :: r in runs && (r in old(leases) ==> old(leases)[r].expiresAt > Millis(now)) ==>
        runs[r] == old(runs)[r]
      ensures forall r :: r in runs && r in old(leases) && old(leases)[r].expiresAt <= Millis(now) ==>
        runs[r].state == if old(runs)[r].state == RunLeased then RunPending else RunInterrupted
    {
      RecoveredAll(Contents(), now);
      var expired := ListExpired(now);
      recovered := RecoverListed(expired, now);
    }

    /** The expired leases with the state their run is found in. */
    method ListExpired(now: Instant) returns (expired: map<string, RunState>)
      ensures expired.Keys == ExpiredRuns(Contents(), now)
      ensures forall r :: r in expired ==> expired[r] == runs[r].state
    {
      expired := map r | r in leases && r in runs && leases[r].expiresAt <= Millis(now) :: runs[r].state;
    }

    method RecoverListed(expired: map<string, RunState>, now: Instant) returns (recovered: nat)
      requires Contents() == RecoveredAmong(Contents(), {}, now)
      requires forall r :: r in expired ==> r in runs && expired[r] == runs[r].state
      modifies this
      ensures Contents() == RecoveredAmong(old(Contents()), expired.Keys, now)
      ensures recovered == |expired|
    {
      recovered := 0;
      ghost var done := {};
      var rest := expired.Keys;
      while rest != {}
        invariant rest !! done && rest + done == expired.Keys && recovered == |done|
        invariant Contents() == RecoveredAmong(old(Contents()), done, now)
        decreases rest
      {
        var r :| r in rest;
        RecoverNext(old(Contents()), done, r, expired[r], now);
        rest, done, recovered := rest - {r}, done + {r}, recovered + 1;
      }
      assert done == expired.Keys;
    }

    /** Reuses an identical approved grant, or pauses the run on a new pending one. */
    method RequestApproval(claim: Claim, approvalId: string, kind: string, scope: Scope, summary: string, now: Instant)
      returns (outcome: Result<(string, bool), StoreError>)
      modifies this
      ensures Contents() == Step(old(Contents()), Request(claim, approvalId, kind, scope, summary, now))
      ensures outcome.Ok? && outcome.value.1 <==>
        Succeeds(old(Contents()), Request(claim, approvalId, kind, scope, summary, now))
      ensures outcome.Ok? && outcome.value.1 ==> outcome.value.0 == TrimSpace(approvalId)
      ensures outcome == Err(InvalidArgument) <==>
        TrimSpace(approvalId) == "" || TrimSpace(kind) == "" || scope.InvalidScope?
      ensures outcome.Ok? && !outcome.value.1 ==>
        outcome.value.0 in approvals && MatchesGrant(approvals[outcome.value.0], claim.runId, TrimSpace(kind), scope)
      ensures outcome.Ok? && !outcome.value.1 <==>
        && RequestWellFormed(approvalId, kind, scope) && LeaseVerified(old(Contents()), claim, now)
        && GrantExists(old(Contents()), claim.runId, TrimSpace(kind), scope)
    {
      var id, trimmedKind := TrimSpace(approvalId), TrimSpace(kind);
      if id == "" || trimmedKind == "" || scope.InvalidScope? {
        return Err(InvalidArgument);
      }
      var saved := Begin();
      var verified := VerifyLease(claim, now);
      if !verified {
        return Err(Conflict);
      }
      var approved := FindApprovedScope(claim.runId, trimmedKind, scope);
      if approved.Some? {
        return Ok((approved.value, false));
      }
      if claim.runId !in runs {
        return Err(NotFound);
      }
      var current := runs[claim.runId].state;
      if current != RunPreparing && current != RunRunning {
        return Err(Conflict);
      }
      if id in approvals || claim.attempt !in attempts {
        return Err(ConstraintViolation);
      }
      approvals := approvals[id := Approval(claim.runId, claim.attempt, trimmedKind, scope, TrimSpace(summary),
                                            ApprovalPending, current, Millis(now), None, None)];
      runs := runs[claim.runId := runs[claim.runId].(state := RunWaitingForApproval, updatedAt := Millis(now))];
      outcome := Ok((id, true));
    }

    /** The most recently decided grant with exactly this kind and scope. */
    method FindApprovedScope(runId: string, kind: string, scope: Scope) returns (found: Option<string>)
      ensures found.Some? <==> GrantExists(Contents(), runId, kind, scope)
      ensures found.Some? ==> found.value in approvals && MatchesGrant(approvals[found.value], runId, kind, scope)
      ensures found.Some? ==> forall id :: id in approvals && MatchesGrant(approvals[id], runId, kind, scope) ==>
        !LaterDecided(approvals[id], approvals[found.value])
      ensures found.Some? ==> forall id ::
        id in approvals && MatchesGrant(approvals[id], runId, kind, scope) && approvals[id].decidedAt.Some? ==>
        NotBefore(approvals[id].decidedAt.value, approvals[found.value])
    {
      found := None;
      var rest := approvals.Keys;
      while rest != {}
        invariant rest <= approvals.Keys
        invariant found.Some? ==> found.value in approvals && MatchesGrant(approvals[found.value], runId, kind, scope)
        invariant forall id :: id in approvals && id !in rest && MatchesGrant(approvals[id], runId, kind, scope) ==>
          found.Some? && !LaterDecided(approvals[id], approvals[found.value])
        decreases rest
      {
        var id :| id in rest;
        rest := rest - {id};
        if MatchesGrant(approvals[id], runId, kind, scope)
           && (found.None? || LaterDecided(approvals[id], approvals[found.value])) {
          found := Some(id);
        }
      }
    }

    /** Marks the approval decided, then resumes the run; a run that no longer waits
        takes the decision back. */
    method DecideApproval(id: string, decision: ApprovalState, reason: string, now: Instant)
      returns (outcome: Result<Approval, StoreError>)
      modifies this
      ensures Contents() == Step(old(Contents()), Decide(id, decision, reason, now))
      ensures outcome.Ok? <==> Succeeds(old(Contents()), Decide(id, decision, reason, now))
      ensures outcome.Ok? ==> id in approvals && outcome.value == approvals[id]
      ensures outcome.Ok? ==>
        && approvals[id].state == decision && approvals[id].decidedAt == Some(Millis(now))
        && approvals[id].reason == NullIfEmpty(reason)
      ensures outcome == Err(InvalidArgument) <==> decision !in {ApprovalApproved, ApprovalDenied}
      ensures outcome == Err(NotFound) <==>
        (decision == ApprovalApproved || decision == ApprovalDenied) && id !in old(approvals)
    {
      if decision != ApprovalApproved && decision != ApprovalDenied {
        return Err(InvalidArgument);
      }
      var saved := Begin();
      if id !in approvals {
        return Err(NotFound);
      }
      var approval := approvals[id];
      if approval.state != ApprovalPending {
        return Err(Conflict);
      }
      approvals := approvals[id := DecidedApproval(approval, decision, reason, now)];
      if approval.runId !in runs || runs[approval.runId].state != RunWaitingForApproval {
        Rollback(saved);
        return Err(Conflict);
      }
      runs := runs[approval.runId := runs[approval.runId].(state := approval.resumeState, updatedAt := Millis(now))];
      outcome := Ok(approvals[id]);
    }

    method GetApproval(id: string) returns (approval: Option<Approval>)
      ensures approval == if id in approvals then Some(approvals[id]) else None
    {
      approval := if id in approvals then Some(approvals[id]) else None;
    }

    /** Cancels a pending approval and leaves the run as it is. */
    method CancelApprovalById(id: string, reason: string, now: Instant) returns (error: Option<StoreError>)
      modifies this
      ensures Contents() == Step(old(Contents()), CancelApproval(id, reason, now))
      ensures error == if id in old(approvals) then None else Some(NotFound)
    {
      if id !in approvals {
        return Some(NotFound);
      }
      error := None;
      if approvals[id].state == ApprovalPending {
        approvals := approvals[id := DecidedApproval(approvals[id], ApprovalCancelled, reason, now)];
      }
    }

    /** Cancels a run that waits for its first attempt or a retry, and its timers. */
    method CancelPendingRun(r: string, now: Instant) returns (outcome: Result<bool, StoreError>)
      modifies this
      ensures Contents() == Step(old(Contents()), CancelPending(r, now))
      ensures outcome == if r in old(runs) then Ok(Succeeds(old(Contents()), CancelPending(r, now))) else Err(NotFound)
      ensures outcome == Ok(true) <==> r in old(runs) && old(runs)[r].state in {RunPending, RunRetryScheduled}
    {
      if r !in runs {
        return Err(NotFound);
      }
      if runs[r].state != RunPending && runs[r].state != RunRetryScheduled {
        return Ok(false);
      }
      runs := runs[r := runs[r].(
        state := RunCancelled, conclusion := Some("cancelled before next execution"), updatedAt := Millis(now))];
      retries := map a | a in retries ::
        if a.runId == r && retries[a].state == TimerPending then retries[a].(state := TimerCancelled) else retries[a];
      return Ok(true);
    }

    /** Finishes the attempt, releases the lease and leaves a timer; whatever does not
        fit takes everything back. */
    method ScheduleClaimRetry(claim: Claim, dueAt: Option<Instant>, why: string, result: Payload, now: Instant)
      returns (error: Option<StoreError>)
      modifies this
      ensures Contents() == Step(old(Contents()), ScheduleRetry(claim, dueAt, why, result, now))
      ensures error == None <==> Succeeds(old(Contents()), ScheduleRetry(claim, dueAt, why, result, now))
      ensures error == Some(InvalidArgument) <==> dueAt.None? || result.Malformed?
    {
      if dueAt.None? || result.Malformed? {
        return Some(InvalidArgument);
      }
      var due := if dueAt.value < now then now else dueAt.value;
      var saved := Begin();
      var verified := VerifyLease(claim, now);
      if !verified {
        return Some(Conflict);
      }
      if claim.attempt !in attempts || claim.attempt.runId != claim.runId
         || attempts[claim.attempt].worker != claim.owner || attempts[claim.attempt].state != RunRunning {
        return Some(Conflict);
      }
      attempts := attempts[claim.attempt := attempts[claim.attempt].(
        state := RunFailed, finishedAt := Some(Millis(now)), result := ResultOf(result))];
      if claim.runId !in runs || runs[claim.runId].state != RunRunning {
        Rollback(saved);
        return Some(Conflict);
      }
      runs := runs[claim.runId := runs[claim.runId].(
        state := RunRetryScheduled, conclusion := NullIfEmpty(why), updatedAt := Millis(now))];
      leases := leases - {claim.runId};
      if claim.attempt in retries {
        Rollback(saved);
        return Some(ConstraintViolation);
      }
      retries := retries[claim.attempt := Retry(Millis(due), TimerPending)];
      return None;
    }

    /** Activates due retries, at most `limit` of them and the earliest first, each as
        one step of the model, all in one transaction. */
    method ActivateDueRetries(now: Instant, limit: int) returns (activated: nat, due: seq<AttemptId>)
      modifies this
      ensures IsDuePage(old(Contents()), due, now, RetryLimit(limit))
      ensures Contents() == ActivateAll(old(Contents()), due, now)
      ensures activated == Activations(old(Contents()), due, now)
    {
      due := ListDueRetries(now, RetryLimit(limit));
      activated := 0;
      ghost var t := Contents();
      for i := 0 to |due|
        invariant forall j :: i <= j < |due| ==> due[j] in retries && retries[due[j]] == t.retries[due[j]]
        invariant ActivateAll(t, due, now) == ActivateAll(Contents(), due[i..], now)
        invariant Activations(t, due, now) == activated + Activations(Contents(), due[i..], now)
      {
        assert due[i..][0] == due[i] && due[i..][1..] == due[i + 1..];
        var changed := ActivateOne(due[i], now);
        activated := activated + if changed then 1 else 0;
      }
    }

    method ActivateOne(timer: AttemptId, now: Instant) returns (changed: bool)
      requires timer in retries && retries[timer].state == TimerPending && retries[timer].due <= Millis(now)
      modifies this
      ensures Contents() == Step(old(Contents()), ActivateRetry(timer, now))
      ensures changed <==> Activates(old(Contents()), timer)
      ensures forall other :: other in old(retries) && other != timer ==>
        other in retries && retries[other] == old(retries)[other]
    {
      var r := timer.runId;
      changed := r in runs && runs[r].state == RunRetryScheduled;
      if changed {
        runs := runs[r := runs[r].(state := RunPending, conclusion := None, updatedAt := Millis(now))];
      }
      retries := retries[timer := retries[timer].(state := if changed then TimerCompleted else TimerCancelled)];
    }

    /** WHERE state = 'pending' AND due_at <= now ORDER BY due_at, id LIMIT. */
    method ListDueRetries(now: Instant, size: nat) returns (due: seq<AttemptId>)
      ensures IsDuePage(Contents(), due, now, size)
      ensures forall i, j :: 0 <= i < j < |due| ==>
        due[i] in retries && due[j] in retries && retries[due[i]].due <= retries[due[j]].due
      ensures forall i, a :: 0 <= i < |due| && a in retries && a !in due && retries[a].state == TimerPending ==>
        due[i] in retries && retries[due[i]].due <= retries[a].due
    {
      var t := Tables(runs, attempts, leases, approvals, retries);
      var rest := set a | a in retries && retries[a].state == TimerPending && retries[a].due <= Millis(now);
      due := [];
      while rest != {} && |due| < size
        invariant |due| <= size && rest <= retries.Keys
        invariant forall a :: a in rest || a in due <==> IsDue(t, a, now)
        invariant forall i, j :: 0 <= i < j < |due| ==> due[i] != due[j] && SoonerRetry(t, due[i], due[j])
        invariant forall i, a :: 0 <= i < |due| && a in rest ==> due[i] != a && SoonerRetry(t, due[i], a)
        decreases rest
      {
        StringsTotallyOrdered();
        ghost var witnessed := LeastExists((a, b) => SoonerRetry(t, a, b), rest);
        var a :| a in rest && forall other :: other in rest ==> SoonerRetry(t, a, other);
        due, rest := due + [a], rest - {a};
      }
    }

    /** Pins or unpins a run. */
    method SetRunPinned(r: string, pinned: bool, now: Instant) returns (error: Option<StoreError>)
      modifies this
      ensures Contents() == Step(old(Contents()), Pin(r, pinned, now))
      ensures error == if r in old(runs) then None else Some(NotFound)
      ensures error == None ==> r in runs && runs[r].pinned == pinned
    {
      if r !in runs {
        return Some(NotFound);
      }
      runs := runs[r := runs[r].(pinned := pinned, updatedAt := Millis(now))];
      return None;
    }

    /** The run and attempt rows of a pruning, for an ended run that is not pinned. */
    method PruneRunRows(r: string, now: Instant) returns (error: Option<StoreError>)
      modifies this
      ensures Contents() == Step(old(Contents()), Prune(r, now))
      ensures error == None <==> Succeeds(old(Contents()), Prune(r, now))
      ensures error == Some(NotFound) <==> r !in old(runs)
      ensures error == None <==>
        && r in old(runs) && !old(runs)[r].pinned
        && old(runs)[r].state in {RunSucceeded, RunFailed, RunCancelled, RunInterrupted}
    {
      if r !in runs {
        return Some(NotFound);
      }
      if runs[r].pinned || !IsTerminal(runs[r].state) {
        return Some(Conflict);
      }
      attempts := map a | a in attempts ::
        if a.runId == r then attempts[a].(result := StripLog(attempts[a].result)) else attempts[a];
      runs := runs[r := runs[r].(prunedAt := Some(Millis(now)), updatedAt := Millis(now))];
      return None;
    }

    /** Any one operation, as another process might perform it. */
    method Perform(op: Op)
      modifies this
      ensures Contents() == Step(old(Contents()), op)
    {
      match op
      case Enqueue(id, row) =>
        var _ := CreateRun(id, row, true);
      case ClaimNext(worker, harnesses, now, ttl) =>
        var _ := ClaimNextForHarnesses(worker, harnesses, now, ttl);
      case Prepare(claim, now) =>
        var _ := PrepareClaim(claim, now);
      case Start(claim, processId, now) =>
        var _ := StartAttempt(claim, processId, now);
      case Heartbeat(claim, now, ttl) =>
        var _ := HeartbeatLease(claim, now, ttl);
      case Complete(claim, state, conclusion, result, now) =>
        var _ := CompleteClaim(claim, state, conclusion, result, now);
      case Recover(now) =>
        var _ := RecoverExpiredLeases(now);
      case Request(claim, id, kind, scope, summary, now) =>
        var _ := RequestApproval(claim, id, kind, scope, summary, now);
      case Decide(id, decision, reason, now) =>
        var _ := DecideApproval(id, decision, reason, now);
      case CancelApproval(id, reason, now) =>
        var _ := CancelApprovalById(id, reason, now);
      case CancelPending(r, now) =>
        var _ := CancelPendingRun(r, now);
      case ScheduleRetry(claim, dueAt, why, result, now) =>
        var _ := ScheduleClaimRetry(claim, dueAt, why, result, now);
      case ActivateRetry(timer, now) =>
        if timer in retries && retries[timer].state == TimerPending && retries[timer].due <= Millis(now) {
          var _ := ActivateOne(timer, now);
        }
      case Pin(r, pinned, now) =>
        var _ := SetRunPinned(r, pinned, now);
      case Prune(r, now) =>
        var _ := PruneRunRows(r, now);
    }
  }

  /** The stored run is the one handed in, its texts trimmed and never pruned. */
  predicate StoredAs(row: Run, run: Run) {
    && run.key == TrimSpace(row.key) && run.agent == TrimSpace(row.agent)
    && run.workspace == TrimSpace(row.workspace) && run.harness == TrimSpace(row.harness)
    && run.event == row.event && run.parent == row.parent && run.team == row.team && run.permission == row.permission
    && run.createdAt == row.createdAt && run.updatedAt == row.updatedAt
    && run.state == row.state && run.conclusion == row.conclusion
    && run.pinned == row.pinned && run.prunedAt == None
  }

  function RetryLimit(limit: int): nat {
    if limit <= 0 || limit > 500 then 100 else limit
  }

  function Decimal(n: nat): string {
    var digit := ["0123456789"[n % 10]];
    if n < 10 then digit else Decimal(n / 10) + digit
  }

  /** The id text of a retry timer. */
  function TimerText(a: AttemptId): string {
    "retry:" + a.runId + ":" + if a.number < 0 then "-" + Decimal(-a.number) else Decimal(a.number)
  }

  /** ORDER BY due_at, id. */
  predicate SoonerRetry(t: Tables, a: AttemptId, b: AttemptId) {
    && a in t.retries && b in t.retries
    && (|| t.retries[a].due < t.retries[b].due
        || (t.retries[a].due == t.retries[b].due && StringLeq(TimerText(a), TimerText(b))))
  }

  predicate IsDue(t: Tables, a: AttemptId, now: Instant) {
    IsPendingRetry(t, a) && t.retries[a].due <= Millis(now)
  }

  /** The earliest due timers in order, all of them if the page is not full. */
  ghost predicate IsDuePage(t: Tables, due: seq<AttemptId>, now: Instant, size: nat) {
    && |due| <= size
    && (forall i :: 0 <= i < |due| ==> IsDue(t, due[i], now))
    && (forall i, j :: 0 <= i < j < |due| ==> due[i] != due[j] && SoonerRetry(t, due[i], due[j]))
    && (forall a :: IsDue(t, a, now) && a !in due ==>
          |due| == size && forall i :: 0 <= i < |due| ==> SoonerRetry(t, due[i], a))
  }

  ghost function ActivateAll(t: Tables, due: seq<AttemptId>, now: Instant): Tables
    decreases |due|
  {
    if due == [] then t else ActivateAll(Step(t, ActivateRetry(due[0], now)), due[1..], now)
  }

  /** The timer's run waits for it. */
  predicate Activates(t: Tables, timer: AttemptId) {
    timer.runId in t.runs && t.runs[timer.runId].state == RunRetryScheduled
  }

  ghost function Activations(t: Tables, due: seq<AttemptId>, now: Instant): nat
    decreases |due|
  {
    if due == [] then 0
    else (if Activates(t, due[0]) then 1 else 0) + Activations(Step(t, ActivateRetry(due[0], now)), due[1..], now)
  }

  ghost function ExpiredRuns(t: Tables, now: Instant): set<string> {
    set r | r in t.leases && Expired(t, r, now)
  }

  /** The tables when the expired leases of the runs in `done` are reconciled. */
  ghost function RecoveredAmong(t: Tables, done: set<string>, now: Instant): Tables {
    Tables(
      map r | r in t.runs :: if r in done then RecoveredRun(t.runs[r], now) else t.runs[r],
      map a | a in t.attempts :: if a.runId in done then RecoveredAttempt(t.attempts[a], now) else t.attempts[a],
      map r | r in t.leases && r !in done :: t.leases[r],
      t.approvals,
      t.retries)
  }

  ghost function AfterRecoverRun(t: Tables, r: string, found: RunState, now: Instant): Tables
    requires r in t.runs
  {
    Tables(
      t.runs[r := t.runs[r].(
        state := if found == RunLeased then RunPending else RunInterrupted, updatedAt := Millis(now))],
      map a | a in t.attempts :: if a.runId == r then RecoveredAttempt(t.attempts[a], now) else t.attempts[a],
      t.leases - {r},
      t.approvals,
      t.retries)
  }

  lemma RecoverOne(t: Tables, done: set<string>, r: string, now: Instant)
    requires r in t.runs && r !in done
    ensures AfterRecoverRun(RecoveredAmong(t, done, now), r, t.runs[r].state, now)
         == RecoveredAmong(t, done + {r}, now)
  {
  }

  lemma RecoveredAll(t: Tables, now: Instant)
    ensures RecoveredAmong(t, ExpiredRuns(t, now), now) == Step(t, Recover(now))
    ensures RecoveredAmong(t, {}, now) == t
  {
  }

  /** The approval was decided at that row time or later. */
  predicate NotBefore(at: int, a: Approval) {
    a.decidedAt.Some? && at <= a.decidedAt.value
  }

  /** ORDER BY decided_at DESC, an undecided row last. */
  predicate LaterDecided(a: Approval, b: Approval) {
    a.decidedAt.Some? && (b.decidedAt.None? || a.decidedAt.value > b.decidedAt.value)
  }

  /** In the order of the query, the first claimable candidate is the oldest one. */
  lemma FirstClaimableIsOldest(t: Tables, candidates: seq<string>, i: nat, harnesses: Option<seq<string>>, now: Instant)
    requires i < |candidates| && Claimable(t, candidates[i], harnesses, now)
    requires forall r :: r in candidates <==> r in t.runs && t.runs[r].state == RunPending
    requires forall x, y :: 0 <= x < y < |candidates| ==> NoYounger(t, candidates[x], candidates[y])
    requires forall j :: 0 <= j < i ==> !Claimable(t, candidates[j], harnesses, now)
    ensures SomeClaimable(t, harnesses, now) && OldestClaimable(t, harnesses, now) == candidates[i]
  {
    StringLeqReflexive(candidates[i]);
    forall other | Claimable(t, other, harnesses, now) ensures NoYounger(t, candidates[i], other) {
      assert other in candidates;
      var k :| 0 <= k < |candidates| && candidates[k] == other;
      assert k >= i;
    }
    OldestClaimableUnique(t, candidates[i], OldestClaimable(t, harnesses, now), harnesses, now);
  }

  lemma NoneClaimable(t: Tables, candidates: seq<string>, harnesses: Option<seq<string>>, now: Instant)
    requires forall r :: r in candidates <==> r in t.runs && t.runs[r].state == RunPending
    requires forall j :: 0 <= j < |candidates| ==> !Claimable(t, candidates[j], harnesses, now)
    ensures !SomeClaimable(t, harnesses, now)
  {
  }
}
