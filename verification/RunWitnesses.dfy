/** Concrete runs of the store: what skewed clocks do to workspace exclusion, and what
    a decision does to a run whose lease has expired. */
module RunWitnesses {
  import opened Wrappers
  import opened Times
  import opened Ordering
  import opened Strings
  import opened RunModel
  import opened RunHistory
  import opened RunClock

  lemma MaxNumberIs(t: Tables, r: string, n: int)
    requires IsMaxNumber(t, r, n)
    ensures MaxNumber(t, r) == n
  {
  }

  lemma ClaimStep(t: Tables, op: Op, r: string, attempts: int)
    requires op.ClaimNext? && TrimSpace(op.worker) != "" && op.ttl > 0 && r !in t.leases
    requires IsOldestClaimable(t, r, op.harnesses, op.now) && IsMaxNumber(t, r, attempts)
    ensures Succeeds(t, op) && Step(t, op) == AfterClaim(t, r, TrimSpace(op.worker), op.now, op.ttl)
    ensures MaxNumber(t, r) == attempts
  {
    OldestClaimableUnique(t, r, OldestClaimable(t, op.harnesses, op.now), op.harnesses, op.now);
    MaxNumberIs(t, r, attempts);
  }

  function WriterRow(key: string, createdAt: int): FreshRow {
    Run(key, None, "", "", "agent", "shared", "h", PermissionReadwrite,
        createdAt, RunPending, None, createdAt, false, None)
  }

  const FIRST_ENQUEUED := Enqueue("a", WriterRow("a", 0))
  const SECOND_ENQUEUED := Enqueue("b", WriterRow("b", 1))
  const QUEUED := Tables(map["a" := WriterRow("a", 0), "b" := WriterRow("b", 1)], map[], map[], map[], map[])
  const FIRST_CLAIM := Claim("a", AttemptId("a", 1), "w")
  const FIRST_CLAIMED := ClaimNext("w", None, 0, 10 * MS)
  const SECOND_CLAIMED := ClaimNext("v", None, 10 * MS, 10 * MS)
  const ONE_CLAIMED: History := [FIRST_ENQUEUED, SECOND_ENQUEUED, FIRST_CLAIMED]
  const BOTH_CLAIMED: History := ONE_CLAIMED + [SECOND_CLAIMED]
  const LATE_HEARTBEAT := Heartbeat(FIRST_CLAIM, 5 * MS, 10 * MS)

  lemma FirstQueued()
    ensures Step(EMPTY_TABLES, FIRST_ENQUEUED) == EMPTY_TABLES.(runs := map["a" := WriterRow("a", 0)])
  {
  }

  lemma TwoQueued()
    ensures Replay(EMPTY_TABLES, [FIRST_ENQUEUED, SECOND_ENQUEUED]) == QUEUED
  {
    FirstQueued();
    var one := EMPTY_TABLES.(runs := map["a" := WriterRow("a", 0)]);
    assert !KeyTaken(one, "b");
    assert Insertable(one, "b", WriterRow("b", 1));
    assert Step(one, SECOND_ENQUEUED) == QUEUED;
    assert [FIRST_ENQUEUED, SECOND_ENQUEUED][1..] == [SECOND_ENQUEUED];
    assert Replay(one, [SECOND_ENQUEUED]) == QUEUED;
  }

  lemma OneClaimedHistory()
    ensures Replay(EMPTY_TABLES, ONE_CLAIMED) == Step(QUEUED, FIRST_CLAIMED)
  {
    TwoQueued();
    assert ONE_CLAIMED == [FIRST_ENQUEUED, SECOND_ENQUEUED] + [FIRST_CLAIMED];
    ReplayAppend(EMPTY_TABLES, [FIRST_ENQUEUED, SECOND_ENQUEUED], FIRST_CLAIMED);
  }

  /** Two writers queue for one workspace and the first is claimed for 10 ms. */
  ghost predicate OneWriter(t: Tables) {
    && t.runs.Keys == {"a", "b"} && t.runs["a"].state == RunLeased && t.runs["b"].state == RunPending
    && t.runs["a"].workspace == t.runs["b"].workspace == "shared"
    && t.runs["a"].permission == t.runs["b"].permission == PermissionReadwrite
    && t.leases == map["a" := Lease("shared", LeaseWrite, "w", 0, 0, 10)]
    && t.attempts == map[AttemptId("a", 1) := Attempt("w", RunPreparing, None, None, None, None)]
    && t.approvals == map[] && t.retries == map[]
  }

  lemma FirstWriterClaimed()
    ensures OneWriter(Step(QUEUED, FIRST_CLAIMED))
  {
    assert Claimable(QUEUED, "a", None, 0);
    assert IsOldestClaimable(QUEUED, "a", None, 0);
    ClaimStep(QUEUED, FIRST_CLAIMED, "a", 0);
  }

  lemma OneWriterClaimed() returns (t: Tables)
    ensures t == Replay(EMPTY_TABLES, ONE_CLAIMED) && OneWriter(t)
  {
    FirstWriterClaimed();
    OneClaimedHistory();
    t := Step(QUEUED, FIRST_CLAIMED);
  }

  /** Once the first lease expired, the second writer is claimed for 10 ms more. */
  lemma SecondWriterClaimed(t: Tables)
    requires t.runs.Keys == {"a", "b"} && t.runs["a"].state != RunPending && t.runs["b"].state == RunPending
    requires t.runs["b"].workspace == "shared" && t.runs["b"].permission == PermissionReadwrite
    requires t.leases.Keys == {"a"} && t.leases["a"].expiresAt <= 10
    requires forall k :: AttemptId("b", k) !in t.attempts
    ensures Step(t, SECOND_CLAIMED) == AfterClaim(t, "b", "v", 10 * MS, 10 * MS)
  {
    assert Claimable(t, "b", None, 10 * MS);
    StringLeqReflexive("b");
    assert IsOldestClaimable(t, "b", None, 10 * MS);
    ClaimStep(t, SECOND_CLAIMED, "b", 0);
  }

  /** The second writer's lease is that of the clash theorems' conflict. */
  lemma BothClaimed() returns (u: Tables)
    ensures u == Replay(EMPTY_TABLES, BOTH_CLAIMED)
    ensures "a" in u.runs && u.runs["a"].state == RunLeased
    ensures u.leases == map["a" := Lease("shared", LeaseWrite, "w", 0, 0, 10),
                            "b" := Lease("shared", LeaseWrite, "v", 10, 10, 20)]
  {
    var t := OneWriterClaimed();
    SecondWriterClaimed(t);
    ReplayAppend(EMPTY_TABLES, ONE_CLAIMED, SECOND_CLAIMED);
    u := AfterClaim(t, "b", "v", 10 * MS, 10 * MS);
    SecondLease(t);
  }

  lemma SecondLease(t: Tables)
    requires "b" in t.runs && t.runs["b"].workspace == "shared" && t.runs["b"].permission == PermissionReadwrite
    requires t.leases == map["a" := Lease("shared", LeaseWrite, "w", 0, 0, 10)]
    ensures var u := AfterClaim(t, "b", "v", 10 * MS, 10 * MS);
      && u.leases == map["a" := Lease("shared", LeaseWrite, "w", 0, 0, 10),
                         "b" := Lease("shared", LeaseWrite, "v", 10, 10, 20)]
      && ("a" in t.runs ==> "a" in u.runs && u.runs["a"] == t.runs["a"])
  {
  }

  /** A clock that runs behind: a heartbeat stamped 5 ms revives a lease that had
      expired when the second writer was claimed at 10 ms. */
  lemma LateHeartbeatBreaksExclusion()
    ensures Exclusive(Replay(EMPTY_TABLES, BOTH_CLAIMED), 10)
    ensures !Exclusive(Replay(EMPTY_TABLES, BOTH_CLAIMED + [LATE_HEARTBEAT]), 10)
  {
    var u := BothClaimed();
    LateHeartbeatRevives(u);
    ReplayAppend(EMPTY_TABLES, BOTH_CLAIMED, LATE_HEARTBEAT);
  }

  /** A clock that runs ahead: after a claim stamped 10 ms, the first worker, at 5 ms,
      prepares its run with its own lease live and a conflicting one live too. */
  lemma EarlyClaimBreaksExclusion()
    ensures Exclusive(Replay(EMPTY_TABLES, ONE_CLAIMED), 5)
    ensures Succeeds(Replay(EMPTY_TABLES, BOTH_CLAIMED), Prepare(FIRST_CLAIM, 5 * MS))
    ensures !Undisturbed(Replay(EMPTY_TABLES, BOTH_CLAIMED), "a", 5)
  {
    var t := OneWriterClaimed();
    var u := BothClaimed();
    assert LiveAt(u.leases["b"], 5);
    assert ConflictLive(u, "a", u.leases["a"], 5);
  }

  lemma LateHeartbeatRevives(u: Tables)
    requires "a" in u.runs && u.runs["a"].state == RunLeased
    requires u.leases == map["a" := Lease("shared", LeaseWrite, "w", 0, 0, 10),
                             "b" := Lease("shared", LeaseWrite, "v", 10, 10, 20)]
    ensures Exclusive(u, 10) && !Exclusive(Step(u, LATE_HEARTBEAT), 10)
  {
    var v := Step(u, LATE_HEARTBEAT);
    assert v.leases["a"].expiresAt == 15 && v.leases["b"].expiresAt == 20;
    assert LiveAt(v.leases["a"], 10) && LiveAt(v.leases["b"], 10);
  }

  const FIRST_PREPARED := Prepare(FIRST_CLAIM, 1 * MS)
  const FIRST_ASKED := Request(FIRST_CLAIM, "q", "k", Scope("{}", None, None, None, false), "", 2 * MS)
  const APPROVED := Decide("q", ApprovalApproved, "", 11 * MS)
  const WAITED: History := ONE_CLAIMED + [FIRST_PREPARED] + [FIRST_ASKED] + [SECOND_CLAIMED] + [APPROVED]

  lemma FirstWriterPrepares(t: Tables) returns (u: Tables)
    requires "a" in t.runs && t.runs["a"].state == RunLeased
    requires t.leases == map["a" := Lease("shared", LeaseWrite, "w", 0, 0, 10)]
    ensures u == Step(t, FIRST_PREPARED)
    ensures u == t.(runs := u.runs) && u.runs == t.runs["a" := u.runs["a"]] && u.runs["a"].state == RunPreparing
  {
    u := Step(t, FIRST_PREPARED);
  }

  /** The first writer pauses for an approval while its lease lasts. */
  lemma FirstWriterWaits(t: Tables) returns (u: Tables)
    requires "a" in t.runs && t.runs["a"].state == RunPreparing && AttemptId("a", 1) in t.attempts
    requires t.leases == map["a" := Lease("shared", LeaseWrite, "w", 0, 0, 10)] && t.approvals == map[]
    ensures u == Step(t, FIRST_ASKED)
    ensures u.leases == t.leases && u.attempts == t.attempts && u.runs == t.runs["a" := u.runs["a"]]
    ensures u.runs["a"].state == RunWaitingForApproval
    ensures u.approvals.Keys == {"q"} && u.approvals["q"].state == ApprovalPending
    ensures u.approvals["q"].runId == "a" && u.approvals["q"].resumeState == RunPreparing
  {
    assert TrimSpace("q") == "q" && TrimSpace("k") == "k";
    assert !GrantExists(t, "a", "k", FIRST_ASKED.scope);
    assert Pauses(t, FIRST_CLAIM, "q", "k", FIRST_ASKED.scope, 2 * MS);
    u := AfterPause(t, FIRST_CLAIM, "q", "k", FIRST_ASKED.scope, "", 2 * MS);
  }

  /** The approval of a waiting run resumes it, whatever has become of its lease. */
  lemma ApprovalResumes(t: Tables)
    requires "a" in t.runs && t.runs["a"].state == RunWaitingForApproval
    requires "a" in t.leases && !LiveAt(t.leases["a"], 11) && IsPendingApproval(t, "q")
    requires t.approvals["q"].runId == "a" && t.approvals["q"].resumeState == RunPreparing
    ensures var u := Step(t, APPROVED);
      && u.runs.Keys == t.runs.Keys && u.leases == t.leases && u.runs["a"].state == RunPreparing
      && !Succeeds(u, Start(FIRST_CLAIM, 1, 11 * MS))
  {
  }

  lemma WaitedHistory()
    ensures Replay(EMPTY_TABLES, WAITED) ==
      Step(Step(Step(Step(Replay(EMPTY_TABLES, ONE_CLAIMED), FIRST_PREPARED), FIRST_ASKED), SECOND_CLAIMED), APPROVED)
  {
    ReplayAppend(EMPTY_TABLES, ONE_CLAIMED, FIRST_PREPARED);
    ReplayAppend(EMPTY_TABLES, ONE_CLAIMED + [FIRST_PREPARED], FIRST_ASKED);
    ReplayAppend(EMPTY_TABLES, ONE_CLAIMED + [FIRST_PREPARED] + [FIRST_ASKED], SECOND_CLAIMED);
    ReplayAppend(EMPTY_TABLES, ONE_CLAIMED + [FIRST_PREPARED] + [FIRST_ASKED] + [SECOND_CLAIMED], APPROVED);
  }

  /** A decision does not look at leases: it resumes a run whose lease expired while
      another run holds a live write lease on the workspace. The lease check then
      stops the resumed run from starting. */
  lemma DecisionIgnoresLease() returns (u: Tables)
    ensures u == Replay(EMPTY_TABLES, WAITED)
    ensures u.runs.Keys == {"a", "b"} && u.leases.Keys == {"a", "b"} && u.runs["a"].state == RunPreparing
    ensures !LiveAt(u.leases["a"], 11) && LiveAt(u.leases["b"], 11)
    ensures !Compatible(u.leases["b"], u.leases["a"].workspace, u.leases["a"].mode)
    ensures !Succeeds(u, Start(FIRST_CLAIM, 1, 11 * MS))
  {
    var t := OneWriterClaimed();
    var prepared := FirstWriterPrepares(t);
    var waiting := FirstWriterWaits(prepared);
    SecondWriterClaimed(waiting);
    var claimed := Step(waiting, SECOND_CLAIMED);
    ApprovalResumes(claimed);
    u := Step(claimed, APPROVED);
    WaitedHistory();
  }
}
