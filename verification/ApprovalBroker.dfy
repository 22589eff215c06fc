/** The broker: asks the store for a grant and polls until a decision is recorded.

    Everything outside the broker is a parameter: the random approval id, the times
    read from the clock, what the rest of the system does to the store between two
    of the broker's calls, and when its context is found cancelled. */
module ApprovalBroker {
  import opened Wrappers
  import opened Times
  import opened Strings
  import opened RunModel
  import opened RunInvariant
  import opened RunHistory
  import opened RunCauses
  import opened RunStore
  import opened ApprovalCoverage

  /** One turn of the polling loop. `before` and `meanwhile` are the operations of
      others before the poll and between the poll and the heartbeat; the context may
      be found cancelled before, after the poll, or when the heartbeat fails. */
  datatype Tick = Tick(done: bool, before: History, doneAfterPoll: bool, meanwhile: History, now: Instant,
                       doneAtFailure: bool)

  datatype BrokerError = InvalidRequest | StoreFailed(error: StoreError) | ContextDone

  const DEFAULT_LEASE_TTL: Duration := 30_000_000_000

  /** The store holds an approved grant of the run that covers the request. */
  ghost predicate CoveredIn(t: Tables, runId: string, request: PermissionRequest) {
    exists id :: ApprovalOf(t, id, runId) && CoveredBy(request, t.approvals[id])
  }

  /** A covering grant is never lost. */
  lemma CoveredStays(t: Tables, h: History, runId: string, request: PermissionRequest)
    requires CoveredIn(t, runId, request)
    ensures CoveredIn(Replay(t, h), runId, request)
  {
    var id :| ApprovalOf(t, id, runId) && CoveredBy(request, t.approvals[id]);
    DecidedApprovalNeverChanges(t, h, id);
    assert ApprovalOf(Replay(t, h), id, runId);
  }

  /** Others act on the store. */
  method Interfere(store: Store, h: History)
    modifies store
    ensures store.Contents() == Replay(old(store.Contents()), h)
  {
    for i := 0 to |h|
      invariant Replay(old(store.Contents()), h) == Replay(store.Contents(), h[i..])
    {
      assert h[i..][0] == h[i] && h[i..][1..] == h[i + 1..];
      store.Perform(h[i]);
    }
  }

  /** ListApprovals and the search for a covering grant. */
  method FindCovering(store: Store, runId: string, request: PermissionRequest) returns (found: bool)
    ensures found <==> CoveredIn(store.Contents(), runId, request)
  {
    var rest := set id | id in store.approvals && store.approvals[id].runId == runId;
    found := false;
    while rest != {}
      invariant rest <= store.approvals.Keys
      invariant forall id :: ApprovalOf(store.Contents(), id, runId) && CoveredBy(request, store.approvals[id]) ==>
        id in rest
      decreases rest
    {
      var id :| id in rest;
      rest := rest - {id};
      if store.approvals[id].runId == runId && CoveredBy(request, store.approvals[id]) {
        assert ApprovalOf(store.Contents(), id, runId);
        return true;
      }
    }
  }

  /** The stored question is the request's own. */
  predicate Asks(a: Approval, runId: string, request: PermissionRequest) {
    a.runId == runId && a.kind == TrimSpace(request.kind) && a.scope == request.scope
  }

  /** An approved answer to the request's own question covers it. */
  lemma ApprovedAnswerCovers(t: Tables, id: string, runId: string, request: PermissionRequest)
    requires Validate(request) && TrimSpace(request.kind) == request.kind
    requires id in t.approvals && Asks(t.approvals[id], runId, request) && t.approvals[id].state == ApprovalApproved
    ensures CoveredIn(t, runId, request)
  {
  }

  /** Somebody gave the approval this answer among these operations. */
  predicate AnsweredBy(h: History, id: string, answer: ApprovalState) {
    exists i :: 0 <= i < |h| && Answers(h[i], id, answer)
  }

  predicate AnsweredInTick(tick: Tick, id: string, answer: ApprovalState) {
    AnsweredBy(tick.before, id, answer) || AnsweredBy(tick.meanwhile, id, answer)
  }

  /** Somebody did while the broker waited. */
  predicate AnsweredDuring(ticks: seq<Tick>, id: string, answer: ApprovalState) {
    exists i :: 0 <= i < |ticks| && AnsweredInTick(ticks[i], id, answer)
  }

  lemma {:induction false} AnsweredInBy(t: Tables, h: History, id: string, answer: ApprovalState)
    requires AnsweredIn(t, h, id, answer)
    ensures AnsweredBy(h, id, answer)
    decreases |h|
  {
    if Answers(h[0], id, answer) && Succeeds(t, h[0]) {
      assert Answers(h[0], id, answer);
    } else {
      AnsweredInBy(Step(t, h[0]), h[1..], id, answer);
      var i :| 0 <= i < |h[1..]| && Answers(h[1..][i], id, answer);
      assert h[i + 1] == h[1..][i];
    }
  }

  /** The state the approval is in when others have acted. */
  ghost function StateAfter(t: Tables, h: History, id: string): ApprovalState
    requires id in t.approvals
  {
    DecidedApprovalNeverChanges(t, h, id);
    Replay(t, h).approvals[id].state
  }

  /** Others' operations answer a pending approval only by answering it. */
  lemma InterferenceAnswers(t: Tables, h: History, id: string)
    requires id in t.approvals
    ensures id in Replay(t, h).approvals
    ensures t.approvals[id].state == ApprovalPending && Replay(t, h).approvals[id].state != ApprovalPending ==>
      AnsweredBy(h, id, Replay(t, h).approvals[id].state)
  {
    DecidedApprovalNeverChanges(t, h, id);
    var answer := Replay(t, h).approvals[id].state;
    if t.approvals[id].state == ApprovalPending && answer != ApprovalPending {
      AnsweredExactly(t, h, id, answer);
      AnsweredInBy(t, h, id, answer);
    }
  }

  /** Broker.Authorize. Whenever it answers yes to a request whose kind has no
      surrounding blanks, the run has an approved grant that covers the request. */
  method Authorize(store: Store, claim: Claim, request: PermissionRequest, id: string, now: Instant,
                   between: History, ticks: seq<Tick>, leaseTtl: Duration, cancelledAt: Instant)
    returns (outcome: Result<bool, BrokerError>)
    modifies store
    ensures outcome == Ok(true) && TrimSpace(request.kind) == request.kind ==>
      CoveredIn(store.Contents(), claim.runId, request)
    ensures outcome == Err(InvalidRequest) <==> !Validate(request)
    ensures outcome == Err(InvalidRequest) ==> store.Contents() == old(store.Contents())
    ensures old(CoveredIn(store.Contents(), claim.runId, request)) && Validate(request) ==> outcome == Ok(true)
    ensures outcome == Ok(true) && !old(CoveredIn(store.Contents(), claim.runId, request)) ==>
      || GrantExists(Replay(old(store.Contents()), between), claim.runId, TrimSpace(request.kind), request.scope)
      || AnsweredDuring(ticks, TrimSpace(id), ApprovalApproved)
    ensures outcome == Ok(false) ==>
      AnsweredDuring(ticks, TrimSpace(id), ApprovalDenied) || AnsweredDuring(ticks, TrimSpace(id), ApprovalCancelled)
  {
    if !Validate(request) {
      return Err(InvalidRequest);
    }
    var found := FindCovering(store, claim.runId, request);
    if found {
      return Ok(true);
    }
    Interfere(store, between);
    outcome := AskAndWait(store, claim, request, id, now, ticks, leaseTtl, cancelledAt);
  }

  /** Asks, unless an identical request was approved, and waits for the answer. */
  method AskAndWait(store: Store, claim: Claim, request: PermissionRequest, id: string, now: Instant,
                    ticks: seq<Tick>, leaseTtl: Duration, cancelledAt: Instant)
    returns (outcome: Result<bool, BrokerError>)
    requires Validate(request)
    modifies store
    ensures outcome != Err(InvalidRequest)
    ensures outcome == Ok(true) && TrimSpace(request.kind) == request.kind ==>
      CoveredIn(store.Contents(), claim.runId, request)
    ensures outcome == Ok(true) ==>
      || GrantExists(old(store.Contents()), claim.runId, TrimSpace(request.kind), request.scope)
      || AnsweredDuring(ticks, TrimSpace(id), ApprovalApproved)
    ensures outcome == Ok(false) ==>
      AnsweredDuring(ticks, TrimSpace(id), ApprovalDenied) || AnsweredDuring(ticks, TrimSpace(id), ApprovalCancelled)
  {
    var asked := store.RequestApproval(claim, id, request.kind, request.scope, request.summary, now);
    if asked.Err? {
      return Err(StoreFailed(asked.error));
    }
    var approvalId := asked.value.0;
    if !asked.value.1 {
      if TrimSpace(request.kind) == request.kind {
        ApprovedAnswerCovers(store.Contents(), approvalId, claim.runId, request);
      }
      return Ok(true);
    }
    var ttl := if leaseTtl <= 0 then DEFAULT_LEASE_TTL else leaseTtl;
    outcome := AwaitDecision(store, claim, request, approvalId, ticks, ttl, cancelledAt);
  }

  /** The answer a decided approval gives, or none while it is pending. */
  function AnswerOf(state: ApprovalState): Option<bool> {
    if state == ApprovalPending then None else Some(state == ApprovalApproved)
  }

  /** The claim's lease has just been extended. */
  predicate Heartbeaten(t: Tables, claim: Claim, now: Instant, ttl: Duration) {
    && claim.runId in t.leases && t.leases[claim.runId].owner == claim.owner
    && t.leases[claim.runId].heartbeatAt == Millis(now) && t.leases[claim.runId].expiresAt == Millis(now + ttl)
  }

  /** The wait was cancelled: so is the approval, if nobody decided it meanwhile. */
  method StopAsking(store: Store, runId: string, request: PermissionRequest, id: string, cancelledAt: Instant)
    requires id in store.approvals && Asks(store.approvals[id], runId, request)
    modifies store
    ensures id in store.approvals && Asks(store.approvals[id], runId, request)
    ensures store.approvals[id].state ==
      if old(store.approvals[id].state) == ApprovalPending then ApprovalCancelled else old(store.approvals[id].state)
  {
    var _ := store.CancelApprovalById(id, "run cancelled", cancelledAt);
  }

  /** One tick: polls the approval and, while it is pending, heartbeats the lease. */
  method PollOnce(store: Store, claim: Claim, request: PermissionRequest, id: string,
                  tick: Tick, leaseTtl: Duration, cancelledAt: Instant)
    returns (outcome: Option<Result<bool, BrokerError>>)
    requires id in store.approvals && Asks(store.approvals[id], claim.runId, request)
    modifies store
    ensures id in store.approvals && Asks(store.approvals[id], claim.runId, request)
    ensures outcome.Some? && outcome.value.Ok? ==> AnswerOf(store.approvals[id].state) == Some(outcome.value.value)
    ensures outcome == Some(Err(ContextDone)) ==> store.approvals[id].state != ApprovalPending
    ensures outcome != Some(Err(InvalidRequest))
    ensures outcome.None? ==> Heartbeaten(store.Contents(), claim, tick.now, leaseTtl)
    ensures var found := StateAfter(old(store.Contents()), tick.before, id);
      && (found != ApprovalPending ==> outcome == Some(Ok(found == ApprovalApproved)))
      && (found == ApprovalPending && tick.doneAfterPoll ==> outcome == Some(Err(ContextDone)))
      && (outcome.Some? && outcome.value.Ok? ==> found != ApprovalPending)
    ensures old(store.approvals[id].state) != ApprovalPending ==>
      store.approvals[id].state == old(store.approvals[id].state) && outcome.Some?
    ensures old(store.approvals[id].state) == ApprovalPending && (outcome.None? || outcome.value.Ok?) ==>
      store.approvals[id].state == ApprovalPending || AnsweredInTick(tick, id, store.approvals[id].state)
  {
    DecidedApprovalNeverChanges(store.Contents(), tick.before, id);
    InterferenceAnswers(store.Contents(), tick.before, id);
    Interfere(store, tick.before);
    var current := store.GetApproval(id);
    match current.value.state {
      case ApprovalApproved => return Some(Ok(true));
      case ApprovalDenied => return Some(Ok(false));
      case ApprovalCancelled => return Some(Ok(false));
      case ApprovalExpired => return Some(Ok(false));
      case ApprovalPending =>
    }
    if tick.doneAfterPoll {
      StopAsking(store, claim.runId, request, id, cancelledAt);
      return Some(Err(ContextDone));
    }
    DecidedApprovalNeverChanges(store.Contents(), tick.meanwhile, id);
    InterferenceAnswers(store.Contents(), tick.meanwhile, id);
    Interfere(store, tick.meanwhile);
    ApprovalKeptByStep(store.Contents(), Heartbeat(claim, tick.now, leaseTtl), id);
    var failed := store.HeartbeatLease(claim, tick.now, leaseTtl);
    if failed.None? {
      return None;
    }
    if tick.doneAtFailure {
      StopAsking(store, claim.runId, request, id, cancelledAt);
      return Some(Err(ContextDone));
    }
    return Some(Err(StoreFailed(failed.value)));
  }

  /** The approval is decided when it is polled for the first time. */
  ghost predicate AnsweredAtOnce(t: Tables, ticks: seq<Tick>, id: string)
    requires id in t.approvals
  {
    ticks != [] && !ticks[0].done && StateAfter(t, ticks[0].before, id) != ApprovalPending
  }

  /** The polling loop; the context is found cancelled at the latest when the ticks
      run out. */
  method PollUntilDecided(store: Store, claim: Claim, request: PermissionRequest, id: string,
                          ticks: seq<Tick>, leaseTtl: Duration, cancelledAt: Instant)
    returns (outcome: Result<bool, BrokerError>)
    requires id in store.approvals && Asks(store.approvals[id], claim.runId, request)
    modifies store
    ensures outcome != Err(InvalidRequest)
    ensures id in store.approvals && Asks(store.approvals[id], claim.runId, request)
    ensures outcome.Ok? ==> AnswerOf(store.approvals[id].state) == Some(outcome.value)
    ensures outcome == Err(ContextDone) ==> store.approvals[id].state != ApprovalPending
    ensures outcome.Ok? && old(store.approvals[id].state) == ApprovalPending ==>
      AnsweredDuring(ticks, id, store.approvals[id].state)
    ensures AnsweredAtOnce(old(store.Contents()), ticks, id) ==>
      outcome == Ok(StateAfter(old(store.Contents()), ticks[0].before, id) == ApprovalApproved)
  {
    for i := 0 to |ticks|
      invariant id in store.approvals && Asks(store.approvals[id], claim.runId, request)
      invariant old(store.approvals[id].state) == ApprovalPending && store.approvals[id].state != ApprovalPending ==>
        AnsweredDuring(ticks, id, store.approvals[id].state)
      invariant AnsweredAtOnce(old(store.Contents()), ticks, id) ==> i == 0 && store.Contents() == old(store.Contents())
    {
      if ticks[i].done {
        break;
      }
      var polled := PollOnce(store, claim, request, id, ticks[i], leaseTtl, cancelledAt);
      if polled.Some? {
        return polled.value;
      }
    }
    StopAsking(store, claim.runId, request, id, cancelledAt);
    outcome := Err(ContextDone);
  }

  /** Waits for the decision. A yes means that the approval asked for was approved, and
      that somebody approved it if nobody had before. */
  method AwaitDecision(store: Store, claim: Claim, request: PermissionRequest, id: string,
                       ticks: seq<Tick>, leaseTtl: Duration, cancelledAt: Instant)
    returns (outcome: Result<bool, BrokerError>)
    requires Validate(request)
    requires id in store.approvals && Asks(store.approvals[id], claim.runId, request)
    modifies store
    ensures outcome != Err(InvalidRequest)
    ensures id in store.approvals && Asks(store.approvals[id], claim.runId, request)
    ensures outcome.Ok? ==> AnswerOf(store.approvals[id].state) == Some(outcome.value)
    ensures outcome == Err(ContextDone) ==> store.approvals[id].state != ApprovalPending
    ensures outcome.Ok? && old(store.approvals[id].state) == ApprovalPending ==>
      AnsweredDuring(ticks, id, store.approvals[id].state)
    ensures AnsweredAtOnce(old(store.Contents()), ticks, id) ==>
      outcome == Ok(StateAfter(old(store.Contents()), ticks[0].before, id) == ApprovalApproved)
    ensures outcome == Ok(true) && TrimSpace(request.kind) == request.kind ==>
      CoveredIn(store.Contents(), claim.runId, request)
  {
    outcome := PollUntilDecided(store, claim, request, id, ticks, leaseTtl, cancelledAt);
    if outcome == Ok(true) && TrimSpace(request.kind) == request.kind {
      ApprovedAnswerCovers(store.Contents(), id, claim.runId, request);
    }
  }
}
