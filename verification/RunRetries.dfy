/** Activating a page of due retries, as the store does it in one transaction. */
module RunRetries {
  import opened RunModel
  import opened Times
  import opened RunInvariant
  import opened RunHistory
  import opened RunStore

  function ActivationHistory(due: seq<AttemptId>, now: Instant): History {
    seq(|due|, i requires 0 <= i < |due| => ActivateRetry(due[i], now))
  }

  /** A page of activations is the history of its single steps, so whatever holds over
      every history holds over it. */
  lemma {:induction false} ActivationIsHistory(t: Tables, due: seq<AttemptId>, now: Instant)
    ensures ActivateAll(t, due, now) == Replay(t, ActivationHistory(due, now))
    decreases |due|
  {
    if due != [] {
      ActivationIsHistory(Step(t, ActivateRetry(due[0], now)), due[1..], now);
      assert ActivationHistory(due, now)[1..] == ActivationHistory(due[1..], now);
    }
  }

  ghost predicate DistinctDue(t: Tables, due: seq<AttemptId>, now: Instant) {
    && (forall i :: 0 <= i < |due| ==> IsDue(t, due[i], now))
    && (forall i, j :: 0 <= i < j < |due| ==> due[i] != due[j])
  }

  /** One pending timer to a run: different due timers are of different runs. */
  lemma DueRunsDiffer(t: Tables, a: AttemptId, b: AttemptId, now: Instant)
    requires Inv(t) && IsDue(t, a, now) && IsDue(t, b, now) && a != b
    ensures a.runId != b.runId
  {
    assert RunInv(t, a.runId);
    assert a == AttemptId(a.runId, a.number) && b == AttemptId(b.runId, b.number);
    assert PendingRetry(t, a.runId, a.number);
    assert a.runId == b.runId ==> PendingRetry(t, a.runId, b.number);
  }

  lemma DueActivates(t: Tables, a: AttemptId, now: Instant)
    requires Inv(t) && IsDue(t, a, now)
    ensures Activates(t, a)
    ensures Step(t, ActivateRetry(a, now)).runs == t.runs[a.runId := Step(t, ActivateRetry(a, now)).runs[a.runId]]
    ensures Step(t, ActivateRetry(a, now)).runs[a.runId].state == RunPending
    ensures forall b :: b != a && IsDue(t, b, now) ==> IsDue(Step(t, ActivateRetry(a, now)), b, now)
  {
    assert RunInv(t, a.runId);
    assert a == AttemptId(a.runId, a.number) && PendingRetry(t, a.runId, a.number);
  }

  /** No due timer is stale: each one of a page makes its run pending again. */
  lemma {:induction false} EveryDueRetryActivates(t: Tables, due: seq<AttemptId>, now: Instant)
    requires Inv(t) && DistinctDue(t, due, now)
    ensures Activations(t, due, now) == |due| && Inv(ActivateAll(t, due, now))
    ensures forall r :: r in t.runs ==> r in ActivateAll(t, due, now).runs
    ensures forall r :: r in t.runs && (forall i :: 0 <= i < |due| ==> due[i].runId != r) ==>
      ActivateAll(t, due, now).runs[r] == t.runs[r]
    ensures forall i :: 0 <= i < |due| ==>
      due[i].runId in t.runs && ActivateAll(t, due, now).runs[due[i].runId].state == RunPending
    decreases |due|
  {
    if due != [] {
      var u, rest := Step(t, ActivateRetry(due[0], now)), due[1..];
      DueActivates(t, due[0], now);
      StepKeepsInv(t, ActivateRetry(due[0], now));
      assert DistinctDue(u, rest, now) by {
        forall i | 0 <= i < |rest| ensures IsDue(u, rest[i], now) {
          assert rest[i] == due[i + 1];
        }
      }
      EveryDueRetryActivates(u, rest, now);
      forall i | 0 <= i < |rest| ensures rest[i].runId != due[0].runId {
        DueRunsDiffer(t, due[0], due[i + 1], now);
      }
      ActivatedRest(t, u, due, now);
    }
  }

  lemma ActivatedRest(t: Tables, u: Tables, due: seq<AttemptId>, now: Instant)
    requires due != [] && u == Step(t, ActivateRetry(due[0], now)) && due[0].runId in t.runs
    requires u.runs == t.runs[due[0].runId := u.runs[due[0].runId]] && u.runs[due[0].runId].state == RunPending
    requires forall i :: 0 <= i < |due[1..]| ==> due[1..][i].runId != due[0].runId
    requires forall r :: r in u.runs ==> r in ActivateAll(u, due[1..], now).runs
    requires forall r :: r in u.runs && (forall i :: 0 <= i < |due[1..]| ==> due[1..][i].runId != r) ==>
      ActivateAll(u, due[1..], now).runs[r] == u.runs[r]
    requires forall i :: 0 <= i < |due[1..]| ==>
      due[1..][i].runId in u.runs && ActivateAll(u, due[1..], now).runs[due[1..][i].runId].state == RunPending
    ensures forall r :: r in t.runs && (forall i :: 0 <= i < |due| ==> due[i].runId != r) ==>
      ActivateAll(t, due, now).runs[r] == t.runs[r]
    ensures forall i :: 0 <= i < |due| ==>
      due[i].runId in t.runs && ActivateAll(t, due, now).runs[due[i].runId].state == RunPending
  {
    var v := ActivateAll(t, due, now);
    assert v == ActivateAll(u, due[1..], now);
    forall r | r in t.runs && (forall i :: 0 <= i < |due| ==> due[i].runId != r) ensures v.runs[r] == t.runs[r] {
      assert forall i :: 0 <= i < |due[1..]| ==> due[1..][i] == due[i + 1];
      assert r != due[0].runId;
    }
    forall i | 0 <= i < |due| ensures due[i].runId in t.runs && v.runs[due[i].runId].state == RunPending {
      if i > 0 {
        assert due[i] == due[1..][i - 1];
      }
    }
  }
}
