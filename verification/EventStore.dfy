/** Durable events: idempotent ingestion and the event status machine, and what it
    promises over every history of operations. */
module EventStore {
  import opened Wrappers
  import opened Times
  import opened Ordering
  import opened Strings
  import opened Router

  datatype EventStatus = EventIngested | EventRouted | EventUnrouted

  datatype Event = Event(
    source: string, externalId: string, kind: string, occurredAt: int, receivedAt: int,
    data: Json, raw: Json, status: EventStatus, reason: Option<string>, routedRun: Option<string>)

  /** The raw data handed in with an event: none, which means the data themselves, a
      JSON value, or text that is not JSON. */
  datatype RawData = SameAsData | Raw(json: Json) | RawMalformed

  /** An event as a caller hands it in. `occurredAt` is None for the zero time, `data`
      for text that is not JSON. */
  datatype NewEvent = NewEvent(
    recordId: string, source: string, externalId: string, kind: string,
    occurredAt: Option<Instant>, receivedAt: Instant, data: Option<Json>, raw: RawData, status: EventStatus)

  type Events = map<string, Event>

  datatype EventOp =
    | Ingest(event: NewEvent)
    | MarkUnrouted(recordId: string, reason: string)
    | Reopen(recordId: string)
    | RouteTo(recordId: string, run: string, why: string)
    | PruneData(recordId: string)

  /** What a pruned event says. */
  const PRUNED_DATA := Object(map["pruned" := Bool(true)])
  const PRUNED_RAW := Object(map[])

  /** normalizeEvent accepts it. */
  predicate WellFormed(event: NewEvent) {
    && TrimSpace(event.recordId) != "" && TrimSpace(event.source) != ""
    && TrimSpace(event.externalId) != "" && TrimSpace(event.kind) != ""
    && event.occurredAt.Some? && event.data.Some? && !event.raw.RawMalformed? && event.status != EventRouted
  }

  function Stored(event: NewEvent): Event
    requires WellFormed(event)
  {
    Event(TrimSpace(event.source), TrimSpace(event.externalId), TrimSpace(event.kind),
          Millis(event.occurredAt.value), Millis(event.receivedAt), event.data.value,
          if event.raw.Raw? then event.raw.json else event.data.value,
          event.status, None, None)
  }

  /** The row is the event handed in: its texts trimmed, its times in whole milliseconds,
      not routed. */
  predicate StoredFrom(event: NewEvent, e: Event) {
    && e.source == TrimSpace(event.source) && e.externalId == TrimSpace(event.externalId)
    && e.kind == TrimSpace(event.kind) && e.status == event.status && e.reason == None && e.routedRun == None
    && event.occurredAt.Some? && e.occurredAt == Millis(event.occurredAt.value)
    && e.receivedAt == Millis(event.receivedAt)
    && event.data == Some(e.data)
    && match event.raw {
       case SameAsData => e.raw == e.data
       case Raw(json) => e.raw == json
       case RawMalformed => false
       }
  }

  /** The row of this source and external id. */
  predicate HasKey(events: Events, id: string, source: string, externalId: string) {
    id in events && events[id].source == source && events[id].externalId == externalId
  }

  ghost predicate KnownEvent(events: Events, source: string, externalId: string) {
    exists id :: HasKey(events, id, source, externalId)
  }

  /** The operation changes the table. */
  ghost predicate Succeeds(events: Events, op: EventOp) {
    match op
    case Ingest(event) =>
      && WellFormed(event) && TrimSpace(event.recordId) !in events
      && !KnownEvent(events, TrimSpace(event.source), TrimSpace(event.externalId))
    case MarkUnrouted(id, reason) =>
      TrimSpace(id) != "" && TrimSpace(reason) != "" && id in events && events[id].status != EventRouted
    case Reopen(id) =>
      id in events && events[id].status == EventUnrouted
    case RouteTo(id, _, _) =>
      id in events && events[id].status != EventRouted
    case PruneData(id) =>
      id in events
  }

  ghost function After(events: Events, op: EventOp): Events
    requires Succeeds(events, op)
  {
    match op
    case Ingest(event) => events[TrimSpace(event.recordId) := Stored(event)]
    case MarkUnrouted(id, reason) =>
      events[id := events[id].(status := EventUnrouted, reason := Some(reason), routedRun := None)]
    case Reopen(id) =>
      events[id := events[id].(status := EventIngested, reason := None)]
    case RouteTo(id, run, why) =>
      events[id := events[id].(status := EventRouted, reason := NullIfEmpty(why), routedRun := Some(run))]
    case PruneData(id) =>
      events[id := events[id].(data := PRUNED_DATA, raw := PRUNED_RAW)]
  }

  ghost function Step(events: Events, op: EventOp): Events {
    if Succeeds(events, op) then After(events, op) else events
  }

  ghost function Replay(events: Events, h: seq<EventOp>): Events
    decreases |h|
  {
    if h == [] then events else Replay(Step(events, h[0]), h[1..])
  }

  /** UNIQUE (source, external_id), and the run an event is routed to is recorded
      exactly while it is routed. */
  ghost predicate Inv(events: Events) {
    && (forall a, b :: a in events && HasKey(events, b, events[a].source, events[a].externalId) ==> a == b)
    && (forall id :: id in events ==> (events[id].routedRun.Some? <==> events[id].status == EventRouted))
  }

  lemma StepKeepsInv(events: Events, op: EventOp)
    requires Inv(events)
    ensures Inv(Step(events, op))
  {
    var next := Step(events, op);
    forall a, b | a in next && HasKey(next, b, next[a].source, next[a].externalId) ensures a == b {
      if a in events && b in events {
        assert HasKey(events, b, events[a].source, events[a].externalId);
      } else {
        var source, externalId := TrimSpace(op.event.source), TrimSpace(op.event.externalId);
        assert !HasKey(events, a, source, externalId) && !HasKey(events, b, source, externalId);
      }
    }
  }

  lemma {:induction false} ReplayKeepsInv(events: Events, h: seq<EventOp>)
    requires Inv(events)
    ensures Inv(Replay(events, h))
    decreases |h|
  {
    if h != [] {
      StepKeepsInv(events, h[0]);
      ReplayKeepsInv(Step(events, h[0]), h[1..]);
    }
  }

  /** An event becomes routed, unrouted or ingested again exactly by the operation that
      makes it so: routing, unless it is routed already; giving it up with a reason, unless
      it is routed; reopening, if it is unrouted. What the operation is given is recorded,
      and every other operation leaves the decision as it is. */
  lemma DecisionChangedBy(events: Events, op: EventOp, id: string)
    requires id in events
    ensures id in Step(events, op)
    ensures var e, f := events[id], Step(events, op)[id];
      if op.RouteTo? && op.recordId == id && e.status != EventRouted then
        f.status == EventRouted && f.routedRun == Some(op.run)
        && f.reason == if op.why == "" then None else Some(op.why)
      else if op.MarkUnrouted? && op.recordId == id && e.status != EventRouted
              && TrimSpace(id) != "" && TrimSpace(op.reason) != "" then
        f.status == EventUnrouted && f.reason == Some(op.reason) && f.routedRun == None
      else if op.Reopen? && op.recordId == id && e.status == EventUnrouted then
        f.status == EventIngested && f.reason == None && f.routedRun == e.routedRun
      else
        f.status == e.status && f.reason == e.reason && f.routedRun == e.routedRun
  {
  }

  /** Everything of an event but its data. */
  predicate SameButData(a: Event, b: Event) {
    a == b.(data := a.data, raw := a.raw)
  }

  /** A routed event stays routed as it is: no later operation changes its status, its
      reason, its run or anything else but its data. */
  lemma {:induction false} RoutedEventStaysRouted(events: Events, h: seq<EventOp>, id: string)
    requires id in events && events[id].status == EventRouted
    ensures id in Replay(events, h) && SameButData(Replay(events, h)[id], events[id])
    decreases |h|
  {
    if h != [] {
      RoutedEventStaysRouted(Step(events, h[0]), h[1..], id);
    }
  }

  /** What an event is about: where it comes from, its kind and its times. */
  predicate SameOrigin(a: Event, b: Event) {
    && a.source == b.source && a.externalId == b.externalId && a.kind == b.kind
    && a.occurredAt == b.occurredAt && a.receivedAt == b.receivedAt
  }

  predicate SameData(a: Event, b: Event) {
    a.data == b.data && a.raw == b.raw
  }

  predicate IsPruned(a: Event) {
    a.data == PRUNED_DATA && a.raw == PRUNED_RAW
  }

  ghost predicate PrunedIn(h: seq<EventOp>, id: string) {
    exists i :: 0 <= i < |h| && h[i] == PruneData(id)
  }

  /** An event's origin never changes. Its data change at most once, to the pruned
      mark, and exactly when the event is pruned. */
  lemma {:induction false} DataChangeOnlyByPruning(events: Events, h: seq<EventOp>, id: string)
    requires id in events
    ensures id in Replay(events, h) && SameOrigin(Replay(events, h)[id], events[id])
    ensures if PrunedIn(h, id) then IsPruned(Replay(events, h)[id]) else SameData(Replay(events, h)[id], events[id])
    decreases |h|
  {
    if h != [] {
      DataChangeOnlyByPruning(Step(events, h[0]), h[1..], id);
      PrunedNowOrLater(h, id);
      if PrunedIn(h, id) && !PrunedIn(h[1..], id) {
        assert IsPruned(Step(events, h[0])[id]);
      }
    }
  }

  lemma PrunedNowOrLater(h: seq<EventOp>, id: string)
    requires h != []
    ensures PrunedIn(h, id) <==> h[0] == PruneData(id) || PrunedIn(h[1..], id)
  {
    if PrunedIn(h[1..], id) {
      var i :| 0 <= i < |h[1..]| && h[1..][i] == PruneData(id);
      assert h[i + 1] == PruneData(id);
    }
    if PrunedIn(h, id) && h[0] != PruneData(id) {
      var i :| 0 <= i < |h| && h[i] == PruneData(id);
      assert h[1..][i - 1] == PruneData(id);
    }
  }

  /** How often an event of this source and external id is created. */
  ghost function Creations(events: Events, h: seq<EventOp>, source: string, externalId: string): nat
    decreases |h|
  {
    if h == [] then 0
    else
      (if h[0].Ingest? && Succeeds(events, h[0]) && Stored(h[0].event).source == source
          && Stored(h[0].event).externalId == externalId then 1 else 0)
      + Creations(Step(events, h[0]), h[1..], source, externalId)
  }

  /** Ingestion is idempotent: however often an event is delivered, and whatever else
      happens, it is created at most once, and never again once it is known. */
  lemma {:induction false} CreatedAtMostOnce(events: Events, h: seq<EventOp>, source: string, externalId: string)
    ensures Creations(events, h, source, externalId) <= if KnownEvent(events, source, externalId) then 0 else 1
    decreases |h|
  {
    if h != [] {
      CreatedAtMostOnce(Step(events, h[0]), h[1..], source, externalId);
      if KnownEvent(events, source, externalId) {
        var id :| HasKey(events, id, source, externalId);
        assert HasKey(Step(events, h[0]), id, source, externalId);
      } else if h[0].Ingest? && Succeeds(events, h[0]) && Stored(h[0].event).source == source
                && Stored(h[0].event).externalId == externalId {
        assert HasKey(Step(events, h[0]), TrimSpace(h[0].event.recordId), source, externalId);
      }
    }
  }

  function PageSize(limit: int): nat {
    if limit <= 0 || limit > 500 then 500 else limit
  }

  /** ORDER BY received_at, record_id. */
  predicate Earlier(events: Events, a: string, b: string) {
    && a in events && b in events
    && (|| events[a].receivedAt < events[b].receivedAt
        || (events[a].receivedAt == events[b].receivedAt && StringLeq(a, b)))
  }

  // ---- The table ------------------------------------------------------------

  datatype EventError = InvalidEvent | EventConflict | EventNotFound | EventConstraint

  class Table {
    var events: Events

    constructor ()
      ensures events == map[] && Inv(events)
    {
      events := map[];
    }

    method FindByKey(source: string, externalId: string) returns (found: Option<string>)
      ensures found.Some? <==> KnownEvent(events, source, externalId)
      ensures found.Some? ==> HasKey(events, found.value, source, externalId)
    {
      var rest := events.Keys;
      while rest != {}
        invariant rest <= events.Keys
        invariant forall id :: HasKey(events, id, source, externalId) ==> id in rest
        decreases rest
      {
        var id :| id in rest;
        if events[id].source == source && events[id].externalId == externalId {
          assert HasKey(events, id, source, externalId);
          return Some(id);
        }
        rest := rest - {id};
      }
      return None;
    }

    /** Stores an event once; a duplicate returns the record that is already there. */
    method IngestEvent(event: NewEvent) returns (outcome: Result<(string, bool), EventError>)
      modifies this
      ensures events == Step(old(events), Ingest(event))
      ensures outcome.Ok? && outcome.value.1 <==> Succeeds(old(events), Ingest(event))
      ensures outcome.Ok? ==> HasKey(events, outcome.value.0, TrimSpace(event.source), TrimSpace(event.externalId))
      ensures outcome.Ok? && !outcome.value.1 <==>
        WellFormed(event) && KnownEvent(old(events), TrimSpace(event.source), TrimSpace(event.externalId))
      ensures outcome == Err(InvalidEvent) <==> !WellFormed(event)
      ensures outcome == Err(InvalidEvent) <==>
        || TrimSpace(event.recordId) == "" || TrimSpace(event.source) == "" || TrimSpace(event.externalId) == ""
        || TrimSpace(event.kind) == "" || event.occurredAt.None? || event.data.None? || event.raw.RawMalformed?
        || event.status == EventRouted
      ensures outcome == Err(EventConstraint) ==> TrimSpace(event.recordId) in old(events)
      ensures outcome.Ok? || outcome.error == InvalidEvent || outcome.error == EventConstraint
      ensures outcome.Ok? && outcome.value.1 ==>
        outcome.value.0 == TrimSpace(event.recordId) && StoredFrom(event, events[outcome.value.0])
    {
      if !WellFormed(event) {
        return Err(InvalidEvent);
      }
      var known := FindByKey(TrimSpace(event.source), TrimSpace(event.externalId));
      if known.Some? {
        return Ok((known.value, false));
      }
      var id := TrimSpace(event.recordId);
      if id in events {
        return Err(EventConstraint);
      }
      events := events[id := Stored(event)];
      return Ok((id, true));
    }

    method MarkEventUnrouted(id: string, reason: string) returns (error: Option<EventError>)
      modifies this
      ensures events == Step(old(events), MarkUnrouted(id, reason))
      ensures error == None <==> Succeeds(old(events), MarkUnrouted(id, reason))
    {
      if TrimSpace(id) == "" || TrimSpace(reason) == "" {
        return Some(InvalidEvent);
      }
      if id !in events {
        return Some(EventNotFound);
      }
      if events[id].status == EventRouted {
        return Some(EventConflict);
      }
      events := events[id := events[id].(status := EventUnrouted, reason := Some(reason), routedRun := None)];
      return None;
    }

    method ReopenEvent(id: string) returns (error: Option<EventError>)
      modifies this
      ensures events == Step(old(events), Reopen(id))
      ensures error == None <==> Succeeds(old(events), Reopen(id))
      ensures error == Some(EventNotFound) <==> id !in old(events)
    {
      if id !in events {
        return Some(EventNotFound);
      }
      if events[id].status != EventUnrouted {
        return Some(EventConflict);
      }
      events := events[id := events[id].(status := EventIngested, reason := None)];
      return None;
    }

    /** UPDATE events SET status, routing_reason, routed_run_id of an event that is not
        routed yet. */
    method AttachRun(id: string, run: string, why: string)
      requires id in events && events[id].status != EventRouted
      modifies this
      ensures events == Step(old(events), RouteTo(id, run, why))
    {
      events := events[id := events[id].(status := EventRouted, reason := NullIfEmpty(why), routedRun := Some(run))];
    }

    /** UPDATE events SET data_json, raw_data_json. */
    method PruneEvent(id: string)
      modifies this
      ensures events == Step(old(events), PruneData(id))
    {
      if id in events {
        events := events[id := events[id].(data := PRUNED_DATA, raw := PRUNED_RAW)];
      }
    }

    /** The earliest `limit` events of a status, at most 500. */
    method ListEventsByStatus(status: EventStatus, limit: int) returns (page: seq<string>)
      ensures |page| <= PageSize(limit)
      ensures |page| < PageSize(limit) ==> forall id :: id in events && events[id].status == status ==> id in page
      ensures forall i, j :: 0 <= i < j < |page| ==> page[i] != page[j]
      ensures forall id :: id in page ==> id in events && events[id].status == status
      ensures forall i, j :: 0 <= i < j < |page| ==> Earlier(events, page[i], page[j])
      ensures forall i, id :: 0 <= i < |page| && id in events && events[id].status == status && id !in page ==>
        Earlier(events, page[i], id)
      ensures forall i, id :: 0 <= i < |page| && id in events && events[id].status == status && id !in page ==>
        page[i] in events && events[page[i]].receivedAt <= events[id].receivedAt
    {
      var all := events;
      var size := PageSize(limit);
      var rest := set id | id in events && events[id].status == status;
      page := [];
      while rest != {} && |page| < size
        invariant |page| <= size && rest <= events.Keys
        invariant forall id :: id in rest || id in page <==> id in events && events[id].status == status
        invariant forall i, j :: 0 <= i < j < |page| ==> page[i] != page[j] && Earlier(events, page[i], page[j])
        invariant forall i, id :: 0 <= i < |page| && id in rest ==> page[i] != id && Earlier(events, page[i], id)
        decreases rest
      {
        StringsTotallyOrdered();
        ghost var witnessed := LeastExists((a, b) => Earlier(all, a, b), rest);
        var id :| id in rest && forall other :: other in rest ==> Earlier(all, id, other);
        page, rest := page + [id], rest - {id};
      }
    }
  }
}
