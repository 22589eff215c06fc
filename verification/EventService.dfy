/** The routing service: ingesting an event, dispatching it to the selected route, and
    recovering events a crash left half handled.

    The route definitions and switches are given. Whether evaluating or preparing the
    run fails, and what the run's agent, workspace and permission are, are parameters
    of each dispatch. */
module EventService {
  import opened Wrappers
  import opened Times
  import opened Ordering
  import opened Strings
  import opened Router
  import opened EventStore
  import RunModel
  import RunStore
  import opened Database
  import opened Normalization

  /** What the definitions and the machine give for the run of a route. */
  datatype Settings = Settings(team: string, agent: string, workspace: string, harness: string,
                               permission: RunModel.Permission)

  /** One dispatch: evaluating may fail, and preparing the run may. */
  datatype Circumstances = Circumstances(evaluationFails: bool, prepared: Option<Settings>, now: Instant)

  /** The circumstances of the n-th dispatch since the service started. */
  type Fate = (string, nat) -> Circumstances

  const PAGE := 500

  function ViewOf(event: Event): EventView {
    EventView(event.source, event.kind, event.data)
  }

  function ReasonText(reason: Reason): string {
    match reason
    case NoMatch => "no enabled route matched"
    case Tied => "highest priority tied"
    case SoleHighest => "sole highest-priority route"
  }

  lemma ReasonTextNotBlank(reason: Reason)
    ensures TrimSpace(ReasonText(reason)) != ""
  {
  }

  /** Stands for stableID("run", record, route), a digest. */
  function RunId(recordId: string, route: string): string {
    "run_" + recordId + "/" + route
  }

  function RunKey(recordId: string, route: string): string {
    "event:" + recordId + ":route:" + route
  }

  /** runFor: a pending run caused by the event. */
  function RunFor(recordId: string, route: string, settings: Settings, now: Instant): RunModel.FreshRow {
    RunModel.Run(RunKey(recordId, route), Some(recordId), "", settings.team, settings.agent, settings.workspace,
                 settings.harness, settings.permission, Millis(now), RunModel.RunPending, None,
                 Millis(now), false, None)
  }

  /** The stored run is the one this event and route call for. */
  predicate RunsRoute(run: RunModel.Run, recordId: string, route: string, settings: Settings) {
    && run.key == TrimSpace(RunKey(recordId, route)) && run.event == Some(recordId) && run.parent == ""
    && run.team == settings.team && run.agent == TrimSpace(settings.agent)
    && run.workspace == TrimSpace(settings.workspace) && run.harness == TrimSpace(settings.harness)
    && run.permission == settings.permission
  }

  /** It was created for it at this time, and waits to be claimed. */
  predicate NewlyQueued(run: RunModel.Run, now: Instant) {
    && run.state == RunModel.RunPending && run.conclusion == None && !run.pinned && run.prunedAt == None
    && run.createdAt == run.updatedAt == Millis(now)
  }

  /** The database refuses the run: a setting or the event id is blank, its key belongs to
      another run, or its id is taken. */
  ghost predicate Refused(d: Data, id: string, route: string, settings: Settings) {
    || TrimSpace(id) == "" || TrimSpace(settings.agent) == ""
    || TrimSpace(settings.workspace) == "" || TrimSpace(settings.harness) == ""
    || (exists r :: r in d.tables.runs && d.tables.runs[r].key == TrimSpace(RunKey(id, route))
          && !RunsRoute(d.tables.runs[r], id, route, settings))
    || TrimSpace(RunId(id, route)) in d.tables.runs
  }

  /** Why an event cannot be routed to the chosen route. */
  ghost predicate CannotRoute(d: Data, routes: seq<Route>, id: string, chosen: string, circumstances: Circumstances) {
    || !HasRoute(routes, chosen) || circumstances.prepared.None?
    || Refused(d, id, chosen, circumstances.prepared.value)
  }

  predicate IsIngested(events: Events, id: string) {
    id in events && events[id].status == EventIngested
  }

  ghost function IngestedIds(events: Events): set<string> {
    set id | id in events && events[id].status == EventIngested
  }

  predicate RoutesNamed(routes: seq<Route>) {
    forall i :: 0 <= i < |routes| ==> routes[i].name != ""
  }

  predicate HasRoute(routes: seq<Route>, name: string) {
    exists i :: 0 <= i < |routes| && routes[i].name == name
  }

  /** The route the event goes to: the one it is forced to, or the selected one. */
  function Chosen(event: Event, routes: seq<Route>, switches: map<string, bool>, forced: string): string {
    if forced != "" then forced else Decide(ViewOf(event), routes, switches).selected
  }

  /** The event `id` is routed by `route` to a stored run of its own. */
  predicate RoutedBy(before: Event, route: string, d: Data, id: string, r: string) {
    && id in d.events && CausedBy(d, r, id) && d.tables.runs[r].key == TrimSpace(RunKey(id, route))
    && d.events[id] == before.(status := EventRouted, reason := Some("route:" + route), routedRun := Some(r))
  }

  /** The events when no route takes event `id`. */
  function GivenUp(events: Events, id: string, reason: string): Events
    requires id in events
  {
    if events[id].status != EventIngested then events
    else events[id := events[id].(status := EventUnrouted, reason := Some(reason), routedRun := None)]
  }

  /** The event as a successful dispatch leaves it. */
  ghost predicate Handled(before: Event, routes: seq<Route>, switches: map<string, bool>, forced: string, d: Data,
                          id: string) {
    var chosen := Chosen(before, routes, switches, forced);
    && id in d.events
    && if chosen != "" then exists r :: RoutedBy(before, chosen, d, id, r)
       else if before.status != EventIngested then d.events[id] == before
       else d.events[id] == before.(status := EventUnrouted,
              reason := Some(ReasonText(Decide(ViewOf(before), routes, switches).reason)), routedRun := None)
  }

  /** What its routes call for: an event goes to the enabled matching route whose priority
      is above that of all others, and is unrouted when there is none. */
  lemma HandledBySoleHighest(before: Event, routes: seq<Route>, switches: map<string, bool>, d: Data, id: string)
    requires before.status == EventIngested && RoutesNamed(routes) && Handled(before, routes, switches, "", d, id)
    ensures var view := EventView(before.source, before.kind, before.data);
      && (forall i :: SoleHighestRoute(view, routes, switches, i) ==>
            exists r :: RoutedBy(before, routes[i].name, d, id, r))
      && ((forall i :: !SoleHighestRoute(view, routes, switches, i)) ==>
            id in d.events && d.events[id].status == EventUnrouted && d.events[id].routedRun == None)
  {
    SelectsExactlySoleHighest(ViewOf(before), routes, switches);
  }

  /** Between the two, runs were only added, each pending and routed from an event that
      was not routed before. */
  ghost predicate RunsAdded(before: Data, after: Data) {
    && after.tables == before.tables.(runs := after.tables.runs)
    && (forall r :: r in before.tables.runs ==> r in after.tables.runs && after.tables.runs[r] == before.tables.runs[r])
    && (forall r :: r in after.tables.runs && r !in before.tables.runs ==> AddedRun(before, after, r))
  }

  ghost predicate AddedRun(before: Data, after: Data, r: string)
    requires r in after.tables.runs
  {
    && after.tables.runs[r].state == RunModel.RunPending && after.tables.runs[r].event.Some?
    && var id := after.tables.runs[r].event.value;
       && id in before.events && before.events[id].status != EventRouted
       && id in after.events && after.events[id].status == EventRouted && after.events[id].routedRun == Some(r)
  }

  /** Nothing but the event `id` and perhaps a run for it changed. */
  ghost predicate OnlyEvent(before: Data, after: Data, id: string) {
    && id in before.events && id in after.events
    && after.events == before.events[id := after.events[id]]
    && RunsAdded(before, after)
  }

  /** The first `i` events of the page are dealt with, the others untouched. */
  ghost predicate PageState(before: Events, now: Events, page: seq<string>, i: nat, failures: seq<string>,
                            succeeded: nat)
    requires i <= |page| && forall j :: 0 <= j < |page| ==> IsIngested(before, page[j])
  {
    && now.Keys == before.Keys
    && (forall j :: i <= j < |page| ==> page[j] in now && now[page[j]] == before[page[j]])
    && (forall id :: id in before && id !in page ==> now[id] == before[id])
    && (forall id :: id in failures ==> id in page[..i])
    && (forall j :: 0 <= j < i ==> (page[j] in failures <==> IsIngested(now, page[j])))
    && (succeeded > 0 <==> exists j :: 0 <= j < i && !IsIngested(now, page[j]))
  }

  lemma PageNext(before: Events, now: Events, next: Events, page: seq<string>, i: nat,
                 failures: seq<string>, succeeded: nat, failed: bool)
    requires i < |page| && forall j :: 0 <= j < |page| ==> IsIngested(before, page[j])
    requires forall j, k :: 0 <= j < k < |page| ==> page[j] != page[k]
    requires PageState(before, now, page, i, failures, succeeded) && next.Keys == now.Keys
    requires failed <==> IsIngested(next, page[i])
    requires forall other :: other in now && other != page[i] ==> next[other] == now[other]
    ensures PageState(before, next, page, i + 1,
                      if failed then failures + [page[i]] else failures, if failed then succeeded else succeeded + 1)
  {
    assert page[..i + 1] == page[..i] + [page[i]];
    forall j | 0 <= j < |page| && j != i ensures page[j] in now && next[page[j]] == now[page[j]] {
      assert IsIngested(before, page[j]);
    }
    if failed {
      assert (failures + [page[i]])[|failures|] == page[i];
    }
  }

  lemma PageFinished(before: Events, now: Events, page: seq<string>, failures: seq<string>, succeeded: nat)
    requires forall j :: 0 <= j < |page| ==> IsIngested(before, page[j])
    requires PageState(before, now, page, |page|, failures, succeeded)
    ensures forall id :: id in page ==> (id in failures <==> IsIngested(now, id))
    ensures forall id :: id in failures ==> id in page
    ensures succeeded > 0 <==> exists id :: id in page && !IsIngested(now, id)
  {
    assert page[..|page|] == page;
  }

  /** The event is stored, unless it is known or refused. */
  ghost function AfterIngest(d: Data, event: NewEvent): Data {
    d.(events := EventStore.Step(d.events, Ingest(event)))
  }

  class Service {
    const db: Db
    const routes: seq<Route>
    const switches: map<string, bool>
    const lower: string -> string
    var dispatches: nat

    constructor (db: Db, routes: seq<Route>, switches: map<string, bool>, lower: string -> string)
      ensures this.db == db && this.routes == routes && this.switches == switches && this.lower == lower
    {
      this.db, this.routes, this.switches, this.lower, dispatches := db, routes, switches, lower, 0;
    }

    method FindRoute(name: string) returns (found: bool)
      ensures found <==> HasRoute(routes, name)
    {
      for i := 0 to |routes|
        invariant forall j :: 0 <= j < i ==> routes[j].name != name
      {
        if routes[i].name == name {
          return true;
        }
      }
      return false;
    }

    /** Why a dispatch of the event can fail: evaluation fails, the event's id is blank, or
        the route it goes to cannot take it. */
    ghost predicate CannotHandle(d: Data, id: string, forced: string, circumstances: Circumstances)
      requires id in d.events
    {
      || circumstances.evaluationFails || TrimSpace(id) == ""
      || (Chosen(d.events[id], routes, switches, forced) != ""
          && CannotRoute(d, routes, id, Chosen(d.events[id], routes, switches, forced), circumstances))
    }

    /** A dispatch of the event could fail in some state that recovery reached. */
    ghost predicate FailedOnce(before: Data, id: string, fate: Fate) {
      exists d, n :: RecoveryStep(before, d) && id in d.events && CannotHandle(d, id, "", fate(id, n))
    }

    /** The part of a dispatch that routes the event to the chosen route. */
    method RouteTo(id: string, chosen: string, circumstances: Circumstances) returns (failed: bool)
      requires DbInv(db.Contents()) && chosen != ""
      requires id in db.table.events && db.table.events[id].status != EventRouted
      modifies db.store, db.table
      ensures DbInv(db.Contents())
      ensures failed ==> db.Contents() == old(db.Contents())
      ensures !failed ==> OnlyEvent(old(db.Contents()), db.Contents(), id)
      ensures !failed ==> exists r :: RoutedBy(old(db.table.events)[id], chosen, db.Contents(), id, r)
      ensures !failed ==> HasRoute(routes, chosen) && circumstances.prepared.Some?
      ensures !failed ==> exists r ::
        && db.table.events[id].routedRun == Some(r) && r in db.store.runs
        && RunsRoute(db.store.runs[r], id, chosen, circumstances.prepared.value)
        && (r in old(db.store.runs) || NewlyQueued(db.store.runs[r], circumstances.now))
      ensures failed ==> CannotRoute(old(db.Contents()), routes, id, chosen, circumstances)
    {
      var found := FindRoute(chosen);
      if !found || circumstances.prepared.None? {
        return true;
      }
      failed := RoutePrepared(id, chosen, circumstances.prepared.value, circumstances.now);
    }

    /** Routes the event to the run that the definitions give for the route. */
    method RoutePrepared(id: string, chosen: string, settings: Settings, now: Instant) returns (failed: bool)
      requires DbInv(db.Contents()) && chosen != ""
      requires id in db.table.events && db.table.events[id].status != EventRouted
      modifies db.store, db.table
      ensures DbInv(db.Contents())
      ensures failed ==> db.Contents() == old(db.Contents()) && Refused(db.Contents(), id, chosen, settings)
      ensures !failed ==> OnlyEvent(old(db.Contents()), db.Contents(), id)
      ensures !failed ==> exists r :: RoutedBy(old(db.table.events)[id], chosen, db.Contents(), id, r)
      ensures !failed ==> exists r ::
        && db.table.events[id].routedRun == Some(r) && r in db.store.runs
        && RunsRoute(db.store.runs[r], id, chosen, settings)
        && (r in old(db.store.runs) || NewlyQueued(db.store.runs[r], now))
    {
      ghost var before := db.Contents();
      var row := RunFor(id, chosen, settings, now);
      ghost var op := Routing(id, RunId(id, chosen), row, "route:" + chosen);
      DbStepKeepsInv(before, op);
      var outcome := db.RouteEvent(id, RunId(id, chosen), row, "route:" + chosen);
      failed := outcome.Err?;
      if outcome.Ok? {
        RouteEffect(before, op);
        RoutedHere(before, db.Contents(), op, chosen);
        RunForSettings(db.store.runs[outcome.value.0], id, chosen, settings, now);
      } else {
        RefusedForCause(before, id, chosen, settings, now, outcome.error);
      }
    }

    /** Dispatches an event that is not routed, as freshly read. A failure changes
        nothing. */
    method Dispatch(id: string, forced: string, fate: Fate) returns (failed: bool)
      requires DbInv(db.Contents()) && RoutesNamed(routes)
      requires id in db.table.events && db.table.events[id].status != EventRouted
      modifies this`dispatches, db.store, db.table
      ensures DbInv(db.Contents())
      ensures failed ==> db.Contents() == old(db.Contents())
      ensures !failed ==> OnlyEvent(old(db.Contents()), db.Contents(), id)
      ensures !failed ==> Handled(old(db.table.events)[id], routes, switches, forced, db.Contents(), id)
      ensures failed ==> CannotHandle(old(db.Contents()), id, forced, fate(id, old(dispatches)))
      ensures dispatches == old(dispatches) + 1
    {
      var event := db.table.events[id];
      var circumstances := fate(id, dispatches);
      dispatches := dispatches + 1;
      if circumstances.evaluationFails {
        return true;
      }
      var decision := Evaluate(ViewOf(event), routes, switches);
      var chosen := if forced != "" then forced else decision.selected;
      if chosen == "" {
        ReasonTextNotBlank(decision.reason);
        failed := GiveUp(id, ReasonText(decision.reason));
        return;
      }
      failed := RouteTo(id, chosen, circumstances);
    }

    /** No route: an ingested event becomes unrouted, any other stays as it is. */
    method GiveUp(id: string, reason: string) returns (failed: bool)
      requires DbInv(db.Contents()) && TrimSpace(reason) != ""
      requires id in db.table.events && db.table.events[id].status != EventRouted
      modifies db.table
      ensures DbInv(db.Contents()) && db.store.Contents() == old(db.store.Contents())
      ensures failed ==> db.Contents() == old(db.Contents()) && TrimSpace(id) == ""
      ensures !failed ==> db.table.events == GivenUp(old(db.table.events), id, reason)
    {
      if db.table.events[id].status != EventIngested {
        return false;
      }
      DbStepKeepsInv(db.Contents(), OnEvents(MarkUnrouted(id, reason)));
      var error := db.table.MarkEventUnrouted(id, reason);
      return error.Some?;
    }

    /** RouteNow: routes an event that is not routed yet to a route by name. */
    method RouteNow(id: string, route: string, fate: Fate) returns (failed: bool)
      requires DbInv(db.Contents()) && RoutesNamed(routes)
      modifies this`dispatches, db.store, db.table
      ensures DbInv(db.Contents())
      ensures failed ==> db.Contents() == old(db.Contents())
      ensures !failed ==> id in old(db.table.events) && old(db.table.events)[id].status != EventRouted
      ensures !failed ==> OnlyEvent(old(db.Contents()), db.Contents(), id)
      ensures !failed ==> Handled(old(db.table.events)[id], routes, switches, route, db.Contents(), id)
      ensures failed && id in old(db.table.events) && old(db.table.events)[id].status != EventRouted ==>
        CannotHandle(old(db.Contents()), id, route, fate(id, old(dispatches)))
      ensures !failed && route != "" ==>
        exists r :: RoutedBy(old(db.table.events)[id], route, db.Contents(), id, r)
    {
      if id !in db.table.events || db.table.events[id].status == EventRouted {
        return true;
      }
      failed := Dispatch(id, route, fate);
    }

    /** DispatchStored: dispatches a stored event while it is undecided, as its routes
        call for. */
    method DispatchStored(id: string, fate: Fate) returns (failed: bool)
      requires DbInv(db.Contents()) && RoutesNamed(routes)
      modifies this`dispatches, db.store, db.table
      ensures DbInv(db.Contents()) && RecoveryStep(old(db.Contents()), db.Contents())
      ensures forall other :: other in old(db.table.events) && other != id ==>
        db.table.events[other] == old(db.table.events)[other]
      ensures !failed ==> id in db.table.events && !IsIngested(db.table.events, id)
      ensures !failed && IsIngested(old(db.table.events), id) ==> Recovered(old(db.Contents()), db.Contents(), id)
      ensures failed ==> id !in old(db.table.events) || IsIngested(db.table.events, id)
      ensures failed ==> id !in old(db.table.events) || FailedOnce(old(db.Contents()), id, fate)
    {
      if id !in db.table.events {
        return true;
      }
      if db.table.events[id].status != EventIngested {
        return false;
      }
      failed := DispatchOne(id, fate);
    }

    /** Ingests an event as it was normalised, and dispatches it while undecided: the
        event is stored once, and then nothing but that event is decided, as its routes
        call for. */
    method IngestAndDispatch(event: NewEvent, fate: Fate)
      returns (outcome: Result<(string, bool), EventError>, failed: bool)
      requires DbInv(db.Contents()) && RoutesNamed(routes)
      modifies this`dispatches, db.store, db.table
      ensures DbInv(db.Contents()) && RecoveryStep(AfterIngest(old(db.Contents()), event), db.Contents())
      ensures outcome.Err? ==> db.Contents() == old(db.Contents())
      ensures outcome.Err? ==> !WellFormed(event) || TrimSpace(event.recordId) in old(db.table.events)
      ensures failed ==> outcome.Ok? && FailedOnce(AfterIngest(old(db.Contents()), event), outcome.value.0, fate)
      ensures outcome.Ok? ==>
        OnlyDecided(AfterIngest(old(db.Contents()), event), db.Contents(), outcome.value.0, failed)
      ensures outcome.Ok? ==>
        HasKey(db.table.events, outcome.value.0, TrimSpace(event.source), TrimSpace(event.externalId))
      ensures outcome.Ok? ==> (outcome.value.1 <==> EventStore.Succeeds(old(db.table.events), Ingest(event)))
    {
      failed := false;
      DbStepKeepsInv(db.Contents(), OnEvents(Ingest(event)));
      outcome := db.table.IngestEvent(event);
      if outcome.Ok? {
        ghost var stored := db.Contents();
        failed := DispatchStored(outcome.value.0, fate);
        OriginKept(stored, db.Contents(), outcome.value.0);
      }
    }

    /** Ingest: an envelope that is refused changes nothing; any other is normalised,
        and its event is ingested and dispatched. A new event holds nothing sensitive. */
    method Receive(envelope: Envelope, received: Instant, fate: Fate)
      returns (outcome: Result<(string, bool), EventError>, failed: bool)
      requires DbInv(db.Contents()) && RoutesNamed(routes)
      modifies this`dispatches, db.store, db.table
      ensures DbInv(db.Contents())
      ensures !Acceptable(envelope) ==> outcome == Err(InvalidEvent) && db.Contents() == old(db.Contents())
      ensures Acceptable(envelope) ==>
        RecoveryStep(AfterIngest(old(db.Contents()), Normalize(lower, envelope, received).value), db.Contents())
      ensures Acceptable(envelope) && outcome.Ok? ==>
        OnlyDecided(AfterIngest(old(db.Contents()), Normalize(lower, envelope, received).value), db.Contents(),
                    outcome.value.0, failed)
      ensures Acceptable(envelope) && outcome.Err? ==>
        TrimSpace(Normalize(lower, envelope, received).value.recordId) in old(db.table.events)
      ensures failed ==> Acceptable(envelope) && outcome.Ok?
      ensures failed ==>
        FailedOnce(AfterIngest(old(db.Contents()), Normalize(lower, envelope, received).value), outcome.value.0, fate)
      ensures outcome.Ok? ==>
        HasKey(db.table.events, outcome.value.0, TrimSpace(envelope.source), TrimSpace(envelope.id))
      ensures outcome.Ok? && outcome.value.1 ==>
        && outcome.value.0 in db.table.events
        && NothingSensitive(lower, db.table.events[outcome.value.0].data)
        && NothingSensitive(lower, db.table.events[outcome.value.0].raw)
    {
      var normal := Normalize(lower, envelope, received);
      if normal.None? {
        return Err(InvalidEvent), false;
      }
      NormalizedEvent(lower, envelope, received);
      ghost var before := db.Contents();
      outcome, failed := IngestAndDispatch(normal.value, fate);
      if outcome.Ok? && outcome.value.1 {
        NewEventKept(before, db.Contents(), normal.value, outcome.value.0);
      }
    }

    /** The event just stored keeps the data it was stored with. */
    lemma NewEventKept(before: Data, after: Data, event: NewEvent, id: string)
      requires DbInv(before) && DbInv(after) && RecoveryStep(AfterIngest(before, event), after)
      requires EventStore.Succeeds(before.events, Ingest(event))
      requires HasKey(after.events, id, TrimSpace(event.source), TrimSpace(event.externalId))
      ensures SameData(after.events[id], Stored(event))
    {
      var stored := TrimSpace(event.recordId);
      var mid := AfterIngest(before, event);
      assert mid.events[stored] == Stored(event);
      OriginKept(mid, after, stored);
      assert HasKey(after.events, stored, after.events[id].source, after.events[id].externalId);
      if after.events[stored] != mid.events[stored] && Chosen(mid.events[stored], routes, switches, "") != "" {
        var r :| RoutedBy(mid.events[stored], Chosen(mid.events[stored], routes, switches, ""), after, stored, r);
      }
    }

    /** No other event changed; unless the dispatch failed, this one is not ingested any
        more, and if it was it is handled as its routes call for. */
    ghost predicate OnlyDecided(before: Data, after: Data, id: string, failed: bool) {
      && (forall other :: other in before.events && other != id ==>
            other in after.events && after.events[other] == before.events[other])
      && (!failed ==> id in after.events && !IsIngested(after.events, id))
      && (!failed && IsIngested(before.events, id) ==> Recovered(before, after, id))
    }

    lemma OriginKept(before: Data, after: Data, id: string)
      requires RecoveryStep(before, after) && id in before.events
      ensures SameOrigin(after.events[id], before.events[id])
    {
      if after.events[id] != before.events[id] && Chosen(before.events[id], routes, switches, "") != "" {
        var r :| RoutedBy(before.events[id], Chosen(before.events[id], routes, switches, ""), after, id, r);
      }
    }

    /** Nothing but ingested events changed, each as its routes call for, and each run
        that was added is pending and that of an event routed meanwhile. */
    ghost predicate RecoveryStep(before: Data, after: Data) {
      && after.events.Keys == before.events.Keys
      && (forall id :: id in before.events ==> after.events[id] == before.events[id] || Recovered(before, after, id))
      && RunsAdded(before, after)
    }

    ghost predicate Recovered(before: Data, after: Data, id: string) {
      IsIngested(before.events, id) && Handled(before.events[id], routes, switches, "", after, id)
    }

    lemma HandledIsDecided(before: Event, d: Data, id: string)
      requires before.status == EventIngested && Handled(before, routes, switches, "", d, id)
      ensures !IsIngested(d.events, id)
    {
    }

    /** An event once handled stays so while it is left alone and runs are kept. */
    lemma HandledStays(before: Event, b: Data, c: Data, id: string)
      requires Handled(before, routes, switches, "", b, id) && RunsAdded(b, c)
      requires id in c.events && c.events[id] == b.events[id]
      ensures Handled(before, routes, switches, "", c, id)
    {
      var chosen := Chosen(before, routes, switches, "");
      if chosen != "" {
        var r :| RoutedBy(before, chosen, b, id, r);
        assert RoutedBy(before, chosen, c, id, r);
      }
    }

    lemma RecoveryStepChains(a: Data, b: Data, c: Data)
      requires RecoveryStep(a, b) && RecoveryStep(b, c)
      ensures RecoveryStep(a, c)
    {
      forall id | id in a.events ensures c.events[id] == a.events[id] || Recovered(a, c, id) {
        if b.events[id] != a.events[id] {
          HandledIsDecided(a.events[id], b, id);
          HandledStays(a.events[id], b, c, id);
        }
      }
      RunsAddedChain(a, b, c);
    }

    lemma RunsAddedChain(a: Data, b: Data, c: Data)
      requires RecoveryStep(a, b) && RecoveryStep(b, c)
      ensures RunsAdded(a, c)
    {
      forall r | r in c.tables.runs && r !in a.tables.runs ensures AddedRun(a, c, r) {
        if r in b.tables.runs {
          assert AddedRun(a, b, r);
        } else {
          assert AddedRun(b, c, r);
          var id := c.tables.runs[r].event.value;
          assert b.events[id] == a.events[id] || Recovered(a, b, id);
        }
      }
    }

    /** The dispatch of one ingested event is a recovery step. */
    method DispatchOne(id: string, fate: Fate) returns (failed: bool)
      requires DbInv(db.Contents()) && RoutesNamed(routes) && IsIngested(db.table.events, id)
      modifies this`dispatches, db.store, db.table
      ensures DbInv(db.Contents()) && RecoveryStep(old(db.Contents()), db.Contents())
      ensures failed <==> IsIngested(db.table.events, id)
      ensures failed ==> FailedOnce(old(db.Contents()), id, fate)
      ensures forall other :: other in old(db.table.events) && other != id ==>
        db.table.events[other] == old(db.table.events)[other]
    {
      failed := Dispatch(id, "", fate);
      if failed {
        assert RecoveryStep(old(db.Contents()), old(db.Contents()));
      } else {
        HandledIsDecided(old(db.table.events)[id], db.Contents(), id);
      }
    }

    lemma FailedSince(a: Data, b: Data, id: string, fate: Fate)
      requires RecoveryStep(a, b) && FailedOnce(b, id, fate)
      ensures FailedOnce(a, id, fate)
    {
      var d, n :| RecoveryStep(b, d) && id in d.events && CannotHandle(d, id, "", fate(id, n));
      RecoveryStepChains(a, b, d);
    }

    lemma AllFailedSince(a: Data, b: Data, failed: seq<string>, fate: Fate)
      requires RecoveryStep(a, b) && forall id :: id in failed ==> FailedOnce(b, id, fate)
      ensures forall id :: id in failed ==> FailedOnce(a, id, fate)
    {
      forall id | id in failed ensures FailedOnce(a, id, fate) {
        FailedSince(a, b, id, fate);
      }
    }

    /** One round of recovery over a page of ingested events. */
    method DispatchPage(page: seq<string>, fate: Fate) returns (failures: seq<string>, succeeded: nat)
      requires DbInv(db.Contents()) && RoutesNamed(routes)
      requires forall i :: 0 <= i < |page| ==> IsIngested(db.table.events, page[i])
      requires forall i, j :: 0 <= i < j < |page| ==> page[i] != page[j]
      modifies this`dispatches, db.store, db.table
      ensures DbInv(db.Contents()) && RecoveryStep(old(db.Contents()), db.Contents())
      ensures forall id :: id in page ==> (id in failures <==> IsIngested(db.table.events, id))
      ensures forall id :: id in failures ==> id in page && FailedOnce(old(db.Contents()), id, fate)
      ensures forall id :: id in old(db.table.events) && id !in page ==> db.table.events[id] == old(db.table.events)[id]
      ensures succeeded > 0 <==> exists id :: id in page && !IsIngested(db.table.events, id)
    {
      failures, succeeded := [], 0;
      for i := 0 to |page|
        invariant DbInv(db.Contents()) && RecoveryStep(old(db.Contents()), db.Contents())
        invariant PageState(old(db.table.events), db.table.events, page, i, failures, succeeded)
        invariant forall id :: id in failures ==> FailedOnce(old(db.Contents()), id, fate)
      {
        ghost var now := db.Contents();
        var failed := DispatchOne(page[i], fate);
        RecoveryStepChains(old(db.Contents()), now, db.Contents());
        PageNext(old(db.table.events), now.events, db.table.events, page, i, failures, succeeded, failed);
        if failed {
          FailedSince(old(db.Contents()), now, page[i], fate);
          failures := failures + [page[i]];
        } else {
          succeeded := succeeded + 1;
        }
      }
      PageFinished(old(db.table.events), db.table.events, page, failures, succeeded);
    }

    /** Every continuing round strictly lowers the number of ingested events. */
    lemma RoundLowersIngested(before: Data, after: Data, id: string)
      requires RecoveryStep(before, after) && IsIngested(before.events, id) && !IsIngested(after.events, id)
      ensures |IngestedIds(after.events)| < |IngestedIds(before.events)|
    {
      forall other | other in IngestedIds(after.events) ensures other in IngestedIds(before.events) - {id} {
        assert after.events[other] == before.events[other] || Recovered(before, after, other);
      }
      SmallerSet(IngestedIds(after.events), IngestedIds(before.events) - {id});
      assert id in IngestedIds(before.events);
    }

    /** RecoverIngested. It terminates, changes ingested events only, each as its
        routes call for and with one pending run for each it routes, and when it
        reports no failure no event is left ingested. */
    method RecoverIngested(fate: Fate) returns (failures: seq<string>)
      requires DbInv(db.Contents()) && RoutesNamed(routes)
      modifies this`dispatches, db.store, db.table
      ensures DbInv(db.Contents()) && RecoveryStep(old(db.Contents()), db.Contents())
      ensures failures == [] ==> forall id :: !IsIngested(db.table.events, id)
      ensures forall id :: id in failures ==>
        IsIngested(old(db.table.events), id) && FailedOnce(old(db.Contents()), id, fate)
    {
      failures := [];
      while true
        invariant DbInv(db.Contents()) && RecoveryStep(old(db.Contents()), db.Contents())
        invariant forall id :: id in failures ==>
          IsIngested(old(db.table.events), id) && FailedOnce(old(db.Contents()), id, fate)
        decreases |IngestedIds(db.table.events)|
      {
        var page := db.table.ListEventsByStatus(EventIngested, PAGE);
        if page == [] {
          return;
        }
        ghost var before := db.Contents();
        IngestedBefore(old(db.Contents()), before);
        var failed, succeeded := DispatchPage(page, fate);
        AllFailedSince(old(db.Contents()), before, failed, fate);
        failures := failures + failed;
        RecoveryStepChains(old(db.Contents()), before, db.Contents());
        if |page| < PAGE {
          NoneLeft(before, db.Contents(), page, failed);
          return;
        }
        if succeeded == 0 {
          assert page[0] in failed;
          return;
        }
        var id :| id in page && !IsIngested(db.table.events, id);
        RoundLowersIngested(before, db.Contents(), id);
      }
    }

    /** A recovery step leaves no event ingested that was not. */
    lemma IngestedBefore(a: Data, b: Data)
      requires RecoveryStep(a, b)
      ensures forall id :: IsIngested(b.events, id) ==> IsIngested(a.events, id)
    {
      forall id | IsIngested(b.events, id) ensures IsIngested(a.events, id) {
        assert b.events[id] == a.events[id] || Recovered(a, b, id);
      }
    }

    lemma NoneLeft(before: Data, after: Data, page: seq<string>, failed: seq<string>)
      requires RecoveryStep(before, after)
      requires forall id :: IsIngested(before.events, id) ==> id in page
      requires forall id :: id in page ==> (id in failed <==> IsIngested(after.events, id))
      ensures failed == [] ==> forall id :: !IsIngested(after.events, id)
    {
      IngestedBefore(before, after);
    }
  }

  /** The identity that routing asks for is that of the run the route calls for. */
  lemma RunForSettings(run: RunModel.Run, id: string, chosen: string, settings: Settings, now: Instant)
    ensures RunModel.SameIdentity(run, RunModel.NormalRow(RowFor(id, RunFor(id, chosen, settings, now)))) <==>
      RunsRoute(run, id, chosen, settings)
    ensures RunStore.StoredAs(RowFor(id, RunFor(id, chosen, settings, now)), run) ==> NewlyQueued(run, now)
  {
  }

  /** Every error of routing an event that is not routed has its cause in the database. */
  lemma RefusedForCause(d: Data, id: string, chosen: string, settings: Settings, now: Instant, error: DbError)
    requires id in d.events && d.events[id].status != EventRouted && d.events[id].routedRun == None
    requires var row := RunFor(id, chosen, settings, now);
      && (error == Invalid <==> TrimSpace(id) == "" || !RunModel.RunWellFormed(RunId(id, chosen), row))
      && error != Unknown
      && (error == Conflicting ==> exists r ::
            && r in d.tables.runs && !RunModel.SameIdentity(d.tables.runs[r], RunModel.NormalRow(RowFor(id, row)))
            && (d.tables.runs[r].key == TrimSpace(row.key) || d.events[id].routedRun == Some(r)))
      && (error == Violation ==>
            TrimSpace(RunId(id, chosen)) in d.tables.runs || (row.parent != "" && row.parent !in d.tables.runs))
    ensures Refused(d, id, chosen, settings)
  {
    if error == Conflicting {
      var row := RunFor(id, chosen, settings, now);
      var r :| r in d.tables.runs && !RunModel.SameIdentity(d.tables.runs[r], RunModel.NormalRow(RowFor(id, row)))
            && d.tables.runs[r].key == TrimSpace(row.key);
      RunForSettings(d.tables.runs[r], id, chosen, settings, now);
    } else if error == Invalid {
      NamesNotBlank(id, chosen);
    }
  }

  lemma NamesNotBlank(id: string, chosen: string)
    ensures TrimSpace(RunId(id, chosen)) != "" && TrimSpace(RunKey(id, chosen)) != ""
  {
    var a, b := TrimSpaceCuts(RunId(id, chosen));
    assert RunId(id, chosen)[0] == 'r' && !IsSpace('r');
    var c, d := TrimSpaceCuts(RunKey(id, chosen));
    assert RunKey(id, chosen)[0] == 'e' && !IsSpace('e');
  }

  /** What routing leaves behind, in the words of the service. */
  lemma RoutedOnly(before: Data, after: Data, op: DbOp)
    requires DbInv(before) && op.Routing? && Commits(before, op) && after == DbStep(before, op)
    requires op.row.state == RunModel.RunPending
    ensures OnlyEvent(before, after, op.recordId)
  {
    RouteEffect(before, op);
  }

  lemma RoutedHere(before: Data, after: Data, op: DbOp, chosen: string)
    requires DbInv(before) && op.Routing? && Commits(before, op) && after == DbStep(before, op)
    requires op.row.key == RunKey(op.recordId, chosen) && op.row.state == RunModel.RunPending
    requires op.why == "route:" + chosen
    ensures OnlyEvent(before, after, op.recordId)
    ensures
      RoutedBy(before.events[op.recordId], chosen, after, op.recordId, RoutedTo(before, op.recordId, op.id, op.row))
  {
    RoutedOnly(before, after, op);
    RouteEffect(before, op);
  }

  lemma SmallerSet(a: set<string>, b: set<string>)
    requires a <= b
    ensures |a| <= |b|
  {
    assert b == a + (b - a);
  }
}
