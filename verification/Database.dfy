/** The database as a whole: the run tables and the events, and the transactions that
    touch both, which are routing an event to a run and pruning a run's detail. */
module Database {
  import opened Wrappers
  import opened Times
  import opened Strings
  import opened RunModel
  import opened RunInvariant
  import opened RunHistory
  import opened RunStore
  import opened EventStore

  datatype Data = Data(tables: Tables, events: Events)

  datatype DbOp =
    | OnRuns(runOp: RunModel.Op)
    | OnEvents(eventOp: EventOp)
    | Routing(recordId: string, id: string, row: FreshRow, why: string)
    | PruneDetail(runId: string, now: Instant)

  /** The run as it is stored when it is routed from the event. */
  function RowFor(recordId: string, row: Run): Run {
    row.(event := Some(recordId))
  }

  /** The key's run, if any, is the run to be routed. */
  ghost predicate SameRunKnown(t: Tables, row: Run, r: string) {
    HasRunKey(t, r, TrimSpace(row.key)) && SameIdentity(t.runs[r], NormalRow(row))
  }

  /** The key belongs to another run. */
  ghost predicate OtherRunHasKey(t: Tables, row: Run) {
    exists r :: HasRunKey(t, r, TrimSpace(row.key)) && !SameIdentity(t.runs[r], NormalRow(row))
  }

  /** The id is taken, or the parent is missing. */
  predicate Obstructed(t: Tables, id: string, row: Run) {
    TrimSpace(id) in t.runs || (row.parent != "" && row.parent !in t.runs)
  }

  /** The run can be stored, or it is stored already. */
  ghost predicate CanRoute(t: Tables, id: string, row: Run) {
    Insertable(t, id, row) || exists r :: SameRunKnown(t, row, r)
  }

  /** Half of a compound transaction never happens alone. */
  predicate Alone(op: DbOp) {
    match op
    case OnRuns(run) => !run.Prune?
    case OnEvents(event) => !event.PruneData? && !event.RouteTo?
    case _ => true
  }

  /** Routing an event to a run, whatever state the run is to be created in. */
  ghost predicate CommitsRouting(d: Data, recordId: string, id: string, row: Run) {
    && TrimSpace(recordId) != "" && RunWellFormed(id, row)
    && recordId in d.events && d.events[recordId].status != EventRouted
    && CanRoute(d.tables, id, RowFor(recordId, row))
  }

  ghost predicate Commits(d: Data, op: DbOp) {
    match op
    case OnRuns(run) =>
      && Alone(op) && RunModel.Succeeds(d.tables, run)
      && (run.Enqueue? && run.row.event.Some? ==> run.row.event.value in d.events)
    case OnEvents(event) =>
      Alone(op) && EventStore.Succeeds(d.events, event)
    case Routing(recordId, id, row, _) =>
      CommitsRouting(d, recordId, id, row)
    case PruneDetail(r, now) =>
      RunModel.Succeeds(d.tables, Prune(r, now))
  }

  /** The run that routing attaches the event to: the stored one of that key, or the
      one it inserts. */
  ghost function RoutedTo(d: Data, recordId: string, id: string, row: Run): string {
    if r :| SameRunKnown(d.tables, RowFor(recordId, row), r) then r else TrimSpace(id)
  }

  ghost function AfterRouting(d: Data, recordId: string, id: string, row: Run, why: string): Data
    requires CommitsRouting(d, recordId, id, row)
  {
    var events := EventStore.Step(d.events, RouteTo(recordId, RoutedTo(d, recordId, id, row), why));
    if exists r :: SameRunKnown(d.tables, RowFor(recordId, row), r) then d.(events := events)
    else Data(AfterInsert(d.tables, id, RowFor(recordId, row)), events)
  }

  ghost function AfterCommit(d: Data, op: DbOp): Data
    requires Commits(d, op)
  {
    match op
    case OnRuns(run) => d.(tables := RunModel.Step(d.tables, run))
    case OnEvents(event) => d.(events := EventStore.Step(d.events, event))
    case Routing(recordId, id, row, why) => AfterRouting(d, recordId, id, row, why)
    case PruneDetail(r, now) =>
      Data(RunModel.Step(d.tables, Prune(r, now)),
           if d.tables.runs[r].event.None? then d.events
           else EventStore.Step(d.events, PruneData(d.tables.runs[r].event.value)))
  }

  ghost function DbStep(d: Data, op: DbOp): Data {
    if Commits(d, op) then AfterCommit(d, op) else d
  }

  ghost function DbReplay(d: Data, h: seq<DbOp>): Data
    decreases |h|
  {
    if h == [] then d else DbReplay(DbStep(d, h[0]), h[1..])
  }

  // ---- The joint invariant --------------------------------------------------

  /** A run names a stored event. */
  ghost predicate EventsExist(d: Data) {
    forall r :: r in d.tables.runs && d.tables.runs[r].event.Some? ==> d.tables.runs[r].event.value in d.events
  }

  /** The run an event is routed to is stored and was caused by that event. */
  ghost predicate RoutedRunsExist(d: Data) {
    forall id :: id in d.events && d.events[id].routedRun.Some? ==>
      CausedBy(d, d.events[id].routedRun.value, id)
  }

  predicate CausedBy(d: Data, r: string, id: string) {
    r in d.tables.runs && d.tables.runs[r].event == Some(id)
  }

  /** Keys are unique and references lead somewhere. */
  ghost predicate Linked(d: Data) {
    RunKeys(d.tables) && EventStore.Inv(d.events) && EventsExist(d) && RoutedRunsExist(d)
  }

  ghost predicate DbInv(d: Data) {
    RunInvariant.Inv(d.tables) && Linked(d)
  }

  /** A run operation changes no stored run's event and removes no run. */
  lemma RunEventKept(t: Tables, op: RunModel.Op, r: string)
    requires r in t.runs
    ensures r in RunModel.Step(t, op).runs && RunModel.Step(t, op).runs[r].event == t.runs[r].event
  {
    if RunModel.Succeeds(t, op) && !op.Recover? {
      if r == TouchedRun(t, op) {
        TouchedEventKept(t, op);
      } else {
        OtherRunsUnchanged(t, op, r);
      }
    }
  }

  lemma TouchedEventKept(t: Tables, op: RunModel.Op)
    requires RunModel.Succeeds(t, op) && !op.Recover? && TouchedRun(t, op) in t.runs
    ensures TouchedRun(t, op) in RunModel.After(t, op).runs
    ensures RunModel.After(t, op).runs[TouchedRun(t, op)].event == t.runs[TouchedRun(t, op)].event
  {
  }

  /** A run that appears is the one inserted. */
  lemma NewRunInserted(t: Tables, op: RunModel.Op, r: string)
    requires r !in t.runs && r in RunModel.Step(t, op).runs
    ensures op.Enqueue? && RunModel.Step(t, op).runs[r].event == op.row.event
  {
    if !op.Enqueue? {
      KeyKeptByStep(t, op, r);
    }
  }

  lemma OnRunsKeepsInv(d: Data, op: DbOp)
    requires DbInv(d) && op.OnRuns?
    ensures DbInv(DbStep(d, op))
  {
    RunInvariant.StepKeepsInv(d.tables, op.runOp);
    var t := DbStep(d, op).tables;
    forall r | r in d.tables.runs ensures r in t.runs && t.runs[r].event == d.tables.runs[r].event {
      RunEventKept(d.tables, op.runOp, r);
    }
    if Commits(d, op) {
      forall r | r in t.runs && r !in d.tables.runs
        ensures t.runs[r].event.Some? ==> t.runs[r].event.value in d.events
      {
        NewRunInserted(d.tables, op.runOp, r);
      }
    }
    forall id | id in d.events && d.events[id].routedRun.Some?
      ensures CausedBy(DbStep(d, op), d.events[id].routedRun.value, id)
    {
      assert CausedBy(d, d.events[id].routedRun.value, id);
    }
  }

  lemma OnEventsKeepsInv(d: Data, op: DbOp)
    requires DbInv(d) && op.OnEvents?
    ensures DbInv(DbStep(d, op))
  {
    EventStore.StepKeepsInv(d.events, op.eventOp);
    var u := DbStep(d, op);
    forall id | id in u.events && u.events[id].routedRun.Some?
      ensures CausedBy(u, u.events[id].routedRun.value, id)
    {
      if Commits(d, op) {
        RoutingKept(d.events, op.eventOp, id);
      }
      assert CausedBy(d, d.events[id].routedRun.value, id);
    }
  }

  /** Only routing records a run. */
  lemma RoutingKept(events: Events, op: EventOp, id: string)
    requires !op.RouteTo? && EventStore.Inv(events)
    requires id in EventStore.Step(events, op) && EventStore.Step(events, op)[id].routedRun.Some?
    ensures id in events && events[id].routedRun == EventStore.Step(events, op)[id].routedRun
  {
  }

  /** What routing does: a run of that key and identity is there afterwards, the only
      one that may be new, and the event is routed to it. */
  lemma RoutingEffect(d: Data, recordId: string, id: string, row: Run, why: string)
    requires RunKeys(d.tables) && CommitsRouting(d, recordId, id, row)
    ensures
      var u, r := AfterRouting(d, recordId, id, row, why), RoutedTo(d, recordId, id, row);
      var run := RowFor(recordId, row);
      && r in u.tables.runs && SameIdentity(u.tables.runs[r], NormalRow(run))
      && CausedBy(u, r, recordId)
      && (u.tables == d.tables
          || (r !in d.tables.runs && Insertable(d.tables, id, run) && u.tables == AfterInsert(d.tables, id, run)))
      && u.events == EventStore.Step(d.events, RouteTo(recordId, r, why))
  {
  }

  lemma RouteEffect(d: Data, op: DbOp)
    requires RunKeys(d.tables) && op.Routing? && Commits(d, op)
    ensures var u, r, run := DbStep(d, op), RoutedTo(d, op.recordId, op.id, op.row), RowFor(op.recordId, op.row);
      && r in u.tables.runs && SameIdentity(u.tables.runs[r], NormalRow(run))
      && CausedBy(u, r, op.recordId)
      && (u.tables == d.tables
          || (r !in d.tables.runs && Insertable(d.tables, op.id, run) && u.tables == AfterInsert(d.tables, op.id, run)))
      && u.events == EventStore.Step(d.events, RouteTo(op.recordId, r, op.why))
  {
    RoutingEffect(d, op.recordId, op.id, op.row, op.why);
  }

  lemma RoutingKeepsCauses(d: Data, recordId: string, id: string, row: Run, why: string, u: Data, r: string)
    requires EventsExist(d) && RoutedRunsExist(d) && recordId in d.events
    requires u.tables == d.tables || u.tables == AfterInsert(d.tables, id, RowFor(recordId, row))
    requires TrimSpace(id) !in d.tables.runs || u.tables == d.tables
    requires CausedBy(u, r, recordId) && u.events == EventStore.Step(d.events, RouteTo(recordId, r, why))
    ensures EventsExist(u) && RoutedRunsExist(u)
  {
    forall e | e in u.events && u.events[e].routedRun.Some?
      ensures CausedBy(u, u.events[e].routedRun.value, e)
    {
      if u.events[e] == d.events[e] {
        assert CausedBy(d, d.events[e].routedRun.value, e);
      }
    }
  }

  /** Routing keeps keys unique and references intact, whatever state the run is in. */
  lemma RoutingKeepsLinks(d: Data, recordId: string, id: string, row: Run, why: string)
    requires Linked(d) && CommitsRouting(d, recordId, id, row)
    ensures Linked(AfterRouting(d, recordId, id, row, why))
  {
    var u, r := AfterRouting(d, recordId, id, row, why), RoutedTo(d, recordId, id, row);
    RoutingEffect(d, recordId, id, row, why);
    EventStore.StepKeepsInv(d.events, RouteTo(recordId, r, why));
    RoutingKeepsCauses(d, recordId, id, row, why, u, r);
    if u.tables != d.tables {
      InsertKeepsKeys(d.tables, id, RowFor(recordId, row));
    }
  }

  lemma InsertKeepsKeys(t: Tables, id: string, row: Run)
    requires RunKeys(t) && Insertable(t, id, row)
    ensures RunKeys(AfterInsert(t, id, row))
  {
    forall r | r in t.runs ensures t.runs[r].key != TrimSpace(row.key) {
      assert !HasRunKey(t, r, TrimSpace(row.key));
    }
  }

  /** The run is stored already. */
  ghost predicate RunKnown(d: Data, recordId: string, row: Run) {
    exists r :: SameRunKnown(d.tables, RowFor(recordId, row), r)
  }

  /** Routing keeps the whole invariant exactly when it stores no run, or one that is
      pending or ended. */
  lemma RoutingKeepsInvExactly(d: Data, recordId: string, id: string, row: Run, why: string)
    requires DbInv(d) && CommitsRouting(d, recordId, id, row)
    ensures DbInv(AfterRouting(d, recordId, id, row, why)) <==> RunKnown(d, recordId, row) || FreshState(row.state)
  {
    RoutingKeepsLinks(d, recordId, id, row, why);
    if !RunKnown(d, recordId, row) {
      CreationKeepsInv(d.tables, id, RowFor(recordId, row));
    }
  }

  lemma RouteKeepsInv(d: Data, op: DbOp)
    requires DbInv(d) && op.Routing?
    ensures DbInv(DbStep(d, op))
  {
    if Commits(d, op) {
      RoutingKeepsInvExactly(d, op.recordId, op.id, op.row, op.why);
    }
  }

  lemma PruneKeepsRuns(t: Tables, r: string, now: Instant)
    ensures var u := RunModel.Step(t, Prune(r, now));
      && u.runs.Keys == t.runs.Keys
      && forall s :: s in u.runs ==> u.runs[s].event == t.runs[s].event && u.runs[s].key == t.runs[s].key
  {
  }

  lemma PruneDetailKeepsInv(d: Data, op: DbOp)
    requires DbInv(d) && op.PruneDetail?
    ensures DbInv(DbStep(d, op))
  {
    if Commits(d, op) {
      var u, run := DbStep(d, op), d.tables.runs[op.runId];
      RunInvariant.StepKeepsInv(d.tables, Prune(op.runId, op.now));
      if run.event.Some? {
        EventStore.StepKeepsInv(d.events, PruneData(run.event.value));
      }
      PruneKeepsRuns(d.tables, op.runId, op.now);
      forall id | id in u.events && u.events[id].routedRun.Some?
        ensures CausedBy(u, u.events[id].routedRun.value, id)
      {
        assert CausedBy(d, d.events[id].routedRun.value, id);
      }
    }
  }

  /** Every transaction keeps the joint invariant. */
  lemma DbStepKeepsInv(d: Data, op: DbOp)
    requires DbInv(d)
    ensures DbInv(DbStep(d, op))
  {
    match op
    case OnRuns(_) => OnRunsKeepsInv(d, op);
    case OnEvents(_) => OnEventsKeepsInv(d, op);
    case Routing(_, _, _, _) => RouteKeepsInv(d, op);
    case PruneDetail(_, _) => PruneDetailKeepsInv(d, op);
  }

  lemma {:induction false} DbReplayKeepsInv(d: Data, h: seq<DbOp>)
    requires DbInv(d)
    ensures DbInv(DbReplay(d, h))
    decreases |h|
  {
    if h != [] {
      DbStepKeepsInv(d, h[0]);
      DbReplayKeepsInv(DbStep(d, h[0]), h[1..]);
    }
  }

  // ---- Runs and the events that cause them ----------------------------------

  /** Every run that names an event is the run the event is routed to. */
  ghost predicate Attached(d: Data) {
    forall r :: r in d.tables.runs && d.tables.runs[r].event.Some? ==> AttachedRun(d, r)
  }

  predicate AttachedRun(d: Data, r: string)
    requires r in d.tables.runs && d.tables.runs[r].event.Some?
  {
    var id := d.tables.runs[r].event.value;
    id in d.events && d.events[id].status == EventRouted && d.events[id].routedRun == Some(r)
  }

  /** The transaction creates a run that names an event without routing the event. */
  ghost predicate Detaches(d: Data, op: DbOp) {
    op.OnRuns? && op.runOp.Enqueue? && op.runOp.row.event.Some? && Commits(d, op)
  }

  /** Runs and events stay attached exactly unless a run that names an event is
      created without routing it. */
  lemma AttachedExactly(d: Data, op: DbOp)
    requires DbInv(d) && Attached(d)
    ensures Attached(DbStep(d, op)) <==> !Detaches(d, op)
  {
    if Commits(d, op) {
      match op
      case OnRuns(run) => AttachedOnRuns(d, op);
      case OnEvents(event) => AttachedOnEvents(d, op);
      case Routing(_, _, _, _) => AttachedRoute(d, op);
      case PruneDetail(_, _) => AttachedPrune(d, op);
    }
  }

  lemma AttachedOnRuns(d: Data, op: DbOp)
    requires DbInv(d) && Attached(d) && op.OnRuns? && Commits(d, op)
    ensures Attached(DbStep(d, op)) <==> !Detaches(d, op)
  {
    var u := DbStep(d, op);
    forall r | r in u.tables.runs && u.tables.runs[r].event.Some? && r in d.tables.runs ensures AttachedRun(u, r) {
      RunEventKept(d.tables, op.runOp, r);
      assert AttachedRun(d, r);
    }
    forall r | r in u.tables.runs && r !in d.tables.runs
      ensures u.tables.runs[r].event.Some? ==> Detaches(d, op)
    {
      NewRunInserted(d.tables, op.runOp, r);
    }
    if Detaches(d, op) {
      DetachedRun(d, op);
    }
  }

  /** The run created beside its event is not the one the event is routed to. */
  lemma DetachedRun(d: Data, op: DbOp)
    requires DbInv(d) && Detaches(d, op)
    ensures !Attached(DbStep(d, op))
  {
    var u, r, id := DbStep(d, op), TrimSpace(op.runOp.newRun), op.runOp.row.event.value;
    assert r !in d.tables.runs && r in u.tables.runs && u.tables.runs[r].event == Some(id);
    if d.events[id].routedRun.Some? {
      assert CausedBy(d, d.events[id].routedRun.value, id);
    }
    assert !AttachedRun(u, r);
  }

  lemma AttachedOnEvents(d: Data, op: DbOp)
    requires DbInv(d) && Attached(d) && op.OnEvents? && Commits(d, op)
    ensures Attached(DbStep(d, op))
  {
    var u := DbStep(d, op);
    forall r | r in u.tables.runs && u.tables.runs[r].event.Some? ensures AttachedRun(u, r) {
      assert AttachedRun(d, r);
    }
  }

  lemma AttachedRoute(d: Data, op: DbOp)
    requires DbInv(d) && Attached(d) && op.Routing? && Commits(d, op)
    ensures Attached(DbStep(d, op))
  {
    var u := DbStep(d, op);
    RouteEffect(d, op);
    forall r | r in u.tables.runs && u.tables.runs[r].event.Some? ensures AttachedRun(u, r) {
      if r in d.tables.runs {
        assert AttachedRun(d, r);
      }
    }
  }

  lemma AttachedPrune(d: Data, op: DbOp)
    requires DbInv(d) && Attached(d) && op.PruneDetail? && Commits(d, op)
    ensures Attached(DbStep(d, op))
  {
    var u := DbStep(d, op);
    forall r | r in u.tables.runs && u.tables.runs[r].event.Some? ensures AttachedRun(u, r) {
      assert AttachedRun(d, r);
    }
  }

  /** An event causes at most one run. */
  lemma OneRunPerEvent(d: Data, r: string, s: string, id: string)
    requires Attached(d) && CausedBy(d, r, id) && CausedBy(d, s, id)
    ensures r == s
  {
    assert AttachedRun(d, r) && AttachedRun(d, s);
  }

  /** The history creates no run beside the event it names. */
  ghost predicate NeverDetaches(d: Data, h: seq<DbOp>)
    decreases |h|
  {
    h == [] || (!Detaches(d, h[0]) && NeverDetaches(DbStep(d, h[0]), h[1..]))
  }

  /** The run an event is routed to has ended. */
  predicate RunEnded(d: Data, id: string) {
    id in d.events && d.events[id].routedRun.Some? && Ended(d.tables, d.events[id].routedRun.value)
  }

  const EMPTY_DATA := Data(EMPTY_TABLES, map[])

  lemma DbInvInitially()
    ensures DbInv(EMPTY_DATA) && Attached(EMPTY_DATA)
  {
    RunInvariant.InvInitially();
  }

  lemma {:induction false} AttachedThroughout(d: Data, h: seq<DbOp>)
    requires DbInv(d) && Attached(d) && NeverDetaches(d, h)
    ensures Attached(DbReplay(d, h))
    decreases |h|
  {
    if h != [] {
      DbStepKeepsInv(d, h[0]);
      AttachedExactly(d, h[0]);
      AttachedThroughout(DbStep(d, h[0]), h[1..]);
    }
  }

  /** Every database reached from the empty one satisfies the joint invariant, and its
      events cause at most one run each if runs come from their events. */
  lemma ReachableDatabase(h: seq<DbOp>)
    ensures DbInv(DbReplay(EMPTY_DATA, h))
    ensures NeverDetaches(EMPTY_DATA, h) ==>
      forall r, s, id :: CausedBy(DbReplay(EMPTY_DATA, h), r, id) && CausedBy(DbReplay(EMPTY_DATA, h), s, id) ==> r == s
  {
    DbInvInitially();
    DbReplayKeepsInv(EMPTY_DATA, h);
    if NeverDetaches(EMPTY_DATA, h) {
      var d := DbReplay(EMPTY_DATA, h);
      AttachedThroughout(EMPTY_DATA, h);
      forall r, s, id | CausedBy(d, r, id) && CausedBy(d, s, id) ensures r == s {
        OneRunPerEvent(d, r, s, id);
      }
    }
  }

  lemma EventStepKeeps(events: Events, op: EventOp, id: string)
    requires id in events
    ensures id in EventStore.Step(events, op) && SameOrigin(EventStore.Step(events, op)[id], events[id])
    ensures events[id].status == EventRouted ==> SameButData(EventStore.Step(events, op)[id], events[id])
    ensures op != PruneData(id) ==> SameData(EventStore.Step(events, op)[id], events[id])
  {
  }

  /** The part of a transaction that concerns events, if it has one. */
  ghost function EventPart(d: Data, op: DbOp): Option<EventOp> {
    match op
    case OnRuns(_) => None
    case OnEvents(event) => Some(event)
    case Routing(recordId, id, row, why) => Some(RouteTo(recordId, RoutedTo(d, recordId, id, row), why))
    case PruneDetail(r, _) =>
      if r in d.tables.runs && d.tables.runs[r].event.Some? then Some(PruneData(d.tables.runs[r].event.value)) else None
  }

  lemma EventsStep(d: Data, op: DbOp)
    ensures DbStep(d, op).events ==
      if Commits(d, op) && EventPart(d, op).Some? then EventStore.Step(d.events, EventPart(d, op).value) else d.events
  {
  }

  lemma EventStays(d: Data, op: DbOp, id: string)
    requires id in d.events
    ensures id in DbStep(d, op).events && SameOrigin(DbStep(d, op).events[id], d.events[id])
    ensures d.events[id].status == EventRouted ==> SameButData(DbStep(d, op).events[id], d.events[id])
  {
    EventsStep(d, op);
    if EventPart(d, op).Some? {
      EventStepKeeps(d.events, EventPart(d, op).value, id);
    }
  }

  /** Only the pruning of an ended run that names the event changes its data. */
  lemma DataChangedByPruning(d: Data, op: DbOp, id: string)
    requires id in d.events && !SameData(DbStep(d, op).events[id], d.events[id])
    ensures op.PruneDetail? && Commits(d, op) && CausedBy(d, op.runId, id) && Ended(d.tables, op.runId)
    ensures IsPruned(DbStep(d, op).events[id])
  {
    EventsStep(d, op);
    if EventPart(d, op).Some? {
      EventStepKeeps(d.events, EventPart(d, op).value, id);
    }
  }

  lemma RunEndedStays(d: Data, op: DbOp, id: string)
    requires DbInv(d) && RunEnded(d, id)
    ensures RunEnded(DbStep(d, op), id)
  {
    EventStays(d, op, id);
    var r := d.events[id].routedRun.value;
    if Commits(d, op) {
      match op
      case OnRuns(run) => EndedRunKeptByStep(d.tables, run, r);
      case OnEvents(_) =>
      case Routing(_, _, _, _) => RouteEffect(d, op);
      case PruneDetail(_, now) => EndedRunKeptByStep(d.tables, Prune(op.runId, now), r);
    }
  }

  /** An event's data after a history, compared with what they were: they are the same
      unless they were pruned, and that is so only once the run of the event ended. */
  predicate KeptUntilEnd(d: Data, id: string, before: Event) {
    && id in d.events && SameOrigin(d.events[id], before)
    && (SameData(d.events[id], before) || (IsPruned(d.events[id]) && RunEnded(d, id)))
  }

  lemma KeptUntilEndStep(d: Data, op: DbOp, id: string, before: Event)
    requires DbInv(d) && Attached(d) && !Detaches(d, op) && KeptUntilEnd(d, id, before)
    ensures KeptUntilEnd(DbStep(d, op), id, before)
  {
    EventStays(d, op, id);
    if RunEnded(d, id) {
      RunEndedStays(d, op, id);
    }
    if !SameData(DbStep(d, op).events[id], d.events[id]) {
      DataChangedByPruning(d, op, id);
      assert AttachedRun(d, op.runId);
      RunEndedStays(d, op, id);
    }
  }

  lemma {:induction false} KeptSince(d: Data, h: seq<DbOp>, id: string, before: Event)
    requires DbInv(d) && Attached(d) && NeverDetaches(d, h) && KeptUntilEnd(d, id, before)
    ensures KeptUntilEnd(DbReplay(d, h), id, before)
    decreases |h|
  {
    if h != [] {
      DbStepKeepsInv(d, h[0]);
      AttachedExactly(d, h[0]);
      KeptUntilEndStep(d, h[0], id, before);
      KeptSince(DbStep(d, h[0]), h[1..], id, before);
    }
  }

  /** Over every history in which runs come from their events, an event keeps its data
      as long as the run it causes has not ended. */
  lemma EventKeepsDataUntilRunEnds(d: Data, h: seq<DbOp>, id: string)
    requires DbInv(d) && Attached(d) && NeverDetaches(d, h) && id in d.events
    ensures KeptUntilEnd(DbReplay(d, h), id, d.events[id])
  {
    KeptSince(d, h, id, d.events[id]);
  }

  /** Otherwise it need not: the pruning of any ended run that names an event prunes the
      event, also when the event is routed to another run that is still active. */
  lemma PruningReachesNamedEvent(d: Data, op: DbOp, id: string)
    requires op.PruneDetail? && Commits(d, op) && CausedBy(d, op.runId, id) && id in d.events
    ensures id in DbStep(d, op).events && IsPruned(DbStep(d, op).events[id])
  {
  }

  // ---- The transactions -----------------------------------------------------

  datatype DbError = Invalid | Unknown | Conflicting | Violation

  class Db {
    const store: Store
    const table: Table

    constructor (store: Store, table: Table)
      ensures this.store == store && this.table == table
    {
      this.store, this.table := store, table;
    }

    ghost function Contents(): Data
      reads this, store, table
    {
      Data(store.Contents(), table.events)
    }

    /** Attaches an event to its run, which it stores unless it is there already.
        Repeating the same routing changes nothing. */
    method RouteEvent(recordId: string, id: string, row: Run, why: string)
      returns (outcome: Result<(string, bool), DbError>)
      requires Linked(Contents())
      modifies store, table
      ensures Linked(Contents())
      ensures Contents() == if CommitsRouting(old(Contents()), recordId, id, row)
        then AfterRouting(old(Contents()), recordId, id, row, why) else old(Contents())
      ensures outcome == Err(Invalid) <==> TrimSpace(recordId) == "" || !RunWellFormed(id, row)
      ensures outcome == Err(Unknown) <==>
        TrimSpace(recordId) != "" && RunWellFormed(id, row) && recordId !in old(table.events)
      ensures outcome.Ok? ==>
        && recordId in table.events && table.events[recordId].status == EventRouted
        && table.events[recordId].routedRun == Some(outcome.value.0)
        && outcome.value.0 in store.runs && SameIdentity(store.runs[outcome.value.0], NormalRow(RowFor(recordId, row)))
      ensures outcome.Ok? ==> (outcome.value.1 <==> outcome.value.0 !in old(store.runs))
      ensures CommitsRouting(old(Contents()), recordId, id, row) ==> outcome.Ok?
      ensures outcome.Ok? && !CommitsRouting(old(Contents()), recordId, id, row) ==>
        recordId in old(table.events) && old(table.events[recordId].status) == EventRouted
      ensures outcome.Ok? && outcome.value.1 ==>
        outcome.value.0 == TrimSpace(id) && StoredAs(RowFor(recordId, row), store.runs[outcome.value.0])
      ensures outcome == Err(Conflicting) ==> exists r ::
        && r in old(store.runs) && !SameIdentity(old(store.runs)[r], NormalRow(RowFor(recordId, row)))
        && (old(store.runs)[r].key == TrimSpace(row.key) || old(table.events)[recordId].routedRun == Some(r))
      ensures outcome == Err(Violation) ==>
        TrimSpace(id) in old(store.runs) || (row.parent != "" && row.parent !in old(store.runs))
    {
      if TrimSpace(recordId) == "" || !RunWellFormed(id, row) {
        return Err(Invalid);
      }
      if recordId !in table.events {
        return Err(Unknown);
      }
      var run := NormalRow(RowFor(recordId, row));
      if table.events[recordId].status == EventRouted {
        var routed := table.events[recordId].routedRun.value;
        assert CausedBy(Contents(), routed, recordId);
        assert !CommitsRouting(Contents(), recordId, id, row);
        if !SameIdentity(store.runs[routed], run) {
          return Err(Conflicting);
        }
        return Ok((routed, false));
      }
      outcome := InsertAndAttach(recordId, id, row, why);
    }

    /** The part of routing an event that is not routed yet. */
    method InsertAndAttach(recordId: string, id: string, row: Run, why: string)
      returns (outcome: Result<(string, bool), DbError>)
      requires Linked(Contents()) && TrimSpace(recordId) != "" && RunWellFormed(id, row)
      requires recordId in table.events && table.events[recordId].status != EventRouted
      modifies store, table
      ensures Linked(Contents())
      ensures Contents() == if CommitsRouting(old(Contents()), recordId, id, row)
        then AfterRouting(old(Contents()), recordId, id, row, why) else old(Contents())
      ensures outcome.Ok? <==> CommitsRouting(old(Contents()), recordId, id, row)
      ensures outcome.Ok? ==> outcome.value.0 == RoutedTo(old(Contents()), recordId, id, row)
      ensures outcome.Ok? ==> (outcome.value.1 <==> outcome.value.0 !in old(store.runs))
      ensures outcome.Err? ==> outcome.error == Conflicting || outcome.error == Violation
      ensures outcome.Ok? && outcome.value.1 ==>
        outcome.value.0 == TrimSpace(id) && outcome.value.0 in store.runs
        && StoredAs(RowFor(recordId, row), store.runs[outcome.value.0])
      ensures outcome == Err(Conflicting) ==> OtherRunHasKey(old(store.Contents()), RowFor(recordId, row))
      ensures outcome == Err(Violation) ==> Obstructed(old(store.Contents()), id, row)
    {
      ghost var d := Contents();
      outcome := InsertOrFind(recordId, id, row);
      if outcome.Ok? {
        RoutedToFound(d, recordId, id, row, outcome.value);
        RoutingKeepsLinks(d, recordId, id, row, why);
        table.AttachRun(recordId, outcome.value.0, why);
      }
    }

    /** INSERT .. ON CONFLICT(idempotency_key) DO NOTHING, and the row of that key. */
    method InsertOrFind(recordId: string, id: string, row: Run) returns (outcome: Result<(string, bool), DbError>)
      requires RunKeys(store.Contents()) && RunWellFormed(id, row)
      modifies store
      ensures outcome.Ok? <==> CanRoute(old(store.Contents()), id, RowFor(recordId, row))
      ensures outcome.Ok? && outcome.value.1 ==> Insertable(old(store.Contents()), id, RowFor(recordId, row))
      ensures outcome.Ok? && outcome.value.1 ==> outcome.value.0 == TrimSpace(id)
      ensures outcome.Ok? && !outcome.value.1 ==>
        SameRunKnown(old(store.Contents()), RowFor(recordId, row), outcome.value.0)
      ensures store.Contents() == if outcome.Ok? && outcome.value.1
        then AfterInsert(old(store.Contents()), id, RowFor(recordId, row)) else old(store.Contents())
      ensures outcome.Err? ==> outcome.error == Conflicting || outcome.error == Violation
      ensures outcome.Ok? && outcome.value.1 ==>
        outcome.value.0 in store.runs && StoredAs(RowFor(recordId, row), store.runs[outcome.value.0])
      ensures outcome == Err(Conflicting) ==> OtherRunHasKey(old(store.Contents()), RowFor(recordId, row))
      ensures outcome == Err(Violation) ==> Obstructed(old(store.Contents()), id, row)
    {
      ghost var t := store.Contents();
      var created := store.CreateRun(id, RowFor(recordId, row), true);
      match created
      case Ok(found) =>
        outcome := Ok(found);
        if !found.1 {
          KnownRun(t, RowFor(recordId, row), found.0);
        }
      case Err(Conflict) =>
        ghost var r :|
          HasRunKey(t, r, TrimSpace(row.key)) && !SameIdentity(t.runs[r], NormalRow(RowFor(recordId, row)));
        OtherRunKnown(t, RowFor(recordId, row), r);
        outcome := Err(Conflicting);
      case Err(_) =>
        KeyUnknown(t, RowFor(recordId, row));
        outcome := Err(Violation);
    }

    /** Strips the run's logs and prunes its event, or leaves both alone. */
    method PruneRunDetail(r: string, now: Instant) returns (error: Option<StoreError>)
      modifies store, table
      ensures Contents() == DbStep(old(Contents()), PruneDetail(r, now))
      ensures error == None <==> Commits(old(Contents()), PruneDetail(r, now))
    {
      error := store.PruneRunRows(r, now);
      if error.None? && store.runs[r].event.Some? {
        table.PruneEvent(store.runs[r].event.value);
      }
    }
  }

  /** The run found or inserted is the one the model attaches. */
  lemma RoutedToFound(d: Data, recordId: string, id: string, row: Run, found: (string, bool))
    requires RunKeys(d.tables)
    requires found.1 ==> Insertable(d.tables, id, RowFor(recordId, row)) && found.0 == TrimSpace(id)
    requires !found.1 ==> SameRunKnown(d.tables, RowFor(recordId, row), found.0)
    ensures RoutedTo(d, recordId, id, row) == found.0
    ensures found.1 <==> !exists r :: SameRunKnown(d.tables, RowFor(recordId, row), r)
  {
    if found.1 {
      KeyUnknown(d.tables, RowFor(recordId, row));
    }
  }

  lemma OtherRunKnown(t: Tables, row: Run, r: string)
    requires RunKeys(t) && HasRunKey(t, r, TrimSpace(row.key)) && !SameIdentity(t.runs[r], NormalRow(row))
    ensures KeyTaken(t, TrimSpace(row.key)) && forall q :: !SameRunKnown(t, row, q)
  {
  }

  lemma KeyUnknown(t: Tables, row: Run)
    requires !KeyTaken(t, TrimSpace(row.key))
    ensures forall q :: !SameRunKnown(t, row, q)
  {
    forall q ensures !SameRunKnown(t, row, q) {
      assert !HasRunKey(t, q, TrimSpace(row.key));
    }
  }

  lemma KnownRun(t: Tables, row: Run, r: string)
    requires r in t.runs && SameIdentity(t.runs[r], NormalRow(row))
    ensures SameRunKnown(t, row, r)
  {
  }
}
