/** The schedule runtime: durable timers turned into durable events, across crashes
    at any point between two store writes. */
module ScheduleRuntime {
  import opened Scheduler
  import opened Times
  import opened Ordering

  /** A scheduled source as its definition declares it; an interval that is not positive
      stands for one that cannot be used. */
  datatype Source = Source(policy: Policy, interval: Duration, enabled: bool)

  /** A row of the timers table. The due time is stored in whole milliseconds. */
  datatype Timer = Timer(due: int, pending: bool)

  /** The unique key of an event. Its external id is "<source>:<milliseconds>", so
      within a source it is as good as the milliseconds. */
  datatype EventKey = EventKey(source: string, millis: int)

  /** Timers by source name (the row id is "schedule:<name>") and events by key. */
  datatype State = State(timers: map<string, Timer>, events: map<EventKey, Instant>)

  type Sources = map<string, Source>

  /** The timer is due and its source still schedules. */
  predicate Fires(s: State, sources: Sources, now: Instant, name: string) {
    && name in s.timers && s.timers[name].pending && s.timers[name].due <= Millis(now)
    && name in sources && sources[name].enabled && sources[name].interval > 0
  }

  function DueBatch(s: State, sources: Sources, now: Instant, name: string): Batch
    requires Fires(s, sources, now, name)
  {
    BatchFor(sources[name].policy, s.timers[name].due * MS, now, sources[name].interval)
  }

  ghost predicate Ingested(events: map<EventKey, Instant>, name: string, occurrences: seq<Instant>) {
    forall i :: 0 <= i < |occurrences| ==> EventKey(name, Millis(occurrences[i])) in events
  }

  ghost predicate Advanced(s: State, t: State, sources: Sources, now: Instant, name: string)
    requires name in s.timers && name in t.timers
  {
    && Fires(s, sources, now, name)
    && var b := DueBatch(s, sources, now, name);
       t.timers[name] == s.timers[name].(due := Millis(b.next)) && Ingested(t.events, name, b.occurrences)
  }

  /** The event `key` was not there before and is an occurrence of a firing timer. */
  ghost predicate NewEvent(s: State, t: State, sources: Sources, now: Instant, key: EventKey)
    requires key in t.events
  {
    && Fires(s, sources, now, key.source)
    && t.events[key] in DueBatch(s, sources, now, key.source).occurrences
    && key.millis == Millis(t.events[key])
  }

  /** What one ProcessDue run may have done when it ends or the process dies: stored
      events stay, new events are occurrences that were due, and a timer moved only
      after all its occurrences were stored. */
  ghost predicate ProcessStep(s: State, t: State, sources: Sources, now: Instant) {
    && t.timers.Keys == s.timers.Keys
    && (forall name :: name in s.timers ==> t.timers[name] == s.timers[name] || Advanced(s, t, sources, now, name))
    && (forall key :: key in s.events ==> key in t.events && t.events[key] == s.events[key])
    && (forall key :: key in t.events && key !in s.events ==> NewEvent(s, t, sources, now, key))
  }

  /** ORDER BY due_at, id. */
  predicate EarlierTimer(timers: map<string, Timer>, a: string, b: string) {
    && a in timers && b in timers
    && (timers[a].due < timers[b].due || (timers[a].due == timers[b].due && StringLeq(a, b)))
  }

  lemma OccurrenceStored(s: State, t: State, u: State, sources: Sources, now: Instant, name: string,
                         occurred: Instant)
    requires ProcessStep(s, t, sources, now) && Fires(s, sources, now, name)
    requires occurred in DueBatch(s, sources, now, name).occurrences && u.timers == t.timers
    requires var key := EventKey(name, Millis(occurred));
      u.events == if key in t.events then t.events else t.events[key := occurred]
    ensures ProcessStep(s, u, sources, now)
  {
  }

  lemma TimerAdvanced(s: State, t: State, u: State, sources: Sources, now: Instant, name: string)
    requires ProcessStep(s, t, sources, now) && Fires(s, sources, now, name) && t.timers[name] == s.timers[name]
    requires Ingested(t.events, name, DueBatch(s, sources, now, name).occurrences) && u.events == t.events
    requires u.timers == t.timers[name := s.timers[name].(due := Millis(DueBatch(s, sources, now, name).next))]
    ensures ProcessStep(s, u, sources, now) && Advanced(s, u, sources, now, name)
  {
  }

  /** What a fired timer of this source leaves behind, by its catch-up policy: the events
      that are stored and when the timer is next due. */
  ghost predicate Delivered(before: Timer, source: Source, name: string, now: Instant,
                            events: map<EventKey, Instant>, after: Timer)
    requires source.interval > 0
  {
    && after.pending == before.pending
    && match source.policy {
       case Latest => LastPointDelivered(before.due * MS, source.interval, name, now, events, after.due)
       case Skip => DeliveredInTime(before.due * MS, source.interval, name, now, events, after.due)
       case All => EveryPointDelivered(before.due * MS, source.interval, name, now, events, after.due)
       }
  }

  /** The last point not after now has its event, and the next one is due next. */
  ghost predicate LastPointDelivered(due: Instant, interval: Duration, name: string, now: Instant,
                                     events: map<EventKey, Instant>, next: int)
  {
    exists p ::
      && OnGrid(due, interval, p) && p <= now < p + interval
      && EventKey(name, Millis(p)) in events && next == Millis(p + interval)
  }

  /** The due time has its event unless now is too late, and the first point after now
      is due next. */
  ghost predicate DeliveredInTime(due: Instant, interval: Duration, name: string, now: Instant,
                                  events: map<EventKey, Instant>, next: int)
  {
    && (now - due <= interval / 10 && now - due <= MINUTE ==> EventKey(name, Millis(due)) in events)
    && exists p :: OnGrid(due, interval, p) && p - interval <= now < p && next == Millis(p)
  }

  /** The first points have their events, all of those not after now or a hundred, and
      the point after them is due next. */
  ghost predicate EveryPointDelivered(due: Instant, interval: Duration, name: string, now: Instant,
                                      events: map<EventKey, Instant>, next: int)
  {
    exists n :: 1 <= n <= 100 && PointsDelivered(due, interval, name, now, events, n)
      && next == Millis(Point(due, interval, n))
  }

  ghost predicate PointsDelivered(due: Instant, interval: Duration, name: string, now: Instant,
                                  events: map<EventKey, Instant>, n: nat)
  {
    && (forall k {:trigger Point(due, interval, k)} :: 0 <= k < n ==>
          Point(due, interval, k) <= now && EventKey(name, Millis(Point(due, interval, k))) in events)
    && (n == 100 || now < Point(due, interval, n))
  }

  lemma AdvancedDelivers(s: State, t: State, sources: Sources, now: Instant, name: string)
    requires name in s.timers && name in t.timers && Advanced(s, t, sources, now, name)
    ensures Delivered(s.timers[name], sources[name], name, now, t.events, t.timers[name])
  {
    var due, interval := s.timers[name].due * MS, sources[name].interval;
    match sources[name].policy
    case Latest => LatestDelivers(due, interval, name, now, t.events);
    case Skip => SkipDelivers(due, interval, name, now, t.events);
    case All => AllDelivers(due, interval, name, now, t.events);
  }

  lemma LatestDelivers(due: Instant, interval: Duration, name: string, now: Instant, events: map<EventKey, Instant>)
    requires interval > 0 && due <= now
    requires Ingested(events, name, BatchFor(Latest, due, now, interval).occurrences)
    ensures LastPointDelivered(due, interval, name, now, events, Millis(BatchFor(Latest, due, now, interval).next))
  {
    LatestIsLastPoint(due, now, interval);
    var p := BatchFor(Latest, due, now, interval).occurrences[0];
    assert OnGrid(due, interval, p) && EventKey(name, Millis(p)) in events;
  }

  lemma SkipDelivers(due: Instant, interval: Duration, name: string, now: Instant, events: map<EventKey, Instant>)
    requires interval > 0 && due <= now
    requires Ingested(events, name, BatchFor(Skip, due, now, interval).occurrences)
    ensures DeliveredInTime(due, interval, name, now, events, Millis(BatchFor(Skip, due, now, interval).next))
  {
    SkipWithinTolerance(due, now, interval);
    var b := BatchFor(Skip, due, now, interval);
    if now - due <= interval / 10 && now - due <= MINUTE {
      assert b.occurrences[0] == due;
    }
  }

  lemma AllDelivers(due: Instant, interval: Duration, name: string, now: Instant, events: map<EventKey, Instant>)
    requires interval > 0 && due <= now
    requires Ingested(events, name, BatchFor(All, due, now, interval).occurrences)
    ensures EveryPointDelivered(due, interval, name, now, events, Millis(BatchFor(All, due, now, interval).next))
  {
    AllIsEveryPoint(due, now, interval);
    var b := BatchFor(All, due, now, interval);
    var n := |b.occurrences|;
    forall k {:trigger Point(due, interval, k)} | 0 <= k < n
      ensures Point(due, interval, k) <= now && EventKey(name, Millis(Point(due, interval, k))) in events
    {
      assert b.occurrences[k] == Point(due, interval, k);
      PointsOrdered(due, interval, n - 1, k);
    }
    assert PointsDelivered(due, interval, name, now, events, n);
  }

  lemma AtMostHundred(policy: Policy, due: Instant, now: Instant, interval: Duration)
    requires interval > 0 && due <= now
    ensures |BatchFor(policy, due, now, interval).occurrences| <= 100
  {
    match policy
    case Latest => LatestIsLastPoint(due, now, interval);
    case Skip => SkipWithinTolerance(due, now, interval);
    case All => AllIsEveryPoint(due, now, interval);
  }

  /** A timer writes at most a hundred events and its own row. */
  const WRITES := 101

  class Runtime {
    var timers: map<string, Timer>
    var events: map<EventKey, Instant>

    ghost function Contents(): State
      reads this
    {
      State(timers, events)
    }

    /** WHERE state = 'pending' AND due_at <= now ORDER BY due_at, id LIMIT 100. */
    method DueScheduleTimers(now: Instant) returns (due: seq<string>)
      ensures |due| <= 100
      ensures forall i, j :: 0 <= i < j < |due| ==> due[i] != due[j]
      ensures forall name :: name in due ==> name in timers && timers[name].pending && timers[name].due <= Millis(now)
      ensures forall i, j :: 0 <= i < j < |due| ==> EarlierTimer(timers, due[i], due[j])
      ensures forall name ::
        name in timers && timers[name].pending && timers[name].due <= Millis(now) && name !in due ==>
        |due| == 100 && forall i :: 0 <= i < |due| ==> EarlierTimer(timers, due[i], name)
      ensures forall i, name :: 0 <= i < |due| && name in timers && timers[name].pending && name !in due ==>
        due[i] in timers && timers[due[i]].due <= timers[name].due
    {
      var all := timers;
      var rest := set name | name in timers && timers[name].pending && timers[name].due <= Millis(now);
      due := [];
      while rest != {} && |due| < 100
        invariant |due| <= 100 && rest <= timers.Keys
        invariant forall name :: name in rest || name in due <==>
          name in timers && timers[name].pending && timers[name].due <= Millis(now)
        invariant forall i, j :: 0 <= i < j < |due| ==> due[i] != due[j] && EarlierTimer(timers, due[i], due[j])
        invariant forall i, name :: 0 <= i < |due| && name in rest ==>
          due[i] != name && EarlierTimer(timers, due[i], name)
        decreases rest
      {
        StringsTotallyOrdered();
        ghost var witnessed := LeastExists((a, b) => EarlierTimer(all, a, b), rest);
        var name :| name in rest && forall other :: other in rest ==> EarlierTimer(all, name, other);
        due, rest := due + [name], rest - {name};
      }
    }

    /** INSERT .. ON CONFLICT(source, external_id) DO NOTHING. */
    method Ingest(source: string, occurred: Instant) returns (created: bool)
      modifies `events
      ensures created <==> EventKey(source, Millis(occurred)) !in old(events)
      ensures events == if created then old(events)[EventKey(source, Millis(occurred)) := occurred] else old(events)
    {
      var key := EventKey(source, Millis(occurred));
      created := key !in events;
      if created {
        events := events[key := occurred];
      }
    }

    /** Compare-and-set on the due time that was read. */
    method AdvanceScheduleTimer(name: string, expected: Instant, next: Instant) returns (changed: bool)
      modifies `timers
      ensures changed <==> name in old(timers) && old(timers)[name].pending && old(timers)[name].due == Millis(expected)
      ensures timers == if changed then old(timers)[name := old(timers)[name].(due := Millis(next))] else old(timers)
    {
      changed := name in timers && timers[name].pending && timers[name].due == Millis(expected);
      if changed {
        timers := timers[name := timers[name].(due := Millis(next))];
      }
    }

    /** Stores the occurrences of a firing timer while `budget` lasts. */
    method StoreOccurrences(ghost s: State, sources: Sources, now: Instant, name: string,
                            occurrences: seq<Instant>, budget: nat)
      returns (left: nat, stored: bool)
      requires ProcessStep(s, Contents(), sources, now) && Fires(s, sources, now, name)
      requires occurrences == DueBatch(s, sources, now, name).occurrences
      modifies `events
      ensures ProcessStep(s, Contents(), sources, now)
      ensures forall key :: key in old(events) ==> key in events
      ensures stored ==> Ingested(events, name, occurrences)
      ensures budget >= |occurrences| ==> stored && left == budget - |occurrences|
    {
      left := budget;
      for i := 0 to |occurrences|
        invariant left == budget - i
        invariant ProcessStep(s, Contents(), sources, now)
        invariant forall key :: key in old(events) ==> key in events
        invariant forall k :: 0 <= k < i ==> EventKey(name, Millis(occurrences[k])) in events
      {
        if left == 0 {
          return 0, false;
        }
        ghost var t := Contents();
        var _ := Ingest(name, occurrences[i]);
        OccurrenceStored(s, t, Contents(), sources, now, name, occurrences[i]);
        left := left - 1;
      }
      stored := true;
    }

    /** One firing timer: its occurrences, then the advance. `budget` is the number of
        store writes the process lives to make. */
    method FireTimer(ghost s: State, sources: Sources, now: Instant, name: string, budget: nat)
      returns (left: nat, finished: bool)
      requires ProcessStep(s, Contents(), sources, now) && Fires(s, sources, now, name)
      requires timers[name] == s.timers[name]
      modifies this
      ensures ProcessStep(s, Contents(), sources, now)
      ensures forall key :: key in old(events) ==> key in events
      ensures forall other :: other in timers && other != name ==> timers[other] == old(timers)[other]
      ensures finished ==> Advanced(s, Contents(), sources, now, name)
      ensures !finished ==> left == 0
      ensures budget >= WRITES ==> finished && left >= budget - WRITES
    {
      AtMostHundred(sources[name].policy, timers[name].due * MS, now, sources[name].interval);
      var batch := ScheduleOccurrences(sources[name].policy, timers[name].due * MS, now, sources[name].interval);
      var stored;
      left, stored := StoreOccurrences(s, sources, now, name, batch.occurrences, budget);
      if !stored || left == 0 {
        return 0, false;
      }
      ghost var t := Contents();
      var changed := AdvanceScheduleTimer(name, timers[name].due * MS, batch.next);
      TimerAdvanced(s, t, Contents(), sources, now, name);
      left, finished := left - 1, true;
    }

    /** ProcessDue, ended early by a crash (or a failing write) after `budget` writes, or
        by the error of a source whose interval is unusable. When it runs to its end,
        every timer it listed whose source is enabled has delivered what its policy asks
        for, and no such source was among them; it does so unless one is, if it lives
        for the writes it may need. It lists all due timers if they are fewer than 100. */
    method ProcessDue(sources: Sources, now: Instant, budget: nat) returns (completed: bool, listed: seq<string>)
      modifies this
      ensures ProcessStep(old(Contents()), Contents(), sources, now)
      ensures completed ==> forall name :: name in listed && name in sources && sources[name].enabled ==>
        sources[name].interval > 0
      ensures completed ==> forall name :: name in listed && name in sources && sources[name].enabled ==>
        && name in old(timers) && name in timers
        && Delivered(old(timers)[name], sources[name], name, now, events, timers[name])
      ensures completed ==> FiredAmong(old(Contents()), Contents(), sources, now, listed)
      ensures completed || budget < WRITES * |listed|
        || exists name :: name in listed && name in sources && sources[name].enabled && sources[name].interval <= 0
      ensures |listed| < 100 ==> forall name ::
        name in old(timers) && old(timers)[name].pending && old(timers)[name].due <= Millis(now) ==> name in listed
      ensures forall name :: name in listed ==>
        name in old(timers) && old(timers)[name].pending && old(timers)[name].due <= Millis(now)
    {
      listed := DueScheduleTimers(now);
      completed := FireListed(sources, now, listed, budget);
      if completed {
        forall name | name in listed && name in sources && sources[name].enabled
          ensures Delivered(old(timers)[name], sources[name], name, now, events, timers[name])
        {
          AdvancedDelivers(old(Contents()), Contents(), sources, now, name);
        }
      }
    }

    /** Fires the listed timers one after the other. */
    method FireListed(sources: Sources, now: Instant, listed: seq<string>, budget: nat) returns (completed: bool)
      requires forall i, j :: 0 <= i < j < |listed| ==> listed[i] != listed[j]
      requires forall name :: name in listed ==>
        name in timers && timers[name].pending && timers[name].due <= Millis(now)
      modifies this
      ensures ProcessStep(old(Contents()), Contents(), sources, now)
      ensures completed ==> forall name :: name in listed && name in sources && sources[name].enabled ==>
        sources[name].interval > 0
      ensures completed ==> FiredAmong(old(Contents()), Contents(), sources, now, listed)
      ensures completed || budget < WRITES * |listed|
        || exists name :: name in listed && name in sources && sources[name].enabled && sources[name].interval <= 0
    {
      ghost var s := Contents();
      var left: nat := budget;
      for i := 0 to |listed|
        invariant ProcessStep(s, Contents(), sources, now)
        invariant forall j :: i <= j < |listed| ==> timers[listed[j]] == s.timers[listed[j]]
        invariant FiredAmong(s, Contents(), sources, now, listed[..i])
        invariant forall j :: 0 <= j < i && listed[j] in sources && sources[listed[j]].enabled ==>
          sources[listed[j]].interval > 0
        invariant left >= budget - WRITES * i
      {
        var name := listed[i];
        assert name in listed;
        if name in sources && sources[name].enabled {
          if sources[name].interval <= 0 {
            return false;
          }
          ghost var u := Contents();
          var finished;
          left, finished := FireTimer(s, sources, now, name, left);
          if !finished {
            return false;
          }
          FiredStays(s, u, Contents(), sources, now, listed[..i], name);
        }
        assert listed[..i + 1] == listed[..i] + [name];
      }
      assert listed[..|listed|] == listed;
      return true;
    }
  }

  /** Each of the named timers that was to fire has fired. */
  ghost predicate FiredAmong(s: State, t: State, sources: Sources, now: Instant, names: seq<string>)
    requires t.timers.Keys == s.timers.Keys
  {
    forall name :: name in names && Fires(s, sources, now, name) ==> Advanced(s, t, sources, now, name)
  }

  lemma FiredStays(s: State, u: State, t: State, sources: Sources, now: Instant, names: seq<string>, last: string)
    requires u.timers.Keys == t.timers.Keys == s.timers.Keys && last !in names
    requires FiredAmong(s, u, sources, now, names)
    requires forall name :: name in t.timers && name != last ==> t.timers[name] == u.timers[name]
    requires forall key :: key in u.events ==> key in t.events
    ensures FiredAmong(s, t, sources, now, names)
  {
  }

  // ---- Any sequence of runs -------------------------------------------------

  /** A source whose interval is a positive whole number of milliseconds. */
  predicate Regular(sources: Sources, name: string) {
    name in sources && sources[name].interval > 0 && sources[name].interval % MS == 0
  }

  /** Point `k` of the schedule that started at `start` milliseconds. */
  function PointOf(sources: Sources, starts: map<string, int>, name: string, k: int): Instant
    requires name in sources && name in starts
  {
    Point(starts[name] * MS, sources[name].interval, k)
  }

  /** The timer stands at point `k`; under "all" every earlier point has its event. */
  ghost predicate StandsAt(s: State, sources: Sources, starts: map<string, int>, name: string, k: int)
    requires name in s.timers && name in sources && name in starts
  {
    && k >= 0 && s.timers[name].due * MS == PointOf(sources, starts, name, k)
    && (sources[name].policy == All ==>
          forall j :: 0 <= j < k ==> EventKey(name, Millis(PointOf(sources, starts, name, j))) in s.events)
  }

  ghost predicate IsPoint(sources: Sources, starts: map<string, int>, name: string, t: Instant)
    requires name in sources && name in starts
  {
    exists k :: k >= 0 && t == PointOf(sources, starts, name, k)
  }

  ghost predicate ScheduleInv(s: State, sources: Sources, starts: map<string, int>) {
    forall name :: Regular(sources, name) && name in starts ==>
      && (name in s.timers ==> exists k :: StandsAt(s, sources, starts, name, k))
      && (forall key :: key in s.events && key.source == name ==>
            IsPoint(sources, starts, name, s.events[key]) && key.millis == Millis(s.events[key]))
  }

  /** No timer has fired: no event is of a timer's source. */
  ghost predicate Unfired(s: State) {
    forall key :: key in s.events ==> key.source !in s.timers
  }

  /** When no timer has fired yet, each stands at the start of its schedule. */
  lemma FreshScheduleInv(s: State, sources: Sources)
    requires Unfired(s)
    ensures ScheduleInv(s, sources, StartsOf(s.timers))
  {
    forall name | Regular(sources, name) && name in s.timers
      ensures exists k :: StandsAt(s, sources, StartsOf(s.timers), name, k)
    {
      assert StandsAt(s, sources, StartsOf(s.timers), name, 0);
    }
  }

  /** Each schedule's grid starts at the due time its timer was created with. */
  function StartsOf(timers: map<string, Timer>): map<string, int> {
    map name | name in timers :: timers[name].due
  }

  lemma WholeMillis(ms: int, interval: Duration, k: int)
    requires interval % MS == 0
    ensures Point(ms * MS, interval, k) % MS == 0
    ensures Millis(Point(ms * MS, interval, k)) * MS == Point(ms * MS, interval, k)
  {
    var m := interval / MS;
    assert interval == m * MS;
    assert k * interval == (k * m) * MS;
    assert Point(ms * MS, interval, k) == (ms + k * m) * MS;
  }

  lemma PointOfPoint(start: Instant, interval: Duration, j: int, k: int)
    ensures Point(Point(start, interval, j), interval, k) == Point(start, interval, j + k)
  {
  }

  lemma AdvanceKeepsStanding(s: State, t: State, sources: Sources, starts: map<string, int>, now: Instant,
                             name: string, k: int)
    requires ProcessStep(s, t, sources, now) && Regular(sources, name) && name in starts && name in s.timers
    requires StandsAt(s, sources, starts, name, k) && Advanced(s, t, sources, now, name)
    ensures exists n :: StandsAt(t, sources, starts, name, n)
  {
    var interval, policy, due := sources[name].interval, sources[name].policy, s.timers[name].due * MS;
    var m := NextNumber(policy, due, now, interval);
    var start := starts[name] * MS;
    BatchIsOnGrid(policy, due, now, interval);
    PointOfPoint(start, interval, k, m);
    WholeMillis(starts[name], interval, k + m);
    if policy == All {
      AllLeavesNoGap(due, now, interval);
      forall j | 0 <= j < k + m ensures EventKey(name, Millis(PointOf(sources, starts, name, j))) in t.events {
        if j >= k {
          PointOfPoint(start, interval, k, j - k);
          assert DueBatch(s, sources, now, name).occurrences[j - k] == PointOf(sources, starts, name, j);
        }
      }
    }
    assert StandsAt(t, sources, starts, name, k + m);
  }

  /** One run, crashed or not, keeps the schedule invariant. */
  lemma ProcessKeepsInv(s: State, t: State, sources: Sources, starts: map<string, int>, now: Instant)
    requires ScheduleInv(s, sources, starts) && ProcessStep(s, t, sources, now)
    ensures ScheduleInv(t, sources, starts)
  {
    forall name | Regular(sources, name) && name in starts
      ensures name in t.timers ==> exists k :: StandsAt(t, sources, starts, name, k)
      ensures forall key :: key in t.events && key.source == name ==>
        IsPoint(sources, starts, name, t.events[key]) && key.millis == Millis(t.events[key])
    {
      if name in s.timers {
        var k :| StandsAt(s, sources, starts, name, k);
        if t.timers[name] == s.timers[name] {
          assert StandsAt(t, sources, starts, name, k);
        } else {
          AdvanceKeepsStanding(s, t, sources, starts, now, name, k);
        }
      }
      forall key | key in t.events && key.source == name
        ensures IsPoint(sources, starts, name, t.events[key]) && key.millis == Millis(t.events[key])
      {
        if key !in s.events {
          NewEventIsPoint(s, t, sources, starts, now, key);
        }
      }
    }
  }

  lemma NewEventIsPoint(s: State, t: State, sources: Sources, starts: map<string, int>, now: Instant, key: EventKey)
    requires key in t.events && NewEvent(s, t, sources, now, key)
    requires key.source in starts && key.source in s.timers
    requires exists k :: StandsAt(s, sources, starts, key.source, k)
    ensures IsPoint(sources, starts, key.source, t.events[key])
  {
    var name := key.source;
    var k :| StandsAt(s, sources, starts, name, k);
    var due, interval := s.timers[name].due * MS, sources[name].interval;
    BatchIsOnGrid(sources[name].policy, due, now, interval);
    var b := DueBatch(s, sources, now, name);
    var i :| 0 <= i < |b.occurrences| && b.occurrences[i] == t.events[key];
    var m :| m >= 0 && b.occurrences[i] == Point(due, interval, m);
    PointOfPoint(starts[name] * MS, interval, k, m);
    assert t.events[key] == PointOf(sources, starts, name, k + m);
  }

  /** A history of runs at any clock times, each ending anywhere. */
  ghost predicate RunsOf(trace: seq<State>, sources: Sources, clocks: seq<Instant>) {
    && |trace| == |clocks| + 1
    && forall i :: 0 <= i < |clocks| ==> ProcessStep(trace[i], trace[i + 1], sources, clocks[i])
  }

  lemma {:induction false} RunsKeepInv(trace: seq<State>, sources: Sources, starts: map<string, int>,
                                       clocks: seq<Instant>)
    requires RunsOf(trace, sources, clocks) && ScheduleInv(trace[0], sources, starts)
    ensures ScheduleInv(trace[|clocks|], sources, starts)
    decreases |clocks|
  {
    if clocks != [] {
      var n := |clocks| - 1;
      RunsKeepInv(trace[..|trace| - 1], sources, starts, clocks[..n]);
      ProcessKeepsInv(trace[n], trace[n + 1], sources, starts, clocks[n]);
    }
  }

  lemma {:induction false} RunsKeepTimers(trace: seq<State>, sources: Sources, clocks: seq<Instant>)
    requires RunsOf(trace, sources, clocks)
    ensures trace[|clocks|].timers.Keys == trace[0].timers.Keys
    decreases |clocks|
  {
    if clocks != [] {
      var n := |clocks| - 1;
      RunsKeepTimers(trace[..|trace| - 1], sources, clocks[..n]);
      assert ProcessStep(trace[n], trace[n + 1], sources, clocks[n]);
    }
  }

  /** From a store whose timers are new on, over any sequence of ProcessDue runs with
      crashes anywhere, a schedule whose interval is whole milliseconds has at most one
      event per grid point, every event is a grid point, and under "all" no point before
      the stored due time is missing. */
  lemma NoOccurrenceLostOrRepeated(trace: seq<State>, sources: Sources, clocks: seq<Instant>, name: string)
    requires RunsOf(trace, sources, clocks) && Unfired(trace[0])
    requires Regular(sources, name) && name in trace[0].timers
    ensures var s, starts := trace[|clocks|], StartsOf(trace[0].timers);
      && name in s.timers
      && (forall a, b ::
            a in s.events && b in s.events && a.source == b.source == name && s.events[a] == s.events[b] ==> a == b)
      && (forall a :: a in s.events && a.source == name ==> IsPoint(sources, starts, name, s.events[a]))
      && (sources[name].policy == All ==>
            forall j :: j >= 0 && PointOf(sources, starts, name, j) < s.timers[name].due * MS ==>
              var point := PointOf(sources, starts, name, j);
              EventKey(name, Millis(point)) in s.events && s.events[EventKey(name, Millis(point))] == point)
  {
    var starts := StartsOf(trace[0].timers);
    FreshScheduleInv(trace[0], sources);
    RunsKeepInv(trace, sources, starts, clocks);
    RunsKeepTimers(trace, sources, clocks);
    var s, interval := trace[|clocks|], sources[name].interval;
    var k :| StandsAt(s, sources, starts, name, k);
    if sources[name].policy == All {
      forall j | j >= 0 && PointOf(sources, starts, name, j) < s.timers[name].due * MS
        ensures EventKey(name, Millis(PointOf(sources, starts, name, j))) in s.events
        ensures s.events[EventKey(name, Millis(PointOf(sources, starts, name, j)))] == PointOf(sources, starts, name, j)
      {
        PointsOrdered(starts[name] * MS, interval, j, k);
        var key := EventKey(name, Millis(PointOf(sources, starts, name, j)));
        var i :| i >= 0 && s.events[key] == PointOf(sources, starts, name, i);
        WholeMillis(starts[name], interval, i);
        WholeMillis(starts[name], interval, j);
      }
    }
  }

  // ---- Where millisecond storage matters ------------------------------------

  /** Grid points have different event ids exactly when the interval is at least one
      millisecond; below that an occurrence is dropped as a duplicate. */
  lemma EventIdsDistinct(start: int, interval: Duration)
    requires interval > 0
    ensures (forall j, k :: j < k ==> Millis(Point(start * MS, interval, j)) != Millis(Point(start * MS, interval, k)))
        <==> interval >= MS
  {
    if interval >= MS {
      forall j, k | j < k ensures Millis(Point(start * MS, interval, j)) != Millis(Point(start * MS, interval, k)) {
        PointsOrdered(start * MS, interval, j + 1, k);
        PointsOrdered(start * MS, interval, k, j + 1);
        PointsOrdered(start * MS, interval, j, j);
      }
    } else {
      assert Millis(Point(start * MS, interval, 0)) == Millis(Point(start * MS, interval, 1));
    }
  }

  /** The due time a timer stores after firing is a later grid point. */
  ghost predicate StaysOnGrid(policy: Policy, due: int, now: Instant, interval: Duration)
    requires interval > 0
  {
    exists k :: k >= 1 && Millis(BatchFor(policy, due * MS, now, interval).next) * MS == Point(due * MS, interval, k)
  }

  /** Storing whole milliseconds keeps a timer on its grid, whatever the clock and the
      policy, exactly when the interval is a whole number of milliseconds. */
  lemma GridNeedsWholeMillis(due: int, interval: Duration)
    requires interval > 0
    ensures (forall policy, now :: due * MS <= now ==> StaysOnGrid(policy, due, now, interval)) <==> interval % MS == 0
  {
    if interval % MS == 0 {
      forall policy, now | due * MS <= now ensures StaysOnGrid(policy, due, now, interval) {
        var m := NextNumber(policy, due * MS, now, interval);
        BatchIsOnGrid(policy, due * MS, now, interval);
        WholeMillis(due, interval, m);
      }
    } else {
      var next := BatchFor(Latest, due * MS, due * MS, interval).next;
      assert next == due * MS + interval && next % MS != 0;
      forall k | k >= 1 ensures Millis(next) * MS != Point(due * MS, interval, k) {
        PointsOrdered(due * MS, interval, k, 1);
      }
      assert !StaysOnGrid(Latest, due, due * MS, interval);
    }
  }
}
