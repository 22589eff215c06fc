/** Route selection: which enabled route, if any, an event is sent to. */
module Router {
  import opened Wrappers
  import opened Ordering

  datatype Json =
    | Null | Bool(flag: bool) | Number(value: real) | Text(text: string)
    | Items(items: seq<Json>) | Object(fields: map<string, Json>)

  /** The parts of an event a route can match on. */
  datatype EventView = EventView(source: string, kind: string, data: Json)

  /** A route definition: empty source and type match anything. */
  datatype Route = Route(name: string, priority: int, enabled: bool, source: string, kind: string,
                         fields: map<string, Json>)

  datatype Match = Match(route: string, priority: int)

  datatype Reason = NoMatch | Tied | SoleHighest

  /** `selected` is empty unless the reason is a selection. */
  datatype Decision = Decision(matches: seq<Match>, selected: string, reason: Reason)

  function SplitDots(s: string): (parts: seq<string>)
    ensures |parts| > 0
  {
    if s == "" then [""]
    else
      var rest := SplitDots(s[1..]);
      if s[0] == '.' then [""] + rest else [[s[0]] + rest[0]] + rest[1..]
  }

  function TrimDataPrefix(path: string): string {
    if "data." <= path then path[5..] else path
  }

  function Lookup(data: Json, parts: seq<string>): Option<Json> {
    if parts == [] then Some(data)
    else if data.Object? && parts[0] in data.fields then Lookup(data.fields[parts[0]], parts[1..])
    else None
  }

  /** Data read into a map: a JSON null reads as an empty one. */
  function AsObject(data: Json): Option<Json> {
    if data.Null? then Some(Object(map[])) else if data.Object? then Some(data) else None
  }

  predicate MatchesRoute(event: EventView, route: Route) {
    && (route.source == "" || route.source == event.source)
    && (route.kind == "" || route.kind == event.kind)
    && (route.fields == map[] ||
        (AsObject(event.data).Some? &&
         forall path :: path in route.fields ==>
           Lookup(AsObject(event.data).value, SplitDots(TrimDataPrefix(path))) == Some(route.fields[path])))
  }

  /** A stored switch overrides the definition's. */
  predicate IsActive(route: Route, switches: map<string, bool>) {
    if route.name in switches then switches[route.name] else route.enabled
  }

  predicate Candidate(event: EventView, route: Route, switches: map<string, bool>) {
    IsActive(route, switches) && MatchesRoute(event, route)
  }

  // ---- Which events match ---------------------------------------------------

  /** Puts parts together again with dots between them. */
  function JoinDots(parts: seq<string>): string {
    if parts == [] then "" else if |parts| == 1 then parts[0] else parts[0] + "." + JoinDots(parts[1..])
  }

  /** The names on a field path: the parts between its dots, and no dots in them. */
  lemma {:induction false} SplitDotsExactly(s: string)
    ensures JoinDots(SplitDots(s)) == s && forall i :: 0 <= i < |SplitDots(s)| ==> '.' !in SplitDots(s)[i]
  {
    if s != "" {
      SplitDotsExactly(s[1..]);
      var rest := SplitDots(s[1..]);
      if s[0] == '.' {
        assert ([""] + rest)[1..] == rest;
      } else {
        assert ([[s[0]] + rest[0]] + rest[1..])[1..] == rest[1..];
      }
      assert s == [s[0]] + s[1..];
    }
  }

  /** Going down from `data` by the names of the path one meets these values. */
  ghost predicate Descends(data: Json, parts: seq<string>, values: seq<Json>) {
    && |values| == |parts| + 1 && values[0] == data
    && forall i :: 0 <= i < |parts| ==>
         values[i].Object? && parts[i] in values[i].fields && values[i].fields[parts[i]] == values[i + 1]
  }

  ghost predicate LeadsTo(data: Json, parts: seq<string>, value: Json) {
    exists values :: Descends(data, parts, values) && values[|parts|] == value
  }

  /** A value is looked up exactly when going down the path leads to it. */
  lemma {:induction false} LookupExactly(data: Json, parts: seq<string>, value: Json)
    ensures Lookup(data, parts) == Some(value) <==> LeadsTo(data, parts, value)
    decreases |parts|
  {
    if parts == [] {
      assert Descends(data, parts, [data]);
    } else if data.Object? && parts[0] in data.fields {
      LookupExactly(data.fields[parts[0]], parts[1..], value);
      LeadsOneDown(data, parts, value);
    }
  }

  lemma LeadsOneDown(data: Json, parts: seq<string>, value: Json)
    requires parts != [] && data.Object? && parts[0] in data.fields
    ensures LeadsTo(data, parts, value) <==> LeadsTo(data.fields[parts[0]], parts[1..], value)
  {
    var next := data.fields[parts[0]];
    if LeadsTo(next, parts[1..], value) {
      var values: seq<Json> :| Descends(next, parts[1..], values) && values[|parts[1..]|] == value;
      assert forall i :: 0 < i < |parts| ==> parts[i] == parts[1..][i - 1];
      assert Descends(data, parts, [data] + values);
    }
    if LeadsTo(data, parts, value) {
      var values: seq<Json> :| Descends(data, parts, values) && values[|parts|] == value;
      assert forall i :: 0 <= i < |parts[1..]| ==> parts[1..][i] == parts[i + 1];
      assert Descends(next, parts[1..], values[1..]);
    }
  }

  /** The value at a field path of the event's data: "data.a.b" and "a.b" both name field
      b of field a. */
  ghost predicate FieldIs(event: EventView, path: string, value: Json) {
    event.data.Object? && LeadsTo(event.data, SplitDots(if "data." <= path then path[5..] else path), value)
  }

  /** An event matches a route exactly if it comes from the route's source and is of its
      type, where the route names them, and each field the route names has the value that
      the route gives it. Data that are no object match only routes that name none, JSON
      null counting as an empty object. */
  lemma MatchesExactly(event: EventView, route: Route)
    ensures MatchesRoute(event, route) <==>
      && (route.source != "" ==> event.source == route.source)
      && (route.kind != "" ==> event.kind == route.kind)
      && forall path :: path in route.fields ==> FieldIs(event, path, route.fields[path])
  {
    forall path | path in route.fields
      ensures FieldIs(event, path, route.fields[path]) <==>
        && AsObject(event.data).Some?
        && Lookup(AsObject(event.data).value, SplitDots(TrimDataPrefix(path))) == Some(route.fields[path])
    {
      var parts := SplitDots(TrimDataPrefix(path));
      LookupExactly(event.data, parts, route.fields[path]);
      assert event.data.Null? ==> Lookup(Object(map[]), parts) != Some(route.fields[path]);
    }
  }

  /** A candidate is a matching route that is switched on, or enabled where no switch is
      stored. */
  lemma CandidateExactly(event: EventView, route: Route, switches: map<string, bool>)
    ensures Candidate(event, route, switches) <==>
      && MatchesRoute(event, route)
      && (route.name in switches ==> switches[route.name]) && (route.name !in switches ==> route.enabled)
  {
  }

  function MatchOf(route: Route): Match {
    Match(route.name, route.priority)
  }

  /** The positions of the candidate routes, in order. */
  function Candidates(event: EventView, routes: seq<Route>, switches: map<string, bool>): seq<nat> {
    if routes == [] then []
    else
      var n := |routes| - 1;
      Candidates(event, routes[..n], switches) + if Candidate(event, routes[n], switches) then [n] else []
  }

  function Matching(event: EventView, routes: seq<Route>, switches: map<string, bool>): seq<Match> {
    if routes == [] then []
    else
      var n := |routes| - 1;
      var before := Matching(event, routes[..n], switches);
      before + if Candidate(event, routes[n], switches) then [MatchOf(routes[n])] else []
  }

  /** The matches stand for the candidate positions, one for one. */
  lemma {:induction false} MatchesAreCandidates(event: EventView, routes: seq<Route>, switches: map<string, bool>)
    ensures var picked, matches := Candidates(event, routes, switches), Matching(event, routes, switches);
      && |matches| == |picked|
      && (forall k :: 0 <= k < |picked| ==>
            && picked[k] < |routes|
            && Candidate(event, routes[picked[k]], switches) && matches[k] == MatchOf(routes[picked[k]]))
      && (forall k, l :: 0 <= k < l < |picked| ==> picked[k] < picked[l])
      && (forall i :: 0 <= i < |routes| && Candidate(event, routes[i], switches) ==> i in picked)
  {
    if routes != [] {
      var n := |routes| - 1;
      MatchesAreCandidates(event, routes[..n], switches);
      var before := Candidates(event, routes[..n], switches);
      forall i | 0 <= i < |routes| && Candidate(event, routes[i], switches)
        ensures i in Candidates(event, routes, switches)
      {
        if i < n {
          assert routes[..n][i] == routes[i];
          assert i in before;
        }
      }
    }
  }

  /** Higher priority first, then by route name. */
  predicate MatchLeq(a: Match, b: Match) {
    a.priority > b.priority || (a.priority == b.priority && StringLeq(a.route, b.route))
  }

  lemma MatchesTotallyOrdered()
    ensures TotalOrder(MatchLeq)
  {
    StringsTotallyOrdered();
  }

  /** Evaluate as a function of its arguments. */
  function Decide(event: EventView, routes: seq<Route>, switches: map<string, bool>): Decision {
    var matches := Sort(MatchLeq, Matching(event, routes, switches));
    if matches == [] then Decision(matches, "", NoMatch)
    else if |matches| > 1 && matches[1].priority == matches[0].priority then Decision(matches, "", Tied)
    else Decision(matches, matches[0].route, SoleHighest)
  }

  /** Evaluate with its collecting loop. */
  method Evaluate(event: EventView, routes: seq<Route>, switches: map<string, bool>) returns (decision: Decision)
    ensures decision == Decide(event, routes, switches)
  {
    var matches := [];
    for i := 0 to |routes|
      invariant matches == Matching(event, routes[..i], switches)
    {
      assert routes[..i + 1][..i] == routes[..i];
      var active := routes[i].enabled;
      if routes[i].name in switches {
        active := switches[routes[i].name];
      }
      if active && MatchesRoute(event, routes[i]) {
        matches := matches + [Match(routes[i].name, routes[i].priority)];
      }
    }
    assert routes[..|routes|] == routes;
    matches := Sort(MatchLeq, matches);
    if |matches| == 0 {
      return Decision(matches, "", NoMatch);
    }
    var highest := matches[0].priority;
    if |matches| > 1 && matches[1].priority == highest {
      return Decision(matches, "", Tied);
    }
    return Decision(matches, matches[0].route, SoleHighest);
  }

  // ---- What is selected -----------------------------------------------------

  /** Route `i` is a candidate with strictly higher priority than every other. */
  ghost predicate SoleHighestRoute(event: EventView, routes: seq<Route>, switches: map<string, bool>, i: int) {
    && 0 <= i < |routes| && Candidate(event, routes[i], switches)
    && forall j :: 0 <= j < |routes| && j != i && Candidate(event, routes[j], switches) ==>
         routes[j].priority < routes[i].priority
  }

  predicate SoleHighestAt(matches: seq<Match>, k: int) {
    0 <= k < |matches| && forall l :: 0 <= l < |matches| && l != k ==> matches[l].priority < matches[k].priority
  }

  /** The same, said of the elements without their positions. */
  predicate SoleHighestIn(matches: multiset<Match>, m: Match) {
    matches[m] == 1 && forall other :: other in matches && other != m ==> other.priority < m.priority
  }

  lemma OnceIfNowhereElse(matches: seq<Match>, k: nat)
    requires k < |matches|
    ensures multiset(matches)[matches[k]] == 1 <==>
      forall l :: 0 <= l < |matches| && l != k ==> matches[l] != matches[k]
  {
    var m, before, after := matches[k], matches[..k], matches[k + 1..];
    assert matches == before + [m] + after;
    assert multiset(matches)[m] == multiset(before)[m] + 1 + multiset(after)[m];
    InPart(matches, 0, k, m);
    InPart(matches, k + 1, |matches|, m);
    assert before == matches[0..k] && after == matches[k + 1..|matches|];
  }

  lemma InPart(matches: seq<Match>, from: nat, to: nat, m: Match)
    requires from <= to <= |matches|
    ensures multiset(matches[from..to])[m] > 0 <==> exists l :: from <= l < to && matches[l] == m
  {
    var part := matches[from..to];
    assert multiset(part)[m] > 0 <==> m in part;
    if l :| from <= l < to && matches[l] == m {
      assert part[l - from] == m;
    }
  }

  lemma PositionsAndElements(matches: seq<Match>, k: nat)
    requires k < |matches|
    ensures SoleHighestAt(matches, k) <==> SoleHighestIn(multiset(matches), matches[k])
  {
    OnceIfNowhereElse(matches, k);
    assert forall m :: m in multiset(matches) <==> m in matches;
    if SoleHighestIn(multiset(matches), matches[k]) {
      forall l | 0 <= l < |matches| && l != k ensures matches[l].priority < matches[k].priority {
        assert matches[l] in multiset(matches);
      }
    }
  }

  lemma SelectionOfMatches(event: EventView, routes: seq<Route>, switches: map<string, bool>, k: nat)
    requires k < |Matching(event, routes, switches)| == |Candidates(event, routes, switches)|
    ensures SoleHighestAt(Matching(event, routes, switches), k) <==>
      SoleHighestRoute(event, routes, switches, Candidates(event, routes, switches)[k])
  {
    var picked, matches := Candidates(event, routes, switches), Matching(event, routes, switches);
    MatchesAreCandidates(event, routes, switches);
    var i := picked[k];
    if SoleHighestAt(matches, k) {
      forall j | 0 <= j < |routes| && j != i && Candidate(event, routes[j], switches)
        ensures routes[j].priority < routes[i].priority
      {
        var l :| 0 <= l < |picked| && picked[l] == j;
        assert matches[l].priority < matches[k].priority;
      }
    }
    if SoleHighestRoute(event, routes, switches, i) {
      forall l | 0 <= l < |matches| && l != k ensures matches[l].priority < matches[k].priority {
        assert picked[l] != picked[k];
      }
    }
  }

  /** In a list sorted by priority the sole highest match, if any, is the first. */
  lemma SoleHighestComesFirst(matches: seq<Match>, sorted: seq<Match>, k: nat)
    requires k < |matches| && SoleHighestAt(matches, k)
    requires multiset(matches) == multiset(sorted) && Sorted(MatchLeq, sorted)
    ensures sorted != [] && sorted[0] == matches[k] && SoleHighestAt(sorted, 0)
  {
    PositionsAndElements(matches, k);
    assert matches[k] in multiset(sorted);
    var l :| 0 <= l < |sorted| && sorted[l] == matches[k];
    PositionsAndElements(sorted, l);
    assert l > 0 ==> MatchLeq(sorted[0], sorted[l]);
  }

  lemma FirstOfSorted(matches: seq<Match>, sorted: seq<Match>) returns (k: nat)
    requires sorted != [] && multiset(matches) == multiset(sorted) && SoleHighestAt(sorted, 0)
    ensures k < |matches| && SoleHighestAt(matches, k)
  {
    PositionsAndElements(sorted, 0);
    assert sorted[0] in multiset(matches);
    k :| 0 <= k < |matches| && matches[k] == sorted[0];
    PositionsAndElements(matches, k);
  }

  lemma SoleHighestReason(sorted: seq<Match>)
    requires sorted != [] && Sorted(MatchLeq, sorted)
    ensures SoleHighestAt(sorted, 0) <==> !(|sorted| > 1 && sorted[1].priority == sorted[0].priority)
  {
  }

  lemma SoleHighestRouteFirst(event: EventView, routes: seq<Route>, switches: map<string, bool>,
                              sorted: seq<Match>, i: nat)
    requires SoleHighestRoute(event, routes, switches, i)
    requires multiset(Matching(event, routes, switches)) == multiset(sorted) && Sorted(MatchLeq, sorted)
    ensures sorted != [] && SoleHighestAt(sorted, 0) && sorted[0].route == routes[i].name
  {
    var matches, picked := Matching(event, routes, switches), Candidates(event, routes, switches);
    MatchesAreCandidates(event, routes, switches);
    var k :| 0 <= k < |picked| && picked[k] == i;
    SelectionOfMatches(event, routes, switches, k);
    SoleHighestComesFirst(matches, sorted, k);
  }

  lemma FirstIsRoute(event: EventView, routes: seq<Route>, switches: map<string, bool>, sorted: seq<Match>)
    requires multiset(Matching(event, routes, switches)) == multiset(sorted)
    requires sorted != [] && SoleHighestAt(sorted, 0)
    ensures exists i :: SoleHighestRoute(event, routes, switches, i)
  {
    MatchesAreCandidates(event, routes, switches);
    var k := FirstOfSorted(Matching(event, routes, switches), sorted);
    SelectionOfMatches(event, routes, switches, k);
  }

  /** A route is selected exactly when one enabled matching route has strictly higher
      priority than all other matches, and then it is that route. */
  lemma SelectsExactlySoleHighest(event: EventView, routes: seq<Route>, switches: map<string, bool>)
    ensures Decide(event, routes, switches).reason == SoleHighest <==>
      exists i :: SoleHighestRoute(event, routes, switches, i)
    ensures forall i :: SoleHighestRoute(event, routes, switches, i) ==>
      Decide(event, routes, switches).selected == routes[i].name
    ensures Decide(event, routes, switches).reason == NoMatch <==>
      forall i :: 0 <= i < |routes| ==> !Candidate(event, routes[i], switches)
  {
    var matches, picked := Matching(event, routes, switches), Candidates(event, routes, switches);
    var sorted := Sort(MatchLeq, matches);
    MatchesAreCandidates(event, routes, switches);
    MatchesTotallyOrdered();
    SortOrders(MatchLeq, matches);
    SortKeepsElements(MatchLeq, matches);
    assert |sorted| == |multiset(sorted)| == |multiset(matches)| == |matches|;
    if sorted != [] {
      SoleHighestReason(sorted);
      assert Candidate(event, routes[picked[0]], switches);
      if SoleHighestAt(sorted, 0) {
        FirstIsRoute(event, routes, switches, sorted);
      }
    }
    forall i | SoleHighestRoute(event, routes, switches, i)
      ensures sorted != [] && SoleHighestAt(sorted, 0) && sorted[0].route == routes[i].name
    {
      SoleHighestRouteFirst(event, routes, switches, sorted, i);
    }
  }

  /** The decision lists the matches, each as often as there are candidate routes of that
      name and priority, the higher priority first and then by name. */
  lemma DecisionListsMatches(event: EventView, routes: seq<Route>, switches: map<string, bool>)
    ensures var matches := Decide(event, routes, switches).matches;
      && multiset(matches) == multiset(Matching(event, routes, switches))
      && forall i, j :: 0 <= i < j < |matches| ==>
           || matches[i].priority > matches[j].priority
           || (matches[i].priority == matches[j].priority && StringLeq(matches[i].route, matches[j].route))
  {
    MatchesTotallyOrdered();
    SortOrders(MatchLeq, Matching(event, routes, switches));
    SortKeepsElements(MatchLeq, Matching(event, routes, switches));
  }

  // ---- Order of the definitions ---------------------------------------------

  lemma {:induction false} MatchingConcat(event: EventView, a: seq<Route>, b: seq<Route>, switches: map<string, bool>)
    ensures Matching(event, a + b, switches) == Matching(event, a, switches) + Matching(event, b, switches)
    decreases |b|
  {
    if b == [] {
      assert a + b == a;
    } else {
      var n := |b| - 1;
      MatchingConcat(event, a, b[..n], switches);
      var c := a + b;
      assert c[..|c| - 1] == a + b[..n] && c[|c| - 1] == b[n];
    }
  }

  /** `rest` is `b` without one occurrence of `x`. */
  ghost predicate TakenOut(b: seq<Route>, x: Route, rest: seq<Route>) {
    exists j :: 0 <= j < |b| && b[j] == x && rest == b[..j] + b[j + 1..]
  }

  /** Taking one route out of the list takes its match out of the matches. */
  lemma MatchingWithout(event: EventView, b: seq<Route>, x: Route, rest: seq<Route>, switches: map<string, bool>)
    requires TakenOut(b, x, rest)
    ensures multiset(Matching(event, b, switches)) ==
      multiset(Matching(event, [x], switches)) + multiset(Matching(event, rest, switches))
  {
    var j :| 0 <= j < |b| && b[j] == x && rest == b[..j] + b[j + 1..];
    assert b == b[..j] + ([x] + b[j + 1..]);
    MatchingParts(event, b[..j], x, b[j + 1..], switches);
  }

  lemma MatchingParts(event: EventView, p: seq<Route>, x: Route, q: seq<Route>, switches: map<string, bool>)
    ensures multiset(Matching(event, p + ([x] + q), switches)) ==
      multiset(Matching(event, [x], switches)) + multiset(Matching(event, p + q, switches))
  {
    MatchingConcat(event, p, [x] + q, switches);
    MatchingConcat(event, [x], q, switches);
    MatchingConcat(event, p, q, switches);
  }

  lemma TakeOut(b: seq<Route>, x: Route) returns (rest: seq<Route>)
    requires x in multiset(b)
    ensures TakenOut(b, x, rest) && multiset(rest) == multiset(b) - multiset{x} && |rest| == |b| - 1
  {
    var j :| 0 <= j < |b| && b[j] == x;
    rest := b[..j] + b[j + 1..];
    assert b == b[..j] + [x] + b[j + 1..];
    assert multiset(b) == multiset(rest) + multiset{x};
  }

  lemma {:induction false} MatchingPermutation(event: EventView, a: seq<Route>, b: seq<Route>,
                                               switches: map<string, bool>)
    requires multiset(a) == multiset(b)
    ensures multiset(Matching(event, a, switches)) == multiset(Matching(event, b, switches))
    decreases |a|
  {
    if a == [] {
      assert |multiset(b)| == 0;
    } else {
      var x := a[0];
      assert x in multiset(a);
      var restA := TakeOut(a, x);
      var restB := TakeOut(b, x);
      MatchingPermutation(event, restA, restB, switches);
      MatchingWithout(event, a, x, restA, switches);
      MatchingWithout(event, b, x, restB, switches);
    }
  }

  /** The whole decision, its sorted match list included, does not depend on the
      order in which the routes are listed. */
  lemma DecisionIgnoresRouteOrder(event: EventView, a: seq<Route>, b: seq<Route>, switches: map<string, bool>)
    requires multiset(a) == multiset(b)
    ensures Decide(event, a, switches) == Decide(event, b, switches)
  {
    MatchingPermutation(event, a, b, switches);
    MatchesTotallyOrdered();
    SortPermutation(MatchLeq, Matching(event, a, switches), Matching(event, b, switches));
  }
}
