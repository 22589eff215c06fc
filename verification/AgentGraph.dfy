/** validateAgentGraph: delegation stays in the team and never comes back around. */
module AgentGraph {
  import opened Wrappers
  import opened Ordering
  import opened Graphs

  datatype Verdict =
    | Valid
    | OutsideTeam(offences: seq<(string, string)>)
    | DelegationCycle(path: seq<string>)

  ghost predicate DelegatesWithinTeam(members: seq<string>, agents: map<string, seq<string>>) {
    forall a, d :: Edge(agents, a, d) ==> d in members
  }

  /** The depth-first search with its state map (1 on the stack, 2 done) and stack. */
  class Search {
    const agents: map<string, seq<string>>
    ghost const team: set<string>
    var state: map<string, int>
    var stack: seq<string>
    ghost var finished: seq<string>

    constructor (agents: map<string, seq<string>>, ghost team: set<string>)
      ensures this.agents == agents && this.team == team && state == map[] && stack == [] && finished == []
    {
      this.agents, this.team := agents, team;
      state, stack, finished := map[], [], [];
    }

    /** The team is closed under delegation. */
    ghost predicate Closed()
      reads this
    {
      team <= agents.Keys && forall a, d :: a in team && Edge(agents, a, d) ==> d in team
    }

    ghost predicate Searching()
      reads this
    {
      && state.Keys <= team
      && (forall n :: n in state ==> state[n] == 1 || state[n] == 2)
      && (forall n :: n in stack <==> n in state && state[n] == 1)
      && (forall n :: n in finished <==> n in state && state[n] == 2)
      && Distinct(stack) && IsWalk(agents, stack)
      && FinishOrder(agents, finished, {})
    }

    /** The cycle closed by reaching `name`, which is on the stack. */
    method CycleTo(name: string) returns (cycle: seq<string>)
      requires Searching() && name in stack && Edge(agents, stack[|stack| - 1], name)
      ensures IsCycle(agents, cycle)
    {
      var start := 0;
      while stack[start] != name
        invariant 0 <= start < |stack| && name in stack[start..]
        decreases |stack| - start
      {
        start := start + 1;
      }
      ClosedPathIsCycle(agents, stack, start, name);
      cycle := stack[start..] + [name];
    }

    method Enter(name: string)
      requires Searching() && name in team && name !in state
      requires stack == [] || Edge(agents, stack[|stack| - 1], name)
      modifies `state, `stack
      ensures Searching() && stack == old(stack) + [name] && state == old(state)[name := 1]
    {
      ExtendWalk(agents, stack, name);
      state := state[name := 1];
      stack := stack + [name];
    }

    method Leave(name: string)
      requires Searching() && stack != [] && stack[|stack| - 1] == name
      requires forall d :: Edge(agents, name, d) ==> d in finished
      modifies `state, `stack, `finished
      ensures Searching() && stack == old(stack)[..|old(stack)| - 1]
      ensures finished == old(finished) + [name] && state == old(state)[name := 2]
    {
      assert name in stack;
      FinishNext(agents, finished, {}, name);
      stack := stack[..|stack| - 1];
      state := state[name := 2];
      finished := finished + [name];
    }

    /** Visits `name`, reached from the top of the stack: either everything below it
        is finished, or the returned path is a cycle. */
    method Visit(name: string) returns (cycle: Option<seq<string>>)
      requires Closed() && Searching() && name in team
      requires stack == [] || Edge(agents, stack[|stack| - 1], name)
      modifies `state, `stack, `finished
      ensures cycle.Some? ==> IsCycle(agents, cycle.value)
      ensures cycle.None? ==> Searching() && stack == old(stack) && name in finished
      ensures cycle.None? ==> forall n :: n in old(finished) ==> n in finished
      ensures old(state).Keys <= state.Keys
      decreases team - state.Keys
    {
      if name in state && state[name] == 1 {
        var path := CycleTo(name);
        return Some(path);
      }
      if name in state && state[name] == 2 {
        return None;
      }
      Enter(name);
      for i := 0 to |agents[name]|
        invariant Searching() && stack == old(stack) + [name]
        invariant forall n :: n in old(finished) ==> n in finished
        invariant old(state).Keys + {name} <= state.Keys
        invariant forall j :: 0 <= j < i ==> agents[name][j] in finished
      {
        assert Edge(agents, name, agents[name][i]);
        cycle := Visit(agents[name][i]);
        if cycle.Some? {
          return;
        }
      }
      Leave(name);
      assert stack == old(stack);
      return None;
    }
  }

  /** The errors of the first loop: every delegation that leaves the team. */
  method CollectOffences(members: seq<string>, agents: map<string, seq<string>>)
    returns (offences: seq<(string, string)>)
    ensures forall a, d :: (a, d) in offences <==> Edge(agents, a, d) && d !in members
  {
    offences := [];
    var rest := agents.Keys;
    while rest != {}
      invariant rest <= agents.Keys
      invariant forall a, d :: (a, d) in offences <==> Edge(agents, a, d) && a !in rest && d !in members
      decreases rest
    {
      var name :| name in rest;
      ghost var before := offences;
      for i := 0 to |agents[name]|
        invariant forall a, d :: (a, d) in offences <==>
          (a, d) in before || (a == name && d in agents[name][..i] && d !in members)
      {
        if agents[name][i] !in members {
          offences := offences + [(name, agents[name][i])];
        }
      }
      assert agents[name][..|agents[name]|] == agents[name];
      rest := rest - {name};
    }
  }

  /** Accepts exactly the teams whose delegations stay inside and form no cycle; a
      reported cycle is a closed path of delegations, and reported offences are all
      the delegations that leave the team. Every member's agent has been loaded. */
  method ValidateAgentGraph(members: seq<string>, agents: map<string, seq<string>>) returns (verdict: Verdict)
    requires forall m :: m in members ==> m in agents
    ensures verdict.Valid? <==> DelegatesWithinTeam(members, agents) && Acyclic(agents)
    ensures verdict.OutsideTeam? <==> !DelegatesWithinTeam(members, agents)
    ensures verdict.OutsideTeam? ==> forall a, d :: (a, d) in verdict.offences <==> Edge(agents, a, d) && d !in members
    ensures verdict.DelegationCycle? ==> IsCycle(agents, verdict.path)
  {
    var offences := CollectOffences(members, agents);
    if offences != [] {
      assert offences[0] in offences;
      assert (offences[0].0, offences[0].1) in offences;
      return OutsideTeam(offences);
    }
    assert DelegatesWithinTeam(members, agents) by {
      forall a, d | Edge(agents, a, d) ensures d in members { assert (a, d) !in offences; }
    }
    var cycle := SearchTeam(members, agents);
    return if cycle.Some? then DelegationCycle(cycle.value) else Valid;
  }

  /** Searches from every name of `order` that is not finished yet. */
  method SearchFrom(search: Search, order: seq<string>) returns (cycle: Option<seq<string>>)
    requires search.Closed() && search.Searching() && search.stack == []
    requires forall m :: m in order ==> m in search.team
    modifies search
    ensures cycle.Some? ==> IsCycle(search.agents, cycle.value)
    ensures cycle.None? ==> search.Searching() && forall m :: m in order ==> m in search.finished
  {
    for i := 0 to |order|
      invariant search.Searching() && search.stack == []
      invariant forall j :: 0 <= j < i ==> order[j] in search.finished
    {
      cycle := search.Visit(order[i]);
      if cycle.Some? {
        return;
      }
    }
    return None;
  }

  /** Searches from every member in name order. */
  method SearchTeam(members: seq<string>, agents: map<string, seq<string>>) returns (cycle: Option<seq<string>>)
    requires forall m :: m in members ==> m in agents
    requires DelegatesWithinTeam(members, agents)
    ensures cycle.Some? ==> IsCycle(agents, cycle.value)
    ensures cycle.None? <==> Acyclic(agents)
  {
    var search := new Search(agents, set m | m in members);
    var order := Sort(StringLeq, members);
    SortKeepsElements(StringLeq, members);
    SameElements(members, order);
    cycle := SearchFrom(search, order);
    if cycle.None? {
      AllMembersFinished(members, agents, search.finished);
    }
  }

  /** A search that finished every member has met every node with delegates. */
  lemma AllMembersFinished(members: seq<string>, agents: map<string, seq<string>>, finished: seq<string>)
    requires DelegatesWithinTeam(members, agents) && FinishOrder(agents, finished, {})
    requires forall m :: m in members ==> m in finished
    ensures Acyclic(agents)
  {
    AllFinishedMeansAcyclic(agents, finished);
  }
}
