/** CheckRequires: every required artifact exists and requirements form no cycle. */
module Requires {
  import opened Ordering
  import opened Graphs

  datatype Ref = Ref(kind: string, namespace: string, name: string)

  /** An artifact with its parsed requirements. */
  datatype Artifact = Artifact(dir: string, ref: Ref, needs: seq<Ref>)

  /** One message: a reference that names nothing, or a chain of references that
      comes back to where it started. */
  datatype Problem = Dangling(dir: string, ref: Ref) | Cycle(dir: string, chain: seq<Ref>)

  predicate DistinctRefs(arts: seq<Artifact>) {
    forall i, j :: 0 <= i < j < |arts| ==> arts[i].ref != arts[j].ref
  }

  /** The index by reference; the last artifact of a reference wins. */
  function Index(arts: seq<Artifact>): (byRef: map<Ref, Artifact>)
    ensures forall r :: r in byRef <==> exists i :: 0 <= i < |arts| && arts[i].ref == r
    ensures forall r :: r in byRef ==> byRef[r].ref == r && byRef[r] in arts
  {
    if arts == [] then map[] else Index(arts[..|arts| - 1])[arts[|arts| - 1].ref := arts[|arts| - 1]]
  }

  /** Requirements that exist and are not the artifact itself. */
  function Kept(byRef: map<Ref, Artifact>, self: Ref, refs: seq<Ref>): (kept: seq<Ref>)
    ensures forall r :: r in kept <==> r in refs && r in byRef && r != self
  {
    if refs == [] then []
    else (if refs[0] in byRef && refs[0] != self then [refs[0]] else []) + Kept(byRef, self, refs[1..])
  }

  /** The graph of existing, non-self requirements. */
  function RequirementGraph(byRef: map<Ref, Artifact>): map<Ref, seq<Ref>> {
    map r | r in byRef :: Kept(byRef, r, byRef[r].needs)
  }

  /** What an edge of the requirement graph is. */
  predicate Needs(byRef: map<Ref, Artifact>, a: Ref, b: Ref) {
    a in byRef && b in byRef[a].needs && b in byRef && b != a
  }

  lemma EdgesAreNeeds(byRef: map<Ref, Artifact>)
    ensures forall a, b :: Edge(RequirementGraph(byRef), a, b) <==> Needs(byRef, a, b)
  {
  }

  predicate HasCycleMessage(problems: seq<Problem>) {
    exists i :: 0 <= i < |problems| && problems[i].Cycle?
  }

  predicate OnlyCycles(problems: seq<Problem>) {
    forall i :: 0 <= i < |problems| ==> problems[i].Cycle?
  }

  /** The messages are real cycles, each filed under the artifact whose requirement
      closes it. */
  predicate CyclesAreReal(byRef: map<Ref, Artifact>, graph: map<Ref, seq<Ref>>, problems: seq<Problem>) {
    forall i :: 0 <= i < |problems| && problems[i].Cycle? ==>
      var chain := problems[i].chain;
      && IsCycle(graph, chain)
      && chain[|chain| - 2] in byRef && byRef[chain[|chain| - 2]].dir == problems[i].dir
  }

  /** The last edges of the reported chains, each of which closes its cycle. */
  ghost function ClosingEdges(problems: seq<Problem>): set<(Ref, Ref)> {
    set i | 0 <= i < |problems| && problems[i].Cycle? && |problems[i].chain| >= 2 ::
      (problems[i].chain[|problems[i].chain| - 2], problems[i].chain[|problems[i].chain| - 1])
  }

  lemma ClosingEdgesGrow(problems: seq<Problem>, more: seq<Problem>)
    requires problems <= more
    ensures ClosingEdges(problems) <= ClosingEdges(more)
  {
    forall i | 0 <= i < |problems| && problems[i].Cycle? && |problems[i].chain| >= 2
      ensures var chain := problems[i].chain;
        (chain[|chain| - 2], chain[|chain| - 1]) in ClosingEdges(more)
    {
      assert more[i] == problems[i];
    }
  }

  const VISITING := 1
  const DONE := 2

  /** The search: its state map, its path and the messages found so far. `exact` says
      that no two artifacts share a reference, so the index is the whole project. */
  class Checker {
    const byRef: map<Ref, Artifact>
    ghost const graph: map<Ref, seq<Ref>>
    ghost const exact: bool
    var state: map<Ref, int>
    var path: seq<Ref>
    var problems: seq<Problem>
    ghost var finished: seq<Ref>

    constructor (byRef: map<Ref, Artifact>, ghost exact: bool)
      ensures this.byRef == byRef && this.exact == exact && this.graph == RequirementGraph(byRef)
      ensures state == map[] && path == [] && problems == [] && finished == []
    {
      this.byRef, this.exact, this.graph := byRef, exact, RequirementGraph(byRef);
      state, path, problems, finished := map[], [], [], [];
    }

    ghost predicate Searching()
      reads this
    {
      && state.Keys <= byRef.Keys
      && (forall r :: r in state ==> state[r] == VISITING || state[r] == DONE)
      && (forall r :: r in path <==> r in state && state[r] == VISITING)
      && (forall r :: r in finished <==> r in state && state[r] == DONE)
      && Distinct(path) && Distinct(finished) && OnlyCycles(problems)
      && (exact ==> IsWalk(graph, path) && CyclesAreReal(byRef, graph, problems))
      && (exact ==> FinishOrder(graph, finished, ClosingEdges(problems)))
    }

    /** The index files artifacts under their own reference, and the graph is theirs. */
    ghost predicate Indexed() {
      && (forall r :: r in byRef ==> byRef[r].ref == r)
      && (forall a, b :: Edge(graph, a, b) <==> Needs(byRef, a, b))
    }

    /** Everything below is a later state of the same search. */
    twostate predicate Continues()
      reads this
    {
      && old(problems) <= problems
      && (forall r :: old(r in finished) ==> r in finished)
      && old(state).Keys <= state.Keys
    }

    method Enter(a: Artifact)
      requires Searching() && a.ref in byRef && a.ref !in state
      requires exact ==> path == [] || Edge(graph, path[|path| - 1], a.ref)
      modifies `state, `path
      ensures Searching() && path == old(path) + [a.ref] && state == old(state)[a.ref := VISITING]
    {
      if exact {
        ExtendWalk(graph, path, a.ref);
      }
      state := state[a.ref := VISITING];
      path := path + [a.ref];
    }

    method Leave(a: Artifact)
      requires Searching() && path != [] && path[|path| - 1] == a.ref
      requires exact ==>
        forall r :: Edge(graph, a.ref, r) ==> r in finished || (a.ref, r) in ClosingEdges(problems)
      modifies `state, `path, `finished
      ensures Searching() && path == old(path)[..|old(path)| - 1]
      ensures finished == old(finished) + [a.ref] && state == old(state)[a.ref := DONE]
    {
      assert a.ref in path;
      if exact {
        FinishNext(graph, finished, ClosingEdges(problems), a.ref);
      }
      path := path[..|path| - 1];
      state := state[a.ref := DONE];
      finished := finished + [a.ref];
    }

    /** The last position of `r` on the path. */
    method StartOf(r: Ref) returns (start: nat)
      requires r in path
      ensures start < |path| && path[start] == r && forall k :: start < k < |path| ==> path[k] != r
    {
      start := 0;
      for i := 0 to |path|
        invariant 0 <= start < |path| && (r in path[..i] ==> path[start] == r)
        invariant forall k :: start < k < i ==> path[k] != r
      {
        if path[i] == r {
          start := i;
        }
      }
      assert path[..|path|] == path;
    }

    /** `r`, required by `a` on top of the path, is on the path: reports the cycle. */
    method Report(a: Artifact, r: Ref)
      requires Searching() && path != [] && path[|path| - 1] == a.ref && r in path
      requires exact ==> Edge(graph, a.ref, r) && byRef[a.ref] == a
      modifies `problems
      ensures Searching() && |problems| == |old(problems)| + 1 && old(problems) <= problems
      ensures (a.ref, r) in ClosingEdges(problems)
    {
      var start := StartOf(r);
      var cycle := path[start..] + [r];
      assert cycle[|cycle| - 2] == a.ref && cycle[|cycle| - 1] == r;
      if exact {
        ClosedPathIsCycle(graph, path, start, r);
      }
      ghost var last := |problems|;
      problems := problems + [Cycle(a.dir, cycle)];
      assert problems[last].chain == cycle;
      ClosingEdgesGrow(old(problems), problems);
    }

    /** Follows one requirement of the artifact on top of the path. */
    method Follow(a: Artifact, r: Ref)
      requires Searching() && path != [] && path[|path| - 1] == a.ref && a.ref in byRef && r in a.needs
      requires exact ==> byRef[a.ref] == a
      requires Indexed()
      modifies `state, `path, `problems, `finished
      ensures Searching() && Continues() && path == old(path)
      ensures exact && r in byRef && r != a.ref ==> r in finished || (a.ref, r) in ClosingEdges(problems)
      decreases byRef.Keys - state.Keys, 1
    {
      if r in byRef && r != a.ref {
        assert exact ==> Needs(byRef, a.ref, r);
        if r !in state {
          Visit(byRef[r]);
        } else if state[r] == VISITING {
          Report(a, r);
        }
      }
    }

    /** Follows all requirements of the artifact on top of the path. */
    method FollowAll(a: Artifact)
      requires Searching() && path != [] && path[|path| - 1] == a.ref && a.ref in byRef
      requires exact ==> byRef[a.ref] == a
      requires Indexed()
      modifies `state, `path, `problems, `finished
      ensures Searching() && Continues() && path == old(path)
      ensures exact ==> AllDone(a, |a.needs|)
      decreases byRef.Keys - state.Keys, 2
    {
      for i := 0 to |a.needs|
        invariant Searching() && Continues() && path == old(path)
        invariant exact ==> AllDone(a, i)
      {
        ghost var before := problems;
        Follow(a, a.needs[i]);
        ClosingEdgesGrow(before, problems);
      }
    }

    /** Visits an artifact: afterwards it is done, and everything it requires is done as
        well or closes a reported cycle. */
    method Visit(a: Artifact)
      requires Searching() && a.ref in byRef && a.ref !in state
      requires exact ==> byRef[a.ref] == a && (path == [] || Edge(graph, path[|path| - 1], a.ref))
      requires Indexed()
      modifies `state, `path, `problems, `finished
      ensures Searching() && Continues() && path == old(path) && a.ref in finished
      decreases byRef.Keys - state.Keys, 0
    {
      Enter(a);
      FollowAll(a);
      Leave(a);
      assert path == old(path);
    }

    /** The first `n` requirements that count are finished, or close a reported cycle. */
    ghost predicate AllDone(a: Artifact, n: int)
      requires 0 <= n <= |a.needs|
      reads this
    {
      forall j :: 0 <= j < n && a.needs[j] in byRef && a.needs[j] != a.ref ==>
        a.needs[j] in finished || (a.ref, a.needs[j]) in ClosingEdges(problems)
    }
  }

  /** The dangling messages: one for each unresolved non-self reference. */
  method FindDangling(arts: seq<Artifact>, byRef: map<Ref, Artifact>) returns (problems: seq<Problem>)
    ensures forall p :: p in problems ==> p.Dangling?
    ensures forall dir, r :: Dangling(dir, r) in problems <==>
      exists i :: 0 <= i < |arts| && LeavesDangling(arts[i], byRef, dir, r)
  {
    problems := [];
    for i := 0 to |arts|
      invariant forall p :: p in problems ==> p.Dangling?
      invariant forall dir, r :: Dangling(dir, r) in problems <==>
        exists k :: 0 <= k < i && LeavesDangling(arts[k], byRef, dir, r)
    {
      var a := arts[i];
      ghost var before := problems;
      for j := 0 to |a.needs|
        invariant forall p :: p in problems ==> p.Dangling?
        invariant forall dir, r :: Dangling(dir, r) in problems <==>
          Dangling(dir, r) in before || (dir == a.dir && r in a.needs[..j] && r != a.ref && r !in byRef)
      {
        var r := a.needs[j];
        if r != a.ref && r !in byRef {
          problems := problems + [Dangling(a.dir, r)];
        }
      }
      assert a.needs[..|a.needs|] == a.needs;
    }
  }

  predicate LeavesDangling(a: Artifact, byRef: map<Ref, Artifact>, dir: string, r: Ref) {
    a.dir == dir && r in a.needs && r != a.ref && r !in byRef
  }

  predicate DirLeq(a: Artifact, b: Artifact) {
    StringLeq(a.dir, b.dir)
  }

  /** The search from every artifact of `order`. */
  method SearchAll(checker: Checker, order: seq<Artifact>)
    requires checker.Searching() && checker.path == [] && checker.Indexed()
    requires forall a :: a in order ==> a.ref in checker.byRef && (checker.exact ==> checker.byRef[a.ref] == a)
    modifies checker
    ensures checker.Searching() && forall a :: a in order ==> a.ref in checker.finished
  {
    for i := 0 to |order|
      invariant checker.Searching() && checker.path == []
      invariant forall j :: 0 <= j < i ==> order[j].ref in checker.finished
    {
      if order[i].ref !in checker.state {
        checker.Visit(order[i]);
      }
    }
  }

  /** The search from every artifact in directory order. */
  method FindCycles(arts: seq<Artifact>, byRef: map<Ref, Artifact>) returns (problems: seq<Problem>)
    requires byRef == Index(arts)
    ensures OnlyCycles(problems)
    ensures DistinctRefs(arts) ==> CyclesAreReal(byRef, RequirementGraph(byRef), problems)
    ensures DistinctRefs(arts) ==> (problems == [] <==> Acyclic(RequirementGraph(byRef)))
    ensures DistinctRefs(arts) ==>
      forall p :: IsCycle(RequirementGraph(byRef), p) ==> !Avoids(p, ClosingEdges(problems))
  {
    EdgesAreNeeds(byRef);
    IndexIsExact(arts);
    ghost var graph := RequirementGraph(byRef);
    var checker := new Checker(byRef, DistinctRefs(arts));
    var order := Sort(DirLeq, arts);
    SortKeepsElements(DirLeq, arts);
    Ordering.SameElements(arts, order);
    SearchAll(checker, order);
    problems := checker.problems;
    if DistinctRefs(arts) {
      EveryCycleSkipped(graph, checker.finished, ClosingEdges(problems));
      if problems == [] {
        assert ClosingEdges(problems) == {};
        AllFinishedMeansAcyclic(graph, checker.finished);
      } else {
        assert IsCycle(graph, problems[0].chain);
      }
    }
  }

  lemma IndexIsExact(arts: seq<Artifact>)
    ensures forall a :: a in arts ==> a.ref in Index(arts)
    ensures DistinctRefs(arts) ==> forall a :: a in arts ==> Index(arts)[a.ref] == a
  {
  }

  method BuildIndex(arts: seq<Artifact>) returns (byRef: map<Ref, Artifact>)
    ensures byRef == Index(arts)
  {
    byRef := map[];
    for i := 0 to |arts|
      invariant byRef == Index(arts[..i])
    {
      assert arts[..i + 1][..i] == arts[..i];
      byRef := byRef[arts[i].ref := arts[i]];
    }
    assert arts[..|arts|] == arts;
  }

  /** Dangling messages first, cycle messages after them. */
  lemma MessagesTogether(byRef: map<Ref, Artifact>, graph: map<Ref, seq<Ref>>, dangling: seq<Problem>,
                         cycles: seq<Problem>)
    requires (forall p :: p in dangling ==> p.Dangling?) && OnlyCycles(cycles)
    ensures forall dir, r :: Dangling(dir, r) in dangling + cycles <==> Dangling(dir, r) in dangling
    ensures HasCycleMessage(dangling + cycles) <==> cycles != []
    ensures CyclesAreReal(byRef, graph, cycles) ==> CyclesAreReal(byRef, graph, dangling + cycles)
    ensures ClosingEdges(cycles) <= ClosingEdges(dangling + cycles)
  {
    var all := dangling + cycles;
    forall i | 0 <= i < |cycles| ensures all[|dangling| + i] == cycles[i] {
    }
    assert forall i :: 0 <= i < |dangling| ==> all[i] in dangling;
    if cycles != [] {
      assert all[|dangling|] == cycles[0];
    }
  }

  /** CheckRequires. The dangling messages are exactly the unresolved non-self
      references; for artifacts with distinct references a cycle message appears
      exactly when the requirements have a cycle, every printed chain is one, and every
      cycle takes the closing edge of some printed chain. */
  method CheckRequires(arts: seq<Artifact>) returns (problems: seq<Problem>)
    ensures forall dir, r :: Dangling(dir, r) in problems <==>
      exists i :: 0 <= i < |arts| && LeavesDangling(arts[i], Index(arts), dir, r)
    ensures forall dir, r :: Dangling(dir, r) in problems <==>
      && (exists a :: a in arts && a.dir == dir && r in a.needs && r != a.ref)
      && (forall a :: a in arts ==> a.ref != r)
    ensures DistinctRefs(arts) ==> (HasCycleMessage(problems) <==> !Acyclic(RequirementGraph(Index(arts))))
    ensures DistinctRefs(arts) ==> CyclesAreReal(Index(arts), RequirementGraph(Index(arts)), problems)
    ensures DistinctRefs(arts) ==>
      forall p :: IsCycle(RequirementGraph(Index(arts)), p) ==> !Avoids(p, ClosingEdges(problems))
  {
    var byRef := BuildIndex(arts);
    var dangling := FindDangling(arts, byRef);
    var cycles := FindCycles(arts, byRef);
    MessagesTogether(byRef, RequirementGraph(byRef), dangling, cycles);
    problems := dangling + cycles;
  }
}
