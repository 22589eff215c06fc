/** Directed graphs as successor lists, their cycles, and the certificate a finished
    depth-first search leaves behind. */
module Graphs {

  predicate Edge<N(==)>(g: map<N, seq<N>>, a: N, b: N) {
    a in g && b in g[a]
  }

  predicate IsWalk<N(==)>(g: map<N, seq<N>>, p: seq<N>) {
    forall i :: 0 <= i < |p| - 1 ==> Edge(g, p[i], p[i + 1])
  }

  /** A closed walk along at least one edge. */
  predicate IsCycle<N(==)>(g: map<N, seq<N>>, p: seq<N>) {
    |p| >= 2 && p[0] == p[|p| - 1] && IsWalk(g, p)
  }

  ghost predicate Acyclic<N(!new)>(g: map<N, seq<N>>) {
    forall p :: !IsCycle(g, p)
  }

  predicate Distinct<N(==)>(s: seq<N>) {
    forall i, j :: 0 <= i < j < |s| ==> s[i] != s[j]
  }

  /** The walk takes none of the edges `skipped`. */
  predicate Avoids<N(==)>(p: seq<N>, skipped: set<(N, N)>) {
    forall i :: 0 <= i < |p| - 1 ==> (p[i], p[i + 1]) !in skipped
  }

  /** Nodes in the order a search finished them: every successor finished earlier, but
      for the edges the search skipped. */
  ghost predicate FinishOrder<N(!new)>(g: map<N, seq<N>>, order: seq<N>, skipped: set<(N, N)>) {
    && Distinct(order)
    && forall i, b :: 0 <= i < |order| && Edge(g, order[i], b) ==> b in order[..i] || (order[i], b) in skipped
  }

  lemma {:induction false} WalkDescends<N(!new)>(g: map<N, seq<N>>, order: seq<N>, skipped: set<(N, N)>, p: seq<N>,
                                                 i: nat)
    requires FinishOrder(g, order, skipped) && IsWalk(g, p) && Avoids(p, skipped)
    requires p != [] && i < |order| && p[0] == order[i]
    ensures forall k :: 1 <= k < |p| ==> p[k] in order[..i]
    decreases |p|
  {
    if |p| >= 2 {
      assert Edge(g, p[0], p[1]) && (p[0], p[1]) !in skipped;
      var j :| 0 <= j < i && order[j] == p[1];
      var rest := p[1..];
      forall k | 0 <= k < |rest| - 1 ensures Edge(g, rest[k], rest[k + 1]) && (rest[k], rest[k + 1]) !in skipped {
        assert Edge(g, p[k + 1], p[k + 2]) && (p[k + 1], p[k + 2]) !in skipped;
      }
      WalkDescends(g, order, skipped, rest, j);
      forall k | 1 <= k < |p| ensures p[k] in order[..i] {
        if k >= 2 {
          assert rest[k - 1] in order[..j];
        }
      }
    }
  }

  /** No cycle of edges that were not skipped passes through a finished node. */
  lemma NoCycleThroughFinished<N(!new)>(g: map<N, seq<N>>, order: seq<N>, skipped: set<(N, N)>, p: seq<N>)
    requires FinishOrder(g, order, skipped) && Avoids(p, skipped) && p != [] && p[0] in order
    ensures !IsCycle(g, p)
  {
    if IsWalk(g, p) && |p| >= 2 {
      var i :| 0 <= i < |order| && order[i] == p[0];
      WalkDescends(g, order, skipped, p, i);
      assert p[|p| - 1] in order[..i];
    }
  }

  /** When every node with a successor list is finished, every cycle takes an edge that
      was skipped. */
  lemma EveryCycleSkipped<N(!new)>(g: map<N, seq<N>>, order: seq<N>, skipped: set<(N, N)>)
    requires FinishOrder(g, order, skipped)
    requires forall a, b :: Edge(g, a, b) && b in g ==> b in order
    ensures forall p :: IsCycle(g, p) ==> !Avoids(p, skipped)
  {
    forall p ensures IsCycle(g, p) ==> !Avoids(p, skipped) {
      if IsCycle(g, p) {
        assert Edge(g, p[|p| - 2], p[|p| - 1]);
        assert Edge(g, p[0], p[1]);
        if Avoids(p, skipped) {
          NoCycleThroughFinished(g, order, skipped, p);
        }
      }
    }
  }

  /** In particular there is no cycle if none was. */
  lemma AllFinishedMeansAcyclic<N(!new)>(g: map<N, seq<N>>, order: seq<N>)
    requires FinishOrder(g, order, {})
    requires forall a, b :: Edge(g, a, b) && b in g ==> b in order
    ensures Acyclic(g)
  {
    EveryCycleSkipped(g, order, {});
    forall p ensures !IsCycle(g, p) {
      assert Avoids(p, {});
    }
  }

  lemma FinishNext<N(!new)>(g: map<N, seq<N>>, order: seq<N>, skipped: set<(N, N)>, n: N)
    requires FinishOrder(g, order, skipped) && n !in order
    requires forall b :: Edge(g, n, b) ==> b in order || (n, b) in skipped
    ensures FinishOrder(g, order + [n], skipped)
  {
    var next := order + [n];
    forall i, b | 0 <= i < |next| && Edge(g, next[i], b) ensures b in next[..i] || (next[i], b) in skipped {
      assert next[..i] == order[..i];
      assert order[..|order|] == order;
    }
  }

  lemma ExtendWalk<N>(g: map<N, seq<N>>, p: seq<N>, n: N)
    requires IsWalk(g, p) && (p == [] || Edge(g, p[|p| - 1], n))
    ensures IsWalk(g, p + [n])
  {
  }

  /** The end of a search path from `n` on, closed by `n`, is a cycle. */
  lemma ClosedPathIsCycle<N>(g: map<N, seq<N>>, p: seq<N>, start: nat, n: N)
    requires IsWalk(g, p) && start < |p| && p[start] == n && Edge(g, p[|p| - 1], n)
    ensures IsCycle(g, p[start..] + [n])
  {
  }
}
