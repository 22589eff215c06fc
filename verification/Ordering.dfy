/** Byte-wise string order and the sorts the repository relies on.

    SQLite compares TEXT keys, and Go compares strings, one unit at a time; both
    are the lexicographic order `StringLeq`. A sort is described by what it
    returns: an ordered sequence with the same elements. */
module Ordering {

  /** `a` sorts no later than `b`. */
  predicate StringLeq(a: string, b: string) {
    || a == []
    || (b != [] && (a[0] < b[0] || (a[0] == b[0] && StringLeq(a[1..], b[1..]))))
  }

  lemma {:induction false} StringLeqReflexive(a: string)
    ensures StringLeq(a, a)
  {
    if a != [] {
      StringLeqReflexive(a[1..]);
    }
  }

  lemma {:induction false} StringLeqTotal(a: string, b: string)
    ensures StringLeq(a, b) || StringLeq(b, a)
  {
    if a != [] && b != [] {
      StringLeqTotal(a[1..], b[1..]);
    }
  }

  lemma {:induction false} StringLeqAntisymmetric(a: string, b: string)
    requires StringLeq(a, b) && StringLeq(b, a)
    ensures a == b
  {
    if a != [] && b != [] {
      StringLeqAntisymmetric(a[1..], b[1..]);
      assert a == [a[0]] + a[1..] && b == [b[0]] + b[1..];
    }
  }

  lemma {:induction false} StringLeqTransitive(a: string, b: string, c: string)
    requires StringLeq(a, b) && StringLeq(b, c)
    ensures StringLeq(a, c)
  {
    if a != [] && b != [] && c != [] && a[0] == b[0] == c[0] {
      StringLeqTransitive(a[1..], b[1..], c[1..]);
    }
  }

  /** `leq` ranks all of T, possibly with ties. */
  ghost predicate TotalPreorder<T(!new)>(leq: (T, T) -> bool) {
    && (forall x :: leq(x, x))
    && (forall x, y :: leq(x, y) || leq(y, x))
    && (forall x, y, z :: leq(x, y) && leq(y, z) ==> leq(x, z))
  }

  /** `leq` is a total order on T. */
  ghost predicate TotalOrder<T(!new)>(leq: (T, T) -> bool) {
    && TotalPreorder(leq)
    && (forall x, y :: leq(x, y) && leq(y, x) ==> x == y)
  }

  /** `leq` ranks no two elements of `s` alike. */
  ghost predicate Separates<T(!new)>(leq: (T, T) -> bool, s: seq<T>) {
    forall x, y :: x in s && y in s && leq(x, y) && leq(y, x) ==> x == y
  }

  predicate Sorted<T>(leq: (T, T) -> bool, s: seq<T>) {
    forall i, j :: 0 <= i < j < |s| ==> leq(s[i], s[j])
  }

  function Insert<T>(leq: (T, T) -> bool, x: T, s: seq<T>): seq<T> {
    if s == [] || !leq(s[0], x) then [x] + s else [s[0]] + Insert(leq, x, s[1..])
  }

  /** Stable insertion sort: the reference result of every library sort used. */
  function Sort<T>(leq: (T, T) -> bool, s: seq<T>): seq<T> {
    if s == [] then [] else Insert(leq, s[|s| - 1], Sort(leq, s[..|s| - 1]))
  }

  lemma {:induction false} InsertKeepsElements<T>(leq: (T, T) -> bool, x: T, s: seq<T>)
    ensures multiset(Insert(leq, x, s)) == multiset(s) + multiset{x}
  {
    if s != [] && leq(s[0], x) {
      InsertKeepsElements(leq, x, s[1..]);
      assert s == [s[0]] + s[1..];
    }
  }

  lemma {:induction false} InsertKeepsOrder<T(!new)>(leq: (T, T) -> bool, x: T, s: seq<T>)
    requires TotalPreorder(leq) && Sorted(leq, s)
    ensures Sorted(leq, Insert(leq, x, s))
  {
    if s != [] && leq(s[0], x) {
      InsertKeepsOrder(leq, x, s[1..]);
      InsertKeepsElements(leq, x, s[1..]);
      var tail := Insert(leq, x, s[1..]);
      forall k | 0 <= k < |tail| ensures leq(s[0], tail[k]) {
        assert tail[k] in multiset(tail);
        assert tail[k] in multiset(s[1..]) || tail[k] == x;
      }
    }
  }

  lemma {:induction false} SortKeepsElements<T>(leq: (T, T) -> bool, s: seq<T>)
    ensures multiset(Sort(leq, s)) == multiset(s)
  {
    if s != [] {
      SortKeepsElements(leq, s[..|s| - 1]);
      InsertKeepsElements(leq, s[|s| - 1], Sort(leq, s[..|s| - 1]));
      assert s == s[..|s| - 1] + [s[|s| - 1]];
    }
  }

  lemma {:induction false} SortOrders<T(!new)>(leq: (T, T) -> bool, s: seq<T>)
    requires TotalPreorder(leq)
    ensures Sorted(leq, Sort(leq, s))
  {
    if s != [] {
      SortOrders(leq, s[..|s| - 1]);
      InsertKeepsOrder(leq, s[|s| - 1], Sort(leq, s[..|s| - 1]));
    }
  }

  /** The head of a sorted sequence is no later than any of its elements. */
  lemma HeadIsLeast<T(!new)>(leq: (T, T) -> bool, s: seq<T>, x: T)
    requires TotalPreorder(leq) && Sorted(leq, s) && x in s
    ensures leq(s[0], x)
  {
  }

  lemma SameMembers<T>(a: seq<T>, b: seq<T>, x: T)
    requires multiset(a) == multiset(b)
    ensures x in a <==> x in b
  {
    assert x in a <==> x in multiset(a);
    assert x in b <==> x in multiset(b);
  }

  lemma SameElements<T>(a: seq<T>, b: seq<T>)
    requires multiset(a) == multiset(b)
    ensures forall x :: x in a <==> x in b
  {
    forall x ensures x in a <==> x in b {
      SameMembers(a, b, x);
    }
  }

  lemma TailElements<T>(s: seq<T>)
    requires s != []
    ensures multiset(s[1..]) == multiset(s) - multiset{s[0]}
  {
    assert s == [s[0]] + s[1..];
  }

  /** Two sorted sequences with the same elements are the same sequence, when no
      two of them rank alike. */
  lemma {:induction false} SortedUnique<T(!new)>(leq: (T, T) -> bool, a: seq<T>, b: seq<T>)
    requires TotalPreorder(leq) && Separates(leq, a) && Sorted(leq, a) && Sorted(leq, b)
    requires multiset(a) == multiset(b)
    ensures a == b
  {
    assert |a| == |multiset(a)| == |multiset(b)| == |b|;
    if a != [] {
      SameMembers(a, b, a[0]);
      SameMembers(a, b, b[0]);
      HeadIsLeast(leq, a, b[0]);
      HeadIsLeast(leq, b, a[0]);
      TailElements(a);
      TailElements(b);
      assert Separates(leq, a[1..]);
      SortedUnique(leq, a[1..], b[1..]);
      assert a == [a[0]] + a[1..] && b == [b[0]] + b[1..];
    }
  }

  /** Sorting forgets the order of its input. */
  lemma SortPermutation<T(!new)>(leq: (T, T) -> bool, a: seq<T>, b: seq<T>)
    requires TotalPreorder(leq) && Separates(leq, a) && multiset(a) == multiset(b)
    ensures Sort(leq, a) == Sort(leq, b)
  {
    SortKeepsElements(leq, a);
    SortKeepsElements(leq, b);
    SortOrders(leq, a);
    SortOrders(leq, b);
    forall x | x in Sort(leq, a) ensures x in a {
      assert x in multiset(Sort(leq, a));
    }
    SortedUnique(leq, Sort(leq, a), Sort(leq, b));
  }

  lemma StringsTotallyOrdered()
    ensures TotalOrder(StringLeq)
  {
    forall x: string ensures StringLeq(x, x) { StringLeqReflexive(x); }
    forall x: string, y: string ensures StringLeq(x, y) || StringLeq(y, x) { StringLeqTotal(x, y); }
    forall x: string, y: string | StringLeq(x, y) && StringLeq(y, x) ensures x == y { StringLeqAntisymmetric(x, y); }
    forall x: string, y: string, z: string | StringLeq(x, y) && StringLeq(y, z) ensures StringLeq(x, z) {
      StringLeqTransitive(x, y, z);
    }
  }

  /** `leq` ranks the elements of `s`, possibly with ties. */
  ghost predicate Ranks<T(!new)>(leq: (T, T) -> bool, s: set<T>) {
    && (forall x, y :: x in s && y in s ==> leq(x, y) || leq(y, x))
    && (forall x, y, z :: x in s && y in s && z in s && leq(x, y) && leq(y, z) ==> leq(x, z))
  }

  /** A nonempty set whose elements are ranked has one no later than all others. */
  lemma {:induction false} LeastExists<T(!new)>(leq: (T, T) -> bool, s: set<T>) returns (least: T)
    requires Ranks(leq, s) && s != {}
    ensures least in s && forall x :: x in s ==> leq(least, x)
    decreases s
  {
    var x :| x in s;
    var rest := s - {x};
    assert s == rest + {x};
    assert leq(x, x);
    if rest == {} {
      return x;
    }
    var y := LeastExists(leq, rest);
    least := if leq(x, y) then x else y;
  }
}
