/** The one sort the builders use, for any total preorder, and when it forgets input order. */
module StableSort {
  ghost predicate Preorder<T(!new)>(leq: (T, T) -> bool) {
    && (forall a, b :: leq(a, b) || leq(b, a))
    && forall a, b, c :: leq(a, b) && leq(b, c) ==> leq(a, c)
  }

  /** Places x after everything that is not greater. */
  function Place<T>(sorted: seq<T>, x: T, leq: (T, T) -> bool): seq<T> {
    if sorted == [] || leq(sorted[|sorted| - 1], x) then sorted + [x]
    else Place(sorted[..|sorted| - 1], x, leq) + [sorted[|sorted| - 1]]
  }

  function Sort<T>(s: seq<T>, leq: (T, T) -> bool): seq<T> {
    if s == [] then [] else Place(Sort(s[..|s| - 1], leq), s[|s| - 1], leq)
  }

  ghost predicate Ascending<T(!new)>(s: seq<T>, leq: (T, T) -> bool) {
    forall i, j :: 0 <= i < j < |s| ==> leq(s[i], s[j])
  }

  lemma {:induction false} PlaceKeeps<T>(sorted: seq<T>, x: T, leq: (T, T) -> bool)
    ensures multiset(Place(sorted, x, leq)) == multiset(sorted) + multiset{x}
    ensures |Place(sorted, x, leq)| == |sorted| + 1
  {
    if sorted != [] {
      var n := |sorted| - 1;
      assert sorted == sorted[..n] + [sorted[n]];
      PlaceKeeps(sorted[..n], x, leq);
    }
  }

  lemma {:induction false} PlaceAscends<T(!new)>(sorted: seq<T>, x: T, leq: (T, T) -> bool)
    requires Preorder(leq) && Ascending(sorted, leq)
    ensures Ascending(Place(sorted, x, leq), leq)
  {
    if sorted != [] {
      var n := |sorted| - 1;
      if leq(sorted[n], x) {
        assert forall i :: 0 <= i < n ==> leq(sorted[i], sorted[n]);
      } else {
        var placed := Place(sorted[..n], x, leq);
        PlaceAscends(sorted[..n], x, leq);
        PlaceKeeps(sorted[..n], x, leq);
        forall y | y in placed
          ensures leq(y, sorted[n])
        {
          assert y in multiset(placed);
          assert y == x || y in sorted[..n];
        }
        assert forall i :: 0 <= i < |placed| ==> placed[i] in placed;
      }
    }
  }

  lemma {:induction false} SortKeeps<T>(s: seq<T>, leq: (T, T) -> bool)
    ensures multiset(Sort(s, leq)) == multiset(s) && |Sort(s, leq)| == |s|
  {
    if s != [] {
      var n := |s| - 1;
      assert s == s[..n] + [s[n]];
      SortKeeps(s[..n], leq);
      PlaceKeeps(Sort(s[..n], leq), s[n], leq);
    }
  }

  lemma {:induction false} SortAscends<T(!new)>(s: seq<T>, leq: (T, T) -> bool)
    requires Preorder(leq)
    ensures Ascending(Sort(s, leq), leq)
  {
    if s != [] {
      SortAscends(s[..|s| - 1], leq);
      PlaceAscends(Sort(s[..|s| - 1], leq), s[|s| - 1], leq);
    }
  }

  /** No two different elements have the same place in the order. */
  ghost predicate Separates<T(!new)>(s: seq<T>, leq: (T, T) -> bool) {
    forall a, b :: a in s && b in s && leq(a, b) && leq(b, a) ==> a == b
  }

  lemma LastIsGreatest<T(!new)>(s: seq<T>, x: T, leq: (T, T) -> bool)
    requires Ascending(s, leq) && x in s && leq(x, x)
    ensures leq(x, s[|s| - 1])
  {
  }

  lemma Reflexive<T(!new)>(x: T, leq: (T, T) -> bool)
    requires Preorder(leq)
    ensures leq(x, x)
  {
  }

  lemma SameLast<T(!new)>(a: seq<T>, b: seq<T>, leq: (T, T) -> bool)
    requires Ascending(a, leq) && Ascending(b, leq) && Separates(a, leq)
    requires Preorder(leq) && a != [] && b != []
    requires forall x :: x in a <==> x in b
    ensures a[|a| - 1] == b[|b| - 1]
  {
    hide Preorder, Ascending;
    var last, other := a[|a| - 1], b[|b| - 1];
    Reflexive(last, leq);
    Reflexive(other, leq);
    assert last in b && other in a;
    LastIsGreatest(b, last, leq);
    LastIsGreatest(a, other, leq);
  }

  lemma FrontAscends<T(!new)>(s: seq<T>, leq: (T, T) -> bool)
    requires Ascending(s, leq) && s != []
    ensures Ascending(s[..|s| - 1], leq)
    ensures multiset(s[..|s| - 1]) == multiset(s) - multiset{s[|s| - 1]}
  {
    assert s == s[..|s| - 1] + [s[|s| - 1]];
  }

  /** Ascending lists of the same separated elements are the same list. */
  lemma {:induction false} AscendingIsUnique<T(!new)>(a: seq<T>, b: seq<T>, leq: (T, T) -> bool)
    requires Ascending(a, leq) && Ascending(b, leq) && Separates(a, leq)
    requires Preorder(leq) && multiset(a) == multiset(b)
    ensures a == b
  {
    hide Preorder, Ascending;
    assert |multiset(a)| == |a| && |multiset(b)| == |b|;
    if a != [] {
      var n := |a| - 1;
      forall x
        ensures x in a <==> x in b
      {
        assert x in a <==> x in multiset(a);
        assert x in b <==> x in multiset(b);
      }
      SameLast(a, b, leq);
      FrontAscends(a, leq);
      FrontAscends(b, leq);
      AscendingIsUnique(a[..n], b[..n], leq);
      assert a == a[..n] + [a[n]] && b == b[..n] + [b[n]];
    }
  }

  /** Sorting forgets the order of its input when the order separates the elements. */
  lemma SortForgets<T(!new)>(a: seq<T>, b: seq<T>, leq: (T, T) -> bool)
    requires Preorder(leq) && Separates(a, leq) && multiset(a) == multiset(b)
    ensures Sort(a, leq) == Sort(b, leq)
  {
    SortKeeps(a, leq);
    SortKeeps(b, leq);
    SortAscends(a, leq);
    SortAscends(b, leq);
    forall x | x in Sort(a, leq)
      ensures x in a
    {
      assert x in multiset(Sort(a, leq));
    }
    AscendingIsUnique(Sort(a, leq), Sort(b, leq), leq);
  }

  /** Sorting an already ascending list changes nothing. */
  lemma {:induction false} SortedStays<T(!new)>(s: seq<T>, leq: (T, T) -> bool)
    requires Ascending(s, leq)
    ensures Sort(s, leq) == s
  {
    if s != [] {
      SortedStays(s[..|s| - 1], leq);
      assert s == s[..|s| - 1] + [s[|s| - 1]];
    }
  }
}
