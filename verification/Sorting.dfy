/** Python's sorted: a stable sort by a total preorder. */
module Sorting {
  ghost predicate TotalPreorder<T(!new)>(leq: (T, T) -> bool) {
    && (forall a, b :: leq(a, b) || leq(b, a))
    && (forall a, b, c :: leq(a, b) && leq(b, c) ==> leq(a, c))
  }

  ghost predicate SortedBy<T>(leq: (T, T) -> bool, list: seq<T>) {
    forall i, j :: 0 <= i < j < |list| ==> leq(list[i], list[j])
  }

  /** The new element goes after those that are at most it. */
  function Insert<T>(leq: (T, T) -> bool, list: seq<T>, x: T): (r: seq<T>)
    ensures multiset(r) == multiset(list) + multiset{x}
  {
    if list == [] then [x]
    else
      var front, last := list[..|list| - 1], list[|list| - 1];
      assert list == front + [last];
      if leq(last, x) then list + [x] else Insert(leq, front, x) + [last]
  }

  function Sort<T>(leq: (T, T) -> bool, list: seq<T>): (r: seq<T>)
    ensures multiset(r) == multiset(list)
  {
    if list == [] then []
    else
      assert list == list[..|list| - 1] + [list[|list| - 1]];
      Insert(leq, Sort(leq, list[..|list| - 1]), list[|list| - 1])
  }

  lemma {:induction false} InsertSorted<T(!new)>(leq: (T, T) -> bool, list: seq<T>, x: T)
    requires TotalPreorder(leq) && SortedBy(leq, list)
    ensures SortedBy(leq, Insert(leq, list, x))
  {
    if list != [] {
      var n := |list| - 1;
      var front, last := list[..n], list[n];
      if leq(last, x) {
        assert forall i :: 0 <= i < n ==> leq(list[i], last);
      } else {
        InsertSorted(leq, front, x);
        var r := Insert(leq, front, x);
        forall i | 0 <= i < |r| ensures leq(r[i], last) {
          assert r[i] in multiset(r);
          if r[i] != x { LastDominates(leq, list, r[i]); }
        }
      }
    }
  }

  /** The result is ordered, whatever the input order. */
  lemma {:induction false} SortSorted<T(!new)>(leq: (T, T) -> bool, list: seq<T>)
    requires TotalPreorder(leq)
    ensures SortedBy(leq, Sort(leq, list))
  {
    if list != [] {
      SortSorted(leq, list[..|list| - 1]);
      InsertSorted(leq, Sort(leq, list[..|list| - 1]), list[|list| - 1]);
    }
  }

  /** Elements that are at most each other come in the order of their ranks. */
  ghost predicate TiesByRank<T(!new)>(leq: (T, T) -> bool, rank: T -> int, list: seq<T>) {
    forall i, j :: 0 <= i < j < |list| && leq(list[i], list[j]) && leq(list[j], list[i]) ==>
      rank(list[i]) < rank(list[j])
  }

  lemma {:induction false} InsertKeepsTies<T(!new)>(leq: (T, T) -> bool, rank: T -> int, list: seq<T>, x: T)
    requires TiesByRank(leq, rank, list) && forall y :: y in list ==> rank(y) < rank(x)
    ensures TiesByRank(leq, rank, Insert(leq, list, x))
  {
    if list != [] && !leq(list[|list| - 1], x) {
      var front, last := list[..|list| - 1], list[|list| - 1];
      InsertKeepsTies(leq, rank, front, x);
      var r := Insert(leq, front, x);
      forall i | 0 <= i < |r| && leq(r[i], last) && leq(last, r[i]) ensures rank(r[i]) < rank(last) {
        assert r[i] in multiset(r);
        var j :| 0 <= j < |front| && front[j] == r[i];
        assert list[j] == r[i];
      }
    }
  }

  /** The sort is stable: what the order does not tell apart stays in the order it was listed in. */
  lemma {:induction false} SortKeepsTies<T(!new)>(leq: (T, T) -> bool, rank: T -> int, list: seq<T>)
    requires forall i, j :: 0 <= i < j < |list| ==> rank(list[i]) < rank(list[j])
    ensures TiesByRank(leq, rank, Sort(leq, list))
  {
    if list != [] {
      var front := list[..|list| - 1];
      SortKeepsTies(leq, rank, front);
      forall y | y in Sort(leq, front) ensures rank(y) < rank(list[|list| - 1]) {
        assert y in multiset(Sort(leq, front));
        var j :| 0 <= j < |front| && front[j] == y;
        assert list[j] == y;
      }
      InsertKeepsTies(leq, rank, Sort(leq, front), list[|list| - 1]);
    }
  }

  /** Where the last element of a list is in another listing of the same bag. */
  lemma Match<T>(a: seq<T>, b: seq<T>) returns (i: nat)
    requires a != [] && multiset(a) == multiset(b)
    ensures i < |b| && b[i] == a[|a| - 1]
    ensures multiset(a[..|a| - 1]) == multiset(b[..i] + b[i + 1..])
  {
    assert a[|a| - 1] in multiset(a);
    assert a[|a| - 1] in multiset(b);
    i :| 0 <= i < |b| && b[i] == a[|a| - 1];
    assert b == b[..i] + [b[i]] + b[i + 1..];
    BagOfFront(a);
  }

  lemma SameSize<T>(a: seq<T>, b: seq<T>)
    requires multiset(a) == multiset(b)
    ensures |a| == |b|
  {
    assert |multiset(a)| == |multiset(b)|;
  }

  lemma BagOfFront<T>(a: seq<T>)
    requires a != []
    ensures multiset(a[..|a| - 1]) == multiset(a) - multiset{a[|a| - 1]}
  {
    assert a == a[..|a| - 1] + [a[|a| - 1]];
  }

  ghost predicate Antisymmetric<T(!new)>(leq: (T, T) -> bool) {
    forall a, b :: leq(a, b) && leq(b, a) ==> a == b
  }

  lemma LastDominates<T>(leq: (T, T) -> bool, list: seq<T>, x: T)
    requires SortedBy(leq, list) && x in list
    ensures x == list[|list| - 1] || leq(x, list[|list| - 1])
  {
    var i :| 0 <= i < |list| && list[i] == x;
  }

  lemma SameBagSameLast<T(!new)>(leq: (T, T) -> bool, a: seq<T>, b: seq<T>)
    requires Antisymmetric(leq) && SortedBy(leq, a) && SortedBy(leq, b) && multiset(a) == multiset(b) && a != []
    ensures |a| == |b| && a[|a| - 1] == b[|b| - 1]
  {
    assert |a| == |multiset(a)| == |multiset(b)| == |b|;
    assert a[|a| - 1] in multiset(a) && b[|b| - 1] in multiset(b);
    LastDominates(leq, a, b[|b| - 1]);
    LastDominates(leq, b, a[|a| - 1]);
  }

  /** Under an antisymmetric order a bag has one ordered listing. */
  lemma {:induction false} SortedUnique<T(!new)>(leq: (T, T) -> bool, a: seq<T>, b: seq<T>)
    requires Antisymmetric(leq) && SortedBy(leq, a) && SortedBy(leq, b) && multiset(a) == multiset(b)
    ensures a == b
  {
    if a == [] {
      assert |multiset(b)| == 0;
    } else {
      var n := |a| - 1;
      SameBagSameLast(leq, a, b);
      BagOfFront(a);
      BagOfFront(b);
      SortedUnique(leq, a[..n], b[..n]);
      assert a == a[..n] + [a[n]] && b == b[..n] + [b[n]];
    }
  }

  /** A function applied to every element. */
  function Image<A, B>(a: seq<A>, f: A -> B): (r: seq<B>)
    ensures |r| == |a|
  {
    seq(|a|, i requires 0 <= i < |a| => f(a[i]))
  }

  lemma {:induction false} ImageIgnoresOrder<A, B>(a: seq<A>, b: seq<A>, f: A -> B)
    requires multiset(a) == multiset(b)
    ensures multiset(Image(a, f)) == multiset(Image(b, f))
  {
    if a == [] {
      assert |multiset(b)| == 0;
    } else {
      var i := Match(a, b);
      ImageIgnoresOrder(a[..|a| - 1], b[..i] + b[i + 1..], f);
      ImageWithoutOne(b, i, f);
      assert Image(a, f) == Image(a[..|a| - 1], f) + [f(a[|a| - 1])];
    }
  }

  lemma ImageWithoutOne<A, B>(a: seq<A>, i: nat, f: A -> B)
    requires i < |a|
    ensures multiset(Image(a, f)) == multiset(Image(a[..i] + a[i + 1..], f)) + multiset{f(a[i])}
  {
    var all := Image(a, f);
    assert all == all[..i] + [f(a[i])] + all[i + 1..];
    assert Image(a[..i] + a[i + 1..], f) == all[..i] + all[i + 1..];
  }

  lemma InsertAtEnd<T>(leq: (T, T) -> bool, list: seq<T>, x: T)
    requires list == [] || leq(list[|list| - 1], x)
    ensures Insert(leq, list, x) == list + [x]
  {}

  /** A sorted list is left as it is. */
  lemma {:induction false} SortFixes<T>(leq: (T, T) -> bool, list: seq<T>)
    requires SortedBy(leq, list)
    ensures Sort(leq, list) == list
  {
    if list != [] {
      var n := |list| - 1;
      var front := list[..n];
      SortFixes(leq, front);
      assert n > 0 ==> front[n - 1] == list[n - 1];
      InsertAtEnd(leq, front, list[n]);
      assert list == front + [list[n]];
    }
  }

  /** Text order by code points. */
  predicate TextAtMost(a: string, b: string) {
    a == "" || (b != "" && (a[0] < b[0] || (a[0] == b[0] && TextAtMost(a[1..], b[1..]))))
  }

  lemma {:induction false} TextTotal(a: string, b: string)
    ensures TextAtMost(a, b) || TextAtMost(b, a)
    ensures TextAtMost(a, b) && TextAtMost(b, a) ==> a == b
    decreases |a|
  {
    if a != "" && b != "" && a[0] == b[0] {
      TextTotal(a[1..], b[1..]);
      assert a == [a[0]] + a[1..] && b == [b[0]] + b[1..];
    }
  }

  lemma {:induction false} TextTransitive(a: string, b: string, c: string)
    requires TextAtMost(a, b) && TextAtMost(b, c)
    ensures TextAtMost(a, c)
    decreases |a|
  {
    if a != "" && a[0] == b[0] == c[0] { TextTransitive(a[1..], b[1..], c[1..]); }
  }

  // ---- Lists without repetition ----

  ghost predicate Distinct<T>(list: seq<T>) {
    forall i, j :: 0 <= i < j < |list| ==> list[i] != list[j]
  }

  lemma {:induction false} DistinctCounts<T(!new)>(list: seq<T>)
    ensures Distinct(list) <==> forall x :: multiset(list)[x] <= 1
  {
    if list != [] {
      var n := |list| - 1;
      DistinctCounts(list[..n]);
      assert list == list[..n] + [list[n]];
      assert list[n] in list[..n] <==> list[n] in multiset(list[..n]);
      if Distinct(list) {
        assert list[n] !in list[..n];
      } else if Distinct(list[..n]) {
        assert list[n] in list[..n];
        assert multiset(list)[list[n]] >= 2;
      } else {
        var x :| multiset(list[..n])[x] > 1;
        assert multiset(list)[x] > 1;
      }
    }
  }

  lemma DistinctSorted(list: seq<string>)
    requires Distinct(list)
    ensures Distinct(Sort(TextAtMost, list))
  {
    DistinctCounts(list);
    DistinctCounts(Sort(TextAtMost, list));
  }

  /** The first occurrences, in order. */
  function Unique<T(==, !new)>(list: seq<T>): (r: seq<T>)
    ensures Distinct(r) && forall x :: x in r <==> x in list
  {
    if list == [] then []
    else
      var front, last := list[..|list| - 1], list[|list| - 1];
      assert list == front + [last];
      if last in front then Unique(front) else Unique(front) + [last]
  }

  /** Every occurrence of an element comes after one of each element that is kept before it. */
  lemma {:induction false} UniqueKeepsOrder<T(!new)>(list: seq<T>, i: nat, j: nat, m: nat)
    requires i < j < |Unique(list)| && m < |list| && list[m] == Unique(list)[j]
    ensures exists k :: 0 <= k < m && list[k] == Unique(list)[i]
  {
    var n := |list| - 1;
    var front := list[..n];
    assert Unique(list)[i] in Unique(front) by {
      assert i < |Unique(front)| && Unique(list)[i] == Unique(front)[i];
    }
    if m == n {
      var k :| 0 <= k < |front| && front[k] == Unique(list)[i];
      assert list[k] == Unique(list)[i];
    } else {
      assert front[m] == list[m] && list[m] in front;
      UniqueKeepsOrder(front, i, j, m);
      var k :| 0 <= k < m && front[k] == Unique(front)[i];
      assert list[k] == Unique(list)[i];
    }
  }
}
