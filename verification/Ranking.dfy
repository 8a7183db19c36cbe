/** `sort((a, b) => b.score - a.score)` on an array: the stable descending order. */
module Ranking {
  import opened Seqs

  /** x goes behind everything that scores at least as high. */
  function Insert<T>(s: seq<T>, x: T, score: T -> real): seq<T> {
    if s == [] then [x]
    else if score(s[|s| - 1]) >= score(x) then s + [x]
    else Insert(s[..|s| - 1], x, score) + [s[|s| - 1]]
  }

  function SortDescending<T>(s: seq<T>, score: T -> real): seq<T> {
    if s == [] then [] else Insert(SortDescending(s[..|s| - 1], score), s[|s| - 1], score)
  }

  function Take<T>(s: seq<T>, k: nat): seq<T> {
    if k <= |s| then s[..k] else s
  }

  predicate Descending<T>(s: seq<T>, score: T -> real) {
    forall i, j :: 0 <= i < j < |s| ==> score(s[i]) >= score(s[j])
  }

  function Scoring<T>(v: real, score: T -> real): T -> bool {
    (x: T) => score(x) == v
  }

  lemma {:induction false} InsertKeepsElements<T>(s: seq<T>, x: T, score: T -> real)
    ensures multiset(Insert(s, x, score)) == multiset(s) + multiset{x}
    ensures |Insert(s, x, score)| == |s| + 1
  {
    if s != [] && score(s[|s| - 1]) < score(x) {
      InsertKeepsElements(s[..|s| - 1], x, score);
      LastApart(s);
    }
  }

  lemma {:induction false} InsertStaysAbove<T>(s: seq<T>, x: T, score: T -> real, v: real)
    requires score(x) >= v && forall i :: 0 <= i < |s| ==> score(s[i]) >= v
    ensures forall i :: 0 <= i < |Insert(s, x, score)| ==> score(Insert(s, x, score)[i]) >= v
  {
    if s != [] && score(s[|s| - 1]) < score(x) {
      InsertStaysAbove(s[..|s| - 1], x, score, v);
    }
  }

  lemma DescendingAppend<T>(s: seq<T>, x: T, score: T -> real)
    requires Descending(s, score) && forall i :: 0 <= i < |s| ==> score(s[i]) >= score(x)
    ensures Descending(s + [x], score)
  {
  }

  lemma {:induction false} InsertSorts<T>(s: seq<T>, x: T, score: T -> real)
    requires Descending(s, score)
    ensures Descending(Insert(s, x, score), score)
  {
    if s != [] && score(s[|s| - 1]) < score(x) {
      var n := |s| - 1;
      InsertSorts(s[..n], x, score);
      InsertStaysAbove(s[..n], x, score, score(s[n]));
      DescendingAppend(Insert(s[..n], x, score), s[n], score);
    } else if s != [] {
      forall i | 0 <= i < |s|
        ensures score(s[i]) >= score(x)
      {
        assert score(s[i]) >= score(s[|s| - 1]);
      }
      DescendingAppend(s, x, score);
    }
  }

  lemma {:induction false} SortKeepsElements<T>(s: seq<T>, score: T -> real)
    ensures multiset(SortDescending(s, score)) == multiset(s)
    ensures |SortDescending(s, score)| == |s|
  {
    if s != [] {
      var n := |s| - 1;
      SortKeepsElements(s[..n], score);
      InsertKeepsElements(SortDescending(s[..n], score), s[n], score);
      LastApart(s);
    }
  }

  lemma {:induction false} SortOrders<T>(s: seq<T>, score: T -> real)
    ensures Descending(SortDescending(s, score), score)
  {
    if s != [] {
      SortOrders(s[..|s| - 1], score);
      InsertSorts(SortDescending(s[..|s| - 1], score), s[|s| - 1], score);
    }
  }

  lemma SortSorts<T>(s: seq<T>, score: T -> real)
    ensures multiset(SortDescending(s, score)) == multiset(s)
    ensures |SortDescending(s, score)| == |s|
    ensures Descending(SortDescending(s, score), score)
  {
    SortKeepsElements(s, score);
    SortOrders(s, score);
  }

  lemma {:induction false} InsertIsStable<T>(s: seq<T>, x: T, score: T -> real, v: real)
    requires Descending(s, score)
    ensures Filter(Insert(s, x, score), Scoring(v, score)) == Filter(s + [x], Scoring(v, score))
  {
    var p := Scoring(v, score);
    FilterAppend(s, x, p);
    if s != [] && score(s[|s| - 1]) < score(x) {
      var n := |s| - 1;
      InsertIsStable(s[..n], x, score, v);
      FilterAppend(s[..n], x, p);
      FilterAppend(Insert(s[..n], x, score), s[n], p);
    }
  }

  /** Among equals the sort keeps the original order; with SortSorts this determines the result. */
  lemma {:induction false} SortIsStable<T>(s: seq<T>, score: T -> real, v: real)
    ensures Filter(SortDescending(s, score), Scoring(v, score)) == Filter(s, Scoring(v, score))
  {
    if s != [] {
      var n := |s| - 1;
      SortIsStable(s[..n], score, v);
      SortSorts(s[..n], score);
      InsertIsStable(SortDescending(s[..n], score), s[n], score, v);
      FilterAppend(SortDescending(s[..n], score), s[n], Scoring(v, score));
    }
  }

  lemma SortKeepsMembers<T>(s: seq<T>, score: T -> real)
    ensures forall x | x in SortDescending(s, score) :: x in s
    ensures forall x | x in s :: x in SortDescending(s, score)
  {
    SortSorts(s, score);
    forall x | x in SortDescending(s, score) ensures x in s {
      assert x in multiset(SortDescending(s, score));
    }
    forall x | x in s ensures x in SortDescending(s, score) {
      assert x in multiset(s);
    }
  }

  /** The first k of the sorted sequence are a top-k: whatever is left out scores no higher. */
  lemma TakeIsTop<T>(s: seq<T>, score: T -> real, k: nat)
    ensures |Take(SortDescending(s, score), k)| == if k <= |s| then k else |s|
    ensures forall x, y | x in Take(SortDescending(s, score), k) && y in s ::
              y in Take(SortDescending(s, score), k) || score(x) >= score(y)
  {
    var sorted := SortDescending(s, score);
    SortSorts(s, score);
    SortKeepsMembers(s, score);
    forall x, y | x in Take(sorted, k) && y in s && y !in Take(sorted, k)
      ensures score(x) >= score(y)
    {
      var i :| 0 <= i < |Take(sorted, k)| && Take(sorted, k)[i] == x;
      var j :| 0 <= j < |sorted| && sorted[j] == y;
      assert j >= k;
    }
  }

  predicate DistinctBy<T>(s: seq<T>, key: T -> string) {
    forall i, j :: 0 <= i < j < |s| ==> key(s[i]) != key(s[j])
  }

  lemma {:induction false} InsertKeepsDistinct<T>(s: seq<T>, x: T, score: T -> real, key: T -> string)
    requires DistinctBy(s, key) && forall i :: 0 <= i < |s| ==> key(s[i]) != key(x)
    ensures DistinctBy(Insert(s, x, score), key)
    ensures forall y | y in Insert(s, x, score) :: y in s || y == x
  {
    if s != [] && score(s[|s| - 1]) < score(x) {
      var n := |s| - 1;
      var r := Insert(s[..n], x, score);
      InsertKeepsDistinct(s[..n], x, score, key);
      forall i | 0 <= i < |r|
        ensures key(r[i]) != key(s[n])
      {
        assert r[i] in r;
      }
    }
  }

  lemma {:induction false} SortKeepsDistinct<T>(s: seq<T>, score: T -> real, key: T -> string)
    requires DistinctBy(s, key)
    ensures DistinctBy(SortDescending(s, score), key)
    ensures forall y | y in SortDescending(s, score) :: y in s
  {
    if s != [] {
      var n := |s| - 1;
      SortKeepsDistinct(s[..n], score, key);
      var r := SortDescending(s[..n], score);
      forall i | 0 <= i < |r|
        ensures key(r[i]) != key(s[n])
      {
        assert r[i] in s[..n];
        var j :| 0 <= j < n && s[j] == r[i];
      }
      InsertKeepsDistinct(r, s[n], score, key);
    }
  }
}
