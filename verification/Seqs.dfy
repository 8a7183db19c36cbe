/** Options, and sums and filters over sequences: the vocabulary in which the
    other modules state counts, ledgers and windows. */
module Seqs {

  datatype Option<+T> = None | Some(value: T) {
    function GetOr(default: T): T {
      match this
      case Some(v) => v
      case None => default
    }
  }

  lemma FrontAndLast<T>(s: seq<T>)
    requires s != []
    ensures s == s[..|s| - 1] + [s[|s| - 1]]
  {
  }

  lemma FirstAndRest<T>(s: seq<T>)
    requires s != []
    ensures s == [s[0]] + s[1..]
  {
  }

  lemma ConcatFront<T>(a: seq<T>, b: seq<T>)
    requires b != []
    ensures (a + b)[..|a + b| - 1] == a + b[..|b| - 1] && (a + b)[|a + b| - 1] == b[|b| - 1]
  {
  }

  lemma SplitAround<T>(s: seq<T>, k: nat)
    requires k < |s|
    ensures s == s[..k] + ([s[k]] + s[k + 1..])
  {
  }

  lemma MiddleApart<T>(s: seq<T>, k: nat)
    requires k < |s|
    ensures multiset(s) == multiset(s[..k]) + multiset{s[k]} + multiset(s[k + 1..])
  {
    SplitAround(s, k);
  }

  lemma LastApart<T>(s: seq<T>)
    requires s != []
    ensures multiset(s) == multiset(s[..|s| - 1]) + multiset{s[|s| - 1]}
  {
    FrontAndLast(s);
  }

  lemma FirstApart<T>(s: seq<T>)
    requires s != []
    ensures multiset(s) == multiset{s[0]} + multiset(s[1..])
    ensures multiset(s[1..]) == multiset(s) - multiset{s[0]}
  {
    assert s == [s[0]] + s[1..];
  }

  /** The sum of f over s; with a 0/1 valued f, a count. */
  function Sum<T>(s: seq<T>, f: T -> int): int {
    if s == [] then 0 else Sum(s[..|s| - 1], f) + f(s[|s| - 1])
  }

  lemma SumAppend<T>(s: seq<T>, x: T, f: T -> int)
    ensures Sum(s + [x], f) == Sum(s, f) + f(x)
  {
    assert (s + [x])[..|s|] == s;
  }

  lemma {:induction false} SumUpdate<T>(s: seq<T>, i: nat, x: T, f: T -> int)
    requires i < |s|
    ensures Sum(s[i := x], f) == Sum(s, f) - f(s[i]) + f(x)
  {
    var n := |s| - 1;
    if i == n {
      assert s[i := x][..n] == s[..n];
    } else {
      assert s[i := x][..n] == s[..n][i := x];
      SumUpdate(s[..n], i, x, f);
    }
  }

  /** Element-wise agreement gives equal sums; element-wise order, ordered sums. */
  lemma {:induction false} SumMonotone<T, U>(s: seq<T>, f: T -> int, s': seq<U>, g: U -> int)
    requires |s| == |s'|
    requires forall i :: 0 <= i < |s| ==> f(s[i]) <= g(s'[i])
    ensures Sum(s, f) <= Sum(s', g)
  {
    if s != [] {
      var n := |s| - 1;
      assert forall i :: 0 <= i < n ==> s[..n][i] == s[i] && s'[..n][i] == s'[i];
      SumMonotone(s[..n], f, s'[..n], g);
    }
  }

  lemma SumEqual<T, U>(s: seq<T>, f: T -> int, s': seq<U>, g: U -> int)
    requires |s| == |s'|
    requires forall i :: 0 <= i < |s| ==> f(s[i]) == g(s'[i])
    ensures Sum(s, f) == Sum(s', g)
  {
    SumMonotone(s, f, s', g);
    SumMonotone(s', g, s, f);
  }

  /** A sum of non-negative terms is at least each of its terms. */
  lemma {:induction false} SumAtLeast<T>(s: seq<T>, f: T -> int, i: nat)
    requires i < |s|
    requires forall j :: 0 <= j < |s| ==> f(s[j]) >= 0
    ensures Sum(s, f) >= f(s[i])
  {
    SumUpdate(s, i, s[i], f);
    SumNonNegative(s[..i], f);
    SumSplit(s, i, f);
    SumSplit(s[i..], 1, f);
    SumNonNegative(s[i..][1..], f);
    assert s[i..][..1] == [s[i]];
    assert Sum([s[i]], f) == f(s[i]) by { SumAppend([], s[i], f); assert [] + [s[i]] == [s[i]]; }
  }

  /** Two different non-negative terms together stay below the sum. */
  lemma SumAtLeastTwo<T>(s: seq<T>, f: T -> int, i: nat, j: nat)
    requires i < j < |s|
    requires forall k :: 0 <= k < |s| ==> f(s[k]) >= 0
    ensures Sum(s, f) >= f(s[i]) + f(s[j])
  {
    SumSplit(s, j, f);
    SumAtLeast(s[..j], f, i);
    SumAtLeast(s[j..], f, 0);
  }

  lemma {:induction false} SumNonNegative<T>(s: seq<T>, f: T -> int)
    requires forall j :: 0 <= j < |s| ==> f(s[j]) >= 0
    ensures Sum(s, f) >= 0
  {
    if s != [] {
      var n := |s| - 1;
      assert forall j :: 0 <= j < n ==> s[..n][j] == s[j];
      SumNonNegative(s[..n], f);
    }
  }

  lemma {:induction false} SumZero<T>(s: seq<T>, f: T -> int)
    requires forall j :: 0 <= j < |s| ==> f(s[j]) == 0
    ensures Sum(s, f) == 0
  {
    if s != [] {
      var n := |s| - 1;
      assert forall j :: 0 <= j < n ==> s[..n][j] == s[j];
      SumZero(s[..n], f);
    }
  }

  lemma {:induction false} SumSplit<T>(s: seq<T>, i: nat, f: T -> int)
    requires i <= |s|
    ensures Sum(s, f) == Sum(s[..i], f) + Sum(s[i..], f)
  {
    if i == |s| {
      assert s[..i] == s;
    } else {
      var n := |s| - 1;
      SumSplit(s[..n], i, f);
      assert s[..n][..i] == s[..i];
      assert s[..n][i..] == s[i..][..|s| - i - 1];
    }
  }

  /** A longer sequence whose extra terms are zero has the same sum. */
  lemma SumExtend<T>(s: seq<T>, s': seq<T>, f: T -> int)
    requires |s| <= |s'|
    requires forall i :: 0 <= i < |s| ==> f(s'[i]) == f(s[i])
    requires forall i :: |s| <= i < |s'| ==> f(s'[i]) == 0
    ensures Sum(s', f) == Sum(s, f)
  {
    SumSplit(s', |s|, f);
    SumZero(s'[|s|..], f);
    SumEqual(s, f, s'[..|s|], f);
  }

  /** The elements of s that satisfy p, in order. */
  function Filter<T>(s: seq<T>, p: T -> bool): (r: seq<T>)
    ensures |r| <= |s|
    ensures forall x | x in r :: x in s && p(x)
    ensures forall x | x in s && p(x) :: x in r
  {
    if s == [] then []
    else
      var rest := Filter(s[..|s| - 1], p);
      if p(s[|s| - 1]) then rest + [s[|s| - 1]] else rest
  }

  lemma FilterAppend<T>(s: seq<T>, x: T, p: T -> bool)
    ensures Filter(s + [x], p) == if p(x) then Filter(s, p) + [x] else Filter(s, p)
  {
    assert (s + [x])[..|s|] == s;
  }

  /** Filtering away elements on which f is zero leaves the sum of f unchanged. */
  lemma {:induction false} SumFilter<T>(s: seq<T>, p: T -> bool, f: T -> int)
    requires forall i :: 0 <= i < |s| && !p(s[i]) ==> f(s[i]) == 0
    ensures Sum(Filter(s, p), f) == Sum(s, f)
  {
    if s != [] {
      var n := |s| - 1;
      SumFilter(s[..n], p, f);
      if p(s[n]) {
        SumAppend(Filter(s[..n], p), s[n], f);
      }
    }
  }
}
