/** memory/scoring.ts over the reals: similarity, goal relevance, decay and their bounds.
    The square root and the exponential enter as values characterised by what the proofs need. */
module Scoring {
  import opened Seqs

  // ---------------------------------------------------------------- cosine similarity

  function Dot(a: seq<real>, b: seq<real>): real
    requires |a| == |b|
  {
    if a == [] then 0.0
    else Dot(a[..|a| - 1], b[..|b| - 1]) + a[|a| - 1] * b[|b| - 1]
  }

  function SumOfSquares(v: seq<real>): real {
    Dot(v, v)
  }

  /** n is the Euclidean norm of v. */
  predicate IsNorm(n: real, v: seq<real>) {
    n >= 0.0 && n * n == SumOfSquares(v)
  }

  function Cosine(a: seq<real>, b: seq<real>, normA: real, normB: real): real
    requires |a| == |b|
  {
    if normA * normB == 0.0 then 0.0 else Dot(a, b) / (normA * normB)
  }

  /** x times the norms is the sum of the products of the coordinates, and 0 if a norm is. */
  predicate IsCosine(x: real, a: seq<real>, b: seq<real>, normA: real, normB: real) {
    |a| == |b| && if normA * normB == 0.0 then x == 0.0 else x * (normA * normB) == Dot(a, b)
  }

  lemma CosineIsCosine(a: seq<real>, b: seq<real>, normA: real, normB: real)
    requires |a| == |b|
    ensures IsCosine(Cosine(a, b, normA, normB), a, b, normA, normB)
  {
    if normA * normB != 0.0 {
      QuotientTimes(Dot(a, b), normA * normB);
    }
  }

  /** None where the source throws. */
  method CosineSimilarity(a: seq<real>, b: seq<real>, normA: real, normB: real) returns (r: Option<real>)
    ensures r == if |a| == |b| then Some(Cosine(a, b, normA, normB)) else None
    ensures if |a| == |b| then r.Some? && IsCosine(r.value, a, b, normA, normB) else r.None?
  {
    if |a| != |b| {
      return None;
    }
    var denominator := normA * normB;
    if denominator == 0.0 {
      return Some(0.0);
    }
    var dot := 0.0;
    for i := 0 to |a|
      invariant dot == Dot(a[..i], b[..i])
    {
      assert a[..i + 1][..i] == a[..i] && b[..i + 1][..i] == b[..i];
      dot := dot + a[i] * b[i];
    }
    assert a[..|a|] == a && b[..|b|] == b;
    CosineIsCosine(a, b, normA, normB);
    return Some(dot / denominator);
  }

  lemma QuotientTimes(x: real, y: real)
    requires y != 0.0
    ensures (x / y) * y == x
  {
  }

  lemma {:induction false} SquaresNonNegative(v: seq<real>)
    ensures SumOfSquares(v) >= 0.0
  {
    if v != [] {
      SquaresNonNegative(v[..|v| - 1]);
    }
  }

  lemma SquareOfSum(a: real, b: real)
    ensures (a + b) * (a + b) == a * a + 2.0 * (a * b) + b * b
  {
    assert (a + b) * (a + b) == (a + b) * a + (a + b) * b;
  }

  lemma ProductOfSums(p: real, a: real, q: real, b: real)
    ensures (p + a) * (q + b) == p * q + p * b + q * a + a * b
  {
    assert (p + a) * (q + b) == (p + a) * q + (p + a) * b;
  }

  lemma Swap(a: real, b: real, c: real, d: real)
    ensures (a * b) * (c * d) == (a * c) * (b * d)
  {
    assert (a * b) * (c * d) == a * (b * (c * d)) == a * (c * (b * d)) == (a * c) * (b * d);
  }

  lemma SquareNonNegative(x: real)
    ensures x * x >= 0.0
  {
  }

  lemma ProductNonNegative(a: real, b: real)
    requires a >= 0.0 && b >= 0.0
    ensures a * b >= 0.0
  {
  }

  lemma Scale(a: real, b: real, s: real)
    requires a <= b && s >= 0.0
    ensures a * s <= b * s
  {
    assert (b - a) * s >= 0.0;
    assert (b - a) * s == b * s - a * s;
  }

  lemma ProductPositive(a: real, b: real)
    requires a > 0.0 && b > 0.0
    ensures a * b > 0.0
  {
  }

  lemma DifferenceOfSquares(a: real, b: real)
    ensures (b - a) * (b + a) == b * b - a * a
  {
    assert (b - a) * (b + a) == (b - a) * b + (b - a) * a;
  }

  lemma SquareMonotone(a: real, b: real)
    requires 0.0 <= a < b
    ensures a * a < b * b
  {
    ProductPositive(b - a, b + a);
    DifferenceOfSquares(a, b);
  }

  /** 2 w <= u + v whenever w squared is at most u v. */
  lemma ArithmeticGeometric(w: real, u: real, v: real)
    requires u >= 0.0 && v >= 0.0 && w * w <= u * v
    ensures 2.0 * w <= u + v
  {
    if 2.0 * w > u + v {
      SquareMonotone(u + v, 2.0 * w);
      Swap(2.0, w, 2.0, w);
      SquareOfSum(u, v);
      SquareOfSum(u, -v);
      SquareNonNegative(u + -v);
      Negate(u, v);
    }
  }

  lemma Negate(u: real, v: real)
    ensures u * -v == -(u * v) && -v * -v == v * v
  {
  }

  /** The cross term is below the mean of the other two. */
  lemma CrossTerm(d: real, p: real, q: real, s: real, a: real, b: real)
    requires p >= 0.0 && q >= 0.0 && d * d <= p * q && a >= 0.0 && b >= 0.0 && s * s == a * b
    ensures 2.0 * (d * s) <= p * b + q * a
  {
    Swap(d, s, d, s);
    Swap(p, b, q, a);
    SquareNonNegative(s);
    Scale(d * d, p * q, s * s);
    ProductNonNegative(p, b);
    ProductNonNegative(q, a);
    ArithmeticGeometric(d * s, p * b, q * a);
  }

  /** One more coordinate keeps the Cauchy-Schwarz inequality. */
  lemma CauchySchwarzStep(d: real, p: real, q: real, x: real, y: real)
    requires p >= 0.0 && q >= 0.0 && d * d <= p * q
    ensures (d + x * y) * (d + x * y) <= (p + x * x) * (q + y * y)
  {
    Swap(x, y, x, y);
    SquareNonNegative(x);
    SquareNonNegative(y);
    SquareOfSum(d, x * y);
    ProductOfSums(p, x * x, q, y * y);
    CrossTerm(d, p, q, x * y, x * x, y * y);
  }

  lemma {:induction false} CauchySchwarz(a: seq<real>, b: seq<real>)
    requires |a| == |b|
    ensures Dot(a, b) * Dot(a, b) <= SumOfSquares(a) * SumOfSquares(b)
  {
    if a != [] {
      var n := |a| - 1;
      CauchySchwarz(a[..n], b[..n]);
      SquaresNonNegative(a[..n]);
      SquaresNonNegative(b[..n]);
      CauchySchwarzStep(Dot(a[..n], b[..n]), SumOfSquares(a[..n]), SumOfSquares(b[..n]), a[n], b[n]);
    }
  }

  lemma CosineIsBounded(a: seq<real>, b: seq<real>, normA: real, normB: real)
    requires |a| == |b| && IsNorm(normA, a) && IsNorm(normB, b)
    ensures -1.0 <= Cosine(a, b, normA, normB) <= 1.0
  {
    var m, d := normA * normB, Dot(a, b);
    if m != 0.0 {
      CauchySchwarz(a, b);
      assert m > 0.0;
      Swap(normA, normB, normA, normB);
      if d > m {
        SquareMonotone(m, d);
      }
      if d < -m {
        SquareMonotone(m, -d);
      }
      QuotientBound(d, m);
    }
  }

  lemma QuotientBound(d: real, m: real)
    requires m > 0.0 && -m <= d <= m
    ensures -1.0 <= d / m <= 1.0
  {
  }

  // ---------------------------------------------------------------- what the similarity tells

  /** With DotConcat this says that Dot is the sum of the products of the coordinates. */
  lemma DotOfSingle(x: real, y: real)
    ensures Dot([x], [y]) == x * y && Dot([], []) == 0.0
  {
    assert [x][..0] == [] && [y][..0] == [];
    assert Dot([x][..0], [y][..0]) == 0.0;
  }

  lemma {:induction false} DotConcat(a: seq<real>, b: seq<real>, c: seq<real>, d: seq<real>)
    requires |a| == |b| && |c| == |d|
    ensures Dot(a + c, b + d) == Dot(a, b) + Dot(c, d)
    decreases |c|
  {
    if c == [] {
      assert a + c == a && b + d == b;
    } else {
      var n := |c| - 1;
      assert (a + c)[..|a| + n] == a + c[..n] && (b + d)[..|b| + n] == b + d[..n];
      DotConcat(a, b, c[..n], d[..n]);
    }
  }

  function Scaled(k: real, v: seq<real>): seq<real> {
    seq(|v|, i requires 0 <= i < |v| => k * v[i])
  }

  lemma ScaledFront(k: real, v: seq<real>)
    requires v != []
    ensures Scaled(k, v)[..|v| - 1] == Scaled(k, v[..|v| - 1])
  {
    var n := |v| - 1;
    forall i | 0 <= i < n
      ensures Scaled(k, v)[..n][i] == Scaled(k, v[..n])[i]
    {
      assert v[..n][i] == v[i];
    }
  }

  lemma Associate(k: real, x: real, y: real)
    ensures (k * x) * y == k * (x * y)
  {
  }

  lemma Distribute(k: real, x: real, y: real)
    ensures k * (x + y) == k * x + k * y
  {
  }

  lemma {:induction false} DotScaled(k: real, a: seq<real>, b: seq<real>)
    requires |a| == |b|
    ensures Dot(Scaled(k, a), b) == k * Dot(a, b)
  {
    if a != [] {
      var n := |a| - 1;
      ScaledFront(k, a);
      DotScaled(k, a[..n], b[..n]);
      Associate(k, a[n], b[n]);
      Distribute(k, Dot(a[..n], b[..n]), a[n] * b[n]);
    }
  }

  lemma {:induction false} DotIsSymmetric(a: seq<real>, b: seq<real>)
    requires |a| == |b|
    ensures Dot(a, b) == Dot(b, a)
  {
    if a != [] {
      DotIsSymmetric(a[..|a| - 1], b[..|b| - 1]);
    }
  }

  lemma ScaledNorm(k: real, v: seq<real>, n: real)
    requires IsNorm(n, v) && k >= 0.0
    ensures IsNorm(k * n, Scaled(k, v))
  {
    DotScaled(k, v, Scaled(k, v));
    DotIsSymmetric(v, Scaled(k, v));
    DotScaled(k, v, v);
    Swap(k, n, k, n);
    Associate(k, k, SumOfSquares(v));
    ProductNonNegative(k, n);
  }

  lemma NormIsUnique(m: real, n: real, v: seq<real>)
    requires IsNorm(m, v) && IsNorm(n, v)
    ensures m == n
  {
    if m < n {
      SquareMonotone(m, n);
    }
    if n < m {
      SquareMonotone(n, m);
    }
  }

  lemma FullSimilarity(a: seq<real>, b: seq<real>, n: real, m: real)
    requires |a| == |b| && n * m > 0.0
    ensures Dot(a, b) == n * m ==> Cosine(a, b, n, m) == 1.0
    ensures Dot(a, b) == -(n * m) ==> Cosine(a, b, n, m) == -1.0
  {
    QuotientIs(n * m, n * m, 1.0);
    QuotientIs(-(n * m), n * m, -1.0);
  }

  lemma QuotientIs(x: real, y: real, q: real)
    requires y != 0.0 && x == q * y
    ensures x / y == q
  {
  }

  lemma SignedProduct(k: real, n: real, m: real)
    requires k != 0.0 && m == (if k > 0.0 then k else -k) * n
    ensures k * (n * n) == if k > 0.0 then n * m else -(n * m)
  {
    var size := if k > 0.0 then k else -k;
    Associate(size, n, n);
    assert n * m == size * (n * n);
  }

  /** A vector that is not null is as similar as can be to every positive multiple of itself, and as
      dissimilar as can be to every negative one. */
  lemma DirectionDecides(v: seq<real>, n: real, k: real, m: real)
    requires IsNorm(n, v) && n > 0.0 && k != 0.0 && IsNorm(m, Scaled(k, v))
    ensures Cosine(v, Scaled(k, v), n, m) == if k > 0.0 then 1.0 else -1.0
  {
    var size := if k > 0.0 then k else -k;
    DotScaled(k, v, v);
    DotIsSymmetric(v, Scaled(k, v));
    ScaledNorm(size, v, n);
    if k < 0.0 {
      SameSquares(size, v);
      assert Scaled(-size, v) == Scaled(k, v);
    }
    NormIsUnique(m, size * n, Scaled(k, v));
    ProductPositive(size, n);
    ProductPositive(n, m);
    SignedProduct(k, n, m);
    FullSimilarity(v, Scaled(k, v), n, m);
  }

  lemma SameSquares(k: real, v: seq<real>)
    ensures SumOfSquares(Scaled(-k, v)) == SumOfSquares(Scaled(k, v))
  {
    DotScaled(-k, v, Scaled(-k, v));
    DotIsSymmetric(v, Scaled(-k, v));
    DotScaled(-k, v, v);
    DotScaled(k, v, Scaled(k, v));
    DotIsSymmetric(v, Scaled(k, v));
    DotScaled(k, v, v);
    Negate(k, k);
    Associate(k, k, SumOfSquares(v));
    Associate(-k, -k, SumOfSquares(v));
  }

  // ---------------------------------------------------------------- decay, relevance, aggregate

  /** timeDecayScore, given what Math.exp returned. */
  function ClampDecay(exp: real): (r: real)
    ensures 0.0 <= r <= 1.0
    ensures 0.0 <= exp <= 1.0 ==> r == exp
    ensures exp > 1.0 ==> r == 1.0
    ensures exp < 0.0 ==> r == 0.0
  {
    var atLeastZero := if exp > 0.0 then exp else 0.0;
    if atLeastZero < 1.0 then atLeastZero else 1.0
  }

  function GoalScore(tokens: set<string>, goal: set<string>): real {
    |goal * tokens| as real / (if |goal| >= 1 then |goal| else 1) as real
  }

  lemma GoalScoreIsBounded(tokens: set<string>, goal: set<string>)
    ensures 0.0 <= GoalScore(tokens, goal) <= 1.0
  {
    var n := if |goal| >= 1 then |goal| else 1;
    assert goal * tokens <= goal;
    Subset(goal * tokens, goal);
    assert 0.0 <= |goal * tokens| as real <= n as real;
    QuotientBound(|goal * tokens| as real, n as real);
  }

  /** x is the share of the goal's tokens that are found; none of an empty goal is. */
  predicate IsShare(x: real, tokens: set<string>, goal: set<string>) {
    if goal == {} then x == 0.0 else x * |goal| as real == |goal * tokens| as real
  }

  lemma GoalScoreIsShare(tokens: set<string>, goal: set<string>)
    ensures IsShare(GoalScore(tokens, goal), tokens, goal)
  {
    if goal == {} {
      assert goal * tokens == {};
    } else {
      QuotientTimes(|goal * tokens| as real, |goal| as real);
    }
  }

  lemma {:induction false} Subset(a: set<string>, b: set<string>)
    requires a <= b
    ensures |a| <= |b|
    decreases a
  {
    if x :| x in a {
      Subset(a - {x}, b - {x});
    }
  }

  /** The best goal score; 0 without goals. The goals are given by their token sets. */
  function Relevance(text: string, tokens: set<string>, goals: seq<set<string>>): real {
    if text == "" || goals == [] then 0.0
    else
      var best := Relevance(text, tokens, goals[..|goals| - 1]);
      var score := GoalScore(tokens, goals[|goals| - 1]);
      if score > best then score else best
  }

  lemma OneMoreToken(seen: set<string>, token: string, tokens: set<string>)
    requires token !in seen
    ensures |(seen + {token}) * tokens| == |seen * tokens| + if token in tokens then 1 else 0
  {
    var common := seen * tokens;
    if token in tokens {
      assert (seen + {token}) * tokens == common + {token};
    } else {
      assert (seen + {token}) * tokens == common;
    }
  }

  method CountOverlap(goalTokens: set<string>, tokens: set<string>) returns (overlap: nat)
    ensures overlap == |goalTokens * tokens|
  {
    overlap := 0;
    var left := goalTokens;
    ghost var seen: set<string> := {};
    while left != {}
      invariant seen == goalTokens - left && left <= goalTokens
      invariant overlap == |seen * tokens|
      decreases left
    {
      var token :| token in left;
      OneMoreToken(seen, token, tokens);
      assert goalTokens - (left - {token}) == seen + {token};
      left := left - {token};
      seen := seen + {token};
      if token in tokens {
        overlap := overlap + 1;
      }
    }
    assert seen == goalTokens;
  }

  ghost predicate ShareIsAtMost(x: real, tokens: set<string>, goal: set<string>) {
    exists y :: IsShare(y, tokens, goal) && y <= x
  }

  /** x is the share of some goal's tokens, and no goal's share is larger. */
  ghost predicate IsBestShare(x: real, tokens: set<string>, goals: seq<set<string>>) {
    && (exists i :: 0 <= i < |goals| && IsShare(x, tokens, goals[i]))
    && (forall i :: 0 <= i < |goals| ==> ShareIsAtMost(x, tokens, goals[i]))
  }

  lemma ScoreBoundsShare(x: real, tokens: set<string>, goal: set<string>)
    requires GoalScore(tokens, goal) <= x
    ensures ShareIsAtMost(x, tokens, goal)
  {
    GoalScoreIsShare(tokens, goal);
  }

  lemma RelevanceIsBestShare(text: string, tokens: set<string>, goals: seq<set<string>>)
    requires text != "" && goals != []
    ensures IsBestShare(Relevance(text, tokens, goals), tokens, goals)
  {
    RelevanceIsBest(text, tokens, goals);
    var best := Relevance(text, tokens, goals);
    var k :| 0 <= k < |goals| && GoalScore(tokens, goals[k]) == best;
    GoalScoreIsShare(tokens, goals[k]);
    forall i | 0 <= i < |goals|
      ensures ShareIsAtMost(best, tokens, goals[i])
    {
      ScoreBoundsShare(best, tokens, goals[i]);
    }
  }

  method GoalRelevanceScore(text: string, tokens: set<string>, goals: seq<set<string>>) returns (best: real)
    ensures best == Relevance(text, tokens, goals)
    ensures text == "" || goals == [] ==> best == 0.0
    ensures text != "" && goals != [] ==> IsBestShare(best, tokens, goals)
  {
    best := 0.0;
    if text == "" || |goals| == 0 {
      return;
    }
    for i := 0 to |goals|
      invariant best == Relevance(text, tokens, goals[..i])
    {
      assert goals[..i + 1][..i] == goals[..i];
      var overlap := CountOverlap(goals[i], tokens);
      var score := overlap as real / (if |goals[i]| >= 1 then |goals[i]| else 1) as real;
      best := if score > best then score else best;
    }
    assert goals[..|goals|] == goals;
    RelevanceIsBestShare(text, tokens, goals);
  }

  lemma {:induction false} RelevanceIsBounded(text: string, tokens: set<string>, goals: seq<set<string>>)
    ensures 0.0 <= Relevance(text, tokens, goals) <= 1.0
  {
    if text != "" && goals != [] {
      RelevanceIsBounded(text, tokens, goals[..|goals| - 1]);
      GoalScoreIsBounded(tokens, goals[|goals| - 1]);
    }
  }

  /** The relevance of a text to some goals is the best of its scores for the single goals. */
  lemma {:induction false} RelevanceIsBest(text: string, tokens: set<string>, goals: seq<set<string>>)
    requires text != "" && goals != []
    ensures forall i :: 0 <= i < |goals| ==> GoalScore(tokens, goals[i]) <= Relevance(text, tokens, goals)
    ensures exists i :: 0 <= i < |goals| && GoalScore(tokens, goals[i]) == Relevance(text, tokens, goals)
  {
    var n := |goals| - 1;
    GoalScoreIsBounded(tokens, goals[n]);
    if n == 0 {
      assert goals[..0] == [];
      assert GoalScore(tokens, goals[0]) == Relevance(text, tokens, goals);
    } else {
      RelevanceIsBest(text, tokens, goals[..n]);
      var i :| 0 <= i < n && GoalScore(tokens, goals[..n][i]) == Relevance(text, tokens, goals[..n]);
      assert goals[..n][i] == goals[i];
      forall j | 0 <= j < n
        ensures GoalScore(tokens, goals[j]) <= Relevance(text, tokens, goals[..n])
      {
        assert goals[..n][j] == goals[j];
      }
    }
  }

  function Aggregate(similarity: real, decay: real, relevance: real): real {
    similarity * 0.6 + decay * 0.2 + relevance * 0.2
  }
}
