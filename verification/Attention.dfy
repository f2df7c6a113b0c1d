/**
 * Causal attention in two forms: two passes over a row of scores, and one pass
 * that rescales as its running maximum grows. Over the reals, for any positive
 * exponential that turns sums into products, they agree.
 */
module Attention {

  type Vector = seq<real>

  predicate Adds(e: real -> real, a: real, b: real) {
    e(a + b) == e(a) * e(b)
  }

  predicate Positive(e: real -> real, a: real) {
    e(a) > 0.0
  }

  ghost predicate Exponential(e: real -> real) {
    (forall a: real, b: real :: Adds(e, a, b)) && (forall a: real :: Positive(e, a))
  }

  // ----- what a row is -----

  function Dot(a: Vector, b: Vector, n: nat): real
    requires n <= |a| && n <= |b|
  {
    if n == 0 then 0.0 else Dot(a, b, n - 1) + a[n - 1] * b[n - 1]
  }

  /** The exponentials of the first `n` scores, summed. */
  function Mass(e: real -> real, scores: seq<real>, n: nat): real
    requires n <= |scores|
  {
    if n == 0 then 0.0 else Mass(e, scores, n - 1) + e(scores[n - 1])
  }

  /** And weighting a column of values. */
  function Weighted(e: real -> real, scores: seq<real>, column: seq<real>, n: nat): real
    requires n <= |scores| && n <= |column|
  {
    if n == 0 then 0.0 else Weighted(e, scores, column, n - 1) + e(scores[n - 1]) * column[n - 1]
  }

  /** One coordinate of every value. */
  function Column(values: seq<Vector>, d: nat): (column: seq<real>)
    requires forall i | 0 <= i < |values| :: d < |values[i]|
    ensures |column| == |values|
  {
    seq(|values|, i requires 0 <= i < |values| => values[i][d])
  }

  lemma {:induction false} MassPositive(e: real -> real, scores: seq<real>, n: nat)
    requires Exponential(e) && n <= |scores|
    ensures Mass(e, scores, n) >= 0.0 && (n > 0 ==> Mass(e, scores, n) > 0.0)
    decreases n
  {
    if n > 0 {
      MassPositive(e, scores, n - 1);
      assert Positive(e, scores[n - 1]);
    }
  }

  /** Softmax weighting of a column over a causal window. */
  function Softmax(e: real -> real, scores: seq<real>, column: seq<real>): real
    requires |scores| == |column| && Mass(e, scores, |scores|) != 0.0
  {
    Weighted(e, scores, column, |scores|) / Mass(e, scores, |scores|)
  }

  // ----- one pass -----

  /** Rescaling into a new maximum's frame and adding one term. */
  lemma Rescale(e: real -> real, top: real, next: real, s: real, x: real, v: real, m: real)
    requires Exponential(e) && x * e(top) == m
    ensures (x * e(top - next) + e(s - next) * v) * e(next) == m + e(s) * v
  {
    assert Adds(e, top - next, next) && (top - next) + next == top;
    assert Adds(e, s - next, next) && (s - next) + next == s;
    Distribute(x, e(top - next), e(s - next), v, e(next));
  }

  lemma Distribute(x: real, c: real, w: real, v: real, f: real)
    ensures (x * c + w * v) * f == x * (c * f) + (w * f) * v
  {
  }

  lemma FirstTerm(e: real -> real, s: real, v: real)
    requires Exponential(e)
    ensures (0.0 + e(s - s) * v) * e(s) == e(s) * v
  {
    assert Adds(e, s - s, s) && (s - s) + s == s;
    Distribute(0.0, 0.0, e(s - s), v, e(s));
  }

  lemma SameRatio(a: real, b: real, c: real)
    requires c > 0.0 && b * c > 0.0
    ensures b != 0.0 && a / b == (a * c) / (b * c)
  {
    var q := a / b;
    assert q * b == a;
    assert q * (b * c) == a * c;
  }

  /** A running value, seen from a common frame; none before the first key. */
  predicate Frames(e: real -> real, top: Peak, x: real, m: real) {
    match top
    case NoneYet => x == 0.0 && m == 0.0
    case Top(value) => x * e(value) == m
  }

  /** The running maximum. */
  datatype Peak = NoneYet | Top(value: real)

  function Raised(top: Peak, s: real): real {
    if top.NoneYet? || s > top.value then s else top.value
  }

  function Correction(e: real -> real, top: Peak, next: real): real {
    if top.NoneYet? then 0.0 else e(top.value - next)
  }

  /** Folding one key in keeps a running value framed. */
  lemma FoldIn(e: real -> real, top: Peak, s: real, x: real, v: real, m: real)
    requires Exponential(e) && Frames(e, top, x, m)
    ensures var next := Raised(top, s);
            Frames(e, Top(next), x * Correction(e, top, next) + e(s - next) * v, m + e(s) * v)
  {
    var next := Raised(top, s);
    match top
    case NoneYet => FirstTerm(e, s, v);
    case Top(value) => Rescale(e, value, next, s, x, v, m);
  }

  /** One query's row: keys visited once, in order, never holding the row of scores. */
  method StreamRow(e: real -> real, scores: seq<real>, values: seq<Vector>, dim: nat) returns (out: Vector)
    requires Exponential(e) && 0 < |scores| == |values| && forall i | 0 <= i < |values| :: |values[i]| == dim
    ensures |out| == dim && Mass(e, scores, |scores|) > 0.0
    ensures forall d | 0 <= d < dim :: out[d] == Softmax(e, scores, Column(values, d))
  {
    var top, sum := NoneYet, 0.0;
    var acc := seq(dim, _ => 0.0);
    for i := 0 to |scores|
      invariant |acc| == dim && (i > 0 ==> top.Top?) && Frames(e, top, sum, Mass(e, scores, i))
      invariant forall d | 0 <= d < dim :: Frames(e, top, acc[d], Weighted(e, scores, Column(values, d), i))
    {
      var next := Raised(top, scores[i]);
      var correction, weight := Correction(e, top, next), e(scores[i] - next);
      FoldIn(e, top, scores[i], sum, 1.0, Mass(e, scores, i));
      acc := FoldValues(e, top, scores, values, i, acc, correction, weight, next);
      sum := sum * correction + weight;
      top := Top(next);
    }
    out := Normalized(e, top.value, scores, values, sum, acc);
  }

  /** The accumulator over its normalizer. */
  method Normalized(e: real -> real, top: real, scores: seq<real>, values: seq<Vector>, sum: real, acc: Vector)
    returns (out: Vector)
    requires Exponential(e) && 0 < |scores| == |values| && forall i | 0 <= i < |values| :: |values[i]| == |acc|
    requires Frames(e, Top(top), sum, Mass(e, scores, |scores|))
    requires forall d | 0 <= d < |acc| :: Frames(e, Top(top), acc[d], Weighted(e, scores, Column(values, d), |scores|))
    ensures |out| == |acc| && Mass(e, scores, |scores|) > 0.0
    ensures forall d | 0 <= d < |acc| :: out[d] == Softmax(e, scores, Column(values, d))
  {
    MassPositive(e, scores, |scores|);
    assert Positive(e, top);
    SameRatio(0.0, sum, e(top));
    out := seq(|acc|, d requires 0 <= d < |acc| && sum != 0.0 => acc[d] / sum);
    forall d | 0 <= d < |acc|
      ensures out[d] == Softmax(e, scores, Column(values, d))
    {
      SameRatio(acc[d], sum, e(top));
    }
  }

  method FoldValues(e: real -> real, top: Peak, scores: seq<real>, values: seq<Vector>, i: nat, acc: Vector,
                    correction: real, weight: real, next: real) returns (acc': Vector)
    requires Exponential(e) && i < |scores| == |values| && forall j | 0 <= j < |values| :: |values[j]| == |acc|
    requires next == Raised(top, scores[i]) && correction == Correction(e, top, next) && weight == e(scores[i] - next)
    requires forall d | 0 <= d < |acc| :: Frames(e, top, acc[d], Weighted(e, scores, Column(values, d), i))
    ensures |acc'| == |acc|
    ensures forall d | 0 <= d < |acc| :: Frames(e, Top(next), acc'[d], Weighted(e, scores, Column(values, d), i + 1))
  {
    acc' := seq(|acc|, d requires 0 <= d < |acc| => acc[d] * correction + weight * values[i][d]);
    forall d | 0 <= d < |acc|
      ensures Frames(e, Top(next), acc'[d], Weighted(e, scores, Column(values, d), i + 1))
    {
      var column := Column(values, d);
      FoldIn(e, top, scores[i], acc[d], column[i], Weighted(e, scores, column, i));
    }
  }

  // ----- two passes -----

  function Highest(scores: seq<real>, n: nat): real
    requires 0 < n <= |scores|
  {
    if n == 1 then scores[0]
    else if scores[n - 1] > Highest(scores, n - 1) then scores[n - 1] else Highest(scores, n - 1)
  }

  /** A shifted exponential over the shifted mass is the plain one over the plain mass. */
  lemma ShiftedRatio(e: real -> real, s: real, top: real, sum: real, m: real)
    requires Exponential(e) && sum * e(top) == m && m > 0.0
    ensures sum != 0.0 && e(s - top) / sum == e(s) / m
  {
    assert Positive(e, top) && Adds(e, s - top, top) && (s - top) + top == s;
    SameRatio(e(s - top), sum, e(top));
  }

  lemma AddRatio(a: real, w: real, v: real, m: real)
    requires m > 0.0
    ensures a / m + (w / m) * v == (a + w * v) / m
  {
    var p, q := a / m, w / m;
    assert p * m == a && q * m == w;
    assert (p + q * v) * m == a + w * v;
  }

  /** One query's row: the scores' softmax first, then the weighted values. */
  method NaiveRow(e: real -> real, scores: seq<real>, values: seq<Vector>, dim: nat) returns (out: Vector)
    requires Exponential(e) && 0 < |scores| == |values| && forall i | 0 <= i < |values| :: |values[i]| == dim
    ensures |out| == dim && Mass(e, scores, |scores|) > 0.0
    ensures forall d | 0 <= d < dim :: out[d] == Softmax(e, scores, Column(values, d))
  {
    var weights := NaiveWeights(e, scores);
    out := WeightedSum(e, scores, values, dim, weights, Mass(e, scores, |scores|));
  }

  /** The values under their weights, one key at a time. */
  method WeightedSum(e: real -> real, scores: seq<real>, values: seq<Vector>, dim: nat, weights: seq<real>,
                     ghost mass: real) returns (out: Vector)
    requires |weights| == |scores| == |values| && mass > 0.0
    requires forall i | 0 <= i < |values| :: |values[i]| == dim
    requires forall i | 0 <= i < |scores| :: IsShare(weights[i], e(scores[i]), mass)
    ensures |out| == dim
    ensures forall d | 0 <= d < dim :: IsShare(out[d], Weighted(e, scores, Column(values, d), |scores|), mass)
  {
    out := seq(dim, _ => 0.0);
    NoShare(mass);
    for i := 0 to |scores|
      invariant |out| == dim
      invariant forall d | 0 <= d < dim :: IsShare(out[d], Weighted(e, scores, Column(values, d), i), mass)
    {
      out := AddWeighted(e, scores, values, i, out, weights[i], mass);
    }
  }

  lemma NoShare(m: real)
    requires m > 0.0
    ensures IsShare(0.0, 0.0, m)
  {
  }

  predicate IsShare(x: real, w: real, m: real) {
    m > 0.0 && x == w / m
  }

  method AddWeighted(e: real -> real, scores: seq<real>, values: seq<Vector>, i: nat, out: Vector, weight: real,
                     ghost mass: real) returns (out': Vector)
    requires i < |scores| == |values| && forall j | 0 <= j < |values| :: |values[j]| == |out|
    requires IsShare(weight, e(scores[i]), mass)
    requires forall d | 0 <= d < |out| :: IsShare(out[d], Weighted(e, scores, Column(values, d), i), mass)
    ensures |out'| == |out|
    ensures forall d | 0 <= d < |out| :: IsShare(out'[d], Weighted(e, scores, Column(values, d), i + 1), mass)
  {
    out' := seq(|out|, d requires 0 <= d < |out| => out[d] + weight * values[i][d]);
    forall d | 0 <= d < |out|
      ensures IsShare(out'[d], Weighted(e, scores, Column(values, d), i + 1), mass)
    {
      var column := Column(values, d);
      assert IsShare(out[d], Weighted(e, scores, column, i), mass);
      AddRatio(Weighted(e, scores, column, i), e(scores[i]), column[i], mass);
    }
  }

  /** Numerically stable softmax of a row of scores. */
  method NaiveWeights(e: real -> real, scores: seq<real>) returns (weights: seq<real>)
    requires Exponential(e) && 0 < |scores|
    ensures |weights| == |scores| && Mass(e, scores, |scores|) > 0.0
    ensures forall i | 0 <= i < |scores| :: IsShare(weights[i], e(scores[i]), Mass(e, scores, |scores|))
  {
    ghost var mass := Mass(e, scores, |scores|);
    MassPositive(e, scores, |scores|);
    var top := Highest(scores, |scores|);
    var shifted, sum := Shifted(e, scores, top);
    ShiftedRatio(e, top, top, sum, mass);
    weights := seq(|scores|, i requires 0 <= i < |scores| && sum != 0.0 => shifted[i] / sum);
    forall i | 0 <= i < |scores|
      ensures IsShare(weights[i], e(scores[i]), mass)
    {
      ShiftedRatio(e, scores[i], top, sum, mass);
    }
  }

  lemma AddShifted(e: real -> real, s: real, top: real, sum: real, m: real)
    requires Exponential(e) && sum * e(top) == m
    ensures (sum + e(s - top)) * e(top) == m + e(s)
  {
    assert Adds(e, s - top, top) && (s - top) + top == s;
  }

  /** The scores' exponentials, all shifted alike, and their sum. */
  method Shifted(e: real -> real, scores: seq<real>, top: real) returns (shifted: seq<real>, sum: real)
    requires Exponential(e)
    ensures |shifted| == |scores| && forall i | 0 <= i < |scores| :: shifted[i] == e(scores[i] - top)
    ensures sum * e(top) == Mass(e, scores, |scores|)
  {
    shifted, sum := [], 0.0;
    for i := 0 to |scores|
      invariant |shifted| == i && forall j | 0 <= j < i :: shifted[j] == e(scores[j] - top)
      invariant sum * e(top) == Mass(e, scores, i)
    {
      AddShifted(e, scores[i], top, sum, Mass(e, scores, i));
      shifted, sum := shifted + [e(scores[i] - top)], sum + e(scores[i] - top);
    }
  }

  // ----- whole matrices -----

  /** A query's scores over its causal window. */
  function Scores(q: seq<Vector>, k: seq<Vector>, scale: real, dim: nat, t: nat): (scores: seq<real>)
    requires t < |q| == |k| && (forall i | 0 <= i < |q| :: |q[i]| == dim) && forall i | 0 <= i < |k| :: |k[i]| == dim
    ensures |scores| == t + 1
  {
    seq(t + 1, i requires 0 <= i < t + 1 => Dot(q[t], k[i], dim) * scale)
  }

  predicate Shaped(m: seq<Vector>, n: nat, dim: nat) {
    |m| == n && forall i | 0 <= i < n :: |m[i]| == dim
  }

  ghost predicate Inputs(e: real -> real, q: seq<Vector>, k: seq<Vector>, v: seq<Vector>, dim: nat) {
    Exponential(e) && |q| > 0 && Shaped(q, |q|, dim) && Shaped(k, |q|, dim) && Shaped(v, |q|, dim)
  }

  /** Attention at one query and coordinate: only keys up to the query count. */
  ghost function AttendAt(e: real -> real, q: seq<Vector>, k: seq<Vector>, v: seq<Vector>, scale: real, dim: nat,
                          t: nat, d: nat): real
    requires Inputs(e, q, k, v, dim) && t < |q| && d < dim
  {
    var scores := Scores(q, k, scale, dim, t);
    MassPositive(e, scores, t + 1);
    Softmax(e, scores, Column(v[..t + 1], d))
  }

  ghost predicate RowIs(e: real -> real, q: seq<Vector>, k: seq<Vector>, v: seq<Vector>, scale: real, dim: nat,
                        t: nat, row: Vector)
    requires Inputs(e, q, k, v, dim) && t < |q|
  {
    |row| == dim && forall d | 0 <= d < dim :: row[d] == AttendAt(e, q, k, v, scale, dim, t, d)
  }

  ghost predicate IsAttention(e: real -> real, q: seq<Vector>, k: seq<Vector>, v: seq<Vector>, scale: real, dim: nat,
                              out: seq<Vector>)
    requires Inputs(e, q, k, v, dim)
  {
    |out| == |q| && forall t | 0 <= t < |q| :: RowIs(e, q, k, v, scale, dim, t, out[t])
  }

  method CausalNaive(e: real -> real, q: seq<Vector>, k: seq<Vector>, v: seq<Vector>, scale: real, dim: nat)
    returns (out: seq<Vector>)
    requires Inputs(e, q, k, v, dim)
    ensures IsAttention(e, q, k, v, scale, dim, out)
  {
    out := [];
    for t := 0 to |q|
      invariant |out| == t && forall i | 0 <= i < t :: RowIs(e, q, k, v, scale, dim, i, out[i])
    {
      var row := NaiveRow(e, Scores(q, k, scale, dim, t), v[..t + 1], dim);
      assert RowIs(e, q, k, v, scale, dim, t, row);
      out := out + [row];
    }
  }

  method CausalStreaming(e: real -> real, q: seq<Vector>, k: seq<Vector>, v: seq<Vector>, scale: real, dim: nat)
    returns (out: seq<Vector>)
    requires Inputs(e, q, k, v, dim)
    ensures IsAttention(e, q, k, v, scale, dim, out)
  {
    out := [];
    for t := 0 to |q|
      invariant |out| == t && forall i | 0 <= i < t :: RowIs(e, q, k, v, scale, dim, i, out[i])
    {
      var row := StreamRow(e, Scores(q, k, scale, dim, t), v[..t + 1], dim);
      assert RowIs(e, q, k, v, scale, dim, t, row);
      out := out + [row];
    }
  }

  /** There is one attention: the two forms give the same matrix. */
  lemma FormsAgree(e: real -> real, q: seq<Vector>, k: seq<Vector>, v: seq<Vector>, scale: real, dim: nat,
                   naive: seq<Vector>, streamed: seq<Vector>)
    requires Inputs(e, q, k, v, dim)
    requires IsAttention(e, q, k, v, scale, dim, naive) && IsAttention(e, q, k, v, scale, dim, streamed)
    ensures naive == streamed
  {
    forall t | 0 <= t < |q|
      ensures naive[t] == streamed[t]
    {
      assert RowIs(e, q, k, v, scale, dim, t, naive[t]) && RowIs(e, q, k, v, scale, dim, t, streamed[t]);
    }
  }

  /** Both forms of one attention, which come to the same matrix. */
  method BothForms(e: real -> real, q: seq<Vector>, k: seq<Vector>, v: seq<Vector>, scale: real, dim: nat)
    returns (naive: seq<Vector>, streamed: seq<Vector>)
    requires Inputs(e, q, k, v, dim)
    ensures naive == streamed && IsAttention(e, q, k, v, scale, dim, streamed)
  {
    naive := CausalNaive(e, q, k, v, scale, dim);
    streamed := CausalStreaming(e, q, k, v, scale, dim);
    FormsAgree(e, q, k, v, scale, dim, naive, streamed);
  }

  // ----- what an output is -----

  function Total(weights: seq<real>, n: nat): real
    requires n <= |weights|
  {
    if n == 0 then 0.0 else Total(weights, n - 1) + weights[n - 1]
  }

  /** The values of a column, mixed. */
  function Mix(weights: seq<real>, column: seq<real>, n: nat): real
    requires n <= |weights| && n <= |column|
  {
    if n == 0 then 0.0 else Mix(weights, column, n - 1) + weights[n - 1] * column[n - 1]
  }

  /** Weights of a convex combination. */
  ghost predicate Convex(weights: seq<real>) {
    (forall i | 0 <= i < |weights| :: weights[i] >= 0.0) && Total(weights, |weights|) == 1.0
  }

  /** Each score's share of the whole mass. */
  ghost predicate Shares(e: real -> real, scores: seq<real>, weights: seq<real>, mass: real) {
    |weights| == |scores| && forall i | 0 <= i < |scores| :: IsShare(weights[i], e(scores[i]), mass)
  }

  lemma {:induction false} SharesAddUp(e: real -> real, scores: seq<real>, weights: seq<real>, mass: real, n: nat)
    requires Shares(e, scores, weights, mass) && mass > 0.0 && n <= |scores|
    ensures IsShare(Total(weights, n), Mass(e, scores, n), mass)
    decreases n
  {
    if n == 0 {
      NoShare(mass);
    } else {
      SharesAddUp(e, scores, weights, mass, n - 1);
      AddRatio(Mass(e, scores, n - 1), e(scores[n - 1]), 1.0, mass);
    }
  }

  lemma {:induction false} SharesMix(e: real -> real, scores: seq<real>, weights: seq<real>, mass: real,
                                     column: seq<real>, n: nat)
    requires Shares(e, scores, weights, mass) && mass > 0.0 && n <= |scores| && n <= |column|
    ensures IsShare(Mix(weights, column, n), Weighted(e, scores, column, n), mass)
    decreases n
  {
    if n == 0 {
      NoShare(mass);
    } else {
      SharesMix(e, scores, weights, mass, column, n - 1);
      AddRatio(Weighted(e, scores, column, n - 1), e(scores[n - 1]), column[n - 1], mass);
    }
  }

  lemma ShareOfAll(m: real)
    requires m > 0.0
    ensures IsShare(1.0, m, m)
  {
  }

  lemma ShareNotNegative(x: real, w: real, m: real)
    requires IsShare(x, w, m) && w > 0.0
    ensures x >= 0.0
  {
  }

  function Quotients(e: real -> real, scores: seq<real>, mass: real): seq<real>
    requires mass > 0.0
  {
    seq(|scores|, i requires 0 <= i < |scores| => e(scores[i]) / mass)
  }

  /** One list of weights gives every coordinate of a softmax row: it lies in the hull of its values. */
  lemma SoftmaxInHull(e: real -> real, scores: seq<real>) returns (weights: seq<real>)
    requires Exponential(e) && 0 < |scores|
    ensures |weights| == |scores| && Convex(weights) && Mass(e, scores, |scores|) > 0.0
    ensures forall column: seq<real> | |column| == |scores| ::
              Softmax(e, scores, column) == Mix(weights, column, |scores|)
  {
    var n, mass := |scores|, Mass(e, scores, |scores|);
    MassPositive(e, scores, n);
    weights := Quotients(e, scores, mass);
    SharesAddUp(e, scores, weights, mass, n);
    ShareOfAll(mass);
    forall i | 0 <= i < n
      ensures weights[i] >= 0.0
    {
      assert Positive(e, scores[i]);
      ShareNotNegative(weights[i], e(scores[i]), mass);
    }
    forall column: seq<real> | |column| == n
      ensures Softmax(e, scores, column) == Mix(weights, column, n)
    {
      SharesMix(e, scores, weights, mass, column, n);
    }
  }

  /** Each output row is in the convex hull of the values its query may see. */
  lemma RowInHull(e: real -> real, q: seq<Vector>, k: seq<Vector>, v: seq<Vector>, scale: real, dim: nat,
                  out: seq<Vector>, t: nat) returns (weights: seq<real>)
    requires Inputs(e, q, k, v, dim) && IsAttention(e, q, k, v, scale, dim, out) && t < |q|
    ensures |weights| == t + 1 && Convex(weights) && |out| == |q| && |out[t]| == dim
    ensures forall d | 0 <= d < dim :: out[t][d] == Mix(weights, Column(v[..t + 1], d), t + 1)
  {
    assert RowIs(e, q, k, v, scale, dim, t, out[t]);
    weights := SoftmaxInHull(e, Scores(q, k, scale, dim, t));
  }
}
