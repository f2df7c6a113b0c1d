/**
 * What an attention matrix is, told without its scores: the inner product by what
 * determines it, and every output by its keys' exponentials.
 */
module AttentionLaws {
  import opened Attention

  // ----- the inner product -----

  function Plus(a: Vector, b: Vector): (r: Vector)
    requires |a| == |b|
    ensures |r| == |a| && forall i | 0 <= i < |a| :: r[i] == a[i] + b[i]
  {
    seq(|a|, i requires 0 <= i < |a| => a[i] + b[i])
  }

  function Times(c: real, a: Vector): (r: Vector)
    ensures |r| == |a| && forall i | 0 <= i < |a| :: r[i] == c * a[i]
  {
    seq(|a|, i requires 0 <= i < |a| => c * a[i])
  }

  function Unit(c: nat, dim: nat): (r: Vector)
    ensures |r| == dim && forall i | 0 <= i < dim :: r[i] == if i == c then 1.0 else 0.0
  {
    seq(dim, i => if i == c then 1.0 else 0.0)
  }

  ghost predicate Additive(ip: (Vector, Vector) -> real, a: Vector, b: Vector, k: Vector) {
    |a| == |b| ==> ip(Plus(a, b), k) == ip(a, k) + ip(b, k)
  }

  ghost predicate Homogeneous(ip: (Vector, Vector) -> real, c: real, a: Vector, k: Vector) {
    ip(Times(c, a), k) == c * ip(a, k)
  }

  ghost predicate PicksOut(ip: (Vector, Vector) -> real, c: nat, k: Vector) {
    c < |k| ==> ip(Unit(c, |k|), k) == k[c]
  }

  /** Linear, and on a unit vector that coordinate. */
  ghost predicate Inner(ip: (Vector, Vector) -> real, dim: nat) {
    && (forall a, b, k | |a| == |k| == dim :: Additive(ip, a, b, k))
    && (forall c, a, k | |a| == |k| == dim :: Homogeneous(ip, c, a, k))
    && forall c, k | |k| == dim :: PicksOut(ip, c, k)
  }

  /** The first coordinates of a vector, and nothing past them. */
  function Front(a: Vector, n: nat): (r: Vector)
    ensures |r| == |a| && forall i | 0 <= i < |a| :: r[i] == if i < n then a[i] else 0.0
  {
    seq(|a|, i requires 0 <= i < |a| => if i < n then a[i] else 0.0)
  }

  lemma {:induction false} FrontIsDot(ip: (Vector, Vector) -> real, a: Vector, k: Vector, dim: nat, n: nat)
    requires Inner(ip, dim) && |a| == |k| == dim && n <= dim
    ensures ip(Front(a, n), k) == Dot(a, k, n)
    decreases n
  {
    if n == 0 {
      assert Front(a, 0) == Times(0.0, a) && Homogeneous(ip, 0.0, a, k);
    } else {
      FrontIsDot(ip, a, k, dim, n - 1);
      var unit := Unit(n - 1, dim);
      var one := Times(a[n - 1], unit);
      assert Front(a, n) == Plus(Front(a, n - 1), one);
      assert Additive(ip, Front(a, n - 1), one, k) && Homogeneous(ip, a[n - 1], unit, k) && PicksOut(ip, n - 1, k);
    }
  }

  /** There is one such product. */
  lemma InnerIsDot(ip: (Vector, Vector) -> real, a: Vector, k: Vector, dim: nat)
    requires Inner(ip, dim) && |a| == |k| == dim
    ensures ip(a, k) == Dot(a, k, dim)
  {
    FrontIsDot(ip, a, k, dim, dim);
    assert Front(a, dim) == a;
  }

  lemma {:induction false} DotIsLinear(a: Vector, b: Vector, c: real, k: Vector, n: nat)
    requires |a| == |b| && n <= |a| && n <= |k|
    ensures Dot(Plus(a, b), k, n) == Dot(a, k, n) + Dot(b, k, n) && Dot(Times(c, a), k, n) == c * Dot(a, k, n)
    decreases n
  {
    if n > 0 {
      DotIsLinear(a, b, c, k, n - 1);
    }
  }

  lemma {:induction false} DotPicksOut(c: nat, k: Vector, n: nat)
    requires n <= |k|
    ensures Dot(Unit(c, |k|), k, n) == if c < n then k[c] else 0.0
    decreases n
  {
    if n > 0 {
      DotPicksOut(c, k, n - 1);
    }
  }

  /** And the sum of products is it. */
  lemma DotIsInner(ip: (Vector, Vector) -> real, dim: nat)
    requires forall a, k | |a| == |k| == dim :: ip(a, k) == Dot(a, k, dim)
    ensures Inner(ip, dim)
  {
    forall a, b, k | |a| == |k| == dim
      ensures Additive(ip, a, b, k)
    {
      if |a| == |b| {
        DotIsLinear(a, b, 0.0, k, dim);
      }
    }
    forall c, a, k | |a| == |k| == dim
      ensures Homogeneous(ip, c, a, k)
    {
      DotIsLinear(a, a, c, k, dim);
    }
    forall c, k | |k| == dim
      ensures PicksOut(ip, c, k)
    {
      DotPicksOut(c, k, dim);
    }
  }

  // ----- the outputs -----

  /** How much a key counts with a query. */
  function Pull(e: real -> real, ip: (Vector, Vector) -> real, query: Vector, key: Vector, scale: real): real {
    e(Scaled(scale, ip(query, key)))
  }

  function Scaled(scale: real, x: real): real {
    scale * x
  }

  /** What the first keys count with a query, summed. */
  function Whole(e: real -> real, ip: (Vector, Vector) -> real, query: Vector, keys: seq<Vector>, scale: real,
                 n: nat): real
    requires n <= |keys|
  {
    if n == 0 then 0.0 else Whole(e, ip, query, keys, scale, n - 1) + Pull(e, ip, query, keys[n - 1], scale)
  }

  /** And each with one coordinate of its own key's value. */
  function Valued(e: real -> real, ip: (Vector, Vector) -> real, query: Vector, keys: seq<Vector>,
                  values: seq<Vector>, scale: real, d: nat, n: nat): real
    requires n <= |keys| && n <= |values| && forall i | 0 <= i < n :: d < |values[i]|
  {
    if n == 0 then 0.0
    else
      Valued(e, ip, query, keys, values, scale, d, n - 1)
      + Pull(e, ip, query, keys[n - 1], scale) * values[n - 1][d]
  }

  lemma PullIsScore(e: real -> real, ip: (Vector, Vector) -> real, q: seq<Vector>, k: seq<Vector>, scale: real,
                    dim: nat, t: nat, i: nat)
    requires Inner(ip, dim) && t < |q| && Shaped(q, |q|, dim) && Shaped(k, |q|, dim) && i <= t
    ensures Pull(e, ip, q[t], k[i], scale) == e(Scores(q, k, scale, dim, t)[i])
  {
    InnerIsDot(ip, q[t], k[i], dim);
    PullAt(e, ip, q[t], k[i], scale, Scores(q, k, scale, dim, t)[i], Dot(q[t], k[i], dim));
  }

  lemma PullAt(e: real -> real, ip: (Vector, Vector) -> real, query: Vector, key: Vector, scale: real, score: real,
               dot: real)
    requires ip(query, key) == dot && score == dot * scale
    ensures Pull(e, ip, query, key, scale) == e(score)
  {
    assert Scaled(scale, dot) == score;
  }

  lemma {:induction false} WholeIsMass(e: real -> real, ip: (Vector, Vector) -> real, q: seq<Vector>, k: seq<Vector>,
                                       scale: real, dim: nat, t: nat, n: nat)
    requires Inner(ip, dim) && t < |q| && Shaped(q, |q|, dim) && Shaped(k, |q|, dim) && n <= t + 1
    ensures Whole(e, ip, q[t], k, scale, n) == Mass(e, Scores(q, k, scale, dim, t), n)
    decreases n
  {
    if n > 0 {
      WholeIsMass(e, ip, q, k, scale, dim, t, n - 1);
      PullIsScore(e, ip, q, k, scale, dim, t, n - 1);
    }
  }

  lemma {:induction false} ValuedIsWeighted(e: real -> real, ip: (Vector, Vector) -> real, q: seq<Vector>,
                                            k: seq<Vector>, v: seq<Vector>, scale: real, dim: nat, t: nat, d: nat,
                                            n: nat)
    requires Inner(ip, dim) && t < |q| && Shaped(q, |q|, dim) && Shaped(k, |q|, dim) && Shaped(v, |q|, dim)
    requires n <= t + 1 && d < dim
    ensures Valued(e, ip, q[t], k, v, scale, d, n)
         == Weighted(e, Scores(q, k, scale, dim, t), Column(v[..t + 1], d), n)
    decreases n
  {
    if n > 0 {
      ValuedIsWeighted(e, ip, q, k, v, scale, dim, t, d, n - 1);
      PullIsScore(e, ip, q, k, scale, dim, t, n - 1);
      assert Column(v[..t + 1], d)[n - 1] == v[n - 1][d];
    }
  }

  /** An output is its values, each by the exponential of its own key's score, over all of those. */
  lemma AttentionIs(e: real -> real, q: seq<Vector>, k: seq<Vector>, v: seq<Vector>, scale: real, dim: nat,
                    out: seq<Vector>, ip: (Vector, Vector) -> real, t: nat, d: nat)
    requires Inputs(e, q, k, v, dim) && IsAttention(e, q, k, v, scale, dim, out) && Inner(ip, dim)
    requires t < |q| && d < dim
    ensures |out| == |q| && |out[t]| == dim
    ensures out[t][d] * Whole(e, ip, q[t], k, scale, t + 1) == Valued(e, ip, q[t], k, v, scale, d, t + 1)
  {
    var scores := Scores(q, k, scale, dim, t);
    assert RowIs(e, q, k, v, scale, dim, t, out[t]);
    WholeIsMass(e, ip, q, k, scale, dim, t, t + 1);
    ValuedIsWeighted(e, ip, q, k, v, scale, dim, t, d, t + 1);
    MassPositive(e, scores, t + 1);
    Unquotient(Weighted(e, scores, Column(v[..t + 1], d), t + 1), Mass(e, scores, t + 1));
  }

  lemma Unquotient(a: real, b: real)
    requires b > 0.0
    ensures a / b * b == a
  {
  }

  lemma {:induction false} OnlyOne(e: real -> real, ip: (Vector, Vector) -> real, query: Vector, keys: seq<Vector>,
                                   values: seq<Vector>, scale: real, d: nat, n: nat, j: nat)
    requires n <= |keys| && n <= |values| && forall i | 0 <= i < n :: d < |values[i]|
    requires forall i | 0 <= i < n :: values[i][d] == if i == j then 1.0 else 0.0
    ensures Valued(e, ip, query, keys, values, scale, d, n)
         == if j < n then Pull(e, ip, query, keys[j], scale) else 0.0
    decreases n
  {
    if n > 0 {
      OnlyOne(e, ip, query, keys, values, scale, d, n - 1, j);
    }
  }

  /** Where one key alone has a coordinate, the output has that key's share of it. */
  lemma KeyShare(e: real -> real, q: seq<Vector>, k: seq<Vector>, v: seq<Vector>, scale: real, dim: nat,
                 out: seq<Vector>, ip: (Vector, Vector) -> real, t: nat, d: nat, j: nat)
    requires Inputs(e, q, k, v, dim) && IsAttention(e, q, k, v, scale, dim, out) && Inner(ip, dim)
    requires t < |q| && d < dim && j <= t
    requires forall i | 0 <= i < |v| :: v[i][d] == if i == j then 1.0 else 0.0
    ensures |out| == |q| && |out[t]| == dim
    ensures out[t][d] * Whole(e, ip, q[t], k, scale, t + 1) == Pull(e, ip, q[t], k[j], scale)
  {
    AttentionIs(e, q, k, v, scale, dim, out, ip, t, d);
    OnlyOne(e, ip, q[t], k, v, scale, d, t + 1, j);
  }
}
