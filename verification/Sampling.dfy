/**
 * Drawing one token on the host: top-k, the top-p ladder, min-p, and the draw,
 * over the reals. Partial selection and sorting are library calls, given here by
 * what they promise: ties fall either way.
 */
module Samplers {
  import opened Vocabs
  import opened Attention

  datatype Candidate = Candidate(logit: Logit, token: nat)

  datatype Params = Params(temperature: real, topK: nat, topP: real, minP: real)

  // ----- orders -----

  predicate AtLeast(a: Logit, b: Logit) {
    b.NegInf? || (a.Finite? && a.value >= b.value)
  }

  function Keys(s: seq<Candidate>): (keys: seq<Logit>)
    ensures |keys| == |s|
  {
    seq(|s|, i requires 0 <= i < |s| => s[i].logit)
  }

  predicate Descending(keys: seq<Logit>, n: nat) {
    n <= |keys| && forall i, j | 0 <= i < j < n :: AtLeast(keys[i], keys[j])
  }

  /** Nothing past the first `n` is above any of them. */
  predicate InFront(keys: seq<Logit>, n: nat) {
    n <= |keys| && forall i, j | 0 <= i < n <= j < |keys| :: AtLeast(keys[i], keys[j])
  }

  /** The `n` largest moved to the front, in some order. */
  ghost predicate Selects(select: (seq<Candidate>, nat) -> seq<Candidate>) {
    forall s, n: nat | 0 < n <= |s| :: Selected(s, select(s, n), n)
  }

  predicate Selected(before: seq<Candidate>, after: seq<Candidate>, n: nat) {
    multiset(after) == multiset(before) && InFront(Keys(after), n)
  }

  ghost predicate Sorts(sort: seq<Candidate> -> seq<Candidate>) {
    forall s :: Ordered(s, sort(s))
  }

  predicate Ordered(before: seq<Candidate>, after: seq<Candidate>) {
    multiset(after) == multiset(before) && Descending(Keys(after), |after|)
  }

  /** The `n` largest, in order, then the rest. */
  predicate Ranked(before: seq<Candidate>, after: seq<Candidate>, n: nat) {
    multiset(after) == multiset(before) && Descending(Keys(after), n) && InFront(Keys(after), n)
  }

  // ----- reordering changes neither the keys nor any mass -----

  lemma Cancel<T>(m: multiset<T>, n: multiset<T>, more: multiset<T>)
    requires m + more == n + more
    ensures m == n
  {
    assert m == (m + more) - more && n == (n + more) - more;
  }

  lemma KeysSplit(a: seq<Candidate>, b: seq<Candidate>)
    ensures Keys(a + b) == Keys(a) + Keys(b)
  {
  }

  lemma WithoutOne(s: seq<Candidate>, i: nat)
    requires i < |s|
    ensures multiset(s) == multiset(s[..i] + s[i + 1..]) + multiset{s[i]}
    ensures multiset(Keys(s)) == multiset(Keys(s[..i] + s[i + 1..])) + multiset{s[i].logit}
  {
    assert s == s[..i] + [s[i]] + s[i + 1..];
    KeysSplit(s[..i] + [s[i]], s[i + 1..]);
    KeysSplit(s[..i], [s[i]]);
    KeysSplit(s[..i], s[i + 1..]);
    assert Keys([s[i]]) == [s[i].logit];
  }

  lemma {:induction false} SameKeys(a: seq<Candidate>, b: seq<Candidate>)
    requires multiset(a) == multiset(b)
    ensures |a| == |b| && multiset(Keys(a)) == multiset(Keys(b))
    decreases |a|
  {
    assert |multiset(a)| == |multiset(b)|;
    if a != [] {
      var k := |a| - 1;
      assert a[k] in multiset(b);
      var i :| 0 <= i < |b| && b[i] == a[k];
      WithoutOne(a, k);
      WithoutOne(b, i);
      Cancel(multiset(a[..k] + a[k + 1..]), multiset(b[..i] + b[i + 1..]), multiset{a[k]});
      SameKeys(a[..k] + a[k + 1..], b[..i] + b[i + 1..]);
    }
  }

  /** What a logit weighs, next to the largest; `scale` is the inverse temperature. */
  function Weight(e: real -> real, max: real, scale: real, logit: Logit): real {
    match logit
    case NegInf => 0.0
    case Finite(value) => e(Height(value, max, scale))
  }

  /** How far a logit is below the largest. */
  function Height(value: real, max: real, scale: real): real {
    (value - max) * scale
  }

  function Sum(e: real -> real, max: real, scale: real, keys: seq<Logit>): real {
    if keys == [] then 0.0
    else
      var k := |keys| - 1;
      Sum(e, max, scale, keys[..k]) + Weight(e, max, scale, keys[k])
  }

  lemma WeightPositive(e: real -> real, max: real, scale: real, logit: Logit)
    requires Exponential(e)
    ensures Weight(e, max, scale, logit) >= 0.0 && (Weight(e, max, scale, logit) > 0.0 <==> logit.Finite?)
  {
    if logit.Finite? {
      assert Positive(e, Height(logit.value, max, scale));
    }
  }

  lemma {:induction false} SumSplit(e: real -> real, max: real, scale: real, a: seq<Logit>, b: seq<Logit>)
    ensures Sum(e, max, scale, a + b) == Sum(e, max, scale, a) + Sum(e, max, scale, b)
    decreases |b|
  {
    if b == [] {
      assert a + b == a;
    } else {
      var k := |b| - 1;
      SumSplit(e, max, scale, a, b[..k]);
      assert (a + b)[..|a + b| - 1] == a + b[..k];
    }
  }

  lemma {:induction false} SumNotNegative(e: real -> real, max: real, scale: real, keys: seq<Logit>)
    requires Exponential(e)
    ensures Sum(e, max, scale, keys) >= 0.0
    decreases |keys|
  {
    if keys != [] {
      SumNotNegative(e, max, scale, keys[..|keys| - 1]);
      WeightPositive(e, max, scale, keys[|keys| - 1]);
    }
  }

  lemma SumWithout(e: real -> real, max: real, scale: real, keys: seq<Logit>, i: nat)
    requires i < |keys|
    ensures multiset(keys) == multiset(keys[..i] + keys[i + 1..]) + multiset{keys[i]}
    ensures Sum(e, max, scale, keys) == Sum(e, max, scale, keys[..i] + keys[i + 1..]) + Weight(e, max, scale, keys[i])
  {
    assert keys == keys[..i] + ([keys[i]] + keys[i + 1..]);
    SumSplit(e, max, scale, keys[..i], [keys[i]] + keys[i + 1..]);
    SumSplit(e, max, scale, [keys[i]], keys[i + 1..]);
    SumSplit(e, max, scale, keys[..i], keys[i + 1..]);
    assert [keys[i]][..0] == [];
    assert Sum(e, max, scale, [keys[i]]) == Weight(e, max, scale, keys[i]);
  }

  lemma {:induction false} SumReordered(e: real -> real, max: real, scale: real, a: seq<Logit>, b: seq<Logit>)
    requires multiset(a) == multiset(b)
    ensures |a| == |b| && Sum(e, max, scale, a) == Sum(e, max, scale, b)
    decreases |a|
  {
    assert |multiset(a)| == |multiset(b)|;
    if a != [] {
      var k := |a| - 1;
      assert a[k] in multiset(b);
      var i :| 0 <= i < |b| && b[i] == a[k];
      SumWithout(e, max, scale, a, k);
      SumWithout(e, max, scale, b, i);
      Cancel(multiset(a[..k] + a[k + 1..]), multiset(b[..i] + b[i + 1..]), multiset{a[k]});
      SumReordered(e, max, scale, a[..k] + a[k + 1..], b[..i] + b[i + 1..]);
    }
  }

  lemma RestSame(a: seq<Logit>, b: seq<Logit>, i: nat)
    requires multiset(a) == multiset(b) && i <= |a| && i <= |b| && a[..i] == b[..i]
    ensures multiset(a[i..]) == multiset(b[i..])
  {
    assert a == a[..i] + a[i..] && b == b[..i] + b[i..];
    assert multiset(a) == multiset(a[i..]) + multiset(a[..i]) && multiset(b) == multiset(b[i..]) + multiset(b[..i]);
    Cancel(multiset(a[i..]), multiset(b[i..]), multiset(a[..i]));
  }

  lemma TopsFromHere(a: seq<Logit>, n: nat, i: nat)
    requires i < n && Descending(a, n) && InFront(a, n)
    ensures a[i..] != [] && a[i..][0] == a[i] && forall j | 0 <= j < |a[i..]| :: AtLeast(a[i], a[i..][j])
  {
    forall j | 0 <= j < |a[i..]|
      ensures AtLeast(a[i], a[i..][j])
    {
      assert a[i..][j] == a[i + j];
    }
  }

  /** However ties fell, the `n` largest weigh the same, place by place. */
  lemma {:induction false} SameTop(a: seq<Logit>, b: seq<Logit>, n: nat, k: nat)
    requires multiset(a) == multiset(b) && |a| == |b| && k <= n
    requires Descending(a, n) && InFront(a, n) && Descending(b, n) && InFront(b, n)
    ensures a[..k] == b[..k]
    decreases k
  {
    if k > 0 {
      var i := k - 1;
      SameTop(a, b, n, i);
      RestSame(a, b, i);
      TopsFromHere(a, n, i);
      TopsFromHere(b, n, i);
      HeadsAgree(a[i..], b[i..]);
      assert a[..k] == a[..i] + [a[i]] && b[..k] == b[..i] + [b[i]];
    }
  }

  lemma HeadsAgree(a: seq<Logit>, b: seq<Logit>)
    requires multiset(a) == multiset(b) && a != [] && b != []
    requires (forall j | 0 <= j < |a| :: AtLeast(a[0], a[j])) && forall j | 0 <= j < |b| :: AtLeast(b[0], b[j])
    ensures a[0] == b[0]
  {
    assert a[0] in multiset(b) && b[0] in multiset(a);
    var i :| 0 <= i < |b| && b[i] == a[0];
    var j :| 0 <= j < |a| && a[j] == b[0];
  }

  // ----- the nucleus -----

  /**
   * What top-p is for: of all the candidates in order, the shortest run from
   * the top whose mass reaches the goal, and never nothing.
   */
  ghost predicate IsCut(e: real -> real, max: real, keys: seq<Logit>, goal: real, n: nat) {
    && 0 < n <= |keys| && Sum(e, max, 1.0, keys[..n]) >= goal
    && forall m: nat | 0 < m < n :: Sum(e, max, 1.0, keys[..m]) < goal
  }

  /** `kept` weighs what the cut of any full ordering weighs, place by place. */
  ghost predicate IsNucleus(e: real -> real, max: real, all: seq<Candidate>, goal: real, kept: seq<Candidate>) {
    && multiset(kept) <= multiset(all) && Descending(Keys(kept), |kept|)
    && forall full | Ordered(all, full) ::
         && IsCut(e, max, Keys(full), goal, |kept|)
         && Keys(kept) == Keys(full)[..|kept|]
  }

  /** Where a run from the top first reaches the goal, within the first `n`; 0 if it does not. */
  method Reach(e: real -> real, max: real, keys: seq<Logit>, n: nat, goal: real) returns (keep: nat)
    requires n <= |keys|
    ensures keep <= n && (keep > 0 ==> IsCut(e, max, keys, goal, keep))
    ensures keep == 0 ==> forall m: nat | 0 < m <= n :: Sum(e, max, 1.0, keys[..m]) < goal
  {
    var mass := 0.0;
    for i := 0 to n
      invariant mass == Sum(e, max, 1.0, keys[..i])
      invariant forall m: nat | 0 < m <= i :: Sum(e, max, 1.0, keys[..m]) < goal
    {
      assert keys[..i + 1][..i] == keys[..i];
      mass := mass + Weight(e, max, 1.0, keys[i]);
      if mass >= goal {
        return i + 1;
      }
    }
    return 0;
  }

  /** Rungs of the ladder; the last takes everything. */
  const RUNGS: seq<nat> := [128, 1024, 16384]

  function Rung(r: nat, len: nat): (n: nat)
    ensures n <= len && (len > 0 ==> n > 0) && (r >= |RUNGS| ==> n == len)
  {
    if r < |RUNGS| && RUNGS[r] < len then RUNGS[r] else len
  }

  /** The `n` largest to the front, and those in order. */
  method Rank(select: (seq<Candidate>, nat) -> seq<Candidate>, sort: seq<Candidate> -> seq<Candidate>,
              s: seq<Candidate>, n: nat) returns (r: seq<Candidate>)
    requires Selects(select) && Sorts(sort) && 0 < n <= |s|
    ensures Ranked(s, r, n) && |r| == |s|
  {
    r := s;
    if n < |s| {
      assert Selected(s, select(s, n), n);
      r := select(s, n);
    }
    assert Ordered(r[..n], sort(r[..n]));
    RankedFrom(s, r, n, sort(r[..n]));
    r := sort(r[..n]) + r[n..];
  }

  lemma RankedFrom(s: seq<Candidate>, r: seq<Candidate>, n: nat, top: seq<Candidate>)
    requires multiset(r) == multiset(s) && n <= |r| && InFront(Keys(r), n) && Ordered(r[..n], top)
    ensures |r| == |s| && |top| == n && Ranked(s, top + r[n..], n)
  {
    var after := top + r[n..];
    assert |multiset(r)| == |multiset(s)| && |multiset(top)| == |multiset(r[..n])|;
    assert r == r[..n] + r[n..];
    assert forall i | 0 <= i < n :: Keys(after)[i] == Keys(top)[i];
    forall i, j | 0 <= i < n <= j < |after|
      ensures AtLeast(Keys(after)[i], Keys(after)[j])
    {
      assert top[i] in multiset(r[..n]);
      var k :| 0 <= k < n && r[k] == top[i];
      assert after[j] == r[j];
      assert AtLeast(Keys(r)[k], Keys(r)[j]);
    }
  }

  /** A cut found among the ranked is the cut of every full ordering. */
  lemma RungIsExact(e: real -> real, max: real, all: seq<Candidate>, ranked: seq<Candidate>, n: nat, goal: real,
                    keep: nat)
    requires Ranked(all, ranked, n) && 0 < keep <= n && IsCut(e, max, Keys(ranked), goal, keep)
    ensures IsNucleus(e, max, all, goal, ranked[..keep])
  {
    var kept := ranked[..keep];
    assert ranked == kept + ranked[keep..];
    assert Keys(kept) == Keys(ranked)[..keep];
    forall full | Ordered(all, full)
      ensures IsCut(e, max, Keys(full), goal, keep)
      ensures Keys(kept) == Keys(full)[..keep]
    {
      SameKeys(ranked, full);
      SameTop(Keys(ranked), Keys(full), n, keep);
      forall m: nat | 0 < m <= keep
        ensures Keys(full)[..m] == Keys(ranked)[..m]
      {
        assert Keys(full)[..m] == Keys(full)[..keep][..m] && Keys(ranked)[..m] == Keys(ranked)[..keep][..m];
      }
    }
  }

  /** The share of the mass the cut must reach. */
  function Goal(e: real -> real, max: real, all: seq<Candidate>, topP: real): real {
    (if topP > 0.0 then topP else 0.0) * Sum(e, max, 1.0, Keys(all))
  }

  /**
   * The ladder of partial sorts keeps exactly what sorting everything would. The
   * last rung always reaches the goal: all of the mass is no less than a share.
   */
  method Ladder(e: real -> real, max: real, select: (seq<Candidate>, nat) -> seq<Candidate>,
                sort: seq<Candidate> -> seq<Candidate>, all: seq<Candidate>, topP: real)
    returns (kept: seq<Candidate>)
    requires Exponential(e) && Selects(select) && Sorts(sort) && all != [] && topP < 1.0
    ensures IsNucleus(e, max, all, Goal(e, max, all, topP), kept) && kept != []
  {
    var goal := Goal(e, max, all, topP);
    GoalWithin(e, max, all, topP);
    var s := all;
    var r := 0;
    while true
      invariant r <= |RUNGS| && multiset(s) == multiset(all) && |s| == |all|
      decreases |RUNGS| - r
    {
      var n := Rung(r, |s|);
      s := Rank(select, sort, s, n);
      var keep := Reach(e, max, Keys(s), n, goal);
      if keep > 0 {
        RungIsExact(e, max, all, s, n, goal, keep);
        return s[..keep];
      }
      if n == |s| {
        WholeIsAll(e, max, all, s);
        assert false;
      }
      r := r + 1;
    }
  }

  lemma WholeIsAll(e: real -> real, max: real, all: seq<Candidate>, s: seq<Candidate>)
    requires multiset(s) == multiset(all)
    ensures Sum(e, max, 1.0, Keys(s)[..|s|]) == Sum(e, max, 1.0, Keys(all))
  {
    SameKeys(s, all);
    SumReordered(e, max, 1.0, Keys(s), Keys(all));
    assert Keys(s)[..|s|] == Keys(s);
  }

  lemma NotNegative(x: real, y: real)
    requires x >= 0.0 && y >= 0.0
    ensures x * y >= 0.0
  {
  }

  lemma GoalWithin(e: real -> real, max: real, all: seq<Candidate>, topP: real)
    requires Exponential(e) && topP < 1.0
    ensures Goal(e, max, all, topP) <= Sum(e, max, 1.0, Keys(all))
  {
    var target, total := if topP > 0.0 then topP else 0.0, Sum(e, max, 1.0, Keys(all));
    SumNotNegative(e, max, 1.0, Keys(all));
    NotNegative(1.0 - target, total);
    assert (1.0 - target) * total == total - target * total;
  }

  // ----- the other filters -----

  function Candidates(logits: seq<Logit>): (s: seq<Candidate>)
    ensures |s| == |logits| && Keys(s) == logits
  {
    seq(|logits|, t requires 0 <= t < |logits| => Candidate(logits[t], t))
  }

  /** The largest logit there is; a row of nothing but excluded tokens has none. */
  method Largest(keys: seq<Logit>) returns (max: Logit)
    ensures max.Finite? ==> max in keys && forall k | k in keys :: AtLeast(max, k)
    ensures max.NegInf? ==> forall k | k in keys :: k.NegInf?
  {
    max := NegInf;
    for i := 0 to |keys|
      invariant max.Finite? ==> max in keys[..i] && forall k | k in keys[..i] :: AtLeast(max, k)
      invariant max.NegInf? ==> forall k | k in keys[..i] :: k.NegInf?
    {
      assert keys[..i + 1] == keys[..i] + [keys[i]];
      if !AtLeast(max, keys[i]) {
        max := keys[i];
      }
    }
    assert keys[..|keys|] == keys;
  }

  /** What top-k leaves: the `k` largest, or everything. */
  ghost predicate IsTopK(all: seq<Candidate>, k: nat, kept: seq<Candidate>) {
    if 0 < k < |all|
    then |kept| == k && exists rest :: Selected(all, kept + rest, k)
    else kept == all
  }

  method TopK(select: (seq<Candidate>, nat) -> seq<Candidate>, all: seq<Candidate>, k: nat)
    returns (kept: seq<Candidate>)
    requires Selects(select)
    ensures IsTopK(all, k, kept)
  {
    if 0 < k < |all| {
      var s := select(all, k);
      assert Selected(all, s, k);
      kept := s[..k];
      assert s == kept + s[k..];
    } else {
      kept := all;
    }
  }

  /** The candidates that weigh at least `threshold`, in the order they were in. */
  function Heavy(e: real -> real, max: real, s: seq<Candidate>, threshold: real): (r: seq<Candidate>)
    ensures forall c :: c in r <==> c in s && Weight(e, max, 1.0, c.logit) >= threshold
  {
    if s == [] then []
    else
      var k := |s| - 1;
      Heavy(e, max, s[..k], threshold)
      + if Weight(e, max, 1.0, s[k].logit) >= threshold then [s[k]] else []
  }

  method Retain(e: real -> real, max: real, s: seq<Candidate>, threshold: real) returns (kept: seq<Candidate>)
    ensures kept == Heavy(e, max, s, threshold)
  {
    kept := [];
    for i := 0 to |s|
      invariant kept == Heavy(e, max, s[..i], threshold)
    {
      assert s[..i + 1][..i] == s[..i];
      if Weight(e, max, 1.0, s[i].logit) >= threshold {
        kept := kept + [s[i]];
      }
    }
    assert s[..|s|] == s;
  }

  // ----- the draw -----

  /** `j` is the first candidate the running mass of which reaches the draw. */
  ghost predicate DrawnAt(e: real -> real, max: real, scale: real, keys: seq<Logit>, draw: real, j: nat) {
    && j < |keys| && draw <= Sum(e, max, scale, keys[..j + 1])
    && forall i: nat | 0 < i <= j :: Sum(e, max, scale, keys[..i]) < draw
  }

  method Draw(e: real -> real, max: real, scale: real, keys: seq<Logit>, draw: real) returns (j: nat)
    requires keys != [] && draw <= Sum(e, max, scale, keys)
    ensures DrawnAt(e, max, scale, keys, draw, j)
  {
    var left := draw;
    j := 0;
    while true
      invariant j < |keys| && left == draw - Sum(e, max, scale, keys[..j])
      invariant forall i: nat | 0 < i <= j :: Sum(e, max, scale, keys[..i]) < draw
      decreases |keys| - j
    {
      assert keys[..j + 1][..j] == keys[..j];
      assert j + 1 == |keys| ==> keys[..j + 1] == keys;
      left := left - Weight(e, max, scale, keys[j]);
      if left <= 0.0 {
        return;
      }
      if j + 1 == |keys| {
        assert false;
      }
      j := j + 1;
    }
  }

  /**
   * A draw lands on a candidate that has any weight unless it is exactly nothing
   * and the first candidate has none.
   */
  lemma DrawnHasWeightIff(e: real -> real, max: real, scale: real, keys: seq<Logit>, draw: real, j: nat)
    requires Exponential(e) && DrawnAt(e, max, scale, keys, draw, j) && draw >= 0.0
    ensures keys[j].Finite? <==> draw > 0.0 || keys[0].Finite?
  {
    assert keys[..j + 1][..j] == keys[..j];
    WeightPositive(e, max, scale, keys[j]);
    SumNotNegative(e, max, scale, keys[..j]);
    assert keys[..0] == [];
    if j > 0 {
      assert Sum(e, max, scale, keys[..j]) < draw;
    }
  }

  // ----- the whole pipeline -----

  /** The candidates after each filter, for a row whose largest logit is `max`. */
  ghost predicate Filtered(e: real -> real, params: Params, max: real, logits: seq<Logit>, top: seq<Candidate>,
                           nucleus: seq<Candidate>, kept: seq<Candidate>)
  {
    && IsTopK(Candidates(logits), params.topK, top)
    && (if params.topP < 1.0 then IsNucleus(e, max, top, Goal(e, max, top, params.topP), nucleus) else nucleus == top)
    && kept == (if params.minP > 0.0 then Heavy(e, max, nucleus, params.minP) else nucleus)
  }

  /** What a largest logit is to a set of candidates. */
  ghost predicate IsTop(max: real, s: seq<Candidate>) {
    (exists c | c in s :: c.logit == Finite(max)) && forall c | c in s :: AtLeast(Finite(max), c.logit)
  }

  lemma WeighsOne(e: real -> real, max: real)
    requires Exponential(e)
    ensures Weight(e, max, 1.0, Finite(max)) == 1.0
  {
    AtNothing(e);
    assert (max - max) * 1.0 == 0.0;
  }

  /** Nothing added to one is one, so its exponential multiplies by one. */
  lemma AtNothing(e: real -> real)
    requires Exponential(e)
    ensures e(0.0) == 1.0
  {
    assert Positive(e, 1.0) && Adds(e, 0.0, 1.0);
    Neutral(e(0.0), e(1.0));
  }

  lemma Neutral(x: real, y: real)
    requires y > 0.0 && y == x * y
    ensures x == 1.0
  {
    assert (x - 1.0) * y == 0.0;
  }

  /** The most likely candidate survives the nucleus cut. */
  lemma NucleusKeepsTop(e: real -> real, max: real, all: seq<Candidate>, goal: real, kept: seq<Candidate>,
                        sort: seq<Candidate> -> seq<Candidate>)
    requires IsTop(max, all) && IsNucleus(e, max, all, goal, kept) && Sorts(sort)
    ensures IsTop(max, kept) && kept[0].logit == Finite(max)
  {
    var full := sort(all);
    assert Ordered(all, full);
    SameKeys(full, all);
    assert kept[0].logit == Keys(kept)[0] == Keys(full)[..|kept|][0] == full[0].logit;
    var c :| c in all && c.logit == Finite(max);
    assert c in multiset(full) && full[0] in multiset(all);
    var i :| 0 <= i < |full| && full[i] == c;
    assert AtLeast(Keys(full)[0], Keys(full)[i]);
    assert kept[0] in kept;
    forall x | x in kept
      ensures AtLeast(Finite(max), x.logit)
    {
      assert x in multiset(kept) && x in multiset(all);
    }
  }

  /** And min-p, up to one, never drops it. */
  lemma HeavyKeepsTop(e: real -> real, max: real, s: seq<Candidate>, threshold: real)
    requires Exponential(e) && IsTop(max, s) && threshold <= 1.0
    ensures IsTop(max, Heavy(e, max, s, threshold))
  {
    WeighsOne(e, max);
    var c :| c in s && c.logit == Finite(max);
    assert c in Heavy(e, max, s, threshold);
  }

  /** The largest of the `k` largest is the largest of all. */
  lemma TopKKeepsTop(max: real, all: seq<Candidate>, k: nat, kept: seq<Candidate>)
    requires IsTopK(all, k, kept) && IsTop(max, kept)
    ensures IsTop(max, all)
  {
    forall c | c in all
      ensures AtLeast(Finite(max), c.logit)
    {
      NotAbove(all, k, kept, c);
    }
    var c :| c in kept && c.logit == Finite(max);
    TopKAmong(all, k, kept, c);
  }

  lemma TopKAmong(all: seq<Candidate>, k: nat, kept: seq<Candidate>, c: Candidate)
    requires IsTopK(all, k, kept) && c in kept
    ensures c in all
  {
    if 0 < k < |all| {
      var rest :| Selected(all, kept + rest, k);
      assert c in multiset(kept + rest) && c in multiset(all);
    }
  }

  /** Every candidate is kept, or below everything that is. */
  lemma NotAbove(all: seq<Candidate>, k: nat, kept: seq<Candidate>, c: Candidate)
    requires IsTopK(all, k, kept) && c in all && all != []
    ensures kept != [] && (c in kept || AtLeast(kept[0].logit, c.logit))
  {
    if 0 < k < |all| {
      var rest :| Selected(all, kept + rest, k);
      var s := kept + rest;
      assert c in multiset(all) && c in multiset(s);
      var j :| 0 <= j < |s| && s[j] == c;
      if j >= k {
        assert AtLeast(Keys(s)[0], Keys(s)[j]);
      }
    }
  }

  /** The three filters in turn. */
  method Filter(e: real -> real, params: Params, max: real, ghost logits: seq<Logit>, top: seq<Candidate>,
                select: (seq<Candidate>, nat) -> seq<Candidate>, sort: seq<Candidate> -> seq<Candidate>)
    returns (kept: seq<Candidate>, ghost nucleus: seq<Candidate>)
    requires Exponential(e) && Selects(select) && Sorts(sort)
    requires IsTopK(Candidates(logits), params.topK, top) && IsTop(max, top)
    ensures Filtered(e, params, max, logits, top, nucleus, kept)
    ensures params.minP <= 1.0 ==> IsTop(max, kept)
    ensures if kept == [] then params.minP > 1.0 else HasWeight(kept)
    ensures kept != [] && (params.topP < 1.0 || params.minP > 0.0) ==> kept[0].logit.Finite?
    ensures forall c | c in kept :: c in Candidates(logits)
  {
    kept := top;
    if params.topP < 1.0 {
      kept := Ladder(e, max, select, sort, top, params.topP);
      NucleusKeepsTop(e, max, top, Goal(e, max, top, params.topP), kept, sort);
      NucleusAmong(e, max, top, Goal(e, max, top, params.topP), kept);
    }
    nucleus := kept;
    if params.minP > 0.0 {
      kept := Retain(e, max, kept, params.minP);
      HeavyIsFinite(e, max, nucleus, params.minP);
      if params.minP <= 1.0 {
        HeavyKeepsTop(e, max, nucleus, params.minP);
      }
    }
    forall c | c in kept
      ensures c in Candidates(logits)
    {
      assert c in top;
      TopKAmong(Candidates(logits), params.topK, top, c);
    }
  }

  /** Something that can be drawn. */
  ghost predicate HasWeight(s: seq<Candidate>) {
    exists c | c in s :: c.logit.Finite?
  }

  lemma HeavyIsFinite(e: real -> real, max: real, s: seq<Candidate>, threshold: real)
    requires Exponential(e) && threshold > 0.0
    ensures var kept := Heavy(e, max, s, threshold);
            kept != [] ==> kept[0] in kept && kept[0].logit.Finite?
  {
    var kept := Heavy(e, max, s, threshold);
    if kept != [] {
      assert kept[0] in kept;
      WeightPositive(e, max, 1.0, kept[0].logit);
    }
  }

  lemma NucleusAmong(e: real -> real, max: real, all: seq<Candidate>, goal: real, kept: seq<Candidate>)
    requires IsNucleus(e, max, all, goal, kept)
    ensures forall c | c in kept :: c in all
  {
    forall c | c in kept
      ensures c in all
    {
      assert c in multiset(kept) && c in multiset(all);
    }
  }

  lemma TotalPositive(e: real -> real, max: real, scale: real, kept: seq<Candidate>)
    requires Exponential(e) && HasWeight(kept)
    ensures kept != [] && Sum(e, max, scale, Keys(kept)) > 0.0
  {
    var keys := Keys(kept);
    var c :| c in kept && c.logit.Finite?;
    var i :| 0 <= i < |kept| && kept[i] == c;
    SumWithout(e, max, scale, keys, i);
    SumNotNegative(e, max, scale, keys[..i] + keys[i + 1..]);
    WeightPositive(e, max, scale, keys[i]);
  }

  /** A whole draw, given where in its total mass it falls. */
  lemma DrawFits(e: real -> real, max: real, scale: real, kept: seq<Candidate>, u: real)
    requires Exponential(e) && HasWeight(kept) && 0.0 <= u < 1.0
    ensures 0.0 <= Point(e, max, scale, kept, u) <= Sum(e, max, scale, Keys(kept)) && kept != []
    ensures Point(e, max, scale, kept, u) > 0.0 <==> u > 0.0
  {
    TotalPositive(e, max, scale, kept);
    Portion(u, Sum(e, max, scale, Keys(kept)));
  }

  lemma Portion(u: real, total: real)
    requires 0.0 <= u < 1.0 && total > 0.0
    ensures 0.0 <= Part(u, total) <= total && (Part(u, total) > 0.0 <==> u > 0.0)
  {
    NotNegative(u, total);
    NotNegative(1.0 - u, total);
    assert (1.0 - u) * total == total - u * total;
    if u > 0.0 {
      Both(u, total);
    }
  }

  lemma Both(x: real, y: real)
    requires x > 0.0 && y > 0.0
    ensures x * y > 0.0
  {
  }

  ghost predicate NothingLeft(logits: seq<Logit>) {
    forall l | l in logits :: l.NegInf?
  }

  /** One draw: which candidates it chose among, and which of them it fell on. */
  ghost predicate IsDraw(e: real -> real, params: Params, logits: seq<Logit>, u: real, max: real,
                         kept: seq<Candidate>, token: nat)
    requires params.temperature > 0.0
  {
    && IsTop(max, Candidates(logits))
    && (exists top, nucleus :: Filtered(e, params, max, logits, top, nucleus, kept))
    && exists j: nat :: DrewAt(e, max, Scale(params), kept, u, j) && kept[j].token == token
  }

  /** The `j`-th of the kept is where the point `u` of the way through their mass falls. */
  ghost predicate DrewAt(e: real -> real, max: real, scale: real, kept: seq<Candidate>, u: real, j: nat) {
    j < |kept| && DrawnAt(e, max, scale, Keys(kept), Point(e, max, scale, kept, u), j)
  }

  function Scale(params: Params): real
    requires params.temperature > 0.0
  {
    1.0 / params.temperature
  }

  function Point(e: real -> real, max: real, scale: real, kept: seq<Candidate>, u: real): real {
    Part(u, Sum(e, max, scale, Keys(kept)))
  }

  function Part(u: real, total: real): real {
    u * total
  }

  method DrawOne(e: real -> real, max: real, scale: real, kept: seq<Candidate>, u: real) returns (j: nat)
    requires Exponential(e) && HasWeight(kept) && 0.0 <= u < 1.0
    ensures DrewAt(e, max, scale, kept, u, j)
    ensures kept[j].logit.Finite? <==> u > 0.0 || kept[0].logit.Finite?
  {
    DrawFits(e, max, scale, kept, u);
    j := Draw(e, max, scale, Keys(kept), Point(e, max, scale, kept, u));
    DrawnHasWeightIff(e, max, scale, Keys(kept), Point(e, max, scale, kept, u), j);
  }

  // ----- masses as they are, not next to the largest -----

  /** What logits come to at a temperature: the exponentials of those not excluded. */
  function Mass(e: real -> real, temperature: real, keys: seq<Logit>): real
    requires temperature > 0.0
  {
    if keys == [] then 0.0
    else
      var k := |keys| - 1;
      Mass(e, temperature, keys[..k]) + match keys[k] case NegInf => 0.0 case Finite(value) => e(value / temperature)
  }

  lemma ShiftedBack(value: real, max: real, temperature: real, scale: real)
    requires temperature > 0.0 && scale == 1.0 / temperature
    ensures Height(value, max, scale) + max / temperature == value / temperature
  {
    assert max / temperature == max * scale && value / temperature == value * scale;
  }

  lemma OneMass(e: real -> real, max: real, temperature: real, scale: real, logit: Logit)
    requires Exponential(e) && temperature > 0.0 && scale == 1.0 / temperature
    ensures Weight(e, max, scale, logit) * e(max / temperature)
         == match logit case NegInf => 0.0 case Finite(value) => e(value / temperature)
  {
    match logit {
      case NegInf =>
      case Finite(value) =>
        ShiftedBack(value, max, temperature, scale);
        assert Adds(e, Height(value, max, scale), max / temperature);
    }
  }

  /** The shift by the largest cancels out. */
  lemma {:induction false} MassIsSum(e: real -> real, max: real, temperature: real, scale: real, keys: seq<Logit>)
    requires Exponential(e) && temperature > 0.0 && scale == 1.0 / temperature
    ensures Mass(e, temperature, keys) == Part(Sum(e, max, scale, keys), e(max / temperature))
    decreases |keys|
  {
    if keys != [] {
      var k := |keys| - 1;
      MassIsSum(e, max, temperature, scale, keys[..k]);
      OneMass(e, max, temperature, scale, keys[k]);
      Spread(Sum(e, max, scale, keys[..k]), Weight(e, max, scale, keys[k]), e(max / temperature));
    }
  }

  lemma Spread(a: real, b: real, c: real)
    ensures (a + b) * c == a * c + b * c
  {
  }

  /** The first token the mass up to which reaches `u` of the whole. */
  ghost predicate FirstToReach(e: real -> real, temperature: real, keys: seq<Logit>, u: real, t: nat)
    requires temperature > 0.0
  {
    && t < |keys| && Mass(e, temperature, keys[..t + 1]) >= u * Mass(e, temperature, keys)
    && forall m: nat | 0 < m <= t :: Mass(e, temperature, keys[..m]) < u * Mass(e, temperature, keys)
  }

  lemma SameOrder(a: real, b: real, c: real)
    requires c > 0.0
    ensures a <= b <==> a * c <= b * c
    ensures a < b <==> a * c < b * c
  {
    if a < b {
      Both(b - a, c);
      assert (b - a) * c == b * c - a * c;
    }
    if a > b {
      Both(a - b, c);
      assert (a - b) * c == a * c - b * c;
    }
  }

  /** Where a running sum stands to a share of the whole is where the masses stand. */
  lemma ShareIs(e: real -> real, max: real, temperature: real, scale: real, part: seq<Logit>, whole: seq<Logit>,
                share: real)
    requires Exponential(e) && temperature > 0.0 && scale == 1.0 / temperature
    ensures Part(share, Sum(e, max, scale, whole)) <= Sum(e, max, scale, part) <==>
            Part(share, Mass(e, temperature, whole)) <= Mass(e, temperature, part)
  {
    MassIsSum(e, max, temperature, scale, part);
    MassIsSum(e, max, temperature, scale, whole);
    assert Positive(e, max / temperature);
    SharesAgree(share, Sum(e, max, scale, whole), Sum(e, max, scale, part), Mass(e, temperature, whole),
                Mass(e, temperature, part), e(max / temperature));
  }

  lemma SharesAgree(share: real, whole: real, part: real, wholeMass: real, partMass: real, base: real)
    requires base > 0.0 && wholeMass == Part(whole, base) && partMass == Part(part, base)
    ensures Part(share, whole) <= part <==> Part(share, wholeMass) <= partMass
  {
    SameOrder(share * whole, part, base);
    assert share * whole * base == share * (whole * base);
  }

  /** A draw is of the first candidate the mass up to which reaches its share. */
  lemma DrawnIsFirst(e: real -> real, params: Params, max: real, kept: seq<Candidate>, u: real, j: nat)
    requires Exponential(e) && params.temperature > 0.0 && DrewAt(e, max, Scale(params), kept, u, j)
    ensures FirstToReach(e, params.temperature, Keys(kept), u, j)
  {
    var keys := Keys(kept);
    ShareIs(e, max, params.temperature, Scale(params), keys[..j + 1], keys, u);
    forall m: nat | 0 < m <= j
      ensures Mass(e, params.temperature, keys[..m]) < Part(u, Mass(e, params.temperature, keys))
    {
      ShareIs(e, max, params.temperature, Scale(params), keys[..m], keys, u);
    }
  }

  /** No filter is on, so the candidates are the row itself. */
  predicate Uncut(params: Params, size: nat) {
    !(0 < params.topK < size) && params.topP >= 1.0 && params.minP <= 0.0
  }

  /**
   * One token from a row of logits, `u` being the generator's next number. An
   * excluded token is chosen only when nothing can be, or when `u` is exactly
   * zero and the first of the kept candidates is one: never after a top-p cut,
   * nor after a min-p cut that leaves anything; with no filter on, whenever the
   * row's own first token is.
   */
  method Sample(e: real -> real, params: Params, logits: seq<Logit>, u: real,
                select: (seq<Candidate>, nat) -> seq<Candidate>, sort: seq<Candidate> -> seq<Candidate>)
    returns (token: nat, ghost max: real, ghost kept: seq<Candidate>)
    requires Exponential(e) && Selects(select) && Sorts(sort)
    requires logits != [] && params.temperature > 0.0 && 0.0 <= u < 1.0
    ensures token < |logits|
    ensures NothingLeft(logits) || kept == [] ==> token == 0
    ensures !NothingLeft(logits) && params.minP <= 1.0 ==> kept != []
    ensures !NothingLeft(logits) && kept != [] ==> IsDraw(e, params, logits, u, max, kept, token)
    ensures !NothingLeft(logits) && kept != [] ==> (logits[token].Finite? <==> u > 0.0 || kept[0].logit.Finite?)
    ensures !NothingLeft(logits) && kept != [] && (params.topP < 1.0 || params.minP > 0.0) ==> logits[token].Finite?
    ensures !NothingLeft(logits) && Uncut(params, |logits|)
            ==> (logits[token].Finite? <==> u > 0.0 || logits[0].Finite?)
    ensures !NothingLeft(logits) && kept != [] && Safe(params, logits, u) ==> logits[token].Finite?
    ensures !NothingLeft(logits) && kept != [] ==>
              exists j: nat :: FirstToReach(e, params.temperature, Keys(kept), u, j) && kept[j].token == token
    ensures !NothingLeft(logits) && Uncut(params, |logits|) ==>
              FirstToReach(e, params.temperature, logits, u, token)
  {
    var all := Candidates(logits);
    var top := TopK(select, all, params.topK);
    var largest := Largest(Keys(top));
    max, kept := 0.0, [];
    if largest.NegInf? {
      NoneAbove(logits, params.topK, top);
      return 0, max, kept;
    }
    max := largest.value;
    LargestIsTop(top, largest.value);
    TopKKeepsTop(largest.value, all, params.topK, top);
    var left;
    ghost var nucleus;
    left, nucleus := Filter(e, params, largest.value, logits, top, select, sort);
    kept := left;
    SomeLeft(logits, max);
    if left == [] {
      return 0, max, kept;
    }
    var j := DrawOne(e, largest.value, Scale(params), left, u);
    token := left[j].token;
    CandidateIs(logits, left[j]);
    DrawnIsFirst(e, params, largest.value, left, u, j);
    if Uncut(params, |logits|) {
      UncutDraw(logits, left, j);
    }
    if Safe(params, logits, u) {
      DrawIsFinite(e, params, logits, u, max, kept, token);
    }
  }

  lemma CandidateIs(logits: seq<Logit>, c: Candidate)
    requires c in Candidates(logits)
    ensures c.token < |logits| && logits[c.token] == c.logit
  {
  }

  lemma UncutDraw(logits: seq<Logit>, left: seq<Candidate>, j: nat)
    requires left == Candidates(logits) && j < |left|
    ensures left[j].token == j && left[0].logit == logits[0] && Keys(left) == logits
  {
  }

  lemma SomeLeft(logits: seq<Logit>, max: real)
    requires IsTop(max, Candidates(logits))
    ensures !NothingLeft(logits)
  {
    var c :| c in Candidates(logits) && c.logit == Finite(max);
    assert c.logit in logits;
  }

  lemma LargestIsTop(s: seq<Candidate>, max: real)
    requires Finite(max) in Keys(s) && forall k | k in Keys(s) :: AtLeast(Finite(max), k)
    ensures IsTop(max, s)
  {
    var i :| 0 <= i < |s| && Keys(s)[i] == Finite(max);
    assert s[i] in s;
    forall c | c in s
      ensures AtLeast(Finite(max), c.logit)
    {
      var j :| 0 <= j < |s| && s[j] == c;
      assert Keys(s)[j] in Keys(s);
    }
  }

  lemma NoneAbove(logits: seq<Logit>, k: nat, top: seq<Candidate>)
    requires logits != [] && IsTopK(Candidates(logits), k, top) && forall key | key in Keys(top) :: key.NegInf?
    ensures NothingLeft(logits)
  {
    forall l | l in logits
      ensures l.NegInf?
    {
      var t :| 0 <= t < |logits| && logits[t] == l;
      var c := Candidates(logits)[t];
      NotAbove(Candidates(logits), k, top, c);
      assert Keys(top)[0] in Keys(top);
      if c in top {
        var i :| 0 <= i < |top| && top[i] == c;
        assert Keys(top)[i] in Keys(top);
      }
    }
  }

  /** A row whose first token is excluded, drawn from with nothing cut and `u` zero: the excluded token is chosen. */
  lemma ExcludedTokenDrawn(e: real -> real)
    requires Exponential(e)
    ensures IsDraw(e, Params(1.0, 0, 1.0, 0.0), [NegInf, Finite(0.0)], 0.0, 0.0,
                   Candidates([NegInf, Finite(0.0)]), 0)
  {
    var params, row := Params(1.0, 0, 1.0, 0.0), [NegInf, Finite(0.0)];
    var all := Candidates(row);
    assert all[1] in all && all[0].token == 0;
    assert Filtered(e, params, 0.0, row, all, all, all);
    assert Keys(all)[..1] == [NegInf] && [NegInf][..0] == [];
    assert Scale(params) == 1.0 && DrewAt(e, 0.0, 1.0, all, 0.0, 0);
    assert IsTop(0.0, all);
  }

  // ----- selections and sorts there are -----

  lemma InFrontOf(c: Candidate, s: seq<Candidate>)
    requires Descending(Keys(s), |s|) && forall x | x in s :: AtLeast(c.logit, x.logit)
    ensures Descending(Keys([c] + s), |s| + 1)
  {
    var r := [c] + s;
    forall i, j | 0 <= i < j < |r|
      ensures AtLeast(Keys(r)[i], Keys(r)[j])
    {
      assert r[j] == s[j - 1] && (i > 0 ==> Keys(s)[i - 1] == r[i].logit && Keys(s)[j - 1] == r[j].logit);
    }
  }

  lemma HeadAndTail(s: seq<Candidate>)
    requires s != [] && Descending(Keys(s), |s|)
    ensures Descending(Keys(s[1..]), |s| - 1) && forall x | x in s :: AtLeast(s[0].logit, x.logit)
  {
    forall i, j | 0 <= i < j < |s| - 1
      ensures AtLeast(Keys(s[1..])[i], Keys(s[1..])[j])
    {
      assert AtLeast(Keys(s)[i + 1], Keys(s)[j + 1]);
    }
    forall x | x in s
      ensures AtLeast(s[0].logit, x.logit)
    {
      var i :| 0 <= i < |s| && s[i] == x;
      assert i > 0 ==> AtLeast(Keys(s)[0], Keys(s)[i]);
    }
  }

  function Insert(c: Candidate, s: seq<Candidate>): (r: seq<Candidate>)
    requires Descending(Keys(s), |s|)
    ensures multiset(r) == multiset(s) + multiset{c} && Descending(Keys(r), |r|)
  {
    if s == [] then [c]
    else
      HeadAndTail(s);
      if AtLeast(c.logit, s[0].logit) then
        InFrontOf(c, s);
        [c] + s
      else
        var rest := Insert(c, s[1..]);
        assert s == [s[0]] + s[1..];
        assert forall x | x in rest :: x in multiset(rest);
        InFrontOf(s[0], rest);
        [s[0]] + rest
  }

  function SortDown(s: seq<Candidate>): (r: seq<Candidate>)
    ensures Ordered(s, r)
  {
    if s == [] then []
    else
      assert s == s[..|s| - 1] + [s[|s| - 1]];
      Insert(s[|s| - 1], SortDown(s[..|s| - 1]))
  }

  /** What is asked of a selection and of a sort can be had. */
  lemma SomeSort()
    ensures Sorts(SortDown) && Selects((s, n) => SortDown(s))
  {
    forall s: seq<Candidate>, n: nat | 0 < n <= |s|
      ensures Selected(s, SortDown(s), n)
    {
      assert Ordered(s, SortDown(s));
      assert |multiset(s)| == |multiset(SortDown(s))|;
    }
  }

  // ----- when no excluded token can be drawn -----

  /** How many logits of a row are not excluded. */
  function Finites(keys: seq<Logit>): int {
    |keys| - multiset(keys)[NegInf]
  }

  lemma {:induction false} CountNone(keys: seq<Logit>)
    ensures 0 <= Finites(keys) <= |keys|
    ensures (forall i | 0 <= i < |keys| :: keys[i].NegInf?) ==> Finites(keys) == 0
    ensures (forall i | 0 <= i < |keys| :: keys[i].Finite?) ==> Finites(keys) == |keys|
  {
    if keys != [] {
      var k := |keys| - 1;
      CountNone(keys[..k]);
      assert keys == keys[..k] + [keys[k]];
    }
  }

  lemma FinitesSplit(keys: seq<Logit>, k: nat)
    requires k <= |keys|
    ensures Finites(keys) == Finites(keys[..k]) + Finites(keys[k..])
  {
    assert keys == keys[..k] + keys[k..];
  }

  /** With an excluded one among the first `k`, and none above it behind them, fewer than `k` are not excluded. */
  lemma FewFinite(keys: seq<Logit>, k: nat, i: nat)
    requires InFront(keys, k) && i < k && keys[i].NegInf?
    ensures Finites(keys) < k
  {
    forall j | k <= j < |keys|
      ensures keys[j].NegInf?
    {
      assert AtLeast(keys[i], keys[j]);
    }
    FinitesSplit(keys, k);
    FinitesSplit(keys[..k], i);
    FinitesSplit(keys[..k][i..], 1);
    CountNone(keys[k..]);
    CountNone(keys[..k][..i]);
    CountNone(keys[..k][i..][..1]);
    CountNone(keys[..k][i..][1..]);
  }

  /** In a descending row, the ones not excluded come first. */
  lemma FiniteFirst(keys: seq<Logit>, j: nat)
    requires Descending(keys, |keys|) && j < |keys| && keys[j].Finite?
    ensures Finites(keys) > j
  {
    forall i | 0 <= i < j
      ensures keys[i].Finite?
    {
      assert AtLeast(keys[i], keys[j]);
    }
    FinitesSplit(keys, j + 1);
    CountNone(keys[..j + 1]);
    CountNone(keys[j + 1..]);
  }

  /**
   * No excluded token can come first of what is drawn from, or come out for being
   * first: the draw is not zero, the candidates are cut by their weight, or there
   * are as many left as top-k takes, or the row's own first one is left.
   */
  predicate Safe(params: Params, logits: seq<Logit>, u: real) {
    || u > 0.0 || params.topP < 1.0 || params.minP > 0.0
    || if 0 < params.topK < |logits| then Finites(logits) >= params.topK else logits != [] && logits[0].Finite?
  }

  /** Enough of the row is left for all of the `k` largest not to be excluded. */
  lemma TopKIsFinite(logits: seq<Logit>, k: nat, kept: seq<Candidate>)
    requires 0 < k < |logits| && IsTopK(Candidates(logits), k, kept) && Finites(logits) >= k
    ensures kept != [] && kept[0].logit.Finite?
  {
    var rest :| Selected(Candidates(logits), kept + rest, k);
    SameKeys(kept + rest, Candidates(logits));
    if kept[0].logit.NegInf? {
      assert Keys(kept + rest)[0] == kept[0].logit;
      FewFinite(Keys(kept + rest), k, 0);
    }
  }

  /** The first and the `k`-th change places; with nothing above the `k`-th behind it, the `k` largest stay in front. */
  lemma SwapFront(s: seq<Candidate>, k: nat)
    requires 1 < k <= |s| && forall j | k - 1 <= j < |s| :: s[j].logit.NegInf?
    ensures Selected(s, [s[k - 1]] + s[1..k - 1] + [s[0]] + s[k..], k)
  {
    var r := [s[k - 1]] + s[1..k - 1] + [s[0]] + s[k..];
    assert s == [s[0]] + s[1..k - 1] + [s[k - 1]] + s[k..];
    assert forall j | k <= j < |r| :: Keys(r)[j] == s[j].logit;
  }

  lemma FiniteInFront(logits: seq<Logit>, s: seq<Candidate>, j: nat)
    requires Ordered(Candidates(logits), s) && Finites(logits) <= j < |s|
    ensures s[j].logit.NegInf?
  {
    SameKeys(s, Candidates(logits));
    if s[j].logit.Finite? {
      FiniteFirst(Keys(s), j);
    }
  }

  lemma SwappedIsTopK(all: seq<Candidate>, s: seq<Candidate>, k: nat, kept: seq<Candidate>)
    requires multiset(s) == multiset(all) && 1 < k < |all| == |s|
    requires forall j | k - 1 <= j < |s| :: s[j].logit.NegInf?
    requires kept == [s[k - 1]] + s[1..k - 1] + [s[0]]
    ensures IsTopK(all, k, kept) && kept[0].logit.NegInf?
  {
    SwapFront(s, k);
    assert Selected(all, kept + s[k..], k);
  }

  lemma ExcludedBehind(logits: seq<Logit>, s: seq<Candidate>, k: nat)
    requires Ordered(Candidates(logits), s) && Finites(logits) < k < |logits|
    ensures |s| == |logits| && forall j | k - 1 <= j < |s| :: s[j].logit.NegInf?
  {
    SameKeys(s, Candidates(logits));
    forall j | k - 1 <= j < |s|
      ensures s[j].logit.NegInf?
    {
      FiniteInFront(logits, s, j);
    }
  }

  /** Too little of the row is left: some selection puts an excluded one first. */
  lemma SomeTopKExcludes(logits: seq<Logit>, k: nat) returns (kept: seq<Candidate>)
    requires 0 < k < |logits| && 0 < Finites(logits) < k
    ensures IsTopK(Candidates(logits), k, kept) && kept[0].logit.NegInf?
  {
    var s := SortDown(Candidates(logits));
    ExcludedBehind(logits, s, k);
    kept := [s[k - 1]] + s[1..k - 1] + [s[0]];
    SwappedIsTopK(Candidates(logits), s, k, kept);
  }

  /** Every draw, of every selection, is of a token that was not excluded. */
  ghost predicate NeverExcluded(e: real -> real, params: Params, logits: seq<Logit>, u: real)
    requires params.temperature > 0.0
  {
    forall max, kept, token: nat | IsDraw(e, params, logits, u, max, kept, token) ::
      token < |logits| && logits[token].Finite?
  }

  /** The largest is among the `k` largest. */
  lemma TopKHasTop(max: real, all: seq<Candidate>, k: nat, top: seq<Candidate>)
    requires IsTop(max, all) && IsTopK(all, k, top)
    ensures IsTop(max, top)
  {
    var c :| c in all && c.logit == Finite(max);
    NotAbove(all, k, top, c);
    assert top[0] in top;
    forall x | x in top
      ensures x in all
    {
      TopKAmong(all, k, top, x);
    }
  }

  /** What is left to draw from has something to draw, and in it an excluded token comes first only at a loss. */
  lemma FilteredHasWeight(e: real -> real, params: Params, max: real, logits: seq<Logit>, top: seq<Candidate>,
                          nucleus: seq<Candidate>, kept: seq<Candidate>)
    requires Exponential(e) && IsTop(max, Candidates(logits)) && kept != []
    requires Filtered(e, params, max, logits, top, nucleus, kept)
    ensures HasWeight(kept) && forall c | c in kept :: c in Candidates(logits)
    ensures params.topP < 1.0 || params.minP > 0.0 ==> kept[0].logit.Finite?
    ensures !(params.topP < 1.0 || params.minP > 0.0) ==> kept == top
  {
    TopKHasTop(max, Candidates(logits), params.topK, top);
    if params.topP < 1.0 {
      SomeSort();
      NucleusKeepsTop(e, max, top, Goal(e, max, top, params.topP), nucleus, SortDown);
      NucleusAmong(e, max, top, Goal(e, max, top, params.topP), nucleus);
    }
    if params.minP > 0.0 {
      HeavyIsFinite(e, max, nucleus, params.minP);
    }
    assert kept[0] in kept;
    forall c | c in kept
      ensures c in Candidates(logits)
    {
      assert c in top;
      TopKAmong(Candidates(logits), params.topK, top, c);
    }
  }

  lemma DrawIsFinite(e: real -> real, params: Params, logits: seq<Logit>, u: real, max: real, kept: seq<Candidate>,
                     token: nat)
    requires Exponential(e) && params.temperature > 0.0 && 0.0 <= u < 1.0
    requires IsDraw(e, params, logits, u, max, kept, token) && Safe(params, logits, u)
    ensures token < |logits| && logits[token].Finite?
  {
    var top, nucleus :| Filtered(e, params, max, logits, top, nucleus, kept);
    var j: nat :| DrewAt(e, max, Scale(params), kept, u, j) && kept[j].token == token;
    FilteredHasWeight(e, params, max, logits, top, nucleus, kept);
    assert kept[j] in kept;
    CandidateIs(logits, kept[j]);
    DrawFits(e, max, Scale(params), kept, u);
    DrawnHasWeightIff(e, max, Scale(params), Keys(kept), Point(e, max, Scale(params), kept, u), j);
    SafeFirst(e, params, max, logits, u, top, nucleus, kept);
  }

  /** Where nothing excluded can be drawn, the draw is above zero or the first candidate is not excluded. */
  lemma SafeFirst(e: real -> real, params: Params, max: real, logits: seq<Logit>, u: real, top: seq<Candidate>,
                  nucleus: seq<Candidate>, kept: seq<Candidate>)
    requires Exponential(e) && IsTop(max, Candidates(logits)) && kept != []
    requires Filtered(e, params, max, logits, top, nucleus, kept) && Safe(params, logits, u)
    ensures u > 0.0 || kept[0].logit.Finite?
  {
    FilteredHasWeight(e, params, max, logits, top, nucleus, kept);
    if 0 < params.topK < |logits| && Finites(logits) >= params.topK {
      TopKIsFinite(logits, params.topK, top);
    }
  }

  /** Some selection draws an excluded token where nothing rules it out. */
  lemma SomeExcluded(e: real -> real, params: Params, logits: seq<Logit>) returns (max: real, kept: seq<Candidate>)
    requires Exponential(e) && params.temperature > 0.0 && !NothingLeft(logits) && !Safe(params, logits, 0.0)
    ensures kept != [] && kept[0].logit.NegInf? && kept[0] in Candidates(logits)
    ensures IsDraw(e, params, logits, 0.0, max, kept, kept[0].token)
  {
    max := TopOf(logits);
    if 0 < params.topK < |logits| {
      kept := SomeTopKExcludes(logits, params.topK);
      TopKAmong(Candidates(logits), params.topK, kept, kept[0]);
    } else {
      kept := Candidates(logits);
    }
    ZeroDrawsFirst(e, params, logits, max, kept);
  }

  /** Whatever the selection, no excluded token is drawn exactly when the draw, the filters or the row rule it out. */
  lemma NeverExcludedIff(e: real -> real, params: Params, logits: seq<Logit>, u: real)
    requires Exponential(e) && params.temperature > 0.0 && 0.0 <= u < 1.0 && !NothingLeft(logits)
    ensures NeverExcluded(e, params, logits, u) <==> Safe(params, logits, u)
  {
    if Safe(params, logits, u) {
      forall max, kept, token: nat | IsDraw(e, params, logits, u, max, kept, token)
        ensures token < |logits| && logits[token].Finite?
      {
        DrawIsFinite(e, params, logits, u, max, kept, token);
      }
    } else {
      var max, kept := SomeExcluded(e, params, logits);
      assert logits[kept[0].token] == kept[0].logit;
    }
  }

  lemma FirstIsTop(all: seq<Candidate>, s: seq<Candidate>, c: Candidate)
    requires Ordered(all, s) && c in all && c.logit.Finite?
    ensures s != [] && s[0].logit.Finite? && IsTop(s[0].logit.value, all)
  {
    assert c in multiset(all) && c in multiset(s);
    HeadAndTail(s);
    assert s[0] in multiset(s) && s[0] in multiset(all);
    forall x | x in all
      ensures AtLeast(s[0].logit, x.logit)
    {
      assert x in multiset(all) && x in multiset(s);
    }
  }

  lemma TopOf(logits: seq<Logit>) returns (max: real)
    requires !NothingLeft(logits)
    ensures IsTop(max, Candidates(logits)) && Finites(logits) > 0
  {
    var all := Candidates(logits);
    var s := SortDown(all);
    var l :| l in logits && l.Finite?;
    var i :| 0 <= i < |logits| && logits[i] == l;
    FirstIsTop(all, s, all[i]);
    max := s[0].logit.value;
    if Finites(logits) <= 0 {
      FiniteInFront(logits, s, 0);
    }
  }

  lemma ZeroDrawsFirst(e: real -> real, params: Params, logits: seq<Logit>, max: real, kept: seq<Candidate>)
    requires Exponential(e) && params.temperature > 0.0 && params.topP >= 1.0 && params.minP <= 0.0
    requires IsTop(max, Candidates(logits)) && IsTopK(Candidates(logits), params.topK, kept) && kept != []
    ensures IsDraw(e, params, logits, 0.0, max, kept, kept[0].token)
  {
    assert Filtered(e, params, max, logits, kept, kept, kept);
    SumNotNegative(e, max, Scale(params), Keys(kept)[..1]);
    assert DrewAt(e, max, Scale(params), kept, 0.0, 0);
  }

  // ----- what the filters leave, in the logits themselves -----

  /** No more likely: excluded, or neither is and the value is no larger. */
  predicate NoLarger(a: Logit, b: Logit) {
    a.NegInf? || (b.Finite? && a.value <= b.value)
  }

  /** Nothing that is dropped is larger than anything that is left. */
  ghost predicate LargestLeft(all: seq<Candidate>, kept: seq<Candidate>) {
    && multiset(kept) <= multiset(all)
    && forall c, d | c in multiset(all) - multiset(kept) && d in kept :: NoLarger(c.logit, d.logit)
  }

  lemma TopKMeans(all: seq<Candidate>, k: nat, kept: seq<Candidate>)
    requires IsTopK(all, k, kept) && 0 < k < |all|
    ensures |kept| == k && LargestLeft(all, kept)
  {
    var rest :| Selected(all, kept + rest, k);
    var s := kept + rest;
    assert multiset(s) == multiset(kept) + multiset(rest);
    forall c, d | c in multiset(all) - multiset(kept) && d in kept
      ensures NoLarger(c.logit, d.logit)
    {
      assert c in multiset(rest);
      var i :| 0 <= i < |rest| && rest[i] == c;
      var j :| 0 <= j < |kept| && kept[j] == d;
      assert s[k + i] == c && s[j] == d;
      assert AtLeast(Keys(s)[j], Keys(s)[k + i]);
    }
  }

  /** A part weighs its share of the whole. */
  ghost predicate HasShare(e: real -> real, part: seq<Logit>, whole: seq<Logit>, share: real) {
    Part(share, Mass(e, 1.0, whole)) <= Mass(e, 1.0, part)
  }

  lemma HasShareIff(e: real -> real, max: real, part: seq<Logit>, whole: seq<Logit>, share: real)
    requires Exponential(e)
    ensures HasShare(e, part, whole, share) <==>
            Part(share, Sum(e, max, 1.0, whole)) <= Sum(e, max, 1.0, part)
  {
    ShareIs(e, max, 1.0, 1.0, part, whole, share);
  }

  /** The shortest run of the most likely that weighs its share of them all. */
  ghost predicate ShortestShare(e: real -> real, all: seq<Candidate>, share: real, kept: seq<Candidate>) {
    && kept != [] && multiset(kept) <= multiset(all)
    && (forall i, j | 0 <= i < j < |kept| :: NoLarger(kept[j].logit, kept[i].logit))
    && HasShare(e, Keys(kept), Keys(all), share)
    && forall m: nat | 0 < m < |kept| :: !HasShare(e, Keys(kept)[..m], Keys(all), share)
  }

  lemma CutMeans(e: real -> real, max: real, all: seq<Logit>, share: real, full: seq<Logit>, keys: seq<Logit>)
    requires Exponential(e) && keys <= full
    requires IsCut(e, max, full, Part(share, Sum(e, max, 1.0, all)), |keys|)
    ensures HasShare(e, keys, all, share) && forall m: nat | 0 < m < |keys| :: !HasShare(e, keys[..m], all, share)
  {
    assert full[..|keys|] == keys;
    HasShareIff(e, max, keys, all, share);
    forall m: nat | 0 < m < |keys|
      ensures !HasShare(e, keys[..m], all, share)
    {
      assert keys[..m] == full[..m];
      HasShareIff(e, max, keys[..m], all, share);
    }
  }

  lemma NucleusMeans(e: real -> real, max: real, all: seq<Candidate>, topP: real, kept: seq<Candidate>)
    requires Exponential(e) && IsNucleus(e, max, all, Goal(e, max, all, topP), kept)
    ensures ShortestShare(e, all, if topP > 0.0 then topP else 0.0, kept)
  {
    var full := SortDown(all);
    assert Ordered(all, full);
    NucleusFrom(e, max, all, topP, Keys(full), kept);
  }

  lemma NucleusFrom(e: real -> real, max: real, all: seq<Candidate>, topP: real, full: seq<Logit>,
                    kept: seq<Candidate>)
    requires Exponential(e) && multiset(kept) <= multiset(all) && Descending(Keys(kept), |kept|)
    requires IsCut(e, max, full, Goal(e, max, all, topP), |kept|) && Keys(kept) == full[..|kept|]
    ensures ShortestShare(e, all, if topP > 0.0 then topP else 0.0, kept)
  {
    CutMeans(e, max, Keys(all), if topP > 0.0 then topP else 0.0, full, Keys(kept));
    forall i, j | 0 <= i < j < |kept|
      ensures NoLarger(kept[j].logit, kept[i].logit)
    {
      assert AtLeast(Keys(kept)[i], Keys(kept)[j]);
    }
  }

  /** At least so likely, next to the most likely. */
  predicate LikelyEnough(e: real -> real, max: real, threshold: real, logit: Logit) {
    logit.Finite? && e(logit.value) >= threshold * e(max)
  }

  lemma HeavyMeans(e: real -> real, max: real, s: seq<Candidate>, threshold: real)
    requires Exponential(e) && threshold > 0.0
    ensures forall c :: c in Heavy(e, max, s, threshold) <==> c in s && LikelyEnough(e, max, threshold, c.logit)
  {
    forall c: Candidate
      ensures Weight(e, max, 1.0, c.logit) >= threshold <==> LikelyEnough(e, max, threshold, c.logit)
    {
      LikelyIff(e, max, threshold, c.logit);
    }
  }

  lemma LikelyIff(e: real -> real, max: real, threshold: real, logit: Logit)
    requires Exponential(e) && threshold > 0.0
    ensures Weight(e, max, 1.0, logit) >= threshold <==> LikelyEnough(e, max, threshold, logit)
  {
    OneMass(e, max, 1.0, 1.0, logit);
    assert Positive(e, max) && max / 1.0 == max;
    assert logit.Finite? ==> logit.value / 1.0 == logit.value;
    SameOrder(threshold, Weight(e, max, 1.0, logit), e(max));
    WeightPositive(e, max, 1.0, logit);
  }

  /** What each filter of a draw leaves, told from the logits. */
  lemma FiltersMean(e: real -> real, params: Params, max: real, logits: seq<Logit>, top: seq<Candidate>,
                    nucleus: seq<Candidate>, kept: seq<Candidate>)
    requires Exponential(e) && Filtered(e, params, max, logits, top, nucleus, kept)
    ensures 0 < params.topK < |logits| ==> |top| == params.topK && LargestLeft(Candidates(logits), top)
    ensures params.topP < 1.0 ==> ShortestShare(e, top, if params.topP > 0.0 then params.topP else 0.0, nucleus)
    ensures params.minP > 0.0 ==>
              forall c :: c in kept <==> c in nucleus && LikelyEnough(e, max, params.minP, c.logit)
  {
    if 0 < params.topK < |logits| {
      TopKMeans(Candidates(logits), params.topK, top);
    }
    if params.topP < 1.0 {
      NucleusMeans(e, max, top, params.topP, nucleus);
    }
    if params.minP > 0.0 {
      HeavyMeans(e, max, nucleus, params.minP);
    }
  }

  /** The largest logit a draw goes by is the largest there is. */
  lemma TopMeans(max: real, logits: seq<Logit>)
    requires IsTop(max, Candidates(logits))
    ensures Finite(max) in logits && forall l | l in logits && l.Finite? :: l.value <= max
  {
    var c :| c in Candidates(logits) && c.logit == Finite(max);
    forall l | l in logits && l.Finite?
      ensures l.value <= max
    {
      var t :| 0 <= t < |logits| && logits[t] == l;
      assert Candidates(logits)[t] in Candidates(logits);
    }
  }
}
