/**
 * Knuth-Morris-Pratt matching as the raw-text parameter value uses it: the
 * failure table, one byte of the scan, and what the scan's counter means.
 */
module Kmp {

  /** `p` is a suffix of `s`. */
  ghost predicate IsSuffix<T>(p: seq<T>, s: seq<T>) {
    |p| <= |s| && forall i | 0 <= i < |p| :: p[i] == s[|s| - |p| + i]
  }

  /** The largest `k <= limit` such that the first `k` elements of `needle` end `text`. */
  ghost function LongestUpTo<T>(needle: seq<T>, text: seq<T>, limit: nat): (k: nat)
    requires limit <= |needle|
    ensures k <= limit && IsSuffix(needle[..k], text)
    ensures forall j :: k < j <= limit ==> !IsSuffix(needle[..j], text)
  {
    if limit == 0 || IsSuffix(needle[..limit], text) then limit else LongestUpTo(needle, text, limit - 1)
  }

  /** How much of `needle` is matched at the end of `text`: what the scan's counter stands for. */
  ghost function Matched<T>(needle: seq<T>, text: seq<T>): nat {
    LongestUpTo(needle, text, |needle|)
  }

  /** The longest proper border of the first `k` elements. */
  ghost function Border<T>(needle: seq<T>, k: nat): nat
    requires k <= |needle|
  {
    if k == 0 then 0 else LongestUpTo(needle, needle[..k], k - 1)
  }

  /** The counter after one more element, with `k` of `needle` matched before it. */
  ghost function Advance<T>(needle: seq<T>, k: nat, b: T): nat
    requires k <= |needle|
  {
    Matched(needle, needle[..k] + [b])
  }

  /** `text` ends with `needle` and no shorter prefix of it does: the first occurrence just closed. */
  ghost predicate FirstEnds<T>(needle: seq<T>, text: seq<T>) {
    text != [] && IsSuffix(needle, text) && Absent(needle, text[..|text| - 1])
  }

  /** `needle` occurs nowhere in `text`. */
  ghost predicate Absent<T>(needle: seq<T>, text: seq<T>) {
    forall j | 0 <= j <= |text| :: !IsSuffix(needle, text[..j])
  }

  lemma LongestIsUnique<T>(needle: seq<T>, text: seq<T>, limit: nat, k: nat)
    requires k <= limit <= |needle|
    requires IsSuffix(needle[..k], text)
    requires forall j :: k < j <= limit ==> !IsSuffix(needle[..j], text)
    ensures LongestUpTo(needle, text, limit) == k
  {
  }

  /** A prefix of `needle` one longer ends `text + [b]` exactly when it ended `text` and `b` continues it. */
  lemma SuffixSnoc<T>(needle: seq<T>, text: seq<T>, b: T, j: nat)
    requires 1 <= j <= |needle|
    ensures IsSuffix(needle[..j], text + [b]) <==> IsSuffix(needle[..j - 1], text) && needle[j - 1] == b
  {
    var whole := text + [b];
    assert needle[..j] == needle[..j - 1] + [needle[j - 1]];
    if j <= |whole| {
      assert whole[|whole| - j..] == text[|text| - (j - 1)..] + [b];
    }
  }

  /** Of two suffixes of the same text, the shorter is a suffix of the longer. */
  lemma SuffixOfSuffix<T>(p: seq<T>, q: seq<T>, text: seq<T>)
    requires IsSuffix(q, text) && |p| <= |q|
    ensures IsSuffix(p, text) <==> IsSuffix(p, q)
  {
    assert q[|q| - |p|..] == text[|text| - |p|..];
  }

  /** The automaton law: the counter alone decides how the match continues. */
  lemma AdvanceIsMatched<T>(needle: seq<T>, text: seq<T>, b: T)
    ensures Matched(needle, text + [b]) == Advance(needle, Matched(needle, text), b)
  {
    var k := Matched(needle, text);
    var short := needle[..k];
    forall j | 1 <= j <= |needle|
      ensures IsSuffix(needle[..j], text + [b]) <==> IsSuffix(needle[..j], short + [b])
    {
      SuffixSnoc(needle, text, b, j);
      SuffixSnoc(needle, short, b, j);
      if j - 1 <= k {
        SuffixOfSuffix(needle[..j - 1], short, text);
      }
    }
    LongestIsUnique(needle, text + [b], |needle|, Matched(needle, short + [b]));
  }

  /** The whole needle is matched exactly when it has just closed. */
  lemma MatchedIsEnd<T>(needle: seq<T>, text: seq<T>)
    ensures Matched(needle, text) == |needle| <==> IsSuffix(needle, text)
  {
    assert needle[..|needle|] == needle;
  }

  /** What the fallback walk keeps: `k` is still a candidate and nothing longer can match. */
  ghost predicate Candidate<T>(needle: seq<T>, text: seq<T>, b: T, k: nat, limit: nat) {
    && k < |needle|
    && k < limit <= |needle|
    && IsSuffix(needle[..k], text)
    && forall j :: k + 1 < j <= limit ==> !IsSuffix(needle[..j], text + [b])
  }

  /** The longest match below `limit` is where the walk starts. */
  lemma WalkStarts<T>(needle: seq<T>, text: seq<T>, b: T, limit: nat)
    requires 0 < limit <= |needle|
    ensures Candidate(needle, text, b, LongestUpTo(needle, text, limit - 1), limit)
  {
    forall j | LongestUpTo(needle, text, limit - 1) + 1 < j <= limit
      ensures !IsSuffix(needle[..j], text + [b])
    {
      SuffixSnoc(needle, text, b, j);
    }
  }

  /** A mismatch at `k` rules out everything down to `k`'s longest proper border. */
  lemma FallBack<T>(needle: seq<T>, text: seq<T>, b: T, k: nat, limit: nat)
    requires Candidate(needle, text, b, k, limit) && k > 0 && needle[k] != b
    ensures Border(needle, k) < k && Candidate(needle, text, b, Border(needle, k), limit)
  {
    var border := Border(needle, k);
    SuffixOfSuffix(needle[..border], needle[..k], text);
    forall j | border + 1 < j <= limit
      ensures !IsSuffix(needle[..j], text + [b])
    {
      SuffixSnoc(needle, text, b, j);
      if j <= k {
        SuffixOfSuffix(needle[..j - 1], needle[..k], text);
      }
    }
  }

  /** Where the walk stops: either the candidate continues with `b`, or nothing does. */
  lemma WalkEnds<T>(needle: seq<T>, text: seq<T>, b: T, k: nat, limit: nat)
    requires Candidate(needle, text, b, k, limit)
    requires needle[k] == b || k == 0
    ensures LongestUpTo(needle, text + [b], limit) == if needle[k] == b then k + 1 else 0
  {
    SuffixSnoc(needle, text, b, k + 1);
    LongestIsUnique(needle, text + [b], limit, if needle[k] == b then k + 1 else 0);
  }

  /** Fall back along the table until `b` continues the candidate or nothing is left of it. */
  method Walk<T(==)>(needle: seq<T>, fallback: seq<nat>, k: nat, b: T, ghost text: seq<T>, ghost limit: nat)
    returns (r: nat)
    requires Candidate(needle, text, b, k, limit) && k < |fallback|
    requires forall i | 0 <= i <= k :: fallback[i] == Border(needle, i)
    ensures r <= k && Candidate(needle, text, b, r, limit) && (needle[r] == b || r == 0)
  {
    r := k;
    while r > 0 && needle[r] != b
      invariant r <= k && Candidate(needle, text, b, r, limit)
    {
      FallBack(needle, text, b, r, limit);
      r := fallback[r];
    }
  }

  /** The longest proper border of one more element, from the border of the prefix before it. */
  method NextBorder<T(==)>(needle: seq<T>, fallback: seq<nat>, at: nat) returns (border: nat)
    requires 1 <= at < |needle| && |fallback| == at + 1
    requires forall k | 0 <= k <= at :: fallback[k] == Border(needle, k)
    ensures border == Border(needle, at + 1) <= at
  {
    ghost var text := needle[..at];
    assert text + [needle[at]] == needle[..at + 1];
    WalkStarts(needle, text, needle[at], at);
    border := Walk(needle, fallback, fallback[at], needle[at], text, at);
    WalkEnds(needle, text, needle[at], border, at);
    if needle[at] == needle[border] {
      border := border + 1;
    }
  }

  /**
   * The failure table, one byte per entry: for each prefix length, its longest
   * proper border. A border of a 256-byte needle still fits the byte.
   */
  method Fallback<T(==)>(needle: seq<T>) returns (fallback: seq<nat>)
    requires |needle| <= 256
    ensures |fallback| == |needle| + 1
    ensures forall k | 0 <= k <= |needle| :: fallback[k] == Border(needle, k) < 256
  {
    if needle == [] {
      return [0];
    }
    fallback := [0, 0];
    for at := 1 to |needle|
      invariant |fallback| == at + 1
      invariant forall k | 0 <= k <= at :: fallback[k] == Border(needle, k) < 256
    {
      var border := NextBorder(needle, fallback, at);
      fallback := fallback + [border % 256];
    }
  }

  /** One element of the scan. */
  method AdvanceBy<T(==)>(needle: seq<T>, fallback: seq<nat>, k: nat, b: T) returns (r: nat)
    requires k < |needle| && |fallback| == |needle| + 1
    requires forall i | 0 <= i <= |needle| :: fallback[i] == Border(needle, i)
    ensures r == Advance(needle, k, b)
  {
    ghost var text := needle[..k];
    assert forall j :: k + 1 < j <= |needle| ==> !IsSuffix(needle[..j], text + [b]);
    r := Walk(needle, fallback, k, b, text, |needle|);
    WalkEnds(needle, text, b, r, |needle|);
    r := if needle[r] == b then r + 1 else 0;
  }
}
