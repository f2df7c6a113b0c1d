/** How a stretch of prompt is cut into pieces, each of a width some pass was built for. */
module Shapes {
  import opened Division
  import opened Retentions

  /** What was built at startup. */
  datatype Plan = Plan(chunk: nat, interval: nat, tails: seq<nat>, maxBatch: nat)

  /** Which of the prebuilt passes runs a piece. */
  datatype Shape = Chunk | WholeInterval | Tail(index: nat) | Narrow(width: nat) | Missing

  function Min(a: nat, b: nat): nat {
    if a < b then a else b
  }

  function Max(a: nat, b: nat): nat {
    if a < b then b else a
  }

  // ----- the tails -----

  function TailCeiling(chunk: nat, interval: nat): nat {
    Min(Min(chunk, Max(interval, 1)), 256)
  }

  /** A width built as a tail: a power of two no other pass covers. */
  predicate IsTail(chunk: nat, interval: nat, maxBatch: nat, width: nat) {
    && 2 <= width <= TailCeiling(chunk, interval) && IsPowerOfTwo(width)
    && width > maxBatch && width != chunk && width != interval
  }

  predicate Ascending(widths: seq<nat>) {
    forall i, j | 0 <= i < j < |widths| :: widths[i] < widths[j]
  }

  method BuildTails(chunk: nat, interval: nat, maxBatch: nat) returns (tails: seq<nat>)
    ensures Ascending(tails)
    ensures forall w: nat :: w in tails <==> IsTail(chunk, interval, maxBatch, w)
    ensures forall w: nat :: w in tails <==>
              && IsPowerOfTwo(w) && 2 <= w <= 256 && w <= chunk && w <= interval
              && w > maxBatch && w != chunk && w != interval
  {
    tails := [];
    var ceiling := TailCeiling(chunk, interval);
    var tail := 2;
    assert IsPowerOfTwo(tail) by { assert IsPowerOfTwo(1); }
    while tail <= ceiling
      invariant tail >= 2 && IsPowerOfTwo(tail) && Ascending(tails)
      invariant forall i | 0 <= i < |tails| :: tails[i] < tail
      invariant forall w: nat :: w in tails <==> w < tail && IsTail(chunk, interval, maxBatch, w)
    {
      if tail > maxBatch && tail != chunk && tail != interval {
        tails := tails + [tail];
      }
      forall w: nat | tail < w < 2 * tail
        ensures !IsPowerOfTwo(w)
      {
        BetweenPowers(tail, w);
      }
      tail := tail * 2;
    }
  }

  lemma {:induction false} BetweenPowers(p: nat, w: nat)
    requires IsPowerOfTwo(p) && p < w < 2 * p
    ensures !IsPowerOfTwo(w)
    decreases p
  {
    if p > 1 && w % 2 == 0 {
      BetweenPowers(p / 2, w / 2);
    }
  }

  // ----- the width of the next piece -----

  /** How far the next multiple of the interval is; no bound without an interval. */
  predicate FitsBefore(interval: nat, position: nat, width: nat) {
    interval > 0 ==> position % interval + width <= interval
  }

  /** What startup leaves: some chunk, some decode width, and the tails as built. */
  ghost predicate Built(plan: Plan) {
    && plan.chunk > 0 && plan.maxBatch > 0 && Ascending(plan.tails)
    && forall w: nat :: w in plan.tails <==> IsTail(plan.chunk, plan.interval, plan.maxBatch, w)
  }

  predicate TailFits(plan: Plan, position: nat, remaining: nat, width: nat) {
    width <= remaining && FitsBefore(plan.interval, position, width)
  }

  /** The widest of the first `n` tails that fits, searching from the widest down; 0 if none does. */
  function WidestTail(plan: Plan, position: nat, remaining: nat, n: nat): (w: nat)
    requires n <= |plan.tails| && Ascending(plan.tails) && forall t | t in plan.tails :: t > 0
    ensures w > 0 ==> w in plan.tails && TailFits(plan, position, remaining, w)
    ensures forall i | 0 <= i < n && TailFits(plan, position, remaining, plan.tails[i]) :: plan.tails[i] <= w
  {
    if n == 0 then 0
    else if TailFits(plan, position, remaining, plan.tails[n - 1]) then plan.tails[n - 1]
    else WidestTail(plan, position, remaining, n - 1)
  }

  function ToBoundary(interval: nat, position: nat, remaining: nat): nat {
    if interval == 0 then remaining else interval - position % interval
  }

  /** The pass a piece of this width is sent to. */
  function PassFor(plan: Plan, width: nat): Shape {
    if width == plan.chunk then Chunk
    else if width == plan.interval && width != 1 then
      (if plan.interval > 0 && plan.interval != plan.chunk then WholeInterval else Missing)
    else
      var index := IndexOf(plan.tails, width);
      if index < |plan.tails| then Tail(index)
      else if 1 <= width <= plan.maxBatch then Narrow(width) else Missing
  }

  function IndexOf(widths: seq<nat>, width: nat): (i: nat)
    ensures i <= |widths| && (i < |widths| ==> widths[i] == width)
    ensures i == |widths| ==> width !in widths
  {
    if widths == [] then 0 else if widths[0] == width then 0 else 1 + IndexOf(widths[1..], width)
  }

  /** The width a pass was built for. */
  function WidthOf(plan: Plan, shape: Shape): nat {
    match shape
    case Chunk => plan.chunk
    case WholeInterval => plan.interval
    case Tail(index) => if index < |plan.tails| then plan.tails[index] else 0
    case Narrow(width) => width
    case Missing => 0
  }

  /**
   * The width of the next piece: some work, no more than there is, passing over
   * no multiple of the interval, and of a width some pass was built for.
   */
  function ChooseWidth(plan: Plan, position: nat, remaining: nat): (w: nat)
    requires Built(plan) && remaining > 0
    ensures 1 <= w <= remaining && NoCross(plan.interval, position, position + w)
    ensures PassFor(plan, w) != Missing && WidthOf(plan, PassFor(plan, w)) == w
  {
    if remaining >= plan.chunk && FitsBefore(plan.interval, position, plan.chunk) then plan.chunk
    else if plan.interval > 0 && remaining >= plan.interval && position % plan.interval == 0 then plan.interval
    else
      var tail := WidestTail(plan, position, remaining, |plan.tails|);
      if tail > 0 then tail
      else Max(Min(Min(remaining, ToBoundary(plan.interval, position, remaining)), plan.maxBatch), 1)
  }

  /** A width is built with every pass. */
  predicate HasPass(plan: Plan, width: nat) {
    width == plan.chunk || width == plan.interval || width in plan.tails || 1 <= width <= plan.maxBatch
  }

  /**
   * Nothing wider than what is chosen would fit and has a pass, but that the chunk
   * goes before an interval, or a decode width, longer than it.
   */
  lemma NothingWider(plan: Plan, position: nat, remaining: nat, v: nat)
    requires Built(plan) && remaining > 0 && HasPass(plan, v)
    requires v <= remaining && (plan.interval > 0 ==> position % plan.interval + v <= plan.interval)
    ensures v <= ChooseWidth(plan, position, remaining)
         || (ChooseWidth(plan, position, remaining) == plan.chunk && (v == plan.interval || v <= plan.maxBatch))
  {
    var w := ChooseWidth(plan, position, remaining);
    if v in plan.tails {
      assert IsTail(plan.chunk, plan.interval, plan.maxBatch, v);
      var i :| 0 <= i < |plan.tails| && plan.tails[i] == v;
      assert TailFits(plan, position, remaining, plan.tails[i]);
    }
  }

  /** The chunk, where it fits; else the whole interval, where that does. */
  lemma WideFirst(plan: Plan, position: nat, remaining: nat)
    requires Built(plan) && remaining > 0
    ensures var chunkFits := plan.chunk <= remaining
                             && (plan.interval > 0 ==> position % plan.interval + plan.chunk <= plan.interval);
            && (chunkFits ==> ChooseWidth(plan, position, remaining) == plan.chunk)
            && (!chunkFits && plan.interval > 0 && plan.interval <= remaining && position % plan.interval == 0 ==>
                  ChooseWidth(plan, position, remaining) == plan.interval)
  {
  }
}
