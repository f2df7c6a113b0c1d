/** Which positions of a sequence are retained: every multiple of the interval, until the arena runs out. */
module Retentions {
  import opened Division
  import opened Options
  import opened Decoding
  import opened States
  import Arenas

  /** Going from `from` to `to` may land on a multiple of the interval, but passes none. */
  predicate NoCross(interval: nat, from: nat, to: nat) {
    from <= to && (interval > 0 ==> from % interval + (to - from) <= interval)
  }

  lemma RemainderMoves(interval: nat, from: nat, distance: nat)
    requires interval > 0 && from % interval + distance <= interval
    ensures (from + distance) % interval
         == if from % interval + distance == interval then 0 else from % interval + distance
  {
    var q, r := from / interval, from % interval;
    assert from + distance == q * interval + (r + distance);
    if r + distance == interval {
      assert from + distance == (q + 1) * interval;
      ModIs(interval, q + 1, 0);
    } else {
      ModIs(interval, q, r + distance);
    }
  }

  /** How many multiples of the interval lie past `from`, up to `to`. */
  function Crossed(interval: nat, from: nat, to: nat): int
    requires interval > 0
  {
    to / interval - from / interval
  }

  lemma CrossOne(interval: nat, from: nat, to: nat)
    requires interval > 0 && from < to && NoCross(interval, from, to)
    ensures Crossed(interval, from, to) == if to % interval == 0 then 1 else 0
  {
    var q, r, d := from / interval, from % interval, to - from;
    assert to == q * interval + (r + d);
    if r + d == interval {
      assert to == (q + 1) * interval + 0;
      ModIs(interval, q + 1, 0);
    } else {
      ModIs(interval, q, r + d);
    }
  }

  /** With no multiple since `last`, the next position is one exactly when it is an interval's worth away. */
  lemma SinceLast(interval: nat, last: nat, before: nat, position: nat)
    requires interval > 0 && last <= before && last % interval + (before - last) < interval
    requires NoCross(interval, before, position)
    ensures last % interval + (position - last) <= interval
    ensures position % interval == 0 <==> (position == last && last % interval == 0)
                                          || last % interval + (position - last) == interval
  {
    RemainderMoves(interval, last, before - last);
    RemainderMoves(interval, last, position - last);
  }

  /** The multiples that follow `start`, one interval apart, none left out. */
  ghost predicate Cadence(interval: nat, start: nat, retained: seq<nat>)
    requires interval > 0
  {
    forall i | 0 <= i < |retained| ::
      && retained[i] % interval == 0
      && (i == 0 ==> start < retained[i] <= start + interval)
      && (i > 0 ==> retained[i] == retained[i - 1] + interval)
  }

  /** Where a sequence at `position` last retained, and that nothing was passed over since. */
  ghost predicate Cadenced(interval: nat, start: nat, last: nat, retained: seq<nat>, disabled: bool, position: nat) {
    && start <= last <= position && last == (if retained == [] then start else retained[|retained| - 1])
    && (interval == 0 ==> retained == [] && !disabled)
    && (interval > 0 ==> Cadence(interval, start, retained))
    && (interval > 0 && !disabled ==> last % interval + (position - last) < interval)
  }

  /** A position of which a snapshot is due. */
  predicate Due(interval: nat, disabled: bool, before: nat, position: nat) {
    interval > 0 && !disabled && before < position && position % interval == 0
  }

  /** What the code looks at tells a due position from any other. */
  lemma DueIs(interval: nat, start: nat, last: nat, retained: seq<nat>, disabled: bool, before: nat, position: nat)
    requires Cadenced(interval, start, last, retained, disabled, before) && before <= position
    requires !disabled ==> NoCross(interval, before, position)
    ensures Due(interval, disabled, before, position) <==>
              interval > 0 && !disabled && position > last && position % interval == 0
    ensures !Due(interval, disabled, before, position) ==>
              Cadenced(interval, start, last, retained, disabled, position)
  {
    if interval > 0 && !disabled {
      SinceLast(interval, last, before, position);
      RemainderMoves(interval, last, before - last);
    }
  }

  /** A due position is an interval past the last multiple, and carries the cadence on. */
  lemma DueFits(interval: nat, start: nat, last: nat, retained: seq<nat>, before: nat, position: nat)
    requires Cadenced(interval, start, last, retained, false, before) && NoCross(interval, before, position)
    requires Due(interval, false, before, position)
    ensures last < position <= last + interval && (last % interval == 0 ==> position == last + interval)
    ensures Cadenced(interval, start, position, retained + [position], false, position)
    ensures Cadenced(interval, start, last, retained, true, position)
  {
    SinceLast(interval, last, before, position);
    var more := retained + [position];
    assert forall i | 0 <= i < |retained| :: more[i] == retained[i];
  }

  /** A snapshot taken: which it is, where it starts, which is its parent's end, and where it ends. */
  datatype Taken = Nothing | Exhausted | Snapshot(id: nat, start: nat, end: nat)

  /** What was captured before is captured still. */
  ghost predicate CapturedOn(before: map<nat, Memory>, now: map<nat, Memory>) {
    forall id | id in before :: id in now && now[id] == before[id]
  }

  /** One sequence's retention: its last snapshot, which the next one hangs on, and whether it still retains. */
  class Retention {
    const interval: nat
    const arena: Arenas.SnapshotArena
    ghost const start: nat
    var lastPosition: nat
    var lastSnapshot: Option<nat>
    var disabled: bool
    ghost var retained: seq<nat>

    /** For a sequence whose state is the fold of `tokens`. */
    ghost predicate Valid(net: Net, tokens: seq<Token>)
      reads this, arena
    {
      && arena.Valid() && arena.interval == interval
      && Cadenced(interval, start, lastPosition, retained, disabled, |tokens|) && Anchored(net, tokens)
    }

    /** The last snapshot is held, and was taken where the sequence last retained. */
    ghost predicate Anchored(net: Net, tokens: seq<Token>)
      reads this, arena
    {
      && lastPosition <= |tokens|
      && match lastSnapshot
         case None => lastPosition == 0
         case Some(id) =>
           && id in arena.pool.handles && id in arena.captured
           && arena.captured[id] == After(net, tokens[..lastPosition])
    }

    /** The handles on the arena's snapshots, and which of them is this sequence's. */
    ghost function Holding(): Arenas.Holding
      reads this, arena
    {
      Arenas.Holding(arena.pool.handles, lastSnapshot)
    }

    /** Going from `before` to `position`, a snapshot is due and there is a slot for it. */
    ghost predicate Takes(before: nat, position: nat)
      requires arena.Valid()
      reads this, arena
    {
      Due(interval, disabled, before, position) && arena.Available() > 0
    }

    /** From a cold start, or from a restored snapshot that ends at `start`. */
    constructor (interval: nat, arena: Arenas.SnapshotArena, net: Net, ghost tokens: seq<Token>,
                 restored: Option<nat>)
      requires arena.Valid() && arena.interval == interval
      requires match restored
               case None => tokens == []
               case Some(id) =>
                 id in arena.pool.handles && id in arena.captured && arena.captured[id] == After(net, tokens)
      ensures Valid(net, tokens) && this.interval == interval && this.arena == arena && start == |tokens|
      ensures retained == [] && !disabled && lastPosition == |tokens| && lastSnapshot == restored
    {
      if restored.Some? {
        Arenas.HeldFacts(arena.pool, arena.captured, arena.capacity, restored.value);
      }
      this.interval, this.arena, this.start := interval, arena, |tokens|;
      lastSnapshot, disabled, retained := restored, false, [];
      lastPosition := if restored.Some? then arena.pool.snaps[restored.value].position else 0;
      new;
      assert tokens[..|tokens|] == tokens;
    }

    /**
     * The state has come to hold `tokens`. On a multiple it is captured, hanging
     * on the last one, which is never too far back; when the arena has no slot
     * the sequence stops retaining for good.
     */
    method Visit(net: Net, state: SequenceState, ghost before: seq<Token>, ghost tokens: seq<Token>)
      returns (taken: Taken)
      requires Valid(net, before) && before <= tokens && state.Holds(net, tokens)
      requires !disabled ==> NoCross(interval, |before|, |tokens|)
      modifies this, arena
      ensures Valid(net, tokens) && CapturedOn(old(arena.captured), arena.captured)
      ensures taken.Snapshot? <==> old(Takes(|before|, |tokens|))
      ensures taken.Exhausted? <==> old(Due(interval, disabled, |before|, |tokens|)) && old(arena.Available()) == 0
      ensures taken.Snapshot? ==>
                && taken.start == old(lastPosition) && taken.end == |tokens| && lastSnapshot == Some(taken.id)
                && taken.end - taken.start <= interval
                && (taken.start % interval == 0 ==> taken.end - taken.start == interval)
                && arena.pool.handles[taken.id] == 2 && taken.id in arena.captured
                && arena.captured[taken.id] == After(net, tokens)
      ensures lastPosition == if taken.Snapshot? then |tokens| else old(lastPosition)
      ensures retained == old(retained) + if taken.Snapshot? then [|tokens|] else []
      ensures disabled == (old(disabled) || taken.Exhausted?)
      ensures arena.Available() == old(arena.Available()) - if taken.Snapshot? then 1 else 0
      ensures Arenas.GivenOut(old(Holding()), Holding(), if taken.Snapshot? then Some(taken.id) else None)
    {
      DueIs(interval, start, lastPosition, retained, disabled, |before|, |tokens|);
      AnchorStays(net, before, tokens);
      if !(interval > 0 && !disabled && state.position > lastPosition && state.position % interval == 0) {
        return Nothing;
      }
      DueFits(interval, start, lastPosition, retained, |before|, |tokens|);
      taken := CaptureHere(net, state, tokens);
    }

    /** A snapshot of a due position: it is never of a bad shape. */
    method CaptureHere(net: Net, state: SequenceState, ghost tokens: seq<Token>) returns (taken: Taken)
      requires arena.Valid() && arena.interval == interval && Anchored(net, tokens) && state.Holds(net, tokens)
      requires lastPosition < |tokens| <= lastPosition + interval
      modifies this, arena
      ensures arena.Valid() && Anchored(net, tokens) && (taken.Snapshot? || taken.Exhausted?)
      ensures CapturedOn(old(arena.captured), arena.captured)
      ensures taken.Snapshot? <==> old(arena.Available()) > 0
      ensures taken.Snapshot? ==>
                && taken.start == old(lastPosition) && taken.end == |tokens| && lastSnapshot == Some(taken.id)
                && arena.pool.handles[taken.id] == 2 && taken.id in arena.captured
                && arena.captured[taken.id] == After(net, tokens)
      ensures lastPosition == if taken.Snapshot? then |tokens| else old(lastPosition)
      ensures retained == old(retained) + if taken.Snapshot? then [|tokens|] else []
      ensures disabled == (old(disabled) || taken.Exhausted?)
      ensures arena.Available() == old(arena.Available()) - if taken.Snapshot? then 1 else 0
      ensures Arenas.GivenOut(old(Holding()), Holding(), if taken.Snapshot? then Some(taken.id) else None)
    {
      AnchorsNext(net, tokens);
      ghost var handles, last := arena.pool.handles, lastSnapshot;
      var outcome := arena.CaptureNext(state, lastSnapshot, lastPosition);
      assert !outcome.BadShape?;
      match outcome {
        case Captured(id) =>
          Arenas.MovedGivesOut(handles, arena.pool.handles, last, id);
          taken := Snapshot(id, lastPosition, state.position);
          retained, lastPosition, lastSnapshot := retained + [state.position], state.position, Some(id);
          assert tokens[..|tokens|] == tokens;
        case Exhausted =>
          taken, disabled := Taken.Exhausted, true;
      }
    }

    lemma AnchorStays(net: Net, before: seq<Token>, tokens: seq<Token>)
      requires Anchored(net, before) && before <= tokens
      ensures Anchored(net, tokens)
    {
      if lastSnapshot.Some? {
        assert tokens[..lastPosition] == before[..lastPosition];
      }
    }

    /** What was captured last is the first stretch of what is captured now. */
    lemma AnchorsNext(net: Net, tokens: seq<Token>)
      requires Anchored(net, tokens)
      ensures Arenas.Anchors(arena.pool, arena.captured, lastSnapshot, lastPosition, After(net, tokens))
    {
      if lastSnapshot.Some? {
        SlotsStay(net, tokens, lastPosition);
      }
    }
  }
}
