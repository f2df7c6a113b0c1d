/**
 * One sequence's device memory: a recurrent state, a row of key/value slots and
 * how many of them are real. A pass over a token is a function of the recurrent
 * state and of the slots before it.
 */
module States {
  import opened Decoding

  type Recurrent = seq<real>

  type Slot = seq<real>

  /** What one token's pass leaves: the recurrent state, its key/value slot and its logits row. */
  datatype Pass = Pass(recurrent: Recurrent, slot: Slot, row: Row)

  datatype Net = Net(init: Recurrent, pass: (Recurrent, seq<Slot>, Token) -> Pass)

  /** The recurrent state and the slots a run of tokens leaves. */
  datatype Memory = Memory(recurrent: Recurrent, slots: seq<Slot>)

  function After(net: Net, tokens: seq<Token>): (m: Memory)
    ensures |m.slots| == |tokens|
  {
    if tokens == [] then Memory(net.init, [])
    else
      var before := After(net, tokens[..|tokens| - 1]);
      var pass := net.pass(before.recurrent, before.slots, tokens[|tokens| - 1]);
      Memory(pass.recurrent, before.slots + [pass.slot])
  }

  /** The logits row after a run of tokens. */
  function RowAt(net: Net, tokens: seq<Token>): Row
    requires tokens != []
  {
    var before := After(net, tokens[..|tokens| - 1]);
    net.pass(before.recurrent, before.slots, tokens[|tokens| - 1]).row
  }

  lemma AfterMore(net: Net, tokens: seq<Token>, token: Token)
    ensures var m, pass := After(net, tokens), net.pass(After(net, tokens).recurrent, After(net, tokens).slots, token);
            && After(net, tokens + [token]) == Memory(pass.recurrent, m.slots + [pass.slot])
            && RowAt(net, tokens + [token]) == pass.row
  {
    assert (tokens + [token])[..|tokens|] == tokens;
  }

  /** The slots a prefix left are the first of those the whole left. */
  lemma {:induction false} SlotsStay(net: Net, tokens: seq<Token>, n: nat)
    requires n <= |tokens|
    ensures After(net, tokens).slots[..n] == After(net, tokens[..n]).slots
    decreases |tokens| - n
  {
    if n == |tokens| {
      assert tokens[..n] == tokens;
    } else {
      var k := |tokens| - 1;
      SlotsStay(net, tokens[..k], n);
      assert tokens[..k][..n] == tokens[..n];
    }
  }

  /** The first `n` tokens of a window have been through the pass, on top of `tokens`. */
  ghost predicate Passed(net: Net, tokens: seq<Token>, ids: seq<Token>, n: nat,
                                    rows: seq<Row>, ring: seq<Recurrent>, slots: seq<Slot>)
  {
    && n == |rows| <= |ids| && |ring| == n + 1
    && (forall j | 0 <= j < n :: rows[j] == RowAt(net, tokens + ids[..j + 1]))
    && (forall j | 0 <= j <= n :: ring[j] == After(net, tokens + ids[..j]).recurrent)
    && slots == After(net, tokens + ids[..n]).slots
  }

  lemma PassedMore(net: Net, tokens: seq<Token>, ids: seq<Token>, n: nat,
                              rows: seq<Row>, ring: seq<Recurrent>, slots: seq<Slot>)
    requires Passed(net, tokens, ids, n, rows, ring, slots) && n < |ids|
    ensures var pass := net.pass(ring[n], slots, ids[n]);
            Passed(net, tokens, ids, n + 1, rows + [pass.row], ring + [pass.recurrent], slots + [pass.slot])
  {
    assert tokens + ids[..n + 1] == (tokens + ids[..n]) + [ids[n]];
    AfterMore(net, tokens + ids[..n], ids[n]);
  }

  // ----- the state itself -----

  class SequenceState {
    var recurrent: Recurrent
    /** Slots at and above `position` hold whatever was last written there. */
    const kv: array<Slot>
    var position: nat

    /** The state a run of tokens leaves, whatever lies above it in the cache. */
    ghost predicate Holds(net: Net, tokens: seq<Token>)
      reads this, kv
    {
      position == |tokens| <= kv.Length && Filled() == After(net, tokens)
    }

    /** What is real of it. */
    function Filled(): Memory
      requires position <= kv.Length
      reads this, kv
    {
      Memory(recurrent, kv[..position])
    }

    constructor (init: Recurrent, kv: array<Slot>)
      ensures recurrent == init && this.kv == kv && position == 0
    {
      recurrent, this.kv, position := init, kv, 0;
    }

    /** As if nothing had been run; the slots are left as they are. */
    method Reset(net: Net)
      modifies this
      ensures Holds(net, [])
    {
      recurrent, position := net.init, 0;
    }

    /**
     * A window of tokens through the pass without committing to any: every row,
     * and in the ring the recurrent state after each prefix of the window. The
     * whole window's slots are written. Fails when the cache cannot take it.
     */
    method RunVerify(net: Net, ids: seq<Token>, ghost tokens: seq<Token>)
      returns (ok: bool, rows: seq<Row>, ring: seq<Recurrent>)
      requires Holds(net, tokens)
      modifies kv
      ensures ok <==> position + |ids| <= kv.Length
      ensures Holds(net, tokens)
      ensures ok ==> Passed(net, tokens, ids, |ids|, rows, ring, kv[..position + |ids|])
    {
      ok, rows, ring := position + |ids| <= kv.Length, [], [recurrent];
      if !ok {
        return;
      }
      assert tokens + ids[..0] == tokens;
      for i := 0 to |ids|
        invariant Passed(net, tokens, ids, i, rows, ring, kv[..position + i])
      {
        PassedMore(net, tokens, ids, i, rows, ring, kv[..position + i]);
        var pass := net.pass(ring[i], kv[..position + i], ids[i]);
        ghost var before := kv[..position + i];
        kv[position + i] := pass.slot;
        rows, ring := rows + [pass.row], ring + [pass.recurrent];
        assert kv[..position + i + 1] == before + [pass.slot];
      }
      StillHolds(net, ids, tokens);
    }

    /** Writing past the position does not disturb what is below it. */
    lemma StillHolds(net: Net, ids: seq<Token>, tokens: seq<Token>)
      requires position == |tokens| && position + |ids| <= kv.Length
      requires recurrent == After(net, tokens).recurrent
      requires kv[..position + |ids|] == After(net, tokens + ids[..|ids|]).slots
      ensures Holds(net, tokens)
    {
      assert ids[..|ids|] == ids;
      SlotsStay(net, tokens + ids, |tokens|);
      assert (tokens + ids)[..|tokens|] == tokens;
      assert kv[..position] == kv[..position + |ids|][..position];
    }

    /** Keep the first `n` tokens of the window: the ring gives back the recurrent state they leave. */
    method Commit(net: Net, ring: seq<Recurrent>, n: nat, ghost tokens: seq<Token>, ghost ids: seq<Token>,
                       ghost rows: seq<Row>)
      requires Holds(net, tokens) && n <= |ids| && position + |ids| <= kv.Length
      requires Passed(net, tokens, ids, |ids|, rows, ring, kv[..position + |ids|])
      modifies this
      ensures Holds(net, tokens + ids[..n])
    {
      recurrent := ring[n];
      position := position + n;
      assert ids[..|ids|] == ids;
      SlotsStay(net, tokens + ids, |tokens| + n);
      assert (tokens + ids)[..|tokens| + n] == tokens + ids[..n];
      assert kv[..position] == kv[..|tokens| + |ids|][..position];
    }

    /** Tokens through the pass for good: the state advances over all of them. */
    method Run(net: Net, ids: seq<Token>, ghost tokens: seq<Token>) returns (ok: bool, rows: seq<Row>)
      requires Holds(net, tokens)
      modifies this, kv
      ensures ok <==> old(position) + |ids| <= kv.Length
      ensures Holds(net, if ok then tokens + ids else tokens)
      ensures ok ==> |rows| == |ids|
      ensures ok ==> forall j | 0 <= j < |ids| :: rows[j] == RowAt(net, tokens + ids[..j + 1])
    {
      var ring;
      ok, rows, ring := RunVerify(net, ids, tokens);
      if ok {
        Commit(net, ring, |ids|, tokens, ids, rows);
        assert ids[..|ids|] == ids;
      }
    }
  }
}
