/** Feeding whole texts to a machine. */
module Runs {
  import opened Tools
  import opened Machines

  lemma {:induction false} RunAppend(m: Machine, cs: set<Cursor>, s: Bytes, t: Bytes)
    requires WellFormed(m)
    ensures RunSet(m, cs, s + t) == RunSet(m, RunSet(m, cs, s), t)
    decreases |s|
  {
    if s == [] {
      assert s + t == t;
    } else {
      assert (s + t)[0] == s[0] && (s + t)[1..] == s[1..] + t;
      RunAppend(m, StepSet(m, cs, s[0]), s[1..], t);
    }
  }

  lemma {:induction false} RunDead(m: Machine, s: Bytes)
    requires WellFormed(m)
    ensures RunSet(m, {}, s) == {}
    decreases |s|
  {
    if s != [] {
      assert StepSet(m, {}, s[0]) == {};
      RunDead(m, s[1..]);
    }
  }

  /** Feed bytes, reporting whether every step left some cursor. */
  method Feed(m: Machine, ghost owner: Owner, cursors: seq<Cursor>, text: Bytes)
    returns (after: seq<Cursor>, alive: bool)
    requires WellFormed(m) && Owned(m, owner) && TableRight(m) && AllOk(owner, cursors)
    ensures alive <==> text == [] || RunSet(m, Elements(cursors), text) != {}
    ensures alive ==> Elements(after) == RunSet(m, Elements(cursors), text) && AllOk(owner, after)
  {
    after := cursors;
    alive := true;
    for i := 0 to |text|
      invariant AllOk(owner, after) && (i > 0 ==> Elements(after) != {})
      invariant RunSet(m, Elements(cursors), text) == RunSet(m, Elements(after), text[i..])
    {
      assert text[i..][0] == text[i] && text[i..][1..] == text[i + 1..];
      after, alive := Step(m, owner, after, text[i]);
      if !alive {
        RunDead(m, text[i + 1..]);
        return;
      }
    }
    assert text[|text|..] == [];
  }
}
