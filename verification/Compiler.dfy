/**
 * The compiled grammar as a whole: it accepts exactly the written turns, and no
 * position it can reach is a dead end.
 */
module Compilers {
  import opened Tools
  import opened Machines
  import opened CallGrammar
  import opened Languages
  import opened Calls
  import opened Turns
  import opened Layouts
  import opened Builders
  import opened Runs
  import Kmp

  ghost predicate CompiledFrom(m: Machine, owner: Owner, tools: seq<ToolSpec>, parallel: bool, callClose: nat,
                               loops: set<nat>)
  {
    && Sound(m.states, m.required, owner, loops)
    && RequiredLaid(m.required, tools, |tools|)
    && CallsLaid(m.states, owner, loops, tools, callClose)
    && AfterAt(m.states, parallel) && RootAt(m.states, m.root) && AFTER !in loops
    && m.root < |owner| && owner[m.root] == -1
    && TableRight(m) && m.triggers == Triggers(tools)
  }

  /** A machine as `Compile` makes it. */
  ghost predicate IsCompiled(m: Machine, owner: Owner, tools: seq<ToolSpec>, parallel: bool) {
    exists callClose, loops :: CompiledFrom(m, owner, tools, parallel, callClose, loops)
  }

  method LayDown(tools: seq<ToolSpec>, parallel: bool) returns (m: Machine, ghost owner: Owner)
    ensures IsCompiled(m, owner, tools, parallel)
  {
    var builder := new Builder();
    var root, callClose := builder.Build(tools, parallel);
    var fallback := Kmp.Fallback(CLOSE);
    m := Machine(builder.states, root, builder.required, fallback, Triggers(tools));
    owner := builder.owner;
    assert CompiledFrom(m, owner, tools, parallel, callClose, builder.loops);
  }

  /** From a tool surface to its machine, whose language is the grammar. */
  method Compile(tools: seq<ToolSpec>, parallel: bool) returns (m: Machine, ghost owner: Owner)
    ensures IsCompiled(m, owner, tools, parallel)
    ensures WellFormed(m) && forall s :: Accepts(m, s) <==> InGrammar(Tracked, tools, parallel, s)
  {
    m, owner := LayDown(tools, parallel);
    CompiledIsWellFormed(m, owner, tools, parallel);
    forall s
      ensures Accepts(m, s) <==> InGrammar(Tracked, tools, parallel, s)
    {
      CompiledLanguage(m, owner, tools, parallel, s);
    }
  }

  lemma SoundIsWellFormed(m: Machine, owner: Owner, loops: set<nat>)
    requires Sound(m.states, m.required, owner, loops)
    ensures WellFormed(m) && Owned(m, owner)
  {
    forall i, a | 0 <= i < |m.states| && a in Targets(m.states[i])
      ensures EdgeRanked(m.states, i, a)
    {
      assert StateSound(m.states, m.required, owner, loops, i);
    }
    forall i | 0 <= i < |m.states|
      ensures BytesLead(m.states, i) && OwnerOk(m.states, m.required, owner, i)
    {
      assert StateSound(m.states, m.required, owner, loops, i);
    }
  }

  lemma LaidIsEntry(states: seq<State>, owner: Owner, tools: seq<ToolSpec>, callClose: nat)
    requires EntryLaid(states, owner, tools, callClose)
    ensures EntryAt(states, tools, callClose)
  {
    forall t | 0 <= t < |tools|
      ensures ToolAt(states, states[ENTRY].alts[t], t, tools[t], callClose)
    {
      assert OpenerLaid(states, owner, states[ENTRY].alts[t], t, tools[t], callClose);
    }
  }

  lemma CompiledHasShape(m: Machine, owner: Owner, tools: seq<ToolSpec>, parallel: bool, callClose: nat,
                         loops: set<nat>)
    requires CompiledFrom(m, owner, tools, parallel, callClose, loops)
    ensures CompiledShape(m, tools, parallel, callClose) && Owned(m, owner)
  {
    SoundIsWellFormed(m, owner, loops);
    LaidIsEntry(m.states, owner, tools, callClose);
  }

  lemma CompiledIsWellFormed(m: Machine, owner: Owner, tools: seq<ToolSpec>, parallel: bool)
    requires IsCompiled(m, owner, tools, parallel)
    ensures WellFormed(m) && Owned(m, owner) && TableRight(m)
    ensures m.root < |m.states| && owner[m.root] == -1 && m.triggers == Triggers(tools)
  {
    var callClose, loops :| CompiledFrom(m, owner, tools, parallel, callClose, loops);
    CompiledHasShape(m, owner, tools, parallel, callClose, loops);
  }

  /**
   * Compilation preserves the language. The strings that survive from the start
   * and may end there are the printed turns and nothing else: offered names
   * only, parameters in any order, and the guards as the cursor's word keeps
   * them.
   */
  lemma CompiledLanguage(m: Machine, owner: Owner, tools: seq<ToolSpec>, parallel: bool, s: Bytes)
    requires IsCompiled(m, owner, tools, parallel)
    ensures WellFormed(m) && (Accepts(m, s) <==> InGrammar(Tracked, tools, parallel, s))
  {
    var callClose, loops :| CompiledFrom(m, owner, tools, parallel, callClose, loops);
    CompiledHasShape(m, owner, tools, parallel, callClose, loops);
    ShapeLanguage(m, tools, parallel, callClose, s);
  }

  /** Within the documented limits the language is the documented one. */
  lemma DocumentedLanguage(m: Machine, owner: Owner, tools: seq<ToolSpec>, parallel: bool, s: Bytes)
    requires IsCompiled(m, owner, tools, parallel)
    requires |tools| <= 0x1_0000 && forall t | 0 <= t < |tools| :: |tools[t].params| <= 64
    ensures WellFormed(m) && (Accepts(m, s) <==> InGrammar(Documented, tools, parallel, s))
  {
    CompiledLanguage(m, owner, tools, parallel, s);
    DocumentedIsTracked(tools, parallel, s);
  }

  // ----- running a machine over text -----

  method AcceptsText(m: Machine, ghost owner: Owner, text: Bytes) returns (r: bool)
    requires WellFormed(m) && Owned(m, owner) && TableRight(m)
    requires m.root < |m.states| && owner[m.root] == -1
    ensures r <==> Accepts(m, text)
  {
    var start := Start(m, owner);
    var after, alive := Feed(m, owner, start, text);
    if alive {
      r := AcceptsEndNow(m, after);
    } else {
      r := false;
    }
  }

  /** Whether a whole text is a turn the grammar would let end there. */
  method Recognize(m: Machine, ghost owner: Owner, ghost tools: seq<ToolSpec>, ghost parallel: bool, text: Bytes)
    returns (r: bool)
    requires IsCompiled(m, owner, tools, parallel)
    ensures r <==> InGrammar(Tracked, tools, parallel, text)
  {
    CompiledIsWellFormed(m, owner, tools, parallel);
    r := AcceptsText(m, owner, text);
    CompiledLanguage(m, owner, tools, parallel, text);
  }

  // ----- what every reachable cursor keeps -----

  ghost predicate SetOk(m: Machine, owner: Owner, cs: set<Cursor>) {
    forall c | c in cs :: CursorOk(owner, c) && IsFinal(m.states, c.state)
  }

  lemma {:induction false} ClosureOk(m: Machine, owner: Owner, c: Cursor)
    requires WellFormed(m) && Owned(m, owner) && CursorOk(owner, c)
    ensures SetOk(m, owner, Closure(m, c))
    decreases Rank(m.states, c.state)
  {
    SuccessorsOk(m, owner, c);
    SuccessorsRanked(m, c);
    forall d | d in Successors(m, c) {
      ClosureOk(m, owner, d);
    }
  }

  lemma MovedOk(m: Machine, owner: Owner, c: Cursor, b: Byte)
    requires WellFormed(m) && Owned(m, owner) && CursorOk(owner, c)
    ensures AllOk(owner, Moved(m, c, b))
  {
    assert BytesLead(m.states, c.state) && OwnerOk(m.states, m.required, owner, c.state);
    match m.states[c.state] {
      case Until(k, next) =>
        MovedUntil(m, c, k, next, b);
        var k' := Kmp.Advance(CLOSE, k, b);
        assert k' < |CLOSE| ==> owner[c.state - k + k'] == owner[c.state];
      case _ =>
    }
  }

  lemma {:induction false} RunOk(m: Machine, owner: Owner, cs: set<Cursor>, s: Bytes)
    requires WellFormed(m) && Owned(m, owner) && SetOk(m, owner, cs)
    ensures SetOk(m, owner, RunSet(m, cs, s))
    decreases |s|
  {
    if s != [] {
      forall x | x in StepSet(m, cs, s[0])
        ensures CursorOk(owner, x) && IsFinal(m.states, x.state)
      {
        var c, d :| c in cs && d in Moved(m, c, s[0]) && x in Closure(m, d);
        MovedOk(m, owner, c, s[0]);
        ClosureOk(m, owner, d);
      }
      RunOk(m, owner, StepSet(m, cs, s[0]), s[1..]);
    }
  }

  /** Along a chain, a cursor is carried to its end. */
  lemma {:induction false} RunChain(m: Machine, cs: set<Cursor>, c: Cursor, bytes: Bytes, next: nat)
    requires WellFormed(m) && LiteralAt(m.states, c.state, bytes, next)
    requires Closure(m, c) <= cs
    ensures Closure(m, c.(state := next)) <= RunSet(m, cs, bytes)
    decreases |bytes|
  {
    if bytes != [] {
      var d := c.(state := m.states[c.state].next);
      assert Closure(m, c) == {c};
      assert Moved(m, c, bytes[0]) == [d];
      assert d in [d];
      assert Closure(m, d) <= StepSet(m, cs, bytes[0]);
      RunChain(m, StepSet(m, cs, bytes[0]), d, bytes[1..], next);
      assert d.(state := next) == c.(state := next);
    }
  }

  /** Part of the way along a chain, the cursor is still on it. */
  lemma {:induction false} ChainAlive(m: Machine, cs: set<Cursor>, c: Cursor, bytes: Bytes, next: nat, k: nat)
    requires WellFormed(m) && LiteralAt(m.states, c.state, bytes, next) && k < |bytes| && c in cs
    ensures RunSet(m, cs, bytes[..k]) != {}
    decreases k
  {
    if k > 0 {
      var d := c.(state := m.states[c.state].next);
      assert Moved(m, c, bytes[0]) == [d] && d in [d];
      assert Closure(m, d) == {d} && d in Closure(m, d);
      assert bytes[..k][0] == bytes[0] && bytes[..k][1..] == bytes[1..][..k - 1];
      ChainAlive(m, StepSet(m, cs, bytes[0]), d, bytes[1..], next, k - 1);
    }
  }

  /** Any opener is among the places a turn may start from. */
  lemma NameStart(m: Machine, a: nat, bytes: Bytes, args: nat)
    requires WellFormed(m) && RootAt(m.states, m.root) && ENTRY < |m.states| && m.states[ENTRY].Split?
    requires a in m.states[ENTRY].alts && a < |m.states| && m.states[a].EnterTool?
    requires bytes != [] && LiteralAt(m.states, m.states[a].next, bytes, args)
    ensures Cursor(m.states[a].next, m.states[a].tool, {}) in StartSet(m)
  {
    var root, entry := Cursor(m.root, NO_TOOL, {}), Cursor(ENTRY, NO_TOOL, {});
    var opener, named := Cursor(a, NO_TOOL, {}), Cursor(m.states[a].next, m.states[a].tool, {});
    assert Successors(m, root)[1] == entry;
    SuccessorClosure(m, root, entry);
    var i :| 0 <= i < |m.states[ENTRY].alts| && m.states[ENTRY].alts[i] == a;
    assert Successors(m, entry)[i] == opener;
    SuccessorClosure(m, entry, opener);
    assert Successors(m, opener)[0] == named;
    SuccessorClosure(m, opener, named);
    assert Closure(m, named) == {named};
  }
}
