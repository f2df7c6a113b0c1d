/** No reachable position is a dead end, if every literal set has something in it. */
module Liveness {
  import opened Tools
  import opened Machines
  import opened CallGrammar
  import opened Languages
  import opened Values
  import opened Calls
  import opened Turns
  import opened Layouts
  import opened Builders
  import opened Compilers
  import opened Runs
  import Kmp

  ghost predicate Lives(m: Machine, c: Cursor)
    requires WellFormed(m)
  {
    exists s :: Ends(m, c, s)
  }

  // ----- every value can be written -----

  lemma SpellsThen(a: Re, b: Re, s: Bytes, t: Bytes)
    requires Spells(a, s) && Spells(b, t)
    ensures Spells(Then(a, b), s + t)
  {
    assert (s + t)[..|s|] == s && (s + t)[|s|..] == t;
  }

  lemma ZeroIsANumber(fractional: bool)
    ensures Spells(NumberRe(fractional), Ascii("0"))
  {
    var zero, none: Bytes := Ascii("0"), [];
    assert Spells(Magnitude(), zero);
    var tail := TailRe(fractional);
    if fractional {
      SpellsThen(Optional(Fraction()), Optional(Exponent()), none, none);
    }
    assert Spells(tail, none);
    SpellsThen(Magnitude(), tail, zero, none);
    assert zero + none == zero;
    SpellsThen(Either(Word([]), Sign("-")), Then(Magnitude(), tail), none, zero);
    assert none + zero == zero;
  }

  lemma DelimiterClosesItself()
    ensures Kmp.FirstEnds(CLOSE, CLOSE)
  {
    assert Kmp.IsSuffix(CLOSE, CLOSE);
  }

  lemma SomeValue(spec: ValueSpec) returns (text: Bytes)
    requires !NoLiterals(spec)
    ensures Spells(ValueRe(spec), text)
  {
    match spec {
      case Text =>
        DelimiterClosesItself();
        text := CLOSE;
      case Literals(literals) =>
        SpellsThen(OneOf(literals), Word(CLOSE), literals[0], CLOSE);
        text := literals[0] + CLOSE;
      case Boolean =>
        SpellsThen(Either(Sign("true"), Sign("false")), Word(CLOSE), Ascii("true"), CLOSE);
        text := Ascii("true") + CLOSE;
      case Null =>
        SpellsThen(Sign("null"), Word(CLOSE), Ascii("null"), CLOSE);
        text := Ascii("null") + CLOSE;
      case Integer =>
        ZeroIsANumber(false);
        SpellsThen(NumberRe(false), Word(CLOSE), Ascii("0"), CLOSE);
        text := Ascii("0") + CLOSE;
      case Number =>
        ZeroIsANumber(true);
        SpellsThen(NumberRe(true), Word(CLOSE), Ascii("0"), CLOSE);
        text := Ascii("0") + CLOSE;
    }
  }

  // ----- an argument loop can always be finished -----

  lemma ArgsLeave(m: Machine, tool: ToolSpec, c: Cursor, parallel: bool)
    requires WellFormed(m) && Loops(m, c.state, tool) && AfterReads(m, parallel) && Required(m, c.tool) <= c.written
    ensures Lives(m, c)
  {
    var s := FunctionClose() + CallClose();
    assert AfterAgrees(m, parallel, []);
    assert s[|s|..] == [];
    assert LeavesArgs(m, c, s) && LoopAgrees(m, c.state, tool, c, s);
  }

  lemma ArgsWrite(m: Machine, tool: ToolSpec, c: Cursor, p: nat, rest: Bytes)
    requires WellFormed(m) && Loops(m, c.state, tool) && p < |tool.params| && ParamBit(p) !! c.written
    requires !NoLiterals(tool.params[p].value) && Ends(m, Written(c, p, c.state), rest)
    ensures Lives(m, c)
  {
    var d, open := Written(c, p, c.state), ParameterOpen(tool.params[p]);
    var text := SomeValue(tool.params[p].value);
    assert d.(state := c.state) == d;
    ViaIntro(m, d, ValueRe(tool.params[p].value), c.state, text, rest);
    var s := open + (text + rest);
    assert s[|open|..] == text + rest;
    assert WritesParam(m, tool, c, p, s) && LoopAgrees(m, c.state, tool, c, s);
  }

  /** From any set of written parameters, write the missing required ones and leave. */
  lemma {:induction false} ArgsLive(m: Machine, tool: ToolSpec, c: Cursor, parallel: bool)
    requires WellFormed(m) && Loops(m, c.state, tool) && AfterReads(m, parallel)
    requires AnyLiterals(tool) && Required(m, c.tool) == RequiredBits(tool.params)
    ensures Lives(m, c)
    decreases Required(m, c.tool) - c.written
  {
    if Required(m, c.tool) <= c.written {
      ArgsLeave(m, tool, c, parallel);
    } else {
      var b :| b in Required(m, c.tool) && b !in c.written;
      var p :| 0 <= p < |tool.params| && tool.params[p].required && b in ParamBit(p);
      var d := Written(c, p, c.state);
      assert b in d.written && Required(m, d.tool) - d.written < Required(m, c.tool) - c.written;
      ArgsLive(m, tool, d, parallel);
      var rest :| Ends(m, d, rest);
      ArgsWrite(m, tool, c, p, rest);
    }
  }

  // ----- every other state leads to one laid down before it -----

  lemma AdvanceOnMatch<T>(needle: seq<T>, k: nat)
    requires k < |needle|
    ensures Kmp.Advance(needle, k, needle[k]) == k + 1
  {
    assert needle[..k] + [needle[k]] == needle[..k + 1];
    Kmp.LongestIsUnique(needle, needle[..k + 1], |needle|, k + 1);
  }

  lemma {:induction false} UntilLives(m: Machine, first: nat, next: nat, c: Cursor, k: nat)
    requires WellFormed(m) && UntilBlock(m.states, first, next)
    requires k < |CLOSE| && c.state == first + k && Lives(m, c.(state := next))
    ensures Lives(m, c)
    decreases |CLOSE| - k
  {
    AdvanceOnMatch(CLOSE, k);
    var d := c.(state := if k + 1 == |CLOSE| then next else first + k + 1);
    if k + 1 < |CLOSE| {
      assert d.(state := next) == c.(state := next);
      UntilLives(m, first, next, d, k + 1);
    }
    var rest :| Ends(m, d, rest);
    var s := [CLOSE[k]] + rest;
    assert s[0] == CLOSE[k] && s[1..] == rest;
    UntilMoves(m, first, next, c, k, s);
  }

  lemma LiteralLives(m: Machine, c: Cursor)
    requires WellFormed(m) && c.state < |m.states| && m.states[c.state].Literal?
    requires Lives(m, c.(state := m.states[c.state].next))
    ensures Lives(m, c)
  {
    var rest :| Ends(m, c.(state := m.states[c.state].next), rest);
    var s := [m.states[c.state].byte] + rest;
    assert s[1..] == rest;
    EndsLiteral(m, c, s);
  }

  lemma SuccessorLives(m: Machine, c: Cursor, d: Cursor)
    requires WellFormed(m) && !IsFinal(m.states, c.state) && d in Successors(m, c) && Lives(m, d)
    ensures Lives(m, c)
  {
    var rest :| Ends(m, d, rest);
    EndsEpsilon(m, c, rest);
  }

  lemma SplitLives(m: Machine, c: Cursor, a: nat)
    requires WellFormed(m) && c.state < |m.states| && m.states[c.state].Split? && a in m.states[c.state].alts
    requires Lives(m, c.(state := a))
    ensures Lives(m, c)
  {
    var i :| 0 <= i < |m.states[c.state].alts| && m.states[c.state].alts[i] == a;
    assert Successors(m, c)[i] == c.(state := a);
    SuccessorLives(m, c, c.(state := a));
  }

  lemma EntersLives(m: Machine, c: Cursor)
    requires WellFormed(m) && c.state < |m.states| && m.states[c.state].EnterTool?
    requires Lives(m, Cursor(m.states[c.state].next, m.states[c.state].tool, {}))
    ensures Lives(m, c)
  {
    var d := Cursor(m.states[c.state].next, m.states[c.state].tool, {});
    assert d in [d];
    SuccessorLives(m, c, d);
  }

  lemma ChainLives(m: Machine, c: Cursor, bytes: Bytes, next: nat)
    requires WellFormed(m) && LiteralAt(m.states, c.state, bytes, next) && Lives(m, c.(state := next))
    ensures Lives(m, c)
  {
    var rest :| Ends(m, c.(state := next), rest);
    assert (bytes + rest)[|bytes|..] == rest;
    EndsChain(m, c, bytes, next, bytes + rest);
  }

  /** What liveness needs to know of a compiled machine. */
  ghost predicate Live(m: Machine, owner: Owner, tools: seq<ToolSpec>, parallel: bool, loops: set<nat>) {
    && WellFormed(m) && Owned(m, owner) && Sound(m.states, m.required, owner, loops)
    && Reads(m, tools, parallel)
    && (forall l | l in loops && l != ENTRY :: ArgsLoopOf(m, owner, l, tools))
    && tools != [] && AllHaveLiterals(tools)
  }

  ghost predicate ArgsLoopOf(m: Machine, owner: Owner, l: nat, tools: seq<ToolSpec>)
    requires WellFormed(m)
  {
    exists t | 0 <= t < |tools| ::
      && l < |owner| && owner[l] == t
      && Loops(m, l, tools[t]) && Required(m, t) == RequiredBits(tools[t].params)
  }

  /** The entry leads through any tool to its argument loop. */
  lemma EntryLives(m: Machine, owner: Owner, tools: seq<ToolSpec>, parallel: bool, loops: set<nat>, c: Cursor)
    requires Live(m, owner, tools, parallel, loops) && c.state == ENTRY
    ensures Lives(m, c)
  {
    var a := m.states[ENTRY].alts[0];
    assert OpenerReads(m, tools, 0, a);
    var args :| ToolReads(m, tools, 0, args, a);
    assert AnyLiterals(tools[0]);
    ArgsLive(m, tools[0], Cursor(args, 0, {}), parallel);
    OpenerLives(m, tools, args, c.(state := a));
    SplitLives(m, c, a);
  }

  lemma OpenerLives(m: Machine, tools: seq<ToolSpec>, args: nat, c: Cursor)
    requires WellFormed(m) && ToolReads(m, tools, 0, args, c.state) && Lives(m, Cursor(args, 0, {}))
    ensures Lives(m, c)
  {
    var named := Cursor(m.states[c.state].next, 0, {});
    ChainLives(m, named, FunctionOpen(tools[0]), args);
    assert Successors(m, c) == [named] && named in [named];
    SuccessorLives(m, c, named);
  }

  lemma LoopLives(m: Machine, owner: Owner, tools: seq<ToolSpec>, parallel: bool, loops: set<nat>, c: Cursor)
    requires Live(m, owner, tools, parallel, loops) && c.state in loops && CursorOk(owner, c)
    ensures Lives(m, c)
  {
    if c.state == ENTRY {
      EntryLives(m, owner, tools, parallel, loops, c);
    } else {
      assert ArgsLoopOf(m, owner, c.state, tools);
      var t :| 0 <= t < |tools| && c.state < |owner| && owner[c.state] == t
               && Loops(m, c.state, tools[t]) && Required(m, t) == RequiredBits(tools[t].params);
      assert AnyLiterals(tools[t]);
      ArgsLive(m, tools[t], c, parallel);
    }
  }

  /** Every cursor that sits where it may can be brought to an end. */
  lemma {:induction false} StateLives(m: Machine, owner: Owner, tools: seq<ToolSpec>, parallel: bool,
                                      loops: set<nat>, c: Cursor)
    requires Live(m, owner, tools, parallel, loops)
    requires CursorOk(owner, c) && Passable(m.states, c.state)
    ensures Lives(m, c)
    decreases c.state
  {
    assert StateSound(m.states, m.required, owner, loops, c.state);
    match m.states[c.state] {
      case Literal(_, next) =>
        StateLives(m, owner, tools, parallel, loops, c.(state := next));
        LiteralLives(m, c);
      case Until(k, next) =>
        StateLives(m, owner, tools, parallel, loops, c.(state := next));
        UntilLives(m, c.state - k, next, c, k);
      case Split(alts) =>
        if c.state in loops {
          LoopLives(m, owner, tools, parallel, loops, c);
        } else {
          var a :| a in alts && a < c.state && Passable(m.states, a);
          StateLives(m, owner, tools, parallel, loops, c.(state := a));
          SplitLives(m, c, a);
        }
      case EnterTool(tool, next) =>
        StateLives(m, owner, tools, parallel, loops, Cursor(next, tool, {}));
        EntersLives(m, c);
      case Accept =>
        EndsAccept(m, c, []);
    }
  }

  // ----- compiled machines -----

  lemma LoopIndex(m: Machine, owner: Owner, tools: seq<ToolSpec>, parallel: bool, callClose: nat, loops: set<nat>,
                  l: nat) returns (t: nat)
    requires CompiledFrom(m, owner, tools, parallel, callClose, loops)
    requires |tools| <= TOOL_IDS && AllHaveLiterals(tools) && l in loops && l != ENTRY
    ensures t < |tools| && LoopLaid(m.states, owner, l, t, tools[t], callClose)
    ensures t < |m.required| && m.required[t] == RequiredBits(tools[t].params)
    ensures LiteralAt(m.states, callClose, CallClose(), AFTER)
  {
    assert IsLoop(m.states, owner, l, tools, callClose);
    var i :| 0 <= i < |tools| && LoopLaid(m.states, owner, l, i, tools[i], callClose);
    t := i;
  }

  lemma LaidLoop(m: Machine, owner: Owner, tools: seq<ToolSpec>, callClose: nat, l: nat, t: nat)
    requires WellFormed(m) && Forgets(m, AFTER) && LiteralAt(m.states, callClose, CallClose(), AFTER)
    requires t < |tools| <= TOOL_IDS && LoopLaid(m.states, owner, l, t, tools[t], callClose)
    requires t < |m.required| && m.required[t] == RequiredBits(tools[t].params)
    ensures ArgsLoopOf(m, owner, l, tools)
  {
    ArgsLoop(m, l, tools[t], callClose);
  }

  lemma CompiledIsLive(m: Machine, owner: Owner, tools: seq<ToolSpec>, parallel: bool) returns (loops: set<nat>)
    requires IsCompiled(m, owner, tools, parallel)
    requires 1 <= |tools| <= TOOL_IDS && AllHaveLiterals(tools)
    ensures Live(m, owner, tools, parallel, loops)
  {
    var callClose, ls :| CompiledFrom(m, owner, tools, parallel, callClose, ls);
    loops := ls;
    CompiledHasShape(m, owner, tools, parallel, callClose, loops);
    ShapeReads(m, tools, parallel, callClose);
    EntryForgets(m, tools, callClose);
    AfterForgets(m, parallel);
    forall l | l in loops && l != ENTRY
      ensures ArgsLoopOf(m, owner, l, tools)
    {
      var t := LoopIndex(m, owner, tools, parallel, callClose, loops, l);
      LaidLoop(m, owner, tools, callClose, l, t);
    }
  }

  lemma StartOk(m: Machine, owner: Owner)
    requires WellFormed(m) && Owned(m, owner) && m.root < |m.states| && owner[m.root] == -1
    ensures SetOk(m, owner, StartSet(m))
  {
    ClosureOk(m, owner, Fresh(m.root));
  }

  /** Every cursor some text leads to can be brought to an end. */
  ghost predicate NoDeadEnds(m: Machine)
    requires WellFormed(m)
  {
    forall s: Bytes, c: Cursor | c in RunSet(m, StartSet(m), s) :: Lives(m, c)
  }

  lemma ReachableLives(m: Machine, owner: Owner, tools: seq<ToolSpec>, parallel: bool)
    requires IsCompiled(m, owner, tools, parallel)
    requires 1 <= |tools| <= TOOL_IDS && AllHaveLiterals(tools)
    ensures WellFormed(m) && NoDeadEnds(m)
  {
    CompiledIsWellFormed(m, owner, tools, parallel);
    var loops := CompiledIsLive(m, owner, tools, parallel);
    StartOk(m, owner);
    forall s: Bytes, c: Cursor | c in RunSet(m, StartSet(m), s)
      ensures Lives(m, c)
    {
      RunOk(m, owner, StartSet(m), s);
      StateLives(m, owner, tools, parallel, loops, c);
    }
  }

  /** What one cursor can end on, the whole run can be accepted on. */
  lemma CursorAccepts(m: Machine, s: Bytes, c: Cursor, rest: Bytes)
    requires WellFormed(m) && c in RunSet(m, StartSet(m), s)
    requires IsFinal(m.states, c.state) && Ends(m, c, rest)
    ensures Accepts(m, s + rest)
  {
    assert Closure(m, c) == {c};
    RunAccepts(m, RunSet(m, StartSet(m), s), rest);
    RunAppend(m, StartSet(m), s, rest);
  }

  /**
   * The constraint never runs itself into a corner: any text the machine
   * survives can be continued to one it accepts.
   */
  lemma SurvivorsCanFinish(m: Machine, owner: Owner, tools: seq<ToolSpec>, parallel: bool, s: Bytes)
    requires IsCompiled(m, owner, tools, parallel)
    requires 1 <= |tools| <= TOOL_IDS && AllHaveLiterals(tools)
    ensures WellFormed(m)
    ensures RunSet(m, StartSet(m), s) != {} ==> exists rest :: Accepts(m, s + rest)
  {
    ReachableLives(m, owner, tools, parallel);
    CompiledIsWellFormed(m, owner, tools, parallel);
    if RunSet(m, StartSet(m), s) != {} {
      var c :| c in RunSet(m, StartSet(m), s);
      StartOk(m, owner);
      RunOk(m, owner, StartSet(m), s);
      assert Lives(m, c);
      var rest :| Ends(m, c, rest);
      CursorAccepts(m, s, c, rest);
    }
  }

  lemma AcceptedSurvives(m: Machine, s: Bytes, t: Bytes)
    requires WellFormed(m) && Accepts(m, s + t)
    ensures RunSet(m, StartSet(m), s) != {}
  {
    RunAppend(m, StartSet(m), s, t);
    RunDead(m, t);
  }

  /** A finished turn may always be followed by one more space. */
  lemma SpaceAfterTurn(tools: seq<ToolSpec>, parallel: bool, s: Bytes)
    requires InGrammar(Tracked, tools, parallel, s)
    ensures InGrammar(Tracked, tools, parallel, s + [Spaces()[0]])
  {
    var turn :| WritesTurn(Tracked, tools, parallel, s, turn);
    var calls := SpaceAfterCalls(tools, parallel, turn.calls);
    var longer := Turn(turn.headed, calls);
    var head := if turn.headed then CallOpen() else [];
    Assoc(head, PrintCalls(tools, turn.calls), [Spaces()[0]]);
    assert WritesTurn(Tracked, tools, parallel, s + [Spaces()[0]], longer);
  }

  lemma {:induction false} SpaceAfterCalls(tools: seq<ToolSpec>, parallel: bool, calls: seq<Call>)
    returns (longer: seq<Call>)
    requires ValidCalls(Tracked, tools, parallel, calls)
    ensures ValidCalls(Tracked, tools, parallel, longer) && |longer| == |calls|
    ensures PrintCalls(tools, longer) == PrintCalls(tools, calls) + [Spaces()[0]]
    decreases |calls|
  {
    var call, others := calls[0], calls[1..];
    assert calls == [call] + others;
    var space := Spaces()[0];
    assert ValidCall(Tracked, tools, call);
    if others == [] {
      var spaced := call.(space := call.space + [space]);
      longer := [spaced];
      PrintSpaced(tools, call);
      PrintSpaced(tools, spaced);
      Assoc(PrintCall(tools, Bare(call.tool, call.arguments)), call.space, [space]);
    } else {
      var rest := SpaceAfterCalls(tools, parallel, others);
      longer := [call] + rest;
      CallsCons(tools, call, others);
      CallsCons(tools, call, rest);
      Assoc(PrintCall(tools, call), CallOpen() + PrintCalls(tools, others), [space]);
      Assoc(CallOpen(), PrintCalls(tools, others), [space]);
    }
  }

  lemma SpaceSurvives(m: Machine, owner: Owner, tools: seq<ToolSpec>, parallel: bool, s: Bytes)
    requires IsCompiled(m, owner, tools, parallel) && WellFormed(m) && Accepts(m, s)
    ensures RunSet(m, StartSet(m), s + [Spaces()[0]]) != {}
  {
    CompiledLanguage(m, owner, tools, parallel, s);
    SpaceAfterTurn(tools, parallel, s);
    CompiledLanguage(m, owner, tools, parallel, s + [Spaces()[0]]);
  }

  lemma PrefixSurvives(m: Machine, s: Bytes, rest: Bytes)
    requires WellFormed(m) && Accepts(m, s + rest) && rest != []
    ensures RunSet(m, StartSet(m), s + [rest[0]]) != {}
  {
    Assoc(s, [rest[0]], rest[1..]);
    assert [rest[0]] + rest[1..] == rest;
    AcceptedSurvives(m, s + [rest[0]], rest[1..]);
  }

  /** After any text the machine survives, some single byte survives too. */
  lemma NextByte(m: Machine, owner: Owner, tools: seq<ToolSpec>, parallel: bool, s: Bytes) returns (b: Byte)
    requires IsCompiled(m, owner, tools, parallel)
    requires 1 <= |tools| <= TOOL_IDS && AllHaveLiterals(tools)
    requires WellFormed(m) && RunSet(m, StartSet(m), s) != {}
    ensures RunSet(m, StartSet(m), s + [b]) != {}
  {
    SurvivorsCanFinish(m, owner, tools, parallel, s);
    var rest :| Accepts(m, s + rest);
    if rest == [] {
      assert s + rest == s;
      SpaceSurvives(m, owner, tools, parallel, s);
      b := Spaces()[0];
    } else {
      PrefixSurvives(m, s, rest);
      b := rest[0];
    }
  }
}
