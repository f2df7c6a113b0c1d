/** Texts a grammar lets be written and can never let end: where a literal set is empty, and nowhere else. */
module DeadEnds {
  import opened Tools
  import opened Machines
  import opened CallGrammar
  import opened Languages
  import opened Calls
  import opened Turns
  import opened Builders
  import opened Compilers
  import opened Liveness
  import opened Runs

  // ----- a text that names one parameter of one tool -----

  const ANGLE: Byte := 62

  predicate TellApart(names: seq<Bytes>) {
    && (forall i | 0 <= i < |names| :: ANGLE !in names[i])
    && (forall i, j | 0 <= i < j < |names| :: names[i] != names[j])
  }

  function ToolNames(tools: seq<ToolSpec>): seq<Bytes> {
    seq(|tools|, t requires 0 <= t < |tools| => tools[t].name)
  }

  function ParamNames(tool: ToolSpec): seq<Bytes> {
    seq(|tool.params|, p requires 0 <= p < |tool.params| => tool.params[p].name)
  }

  /** No two tools share a name, nor two parameters of one tool, and no name ends early. */
  predicate NamesTellApart(tools: seq<ToolSpec>) {
    TellApart(ToolNames(tools)) && forall t | 0 <= t < |tools| :: TellApart(ParamNames(tools[t]))
  }

  /** Everything of a parameter's opening but its last byte. */
  function Opening(param: ParamSpec): Bytes {
    Ascii("<parameter=") + param.name + [ANGLE]
  }

  /** A call of a tool, as far as opening one parameter. */
  function Stuck(tool: ToolSpec, p: nat): Bytes
    requires p < |tool.params|
  {
    FunctionOpen(tool) + Opening(tool.params[p])
  }

  /** Two names that end at the same bracket are one. */
  lemma NameEnds(a: Bytes, b: Bytes, x: Bytes, y: Bytes)
    requires ANGLE !in a && ANGLE !in b && a + ([ANGLE] + x) == b + ([ANGLE] + y)
    ensures a == b
  {
    var s := a + ([ANGLE] + x);
    assert s[|a|] == ANGLE && s[|b|] == ANGLE;
    assert a == s[..|a|] && b == s[..|b|];
  }

  lemma Cancel(a: Bytes, x: Bytes, y: Bytes)
    requires a + x == a + y
    ensures x == y
  {
    assert (a + x)[|a|..] == x && (a + y)[|a|..] == y;
  }

  /** What is written after a tag tells which name is in it. */
  lemma TagNames(tag: Bytes, a: Bytes, b: Bytes, x: Bytes, y: Bytes)
    requires ANGLE !in a && ANGLE !in b && tag + a + ([ANGLE] + x) == tag + b + ([ANGLE] + y)
    ensures a == b && x == y
  {
    Assoc(tag, a, [ANGLE] + x);
    Assoc(tag, b, [ANGLE] + y);
    Cancel(tag, a + ([ANGLE] + x), b + ([ANGLE] + y));
    NameEnds(a, b, x, y);
    Cancel(tag + a, [ANGLE] + x, [ANGLE] + y);
    Cancel([ANGLE], x, y);
  }

  // ----- what a turn that begins so would have to be -----

  lemma OpenParts(tool: ToolSpec, rest: Bytes)
    ensures FunctionOpen(tool) + rest == Ascii("<function=") + tool.name + ([ANGLE] + (Ascii("\n") + rest))
  {
    assert Ascii(">\n") == [ANGLE] + Ascii("\n");
  }

  lemma ParamParts(param: ParamSpec, rest: Bytes)
    ensures ParameterOpen(param) + rest == Ascii("<parameter=") + param.name + ([ANGLE] + (Ascii("\n") + rest))
    ensures Opening(param) + rest == Ascii("<parameter=") + param.name + ([ANGLE] + rest)
  {
    assert Ascii(">\n") == [ANGLE] + Ascii("\n");
  }

  /** A turn without a header, from its first call on. */
  lemma CallOpens(tools: seq<ToolSpec>, calls: seq<Call>) returns (tail: Bytes)
    requires calls != [] && CallsInRange(tools, calls)
    ensures CallInRange(tools, calls[0])
    ensures var u, arguments := calls[0].tool, calls[0].arguments;
            PrintCalls(tools, calls)
            == FunctionOpen(tools[u]) + (PrintArguments(tools[u], arguments) + (FunctionClose() + tail))
  {
    var call, others := calls[0], calls[1..];
    assert CallInRange(tools, call) && calls == [call] + others;
    CallsCons(tools, call, others);
    var after := if others == [] then [] else CallOpen() + PrintCalls(tools, others);
    tail := CallClose() + call.space + after;
    Regroup(FunctionOpen(tools[call.tool]), PrintArguments(tools[call.tool], call.arguments), FunctionClose(),
            CallClose(), call.space, after);
  }

  lemma Regroup(a: Bytes, b: Bytes, c: Bytes, d: Bytes, e: Bytes, f: Bytes)
    ensures a + b + c + d + e + f == a + (b + (c + (d + e + f)))
  {
  }

  // The second byte tells the tags apart.

  lemma SecondOfTool(tool: ToolSpec, rest: Bytes)
    ensures |FunctionOpen(tool)| > 1 && (FunctionOpen(tool) + rest)[1] == 102
  {
    var tag := Ascii("<function=");
    assert tag[1] == 102 && FunctionOpen(tool)[1] == tag[1];
  }

  lemma SecondOfParam(param: ParamSpec, rest: Bytes)
    ensures |Opening(param)| > 1 && (Opening(param) + rest)[1] == 112
  {
    var tag := Ascii("<parameter=");
    assert tag[1] == 112 && Opening(param)[1] == tag[1];
  }

  lemma SecondOfEnds(rest: Bytes)
    ensures |CallOpen()| > 1 && (CallOpen() + rest)[1] == 116
    ensures |FunctionClose()| > 1 && (FunctionClose() + rest)[1] == 47
  {
    assert CallOpen()[1] == 116 && FunctionClose()[1] == 47;
  }

  lemma NotHeaded(tools: seq<ToolSpec>, t: nat, turn: Turn, rest: Bytes)
    requires t < |tools| && CallsInRange(tools, turn.calls)
    requires FunctionOpen(tools[t]) + rest == PrintTurn(tools, turn)
    ensures !turn.headed && PrintTurn(tools, turn) == PrintCalls(tools, turn.calls)
  {
    SecondOfTool(tools[t], rest);
    SecondOfEnds(PrintCalls(tools, turn.calls));
    assert [] + PrintCalls(tools, turn.calls) == PrintCalls(tools, turn.calls);
  }

  /** The first tool of a turn that begins with a tool's opening. */
  lemma FirstTool(tools: seq<ToolSpec>, t: nat, turn: Turn, rest: Bytes) returns (tail: Bytes)
    requires NamesTellApart(tools) && t < |tools| && turn.calls != [] && CallsInRange(tools, turn.calls)
    requires FunctionOpen(tools[t]) + rest == PrintTurn(tools, turn)
    ensures turn.calls[0].tool == t && CallInRange(tools, turn.calls[0])
    ensures rest == PrintArguments(tools[t], turn.calls[0].arguments) + (FunctionClose() + tail)
  {
    NotHeaded(tools, t, turn, rest);
    tail := CallOpens(tools, turn.calls);
    var u := turn.calls[0].tool;
    var body := PrintArguments(tools[u], turn.calls[0].arguments) + (FunctionClose() + tail);
    OpenParts(tools[t], rest);
    OpenParts(tools[u], body);
    var names := ToolNames(tools);
    assert names[t] == tools[t].name && names[u] == tools[u].name;
    TagNames(Ascii("<function="), tools[t].name, tools[u].name, Ascii("\n") + rest, Ascii("\n") + body);
    Cancel(Ascii("\n"), rest, body);
  }

  lemma SomeArgument(tool: ToolSpec, p: nat, arguments: seq<Argument>, rest: Bytes, tail: Bytes)
    requires p < |tool.params| && ArgumentsInRange(tool, arguments)
    requires Opening(tool.params[p]) + rest == PrintArguments(tool, arguments) + (FunctionClose() + tail)
    ensures arguments != []
  {
    SecondOfParam(tool.params[p], rest);
    SecondOfEnds(tail);
    assert [] + (FunctionClose() + tail) == FunctionClose() + tail;
  }

  lemma ArgumentOpens(tool: ToolSpec, arguments: seq<Argument>, tail: Bytes) returns (body: Bytes)
    requires ArgumentsInRange(tool, arguments) && arguments != []
    ensures PrintArguments(tool, arguments) + tail == ParameterOpen(tool.params[arguments[0].param]) + body
  {
    var open, text, others := ParameterOpen(tool.params[arguments[0].param]), arguments[0].text,
                              PrintArguments(tool, arguments[1..]);
    body := text + others + tail;
    assert open + text + others + tail == open + body;
  }

  /** The first argument of a call that goes on with a parameter's opening. */
  lemma FirstArgument(tool: ToolSpec, p: nat, arguments: seq<Argument>, rest: Bytes, tail: Bytes)
    requires TellApart(ParamNames(tool)) && p < |tool.params| && ArgumentsInRange(tool, arguments)
    requires Opening(tool.params[p]) + rest == PrintArguments(tool, arguments) + (FunctionClose() + tail)
    ensures arguments != [] && arguments[0].param == p
  {
    SomeArgument(tool, p, arguments, rest, tail);
    var q := arguments[0].param;
    var body := ArgumentOpens(tool, arguments, FunctionClose() + tail);
    ParamParts(tool.params[p], rest);
    ParamParts(tool.params[q], body);
    var names := ParamNames(tool);
    assert names[p] == tool.params[p].name && names[q] == tool.params[q].name;
    TagNames(Ascii("<parameter="), tool.params[p].name, tool.params[q].name, rest, Ascii("\n") + body);
  }

  /** No turn of the grammar begins by opening a parameter that no value can be written for. */
  lemma StuckForGood(tools: seq<ToolSpec>, parallel: bool, t: nat, p: nat, rest: Bytes)
    requires NamesTellApart(tools) && t < |tools| && p < |tools[t].params| && NoLiterals(tools[t].params[p].value)
    ensures !InGrammar(Tracked, tools, parallel, Stuck(tools[t], p) + rest)
  {
    var s := Stuck(tools[t], p) + rest;
    if InGrammar(Tracked, tools, parallel, s) {
      var turn :| WritesTurn(Tracked, tools, parallel, s, turn);
      assert ValidCall(Tracked, tools, turn.calls[0]);
      Assoc(FunctionOpen(tools[t]), Opening(tools[t].params[p]), rest);
      var tail := FirstTool(tools, t, turn, Opening(tools[t].params[p]) + rest);
      FirstArgument(tools[t], p, turn.calls[0].arguments, rest, tail);
      assert Spells(ValueRe(tools[t].params[p].value), turn.calls[0].arguments[0].text);
      assert false;
    }
  }

  // ----- and yet it survives -----

  /** Opening a parameter is where its first byte is read. */
  lemma ParamReached(m: Machine, args: nat, tool: ToolSpec, callClose: nat, c: Cursor, p: nat)
    returns (d: Cursor, value: nat)
    requires WellFormed(m) && ArgsAt(m.states, args, tool, callClose) && c.state == args && c.written == {}
    requires p < |tool.params|
    ensures d in Closure(m, c) && LiteralAt(m.states, d.state, ParameterOpen(tool.params[p]), value)
    ensures tool.params[p].value.Text? ==> UntilBlock(m.states, value, args)
  {
    var a := m.states[args].alts[p];
    assert ParamAt(m.states, a, p, tool.params[p], args);
    var open := m.states[a].next;
    var v, close :| ParamBodyAt(m.states, open, tool.params[p], args, v, close);
    d, value := Written(c.(state := a), p % 256, open), v;
    MarkReached(m, c, p, d);
  }

  lemma MarkReached(m: Machine, c: Cursor, i: nat, d: Cursor)
    requires WellFormed(m) && c.state < |m.states| && m.states[c.state].Split? && c.written == {}
    requires i < |m.states[c.state].alts|
    requires var a := m.states[c.state].alts[i];
             && a < |m.states| && m.states[a].Mark?
             && d == Written(c, m.states[a].param, m.states[a].next)
    requires IsFinal(m.states, d.state)
    ensures d in Closure(m, c)
  {
    var marked := c.(state := m.states[c.state].alts[i]);
    assert Successors(m, c)[i] == marked;
    assert Successors(m, marked) == [d] && d in [d];
    SuccessorClosure(m, c, marked);
    SuccessorClosure(m, marked, d);
    assert Closure(m, d) == {d};
  }

  lemma EntryReachable(m: Machine, c: Cursor, a: nat, args: nat, tool: ToolSpec, t: nat)
    requires WellFormed(m) && RootAt(m.states, m.root) && ENTRY < |m.states| && m.states[ENTRY].Split?
    requires a in m.states[ENTRY].alts && a < |m.states| && m.states[a].EnterTool? && m.states[a].tool == t
    requires LiteralAt(m.states, m.states[a].next, FunctionOpen(tool), args) && c == Cursor(args, t, {})
    ensures Closure(m, c) <= RunSet(m, StartSet(m), FunctionOpen(tool))
  {
    var named := Cursor(m.states[a].next, t, {});
    NameStart(m, a, FunctionOpen(tool), args);
    assert Closure(m, named) == {named};
    RunChain(m, StartSet(m), named, FunctionOpen(tool), args);
  }

  /** Any tool's opening leads to its argument loop. */
  lemma ToolReached(m: Machine, owner: Owner, tools: seq<ToolSpec>, parallel: bool, t: nat)
    returns (args: nat, callClose: nat)
    requires IsCompiled(m, owner, tools, parallel) && WellFormed(m) && t < |tools|
    ensures ArgsAt(m.states, args, tools[t], callClose)
    ensures Closure(m, Cursor(args, ToolId(t), {})) <= RunSet(m, StartSet(m), FunctionOpen(tools[t]))
  {
    var close, loops :| CompiledFrom(m, owner, tools, parallel, close, loops);
    callClose := close;
    LaidIsEntry(m.states, owner, tools, callClose);
    var a := m.states[ENTRY].alts[t];
    assert ToolAt(m.states, a, t, tools[t], callClose) && a in m.states[ENTRY].alts;
    var loop :| ToolBodyAt(m.states, m.states[a].next, tools[t], callClose, loop);
    args := loop;
    EntryReachable(m, Cursor(args, ToolId(t), {}), a, args, tools[t], ToolId(t));
  }

  /** Any parameter of any tool may be opened. */
  lemma OpeningSurvives(m: Machine, owner: Owner, tools: seq<ToolSpec>, parallel: bool, t: nat, p: nat)
    requires IsCompiled(m, owner, tools, parallel) && WellFormed(m) && t < |tools| && p < |tools[t].params|
    ensures RunSet(m, StartSet(m), Stuck(tools[t], p)) != {}
  {
    var args, callClose := ToolReached(m, owner, tools, parallel, t);
    var d, value := ParamReached(m, args, tools[t], callClose, Cursor(args, ToolId(t), {}), p);
    OneShort(m, RunSet(m, StartSet(m), FunctionOpen(tools[t])), d, tools[t].params[p], value);
    RunAppend(m, StartSet(m), FunctionOpen(tools[t]), Opening(tools[t].params[p]));
  }

  lemma OneShort(m: Machine, cs: set<Cursor>, d: Cursor, param: ParamSpec, value: nat)
    requires WellFormed(m) && d in cs && LiteralAt(m.states, d.state, ParameterOpen(param), value)
    ensures RunSet(m, cs, Opening(param)) != {}
  {
    var open := ParameterOpen(param);
    ChainAlive(m, cs, d, open, value, |open| - 1);
    assert Ascii(">\n") == [ANGLE] + Ascii("\n");
    assert open[..|open| - 1] == Opening(param);
  }

  /** Whatever the machine lets be written can be finished. */
  ghost predicate AllCanFinish(m: Machine)
    requires WellFormed(m)
  {
    forall s: Bytes | RunSet(m, StartSet(m), s) != {} :: CanFinish(m, s)
  }

  ghost predicate CanFinish(m: Machine, s: Bytes)
    requires WellFormed(m)
  {
    exists rest :: Accepts(m, s + rest)
  }

  /** A text the constraint lets through, and can then never let end. */
  lemma StuckText(m: Machine, owner: Owner, tools: seq<ToolSpec>, parallel: bool, t: nat, p: nat)
    requires IsCompiled(m, owner, tools, parallel) && NamesTellApart(tools)
    requires t < |tools| && p < |tools[t].params| && NoLiterals(tools[t].params[p].value)
    ensures WellFormed(m)
    ensures RunSet(m, StartSet(m), Stuck(tools[t], p)) != {} && !CanFinish(m, Stuck(tools[t], p))
  {
    CompiledIsWellFormed(m, owner, tools, parallel);
    OpeningSurvives(m, owner, tools, parallel, t, p);
    forall rest: Bytes
      ensures !Accepts(m, Stuck(tools[t], p) + rest)
    {
      CompiledLanguage(m, owner, tools, parallel, Stuck(tools[t], p) + rest);
      StuckForGood(tools, parallel, t, p, rest);
    }
  }

  /**
   * Exactly when the constraint cannot be led into a corner: with names that
   * tell tools and parameters apart, every text it lets be written can be
   * finished if and only if every literal set has something in it.
   */
  lemma AllCanFinishIff(m: Machine, owner: Owner, tools: seq<ToolSpec>, parallel: bool)
    requires IsCompiled(m, owner, tools, parallel) && 1 <= |tools| <= TOOL_IDS && NamesTellApart(tools)
    ensures WellFormed(m) && (AllCanFinish(m) <==> AllHaveLiterals(tools))
  {
    CompiledIsWellFormed(m, owner, tools, parallel);
    if AllHaveLiterals(tools) {
      forall s: Bytes | RunSet(m, StartSet(m), s) != {}
        ensures CanFinish(m, s)
      {
        SurvivorsCanFinish(m, owner, tools, parallel, s);
      }
    } else {
      var t :| 0 <= t < |tools| && !AnyLiterals(tools[t]);
      var p :| 0 <= p < |tools[t].params| && NoLiterals(tools[t].params[p].value);
      StuckText(m, owner, tools, parallel, t, p);
    }
  }
}
