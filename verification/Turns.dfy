/** From single calls to whole turns: the accepted strings are the valid turns, written out. */
module Turns {
  import opened Tools
  import opened Machines
  import opened CallGrammar
  import opened Languages
  import opened Calls

  /** A call without the whitespace after it. */
  function Bare(tool: nat, arguments: seq<Argument>): Call {
    Call(tool, arguments, [])
  }

  lemma Assoc(a: Bytes, b: Bytes, c: Bytes)
    ensures (a + b) + c == a + (b + c)
  {
  }

  lemma PrintSpaced(tools: seq<ToolSpec>, call: Call)
    requires CallInRange(tools, call)
    ensures PrintCall(tools, call) == PrintCall(tools, Bare(call.tool, call.arguments)) + call.space
  {
  }

  /** `s` writes this call and then ends on `rest`. */
  ghost predicate WritesCall(m: Machine, tools: seq<ToolSpec>, t: nat, arguments: seq<Argument>, rest: Bytes,
                             s: Bytes)
    requires WellFormed(m)
  {
    && ValidCall(Tracked, tools, Bare(t, arguments))
    && s == PrintCall(tools, Bare(t, arguments)) + rest
    && Ends(m, Fresh(AFTER), rest)
  }

  /** One tool, as the machine reads it. */
  ghost predicate ToolReads(m: Machine, tools: seq<ToolSpec>, t: nat, args: nat, r: nat)
    requires WellFormed(m)
  {
    && t < |tools| && r < |m.states| && m.states[r].EnterTool? && m.states[r].tool == ToolId(t)
    && LiteralAt(m.states, m.states[r].next, FunctionOpen(tools[t]), args)
    && Loops(m, args, tools[t])
    && Required(m, ToolId(t)) == RequiredBits(tools[ToolId(t)].params)
  }

  lemma EndsTool(m: Machine, tools: seq<ToolSpec>, t: nat, args: nat, c: Cursor, s: Bytes)
    requires WellFormed(m) && ToolReads(m, tools, t, args, c.state)
    ensures Ends(m, c, s) <==>
            FunctionOpen(tools[t]) <= s && Ends(m, Cursor(args, ToolId(t), {}), s[|FunctionOpen(tools[t])|..])
  {
    EndsEpsilon(m, c, s);
    var d := Cursor(m.states[c.state].next, ToolId(t), {});
    assert Successors(m, c) == [d] && d in [d];
    EndsChain(m, d, FunctionOpen(tools[t]), args, s);
  }

  lemma CallText(tools: seq<ToolSpec>, t: nat, arguments: seq<Argument>, rest: Bytes)
    requires CallInRange(tools, Bare(t, arguments))
    ensures PrintCall(tools, Bare(t, arguments)) + rest
            == FunctionOpen(tools[t])
               + (PrintArguments(tools[t], arguments) + (FunctionClose() + CallClose() + rest))
  {
    var a, b := FunctionOpen(tools[t]), PrintArguments(tools[t], arguments);
    var c, d := FunctionClose(), CallClose();
    assert a + b + c + d + [] + rest == a + (b + (c + d + rest));
  }

  lemma ToolParse(m: Machine, tools: seq<ToolSpec>, t: nat, args: nat, c: Cursor, s: Bytes)
    returns (arguments: seq<Argument>, rest: Bytes)
    requires WellFormed(m) && ToolReads(m, tools, t, args, c.state) && Ends(m, c, s)
    ensures WritesCall(m, tools, t, arguments, rest, s)
  {
    EndsTool(m, tools, t, args, c, s);
    var open := FunctionOpen(tools[t]);
    arguments, rest := ArgsParse(m, tools[t], Cursor(args, ToolId(t), {}), s[|open|..]);
    assert s == open + s[|open|..];
    CallText(tools, t, arguments, rest);
  }

  lemma ToolPrint(m: Machine, tools: seq<ToolSpec>, t: nat, args: nat, c: Cursor, arguments: seq<Argument>,
                  rest: Bytes, s: Bytes)
    requires WellFormed(m) && ToolReads(m, tools, t, args, c.state)
    requires WritesCall(m, tools, t, arguments, rest, s)
    ensures Ends(m, c, s)
  {
    EndsTool(m, tools, t, args, c, s);
    CallText(tools, t, arguments, rest);
    var open := FunctionOpen(tools[t]);
    var body := PrintArguments(tools[t], arguments) + (FunctionClose() + CallClose() + rest);
    assert s == open + body && s[|open|..] == body;
    ArgsPrint(m, tools[t], Cursor(args, ToolId(t), {}), arguments, rest, body);
  }

  ghost predicate EntryReads(m: Machine, tools: seq<ToolSpec>)
    requires WellFormed(m)
  {
    && ENTRY < |m.states| && m.states[ENTRY].Split? && |m.states[ENTRY].alts| == |tools|
    && forall t | 0 <= t < |tools| :: OpenerReads(m, tools, t, m.states[ENTRY].alts[t])
  }

  ghost predicate OpenerReads(m: Machine, tools: seq<ToolSpec>, t: nat, r: nat)
    requires WellFormed(m)
  {
    exists args :: ToolReads(m, tools, t, args, r)
  }

  lemma ToolShapeReads(m: Machine, tools: seq<ToolSpec>, t: nat, r: nat, callClose: nat) returns (args: nat)
    requires WellFormed(m) && t < |tools| && ToolAt(m.states, r, t, tools[t], callClose)
    requires LiteralAt(m.states, callClose, CallClose(), AFTER) && Forgets(m, AFTER)
    requires Required(m, ToolId(t)) == RequiredBits(tools[ToolId(t)].params)
    ensures ToolReads(m, tools, t, args, r)
  {
    args :| ToolBodyAt(m.states, m.states[r].next, tools[t], callClose, args);
    ArgsLoop(m, args, tools[t], callClose);
  }

  lemma EntryShapeReads(m: Machine, tools: seq<ToolSpec>, callClose: nat)
    requires WellFormed(m) && EntryAt(m.states, tools, callClose)
    requires LiteralAt(m.states, callClose, CallClose(), AFTER) && Forgets(m, AFTER)
    requires forall t | 0 <= t < |tools| :: Required(m, t) == RequiredBits(tools[t].params)
    ensures EntryReads(m, tools)
  {
    forall t | 0 <= t < |tools|
      ensures OpenerReads(m, tools, t, m.states[ENTRY].alts[t])
    {
      var args := ToolShapeReads(m, tools, t, m.states[ENTRY].alts[t], callClose);
    }
  }

  ghost predicate AfterAgrees(m: Machine, parallel: bool, s: Bytes)
    requires WellFormed(m)
  {
    Ends(m, Fresh(AFTER), s) <==> AfterStep(m, parallel, Fresh(AFTER), s)
  }

  ghost predicate AfterReads(m: Machine, parallel: bool)
    requires WellFormed(m)
  {
    forall s: Bytes :: AfterAgrees(m, parallel, s)
  }

  /** What the shape of a compiled grammar comes to, once its states are read. */
  ghost predicate Reads(m: Machine, tools: seq<ToolSpec>, parallel: bool) {
    WellFormed(m) && EntryReads(m, tools) && AfterReads(m, parallel) && RootAt(m.states, m.root)
  }

  lemma ShapeReads(m: Machine, tools: seq<ToolSpec>, parallel: bool, callClose: nat)
    requires CompiledShape(m, tools, parallel, callClose)
    ensures Reads(m, tools, parallel)
  {
    EntryForgets(m, tools, callClose);
    AfterForgets(m, parallel);
    EntryShapeReads(m, tools, callClose);
    forall s: Bytes
      ensures AfterAgrees(m, parallel, s)
    {
      EndsAfterOnce(m, parallel, Fresh(AFTER), s);
    }
  }

  lemma EntryParse(m: Machine, tools: seq<ToolSpec>, s: Bytes)
    returns (t: nat, arguments: seq<Argument>, rest: Bytes)
    requires WellFormed(m) && EntryReads(m, tools) && Ends(m, Fresh(ENTRY), s)
    ensures WritesCall(m, tools, t, arguments, rest, s)
  {
    EndsSplit(m, Fresh(ENTRY), s);
    var alts := m.states[ENTRY].alts;
    var a :| a in alts && Ends(m, Fresh(ENTRY).(state := a), s);
    t :| 0 <= t < |alts| && alts[t] == a;
    assert OpenerReads(m, tools, t, alts[t]);
    var args :| ToolReads(m, tools, t, args, alts[t]);
    arguments, rest := ToolParse(m, tools, t, args, Fresh(ENTRY).(state := a), s);
  }

  lemma EntryPrint(m: Machine, tools: seq<ToolSpec>, t: nat, arguments: seq<Argument>, rest: Bytes, s: Bytes)
    requires WellFormed(m) && EntryReads(m, tools) && WritesCall(m, tools, t, arguments, rest, s)
    ensures Ends(m, Fresh(ENTRY), s)
  {
    EndsSplit(m, Fresh(ENTRY), s);
    var a := m.states[ENTRY].alts[t];
    assert OpenerReads(m, tools, t, a);
    var args :| ToolReads(m, tools, t, args, a);
    ToolPrint(m, tools, t, args, Fresh(ENTRY).(state := a), arguments, rest, s);
    assert a in m.states[ENTRY].alts;
  }

  // ----- after a call -----

  /** Either nothing more, or another call. */
  ghost predicate Continues(m: Machine, parallel: bool, tail: Bytes)
    requires WellFormed(m)
  {
    tail == [] || (parallel && CallOpen() <= tail && Ends(m, Fresh(ENTRY), tail[|CallOpen()|..]))
  }

  lemma {:induction false} AfterParse(m: Machine, parallel: bool, s: Bytes) returns (space: Bytes, tail: Bytes)
    requires WellFormed(m) && AfterReads(m, parallel) && Ends(m, Fresh(AFTER), s)
    ensures s == space + tail && IsSpace(space) && Continues(m, parallel, tail)
    decreases |s|
  {
    assert AfterAgrees(m, parallel, s);
    assert Fresh(AFTER).(state := ENTRY) == Fresh(ENTRY);
    if Continues(m, parallel, s) {
      space, tail := [], s;
    } else {
      space, tail := AfterParse(m, parallel, s[1..]);
      space := [s[0]] + space;
    }
  }

  lemma {:induction false} AfterPrint(m: Machine, parallel: bool, space: Bytes, tail: Bytes)
    requires WellFormed(m) && AfterReads(m, parallel)
    requires IsSpace(space) && Continues(m, parallel, tail)
    ensures Ends(m, Fresh(AFTER), space + tail)
    decreases |space|
  {
    var s := space + tail;
    assert AfterAgrees(m, parallel, s);
    assert Fresh(AFTER).(state := ENTRY) == Fresh(ENTRY);
    if space == [] {
      assert s == tail;
    } else {
      assert s[0] == space[0] && s[1..] == space[1..] + tail;
      AfterPrint(m, parallel, space[1..], tail);
    }
  }

  // ----- turns -----

  lemma CallsCons(tools: seq<ToolSpec>, call: Call, calls: seq<Call>)
    requires CallInRange(tools, call) && CallsInRange(tools, calls)
    ensures CallsInRange(tools, [call] + calls)
    ensures PrintCalls(tools, [call] + calls)
            == PrintCall(tools, call) + (if calls == [] then [] else CallOpen() + PrintCalls(tools, calls))
  {
    var all := [call] + calls;
    assert all[0] == call && all[1..] == calls;
  }

  /** The first call of what the entry ends on, and what is left. */
  lemma CallParse(m: Machine, tools: seq<ToolSpec>, parallel: bool, s: Bytes) returns (call: Call, tail: Bytes)
    requires Reads(m, tools, parallel) && Ends(m, Fresh(ENTRY), s)
    ensures ValidCall(Tracked, tools, call) && s == PrintCall(tools, call) + tail
    ensures Continues(m, parallel, tail) && |tail| < |s|
  {
    var t, arguments, rest := EntryParse(m, tools, s);
    var space;
    space, tail := AfterParse(m, parallel, rest);
    call := Call(t, arguments, space);
    PrintSpaced(tools, call);
    Assoc(PrintCall(tools, Bare(t, arguments)), space, tail);
  }

  lemma CallPrint(m: Machine, tools: seq<ToolSpec>, parallel: bool, call: Call, tail: Bytes)
    requires Reads(m, tools, parallel) && ValidCall(Tracked, tools, call) && Continues(m, parallel, tail)
    ensures Ends(m, Fresh(ENTRY), PrintCall(tools, call) + tail)
  {
    AfterPrint(m, parallel, call.space, tail);
    PrintSpaced(tools, call);
    var bare := PrintCall(tools, Bare(call.tool, call.arguments));
    Assoc(bare, call.space, tail);
    EntryPrint(m, tools, call.tool, call.arguments, call.space + tail, PrintCall(tools, call) + tail);
  }

  lemma {:induction false} CallsParse(m: Machine, tools: seq<ToolSpec>, parallel: bool, s: Bytes)
    returns (calls: seq<Call>)
    requires Reads(m, tools, parallel) && Ends(m, Fresh(ENTRY), s)
    ensures ValidCalls(Tracked, tools, parallel, calls) && s == PrintCalls(tools, calls)
    decreases |s|
  {
    var call, tail := CallParse(m, tools, parallel, s);
    var others := [];
    if tail != [] {
      others := CallsParse(m, tools, parallel, tail[|CallOpen()|..]);
      assert tail == CallOpen() + tail[|CallOpen()|..];
    }
    CallsCons(tools, call, others);
    calls := [call] + others;
  }

  lemma {:induction false} CallsPrint(m: Machine, tools: seq<ToolSpec>, parallel: bool, calls: seq<Call>)
    requires Reads(m, tools, parallel) && ValidCalls(Tracked, tools, parallel, calls)
    ensures Ends(m, Fresh(ENTRY), PrintCalls(tools, calls))
    decreases |calls|
  {
    var call, others := calls[0], calls[1..];
    RestValid(tools, parallel, calls);
    CallsCons(tools, call, others);
    if others == [] {
      CallPrint(m, tools, parallel, call, []);
    } else {
      CallsPrint(m, tools, parallel, others);
      GoesOn(m, parallel, PrintCalls(tools, others));
      CallPrint(m, tools, parallel, call, CallOpen() + PrintCalls(tools, others));
    }
  }

  lemma RestValid(tools: seq<ToolSpec>, parallel: bool, calls: seq<Call>)
    requires ValidCalls(Tracked, tools, parallel, calls)
    ensures calls == [calls[0]] + calls[1..] && ValidCall(Tracked, tools, calls[0])
    ensures CallsInRange(tools, calls[1..])
    ensures calls[1..] != [] ==> parallel && ValidCalls(Tracked, tools, parallel, calls[1..])
  {
    forall i | 0 <= i < |calls[1..]|
      ensures ValidCall(Tracked, tools, calls[1..][i])
    {
      assert calls[1..][i] == calls[i + 1];
    }
  }

  lemma GoesOn(m: Machine, parallel: bool, calls: Bytes)
    requires WellFormed(m) && parallel && Ends(m, Fresh(ENTRY), calls)
    ensures Continues(m, parallel, CallOpen() + calls)
  {
    assert (CallOpen() + calls)[|CallOpen()|..] == calls;
  }

  lemma EndsRoot(m: Machine, s: Bytes)
    requires WellFormed(m) && RootAt(m.states, m.root)
    ensures Accepts(m, s) <==>
            || Ends(m, Fresh(ENTRY), s)
            || (CallOpen() <= s && Ends(m, Fresh(ENTRY), s[|CallOpen()|..]))
  {
    var c := Fresh(m.root);
    EndsSplit(m, c, s);
    var opening := m.states[m.root].alts[0];
    assert m.states[m.root].alts == [opening, ENTRY];
    EndsChain(m, c.(state := opening), CallOpen(), ENTRY, s);
    assert opening in m.states[m.root].alts && ENTRY in m.states[m.root].alts;
  }

  lemma TurnParse(m: Machine, tools: seq<ToolSpec>, parallel: bool, s: Bytes)
    requires Reads(m, tools, parallel)
    requires Accepts(m, s)
    ensures InGrammar(Tracked, tools, parallel, s)
  {
    EndsRoot(m, s);
    if Ends(m, Fresh(ENTRY), s) {
      var calls := CallsParse(m, tools, parallel, s);
      IsTurn(tools, parallel, s, false, calls);
    } else {
      HeadedTurn(m, tools, parallel, s);
    }
  }

  lemma HeadedTurn(m: Machine, tools: seq<ToolSpec>, parallel: bool, s: Bytes)
    requires Reads(m, tools, parallel) && CallOpen() <= s && Ends(m, Fresh(ENTRY), s[|CallOpen()|..])
    ensures InGrammar(Tracked, tools, parallel, s)
  {
    var rest := s[|CallOpen()|..];
    var calls := CallsParse(m, tools, parallel, rest);
    Splits(CallOpen(), s);
    IsTurn(tools, parallel, s, true, calls);
  }

  lemma Splits(a: Bytes, s: Bytes)
    requires a <= s
    ensures s == a + s[|a|..]
  {
  }

  lemma IsTurn(tools: seq<ToolSpec>, parallel: bool, s: Bytes, headed: bool, calls: seq<Call>)
    requires ValidCalls(Tracked, tools, parallel, calls)
    requires s == (if headed then CallOpen() else []) + PrintCalls(tools, calls)
    ensures InGrammar(Tracked, tools, parallel, s)
  {
    assert WritesTurn(Tracked, tools, parallel, s, Turn(headed, calls));
  }

  lemma TurnPrint(m: Machine, tools: seq<ToolSpec>, parallel: bool, s: Bytes, turn: Turn)
    requires Reads(m, tools, parallel)
    requires WritesTurn(Tracked, tools, parallel, s, turn)
    ensures Accepts(m, s)
  {
    EndsRoot(m, s);
    CallsPrint(m, tools, parallel, turn.calls);
    var body := PrintCalls(tools, turn.calls);
    if turn.headed {
      assert s[|CallOpen()|..] == body;
    } else {
      assert s == body;
    }
  }

  /** A machine of this shape accepts exactly the turns the grammar writes. */
  lemma ShapeLanguage(m: Machine, tools: seq<ToolSpec>, parallel: bool, callClose: nat, s: Bytes)
    requires CompiledShape(m, tools, parallel, callClose)
    ensures Accepts(m, s) <==> InGrammar(Tracked, tools, parallel, s)
  {
    ShapeReads(m, tools, parallel, callClose);
    if Accepts(m, s) {
      TurnParse(m, tools, parallel, s);
    }
    if turn :| WritesTurn(Tracked, tools, parallel, s, turn) {
      TurnPrint(m, tools, parallel, s, turn);
    }
  }
}
