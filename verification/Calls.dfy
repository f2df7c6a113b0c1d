/** The states of whole calls, and that a compiled machine accepts exactly the written turns. */
module Calls {
  import opened Tools
  import opened Machines
  import opened CallGrammar
  import opened Languages
  import opened Values

  // ----- the shape of a compiled grammar -----

  ghost predicate ParamBodyAt(states: seq<State>, r: nat, spec: ParamSpec, args: nat, value: nat, close: nat) {
    && LiteralAt(states, r, ParameterOpen(spec), value)
    && ValueAt(states, value, spec.value, close, args)
    && args < value
  }

  ghost predicate ParamAt(states: seq<State>, r: nat, index: nat, spec: ParamSpec, args: nat) {
    && r < |states| && states[r].Mark? && states[r].param == index % 256
    && exists value, close :: ParamBodyAt(states, states[r].next, spec, args, value, close)
  }

  /** A tool's argument loop: its parameters, and the way out once all required ones are written. */
  ghost predicate ArgsAt(states: seq<State>, args: nat, tool: ToolSpec, callClose: nat) {
    && args < |states| && states[args].Split? && |states[args].alts| == |tool.params| + 1
    && (forall p | 0 <= p < |tool.params| :: ParamAt(states, states[args].alts[p], p, tool.params[p], args))
    && var out := states[args].alts[|tool.params|];
       && out < |states| && states[out].RequireAll?
       && LiteralAt(states, states[out].next, FunctionClose(), callClose)
  }

  ghost predicate ToolAt(states: seq<State>, r: nat, index: nat, tool: ToolSpec, callClose: nat) {
    && r < |states| && states[r].EnterTool? && states[r].tool == ToolId(index)
    && exists args :: ToolBodyAt(states, states[r].next, tool, callClose, args)
  }

  ghost predicate ToolBodyAt(states: seq<State>, r: nat, tool: ToolSpec, callClose: nat, args: nat) {
    LiteralAt(states, r, FunctionOpen(tool), args) && ArgsAt(states, args, tool, callClose)
  }

  const ACCEPT: nat := 0
  const AFTER: nat := 1
  const ENTRY: nat := 2

  ghost predicate EntryAt(states: seq<State>, tools: seq<ToolSpec>, callClose: nat) {
    && ENTRY < |states| && states[ENTRY].Split? && |states[ENTRY].alts| == |tools|
    && forall t | 0 <= t < |tools| :: ToolAt(states, states[ENTRY].alts[t], t, tools[t], callClose)
  }

  ghost predicate AfterAt(states: seq<State>, parallel: bool) {
    && AFTER < |states| && states[AFTER].Split?
    && |states[AFTER].alts| == (if parallel then 6 else 5)
    && states[AFTER].alts[0] == ACCEPT && states[ACCEPT] == Accept
    && (forall i | 0 <= i < 4 :: ByteAt(states, states[AFTER].alts[1 + i], Spaces()[i], AFTER))
    && (parallel ==> LiteralAt(states, states[AFTER].alts[5], CallOpen(), ENTRY))
  }

  ghost predicate RootAt(states: seq<State>, root: nat) {
    && root < |states| && states[root].Split? && |states[root].alts| == 2 && states[root].alts[1] == ENTRY
    && LiteralAt(states, states[root].alts[0], CallOpen(), ENTRY)
  }

  ghost predicate CompiledShape(m: Machine, tools: seq<ToolSpec>, parallel: bool, callClose: nat) {
    && WellFormed(m)
    && EntryAt(m.states, tools, callClose)
    && LiteralAt(m.states, callClose, CallClose(), AFTER)
    && AfterAt(m.states, parallel)
    && RootAt(m.states, m.root)
    && |m.required| == |tools|
    && forall t | 0 <= t < |tools| :: m.required[t] == RequiredBits(tools[t].params)
  }

  // ----- reading a fragment, by concatenation -----

  lemma ViaIntro(m: Machine, c: Cursor, re: Re, next: nat, a: Bytes, b: Bytes)
    requires WellFormed(m) && Spells(re, a) && Ends(m, c.(state := next), b)
    ensures Via(m, c, re, next, a + b)
  {
    assert (a + b)[..|a|] == a && (a + b)[|a|..] == b;
  }

  lemma ViaElim(m: Machine, c: Cursor, re: Re, next: nat, s: Bytes) returns (a: Bytes, b: Bytes)
    requires WellFormed(m) && Via(m, c, re, next, s)
    ensures s == a + b && Spells(re, a) && Ends(m, c.(state := next), b)
  {
    var i :| 0 <= i <= |s| && Spells(re, s[..i]) && Ends(m, c.(state := next), s[i..]);
    a, b := s[..i], s[i..];
  }

  /** A chain ends exactly on its bytes followed by what ends after it. */
  lemma EndsChain(m: Machine, c: Cursor, bytes: Bytes, next: nat, s: Bytes)
    requires WellFormed(m) && LiteralAt(m.states, c.state, bytes, next)
    ensures Ends(m, c, s) <==> bytes <= s && Ends(m, c.(state := next), s[|bytes|..])
  {
    CompilesLiteral(m, c.state, bytes, next);
    assert Agrees(m, c.state, Word(bytes), next, c, s);
    if Ends(m, c, s) {
      var a, b := ViaElim(m, c, Word(bytes), next, s);
      assert s[|bytes|..] == b;
    }
    if bytes <= s && Ends(m, c.(state := next), s[|bytes|..]) {
      assert s == bytes + s[|bytes|..];
      ViaIntro(m, c, Word(bytes), next, bytes, s[|bytes|..]);
    }
  }

  /** Concatenations regroup around a prefix. */
  lemma Regroup(a: Bytes, b: Bytes, c: Bytes, s: Bytes)
    ensures s == a + b + c <==> a <= s && s[|a|..] == b + c
  {
    assert a + b + c == a + (b + c);
    if a <= s {
      assert s == a + s[|a|..];
    }
  }

  // ----- one parameter -----

  /** The cursor after writing a parameter, back at the argument loop. */
  function Written(c: Cursor, index: nat, args: nat): Cursor {
    Cursor(args, c.tool, c.written + ParamBit(index))
  }

  lemma EndsMark(m: Machine, c: Cursor, s: Bytes)
    requires WellFormed(m) && c.state < |m.states| && m.states[c.state].Mark?
    ensures var p := m.states[c.state].param;
            Ends(m, c, s) <==> ParamBit(p) !! c.written
                               && Ends(m, Written(c, p, m.states[c.state].next), s)
  {
    EndsEpsilon(m, c, s);
    var d := Written(c, m.states[c.state].param, m.states[c.state].next);
    assert d in [d];
  }

  lemma EndsParam(m: Machine, c: Cursor, index: nat, spec: ParamSpec, args: nat, s: Bytes)
    requires WellFormed(m) && ParamAt(m.states, c.state, index, spec, args)
    ensures Ends(m, c, s) <==>
            && ParamBit(index) !! c.written
            && ParameterOpen(spec) <= s
            && Via(m, Written(c, index, args), ValueRe(spec.value), args, s[|ParameterOpen(spec)|..])
  {
    assert ParamBit(index % 256) == ParamBit(index);
    EndsMark(m, c, s);
    var open := m.states[c.state].next;
    var value, close :| ParamBodyAt(m.states, open, spec, args, value, close);
    var d := Written(c, index, open);
    EndsChain(m, d, ParameterOpen(spec), value, s);
    if ParameterOpen(spec) <= s {
      EndsValue(m, d.(state := value), open, spec, value, close, args, s[|ParameterOpen(spec)|..]);
      assert d.(state := value).(state := args) == Written(c, index, args);
    }
  }

  lemma EndsValue(m: Machine, c: Cursor, open: nat, spec: ParamSpec, value: nat, close: nat, args: nat, s: Bytes)
    requires WellFormed(m) && ParamBodyAt(m.states, open, spec, args, value, close) && c.state == value
    ensures Ends(m, c, s) <==> Via(m, c.(state := args), ValueRe(spec.value), args, s)
  {
    CompilesValue(m, c.state, spec.value, close, args);
    assert Agrees(m, c.state, ValueRe(spec.value), args, c, s);
    assert c.(state := args).(state := args) == c.(state := args);
    ViaStart(m, c, c.(state := args), ValueRe(spec.value), args, s);
  }

  /** Where a fragment starts does not matter to what its end reads. */
  lemma ViaStart(m: Machine, c: Cursor, d: Cursor, re: Re, next: nat, s: Bytes)
    requires WellFormed(m) && c.(state := next) == d.(state := next)
    ensures Via(m, c, re, next, s) <==> Via(m, d, re, next, s)
  {
  }

  // ----- past the call, nothing of the cursor but its position matters -----

  function Fresh(state: nat): Cursor {
    Cursor(state, NO_TOOL, {})
  }

  /** From this state, what a cursor carries does not matter. */
  ghost predicate Forgets(m: Machine, state: nat)
    requires WellFormed(m)
  {
    forall c: Cursor, s: Bytes :: Same(m, state, c, s)
  }

  ghost predicate Same(m: Machine, state: nat, c: Cursor, s: Bytes)
    requires WellFormed(m)
  {
    c.state == state ==> (Ends(m, c, s) <==> Ends(m, Fresh(state), s))
  }

  lemma EnterForgets(m: Machine, a: nat)
    requires WellFormed(m) && a < |m.states| && m.states[a].EnterTool?
    ensures Forgets(m, a)
  {
    forall c: Cursor, s: Bytes | c.state == a
      ensures Same(m, a, c, s)
    {
      EndsEpsilon(m, c, s);
      EndsEpsilon(m, Fresh(a), s);
      assert Successors(m, c) == Successors(m, Fresh(a));
    }
  }

  lemma SplitForgets(m: Machine, r: nat)
    requires WellFormed(m) && r < |m.states| && m.states[r].Split?
    requires forall a | a in m.states[r].alts :: Forgets(m, a)
    ensures Forgets(m, r)
  {
    forall c: Cursor, s: Bytes | c.state == r
      ensures Same(m, r, c, s)
    {
      EndsSplit(m, c, s);
      EndsSplit(m, Fresh(r), s);
      forall a | a in m.states[r].alts
        ensures Ends(m, c.(state := a), s) <==> Ends(m, Fresh(r).(state := a), s)
      {
        assert Same(m, a, c.(state := a), s);
        assert Fresh(r).(state := a) == Fresh(a);
      }
    }
  }

  lemma EntryForgets(m: Machine, tools: seq<ToolSpec>, callClose: nat)
    requires WellFormed(m) && EntryAt(m.states, tools, callClose)
    ensures Forgets(m, ENTRY)
  {
    var alts := m.states[ENTRY].alts;
    forall a | a in alts
      ensures Forgets(m, a)
    {
      var t :| 0 <= t < |alts| && alts[t] == a;
      assert ToolAt(m.states, a, t, tools[t], callClose);
      EnterForgets(m, a);
    }
    SplitForgets(m, ENTRY);
  }

  ghost predicate AfterStep(m: Machine, parallel: bool, c: Cursor, s: Bytes)
    requires WellFormed(m)
  {
    || s == []
    || (s[0] in Spaces() && Ends(m, c, s[1..]))
    || (parallel && CallOpen() <= s && Ends(m, c.(state := ENTRY), s[|CallOpen()|..]))
  }

  lemma EndsSpace(m: Machine, parallel: bool, c: Cursor, i: nat, s: Bytes)
    requires WellFormed(m) && AfterAt(m.states, parallel) && c.state == AFTER && 1 <= i < 5
    ensures Ends(m, c.(state := m.states[AFTER].alts[i]), s)
            <==> s != [] && s[0] == Spaces()[i - 1] && Ends(m, c, s[1..])
  {
    var a := m.states[AFTER].alts[1 + (i - 1)];
    assert ByteAt(m.states, a, Spaces()[i - 1], AFTER);
    EndsLiteral(m, c.(state := a), s);
    assert c.(state := a).(state := AFTER) == c;
  }

  /** What follows a closed call: the end, a space, or another call. */
  lemma EndsAfterOnce(m: Machine, parallel: bool, c: Cursor, s: Bytes)
    requires WellFormed(m) && AfterAt(m.states, parallel) && c.state == AFTER
    ensures Ends(m, c, s) <==> AfterStep(m, parallel, c, s)
  {
    EndsSplit(m, c, s);
    var alts := m.states[AFTER].alts;
    forall i | 0 <= i < |alts|
      ensures Ends(m, c.(state := alts[i]), s) ==> AfterStep(m, parallel, c, s)
      ensures alts[i] in alts
    {
      AfterBranch(m, parallel, c, i, s);
    }
    if AfterStep(m, parallel, c, s) {
      if s == [] {
        AfterBranch(m, parallel, c, 0, s);
      } else if s[0] in Spaces() && Ends(m, c, s[1..]) {
        var k :| 0 <= k < |Spaces()| && Spaces()[k] == s[0];
        AfterBranch(m, parallel, c, 1 + k, s);
      } else {
        AfterBranch(m, parallel, c, 5, s);
      }
    }
  }

  lemma AfterBranch(m: Machine, parallel: bool, c: Cursor, i: nat, s: Bytes)
    requires WellFormed(m) && AfterAt(m.states, parallel) && c.state == AFTER && i < |m.states[AFTER].alts|
    ensures Ends(m, c.(state := m.states[AFTER].alts[i]), s) <==>
            if i == 0 then s == []
            else if i < 5 then s != [] && s[0] == Spaces()[i - 1] && Ends(m, c, s[1..])
            else CallOpen() <= s && Ends(m, c.(state := ENTRY), s[|CallOpen()|..])
    ensures parallel || i < 5
  {
    if i == 0 {
      EndsAccept(m, c.(state := ACCEPT), s);
    } else if i < 5 {
      EndsSpace(m, parallel, c, i, s);
    } else {
      AfterCall(m, parallel, c, s);
    }
  }

  lemma AfterCall(m: Machine, parallel: bool, c: Cursor, s: Bytes)
    requires WellFormed(m) && AfterAt(m.states, parallel) && c.state == AFTER && |m.states[AFTER].alts| > 5
    ensures Ends(m, c.(state := m.states[AFTER].alts[5]), s) <==>
            CallOpen() <= s && Ends(m, c.(state := ENTRY), s[|CallOpen()|..])
    ensures parallel
  {
    EndsChain(m, c.(state := m.states[AFTER].alts[5]), CallOpen(), ENTRY, s);
  }

  lemma {:induction false} AfterSame(m: Machine, parallel: bool, c: Cursor, s: Bytes)
    requires WellFormed(m) && AfterAt(m.states, parallel) && Forgets(m, ENTRY) && c.state == AFTER
    ensures Ends(m, c, s) <==> Ends(m, Fresh(AFTER), s)
    decreases |s|
  {
    EndsAfterOnce(m, parallel, c, s);
    EndsAfterOnce(m, parallel, Fresh(AFTER), s);
    if s != [] {
      AfterSame(m, parallel, c, s[1..]);
    }
    if CallOpen() <= s {
      assert Same(m, ENTRY, c.(state := ENTRY), s[|CallOpen()|..]);
      assert Fresh(AFTER).(state := ENTRY) == Fresh(ENTRY);
    }
  }

  lemma AfterForgets(m: Machine, parallel: bool)
    requires WellFormed(m) && AfterAt(m.states, parallel) && Forgets(m, ENTRY)
    ensures Forgets(m, AFTER)
  {
    forall c: Cursor, s: Bytes | c.state == AFTER
      ensures Same(m, AFTER, c, s)
    {
      AfterSame(m, parallel, c, s);
    }
  }

  // ----- the argument loop -----

  /** `s` writes these arguments, closes the call and ends on `rest`. */
  ghost predicate WritesArgs(m: Machine, tool: ToolSpec, c: Cursor, arguments: seq<Argument>, rest: Bytes,
                             s: Bytes)
    requires WellFormed(m)
  {
    && ArgumentsInRange(tool, arguments) && ValuesSpelled(tool, arguments)
    && TrackedFrom(Required(m, c.tool), c.written, arguments)
    && s == PrintArguments(tool, arguments) + (FunctionClose() + CallClose() + rest)
    && Ends(m, Fresh(AFTER), rest)
  }

  lemma EndsRequireAll(m: Machine, c: Cursor, s: Bytes)
    requires WellFormed(m) && c.state < |m.states| && m.states[c.state].RequireAll?
    ensures Ends(m, c, s) <==>
            Required(m, c.tool) <= c.written && Ends(m, c.(state := m.states[c.state].next), s)
  {
    EndsEpsilon(m, c, s);
    var d := c.(state := m.states[c.state].next);
    assert d in [d];
  }

  /** The way out of the loop. */
  ghost predicate LeavesArgs(m: Machine, c: Cursor, s: Bytes)
    requires WellFormed(m)
  {
    && Required(m, c.tool) <= c.written
    && FunctionClose() + CallClose() <= s
    && Ends(m, Fresh(AFTER), s[|FunctionClose() + CallClose()|..])
  }

  /** One more parameter, and back to the loop. */
  ghost predicate WritesParam(m: Machine, tool: ToolSpec, c: Cursor, p: nat, s: Bytes)
    requires WellFormed(m) && p < |tool.params|
  {
    && ParamBit(p) !! c.written
    && ParameterOpen(tool.params[p]) <= s
    && Via(m, Written(c, p, c.state), ValueRe(tool.params[p].value), c.state,
           s[|ParameterOpen(tool.params[p])|..])
  }

  lemma LiteralJoin(states: seq<State>, r: nat, a: Bytes, mid: nat, b: Bytes, next: nat)
    requires LiteralAt(states, r, a, mid) && LiteralAt(states, mid, b, next)
    ensures LiteralAt(states, r, a + b, next)
    decreases |a|
  {
    if a == [] {
      assert a + b == b;
    } else {
      assert (a + b)[1..] == a[1..] + b;
      LiteralJoin(states, states[r].next, a[1..], mid, b, next);
    }
  }

  lemma EndsLeaving(m: Machine, callClose: nat, c: Cursor, s: Bytes)
    requires WellFormed(m) && c.state < |m.states| && m.states[c.state].RequireAll?
    requires LiteralAt(m.states, m.states[c.state].next, FunctionClose(), callClose)
    requires LiteralAt(m.states, callClose, CallClose(), AFTER) && Forgets(m, AFTER)
    ensures Ends(m, c, s) <==> LeavesArgs(m, c, s)
  {
    EndsRequireAll(m, c, s);
    var next, shut := m.states[c.state].next, FunctionClose() + CallClose();
    LiteralJoin(m.states, next, FunctionClose(), callClose, CallClose(), AFTER);
    EndsChain(m, c.(state := next), shut, AFTER, s);
    if shut <= s {
      assert Same(m, AFTER, c.(state := AFTER), s[|shut|..]);
    }
  }

  ghost predicate LoopAgrees(m: Machine, args: nat, tool: ToolSpec, c: Cursor, s: Bytes)
    requires WellFormed(m)
  {
    c.state == args ==>
      (Ends(m, c, s) <==>
       LeavesArgs(m, c, s) || exists p | 0 <= p < |tool.params| :: WritesParam(m, tool, c, p, s))
  }

  /** What one turn of a tool's argument loop does: out through the requirement, or one more parameter. */
  ghost predicate Loops(m: Machine, args: nat, tool: ToolSpec)
    requires WellFormed(m)
  {
    forall c: Cursor, s: Bytes :: LoopAgrees(m, args, tool, c, s)
  }

  lemma ParamBranch(m: Machine, args: nat, tool: ToolSpec, callClose: nat, c: Cursor, p: nat, s: Bytes)
    requires WellFormed(m) && ArgsAt(m.states, args, tool, callClose) && c.state == args && p < |tool.params|
    ensures Ends(m, c.(state := m.states[args].alts[p]), s) <==> WritesParam(m, tool, c, p, s)
  {
    var d := c.(state := m.states[args].alts[p]);
    EndsParam(m, d, p, tool.params[p], args, s);
    assert Written(d, p, args) == Written(c, p, args);
  }

  /** Any of some alternatives is one of the first, or the last. */
  lemma AnyBranch(m: Machine, c: Cursor, alts: seq<nat>, n: nat, s: Bytes)
    requires WellFormed(m) && |alts| == n + 1
    ensures (exists a | a in alts :: Ends(m, c.(state := a), s)) <==>
            Ends(m, c.(state := alts[n]), s) || exists p | 0 <= p < n :: Ends(m, c.(state := alts[p]), s)
  {
    if a :| a in alts && Ends(m, c.(state := a), s) {
      var i :| 0 <= i < |alts| && alts[i] == a;
      assert i == n || 0 <= i < n;
    }
    assert forall p | 0 <= p <= n :: alts[p] in alts;
  }

  lemma ArgsLoop(m: Machine, args: nat, tool: ToolSpec, callClose: nat)
    requires WellFormed(m) && ArgsAt(m.states, args, tool, callClose)
    requires LiteralAt(m.states, callClose, CallClose(), AFTER) && Forgets(m, AFTER)
    ensures Loops(m, args, tool)
  {
    var alts, n := m.states[args].alts, |tool.params|;
    forall c: Cursor, s: Bytes | c.state == args
      ensures LoopAgrees(m, args, tool, c, s)
    {
      EndsSplit(m, c, s);
      AnyBranch(m, c, alts, n, s);
      EndsLeaving(m, callClose, c.(state := alts[n]), s);
      forall p | 0 <= p < n
        ensures Ends(m, c.(state := alts[p]), s) <==> WritesParam(m, tool, c, p, s)
      {
        ParamBranch(m, args, tool, callClose, c, p, s);
      }
    }
  }

  lemma PrintMore(tool: ToolSpec, first: Argument, arguments: seq<Argument>)
    requires first.param < |tool.params| && ArgumentsInRange(tool, arguments)
    ensures ArgumentsInRange(tool, [first] + arguments)
    ensures PrintArguments(tool, [first] + arguments)
            == ParameterOpen(tool.params[first.param]) + first.text + PrintArguments(tool, arguments)
    ensures Spells(ValueRe(tool.params[first.param].value), first.text) && ValuesSpelled(tool, arguments)
            <==> ValuesSpelled(tool, [first] + arguments)
  {
    var all := [first] + arguments;
    assert all[1..] == arguments && all[0] == first;
    assert forall i | 0 <= i < |arguments| :: all[i + 1] == arguments[i];
    assert forall i | 1 <= i < |all| :: all[i] == arguments[i - 1];
  }

  /** Writing one more argument in front. */
  lemma WritesMore(m: Machine, tool: ToolSpec, c: Cursor, first: Argument, others: seq<Argument>, rest: Bytes,
                   tail: Bytes)
    requires WellFormed(m) && first.param < |tool.params| && ArgumentsInRange(tool, others)
    ensures WritesArgs(m, tool, c, [first] + others, rest,
                       ParameterOpen(tool.params[first.param]) + first.text + tail)
            <==> && ParamBit(first.param) !! c.written
                 && Spells(ValueRe(tool.params[first.param].value), first.text)
                 && WritesArgs(m, tool, Written(c, first.param, c.state), others, rest, tail)
  {
    PrintMore(tool, first, others);
    var all, open := [first] + others, ParameterOpen(tool.params[first.param]);
    assert all[1..] == others && all[0] == first;
    var shut := FunctionClose() + CallClose() + rest;
    var printed := PrintArguments(tool, others) + shut;
    assert PrintArguments(tool, all) + shut == (open + first.text) + printed;
    if (open + first.text) + tail == (open + first.text) + printed {
      assert ((open + first.text) + tail)[|open + first.text|..] == tail;
      assert ((open + first.text) + printed)[|open + first.text|..] == printed;
    }
  }

  /** Whatever the loop ends on was written as an admissible argument list. */
  lemma {:induction false} ArgsParse(m: Machine, tool: ToolSpec, c: Cursor, s: Bytes)
    returns (arguments: seq<Argument>, rest: Bytes)
    requires WellFormed(m) && Loops(m, c.state, tool) && Ends(m, c, s)
    ensures WritesArgs(m, tool, c, arguments, rest, s)
    decreases |s|
  {
    assert LoopAgrees(m, c.state, tool, c, s);
    if LeavesArgs(m, c, s) {
      arguments, rest := [], s[|FunctionClose() + CallClose()|..];
      assert s == PrintArguments(tool, []) + (FunctionClose() + CallClose() + rest);
    } else {
      var p :| 0 <= p < |tool.params| && WritesParam(m, tool, c, p, s);
      var open, d := ParameterOpen(tool.params[p]), Written(c, p, c.state);
      var text, tail := ViaElim(m, d, ValueRe(tool.params[p].value), c.state, s[|open|..]);
      Regroup(open, text, tail, s);
      assert d.(state := c.state) == d;
      var others;
      others, rest := ArgsParse(m, tool, d, tail);
      WritesMore(m, tool, c, Argument(p, text), others, rest, tail);
      arguments := [Argument(p, text)] + others;
    }
  }

  /** Nothing more to write: the loop is left. */
  lemma WrittenOut(m: Machine, tool: ToolSpec, c: Cursor, rest: Bytes, s: Bytes)
    requires WellFormed(m) && WritesArgs(m, tool, c, [], rest, s)
    ensures LeavesArgs(m, c, s)
  {
    assert s == FunctionClose() + CallClose() + rest;
    assert s[|FunctionClose() + CallClose()|..] == rest;
  }

  /** The first argument of a list, and the text after it. */
  lemma FirstOf(m: Machine, tool: ToolSpec, c: Cursor, arguments: seq<Argument>, rest: Bytes, s: Bytes)
    returns (tail: Bytes)
    requires WellFormed(m) && WritesArgs(m, tool, c, arguments, rest, s) && arguments != []
    ensures var first := arguments[0];
            && first.param < |tool.params| && ParamBit(first.param) !! c.written
            && Spells(ValueRe(tool.params[first.param].value), first.text)
            && ParameterOpen(tool.params[first.param]) <= s
            && s[|ParameterOpen(tool.params[first.param])|..] == first.text + tail
            && WritesArgs(m, tool, Written(c, first.param, c.state), arguments[1..], rest, tail)
  {
    var first, others := arguments[0], arguments[1..];
    assert arguments == [first] + others;
    assert ArgumentsInRange(tool, others);
    PrintMore(tool, first, others);
    var open := ParameterOpen(tool.params[first.param]);
    tail := PrintArguments(tool, others) + (FunctionClose() + CallClose() + rest);
    assert s == open + first.text + tail;
    Regroup(open, first.text, tail, s);
    WritesMore(m, tool, c, first, others, rest, tail);
  }

  /** Every admissible argument list, written out, is something the loop ends on. */
  lemma {:induction false} ArgsPrint(m: Machine, tool: ToolSpec, c: Cursor, arguments: seq<Argument>,
                                     rest: Bytes, s: Bytes)
    requires WellFormed(m) && Loops(m, c.state, tool) && WritesArgs(m, tool, c, arguments, rest, s)
    ensures Ends(m, c, s)
    decreases |arguments|
  {
    assert LoopAgrees(m, c.state, tool, c, s);
    if arguments == [] {
      WrittenOut(m, tool, c, rest, s);
    } else {
      var tail := FirstOf(m, tool, c, arguments, rest, s);
      ArgsPrint(m, tool, Written(c, arguments[0].param, c.state), arguments[1..], rest, tail);
      FirstWritten(m, tool, c, arguments[0], tail, s);
    }
  }

  /** One argument written, and the loop reached again. */
  lemma FirstWritten(m: Machine, tool: ToolSpec, c: Cursor, first: Argument, tail: Bytes, s: Bytes)
    requires WellFormed(m) && first.param < |tool.params| && ParamBit(first.param) !! c.written
    requires Spells(ValueRe(tool.params[first.param].value), first.text)
    requires Ends(m, Written(c, first.param, c.state), tail)
    requires ParameterOpen(tool.params[first.param]) <= s
    requires s[|ParameterOpen(tool.params[first.param])|..] == first.text + tail
    ensures WritesParam(m, tool, c, first.param, s)
  {
    var d := Written(c, first.param, c.state);
    assert d.(state := c.state) == d;
    ViaIntro(m, d, ValueRe(tool.params[first.param].value), c.state, first.text, tail);
  }
}
