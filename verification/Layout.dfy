/**
 * What every state the builder lays down satisfies, and that later states and
 * patched loops disturb nothing already in place.
 */
module Layouts {
  import opened Tools
  import opened Machines
  import opened Languages
  import opened Values
  import opened Calls

  // ----- later building keeps earlier shapes -----

  /** Everything but the placeholders is as it was. */
  predicate Keeps(states: seq<State>, after: seq<State>) {
    |states| <= |after| && forall i | 0 <= i < |states| :: states[i] == Split([]) || after[i] == states[i]
  }

  lemma {:induction false} KeepsLiteral(s: seq<State>, t: seq<State>, r: nat, bytes: Bytes, next: nat)
    requires Keeps(s, t) && LiteralAt(s, r, bytes, next)
    ensures LiteralAt(t, r, bytes, next)
    decreases |bytes|
  {
    if bytes != [] {
      KeepsLiteral(s, t, s[r].next, bytes[1..], next);
    }
  }

  lemma KeepsDigit(s: seq<State>, t: seq<State>, r: nat, next: nat)
    requires Keeps(s, t) && DigitAt(s, r, next)
    ensures DigitAt(t, r, next)
  {
  }

  lemma KeepsDigits(s: seq<State>, t: seq<State>, r: nat, next: nat)
    requires Keeps(s, t) && DigitsAt(s, r, next)
    ensures DigitsAt(t, r, next)
  {
    var more := s[s[r].alts[0]].next;
    KeepsDigit(s, t, r, more);
    KeepsDigit(s, t, s[more].alts[0], more);
  }

  lemma KeepsSigned(s: seq<State>, t: seq<State>, r: nat, next: nat)
    requires Keeps(s, t) && SignedAt(s, r, next)
    ensures SignedAt(t, r, next)
  {
    KeepsDigits(s, t, s[r].alts[2], next);
  }

  lemma KeepsExponent(s: seq<State>, t: seq<State>, r: nat, next: nat)
    requires Keeps(s, t) && OptionalExponentAt(s, r, next)
    ensures OptionalExponentAt(t, r, next)
  {
    var exponent := s[r].alts[1];
    KeepsSigned(s, t, s[s[exponent].alts[0]].next, next);
  }

  lemma KeepsFraction(s: seq<State>, t: seq<State>, r: nat, tail: nat)
    requires Keeps(s, t) && OptionalFractionAt(s, r, tail)
    ensures OptionalFractionAt(t, r, tail)
  {
    KeepsDigits(s, t, s[s[r].alts[1]].next, tail);
  }

  lemma KeepsRest(s: seq<State>, t: seq<State>, r: nat, tail: nat)
    requires Keeps(s, t) && RestAt(s, r, tail)
    ensures RestAt(t, r, tail)
  {
    KeepsDigits(s, t, s[r].alts[1], tail);
  }

  lemma KeepsMagnitude(s: seq<State>, t: seq<State>, r: nat, tail: nat)
    requires Keeps(s, t) && MagnitudeAt(s, r, tail)
    ensures MagnitudeAt(t, r, tail)
  {
    KeepsRest(s, t, s[s[r].alts[1]].next, tail);
  }

  lemma KeepsTail(s: seq<State>, t: seq<State>, tail: nat, next: nat, fractional: bool)
    requires Keeps(s, t) && TailAt(s, tail, next, fractional)
    ensures TailAt(t, tail, next, fractional)
  {
    if fractional {
      KeepsFraction(s, t, tail, s[tail].alts[0]);
      KeepsExponent(s, t, s[tail].alts[0], next);
    } else {
      KeepsExponent(s, t, tail, next);
    }
  }

  lemma KeepsNumber(s: seq<State>, t: seq<State>, r: nat, next: nat, fractional: bool)
    requires Keeps(s, t) && NumberAt(s, r, next, fractional)
    ensures NumberAt(t, r, next, fractional)
  {
    var magnitude := s[r].alts[0];
    var tail := s[s[magnitude].alts[0]].next;
    KeepsMagnitude(s, t, magnitude, tail);
    KeepsTail(s, t, tail, next, fractional);
  }

  lemma KeepsChoice(s: seq<State>, t: seq<State>, r: nat, literals: seq<Bytes>, close: nat)
    requires Keeps(s, t) && ChoiceAt(s, r, literals, close) && t[r] == s[r]
    ensures ChoiceAt(t, r, literals, close)
  {
    forall i | 0 <= i < |literals|
      ensures LiteralAt(t, t[r].alts[i], literals[i], close)
    {
      KeepsLiteral(s, t, s[r].alts[i], literals[i], close);
    }
  }

  lemma KeepsValue(s: seq<State>, t: seq<State>, r: nat, spec: ValueSpec, close: nat, next: nat)
    requires Keeps(s, t) && ValueAt(s, r, spec, close, next) && r < |s| && t[r] == s[r]
    ensures ValueAt(t, r, spec, close, next)
  {
    match spec {
      case Text =>
      case Literals(literals) => KeepsChoice(s, t, r, literals, close); KeepsLiteral(s, t, close, CLOSE, next);
      case Boolean =>
        KeepsChoice(s, t, r, [Ascii("true"), Ascii("false")], close);
        KeepsLiteral(s, t, close, CLOSE, next);
      case Null =>
        KeepsLiteral(s, t, r, Ascii("null"), close);
        KeepsLiteral(s, t, close, CLOSE, next);
      case Integer => KeepsNumber(s, t, r, close, false); KeepsLiteral(s, t, close, CLOSE, next);
      case Number => KeepsNumber(s, t, r, close, true); KeepsLiteral(s, t, close, CLOSE, next);
    }
  }

  /** Nothing above `floor` was a placeholder that got patched. */
  predicate KeepsAbove(floor: nat, s: seq<State>, t: seq<State>) {
    Keeps(s, t) && forall i | floor < i < |s| :: t[i] == s[i]
  }

  lemma KeepsShallow(s: seq<State>, t: seq<State>, r: nat)
    requires Keeps(s, t) && IsShallow(s, r)
    ensures IsShallow(t, r)
  {
    forall a | a in Targets(s[r])
      ensures IsFinal(t, a)
    {
      assert IsFinal(s, a);
    }
  }

  lemma KeepsParam(s: seq<State>, t: seq<State>, r: nat, index: nat, spec: ParamSpec, args: nat)
    requires KeepsAbove(args, s, t) && ParamAt(s, r, index, spec, args)
    ensures ParamAt(t, r, index, spec, args)
  {
    var value, close :| ParamBodyAt(s, s[r].next, spec, args, value, close);
    KeepsLiteral(s, t, s[r].next, ParameterOpen(spec), value);
    ValueInRange(s, value, spec.value, close, args);
    KeepsValue(s, t, value, spec.value, close, args);
    assert ParamBodyAt(t, t[r].next, spec, args, value, close);
  }

  lemma ValueInRange(s: seq<State>, r: nat, spec: ValueSpec, close: nat, next: nat)
    requires ValueAt(s, r, spec, close, next)
    ensures r < |s|
  {
    if spec.Null? {
      assert LiteralAt(s, r, Ascii("null"), close);
    }
  }

  lemma KeepsArgs(s: seq<State>, t: seq<State>, args: nat, tool: ToolSpec, callClose: nat)
    requires KeepsAbove(args, s, t) && ArgsAt(s, args, tool, callClose)
    ensures ArgsAt(t, args, tool, callClose)
  {
    forall p | 0 <= p < |tool.params|
      ensures ParamAt(t, t[args].alts[p], p, tool.params[p], args)
    {
      KeepsParam(s, t, s[args].alts[p], p, tool.params[p], args);
    }
    var out := s[args].alts[|tool.params|];
    KeepsLiteral(s, t, s[out].next, FunctionClose(), callClose);
  }

  lemma KeepsTool(s: seq<State>, t: seq<State>, r: nat, index: nat, tool: ToolSpec, callClose: nat, floor: nat)
    requires KeepsAbove(floor, s, t) && ToolAbove(s, r, index, tool, callClose, floor)
    ensures ToolAbove(t, r, index, tool, callClose, floor)
  {
    var args :| floor < args && ToolBodyAt(s, s[r].next, tool, callClose, args);
    KeepsLiteral(s, t, s[r].next, FunctionOpen(tool), args);
    KeepsArgs(s, t, args, tool, callClose);
    assert ToolBodyAt(t, t[r].next, tool, callClose, args);
  }

  /** A tool whose argument loop lies above `floor`. */
  ghost predicate ToolAbove(s: seq<State>, r: nat, index: nat, tool: ToolSpec, callClose: nat, floor: nat) {
    && r < |s| && s[r].EnterTool? && s[r].tool == ToolId(index)
    && exists args | floor < args :: ToolBodyAt(s, s[r].next, tool, callClose, args)
  }

  // ----- what each state satisfies -----

  /** A state a cursor can sit at or pass whatever it carries. */
  predicate Passable(states: seq<State>, i: nat) {
    i < |states| && !states[i].Mark? && !states[i].RequireAll?
  }

  /** Outside the marked loops, every state leads to one laid down before it. */
  predicate Descends(states: seq<State>, loops: set<nat>, i: nat)
    requires i < |states|
  {
    match states[i]
    case Literal(_, next) => next < i && Passable(states, next)
    case Until(_, next) => next < i && Passable(states, next)
    case Split(alts) => i in loops || exists a | a in alts :: a < i && Passable(states, a)
    case EnterTool(_, next) => next < i && IsFinal(states, next)
    case _ => true
  }

  predicate StateSound(states: seq<State>, required: seq<set<nat>>, owner: Owner, loops: set<nat>, i: nat)
    requires i < |states| == |owner|
  {
    && BytesLead(states, i)
    && (forall a | a in Targets(states[i]) :: EdgeRanked(states, i, a))
    && OwnerOk(states, required, owner, i)
    && Descends(states, loops, i)
  }

  predicate Sound(states: seq<State>, required: seq<set<nat>>, owner: Owner, loops: set<nat>) {
    && |owner| == |states|
    && (forall i | i in loops :: i < |states|)
    && forall i | 0 <= i < |states| :: StateSound(states, required, owner, loops, i)
  }

  /** A state that may be laid down next, in the region of `tool`. */
  predicate Fits(states: seq<State>, required: seq<set<nat>>, owner: Owner, region: int, state: State)
    requires |owner| == |states|
  {
    match state
    case Literal(_, next) => OwnerLeads(owner, region, next) && Passable(states, next)
    case Split(alts) =>
      && (forall a | a in alts :: OwnerLeads(owner, region, a))
      && exists a | a in alts :: Passable(states, a)
    case EnterTool(tool, next) => tool < |required| && IsFinal(states, next) && OwnerLeads(owner, tool, next)
    case Mark(_, next) => IsFinal(states, next) && OwnerLeads(owner, region, next)
    case RequireAll(next) => 0 <= region < |required| && IsFinal(states, next) && OwnerLeads(owner, region, next)
    case Until(_, _) => false
    case Accept => true
  }

  lemma OldStaysSound(states: seq<State>, required: seq<set<nat>>, owner: Owner, loops: set<nat>,
                      after: seq<State>, owner': Owner, loops': set<nat>, i: nat)
    requires Sound(states, required, owner, loops) && i < |states| <= |after| == |owner'|
    requires after[..|states|] == states && owner'[..|states|] == owner && loops <= loops'
    ensures StateSound(after, required, owner', loops', i)
  {
    assert StateSound(states, required, owner, loops, i);
    assert forall k | 0 <= k < |states| :: after[k] == after[..|states|][k];
    assert forall k | 0 <= k < |states| :: owner'[k] == owner'[..|states|][k];
  }

  /** Laying down a fitting state keeps everything sound. */
  lemma GrowSound(states: seq<State>, required: seq<set<nat>>, owner: Owner, loops: set<nat>, region: int,
                  state: State)
    requires Sound(states, required, owner, loops) && Fits(states, required, owner, region, state)
    ensures Sound(states + [state], required, owner + [region], loops)
  {
    var after, owner' := states + [state], owner + [region];
    forall i | 0 <= i < |after|
      ensures StateSound(after, required, owner', loops, i)
    {
      if i < |states| {
        OldStaysSound(states, required, owner, loops, after, owner', loops, i);
      } else {
        assert after[i] == state;
      }
    }
  }

  lemma RequiredGrows(states: seq<State>, required: seq<set<nat>>, owner: Owner, loops: set<nat>, more: set<nat>)
    requires Sound(states, required, owner, loops)
    ensures Sound(states, required + [more], owner, loops)
  {
    forall i | 0 <= i < |states|
      ensures StateSound(states, required + [more], owner, loops, i)
    {
      assert StateSound(states, required, owner, loops, i);
    }
  }

  /** A placeholder leads nowhere yet. */
  lemma GrowLoop(states: seq<State>, required: seq<set<nat>>, owner: Owner, loops: set<nat>, region: int)
    requires Sound(states, required, owner, loops)
    ensures Sound(states + [Split([])], required, owner + [region], loops + {|states|})
  {
    var after, owner' := states + [Split([])], owner + [region];
    forall i | 0 <= i < |after|
      ensures StateSound(after, required, owner', loops + {|states|}, i)
    {
      if i < |states| {
        OldStaysSound(states, required, owner, loops, after, owner', loops + {|states|}, i);
      } else {
        assert after[i] == Split([]);
      }
    }
  }

  /** An `Until` chain, laid down whole. */
  lemma GrowUntil(states: seq<State>, required: seq<set<nat>>, owner: Owner, loops: set<nat>, region: int,
                  after: seq<State>, owner': Owner, next: nat)
    requires Sound(states, required, owner, loops) && OwnerLeads(owner, region, next) && Passable(states, next)
    requires |after| == |owner'| == |states| + |CLOSE|
    requires after[..|states|] == states && owner'[..|states|] == owner
    requires UntilBlock(after, |states|, next)
    requires forall i | |states| <= i < |after| :: owner'[i] == region
    ensures Sound(after, required, owner', loops)
  {
    assert owner'[next] == owner'[..|states|][next];
    forall i | 0 <= i < |after|
      ensures StateSound(after, required, owner', loops, i)
    {
      if i < |states| {
        OldStaysSound(states, required, owner, loops, after, owner', loops, i);
      } else {
        var k := i - |states|;
        assert after[|states| + k] == Until(k, next);
      }
    }
  }

  /** Closing a loop disturbs nothing: no other state relied on the placeholder. */
  lemma PatchSound(states: seq<State>, required: seq<set<nat>>, owner: Owner, loops: set<nat>, at: nat,
                   alts: seq<nat>)
    requires Sound(states, required, owner, loops) && at < |states| && states[at] == Split([])
    requires forall a | a in alts :: EdgeRanked(states, at, a) && OwnerLeads(owner, owner[at], a)
    requires at !in alts && at in loops
    ensures Sound(states[at := Split(alts)], required, owner, loops)
    ensures (exists a | a in alts :: a < at && Passable(states, a)) ==>
              Sound(states[at := Split(alts)], required, owner, loops - {at})
  {
    var after := states[at := Split(alts)];
    PatchEdges(states, at, alts);
    forall i, kept: set<nat> | 0 <= i < |states| && loops - {at} <= kept <= loops
      ensures i != at ==> StateSound(after, required, owner, kept, i)
    {
      if i != at {
        assert StateSound(states, required, owner, loops, i);
        PatchDescends(states, loops, kept, at, alts, i);
        PatchBytes(states, at, alts, i);
      }
    }
  }

  lemma PatchEdges(states: seq<State>, at: nat, alts: seq<nat>)
    requires at < |states| && states[at] == Split([])
    ensures forall i: nat :: IsFinal(states, i) ==> IsFinal(states[at := Split(alts)], i)
    ensures forall i: nat :: IsShallow(states, i) ==> IsShallow(states[at := Split(alts)], i)
    ensures forall i: nat, a: nat :: EdgeRanked(states, i, a) ==> EdgeRanked(states[at := Split(alts)], i, a)
    ensures forall i: nat :: Passable(states, i) ==> Passable(states[at := Split(alts)], i)
  {
  }

  lemma PatchBytes(states: seq<State>, at: nat, alts: seq<nat>, i: nat)
    requires at < |states| && states[at] == Split([]) && i < |states| && BytesLead(states, i)
    ensures BytesLead(states[at := Split(alts)], i)
  {
  }

  lemma PatchDescends(states: seq<State>, loops: set<nat>, kept: set<nat>, at: nat, alts: seq<nat>, i: nat)
    requires at < |states| && states[at] == Split([]) && i < |states| && i != at
    requires loops - {at} <= kept && Descends(states, loops, i)
    ensures Descends(states[at := Split(alts)], kept, i)
  {
    PatchEdges(states, at, alts);
  }
}
