/**
 * The tool-call format itself, stated without reference to any machine: what a
 * value may spell, what makes a call valid, and how a turn of calls is written.
 */
module CallGrammar {
  import opened Tools
  import Kmp

  /** The small language values are described in. */
  datatype Re =
    | Word(text: Bytes)
    | OneOf(texts: seq<Bytes>)
    | Range(lo: Byte, hi: Byte)
    | DigitRun
    | Either(left: Re, right: Re)
    | Then(first: Re, rest: Re)
    | UpTo(close: Bytes)

  predicate IsDigit(b: Byte) {
    48 <= b <= 57
  }

  ghost predicate Spells(re: Re, s: Bytes) {
    match re
    case Word(text) => s == text
    case OneOf(texts) => s in texts
    case Range(lo, hi) => |s| == 1 && lo <= s[0] <= hi
    case DigitRun => s != [] && forall i | 0 <= i < |s| :: IsDigit(s[i])
    case Either(left, right) => Spells(left, s) || Spells(right, s)
    case Then(first, rest) => exists i | 0 <= i <= |s| :: Spells(first, s[..i]) && Spells(rest, s[i..])
    // Raw text through the first occurrence of the delimiter.
    case UpTo(close) => Kmp.FirstEnds(close, s)
  }

  function Optional(re: Re): Re {
    Either(Word([]), re)
  }

  function Sign(text: string): Re {
    Word(Ascii(text))
  }

  /** `exp` of section 6 of RFC 8259. */
  function Exponent(): Re {
    Then(Either(Sign("e"), Sign("E")), Then(Either(Sign("+"), Either(Sign("-"), Word([]))), DigitRun))
  }

  /** `frac` of section 6 of RFC 8259. */
  function Fraction(): Re {
    Then(Sign("."), DigitRun)
  }

  /** `int` of section 6 of RFC 8259. */
  function Magnitude(): Re {
    Either(Sign("0"), Then(Range(49, 57), Optional(DigitRun)))
  }

  /** `number` of section 6 of RFC 8259; an integer schema drops the fraction and nothing else. */
  function NumberRe(fractional: bool): Re {
    var tail := if fractional then Then(Optional(Fraction()), Optional(Exponent())) else Optional(Exponent());
    Then(Either(Word([]), Sign("-")), Then(Magnitude(), tail))
  }

  /** A value together with the delimiter that closes it. */
  function ValueRe(spec: ValueSpec): Re {
    match spec
    case Text => UpTo(CLOSE)
    case Literals(literals) => Then(OneOf(literals), Word(CLOSE))
    case Boolean => Then(Either(Sign("true"), Sign("false")), Word(CLOSE))
    case Null => Then(Sign("null"), Word(CLOSE))
    case Integer => Then(NumberRe(false), Word(CLOSE))
    case Number => Then(NumberRe(true), Word(CLOSE))
  }

  /** One parameter as written: which one, and its value with the closing delimiter. */
  datatype Argument = Argument(param: nat, text: Bytes)

  /** One call, and the whitespace after it. */
  datatype Call = Call(tool: nat, arguments: seq<Argument>, space: Bytes)

  /** A whole turn: whether the first `<tool_call>` line was written, then the calls. */
  datatype Turn = Turn(headed: bool, calls: seq<Call>)

  predicate ArgumentsInRange(tool: ToolSpec, arguments: seq<Argument>) {
    forall i | 0 <= i < |arguments| :: arguments[i].param < |tool.params|
  }

  function PrintArguments(tool: ToolSpec, arguments: seq<Argument>): Bytes
    requires ArgumentsInRange(tool, arguments)
  {
    if arguments == [] then [] else
      ParameterOpen(tool.params[arguments[0].param]) + arguments[0].text + PrintArguments(tool, arguments[1..])
  }

  predicate CallInRange(tools: seq<ToolSpec>, call: Call) {
    call.tool < |tools| && ArgumentsInRange(tools[call.tool], call.arguments)
  }

  function PrintCall(tools: seq<ToolSpec>, call: Call): Bytes
    requires CallInRange(tools, call)
  {
    FunctionOpen(tools[call.tool]) + PrintArguments(tools[call.tool], call.arguments) + FunctionClose()
    + CallClose() + call.space
  }

  predicate CallsInRange(tools: seq<ToolSpec>, calls: seq<Call>) {
    forall i | 0 <= i < |calls| :: CallInRange(tools, calls[i])
  }

  function PrintCalls(tools: seq<ToolSpec>, calls: seq<Call>): Bytes
    requires CallsInRange(tools, calls)
  {
    if calls == [] then []
    else if |calls| == 1 then PrintCall(tools, calls[0])
    else PrintCall(tools, calls[0]) + CallOpen() + PrintCalls(tools, calls[1..])
  }

  function PrintTurn(tools: seq<ToolSpec>, turn: Turn): Bytes
    requires CallsInRange(tools, turn.calls)
  {
    (if turn.headed then CallOpen() else []) + PrintCalls(tools, turn.calls)
  }

  /** Every value is spelled as its parameter's schema says. */
  ghost predicate ValuesSpelled(tool: ToolSpec, arguments: seq<Argument>)
    requires ArgumentsInRange(tool, arguments)
  {
    forall i | 0 <= i < |arguments| ::
      Spells(ValueRe(tool.params[arguments[i].param].value), arguments[i].text)
  }

  ghost predicate IsSpace(s: Bytes) {
    forall i | 0 <= i < |s| :: s[i] in Spaces()
  }

  /** No parameter is written twice. */
  predicate NoneTwice(arguments: seq<Argument>) {
    forall i, j | 0 <= i < j < |arguments| :: arguments[i].param != arguments[j].param
  }

  /** Every required parameter is written. */
  predicate RequiredPresent(tool: ToolSpec, arguments: seq<Argument>) {
    forall p | 0 <= p < |tool.params| && tool.params[p].required ::
      exists i | 0 <= i < |arguments| :: arguments[i].param == p
  }

  /** The guards as the cursor's word can keep them. */
  ghost predicate TrackedFrom(required: set<nat>, written: set<nat>, arguments: seq<Argument>)
    decreases |arguments|
  {
    if arguments == [] then required <= written
    else
      && ParamBit(arguments[0].param) !! written
      && TrackedFrom(required, written + ParamBit(arguments[0].param), arguments[1..])
  }

  /** How a call's argument order is judged: by the documented guards, or by the tracked ones. */
  datatype Guards = Documented | Tracked

  ghost predicate GuardsPass(guards: Guards, tools: seq<ToolSpec>, call: Call)
    requires call.tool < |tools|
  {
    match guards
    case Documented => NoneTwice(call.arguments) && RequiredPresent(tools[call.tool], call.arguments)
    case Tracked => TrackedFrom(RequiredBits(tools[ToolId(call.tool)].params), {}, call.arguments)
  }

  ghost predicate ValidCall(guards: Guards, tools: seq<ToolSpec>, call: Call) {
    && CallInRange(tools, call)
    && ValuesSpelled(tools[call.tool], call.arguments)
    && IsSpace(call.space)
    && GuardsPass(guards, tools, call)
  }

  ghost predicate ValidCalls(guards: Guards, tools: seq<ToolSpec>, parallel: bool, calls: seq<Call>) {
    && calls != []
    && (!parallel ==> |calls| == 1)
    && forall i | 0 <= i < |calls| :: ValidCall(guards, tools, calls[i])
  }

  /** `s` is a valid turn, written out. */
  ghost predicate WritesTurn(guards: Guards, tools: seq<ToolSpec>, parallel: bool, s: Bytes, turn: Turn) {
    ValidCalls(guards, tools, parallel, turn.calls) && s == PrintTurn(tools, turn)
  }

  ghost predicate InGrammar(guards: Guards, tools: seq<ToolSpec>, parallel: bool, s: Bytes) {
    exists turn :: WritesTurn(guards, tools, parallel, s, turn)
  }

  /** The tracked guards say, all at once, what they check one parameter at a time. */
  lemma {:induction false} TrackedMeans(required: set<nat>, written: set<nat>, arguments: seq<Argument>)
    ensures TrackedFrom(required, written, arguments) <==>
            && (forall i | 0 <= i < |arguments| :: ParamBit(arguments[i].param) !! written)
            && (forall i, j | 0 <= i < j < |arguments| ::
                  ParamBit(arguments[i].param) !! ParamBit(arguments[j].param))
            && (forall b | b in required ::
                  b in written || exists i | 0 <= i < |arguments| :: b in ParamBit(arguments[i].param))
    decreases |arguments|
  {
    if arguments == [] {
      return;
    }
    var rest, bit := arguments[1..], ParamBit(arguments[0].param);
    TrackedMeans(required, written + bit, rest);
    assert forall i | 0 <= i < |rest| :: rest[i] == arguments[i + 1];
    assert forall i | 1 <= i < |arguments| :: arguments[i] == rest[i - 1];
  }

  lemma BitsApart(arguments: seq<Argument>)
    requires NoneTwice(arguments) && forall i | 0 <= i < |arguments| :: arguments[i].param < 256
    ensures forall i, j | 0 <= i < j < |arguments| :: ParamBit(arguments[i].param) !! ParamBit(arguments[j].param)
  {
    forall i, j | 0 <= i < j < |arguments|
      ensures ParamBit(arguments[i].param) !! ParamBit(arguments[j].param)
    {
      assert arguments[i].param != arguments[j].param;
    }
  }

  lemma RequiredCovered(tool: ToolSpec, arguments: seq<Argument>)
    requires RequiredPresent(tool, arguments)
    ensures forall b | b in RequiredBits(tool.params) ::
              exists i | 0 <= i < |arguments| :: b in ParamBit(arguments[i].param)
  {
    forall b | b in RequiredBits(tool.params)
      ensures exists i | 0 <= i < |arguments| :: b in ParamBit(arguments[i].param)
    {
      var p :| 0 <= p < |tool.params| && tool.params[p].required && b in ParamBit(p);
      var i :| 0 <= i < |arguments| && arguments[i].param == p;
      assert b in ParamBit(arguments[i].param);
    }
  }

  /** While indices fit a byte, nothing the documented guards pass is refused. */
  lemma FittingPasses(tool: ToolSpec, arguments: seq<Argument>)
    requires |tool.params| <= 256 && ArgumentsInRange(tool, arguments)
    requires NoneTwice(arguments) && RequiredPresent(tool, arguments)
    ensures TrackedFrom(RequiredBits(tool.params), {}, arguments)
  {
    BitsApart(arguments);
    RequiredCovered(tool, arguments);
    TrackedMeans(RequiredBits(tool.params), {}, arguments);
  }

  lemma OwnBit(p: nat)
    requires p < TRACKED_PARAMS
    ensures ParamBit(p) == {p}
  {
  }

  lemma RefusesTwice(arguments: seq<Argument>)
    requires forall i | 0 <= i < |arguments| :: arguments[i].param < TRACKED_PARAMS
    requires forall i, j | 0 <= i < j < |arguments| :: ParamBit(arguments[i].param) !! ParamBit(arguments[j].param)
    ensures NoneTwice(arguments)
  {
    forall i, j | 0 <= i < j < |arguments|
      ensures arguments[i].param != arguments[j].param
    {
      OwnBit(arguments[i].param);
      assert ParamBit(arguments[i].param) !! ParamBit(arguments[j].param);
    }
  }

  lemma RefusesMissing(tool: ToolSpec, arguments: seq<Argument>, p: nat)
    requires |tool.params| <= TRACKED_PARAMS && ArgumentsInRange(tool, arguments)
    requires p < |tool.params| && tool.params[p].required
    requires forall b | b in RequiredBits(tool.params) ::
               exists i | 0 <= i < |arguments| :: b in ParamBit(arguments[i].param)
    ensures exists i | 0 <= i < |arguments| :: arguments[i].param == p
  {
    OwnBit(p);
    assert p in RequiredBits(tool.params);
    var i :| 0 <= i < |arguments| && p in ParamBit(arguments[i].param);
    OwnBit(arguments[i].param);
  }

  /** While every parameter has a bit, nothing the documented guards refuse is passed. */
  lemma TrackedRefuses(tool: ToolSpec, arguments: seq<Argument>)
    requires |tool.params| <= TRACKED_PARAMS && ArgumentsInRange(tool, arguments)
    requires TrackedFrom(RequiredBits(tool.params), {}, arguments)
    ensures NoneTwice(arguments) && RequiredPresent(tool, arguments)
  {
    TrackedMeans(RequiredBits(tool.params), {}, arguments);
    RefusesTwice(arguments);
    forall p | 0 <= p < |tool.params| && tool.params[p].required
      ensures exists i | 0 <= i < |arguments| :: arguments[i].param == p
    {
      RefusesMissing(tool, arguments, p);
    }
  }

  /** With at most 64 parameters the tracked guards are the documented ones. */
  lemma TrackedIsDocumented(tool: ToolSpec, arguments: seq<Argument>)
    requires |tool.params| <= TRACKED_PARAMS && ArgumentsInRange(tool, arguments)
    ensures TrackedFrom(RequiredBits(tool.params), {}, arguments)
            <==> NoneTwice(arguments) && RequiredPresent(tool, arguments)
  {
    if TrackedFrom(RequiredBits(tool.params), {}, arguments) {
      TrackedRefuses(tool, arguments);
    }
    if NoneTwice(arguments) && RequiredPresent(tool, arguments) {
      FittingPasses(tool, arguments);
    }
  }

  /** Every tracked parameter once, then the first untracked one twice. */
  function UntrackedTwice(): (arguments: seq<Argument>)
    ensures |arguments| == TRACKED_PARAMS + 2
    ensures forall i | 0 <= i < TRACKED_PARAMS :: arguments[i] == Argument(i, [])
    ensures forall i | TRACKED_PARAMS <= i < |arguments| :: arguments[i] == Argument(TRACKED_PARAMS, [])
  {
    seq(TRACKED_PARAMS + 2, (i: nat) => Argument(if i < TRACKED_PARAMS then i else TRACKED_PARAMS, []))
  }

  lemma UntrackedTwicePasses(tool: ToolSpec)
    ensures TrackedFrom(RequiredBits(tool.params), {}, UntrackedTwice()) && !NoneTwice(UntrackedTwice())
  {
    var twice, required := UntrackedTwice(), RequiredBits(tool.params);
    TwiceCovers(required);
    TwiceApart();
    TrackedMeans(required, {}, twice);
    assert twice[TRACKED_PARAMS].param == twice[TRACKED_PARAMS + 1].param;
  }

  lemma TwiceCovers(required: set<nat>)
    requires forall b | b in required :: b < TRACKED_PARAMS
    ensures forall b | b in required ::
              exists i | 0 <= i < |UntrackedTwice()| :: b in ParamBit(UntrackedTwice()[i].param)
  {
    forall b | b in required
      ensures exists i | 0 <= i < |UntrackedTwice()| :: b in ParamBit(UntrackedTwice()[i].param)
    {
      assert b in ParamBit(UntrackedTwice()[b].param);
    }
  }

  lemma TwiceApart()
    ensures forall i, j | 0 <= i < j < |UntrackedTwice()| ::
              ParamBit(UntrackedTwice()[i].param) !! ParamBit(UntrackedTwice()[j].param)
  {
  }

  /**
   * Exactly when the word is wide enough: the tracked guards are the documented
   * ones for every argument list if and only if the tool has at most 64
   * parameters. Past that, writing the 65th twice goes unnoticed.
   */
  lemma GuardsExactIff(tool: ToolSpec)
    ensures (forall arguments | ArgumentsInRange(tool, arguments) ::
               TrackedFrom(RequiredBits(tool.params), {}, arguments)
               <==> NoneTwice(arguments) && RequiredPresent(tool, arguments))
            <==> |tool.params| <= 64
  {
    if |tool.params| <= TRACKED_PARAMS {
      forall arguments | ArgumentsInRange(tool, arguments)
        ensures TrackedFrom(RequiredBits(tool.params), {}, arguments)
                <==> NoneTwice(arguments) && RequiredPresent(tool, arguments)
      {
        TrackedIsDocumented(tool, arguments);
      }
    } else {
      UntrackedTwicePasses(tool);
      assert ArgumentsInRange(tool, UntrackedTwice());
    }
  }

  /** Every parameter of a tool, written once and in order. */
  function EveryOnce(tool: ToolSpec): (arguments: seq<Argument>)
    ensures |arguments| == |tool.params|
    ensures forall p | 0 <= p < |tool.params| :: arguments[p] == Argument(p, [])
  {
    seq(|tool.params|, (p: nat) => Argument(p, []))
  }

  /** Past 256 the index wraps: parameter 0, once written, bars parameter 256. */
  lemma WrappedIndexBarsAnotherParameter(tool: ToolSpec)
    requires |tool.params| > 256
    ensures var all := EveryOnce(tool);
            && ArgumentsInRange(tool, all) && NoneTwice(all) && RequiredPresent(tool, all)
            && !TrackedFrom(RequiredBits(tool.params), {}, all)
  {
    var all := EveryOnce(tool);
    TrackedMeans(RequiredBits(tool.params), {}, all);
    assert 0 in ParamBit(all[0].param) && 0 in ParamBit(all[256].param);
    forall p | 0 <= p < |tool.params| && tool.params[p].required
      ensures exists i | 0 <= i < |all| :: all[i].param == p
    {
      assert all[p].param == p;
    }
  }

  /**
   * Exactly when the byte is wide enough: every argument list the documented
   * guards pass is passed if and only if the tool has at most 256 parameters.
   */
  lemma NoneBarredIff(tool: ToolSpec)
    ensures (forall arguments | ArgumentsInRange(tool, arguments) ::
               NoneTwice(arguments) && RequiredPresent(tool, arguments) ==>
                 TrackedFrom(RequiredBits(tool.params), {}, arguments))
            <==> |tool.params| <= 256
  {
    if |tool.params| <= 256 {
      forall arguments | ArgumentsInRange(tool, arguments) && NoneTwice(arguments) && RequiredPresent(tool, arguments)
        ensures TrackedFrom(RequiredBits(tool.params), {}, arguments)
      {
        FittingPasses(tool, arguments);
      }
    } else {
      WrappedIndexBarsAnotherParameter(tool);
    }
  }

  /** For a surface within the documented limits, both readings of the grammar agree. */
  lemma DocumentedIsTracked(tools: seq<ToolSpec>, parallel: bool, s: Bytes)
    requires |tools| <= 0x1_0000 && forall t | 0 <= t < |tools| :: |tools[t].params| <= 64
    ensures InGrammar(Documented, tools, parallel, s) <==> InGrammar(Tracked, tools, parallel, s)
  {
    forall call | CallInRange(tools, call)
      ensures GuardsPass(Documented, tools, call) <==> GuardsPass(Tracked, tools, call)
    {
      TrackedIsDocumented(tools[call.tool], call.arguments);
    }
    if turn :| WritesTurn(Documented, tools, parallel, s, turn) {
      assert WritesTurn(Tracked, tools, parallel, s, turn);
    }
    if turn :| WritesTurn(Tracked, tools, parallel, s, turn) {
      assert WritesTurn(Documented, tools, parallel, s, turn);
    }
  }
}
