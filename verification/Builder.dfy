/** The compiler from tool specs to states: laid down back to front, loops patched once their bodies exist. */
module Builders {
  import opened Tools
  import opened Machines
  import opened Languages
  import opened Values
  import opened Calls
  import opened Layouts

  class Builder {
    var states: seq<State>
    var required: seq<set<nat>>
    /** Which tool each state belongs to, the region being laid down, and the loops so far. */
    ghost var owner: Owner
    ghost var region: int
    ghost var loops: set<nat>

    constructor ()
      ensures Valid() && states == [] && required == [] && owner == [] && region == -1 && loops == {}
    {
      states, required, owner, region, loops := [], [], [], -1, {};
    }

    ghost predicate Valid()
      reads this
    {
      Sound(states, required, owner, loops)
    }

    /** A state to continue at: one this region may enter, whatever the cursor carries. */
    ghost predicate Enterable(next: nat)
      reads this
    {
      next < |states| && OwnerLeads(owner, region, next) && Passable(states, next)
    }

    /** Only new states since `before`. */
    ghost predicate GrewFrom(before: seq<State>, owned: Owner)
      reads this
    {
      before <= states && owned <= owner
    }

    method Add(state: State) returns (r: nat)
      requires Valid() && Fits(states, required, owner, region, state)
      modifies this`states, this`owner
      ensures Valid() && GrewFrom(old(states), old(owner))
      ensures r == old(|states|) && states == old(states) + [state] && owner == old(owner) + [region]
    {
      GrowSound(states, required, owner, loops, region, state);
      states, owner := states + [state], owner + [region];
      r := |states| - 1;
    }

    /** A `Split` to be patched once its successors exist, or one that stays a dead end. */
    method AddPlaceholder() returns (r: nat)
      requires Valid()
      modifies this`states, this`owner, this`loops
      ensures Valid() && GrewFrom(old(states), old(owner))
      ensures r == old(|states|) && states == old(states) + [Split([])] && loops == old(loops) + {r}
      ensures owner == old(owner) + [region]
    {
      GrowLoop(states, required, owner, loops, region);
      loops := loops + {|states|};
      states, owner := states + [Split([])], owner + [region];
      r := |states| - 1;
    }

    /** One state a byte, from the last to the first, each leading to the one before. */
    method AddLiteral(bytes: Bytes, next: nat) returns (r: nat)
      requires Valid() && Enterable(next)
      modifies this`states, this`owner
      ensures Valid() && GrewFrom(old(states), old(owner)) && Enterable(r)
      ensures LiteralAt(states, r, bytes, next)
      ensures if bytes == [] then r == next else r >= old(|states|) && states[r].Literal?
    {
      r := next;
      for i := |bytes| downto 0
        invariant Valid() && GrewFrom(old(states), old(owner)) && Enterable(r)
        invariant LiteralAt(states, r, bytes[i..], next)
        invariant if i == |bytes| then r == next else r >= old(|states|) && states[r].Literal?
      {
        ghost var before, tail := states, r;
        r := Add(Literal(bytes[i], r));
        KeepsLiteral(before, states, tail, bytes[i + 1..], next);
        assert bytes[i..][1..] == bytes[i + 1..];
      }
    }

    method AddSplit(alts: seq<nat>) returns (r: nat)
      requires Valid() && alts != [] && forall a | a in alts :: Enterable(a)
      modifies this`states, this`owner
      ensures Valid() && GrewFrom(old(states), old(owner)) && Enterable(r)
      ensures r == old(|states|) && states == old(states) + [Split(alts)]
    {
      assert alts[0] in alts;
      r := Add(Split(alts));
    }

    /** The `Until` chain of a raw-text value: one state per matched prefix, consecutive. */
    method AddUntil(next: nat) returns (first: nat)
      requires Valid() && Enterable(next)
      modifies this`states, this`owner
      ensures Valid() && GrewFrom(old(states), old(owner)) && Enterable(first)
      ensures first == old(|states|) && UntilBlock(states, first, next)
    {
      first := |states|;
      for k := 0 to |CLOSE|
        invariant |states| == |owner| == first + k
        invariant states[..first] == old(states) && owner[..first] == old(owner)
        invariant forall j | 0 <= j < k :: states[first + j] == Until(j, next)
        invariant forall i | first <= i < first + k :: owner[i] == region
      {
        states, owner := states + [Until(k, next)], owner + [region];
      }
      GrowUntil(old(states), required, old(owner), loops, region, states, owner, next);
      assert states[first + 0] == Until(0, next);
    }

    /** Bytes `from`, `from + 1`, ... all leading to `next`. */
    method AddBytes(start: Byte, count: nat, next: nat) returns (alts: seq<nat>)
      requires Valid() && Enterable(next) && start as int + count <= 256
      modifies this`states, this`owner
      ensures Valid() && GrewFrom(old(states), old(owner)) && |alts| == count
      ensures forall i | 0 <= i < count ::
                Enterable(alts[i]) && states[alts[i]] == Literal((start as int + i) as Byte, next)
    {
      alts := [];
      for i := 0 to count
        invariant Valid() && GrewFrom(old(states), old(owner)) && |alts| == i && Enterable(next)
        invariant forall j | 0 <= j < i ::
                    Enterable(alts[j]) && states[alts[j]] == Literal((start as int + j) as Byte, next)
      {
        var a := Add(Literal((start as int + i) as Byte, next));
        alts := alts + [a];
      }
    }

    /** One digit. */
    method AddDigit(next: nat) returns (r: nat)
      requires Valid() && Enterable(next)
      modifies this`states, this`owner
      ensures Valid() && GrewFrom(old(states), old(owner)) && Enterable(r) && r >= old(|states|)
      ensures DigitAt(states, r, next) && IsShallow(states, r)
    {
      var alts := AddBytes(48, 10, next);
      r := AddSplit(alts);
    }

    /** Close a loop at a placeholder. It stays marked unless it now also leads further down. */
    method Patch(at: nat, alts: seq<nat>)
      requires Valid() && at < |states| && states[at] == Split([]) && at in loops && at !in alts
      requires forall a | a in alts :: EdgeRanked(states, at, a) && OwnerLeads(owner, owner[at], a)
      modifies this`states, this`loops
      ensures Valid() && states == old(states)[at := Split(alts)]
      ensures loops == if exists a | a in alts :: a < at && Passable(old(states), a) then old(loops) - {at}
                       else old(loops)
    {
      PatchSound(states, required, owner, loops, at, alts);
      if exists a | a in alts :: a < at && Passable(states, a) {
        loops := loops - {at};
      }
      states := states[at := Split(alts)];
    }

    /** The loop of `digits`: patched last, because it leads back through itself. */
    method AddMore(next: nat) returns (more: nat)
      requires Valid() && Enterable(next)
      modifies this`states, this`owner, this`loops
      ensures Valid() && GrewFrom(old(states), old(owner)) && Enterable(more) && loops == old(loops)
      ensures MoreAt(states, more, next)
    {
      more := AddPlaceholder();
      var again := AddDigit(more);
      assert next in [again, next] && states[next] == old(states)[next];
      ghost var before := states;
      Patch(more, [again, next]);
      KeepsDigit(before, states, again, more);
    }

    /** One or more digits. */
    method AddDigits(next: nat) returns (r: nat)
      requires Valid() && Enterable(next)
      modifies this`states, this`owner, this`loops
      ensures Valid() && GrewFrom(old(states), old(owner)) && Enterable(r) && loops == old(loops)
      ensures DigitsAt(states, r, next)
    {
      var more := AddMore(next);
      ghost var before := states;
      r := AddDigit(more);
      KeepsDigit(before, states, before[more].alts[0], more);
    }
  
    /** An optional sign, then digits. */
    method AddSigned(next: nat) returns (signed: nat)
      requires Valid() && Enterable(next)
      modifies this`states, this`owner, this`loops
      ensures Valid() && GrewFrom(old(states), old(owner)) && Enterable(signed) && loops == old(loops)
      ensures SignedAt(states, signed, next)
    {
      var digits := AddDigits(next);
      ghost var before := states;
      var plus := Add(Literal(43, digits));
      var minus := Add(Literal(45, digits));
      signed := AddSplit([plus, minus, digits]);
      KeepsDigits(before, states, digits, next);
    }

    /** `next`, or an exponent first. */
    method AddExponent(next: nat) returns (tail: nat)
      requires Valid() && Enterable(next)
      modifies this`states, this`owner, this`loops
      ensures Valid() && GrewFrom(old(states), old(owner)) && Enterable(tail) && loops == old(loops)
      ensures OptionalExponentAt(states, tail, next)
    {
      var signed := AddSigned(next);
      ghost var before := states;
      var lower := Add(Literal(101, signed));
      var upper := Add(Literal(69, signed));
      var exponent := AddSplit([lower, upper]);
      tail := AddSplit([next, exponent]);
      KeepsSigned(before, states, signed, next);
    }

    /** `tail`, or a fraction first. */
    method AddFraction(tail: nat) returns (r: nat)
      requires Valid() && Enterable(tail)
      modifies this`states, this`owner, this`loops
      ensures Valid() && GrewFrom(old(states), old(owner)) && Enterable(r) && loops == old(loops)
      ensures OptionalFractionAt(states, r, tail)
    {
      var digits := AddDigits(tail);
      ghost var before := states;
      var point := Add(Literal(46, digits));
      r := AddSplit([tail, point]);
      KeepsDigits(before, states, digits, tail);
    }

    /** A zero alone, or a leading digit and any more of them. */
    method AddMagnitude(tail: nat) returns (r: nat)
      requires Valid() && Enterable(tail)
      modifies this`states, this`owner, this`loops
      ensures Valid() && GrewFrom(old(states), old(owner)) && Enterable(r) && loops == old(loops)
      ensures MagnitudeAt(states, r, tail)
    {
      var zero := Add(Literal(48, tail));
      var more := AddDigits(tail);
      var rest := AddSplit([tail, more]);
      assert RestAt(states, rest, tail) by {
        KeepsDigits(states[..rest], states, more, tail);
      }
      ghost var before := states;
      var leading := AddBytes(49, 9, rest);
      r := AddSplit([zero] + leading);
      KeepsRest(before, states, rest, tail);
    }

    /** What may follow the magnitude: a fraction if one is allowed, and an exponent. */
    method AddTail(next: nat, fractional: bool) returns (tail: nat)
      requires Valid() && Enterable(next)
      modifies this`states, this`owner, this`loops
      ensures Valid() && GrewFrom(old(states), old(owner)) && Enterable(tail) && loops == old(loops)
      ensures TailAt(states, tail, next, fractional)
    {
      tail := AddExponent(next);
      if fractional {
        ghost var before, inner := states, tail;
        tail := AddFraction(tail);
        KeepsExponent(before, states, inner, next);
      }
    }

    /** A JSON number, built exponent first, then fraction, then magnitude. */
    method AddNumber(next: nat, fractional: bool) returns (r: nat)
      requires Valid() && Enterable(next)
      modifies this`states, this`owner, this`loops
      ensures Valid() && GrewFrom(old(states), old(owner)) && Enterable(r) && loops == old(loops)
      ensures NumberAt(states, r, next, fractional) && r >= old(|states|)
    {
      var tail := AddTail(next, fractional);
      ghost var first := states;
      var magnitude := AddMagnitude(tail);
      ghost var second := states;
      var minus := Add(Literal(45, magnitude));
      r := AddSplit([magnitude, minus]);
      NumberLaid(first, second, states, r, magnitude, minus, tail, next, fractional);
    }

    /** One chain per literal, all leading to `close`; no literal at all leads nowhere. */
    method AddChoice(literals: seq<Bytes>, close: nat) returns (r: nat)
      requires Valid() && Enterable(close)
      modifies this`states, this`owner, this`loops
      ensures Valid() && GrewFrom(old(states), old(owner)) && Enterable(r) && r >= old(|states|)
      ensures ChoiceAt(states, r, literals, close)
      ensures literals != [] ==> loops == old(loops)
      ensures old(loops) <= loops
    {
      var alts: seq<nat> := [];
      for i := 0 to |literals|
        invariant Valid() && GrewFrom(old(states), old(owner)) && |alts| == i && Enterable(close)
        invariant loops == old(loops)
        invariant forall j | 0 <= j < i :: Enterable(alts[j]) && LiteralAt(states, alts[j], literals[j], close)
      {
        ghost var before := states;
        var a := AddLiteral(literals[i], close);
        forall j | 0 <= j < i
          ensures LiteralAt(states, alts[j], literals[j], close)
        {
          KeepsLiteral(before, states, alts[j], literals[j], close);
        }
        alts := alts + [a];
      }
      ghost var before := states;
      if alts == [] {
        r := AddPlaceholder();
      } else {
        r := AddSplit(alts);
      }
      forall j | 0 <= j < |literals|
        ensures LiteralAt(states, alts[j], literals[j], close)
      {
        KeepsLiteral(before, states, alts[j], literals[j], close);
      }
    }

    /** A value that is not raw text, leading to its closing delimiter. */
    method AddBody(spec: ValueSpec, close: nat) returns (r: nat)
      requires Valid() && Enterable(close) && !spec.Text?
      modifies this`states, this`owner, this`loops
      ensures Valid() && GrewFrom(old(states), old(owner)) && Enterable(r) && r >= old(|states|)
      ensures BodyAt(states, r, spec, close)
      ensures !NoLiterals(spec) ==> loops == old(loops)
      ensures old(loops) <= loops
    {
      match spec {
        case Literals(literals) => r := AddChoice(literals, close);
        case Boolean => r := AddChoice([Ascii("true"), Ascii("false")], close);
        case Null => r := AddLiteral(Ascii("null"), close);
        case Integer => r := AddNumber(close, false);
        case Number => r := AddNumber(close, true);
      }
    }

    /** Whatever a value of this kind may be, and the delimiter, on the way back to the argument loop. */
    method AddValue(spec: ValueSpec, args: nat) returns (r: nat, ghost close: nat)
      requires Valid() && Enterable(args)
      modifies this`states, this`owner, this`loops
      ensures Valid() && GrewFrom(old(states), old(owner)) && Enterable(r) && r >= old(|states|)
      ensures ValueAt(states, r, spec, close, args)
      ensures !NoLiterals(spec) ==> loops == old(loops)
      ensures old(loops) <= loops
    {
      close := 0;
      if spec.Text? {
        r := AddUntil(args);
      } else {
        var shut := AddLiteral(CLOSE, args);
        close := shut;
        ghost var before := states;
        r := AddBody(spec, shut);
        KeepsLiteral(before, states, shut, CLOSE, args);
      }
    }

    /** A parameter's opening tag and value, looping back to `args`. */
    method AddParamBody(spec: ParamSpec, args: nat) returns (open: nat, ghost value: nat, ghost close: nat)
      requires Valid() && Enterable(args)
      modifies this`states, this`owner, this`loops
      ensures Valid() && GrewFrom(old(states), old(owner)) && Enterable(open) && states[open].Literal?
      ensures ParamBodyAt(states, open, spec, args, value, close)
      ensures !NoLiterals(spec.value) ==> loops == old(loops)
      ensures old(loops) <= loops
    {
      var at, shut := AddValue(spec.value, args);
      value, close := at, shut;
      ghost var before := states;
      open := AddLiteral(ParameterOpen(spec), at);
      KeepsValue(before, states, at, spec.value, close, args);
    }

    /** One parameter of the argument loop: mark it, open it, take its value, loop back. */
    method AddParam(index: nat, spec: ParamSpec, args: nat) returns (mark: nat)
      requires Valid() && Enterable(args)
      modifies this`states, this`owner, this`loops
      ensures Valid() && GrewFrom(old(states), old(owner)) && old(|states|) <= mark
      ensures ParamLaid(states, owner, region, mark, index, spec, args)
      ensures !NoLiterals(spec.value) ==> loops == old(loops)
      ensures old(loops) <= loops
    {
      var open, value, close := AddParamBody(spec, args);
      ghost var before := states;
      mark := Add(Mark(index % 256, open));
      ParamMarked(before, states, owner, mark, open, index, spec, args, value, close);
    }

    /** Every parameter of one tool, in order. */
    method AddParams(params: seq<ParamSpec>, args: nat) returns (alts: seq<nat>)
      requires Valid() && Enterable(args)
      modifies this`states, this`owner, this`loops
      ensures Valid() && GrewFrom(old(states), old(owner)) && |alts| == |params|
      ensures AllLaid(states, owner, region, old(|states|), alts, params, args)
      ensures (forall p | 0 <= p < |params| :: !NoLiterals(params[p].value)) ==> loops == old(loops)
      ensures old(loops) <= loops
    {
      alts := [];
      for i := 0 to |params|
        invariant Valid() && GrewFrom(old(states), old(owner)) && |alts| == i && Enterable(args)
        invariant AllLaid(states, owner, region, old(|states|), alts, params, args)
        invariant (forall p | 0 <= p < |params| :: !NoLiterals(params[p].value)) ==> loops == old(loops)
        invariant old(loops) <= loops
      {
        ghost var before, owned := states, owner;
        var mark := AddParam(i, params[i], args);
        AllLaidGrows(before, states, owned, owner, region, old(|states|), alts, params, args, mark);
        alts := alts + [mark];
      }
    }

    /** The way out of an argument loop. */
    method AddOut(callClose: nat) returns (out: nat)
      requires Valid() && Enterable(callClose) && 0 <= region < |required|
      modifies this`states, this`owner
      ensures Valid() && GrewFrom(old(states), old(owner)) && old(|states|) <= out
      ensures OutLaid(states, owner, region, out, callClose)
    {
      var closing := AddLiteral(FunctionClose(), callClose);
      ghost var before := states;
      out := Add(RequireAll(closing));
      KeepsLiteral(before, states, closing, FunctionClose(), callClose);
    }

    /** What an argument loop leads to: its parameters, and the way out last. */
    method AddLoopBody(tool: ToolSpec, args: nat, callClose: nat) returns (alts: seq<nat>)
      requires Valid() && Enterable(callClose) && Enterable(args) && 0 <= region < |required|
      requires |states| == args + 1 && states[args] == Split([]) && owner[args] == region
      modifies this`states, this`owner, this`loops
      ensures Valid() && GrewFrom(old(states), old(owner))
      ensures forall a | a in alts :: args < a && EdgeRanked(states, args, a) && OwnerLeads(owner, region, a)
      ensures ArgsAt(states[args := Split(alts)], args, tool, callClose)
      ensures AnyLiterals(tool) ==> loops == old(loops)
      ensures old(loops) <= loops
    {
      alts := AddParams(tool.params, args);
      ghost var before, owned := states, owner;
      var out := AddOut(callClose);
      KeepsAllLaid(before, states, owned, owner, region, args + 1, alts, tool.params, args);
      ArgsPatch(states, owner, region, args, alts, out, tool, callClose);
      alts := alts + [out];
    }

    /** The argument loop of one tool, patched once its parameters and its way out exist. */
    method AddArgs(tool: ToolSpec, callClose: nat) returns (args: nat)
      requires Valid() && Enterable(callClose) && 0 <= region < |required|
      modifies this`states, this`owner, this`loops
      ensures Valid() && GrewFrom(old(states), old(owner)) && Enterable(args)
      ensures args == old(|states|) && owner[args] == region
      ensures ArgsAt(states, args, tool, callClose)
      ensures AnyLiterals(tool) ==> loops == old(loops) + {args}
      ensures old(loops) <= loops
    {
      args := AddPlaceholder();
      var alts := AddLoopBody(tool, args, callClose);
      Patch(args, alts);
    }

    /** The requirements of one tool, one parameter at a time. */
    method CollectRequired(params: seq<ParamSpec>) returns (bits: set<nat>)
      ensures bits == RequiredBits(params)
    {
      bits := {};
      for p := 0 to |params|
        invariant bits == set q, b | 0 <= q < p && params[q].required && b in ParamBit(q) :: b
      {
        if params[p].required {
          bits := bits + ParamBit(p);
        }
      }
    }

    /** A tool's opening tag and its argument loop. */
    method AddNamed(tool: ToolSpec, callClose: nat) returns (named: nat, ghost args: nat)
      requires Valid() && Enterable(callClose) && 0 <= region < |required|
      modifies this`states, this`owner, this`loops
      ensures Valid() && GrewFrom(old(states), old(owner)) && Enterable(named) && states[named].Literal?
      ensures old(|states|) <= args < |owner| && owner[args] == region
      ensures ToolBodyAt(states, named, tool, callClose, args)
      ensures AnyLiterals(tool) ==> loops == old(loops) + {args}
      ensures old(loops) <= loops
    {
      var at := AddArgs(tool, callClose);
      args := at;
      ghost var before := states;
      named := AddLiteral(FunctionOpen(tool), at);
      KeepsArgs(before, states, args, tool, callClose);
    }

    /** One tool: its requirements, its body, and the commitment in front. */
    method AddTool(index: nat, tool: ToolSpec, callClose: nat) returns (opener: nat, ghost args: nat)
      requires Valid() && region == -1 && Enterable(callClose) && |required| == index && ENTRY < |states|
      modifies this
      ensures Valid() && region == -1 && GrewFrom(old(states), old(owner))
      ensures required == old(required) + [RequiredBits(tool.params)]
      ensures OpenerLaid(states, owner, opener, index, tool, callClose)
      ensures LoopLaid(states, owner, args, index, tool, callClose)
      ensures AnyLiterals(tool) ==> loops == old(loops) + {args}
      ensures old(loops) <= loops
    {
      var bits := CollectRequired(tool.params);
      RequiredGrows(states, required, owner, loops, bits);
      required := required + [bits];
      region := ToolId(index);
      var named;
      named, args := AddNamed(tool, callClose);
      ghost var before := states;
      region := -1;
      opener := Add(EnterTool(ToolId(index), named));
      ToolOpened(before, states, owner, opener, named, index, tool, callClose, args);
    }

    /** Every tool's opener, in order. */
    method AddTools(tools: seq<ToolSpec>, callClose: nat) returns (openers: seq<nat>)
      requires Valid() && region == -1 && Enterable(callClose) && required == [] && ENTRY < |states|
      modifies this
      ensures Valid() && region == -1 && GrewFrom(old(states), old(owner)) && |openers| == |tools|
      ensures RequiredLaid(required, tools, |tools|)
      ensures OpenersLaid(states, owner, openers, tools, callClose)
      ensures AllHaveLiterals(tools) ==> LoopsLaid(states, owner, loops, old(loops), tools, callClose)
      ensures old(loops) <= loops
    {
      openers := [];
      for i := 0 to |tools|
        invariant Valid() && region == -1 && GrewFrom(old(states), old(owner)) && |openers| == i
        invariant Enterable(callClose) && RequiredLaid(required, tools, i)
        invariant OpenersLaid(states, owner, openers, tools, callClose)
        invariant AllHaveLiterals(tools) ==> LoopsLaid(states, owner, loops, old(loops), tools, callClose)
        invariant old(loops) <= loops
      {
        ghost var before, owned, marked, bits := states, owner, loops, required;
        var opener, args := AddTool(i, tools[i], callClose);
        RequiredGrown(bits, tools, i);
        OpenersGrow(before, states, owned, owner, openers, tools, callClose, opener);
        if AllHaveLiterals(tools) {
          LoopsGrow(before, states, owned, owner, marked, old(loops), tools, callClose, i, args);
        }
        openers := openers + [opener];
      }
    }

    /** The bytes of `Spaces()`, each leading back to `after`. */
    method AddSpaces() returns (alts: seq<nat>)
      requires Valid() && AFTER < ENTRY < |states| && region == -1 && Enterable(AFTER)
      modifies this`states, this`owner
      ensures Valid() && GrewFrom(old(states), old(owner)) && |alts| == 4 && SpacesLaid(states, owner, alts)
    {
      alts := [];
      for i := 0 to 4
        invariant Valid() && GrewFrom(old(states), old(owner)) && |alts| == i && Enterable(AFTER)
        invariant SpacesLaid(states, owner, alts)
      {
        ghost var before, owned := states, owner;
        var a := Add(Literal(Spaces()[i], AFTER));
        SpacesGrow(before, states, owned, owner, alts, a);
        alts := alts + [a];
      }
    }

    /** The way into another call, when more than one may be made. */
    method AddAgain(parallel: bool) returns (again: seq<nat>)
      requires Valid() && ENTRY < |states| && region == -1 && Enterable(ENTRY)
      modifies this`states, this`owner
      ensures Valid() && GrewFrom(old(states), old(owner)) && AgainLaid(states, owner, again, parallel)
    {
      again := [];
      if parallel {
        var opening := AddLiteral(CallOpen(), ENTRY);
        again := [opening];
      }
    }

    /** What may follow a closed call, patched into `after` last. */
    method AddAfter(parallel: bool)
      requires Valid() && region == -1 && ENTRY < |states| && states[AFTER] == Split([]) && AFTER in loops
      requires Enterable(AFTER) && Enterable(ENTRY) && owner[AFTER] == -1
      requires states[ACCEPT] == Accept && Enterable(ACCEPT)
      modifies this`states, this`owner, this`loops
      ensures Valid() && KeepsAbove(AFTER, old(states), states) && old(owner) <= owner
      ensures AfterAt(states, parallel) && loops == old(loops) - {AFTER}
    {
      var spaces := AddSpaces();
      ghost var before, owned := states, owner;
      var again := AddAgain(parallel);
      KeepsSpaces(before, states, owned, owner, spaces);
      ghost var laid := states;
      var alts := [ACCEPT] + spaces + again;
      AfterPatch(old(states), laid, owner, spaces, again, parallel);
      AfterAlts(spaces, again);
      forall a | a in alts
        ensures a != AFTER && EdgeRanked(laid, AFTER, a) && OwnerLeads(owner, -1, a)
      {
        AfterEdges(laid, owner, spaces, again, parallel, a);
      }
      Patch(AFTER, alts);
    }

    /** The two ways into the first call. */
    method AddRoot() returns (root: nat)
      requires Valid() && region == -1 && ENTRY < |states| && Enterable(ENTRY)
      modifies this`states, this`owner
      ensures Valid() && GrewFrom(old(states), old(owner)) && RootAt(states, root) && root < |owner|
      ensures owner[root] == -1
    {
      var opening := AddLiteral(CallOpen(), ENTRY);
      ghost var before := states;
      root := AddSplit([opening, ENTRY]);
      KeepsLiteral(before, states, opening, CallOpen(), ENTRY);
    }

    /** The accepting state, the two loops every call shares, and the closing tag. */
    method AddFrame() returns (callClose: nat)
      requires Valid() && states == [] && region == -1 && loops == {}
      modifies this`states, this`owner, this`loops
      ensures Valid() && Framed() && loops == {AFTER, ENTRY} && Enterable(callClose)
      ensures LiteralAt(states, callClose, CallClose(), AFTER)
    {
      var accept := Add(Accept);
      var after := AddPlaceholder();
      var entry := AddPlaceholder();
      callClose := AddLiteral(CallClose(), after);
    }

    /** Both shared loops still open. */
    ghost predicate Framed()
      reads this
    {
      && ENTRY < |states| && states[ACCEPT] == Accept && states[AFTER] == Split([]) && states[ENTRY] == Split([])
      && Enterable(ACCEPT) && Enterable(AFTER) && Enterable(ENTRY)
      && owner[AFTER] == owner[ENTRY] == -1
    }

    /** The tools, patched into `entry`. */
    method AddCalls(tools: seq<ToolSpec>, callClose: nat)
      requires Valid() && Framed() && loops == {AFTER, ENTRY} && required == [] && region == -1
      requires Enterable(callClose) && LiteralAt(states, callClose, CallClose(), AFTER)
      modifies this
      ensures Valid() && region == -1 && KeepsAbove(ENTRY, old(states), states) && old(owner) <= owner
      ensures states[AFTER] == Split([]) && AFTER in loops && Passable(states, ENTRY)
      ensures RequiredLaid(required, tools, |tools|)
      ensures CallsLaid(states, owner, loops, tools, callClose)
    {
      var openers := AddTools(tools, callClose);
      ghost var laid := states;
      OpenersEdges(states, owner, openers, tools, callClose);
      Patch(ENTRY, openers);
      KeepsLiteral(old(states), states, callClose, CallClose(), AFTER);
      EntryPatched(laid, states, owner, openers, loops, tools, callClose);
    }

    method Build(tools: seq<ToolSpec>, parallel: bool) returns (root: nat, ghost callClose: nat)
      requires Valid() && states == [] && required == [] && region == -1 && loops == {}
      modifies this
      ensures Valid() && RequiredLaid(required, tools, |tools|)
      ensures CallsLaid(states, owner, loops, tools, callClose)
      ensures AfterAt(states, parallel) && RootAt(states, root) && AFTER !in loops
      ensures root < |owner| && owner[root] == -1
    {
      var shut := AddFrame();
      AddCalls(tools, shut);
      callClose := shut;
      ghost var before, owned, marked := states, owner, loops;
      AddAfter(parallel);
      KeepsCalls(before, states, owned, owner, marked, loops, tools, callClose);
      before, owned := states, owner;
      root := AddRoot();
      KeepsAll(before, states, owned, owner, loops, tools, parallel, callClose);
    }
  }

  /** The part of the shape that is in place once the tools are. */
  ghost predicate CallsLaid(states: seq<State>, owner: Owner, loops: set<nat>, tools: seq<ToolSpec>,
                            callClose: nat)
  {
    && EntryLaid(states, owner, tools, callClose)
    && LiteralAt(states, callClose, CallClose(), AFTER)
    && (AllHaveLiterals(tools) ==> LoopsLaid(states, owner, loops, {AFTER, ENTRY}, tools, callClose))
  }

  lemma KeepsCalls(before: seq<State>, states: seq<State>, owned: Owner, owner: Owner, marked: set<nat>,
                   loops: set<nat>, tools: seq<ToolSpec>, callClose: nat)
    requires KeepsAbove(AFTER, before, states) && owned <= owner && loops <= marked
    requires CallsLaid(before, owned, marked, tools, callClose)
    ensures CallsLaid(states, owner, loops, tools, callClose)
  {
    KeepsEntry(before, states, owned, owner, tools, callClose);
    KeepsLiteral(before, states, callClose, CallClose(), AFTER);
    if AllHaveLiterals(tools) {
      forall l | l in loops && l !in {AFTER, ENTRY}
        ensures IsLoop(states, owner, l, tools, callClose)
      {
        KeepsLoop(before, states, owned, owner, l, tools, callClose);
      }
    }
  }

  lemma KeepsAll(before: seq<State>, states: seq<State>, owned: Owner, owner: Owner, loops: set<nat>,
                 tools: seq<ToolSpec>, parallel: bool, callClose: nat)
    requires before <= states && owned <= owner
    requires CallsLaid(before, owned, loops, tools, callClose) && AfterAt(before, parallel)
    ensures CallsLaid(states, owner, loops, tools, callClose) && AfterAt(states, parallel)
  {
    KeepsCalls(before, states, owned, owner, loops, loops, tools, callClose);
    KeepsAfter(before, states, parallel);
  }

  ghost predicate EntryLaid(states: seq<State>, owner: Owner, tools: seq<ToolSpec>, callClose: nat) {
    && ENTRY < |states| && states[ENTRY].Split? && |states[ENTRY].alts| == |tools|
    && OpenersLaid(states, owner, states[ENTRY].alts, tools, callClose)
  }

  lemma OpenersEdges(states: seq<State>, owner: Owner, openers: seq<nat>, tools: seq<ToolSpec>, callClose: nat)
    requires OpenersLaid(states, owner, openers, tools, callClose)
    ensures forall a | a in openers ::
              ENTRY < a && EdgeRanked(states, ENTRY, a) && a < |owner| && owner[a] == -1
  {
    forall a | a in openers
      ensures ENTRY < a && EdgeRanked(states, ENTRY, a) && a < |owner| && owner[a] == -1
    {
      var t :| 0 <= t < |openers| && openers[t] == a;
      assert OpenerLaid(states, owner, openers[t], t, tools[t], callClose);
    }
  }

  lemma KeepsOpeners(before: seq<State>, states: seq<State>, owned: Owner, owner: Owner, openers: seq<nat>,
                     tools: seq<ToolSpec>, callClose: nat)
    requires KeepsAbove(ENTRY, before, states) && owned <= owner
    requires OpenersLaid(before, owned, openers, tools, callClose)
    ensures OpenersLaid(states, owner, openers, tools, callClose)
  {
    forall t | 0 <= t < |openers|
      ensures OpenerLaid(states, owner, openers[t], t, tools[t], callClose)
    {
      KeepsOpener(before, states, owned, owner, openers[t], t, tools[t], callClose);
    }
  }

  lemma EntryPatched(before: seq<State>, states: seq<State>, owner: Owner, openers: seq<nat>, loops: set<nat>,
                     tools: seq<ToolSpec>, callClose: nat)
    requires ENTRY < |before| && before[ENTRY] == Split([]) && states == before[ENTRY := Split(openers)]
    requires |openers| == |tools| && OpenersLaid(before, owner, openers, tools, callClose)
    ensures EntryLaid(states, owner, tools, callClose)
    ensures LoopsLaid(before, owner, loops, {AFTER, ENTRY}, tools, callClose) ==>
              LoopsLaid(states, owner, loops, {AFTER, ENTRY}, tools, callClose)
  {
    KeepsOpeners(before, states, owner, owner, openers, tools, callClose);
    forall l | IsLoop(before, owner, l, tools, callClose)
      ensures IsLoop(states, owner, l, tools, callClose)
    {
      KeepsLoop(before, states, owner, owner, l, tools, callClose);
    }
  }

  lemma KeepsEntry(before: seq<State>, states: seq<State>, owned: Owner, owner: Owner, tools: seq<ToolSpec>,
                   callClose: nat)
    requires KeepsAbove(AFTER, before, states) && owned <= owner && EntryLaid(before, owned, tools, callClose)
    ensures EntryLaid(states, owner, tools, callClose)
  {
    KeepsOpeners(before, states, owned, owner, before[ENTRY].alts, tools, callClose);
  }

  lemma KeepsAfter(before: seq<State>, states: seq<State>, parallel: bool)
    requires before <= states && AfterAt(before, parallel)
    ensures AfterAt(states, parallel)
  {
    if parallel {
      KeepsLiteral(before, states, before[AFTER].alts[5], CallOpen(), ENTRY);
    }
  }

  /** The first spaces after a closed call, each leading back to `after`. */
  ghost predicate SpacesLaid(states: seq<State>, owner: Owner, alts: seq<nat>) {
    |alts| <= 4 && forall i | 0 <= i < |alts| :: SpaceLaid(states, owner, alts[i], Spaces()[i])
  }

  ghost predicate SpaceLaid(states: seq<State>, owner: Owner, r: nat, byte: Byte) {
    ENTRY < r && ByteAt(states, r, byte, AFTER) && r < |owner| && owner[r] == -1
  }

  lemma KeepsSpaces(before: seq<State>, states: seq<State>, owned: Owner, owner: Owner, alts: seq<nat>)
    requires before <= states && owned <= owner && SpacesLaid(before, owned, alts)
    ensures SpacesLaid(states, owner, alts)
  {
    assert forall i | 0 <= i < |alts| :: SpaceLaid(before, owned, alts[i], Spaces()[i]);
  }

  lemma SpacesGrow(before: seq<State>, states: seq<State>, owned: Owner, owner: Owner, alts: seq<nat>, a: nat)
    requires before <= states && owned <= owner && SpacesLaid(before, owned, alts)
    requires |alts| < 4 && SpaceLaid(states, owner, a, Spaces()[|alts|])
    ensures SpacesLaid(states, owner, alts + [a])
  {
    KeepsSpaces(before, states, owned, owner, alts);
  }

  ghost predicate AgainLaid(states: seq<State>, owner: Owner, again: seq<nat>, parallel: bool) {
    if !parallel then again == []
    else
      && |again| == 1 && LiteralAt(states, again[0], CallOpen(), ENTRY)
      && ENTRY < again[0] && IsFinal(states, again[0]) && again[0] < |owner| && owner[again[0]] == -1
  }

  /** The alternatives of `after`, place by place. */
  lemma AfterAlts(spaces: seq<nat>, again: seq<nat>)
    requires |spaces| == 4
    ensures var alts := [ACCEPT] + spaces + again;
            && |alts| == 5 + |again| && alts[0] == ACCEPT && ACCEPT in alts
            && (forall i | 0 <= i < 4 :: alts[1 + i] == spaces[i])
            && (again != [] ==> alts[5] == again[0])
            && (forall a | a in alts :: a == ACCEPT || a in spaces || a in again)
  {
  }

  /** What patching `after` needs. */
  lemma AfterEdges(states: seq<State>, owner: Owner, spaces: seq<nat>, again: seq<nat>, parallel: bool, a: nat)
    requires ENTRY < |states| == |owner| && states[ACCEPT] == Accept && OwnerLeads(owner, -1, ACCEPT)
    requires SpacesLaid(states, owner, spaces) && AgainLaid(states, owner, again, parallel)
    requires a == ACCEPT || a in spaces || a in again
    ensures a != AFTER && EdgeRanked(states, AFTER, a) && OwnerLeads(owner, -1, a)
  {
    if a in spaces {
      var i :| 0 <= i < |spaces| && spaces[i] == a;
      assert SpaceLaid(states, owner, spaces[i], Spaces()[i]);
    }
  }

  /** What `after` is once patched. */
  lemma AfterPatch(before: seq<State>, states: seq<State>, owner: Owner, spaces: seq<nat>, again: seq<nat>,
                   parallel: bool)
    requires ENTRY < |before| && before <= states
    requires states[AFTER] == Split([]) && states[ACCEPT] == Accept
    requires |spaces| == 4 && SpacesLaid(states, owner, spaces) && AgainLaid(states, owner, again, parallel)
    ensures var after := states[AFTER := Split([ACCEPT] + spaces + again)];
            KeepsAbove(AFTER, before, after) && AfterAt(after, parallel)
  {
    var after := states[AFTER := Split([ACCEPT] + spaces + again)];
    AfterAlts(spaces, again);
    forall i | 0 <= i < 4
      ensures ByteAt(after, after[AFTER].alts[1 + i], Spaces()[i], AFTER)
    {
      assert SpaceLaid(states, owner, spaces[i], Spaces()[i]);
    }
    if parallel {
      KeepsLiteral(states, after, again[0], CallOpen(), ENTRY);
    }
  }

  predicate AllHaveLiterals(tools: seq<ToolSpec>) {
    forall t | 0 <= t < |tools| :: AnyLiterals(tools[t])
  }

  /** Every literal set of the tool has something in it. */
  predicate AnyLiterals(tool: ToolSpec) {
    forall p | 0 <= p < |tool.params| :: !NoLiterals(tool.params[p].value)
  }

  ghost predicate RequiredLaid(required: seq<set<nat>>, tools: seq<ToolSpec>, n: nat) {
    |required| == n <= |tools| && forall t | 0 <= t < n :: required[t] == RequiredBits(tools[t].params)
  }

  lemma RequiredGrown(required: seq<set<nat>>, tools: seq<ToolSpec>, n: nat)
    requires RequiredLaid(required, tools, n) && n < |tools|
    ensures RequiredLaid(required + [RequiredBits(tools[n].params)], tools, n + 1)
  {
  }

  ghost predicate OpenerLaid(states: seq<State>, owner: Owner, r: nat, index: nat, tool: ToolSpec, callClose: nat) {
    && ToolAbove(states, r, index, tool, callClose, ENTRY) && IsShallow(states, r)
    && r < |owner| && owner[r] == -1 && ENTRY < r
  }

  ghost predicate OpenersLaid(states: seq<State>, owner: Owner, openers: seq<nat>, tools: seq<ToolSpec>,
                              callClose: nat)
  {
    && |openers| <= |tools|
    && forall t | 0 <= t < |openers| :: OpenerLaid(states, owner, openers[t], t, tools[t], callClose)
  }

  /** An argument loop, and the tool a cursor in it has committed to. */
  ghost predicate LoopLaid(states: seq<State>, owner: Owner, args: nat, index: nat, tool: ToolSpec, callClose: nat) {
    ENTRY < args < |owner| && owner[args] == ToolId(index) && ArgsAt(states, args, tool, callClose)
  }

  ghost predicate IsLoop(states: seq<State>, owner: Owner, l: nat, tools: seq<ToolSpec>, callClose: nat) {
    exists t | 0 <= t < |tools| :: LoopLaid(states, owner, l, t, tools[t], callClose)
  }

  /** The marked loops beyond `others` are exactly argument loops. */
  ghost predicate LoopsLaid(states: seq<State>, owner: Owner, loops: set<nat>, others: set<nat>,
                            tools: seq<ToolSpec>, callClose: nat)
  {
    forall l | l in loops :: l in others || IsLoop(states, owner, l, tools, callClose)
  }

  lemma ToolOpened(before: seq<State>, states: seq<State>, owner: Owner, opener: nat, named: nat, index: nat,
                   tool: ToolSpec, callClose: nat, args: nat)
    requires before <= states && ENTRY < args && ToolBodyAt(before, named, tool, callClose, args)
    requires opener < |states| && states[opener] == EnterTool(ToolId(index), named)
    requires named < |before| && before[named].Literal?
    requires args < |owner| == |states| && owner[args] == ToolId(index) && ENTRY < opener && owner[opener] == -1
    ensures OpenerLaid(states, owner, opener, index, tool, callClose)
    ensures LoopLaid(states, owner, args, index, tool, callClose)
  {
    KeepsArgs(before, states, args, tool, callClose);
    KeepsLiteral(before, states, named, FunctionOpen(tool), args);
    assert ToolBodyAt(states, states[opener].next, tool, callClose, args);
    assert IsFinal(states, named);
  }

  lemma KeepsOpener(before: seq<State>, states: seq<State>, owned: Owner, owner: Owner, r: nat, index: nat,
                    tool: ToolSpec, callClose: nat)
    requires KeepsAbove(ENTRY, before, states) && owned <= owner
    requires OpenerLaid(before, owned, r, index, tool, callClose)
    ensures OpenerLaid(states, owner, r, index, tool, callClose)
  {
    KeepsTool(before, states, r, index, tool, callClose, ENTRY);
    KeepsShallow(before, states, r);
  }

  lemma OpenersGrow(before: seq<State>, states: seq<State>, owned: Owner, owner: Owner, openers: seq<nat>,
                    tools: seq<ToolSpec>, callClose: nat, opener: nat)
    requires before <= states && owned <= owner && OpenersLaid(before, owned, openers, tools, callClose)
    requires |openers| < |tools| && OpenerLaid(states, owner, opener, |openers|, tools[|openers|], callClose)
    ensures OpenersLaid(states, owner, openers + [opener], tools, callClose)
  {
    forall t | 0 <= t < |openers|
      ensures OpenerLaid(states, owner, openers[t], t, tools[t], callClose)
    {
      KeepsOpener(before, states, owned, owner, openers[t], t, tools[t], callClose);
    }
  }

  lemma KeepsLoop(before: seq<State>, states: seq<State>, owned: Owner, owner: Owner, l: nat, tools: seq<ToolSpec>,
                  callClose: nat)
    requires KeepsAbove(ENTRY, before, states) && owned <= owner && IsLoop(before, owned, l, tools, callClose)
    ensures IsLoop(states, owner, l, tools, callClose)
  {
    var t :| 0 <= t < |tools| && LoopLaid(before, owned, l, t, tools[t], callClose);
    KeepsArgs(before, states, l, tools[t], callClose);
    assert LoopLaid(states, owner, l, t, tools[t], callClose);
  }

  lemma LoopsGrow(before: seq<State>, states: seq<State>, owned: Owner, owner: Owner, loops: set<nat>,
                  others: set<nat>, tools: seq<ToolSpec>, callClose: nat, i: nat, args: nat)
    requires before <= states && owned <= owner && i < |tools|
    requires LoopsLaid(before, owned, loops, others, tools, callClose)
    requires LoopLaid(states, owner, args, i, tools[i], callClose)
    ensures LoopsLaid(states, owner, loops + {args}, others, tools, callClose)
  {
    forall l | l in loops + {args}
      ensures l in others || IsLoop(states, owner, l, tools, callClose)
    {
      if l in loops && l !in others {
        KeepsLoop(before, states, owned, owner, l, tools, callClose);
      }
    }
  }

  /** A parameter's states, marked and in this region. */
  ghost predicate ParamLaid(states: seq<State>, owner: Owner, region: int, r: nat, index: nat, spec: ParamSpec,
                            args: nat)
  {
    && ParamAt(states, r, index, spec, args) && IsShallow(states, r)
    && r < |owner| && owner[r] == region
  }

  ghost predicate OutLaid(states: seq<State>, owner: Owner, region: int, out: nat, callClose: nat) {
    && out < |states| && states[out].RequireAll? && IsShallow(states, out)
    && LiteralAt(states, states[out].next, FunctionClose(), callClose)
    && out < |owner| && owner[out] == region
  }

  lemma ParamMarked(before: seq<State>, states: seq<State>, owner: Owner, mark: nat, open: nat, index: nat,
                    spec: ParamSpec, args: nat, value: nat, close: nat)
    requires before <= states && mark < |states| == |owner| && states[mark] == Mark(index % 256, open)
    requires ParamBodyAt(before, open, spec, args, value, close) && open < |before| && before[open].Literal?
    ensures ParamLaid(states, owner, owner[mark], mark, index, spec, args)
  {
    KeepsLiteral(before, states, open, ParameterOpen(spec), value);
    ValueInRange(before, value, spec.value, close, args);
    KeepsValue(before, states, value, spec.value, close, args);
    assert ParamBodyAt(states, states[mark].next, spec, args, value, close);
    assert IsFinal(states, open);
  }

  lemma KeepsLaid(before: seq<State>, states: seq<State>, owned: Owner, owner: Owner, region: int, r: nat,
                  index: nat, spec: ParamSpec, args: nat)
    requires before <= states && owned <= owner
    requires ParamLaid(before, owned, region, r, index, spec, args)
    ensures ParamLaid(states, owner, region, r, index, spec, args)
  {
    KeepsParam(before, states, r, index, spec, args);
    KeepsShallow(before, states, r);
  }

  /** The first parameters of a tool, all laid down from `floor` up. */
  ghost predicate AllLaid(states: seq<State>, owner: Owner, region: int, floor: nat, alts: seq<nat>,
                          params: seq<ParamSpec>, args: nat)
  {
    && |alts| <= |params|
    && forall p | 0 <= p < |alts| ::
      floor <= alts[p] && ParamLaid(states, owner, region, alts[p], p, params[p], args)
  }

  lemma KeepsAllLaid(before: seq<State>, states: seq<State>, owned: Owner, owner: Owner, region: int, floor: nat,
                     alts: seq<nat>, params: seq<ParamSpec>, args: nat)
    requires before <= states && owned <= owner
    requires AllLaid(before, owned, region, floor, alts, params, args)
    ensures AllLaid(states, owner, region, floor, alts, params, args)
  {
    forall p | 0 <= p < |alts|
      ensures ParamLaid(states, owner, region, alts[p], p, params[p], args)
    {
      KeepsLaid(before, states, owned, owner, region, alts[p], p, params[p], args);
    }
  }

  lemma AllLaidGrows(before: seq<State>, states: seq<State>, owned: Owner, owner: Owner, region: int, floor: nat,
                     alts: seq<nat>, params: seq<ParamSpec>, args: nat, mark: nat)
    requires before <= states && owned <= owner && AllLaid(before, owned, region, floor, alts, params, args)
    requires |alts| < |params| && floor <= mark
    requires ParamLaid(states, owner, region, mark, |alts|, params[|alts|], args)
    ensures AllLaid(states, owner, region, floor, alts + [mark], params, args)
  {
    KeepsAllLaid(before, states, owned, owner, region, floor, alts, params, args);
  }

  /** What patching the loop needs, and what it then is. */
  lemma ArgsPatch(states: seq<State>, owner: Owner, region: int, args: nat, alts: seq<nat>, out: nat,
                  tool: ToolSpec, callClose: nat)
    requires args < |states| == |owner| && states[args] == Split([]) && owner[args] == region
    requires |alts| == |tool.params| && args < out && OutLaid(states, owner, region, out, callClose)
    requires AllLaid(states, owner, region, args + 1, alts, tool.params, args)
    ensures forall a | a in alts + [out] ::
              args < a && EdgeRanked(states, args, a) && OwnerLeads(owner, owner[args], a)
    ensures ArgsAt(states[args := Split(alts + [out])], args, tool, callClose)
  {
    var all := alts + [out];
    var after := states[args := Split(all)];
    forall a | a in all
      ensures args < a && EdgeRanked(states, args, a) && OwnerLeads(owner, owner[args], a)
    {
      var i :| 0 <= i < |all| && all[i] == a;
      if i < |alts| {
        assert ParamLaid(states, owner, region, alts[i], i, tool.params[i], args);
      }
    }
    forall p | 0 <= p < |alts|
      ensures ParamAt(after, all[p], p, tool.params[p], args)
    {
      assert ParamLaid(states, owner, region, alts[p], p, tool.params[p], args);
      KeepsParam(states, after, alts[p], p, tool.params[p], args);
    }
    KeepsLiteral(states, after, states[out].next, FunctionClose(), callClose);
  }

  /** The parts of a number, each kept since it was laid down. */
  lemma NumberLaid(first: seq<State>, second: seq<State>, states: seq<State>, r: nat, magnitude: nat, minus: nat,
                   tail: nat, next: nat, fractional: bool)
    requires first <= states && second <= states && r < |states| && states[r] == Split([magnitude, minus])
    requires TailAt(first, tail, next, fractional) && MagnitudeAt(second, magnitude, tail)
    requires ByteAt(states, minus, 45, magnitude)
    ensures NumberAt(states, r, next, fractional)
  {
    KeepsTail(first, states, tail, next, fractional);
    KeepsMagnitude(second, states, magnitude, tail);
  }

  /** A set of literals with nothing in it: no value can be written. */
  predicate NoLiterals(spec: ValueSpec) {
    spec.Literals? && spec.literals == []
  }
}
