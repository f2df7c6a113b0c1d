/**
 * The tool-call format as literal text, character by character, beside the
 * grammar that the machine is built from: what a value is, what a call is, what
 * a turn is. The two are one language.
 */
module CallTexts {
  import opened Tools
  import opened CallGrammar

  // ----- numbers -----

  ghost predicate IsDigits(v: Bytes) {
    v != [] && forall i | 0 <= i < |v| :: 48 <= v[i] <= 57
  }

  /** Zero, or digits that do not begin with one. */
  ghost predicate IsWhole(v: Bytes) {
    IsDigits(v) && (v[0] == 48 ==> |v| == 1)
  }

  /** Nothing, or a point and digits. */
  ghost predicate IsFraction(v: Bytes) {
    v == [] || (v[0] == 46 && IsDigits(v[1..]))
  }

  /** Nothing, or an `e` of either case, a sign of either kind or none, and digits. */
  ghost predicate IsExponent(v: Bytes) {
    v == [] || ((v[0] == 101 || v[0] == 69)
                && (IsDigits(v[1..]) || (|v| > 1 && (v[1] == 43 || v[1] == 45) && IsDigits(v[2..]))))
  }

  /** A number as RFC 8259 writes one, cut where its parts meet. */
  ghost predicate IsNumber(v: Bytes, fractional: bool) {
    exists i, j, k | 0 <= i <= j <= k <= |v| :: NumberCut(v, fractional, i, j, k)
  }

  ghost predicate NumberCut(v: Bytes, fractional: bool, i: nat, j: nat, k: nat)
    requires i <= j <= k <= |v|
  {
    && (i == 0 || (i == 1 && v[0] == 45)) && IsWhole(v[i..j])
    && (if fractional then IsFraction(v[j..k]) else j == k) && IsExponent(v[k..])
  }

  lemma Cut(first: Re, rest: Re, v: Bytes) returns (i: nat)
    requires Spells(Then(first, rest), v)
    ensures i <= |v| && Spells(first, v[..i]) && Spells(rest, v[i..])
  {
    i :| 0 <= i <= |v| && Spells(first, v[..i]) && Spells(rest, v[i..]);
  }

  lemma Joined(first: Re, rest: Re, v: Bytes, i: nat)
    requires i <= |v| && Spells(first, v[..i]) && Spells(rest, v[i..])
    ensures Spells(Then(first, rest), v)
  {
  }

  lemma OptionalDigits(v: Bytes)
    ensures Spells(Optional(DigitRun), v) <==> v == [] || IsDigits(v)
  {
  }

  lemma SignIs(b: Byte, text: string, v: Bytes)
    requires |text| == 1 && Ascii(text)[0] == b
    ensures Spells(Sign(text), v) <==> v == [b]
  {
    assert Ascii(text) == [b];
  }

  /** A sign and then something. */
  lemma SignThen(b: Byte, text: string, rest: Re, v: Bytes)
    requires |text| == 1 && Ascii(text)[0] == b
    ensures Spells(Then(Sign(text), rest), v) <==> v != [] && v[0] == b && Spells(rest, v[1..])
  {
    if Spells(Then(Sign(text), rest), v) {
      var i :| 0 <= i <= |v| && Spells(Sign(text), v[..i]) && Spells(rest, v[i..]);
      SignIs(b, text, v[..i]);
      assert i == 1 && v[..i][0] == b;
    }
    if v != [] && v[0] == b && Spells(rest, v[1..]) {
      SignIs(b, text, v[..1]);
      assert Spells(Sign(text), v[..1]);
    }
  }

  lemma WholeIff(v: Bytes)
    ensures Spells(Magnitude(), v) <==> IsWhole(v)
  {
    SignIs(48, "0", v);
    if Spells(Then(Range(49, 57), Optional(DigitRun)), v) {
      var i :| 0 <= i <= |v| && Spells(Range(49, 57), v[..i]) && Spells(Optional(DigitRun), v[i..]);
      assert i == 1 && v[..i][0] == v[0];
      OptionalDigits(v[i..]);
      forall k | 0 < k < |v|
        ensures IsDigit(v[k])
      {
        assert v[k] == v[i..][k - 1];
      }
    }
    if IsWhole(v) && v != [48] {
      OptionalDigits(v[1..]);
      Joined(Range(49, 57), Optional(DigitRun), v, 1);
    }
  }

  lemma FractionIff(v: Bytes)
    ensures Spells(Optional(Fraction()), v) <==> IsFraction(v)
  {
    SignThen(46, ".", DigitRun, v);
  }

  function Signed(): Re {
    Then(Either(Sign("+"), Either(Sign("-"), Word([]))), DigitRun)
  }

  lemma SignedIff(v: Bytes)
    ensures Spells(Signed(), v) <==> IsDigits(v) || (v != [] && (v[0] == 43 || v[0] == 45) && IsDigits(v[1..]))
  {
    SignThen(43, "+", DigitRun, v);
    SignThen(45, "-", DigitRun, v);
    EitherThen(Sign("+"), Either(Sign("-"), Word([])), DigitRun, v);
    EitherThen(Sign("-"), Word([]), DigitRun, v);
    EmptyThen(DigitRun, v);
  }

  lemma EmptyThen(rest: Re, v: Bytes)
    ensures Spells(Then(Word([]), rest), v) <==> Spells(rest, v)
  {
    if Spells(Then(Word([]), rest), v) {
      var i :| 0 <= i <= |v| && Spells(Word([]), v[..i]) && Spells(rest, v[i..]);
      assert v[i..] == v;
    }
    if Spells(rest, v) {
      assert v[..0] == [] && v[0..] == v && Spells(Word([]), v[..0]);
    }
  }

  lemma ExponentIff(v: Bytes)
    ensures Spells(Optional(Exponent()), v) <==> IsExponent(v)
  {
    SignThen(101, "e", Signed(), v);
    SignThen(69, "E", Signed(), v);
    if v != [] {
      SignedIff(v[1..]);
      assert |v| > 1 ==> v[1..][1..] == v[2..];
    }
    EitherThen(Sign("e"), Sign("E"), Signed(), v);
  }

  lemma EitherThen(a: Re, b: Re, rest: Re, v: Bytes)
    ensures Spells(Then(Either(a, b), rest), v) <==> Spells(Then(a, rest), v) || Spells(Then(b, rest), v)
  {
    if Spells(Then(Either(a, b), rest), v) {
      var i :| 0 <= i <= |v| && Spells(Either(a, b), v[..i]) && Spells(rest, v[i..]);
      assert Spells(a, v[..i]) || Spells(b, v[..i]);
    }
    if Spells(Then(a, rest), v) {
      var i :| 0 <= i <= |v| && Spells(a, v[..i]) && Spells(rest, v[i..]);
      assert Spells(Either(a, b), v[..i]);
    }
    if Spells(Then(b, rest), v) {
      var i :| 0 <= i <= |v| && Spells(b, v[..i]) && Spells(rest, v[i..]);
      assert Spells(Either(a, b), v[..i]);
    }
  }

  /** The grammar's numbers are those. */
  lemma NumberIff(v: Bytes, fractional: bool)
    ensures Spells(NumberRe(fractional), v) <==> IsNumber(v, fractional)
  {
    if Spells(NumberRe(fractional), v) {
      NumberParses(v, fractional);
    }
    if IsNumber(v, fractional) {
      NumberPrints(v, fractional);
    }
  }

  function TailRe(fractional: bool): Re {
    if fractional then Then(Optional(Fraction()), Optional(Exponent())) else Optional(Exponent())
  }

  lemma TailIff(v: Bytes, fractional: bool)
    ensures Spells(TailRe(fractional), v) <==>
            exists k | 0 <= k <= |v| ::
              (if fractional then IsFraction(v[..k]) else k == 0) && IsExponent(v[k..])
  {
    if !fractional {
      ExponentIff(v);
      assert v[0..] == v;
    } else {
      forall k | 0 <= k <= |v|
        ensures Spells(Optional(Fraction()), v[..k]) <==> IsFraction(v[..k])
        ensures Spells(Optional(Exponent()), v[k..]) <==> IsExponent(v[k..])
      {
        FractionIff(v[..k]);
        ExponentIff(v[k..]);
      }
    }
  }

  lemma NumberParses(v: Bytes, fractional: bool)
    requires Spells(NumberRe(fractional), v)
    ensures IsNumber(v, fractional)
  {
    var i := Cut(Minus(), Then(Magnitude(), TailRe(fractional)), v);
    var j := Cut(Magnitude(), TailRe(fractional), v[i..]);
    var k := TailParses(v[i..][j..], fractional);
    MinusIff(v[..i]);
    WholeIff(v[i..][..j]);
    NumberIsCut(v, fractional, i, j, k);
  }

  lemma NumberIsCut(v: Bytes, fractional: bool, i: nat, j: nat, k: nat)
    requires i + j + k <= |v| && (v[..i] == [] || v[..i] == [45]) && IsWhole(v[i..][..j])
    requires (if fractional then IsFraction(v[i..][j..][..k]) else k == 0) && IsExponent(v[i..][j..][k..])
    ensures IsNumber(v, fractional)
  {
    Slices(v, i, i + j, i + j + k);
    assert i == 1 ==> v[..i][0] == v[0];
    assert NumberCut(v, fractional, i, i + j, i + j + k);
  }

  lemma TailParses(x: Bytes, fractional: bool) returns (k: nat)
    requires Spells(TailRe(fractional), x)
    ensures k <= |x| && (if fractional then IsFraction(x[..k]) else k == 0) && IsExponent(x[k..])
  {
    TailIff(x, fractional);
    k :| 0 <= k <= |x| && (if fractional then IsFraction(x[..k]) else k == 0) && IsExponent(x[k..]);
  }

  lemma NumberPrints(v: Bytes, fractional: bool)
    requires IsNumber(v, fractional)
    ensures Spells(NumberRe(fractional), v)
  {
    var i, j, k :| 0 <= i <= j <= k <= |v| && NumberCut(v, fractional, i, j, k);
    CutPrints(v, fractional, i, j, k);
  }

  lemma CutPrints(v: Bytes, fractional: bool, i: nat, j: nat, k: nat)
    requires i <= j <= k <= |v| && NumberCut(v, fractional, i, j, k)
    ensures Spells(NumberRe(fractional), v)
  {
    Slices(v, i, j, k);
    MinusIff(v[..i]);
    WholeIff(v[i..j]);
    TailPrints(v[j..], fractional, k - j);
    JoinedThrice(Minus(), Magnitude(), TailRe(fractional), v, i, j);
  }

  lemma JoinedThrice(a: Re, b: Re, c: Re, v: Bytes, i: nat, j: nat)
    requires i <= j <= |v| && Spells(a, v[..i]) && Spells(b, v[i..j]) && Spells(c, v[j..])
    ensures Spells(Then(a, Then(b, c)), v)
  {
    Slices(v, i, j, j);
    Joined(b, c, v[i..], j - i);
    Joined(a, Then(b, c), v, i);
  }

  lemma TailPrints(x: Bytes, fractional: bool, k: nat)
    requires k <= |x| && (if fractional then IsFraction(x[..k]) else k == 0) && IsExponent(x[k..])
    ensures Spells(TailRe(fractional), x)
  {
    TailIff(x, fractional);
  }

  lemma Slices(v: Bytes, i: nat, j: nat, k: nat)
    requires i <= j <= k <= |v|
    ensures v[i..][..j - i] == v[i..j] && v[i..][j - i..] == v[j..]
    ensures v[j..][..k - j] == v[j..k] && v[j..][k - j..] == v[k..]
  {
  }

  function Minus(): Re {
    Either(Word([]), Sign("-"))
  }

  lemma MinusIff(v: Bytes)
    ensures Spells(Minus(), v) <==> v == [] || v == [45]
  {
    SignIs(45, "-", v);
  }

  // ----- values -----

  /** A text of the kind a schema asks for, without what closes it. */
  ghost predicate IsValue(spec: ValueSpec, v: Bytes) {
    match spec
    // Anything that the closing line does not come in before its time.
    case Text =>
      var whole := v + Ascii("\n</parameter>\n");
      forall i | 0 <= i < |v| :: !(Ascii("\n</parameter>\n") <= whole[i..])
    case Literals(literals) => v in literals
    case Boolean => v == Ascii("true") || v == Ascii("false")
    case Null => v == Ascii("null")
    case Integer => IsNumber(v, false)
    case Number => IsNumber(v, true)
  }

  /** A value as the grammar spells it is one of its kind and the closing line. */
  lemma ValueIff(spec: ValueSpec, s: Bytes)
    ensures Spells(ValueRe(spec), s) <==> exists v :: s == v + Ascii("\n</parameter>\n") && IsValue(spec, v)
  {
    var close := Ascii("\n</parameter>\n");
    if spec.Text? {
      TextIff(s);
    } else {
      if Spells(ValueRe(spec), s) {
        var v := ValueParses(spec, s);
      }
      if v :| s == v + close && IsValue(spec, v) {
        ValuePrints(spec, v);
      }
    }
  }

  lemma ValueParses(spec: ValueSpec, s: Bytes) returns (v: Bytes)
    requires !spec.Text? && Spells(ValueRe(spec), s)
    ensures s == v + Ascii("\n</parameter>\n") && IsValue(spec, v)
  {
    var close := Ascii("\n</parameter>\n");
    var i := ClosedCut(PlainRe(spec), close, s);
    v := s[..i];
    PlainIff(spec, v);
  }

  lemma ClosedCut(plain: Re, close: Bytes, s: Bytes) returns (i: nat)
    requires Spells(Then(plain, Word(close)), s)
    ensures i <= |s| && Spells(plain, s[..i]) && s == s[..i] + close
  {
    i := Cut(plain, Word(close), s);
  }

  lemma ValuePrints(spec: ValueSpec, v: Bytes)
    requires !spec.Text? && IsValue(spec, v)
    ensures Spells(ValueRe(spec), v + Ascii("\n</parameter>\n"))
  {
    var close := Ascii("\n</parameter>\n");
    PlainIff(spec, v);
    assert (v + close)[..|v|] == v && (v + close)[|v|..] == close;
    Joined(PlainRe(spec), Word(close), v + close, |v|);
  }

  function PlainRe(spec: ValueSpec): Re
    requires !spec.Text?
  {
    match spec
    case Literals(literals) => OneOf(literals)
    case Boolean => Either(Sign("true"), Sign("false"))
    case Null => Sign("null")
    case Integer => NumberRe(false)
    case Number => NumberRe(true)
  }

  lemma PlainIff(spec: ValueSpec, v: Bytes)
    requires !spec.Text?
    ensures Spells(PlainRe(spec), v) <==> IsValue(spec, v)
  {
    NumberIff(v, false);
    NumberIff(v, true);
  }

  lemma TextIff(s: Bytes)
    ensures Spells(ValueRe(Text), s) <==> exists v :: s == v + Ascii("\n</parameter>\n") && IsValue(Text, v)
  {
    if Spells(ValueRe(Text), s) {
      TextParses(Ascii("\n</parameter>\n"), s);
    }
    if v :| s == v + Ascii("\n</parameter>\n") && IsValue(Text, v) {
      TextPrints(Ascii("\n</parameter>\n"), v);
    }
  }

  lemma TextParses(close: Bytes, s: Bytes)
    requires Kmp.FirstEnds(close, s) && close != []
    ensures |close| <= |s| && s == s[..|s| - |close|] + close
    ensures forall i | 0 <= i < |s| - |close| :: !(close <= s[i..])
  {
    forall i | 0 <= i < |s| - |close|
      ensures !(close <= s[i..])
    {
      if close <= s[i..] {
        SuffixAt(close, s, i);
        assert false;
      }
    }
  }

  lemma TextPrints(close: Bytes, v: Bytes)
    requires close != [] && forall i | 0 <= i < |v| :: !(close <= (v + close)[i..])
    ensures Kmp.FirstEnds(close, v + close)
  {
    var s := v + close;
    var most := s[..|s| - 1];
    forall j | 0 <= j <= |most|
      ensures !Kmp.IsSuffix(close, most[..j])
    {
      if Kmp.IsSuffix(close, most[..j]) {
        assert most[..j] == s[..j];
        PrefixAt(close, s, j);
      }
    }
  }

  lemma SuffixAt(close: Bytes, s: Bytes, i: nat)
    requires i <= |s| && close <= s[i..]
    ensures Kmp.IsSuffix(close, s[..i + |close|])
    ensures i + |close| < |s| ==> s[..|s| - 1][..i + |close|] == s[..i + |close|]
  {
    assert s[..i + |close|] == s[..i] + close;
  }

  lemma PrefixAt(close: Bytes, s: Bytes, j: nat)
    requires j <= |s| && Kmp.IsSuffix(close, s[..j])
    ensures |close| <= j && close <= s[j - |close|..]
  {
    assert s[j - |close|..][..|close|] == s[..j][j - |close|..];
  }

  // ----- calls -----

  /** A parameter and what is written for it. */
  datatype Item = Item(param: nat, value: Bytes)

  /** A call as text: which tool, what is written for which parameter, in order, and the whitespace after it. */
  datatype Line = Line(tool: nat, items: seq<Item>, space: Bytes)

  predicate ItemsInRange(tool: ToolSpec, items: seq<Item>) {
    forall i | 0 <= i < |items| :: items[i].param < |tool.params|
  }

  function ItemsText(tool: ToolSpec, items: seq<Item>): Bytes
    requires ItemsInRange(tool, items)
  {
    if items == [] then []
    else
      Ascii("<parameter=") + tool.params[items[0].param].name + Ascii(">\n") + items[0].value
      + Ascii("\n</parameter>\n") + ItemsText(tool, items[1..])
  }

  predicate LinesInRange(tools: seq<ToolSpec>, lines: seq<Line>) {
    forall i | 0 <= i < |lines| :: lines[i].tool < |tools| && ItemsInRange(tools[lines[i].tool], lines[i].items)
  }

  function LineText(tools: seq<ToolSpec>, line: Line): Bytes
    requires line.tool < |tools| && ItemsInRange(tools[line.tool], line.items)
  {
    Ascii("<function=") + tools[line.tool].name + Ascii(">\n") + ItemsText(tools[line.tool], line.items)
    + Ascii("</function>\n</tool_call>") + line.space
  }

  /** Calls, each but the first behind a line that opens it. */
  function LinesText(tools: seq<ToolSpec>, lines: seq<Line>): Bytes
    requires LinesInRange(tools, lines)
  {
    if lines == [] then []
    else if |lines| == 1 then LineText(tools, lines[0])
    else LineText(tools, lines[0]) + Ascii("<tool_call>\n") + LinesText(tools, lines[1..])
  }

  /** No parameter twice, every required one, each value of its kind, and whitespace alone after the call. */
  ghost predicate IsCall(tools: seq<ToolSpec>, line: Line) {
    && line.tool < |tools| && ItemsInRange(tools[line.tool], line.items)
    && (forall i, j | 0 <= i < j < |line.items| :: line.items[i].param != line.items[j].param)
    && (forall p | 0 <= p < |tools[line.tool].params| && tools[line.tool].params[p].required ::
          exists i | 0 <= i < |line.items| :: line.items[i].param == p)
    && (forall i | 0 <= i < |line.items| ::
          IsValue(tools[line.tool].params[line.items[i].param].value, line.items[i].value))
    && forall i | 0 <= i < |line.space| :: line.space[i] in {9, 10, 13, 32}
  }

  /** A turn: one call, or with parallel calls any number but none, the first behind an opening line or not. */
  ghost predicate IsTurn(tools: seq<ToolSpec>, parallel: bool, s: Bytes, headed: bool, lines: seq<Line>) {
    && lines != [] && (|lines| == 1 || parallel) && (forall i | 0 <= i < |lines| :: IsCall(tools, lines[i]))
    && s == (if headed then Ascii("<tool_call>\n") else []) + LinesText(tools, lines)
  }

  // ----- the grammar's calls as text -----

  function ArgumentOf(item: Item): Argument {
    Argument(item.param, item.value + Ascii("\n</parameter>\n"))
  }

  function ArgumentsOf(items: seq<Item>): (arguments: seq<Argument>)
    ensures |arguments| == |items| && forall i | 0 <= i < |items| :: arguments[i] == ArgumentOf(items[i])
  {
    seq(|items|, i requires 0 <= i < |items| => ArgumentOf(items[i]))
  }

  function CallOf(line: Line): Call {
    Call(line.tool, ArgumentsOf(line.items), line.space)
  }

  function CallsOf(lines: seq<Line>): (calls: seq<Call>)
    ensures |calls| == |lines| && forall i | 0 <= i < |lines| :: calls[i] == CallOf(lines[i])
  {
    seq(|lines|, i requires 0 <= i < |lines| => CallOf(lines[i]))
  }

  lemma {:induction false} ItemsPrint(tool: ToolSpec, items: seq<Item>)
    requires ItemsInRange(tool, items)
    ensures PrintArguments(tool, ArgumentsOf(items)) == ItemsText(tool, items)
    decreases |items|
  {
    if items != [] {
      ItemsPrint(tool, items[1..]);
      assert ArgumentsOf(items)[1..] == ArgumentsOf(items[1..]);
      OneItem(tool.params[items[0].param].name, items[0].value, ItemsText(tool, items[1..]));
    }
  }

  lemma OneItem(name: Bytes, v: Bytes, rest: Bytes)
    ensures ParameterOpen(ParamSpec(name, false, Text)) + (v + Ascii("\n</parameter>\n")) + rest
         == Ascii("<parameter=") + name + Ascii(">\n") + v + Ascii("\n</parameter>\n") + rest
  {
  }

  lemma AsciiJoins(a: string, b: string)
    ensures Ascii(a + b) == Ascii(a) + Ascii(b)
  {
  }

  lemma LinePrints(tools: seq<ToolSpec>, line: Line)
    requires line.tool < |tools| && ItemsInRange(tools[line.tool], line.items)
    ensures PrintCall(tools, CallOf(line)) == LineText(tools, line)
  {
    ItemsPrint(tools[line.tool], line.items);
    AsciiJoins("</function>\n", "</tool_call>");
    assert "</function>\n" + "</tool_call>" == "</function>\n</tool_call>";
    LineIs(tools[line.tool].name, ItemsText(tools[line.tool], line.items), line.space);
  }

  lemma LineIs(name: Bytes, middle: Bytes, space: Bytes)
    ensures FunctionOpen(ToolSpec(name, [])) + middle + FunctionClose() + CallClose() + space
         == Ascii("<function=") + name + Ascii(">\n") + middle + (Ascii("</function>\n") + Ascii("</tool_call>"))
            + space
  {
  }

  lemma {:induction false} LinesPrint(tools: seq<ToolSpec>, lines: seq<Line>)
    requires LinesInRange(tools, lines)
    ensures CallsInRange(tools, CallsOf(lines)) && PrintCalls(tools, CallsOf(lines)) == LinesText(tools, lines)
    decreases |lines|
  {
    if lines != [] {
      LinePrints(tools, lines[0]);
      LinesPrint(tools, lines[1..]);
      assert CallsOf(lines)[1..] == CallsOf(lines[1..]);
    }
  }

  /** A call as text is a valid call of the grammar, and no other is. */
  lemma CallIff(tools: seq<ToolSpec>, line: Line)
    ensures IsCall(tools, line) <==> ValidCall(Documented, tools, CallOf(line))
  {
    if line.tool < |tools| {
      RangeIff(tools[line.tool], line.items);
      if ItemsInRange(tools[line.tool], line.items) {
        ItemsIff(tools[line.tool], line.items);
        PresentIff(tools[line.tool], line.items);
        SpaceIff(line.space);
      }
    }
  }

  lemma RangeIff(tool: ToolSpec, items: seq<Item>)
    ensures ItemsInRange(tool, items) <==> ArgumentsInRange(tool, ArgumentsOf(items))
  {
    var arguments := ArgumentsOf(items);
    assert forall i | 0 <= i < |items| :: arguments[i].param == items[i].param;
  }

  lemma ItemsIff(tool: ToolSpec, items: seq<Item>)
    requires ItemsInRange(tool, items) && ArgumentsInRange(tool, ArgumentsOf(items))
    ensures ValuesSpelled(tool, ArgumentsOf(items)) <==>
            forall i | 0 <= i < |items| :: IsValue(tool.params[items[i].param].value, items[i].value)
  {
    forall i | 0 <= i < |items|
      ensures Spells(ValueRe(tool.params[items[i].param].value), ArgumentsOf(items)[i].text)
              <==> IsValue(tool.params[items[i].param].value, items[i].value)
    {
      ClosedIff(tool.params[items[i].param].value, items[i].value);
    }
  }

  lemma ClosedIff(spec: ValueSpec, v: Bytes)
    ensures Spells(ValueRe(spec), v + Ascii("\n</parameter>\n")) <==> IsValue(spec, v)
  {
    var close := Ascii("\n</parameter>\n");
    ValueIff(spec, v + close);
    if w :| v + close == w + close && IsValue(spec, w) {
      assert w == (w + close)[..|w|] == (v + close)[..|v|] == v;
    }
  }

  lemma PresentIff(tool: ToolSpec, items: seq<Item>)
    requires ItemsInRange(tool, items)
    ensures NoneTwice(ArgumentsOf(items)) <==>
            forall i, j | 0 <= i < j < |items| :: items[i].param != items[j].param
    ensures RequiredPresent(tool, ArgumentsOf(items)) <==>
            forall p | 0 <= p < |tool.params| && tool.params[p].required ::
              exists i | 0 <= i < |items| :: items[i].param == p
  {
    var arguments := ArgumentsOf(items);
    assert forall i | 0 <= i < |items| :: arguments[i].param == items[i].param;
  }

  lemma SpaceIff(space: Bytes)
    ensures IsSpace(space) <==> forall i | 0 <= i < |space| :: space[i] in {9, 10, 13, 32}
  {
    assert Spaces()[0] == 32 && Spaces()[1] == 9 && Spaces()[2] == 10 && Spaces()[3] == 13;
  }

  lemma ItemOf(spec: ValueSpec, text: Bytes) returns (v: Bytes)
    requires Spells(ValueRe(spec), text)
    ensures text == v + Ascii("\n</parameter>\n")
  {
    ValueIff(spec, text);
    v :| text == v + Ascii("\n</parameter>\n") && IsValue(spec, v);
  }

  lemma {:induction false} ItemsOf(tool: ToolSpec, arguments: seq<Argument>) returns (items: seq<Item>)
    requires ArgumentsInRange(tool, arguments) && ValuesSpelled(tool, arguments)
    ensures ArgumentsOf(items) == arguments
    decreases |arguments|
  {
    items := [];
    if arguments != [] {
      var k := |arguments| - 1;
      items := ItemsOf(tool, arguments[..k]);
      var v := ItemOf(tool.params[arguments[k].param].value, arguments[k].text);
      items := items + [Item(arguments[k].param, v)];
      assert arguments == arguments[..k] + [arguments[k]];
    }
  }

  lemma {:induction false} LinesOf(tools: seq<ToolSpec>, calls: seq<Call>) returns (lines: seq<Line>)
    requires forall i | 0 <= i < |calls| :: ValidCall(Documented, tools, calls[i])
    ensures CallsOf(lines) == calls
    decreases |calls|
  {
    lines := [];
    if calls != [] {
      var k := |calls| - 1;
      lines := LinesOf(tools, calls[..k]);
      var items := ItemsOf(tools[calls[k].tool], calls[k].arguments);
      lines := lines + [Line(calls[k].tool, items, calls[k].space)];
      assert calls == calls[..k] + [calls[k]];
    }
  }

  /** Turns as text, of some calls, are the turns the grammar writes of them. */
  lemma WritesIff(tools: seq<ToolSpec>, parallel: bool, s: Bytes, headed: bool, lines: seq<Line>)
    ensures IsTurn(tools, parallel, s, headed, lines)
       <==> WritesTurn(Documented, tools, parallel, s, Turn(headed, CallsOf(lines)))
  {
    forall i | 0 <= i < |lines|
      ensures IsCall(tools, lines[i]) <==> ValidCall(Documented, tools, CallsOf(lines)[i])
    {
      CallIff(tools, lines[i]);
    }
    if forall i | 0 <= i < |lines| :: IsCall(tools, lines[i]) {
      LinesPrint(tools, lines);
    }
  }

  /** The documented grammar is the format as text: every string is a turn of the one if and only if of the other. */
  lemma TextIsGrammar(tools: seq<ToolSpec>, parallel: bool, s: Bytes)
    ensures InGrammar(Documented, tools, parallel, s) <==>
            exists headed, lines :: IsTurn(tools, parallel, s, headed, lines)
  {
    if InGrammar(Documented, tools, parallel, s) {
      var turn :| WritesTurn(Documented, tools, parallel, s, turn);
      var lines := LinesOf(tools, turn.calls);
      WritesIff(tools, parallel, s, turn.headed, lines);
      assert IsTurn(tools, parallel, s, turn.headed, lines);
    }
    if headed, lines :| IsTurn(tools, parallel, s, headed, lines) {
      WritesIff(tools, parallel, s, headed, lines);
    }
  }

  // ----- turns, character by character -----

  predicate IsBlank(space: Bytes) {
    forall i | 0 <= i < |space| :: space[i] in {9, 10, 13, 32}
  }

  /** The line before a turn's first call, if it was written. */
  function Heading(headed: bool): Bytes {
    if headed then Ascii("<tool_call>\n") else []
  }

  /** The texts that write one call of a tool, with nothing in it. */
  ghost predicate WritesBare(tools: seq<ToolSpec>, parallel: bool, t: nat, s: Bytes, headed: bool, space: Bytes) {
    WritesTurn(Documented, tools, parallel, s, Turn(headed, [Call(t, [], space)]))
  }

  lemma OneLine(tools: seq<ToolSpec>, parallel: bool, s: Bytes, headed: bool, line: Line)
    ensures IsTurn(tools, parallel, s, headed, [line]) <==>
            IsCall(tools, line) && s == Heading(headed) + LineText(tools, line)
    ensures WritesTurn(Documented, tools, parallel, s, Turn(headed, [CallOf(line)]))
       <==> IsTurn(tools, parallel, s, headed, [line])
  {
    WritesIff(tools, parallel, s, headed, [line]);
    assert CallsOf([line]) == [CallOf(line)];
  }

  lemma AsciiIs(a: string, b: string, both: string)
    requires a + b == both
    ensures Ascii(both) == Ascii(a) + Ascii(b)
  {
  }

  lemma Regrouped(a: Bytes, b: Bytes, name: Bytes, c: Bytes, d: Bytes, space: Bytes)
    ensures a + (b + name + c + [] + d + space) == (a + b) + name + (c + d) + space
  {
    assert a + (b + name + c + [] + d + space) == a + b + name + c + d + space;
    assert (a + b) + name + (c + d) + space == a + b + name + c + d + space;
  }

  /** A call of a tool with nothing in it, as text. */
  lemma BareText(tools: seq<ToolSpec>, t: nat, headed: bool, space: Bytes)
    requires t < |tools|
    ensures Heading(headed) + LineText(tools, Line(t, [], space))
         == (if headed then Ascii("<tool_call>\n<function=") else Ascii("<function="))
            + tools[t].name + Ascii(">\n</function>\n</tool_call>") + space
  {
    HeadedOpening(headed);
    AsciiIs(">\n", "</function>\n</tool_call>", ">\n</function>\n</tool_call>");
    Regrouped(Heading(headed), Ascii("<function="), tools[t].name, Ascii(">\n"), Ascii("</function>\n</tool_call>"),
              space);
  }

  lemma HeadedOpening(headed: bool)
    ensures Heading(headed) + Ascii("<function=")
         == if headed then Ascii("<tool_call>\n<function=") else Ascii("<function=")
  {
    AsciiIs("<tool_call>\n", "<function=", "<tool_call>\n<function=");
  }

  predicate NothingRequired(tool: ToolSpec) {
    forall p | 0 <= p < |tool.params| :: !tool.params[p].required
  }

  /** A call with nothing in it is spelled like this, of a tool with nothing required, and no other way. */
  lemma BareCallIff(tools: seq<ToolSpec>, parallel: bool, t: nat, s: Bytes, headed: bool, space: Bytes)
    requires t < |tools|
    ensures WritesBare(tools, parallel, t, s, headed, space) <==>
            && NothingRequired(tools[t]) && IsBlank(space)
            && s == (if headed then Ascii("<tool_call>\n<function=") else Ascii("<function="))
                    + tools[t].name + Ascii(">\n</function>\n</tool_call>") + space
    ensures WritesBare(tools, parallel, t, s, headed, space) ==> InGrammar(Documented, tools, parallel, s)
  {
    var line := Line(t, [], space);
    OneLine(tools, parallel, s, headed, line);
    assert CallOf(line) == Call(t, [], space);
    BareIsCall(tools, line);
    BareText(tools, t, headed, space);
  }

  /** Only this parameter may be missed. */
  predicate NoOtherRequired(tool: ToolSpec, p: nat) {
    forall q | 0 <= q < |tool.params| && q != p :: !tool.params[q].required
  }

  lemma GivenJoint()
    ensures Ascii("\n</parameter>\n</function>\n</tool_call>")
         == Ascii("\n</parameter>\n") + Ascii("</function>\n</tool_call>")
  {
    AsciiIs("\n</parameter>\n", "</function>\n</tool_call>", "\n</parameter>\n</function>\n</tool_call>");
  }

  lemma GivenText(tools: seq<ToolSpec>, t: nat, p: nat, v: Bytes, headed: bool, space: Bytes)
    requires t < |tools| && p < |tools[t].params|
    ensures Heading(headed) + LineText(tools, Line(t, [Item(p, v)], space))
         == (if headed then Ascii("<tool_call>\n<function=") else Ascii("<function="))
            + tools[t].name + Ascii(">\n<parameter=") + tools[t].params[p].name + Ascii(">\n") + v
            + Ascii("\n</parameter>\n</function>\n</tool_call>") + space
  {
    var name, param := tools[t].name, tools[t].params[p].name;
    HeadedOpening(headed);
    AsciiIs(">\n", "<parameter=", ">\n<parameter=");
    GivenJoint();
    assert ItemsText(tools[t], [Item(p, v)][1..]) == [];
    Regathered(Heading(headed), Ascii("<function="), name, Ascii(">\n"), Ascii("<parameter="), param, v,
               Ascii("\n</parameter>\n"), Ascii("</function>\n</tool_call>"), space);
  }

  lemma Regathered(a: Bytes, b: Bytes, name: Bytes, c: Bytes, d: Bytes, param: Bytes, v: Bytes, e: Bytes, f: Bytes,
                   space: Bytes)
    ensures a + (b + name + c + (d + param + c + v + e + []) + f + space)
         == (a + b) + name + (c + d) + param + c + v + (e + f) + space
  {
    var all := a + b + name + c + d + param + c + v + e + f + space;
    assert a + (b + name + c + (d + param + c + v + e + []) + f + space) == all;
    assert (a + b) + name + (c + d) + param + c + v + (e + f) + space == all;
  }

  /** A call with one parameter is spelled like this, with a value of its kind and nothing else required. */
  lemma OneParameterIff(tools: seq<ToolSpec>, parallel: bool, t: nat, p: nat, v: Bytes, s: Bytes, headed: bool,
                        space: Bytes)
    requires t < |tools| && p < |tools[t].params|
    ensures IsTurn(tools, parallel, s, headed, [Line(t, [Item(p, v)], space)]) <==>
            && NoOtherRequired(tools[t], p) && IsValue(tools[t].params[p].value, v) && IsBlank(space)
            && s == (if headed then Ascii("<tool_call>\n<function=") else Ascii("<function="))
                    + tools[t].name + Ascii(">\n<parameter=") + tools[t].params[p].name + Ascii(">\n") + v
                    + Ascii("\n</parameter>\n</function>\n</tool_call>") + space
    ensures IsTurn(tools, parallel, s, headed, [Line(t, [Item(p, v)], space)]) ==>
            InGrammar(Documented, tools, parallel, s)
  {
    var line := Line(t, [Item(p, v)], space);
    OneLine(tools, parallel, s, headed, line);
    assert IsCall(tools, line) <==>
           NoOtherRequired(tools[t], p) && IsValue(tools[t].params[p].value, v) && IsBlank(space) by {
      assert line.items[0].param == p;
    }
    GivenText(tools, t, p, v, headed, space);
  }

  /** Two calls with nothing in them, one behind the other: only where calls may be parallel. */
  lemma TwoCallsIff(tools: seq<ToolSpec>, parallel: bool, t: nat, u: nat, s: Bytes, headed: bool, between: Bytes,
                    space: Bytes)
    requires t < |tools| && u < |tools|
    ensures IsTurn(tools, parallel, s, headed, [Line(t, [], between), Line(u, [], space)]) <==>
            && parallel && NothingRequired(tools[t]) && NothingRequired(tools[u]) && IsBlank(between) && IsBlank(space)
            && s == (if headed then Ascii("<tool_call>\n<function=") else Ascii("<function="))
                    + tools[t].name + Ascii(">\n</function>\n</tool_call>") + between
                    + (Ascii("<tool_call>\n<function=") + tools[u].name + Ascii(">\n</function>\n</tool_call>") + space)
    ensures IsTurn(tools, parallel, s, headed, [Line(t, [], between), Line(u, [], space)]) ==>
            InGrammar(Documented, tools, parallel, s)
  {
    var a, b := Line(t, [], between), Line(u, [], space);
    TextIsGrammar(tools, parallel, s);
    BareText(tools, t, headed, between);
    BareText(tools, u, true, space);
    TwoLines(tools, parallel, s, headed, a, b);
    BareIsCall(tools, a);
    BareIsCall(tools, b);
  }

  lemma BareIsCall(tools: seq<ToolSpec>, line: Line)
    requires line.tool < |tools| && line.items == []
    ensures IsCall(tools, line) <==> NothingRequired(tools[line.tool]) && IsBlank(line.space)
  {
  }

  lemma TwoLines(tools: seq<ToolSpec>, parallel: bool, s: Bytes, headed: bool, a: Line, b: Line)
    requires a.tool < |tools| && b.tool < |tools| && a.items == b.items == []
    ensures IsTurn(tools, parallel, s, headed, [a, b]) <==>
            && parallel && IsCall(tools, a) && IsCall(tools, b)
            && s == Heading(headed) + LineText(tools, a) + (Heading(true) + LineText(tools, b))
  {
    var lines := [a, b];
    assert lines[0] == a && lines[1] == b && lines[1..] == [b];
    assert LinesText(tools, lines) == LineText(tools, a) + Heading(true) + LineText(tools, b);
    FourParts(Heading(headed), LineText(tools, a), Heading(true), LineText(tools, b));
  }

  lemma FourParts(a: Bytes, b: Bytes, c: Bytes, d: Bytes)
    ensures a + (b + c + d) == a + b + (c + d)
  {
  }
}
