/** The states of one parameter value, and that they spell the value's grammar. */
module Values {
  import opened Tools
  import opened Machines
  import opened CallGrammar
  import opened Languages
  import Kmp

  // ----- numbers -----

  predicate ByteAt(states: seq<State>, r: nat, byte: Byte, next: nat) {
    r < |states| && states[r] == Literal(byte, next)
  }

  predicate PairAt(states: seq<State>, r: nat, x: nat, y: nat) {
    r < |states| && states[r] == Split([x, y])
  }

  lemma CompilesByte(m: Machine, r: nat, text: string, next: nat)
    requires WellFormed(m) && |text| == 1 && ByteAt(m.states, r, Ascii(text)[0], next)
    ensures Compiles(m, r, Sign(text), next)
  {
    assert Ascii(text)[1..] == [];
    assert LiteralAt(m.states, next, Ascii(text)[1..], next);
    CompilesLiteral(m, r, Ascii(text), next);
  }

  /** An optional sign leading to `digits`. */
  predicate SignAt(states: seq<State>, r: nat, digits: nat) {
    && r < |states| && states[r].Split? && |states[r].alts| == 3 && states[r].alts[2] == digits
    && ByteAt(states, states[r].alts[0], 43, digits)
    && ByteAt(states, states[r].alts[1], 45, digits)
  }

  lemma EndsSplit3(m: Machine, c: Cursor, x: nat, y: nat, z: nat, s: Bytes)
    requires WellFormed(m) && c.state < |m.states| && m.states[c.state] == Split([x, y, z])
    ensures Ends(m, c, s) <==>
            Ends(m, c.(state := x), s) || Ends(m, c.(state := y), s) || Ends(m, c.(state := z), s)
  {
    EndsSplit(m, c, s);
    assert forall a | a in [x, y, z] :: a == x || a == y || a == z;
    assert x in [x, y, z] && y in [x, y, z] && z in [x, y, z];
  }

  lemma CompilesSign(m: Machine, r: nat, digits: nat)
    requires WellFormed(m) && SignAt(m.states, r, digits)
    ensures Compiles(m, r, Either(Sign("+"), Either(Sign("-"), Word([]))), digits)
  {
    var alts := m.states[r].alts;
    var re := Either(Sign("+"), Either(Sign("-"), Word([])));
    assert alts == [alts[0], alts[1], digits];
    CompilesByte(m, alts[0], "+", digits);
    CompilesByte(m, alts[1], "-", digits);
    CompilesEmpty(m, digits);
    forall c: Cursor, s: Bytes | c.state == r
      ensures Agrees(m, r, re, digits, c, s)
    {
      EndsSplit3(m, c, alts[0], alts[1], digits, s);
      assert Agrees(m, alts[0], Sign("+"), digits, c.(state := alts[0]), s);
      assert Agrees(m, alts[1], Sign("-"), digits, c.(state := alts[1]), s);
      ViaEmpty(m, c, digits, s);
      ViaEither(m, c, Sign("-"), Word([]), digits, s);
      ViaEither(m, c, Sign("+"), Either(Sign("-"), Word([])), digits, s);
    }
  }

  /** An optional sign, then digits. */
  predicate SignedAt(states: seq<State>, r: nat, next: nat) {
    && r < |states| && states[r].Split? && |states[r].alts| == 3
    && SignAt(states, r, states[r].alts[2])
    && DigitsAt(states, states[r].alts[2], next)
  }

  predicate ExponentAt(states: seq<State>, r: nat, next: nat) {
    && r < |states| && states[r].Split? && |states[r].alts| == 2
    && states[r].alts[0] < |states| && states[states[r].alts[0]].Literal?
    && var signed := states[states[r].alts[0]].next;
       && ByteAt(states, states[r].alts[0], 101, signed)
       && ByteAt(states, states[r].alts[1], 69, signed)
       && SignedAt(states, signed, next)
  }

  lemma CompilesExponent(m: Machine, r: nat, next: nat)
    requires WellFormed(m) && ExponentAt(m.states, r, next)
    ensures Compiles(m, r, Exponent(), next)
  {
    var lower, upper := m.states[r].alts[0], m.states[r].alts[1];
    var signed := m.states[lower].next;
    var digits := m.states[signed].alts[2];
    CompilesByte(m, lower, "e", signed);
    CompilesByte(m, upper, "E", signed);
    assert m.states[r].alts == [lower, upper];
    CompilesEither(m, r, lower, upper, Sign("e"), Sign("E"), signed);
    CompilesSign(m, signed, digits);
    CompilesDigits(m, digits, next);
    CompilesThen(m, signed, Either(Sign("+"), Either(Sign("-"), Word([]))), digits, DigitRun, next);
    CompilesThen(m, r, Either(Sign("e"), Sign("E")), signed,
                 Then(Either(Sign("+"), Either(Sign("-"), Word([]))), DigitRun), next);
  }

  /** `next`, or an exponent and then `next`. */
  predicate OptionalExponentAt(states: seq<State>, r: nat, next: nat) {
    && r < |states| && states[r].Split? && |states[r].alts| == 2 && states[r].alts[0] == next
    && ExponentAt(states, states[r].alts[1], next)
  }

  lemma CompilesOptional(m: Machine, r: nat, x: nat, re: Re, next: nat)
    requires WellFormed(m) && PairAt(m.states, r, next, x) && Compiles(m, x, re, next)
    ensures Compiles(m, r, Optional(re), next)
  {
    CompilesEmpty(m, next);
    CompilesEither(m, r, next, x, Word([]), re, next);
  }

  /** `tail`, or a fraction and then `tail`. */
  predicate OptionalFractionAt(states: seq<State>, r: nat, tail: nat) {
    && r < |states| && states[r].Split? && |states[r].alts| == 2 && states[r].alts[0] == tail
    && states[r].alts[1] < |states| && states[states[r].alts[1]].Literal?
    && ByteAt(states, states[r].alts[1], 46, states[states[r].alts[1]].next)
    && DigitsAt(states, states[states[r].alts[1]].next, tail)
  }

  lemma CompilesOptionalFraction(m: Machine, r: nat, tail: nat)
    requires WellFormed(m) && OptionalFractionAt(m.states, r, tail)
    ensures Compiles(m, r, Optional(Fraction()), tail)
  {
    var point := m.states[r].alts[1];
    CompilesByte(m, point, ".", m.states[point].next);
    CompilesDigits(m, m.states[point].next, tail);
    CompilesThen(m, point, Sign("."), m.states[point].next, DigitRun, tail);
    assert m.states[r].alts == [tail, point];
    CompilesOptional(m, r, point, Fraction(), tail);
  }

  /** `tail`, or more digits and then `tail`. */
  predicate RestAt(states: seq<State>, r: nat, tail: nat) {
    && r < |states| && states[r].Split? && |states[r].alts| == 2 && states[r].alts[0] == tail
    && DigitsAt(states, states[r].alts[1], tail)
  }

  /** A zero alone, or a leading digit and the rest. */
  predicate MagnitudeAt(states: seq<State>, r: nat, tail: nat) {
    && r < |states| && states[r].Split? && |states[r].alts| == 10
    && ByteAt(states, states[r].alts[0], 48, tail)
    && states[r].alts[1] < |states| && states[states[r].alts[1]].Literal?
    && var rest := states[states[r].alts[1]].next;
       && RestAt(states, rest, tail)
       && forall i | 1 <= i < 10 :: ByteAt(states, states[r].alts[i], (48 + i) as Byte, rest)
  }

  lemma EndsMagnitude(m: Machine, r: nat, tail: nat, c: Cursor, s: Bytes)
    requires WellFormed(m) && MagnitudeAt(m.states, r, tail) && c.state == r
    ensures Ends(m, c, s) <==>
            s != [] && (|| (s[0] == 48 && Ends(m, c.(state := tail), s[1..]))
                        || (49 <= s[0] <= 57
                            && Ends(m, c.(state := m.states[m.states[r].alts[1]].next), s[1..])))
  {
    EndsSplit(m, c, s);
    var alts := m.states[r].alts;
    forall i | 0 <= i < 10
      ensures alts[i] in alts
      ensures Ends(m, c.(state := alts[i]), s) <==>
              s != [] && s[0] as int == 48 + i
              && Ends(m, c.(state := if i == 0 then tail else m.states[alts[1]].next), s[1..])
    {
      EndsLiteral(m, c.(state := alts[i]), s);
    }
    if s != [] && 48 <= s[0] <= 57 {
      assert alts[s[0] as int - 48] in alts;
    }
  }

  lemma ViaOneByte(m: Machine, c: Cursor, lo: Byte, hi: Byte, next: nat, s: Bytes)
    requires WellFormed(m)
    ensures Via(m, c, Range(lo, hi), next, s) <==>
            s != [] && lo <= s[0] <= hi && Ends(m, c.(state := next), s[1..])
  {
    if s != [] && lo <= s[0] <= hi && Ends(m, c.(state := next), s[1..]) {
      assert Spells(Range(lo, hi), s[..1]);
    }
  }

  lemma ViaSign(m: Machine, c: Cursor, text: string, next: nat, s: Bytes)
    requires WellFormed(m) && |text| == 1
    ensures Via(m, c, Sign(text), next, s) <==>
            s != [] && s[0] == Ascii(text)[0] && Ends(m, c.(state := next), s[1..])
  {
    if s != [] && s[0] == Ascii(text)[0] {
      assert s[..1] == Ascii(text);
    }
    if Via(m, c, Sign(text), next, s) {
      assert s[..1] == Ascii(text);
    }
  }

  lemma CompilesMagnitude(m: Machine, r: nat, tail: nat)
    requires WellFormed(m) && MagnitudeAt(m.states, r, tail)
    ensures Compiles(m, r, Magnitude(), tail)
  {
    var rest := m.states[m.states[r].alts[1]].next;
    var more := m.states[rest].alts[1];
    CompilesDigits(m, more, tail);
    assert m.states[rest].alts == [tail, more];
    CompilesOptional(m, rest, more, DigitRun, tail);
    var large := Then(Range(49, 57), Optional(DigitRun));
    forall c: Cursor, s: Bytes | c.state == r
      ensures Agrees(m, r, Magnitude(), tail, c, s)
    {
      EndsMagnitude(m, r, tail, c, s);
      ViaSign(m, c, "0", tail, s);
      ViaOneByte(m, c, 49, 57, rest, s);
      ViaThen(m, c, Range(49, 57), rest, Optional(DigitRun), tail, s);
      ViaEither(m, c, Sign("0"), large, tail, s);
    }
  }

  /** What may follow the magnitude. */
  predicate TailAt(states: seq<State>, tail: nat, next: nat, fractional: bool) {
    if fractional then
      && tail < |states| && states[tail].Split? && |states[tail].alts| == 2
      && OptionalFractionAt(states, tail, states[tail].alts[0])
      && OptionalExponentAt(states, states[tail].alts[0], next)
    else OptionalExponentAt(states, tail, next)
  }

  function TailRe(fractional: bool): Re {
    if fractional then Then(Optional(Fraction()), Optional(Exponent())) else Optional(Exponent())
  }

  predicate NumberAt(states: seq<State>, r: nat, next: nat, fractional: bool) {
    && r < |states| && states[r].Split? && |states[r].alts| == 2
    && var magnitude := states[r].alts[0];
       && ByteAt(states, states[r].alts[1], 45, magnitude)
       && magnitude < |states| && states[magnitude].Split? && |states[magnitude].alts| == 10
       && states[magnitude].alts[0] < |states| && states[states[magnitude].alts[0]].Literal?
       && var tail := states[states[magnitude].alts[0]].next;
          MagnitudeAt(states, magnitude, tail) && TailAt(states, tail, next, fractional)
  }

  lemma CompilesOptionalExponent(m: Machine, r: nat, next: nat)
    requires WellFormed(m) && OptionalExponentAt(m.states, r, next)
    ensures Compiles(m, r, Optional(Exponent()), next)
  {
    var x := m.states[r].alts[1];
    CompilesExponent(m, x, next);
    assert m.states[r].alts == [next, x];
    CompilesOptional(m, r, x, Exponent(), next);
  }

  lemma CompilesTail(m: Machine, tail: nat, next: nat, fractional: bool)
    requires WellFormed(m) && TailAt(m.states, tail, next, fractional)
    ensures Compiles(m, tail, TailRe(fractional), next)
  {
    if fractional {
      var inner := m.states[tail].alts[0];
      CompilesOptionalFraction(m, tail, inner);
      CompilesOptionalExponent(m, inner, next);
      CompilesThen(m, tail, Optional(Fraction()), inner, Optional(Exponent()), next);
    } else {
      CompilesOptionalExponent(m, tail, next);
    }
  }

  lemma CompilesNumber(m: Machine, r: nat, next: nat, fractional: bool)
    requires WellFormed(m) && NumberAt(m.states, r, next, fractional)
    ensures Compiles(m, r, NumberRe(fractional), next)
  {
    var magnitude, minus := m.states[r].alts[0], m.states[r].alts[1];
    var tail := m.states[m.states[magnitude].alts[0]].next;
    CompilesTail(m, tail, next, fractional);
    CompilesMagnitude(m, magnitude, tail);
    CompilesThen(m, magnitude, Magnitude(), tail, TailRe(fractional), next);
    CompilesEmpty(m, magnitude);
    CompilesByte(m, minus, "-", magnitude);
    assert m.states[r].alts == [magnitude, minus];
    CompilesEither(m, r, magnitude, minus, Word([]), Sign("-"), magnitude);
    CompilesThen(m, r, Either(Word([]), Sign("-")), magnitude, Then(Magnitude(), TailRe(fractional)), next);
  }

  // ----- raw text -----

  /** Having read `text` of the value, reading `s` closes it and then ends from `next`. */
  ghost predicate Closes(m: Machine, c: Cursor, next: nat, text: Bytes, s: Bytes)
    requires WellFormed(m)
  {
    exists i | 0 <= i <= |s| :: Kmp.FirstEnds(CLOSE, text + s[..i]) && Ends(m, c.(state := next), s[i..])
  }

  lemma AbsentSnoc(text: Bytes, b: Byte)
    requires Kmp.Absent(CLOSE, text)
    ensures Kmp.IsSuffix(CLOSE, text + [b]) <==> Kmp.FirstEnds(CLOSE, text + [b])
    ensures !Kmp.IsSuffix(CLOSE, text + [b]) <==> Kmp.Absent(CLOSE, text + [b])
  {
    var whole := text + [b];
    assert whole[..|text|] == text && whole[..|whole|] == whole;
    forall j | 0 <= j <= |text|
      ensures whole[..j] == text[..j]
    {
    }
  }

  /** Once the first occurrence has closed, no longer reading is a first occurrence. */
  lemma ClosedOnce(text: Bytes, more: Bytes)
    requires Kmp.IsSuffix(CLOSE, text) && more != []
    ensures !Kmp.FirstEnds(CLOSE, text + more)
  {
    var whole := text + more;
    assert whole[..|whole| - 1][..|text|] == text;
  }

  lemma ClosesUnfolds(m: Machine, c: Cursor, next: nat, text: Bytes, s: Bytes)
    requires WellFormed(m) && Kmp.Absent(CLOSE, text)
    ensures s == [] ==> !Closes(m, c, next, text, s)
    ensures s != [] && Kmp.IsSuffix(CLOSE, text + [s[0]]) ==>
              (Closes(m, c, next, text, s) <==> Ends(m, c.(state := next), s[1..]))
    ensures s != [] && !Kmp.IsSuffix(CLOSE, text + [s[0]]) ==>
              (Closes(m, c, next, text, s) <==> Closes(m, c, next, text + [s[0]], s[1..]))
  {
    assert text + s[..0] == text && text[..|text|] == text;
    if s == [] {
      return;
    }
    AbsentSnoc(text, s[0]);
    var read := text + [s[0]];
    assert text + s[..1] == read;
    forall i | 0 < i <= |s|
      ensures text + s[..i] == read + s[1..][..i - 1] && s[1..][i - 1..] == s[i..]
    {
      assert s[..i] == [s[0]] + s[1..][..i - 1];
    }
    if Kmp.IsSuffix(CLOSE, read) {
      forall i | 1 < i <= |s|
        ensures !Kmp.FirstEnds(CLOSE, text + s[..i])
      {
        ClosedOnce(read, s[1..][..i - 1]);
      }
    } else {
      assert forall i | 0 <= i <= |s[1..]| :: read + s[1..][..i] == text + s[..i + 1] && s[1..][i..] == s[i + 1..];
      assert !Kmp.FirstEnds(CLOSE, text + s[..0]);
      if Closes(m, c, next, text, s) {
        var i :| 0 <= i <= |s| && Kmp.FirstEnds(CLOSE, text + s[..i]) && Ends(m, c.(state := next), s[i..]);
        assert Kmp.FirstEnds(CLOSE, read + s[1..][..i - 1]);
      }
    }
  }

  /** A state of the chain ends where its one move does. */
  lemma UntilMoves(m: Machine, first: nat, next: nat, c: Cursor, k: nat, s: Bytes)
    requires WellFormed(m) && UntilBlock(m.states, first, next)
    requires k < |CLOSE| && c.state == first + k
    ensures s == [] ==> !Ends(m, c, s)
    ensures s != [] ==>
              var k' := Kmp.Advance(CLOSE, k, s[0]);
              (Ends(m, c, s) <==> Ends(m, c.(state := if k' == |CLOSE| then next else first + k'), s[1..]))
  {
    assert m.states[c.state] == Until(k, next);
    EndsByte(m, c, s);
    if s != [] {
      var k' := Kmp.Advance(CLOSE, k, s[0]);
      var d := c.(state := if k' == |CLOSE| then next else first + k');
      MovedUntil(m, c, k, next, s[0]);
      assert forall e | e in [d] :: e == d;
      assert d in [d];
    }
  }

  lemma NotYetClosed(text: Bytes)
    requires Kmp.Absent(CLOSE, text)
    ensures Kmp.Matched(CLOSE, text) < |CLOSE|
  {
    assert text[..|text|] == text;
    Kmp.MatchedIsEnd(CLOSE, text);
  }

  /** One byte more completes the delimiter, or is counted in how much of it has been read. */
  lemma OneMoreRead(text: Bytes, b: Byte)
    requires Kmp.Absent(CLOSE, text)
    ensures Kmp.Matched(CLOSE, text) < |CLOSE|
    ensures Kmp.Advance(CLOSE, Kmp.Matched(CLOSE, text), b) == Kmp.Matched(CLOSE, text + [b])
    ensures Kmp.Matched(CLOSE, text + [b]) == |CLOSE| <==> Kmp.IsSuffix(CLOSE, text + [b])
    ensures !Kmp.IsSuffix(CLOSE, text + [b]) ==> Kmp.Absent(CLOSE, text + [b])
  {
    NotYetClosed(text);
    Kmp.AdvanceIsMatched(CLOSE, text, b);
    Kmp.MatchedIsEnd(CLOSE, text + [b]);
    if !Kmp.IsSuffix(CLOSE, text + [b]) {
      AbsentSnoc(text, b);
    }
  }

  /**
   * The chain's counter is the longest prefix of the delimiter the text read so
   * far ends with, and the chain is left exactly at its first occurrence.
   */
  lemma {:induction false} EndsUntil(m: Machine, first: nat, next: nat, c: Cursor, text: Bytes, s: Bytes)
    requires WellFormed(m) && UntilBlock(m.states, first, next)
    requires Kmp.Absent(CLOSE, text) && c.state == first + Kmp.Matched(CLOSE, text)
    ensures Ends(m, c, s) <==> Closes(m, c, next, text, s)
    decreases |s|
  {
    ClosesUnfolds(m, c, next, text, s);
    NotYetClosed(text);
    UntilMoves(m, first, next, c, Kmp.Matched(CLOSE, text), s);
    if s == [] {
      return;
    }
    var read := text + [s[0]];
    OneMoreRead(text, s[0]);
    if !Kmp.IsSuffix(CLOSE, read) {
      var d := c.(state := first + Kmp.Matched(CLOSE, read));
      EndsUntil(m, first, next, d, read, s[1..]);
      assert d.(state := next) == c.(state := next);
    }
  }

  lemma CompilesUntil(m: Machine, first: nat, next: nat)
    requires WellFormed(m) && UntilBlock(m.states, first, next)
    ensures Compiles(m, first, UpTo(CLOSE), next)
  {
    forall c: Cursor, s: Bytes | c.state == first
      ensures Agrees(m, first, UpTo(CLOSE), next, c, s)
    {
      assert Kmp.Matched(CLOSE, []) == 0;
      assert Kmp.Absent(CLOSE, []);
      EndsUntil(m, first, next, c, [], s);
      assert forall i | 0 <= i <= |s| :: [] + s[..i] == s[..i];
    }
  }

  // ----- values -----

  /** One chain per literal, all leading to `close`. */
  predicate ChoiceAt(states: seq<State>, r: nat, literals: seq<Bytes>, close: nat) {
    && r < |states| && states[r].Split? && |states[r].alts| == |literals|
    && forall i | 0 <= i < |literals| :: LiteralAt(states, states[r].alts[i], literals[i], close)
  }

  lemma CompilesChoice(m: Machine, r: nat, literals: seq<Bytes>, close: nat)
    requires WellFormed(m) && ChoiceAt(m.states, r, literals, close)
    ensures Compiles(m, r, OneOf(literals), close)
  {
    var alts := m.states[r].alts;
    forall c: Cursor, s: Bytes | c.state == r
      ensures Agrees(m, r, OneOf(literals), close, c, s)
    {
      EndsSplit(m, c, s);
      forall i | 0 <= i < |literals|
        ensures Ends(m, c.(state := alts[i]), s) <==> Via(m, c, Word(literals[i]), close, s)
        ensures alts[i] in alts
      {
        CompilesLiteral(m, alts[i], literals[i], close);
        assert Agrees(m, alts[i], Word(literals[i]), close, c.(state := alts[i]), s);
      }
      if Via(m, c, OneOf(literals), close, s) {
        var i :| 0 <= i <= |s| && s[..i] in literals && Ends(m, c.(state := close), s[i..]);
        var j :| 0 <= j < |literals| && literals[j] == s[..i];
        assert Via(m, c, Word(literals[j]), close, s);
      }
    }
  }

  /** The states of a value that is not raw text, before its closing delimiter. */
  predicate BodyAt(states: seq<State>, r: nat, spec: ValueSpec, close: nat) {
    match spec
    case Text => false
    case Literals(literals) => ChoiceAt(states, r, literals, close)
    case Boolean => ChoiceAt(states, r, [Ascii("true"), Ascii("false")], close)
    case Null => LiteralAt(states, r, Ascii("null"), close)
    case Integer => NumberAt(states, r, close, false)
    case Number => NumberAt(states, r, close, true)
  }

  predicate ValueAt(states: seq<State>, r: nat, spec: ValueSpec, close: nat, next: nat) {
    if spec.Text? then UntilBlock(states, r, next)
    else BodyAt(states, r, spec, close) && LiteralAt(states, close, CLOSE, next)
  }

  lemma CompilesBoolean(m: Machine, r: nat, close: nat)
    requires WellFormed(m) && ChoiceAt(m.states, r, [Ascii("true"), Ascii("false")], close)
    ensures Compiles(m, r, Either(Sign("true"), Sign("false")), close)
  {
    var words := [Ascii("true"), Ascii("false")];
    var yes, no := m.states[r].alts[0], m.states[r].alts[1];
    assert m.states[r].alts == [yes, no];
    assert LiteralAt(m.states, yes, words[0], close) && LiteralAt(m.states, no, words[1], close);
    CompilesLiteral(m, yes, words[0], close);
    CompilesLiteral(m, no, words[1], close);
    CompilesEither(m, r, yes, no, Sign("true"), Sign("false"), close);
  }

  lemma CompilesValue(m: Machine, r: nat, spec: ValueSpec, close: nat, next: nat)
    requires WellFormed(m) && ValueAt(m.states, r, spec, close, next)
    ensures Compiles(m, r, ValueRe(spec), next)
  {
    if spec.Text? {
      CompilesUntil(m, r, next);
      return;
    }
    CompilesLiteral(m, close, CLOSE, next);
    match spec {
      case Literals(literals) =>
        CompilesChoice(m, r, literals, close);
        CompilesThen(m, r, OneOf(literals), close, Word(CLOSE), next);
      case Boolean =>
        CompilesBoolean(m, r, close);
        CompilesThen(m, r, Either(Sign("true"), Sign("false")), close, Word(CLOSE), next);
      case Null =>
        CompilesLiteral(m, r, Ascii("null"), close);
        CompilesThen(m, r, Sign("null"), close, Word(CLOSE), next);
      case Integer =>
        CompilesNumber(m, r, close, false);
        CompilesThen(m, r, NumberRe(false), close, Word(CLOSE), next);
      case Number =>
        CompilesNumber(m, r, close, true);
        CompilesThen(m, r, NumberRe(true), close, Word(CLOSE), next);
    }
  }
}
