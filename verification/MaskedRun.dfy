/**
 * Decoding under a grammar, from the trigger to the end of the turn: what a
 * constraint, a sampler and plain decoding come to together.
 */
module MaskedRuns {
  import opened Tools
  import opened Machines
  import opened CallGrammar
  import opened MaskLaws
  import opened Decoding
  import opened Options
  import opened MaskedPicks
  import opened MaskedChoosers

  /** Held to the grammar, and on the way through a turn. */
  ghost predicate InTurn(x: Setup, rules: Rules, lens: Lens, p: Progress) {
    !p.stopped && Masking(rules, p.chooser) && Viable(x.tools, x.parallel, lens.text(p.chooser.state))
  }

  /** From a step: the turn goes on, or ends whole. */
  ghost predicate Stepped(x: Setup, rules: Rules, lens: Lens, p: Progress, next: Progress)
    requires p.chooser.OnHost?
  {
    var s := lens.text(p.chooser.state);
    && 0 <= next.last < |x.pieces|
    && if next.last in x.eog then InGrammar(Tracked, x.tools, x.parallel, s)
       else
         && InTurn(x, rules, lens, next) && next.output == p.output + [next.last]
         && lens.text(next.chooser.state) == s + x.pieces[next.last]
  }

  lemma StepIs(x: Setup, rules: Rules, lens: Lens, p: Progress)
    requires p.chooser.OnHost? && EosEnds(x, rules)
    requires PicksOn(x, rules, lens, p.chooser.state, rules.row(p.history + [p.last]))
    ensures Stepped(x, rules, lens, p, PlainStep(rules, p))
  {
  }

  /** The bytes of tokens of the vocabulary. */
  function Spelled(pieces: seq<Bytes>, tokens: seq<Token>): Bytes {
    if tokens == [] then []
    else
      var k := |tokens| - 1;
      Spelled(pieces, tokens[..k]) + if 0 <= tokens[k] < |pieces| then pieces[tokens[k]] else []
  }

  /** `q` is in the turn that `p` was in, with everything put out since read. */
  ghost predicate SameTurn(x: Setup, rules: Rules, lens: Lens, p: Progress, q: Progress)
    requires p.chooser.OnHost?
  {
    && InTurn(x, rules, lens, q) && p.output <= q.output
    && lens.text(q.chooser.state) == lens.text(p.chooser.state) + Spelled(x.pieces, q.output[|p.output|..])
  }

  /** The turn is whole, and the next token picked ends it. */
  ghost predicate EndsAt(x: Setup, rules: Rules, lens: Lens, p: Progress, q: Progress)
    requires p.chooser.OnHost?
  {
    && SameTurn(x, rules, lens, p, q) && PlainStep(rules, q).last in x.eog
    && InGrammar(Tracked, x.tools, x.parallel, lens.text(q.chooser.state))
  }

  lemma SpelledMore(s: Bytes, pieces: seq<Bytes>, before: seq<Token>, tokens: seq<Token>, t: Token, from: nat)
    requires from <= |before| && tokens == before + [t] && 0 <= t < |pieces|
    ensures s + Spelled(pieces, tokens[from..]) == s + Spelled(pieces, before[from..]) + pieces[t]
  {
    SpelledLast(pieces, before[from..], t);
    assert tokens[from..] == before[from..] + [t];
    Regroup(s, Spelled(pieces, before[from..]), pieces[t]);
  }

  lemma SpelledLast(pieces: seq<Bytes>, tokens: seq<Token>, t: Token)
    requires 0 <= t < |pieces|
    ensures Spelled(pieces, tokens + [t]) == Spelled(pieces, tokens) + pieces[t]
  {
    assert (tokens + [t])[..|tokens|] == tokens;
  }

  lemma Regroup(a: Bytes, b: Bytes, c: Bytes)
    ensures a + (b + c) == a + b + c
  {
  }

  lemma SameTurnOn(x: Setup, rules: Rules, lens: Lens, p: Progress, q: Progress, next: Progress)
    requires p.chooser.OnHost? && SameTurn(x, rules, lens, p, q) && Stepped(x, rules, lens, q, next)
    requires next.last !in x.eog
    ensures SameTurn(x, rules, lens, p, next)
  {
    SpelledMore(lens.text(p.chooser.state), x.pieces, q.output, next.output, next.last, |p.output|);
  }

  lemma SameAtFirst(x: Setup, rules: Rules, lens: Lens, p: Progress)
    requires InTurn(x, rules, lens, p)
    ensures SameTurn(x, rules, lens, p, p)
  {
    assert p.output[|p.output|..] == [] && lens.text(p.chooser.state) + [] == lens.text(p.chooser.state);
  }

  /** No excluded token can be drawn from where the run is. */
  ghost predicate SafeAt(x: Setup, rules: Rules, lens: Lens, q: Progress)
    requires WellFormed(x.m)
  {
    q.chooser.OnHost? ==> SafeFor(x, rules, lens, q.chooser.state, rules.row(q.history + [q.last]))
  }

  /** Held to the grammar, a chooser whose draw is of no excluded token goes on with its turn. */
  ghost predicate PicksAlways(x: Setup, rules: Rules, lens: Lens)
    requires WellFormed(x.m)
  {
    && (forall tokens: seq<Token> {:trigger rules.row(tokens)} :: |rules.row(tokens)| == |x.pieces|)
    && forall h: Host, row: Row {:trigger PicksOn(x, rules, lens, h, row)}
         | rules.masking(h) && |row| == |x.pieces| && Viable(x.tools, x.parallel, lens.text(h))
           && SafeFor(x, rules, lens, h, row) ::
         PicksOn(x, rules, lens, h, row)
  }

  lemma DrivenPicksAlways(x: Setup, rules: Rules, lens: Lens)
    requires Drives(x, rules, lens)
    ensures PicksAlways(x, rules, lens)
  {
    forall h: Host, row: Row | rules.masking(h) && |row| == |x.pieces| && Viable(x.tools, x.parallel, lens.text(h))
                               && SafeFor(x, rules, lens, h, row)
      ensures PicksOn(x, rules, lens, h, row)
    {
      DrivenPicksOn(x, rules, lens, h, row);
    }
  }

  /** One step of a masked run: the turn ends whole, or goes on. */
  lemma StepFrom(x: Setup, rules: Rules, lens: Lens, p: Progress, q: Progress)
    requires EosEnds(x, rules) && p.chooser.OnHost? && SameTurn(x, rules, lens, p, q)
    requires PicksOn(x, rules, lens, q.chooser.state, rules.row(q.history + [q.last]))
    ensures EndsAt(x, rules, lens, p, q) || SameTurn(x, rules, lens, p, PlainStep(rules, q))
  {
    StepIs(x, rules, lens, q);
    if PlainStep(rules, q).last !in x.eog {
      SameTurnOn(x, rules, lens, p, q, PlainStep(rules, q));
    }
  }

  lemma RunOnward(x: Setup, rules: Rules, lens: Lens, p: Progress, n: nat) returns (end: Option<nat>, q: Progress)
    requires WellFormed(x.m) && EosEnds(x, rules) && PicksAlways(x, rules, lens) && InTurn(x, rules, lens, p)
    requires forall i: nat | i < n :: SafeAt(x, rules, lens, PlainRun(rules, p, i))
    ensures end.None? ==> q == PlainRun(rules, p, n) && SameTurn(x, rules, lens, p, q)
    ensures end.Some? ==> end.value < n && q == PlainRun(rules, p, end.value) && EndsAt(x, rules, lens, p, q)
  {
    SameAtFirst(x, rules, lens, p);
    var holds, ends := (q: Progress) => SameTurn(x, rules, lens, p, q), (q: Progress) => EndsAt(x, rules, lens, p, q);
    forall i: nat | i < n && holds(PlainRun(rules, p, i))
      ensures KeepsOn(rules, PlainRun(rules, p, i), holds, ends)
    {
      var q := PlainRun(rules, p, i);
      assert PicksOn(x, rules, lens, q.chooser.state, rules.row(q.history + [q.last]));
      StepFrom(x, rules, lens, p, q);
    }
    end, q := RunUntil(rules, p, n, holds, ends);
  }

  /**
   * From the trigger on, the output of a masked run is the beginning of a turn,
   * up to the first token that ends it, if one does, and there it is a whole one.
   */
  lemma RunInTurn(x: Setup, rules: Rules, lens: Lens, p: Progress, n: nat) returns (end: Option<nat>, q: Progress)
    requires Drives(x, rules, lens) && InTurn(x, rules, lens, p)
    requires forall i: nat | i < n :: SafeAt(x, rules, lens, PlainRun(rules, p, i))
    ensures end.None? ==> q == PlainRun(rules, p, n) && SameTurn(x, rules, lens, p, q)
    ensures end.Some? ==> end.value < n && q == PlainRun(rules, p, end.value) && EndsAt(x, rules, lens, p, q)
  {
    DrivenPicksAlways(x, rules, lens);
    end, q := RunOnward(x, rules, lens, p, n);
  }

  /** A run that has ended has put out just what it had when the turn was whole. */
  lemma EndedRun(rules: Rules, p: Progress, i: nat, n: nat)
    requires i < n && !PlainRun(rules, p, i).stopped && PlainStep(rules, PlainRun(rules, p, i)).stopped
    ensures PlainRun(rules, p, n) == PlainStep(rules, PlainRun(rules, p, i))
  {
    assert PlainRun(rules, p, i + 1) == PlainStep(rules, PlainRun(rules, p, i));
    RunOn(rules, p, i + 1, n - i - 1);
    StoppedStays(rules, PlainRun(rules, p, i + 1), n - i - 1);
  }

  /**
   * Where decoding stops on every token that ends a turn, all of the output since
   * the trigger is the beginning of a turn, and when decoding has stopped, a whole
   * one.
   */
  lemma OutputIsTurn(x: Setup, rules: Rules, lens: Lens, p: Progress, n: nat)
    requires Drives(x, rules, lens) && InTurn(x, rules, lens, p)
    requires forall i: nat | i < n :: SafeAt(x, rules, lens, PlainRun(rules, p, i))
    requires forall z | z in x.eog :: rules.eos == Some(z)
    ensures var q := PlainRun(rules, p, n);
            && p.output <= q.output
            && var s := lens.text(p.chooser.state) + Spelled(x.pieces, q.output[|p.output|..]);
            if q.stopped then InGrammar(Tracked, x.tools, x.parallel, s) else Viable(x.tools, x.parallel, s)
  {
    var end, q := RunInTurn(x, rules, lens, p, n);
    if end.Some? {
      EndedRun(rules, p, end.value, n);
    }
  }

  /** A token that ends a turn and is not the one decoding stops on: from there on the mask may well be gone. */
  lemma OtherEndGoesOn(x: Setup, rules: Rules, lens: Lens, q: Progress)
    requires Drives(x, rules, lens) && InTurn(x, rules, lens, q)
    requires PlainStep(rules, q).last in x.eog && rules.eos != Some(PlainStep(rules, q).last)
    requires PlainStep(rules, q).last < |x.pieces|
    ensures var next := PlainStep(rules, q);
            && !next.stopped
            && (Masking(rules, next.chooser) <==>
                Viable(x.tools, x.parallel, lens.text(q.chooser.state) + x.pieces[next.last]))
  {
    var h, row := q.chooser.state, rules.row(q.history + [q.last]);
    assert ChoiceOk(x, rules, lens, h, row);
    SurvivesIffViable(x.m, x.owner, x.tools, x.parallel, lens.text(h) + x.pieces[PlainStep(rules, q).last]);
  }
}
