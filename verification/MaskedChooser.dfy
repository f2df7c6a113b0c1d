/** A chooser held to a grammar: what it picks goes on with the turn, or ends a whole one. */
module MaskedChoosers {
  import opened Tools
  import opened Machines
  import opened MaskLaws
  import opened Samplers
  import opened Decoding
  import opened MaskedPicks

  /** What a host chooser's state stands for: the output from the trigger on, and the generator's next number. */
  datatype Lens = Lens(text: Host -> Bytes, u: Host -> real)

  /** The token drawn is picked from the masked row, and the text stays as it was. */
  ghost predicate DrawOk(x: Setup, rules: Rules, lens: Lens, h: Host, row: Row)
    requires Ready(x)
  {
    var (t, after) := rules.draw(h, row);
    && 0.0 <= lens.u(h) < 1.0 && t >= 0 && Picked(x, MaskedRow(x, lens.text(h), row), lens.u(h), rules.sampled(h), t)
    && lens.text(after) == lens.text(h)
  }

  /** A token noted is its bytes read; the chooser goes on masking for as long as the machine is alive. */
  ghost predicate NoteOk(x: Setup, rules: Rules, lens: Lens, h: Host, t: Token)
    requires Ready(x)
  {
    0 <= t < |x.pieces| ==>
      && lens.text(rules.observe(h, t)) == lens.text(h) + x.pieces[t]
      && (rules.masking(rules.observe(h, t)) <==> RunSet(x.m, StartSet(x.m), lens.text(h) + x.pieces[t]) != {})
  }

  ghost predicate ChoiceOk(x: Setup, rules: Rules, lens: Lens, h: Host, row: Row)
    requires Ready(x)
  {
    var (t, after) := rules.draw(h, row);
    DrawOk(x, rules, lens, h, row) && NoteOk(x, rules, lens, after, t)
  }

  /** The rules are those of a sequence held to this grammar: while it is masking, it chooses as it should. */
  ghost predicate Drives(x: Setup, rules: Rules, lens: Lens) {
    && Ready(x) && EosEnds(x, rules)
    && (forall tokens: seq<Token> {:trigger rules.row(tokens)} :: |rules.row(tokens)| == |x.pieces|)
    && (forall h: Host, row: Row {:trigger ChoiceOk(x, rules, lens, h, row)}
          | rules.masking(h) && |row| == |x.pieces| :: ChoiceOk(x, rules, lens, h, row))
  }

  /** Decoding stops on a token that ends a turn, if on any. */
  predicate EosEnds(x: Setup, rules: Rules) {
    rules.eos.Some? ==> rules.eos.value in x.eog
  }

  ghost predicate SafeFor(x: Setup, rules: Rules, lens: Lens, h: Host, row: Row)
    requires WellFormed(x.m)
  {
    rules.sampled(h) ==> Safe(x.params, MaskedRow(x, lens.text(h), row), lens.u(h))
  }

  /** The token a chooser draws goes on with the turn. */
  lemma DrawGoesOn(x: Setup, rules: Rules, lens: Lens, h: Host, row: Row)
    requires Ready(x) && DrawOk(x, rules, lens, h, row) && |row| == |x.pieces|
    requires Viable(x.tools, x.parallel, lens.text(h)) && SafeFor(x, rules, lens, h, row)
    ensures GoesOn(x, lens.text(h), rules.draw(h, row).0)
  {
    PickGoesOn(x, lens.text(h), row, lens.u(h), rules.sampled(h), rules.draw(h, row).0);
  }

  /** Having taken note of it, the chooser is still masking. */
  lemma NoteGoesOn(x: Setup, rules: Rules, lens: Lens, h: Host, t: Token)
    requires Ready(x) && NoteOk(x, rules, lens, h, t) && t >= 0 && t !in x.eog && GoesOn(x, lens.text(h), t)
    ensures rules.masking(rules.observe(h, t)) && lens.text(rules.observe(h, t)) == lens.text(h) + x.pieces[t]
  {
    SurvivesIffViable(x.m, x.owner, x.tools, x.parallel, lens.text(h) + x.pieces[t]);
  }

  /** What a chooser picks goes on with the turn, and leaves it masking unless the turn is over. */
  ghost predicate PicksOn(x: Setup, rules: Rules, lens: Lens, h: Host, row: Row) {
    var (t, state) := HostPick(rules, h, row);
    && t >= 0 && GoesOn(x, lens.text(h), t)
    && (t !in x.eog ==> rules.masking(state) && lens.text(state) == lens.text(h) + x.pieces[t])
  }

  lemma ChooserPicksOn(x: Setup, rules: Rules, lens: Lens, h: Host, row: Row)
    requires Ready(x) && ChoiceOk(x, rules, lens, h, row) && |row| == |x.pieces|
    requires Viable(x.tools, x.parallel, lens.text(h)) && SafeFor(x, rules, lens, h, row)
    ensures PicksOn(x, rules, lens, h, row)
  {
    DrawGoesOn(x, rules, lens, h, row);
    var (t, after) := rules.draw(h, row);
    if t !in x.eog {
      NoteGoesOn(x, rules, lens, after, t);
    }
  }

  lemma DrivenPicksOn(x: Setup, rules: Rules, lens: Lens, h: Host, row: Row)
    requires Drives(x, rules, lens) && rules.masking(h) && |row| == |x.pieces|
    requires Viable(x.tools, x.parallel, lens.text(h)) && SafeFor(x, rules, lens, h, row)
    ensures PicksOn(x, rules, lens, h, row)
  {
    assert ChoiceOk(x, rules, lens, h, row);
    ChooserPicksOn(x, rules, lens, h, row);
  }
}
