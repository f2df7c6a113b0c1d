/** One token picked under a grammar: what the mask leaves standing, and what a draw from it can be. */
module MaskedPicks {
  import opened Tools
  import opened Machines
  import opened CallGrammar
  import opened Builders
  import opened Compilers
  import opened Vocabs
  import opened Masks
  import opened MaskLaws
  import opened Attention
  import opened Samplers
  import opened Decoding

  /** A compiled grammar, a vocabulary, and a sampler's parameters. */
  datatype Setup = Setup(tools: seq<ToolSpec>, parallel: bool, m: Machine, owner: Owner, pieces: seq<Bytes>,
                         eog: seq<nat>, e: real -> real, params: Params)

  ghost predicate Ready(x: Setup) {
    && IsCompiled(x.m, x.owner, x.tools, x.parallel) && 1 <= |x.tools| <= TOOL_IDS && AllHaveLiterals(x.tools)
    && WellFormed(x.m) && NoTwins(x.pieces, x.eog) && SpellsEveryByte(x.pieces, x.eog)
    && Exponential(x.e) && x.params.temperature > 0.0 && x.params.minP <= 1.0
  }

  // ----- one token -----

  /** The row once masked, having read `s`; a machine that died on `s` masks nothing. */
  ghost function MaskedRow(x: Setup, s: Bytes, row: Row): (masked: seq<Logit>)
    requires WellFormed(x.m)
    ensures |masked| == |row|
  {
    var cs := RunSet(x.m, StartSet(x.m), s);
    seq(|row|, t requires 0 <= t < |row| =>
      if cs != {} && !Kept(x.m, cs, x.pieces, x.eog, t) then NegInf else Finite(row[t]))
  }

  /** A token picked from a row: drawn, or without a sampler the largest. */
  ghost predicate Picked(x: Setup, row: seq<Logit>, u: real, sampled: bool, t: nat)
    requires x.params.temperature > 0.0
  {
    if sampled then exists max, kept :: IsDraw(x.e, x.params, row, u, max, kept, t)
    else t < |row| && forall l | l in row :: AtLeast(row[t], l)
  }

  /** The turn goes on with this token, or ends with it where it is whole. */
  ghost predicate GoesOn(x: Setup, s: Bytes, t: nat) {
    && t < |x.pieces|
    && if t in x.eog then InGrammar(Tracked, x.tools, x.parallel, s)
       else x.pieces[t] != [] && Viable(x.tools, x.parallel, s + x.pieces[t])
  }

  lemma MaskedLeavesSome(x: Setup, s: Bytes, row: Row)
    requires Ready(x) && Viable(x.tools, x.parallel, s) && |row| == |x.pieces|
    ensures RunSet(x.m, StartSet(x.m), s) != {} && !NothingLeft(MaskedRow(x, s, row))
  {
    SurvivesIffViable(x.m, x.owner, x.tools, x.parallel, s);
    var t := SomeTokenKept(x.m, x.owner, x.tools, x.parallel, s, x.pieces, x.eog);
    assert MaskedRow(x, s, row)[t] in MaskedRow(x, s, row);
  }

  /** What the mask leaves standing is what the turn can go on with. */
  lemma StandsIff(x: Setup, s: Bytes, row: Row, t: nat)
    requires Ready(x) && Viable(x.tools, x.parallel, s) && |row| == |x.pieces| && t < |row|
    ensures MaskedRow(x, s, row)[t].Finite? <==> GoesOn(x, s, t)
  {
    SurvivesIffViable(x.m, x.owner, x.tools, x.parallel, s);
    MaskIsGrammar(x.m, x.owner, x.tools, x.parallel, s, x.pieces, x.eog, t);
  }

  lemma LargestStands(row: seq<Logit>, t: nat)
    requires !NothingLeft(row) && t < |row| && forall l | l in row :: AtLeast(row[t], l)
    ensures row[t].Finite?
  {
    var l :| l in row && l.Finite?;
    assert AtLeast(row[t], l);
  }

  /** A masked pick goes on with the turn. */
  lemma PickGoesOn(x: Setup, s: Bytes, row: Row, u: real, sampled: bool, t: nat)
    requires Ready(x) && Viable(x.tools, x.parallel, s) && |row| == |x.pieces| && 0.0 <= u < 1.0
    requires Picked(x, MaskedRow(x, s, row), u, sampled, t) && (sampled ==> Safe(x.params, MaskedRow(x, s, row), u))
    ensures GoesOn(x, s, t)
  {
    MaskedLeavesSome(x, s, row);
    var masked := MaskedRow(x, s, row);
    if sampled {
      var max, kept :| IsDraw(x.e, x.params, masked, u, max, kept, t);
      DrawIsFinite(x.e, x.params, masked, u, max, kept, t);
    } else {
      LargestStands(masked, t);
    }
    StandsIff(x, s, row, t);
  }

  lemma SomePickLeaves(x: Setup, s: Bytes, row: Row) returns (t: nat)
    requires Ready(x) && Viable(x.tools, x.parallel, s) && |row| == |x.pieces|
    requires !NothingLeft(MaskedRow(x, s, row)) && !Safe(x.params, MaskedRow(x, s, row), 0.0)
    ensures Picked(x, MaskedRow(x, s, row), 0.0, true, t) && !GoesOn(x, s, t)
  {
    var max, kept := SomeExcluded(x.e, x.params, MaskedRow(x, s, row));
    t := kept[0].token;
    assert MaskedRow(x, s, row)[t] == kept[0].logit;
    StandsIff(x, s, row, t);
  }

  /** Whatever the selection, a masked draw goes on with the turn exactly when no excluded token can be drawn. */
  lemma AlwaysGoesOnIff(x: Setup, s: Bytes, row: Row, u: real)
    requires Ready(x) && Viable(x.tools, x.parallel, s) && |row| == |x.pieces| && 0.0 <= u < 1.0
    ensures (forall t: nat | Picked(x, MaskedRow(x, s, row), u, true, t) :: GoesOn(x, s, t))
       <==> Safe(x.params, MaskedRow(x, s, row), u)
  {
    var masked := MaskedRow(x, s, row);
    MaskedLeavesSome(x, s, row);
    if Safe(x.params, masked, u) {
      forall t: nat | Picked(x, masked, u, true, t)
        ensures GoesOn(x, s, t)
      {
        PickGoesOn(x, s, row, u, true, t);
      }
    } else {
      var t := SomePickLeaves(x, s, row);
      assert u == 0.0 && Picked(x, masked, u, true, t);
    }
  }
}
