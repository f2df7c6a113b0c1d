/** Choosing one token under a constraint: the row masked, a token picked from it, and the constraint told. */
module Choices {
  import opened Tools
  import opened Machines
  import opened Vocabs
  import opened MaskLaws
  import opened Watching
  import opened Constraints
  import opened Attention
  import opened Samplers
  import opened MaskedPicks
  import opened Decoding

  /** What the constraint has read: the output from the trigger on. */
  ghost function TextOf(c: ToolConstraint): Bytes
    reads c
  {
    var watch, text := Watched(c.machine.triggers, c.seen), Concat(c.seen);
    if watch.Reading? && watch.at <= |text| then text[watch.at..] else []
  }

  /** The constraint is one for this grammar and this vocabulary. */
  ghost predicate For(c: ToolConstraint, x: Setup) {
    c.machine == x.m && c.spellings == x.pieces && c.vocab.eog == x.eog
  }

  /** A constraint is masking for as long as the machine is alive on what it has read. */
  lemma MaskingMeans(c: ToolConstraint, x: Setup)
    requires c.Valid() && For(c, x) && c.armed
    ensures WellFormed(x.m) && Elements(c.cursors) == RunSet(x.m, StartSet(x.m), TextOf(c))
    ensures c.IsMasking() <==> RunSet(x.m, StartSet(x.m), TextOf(c)) != {}
  {
  }

  /** The first of the largest; of a row with nothing left, the first. */
  method Argmax(row: seq<Logit>) returns (best: nat)
    requires row != []
    ensures best < |row| && forall l | l in row :: AtLeast(row[best], l)
    ensures forall i | 0 <= i < best :: !AtLeast(row[i], row[best])
    ensures forall l | l in row && l.Finite? :: row[best].Finite? && l.value <= row[best].value
  {
    best := 0;
    var largest := NegInf;
    for i := 0 to |row|
      invariant best < |row| && if largest.NegInf? then best == 0 else best < i && row[best] == largest
      invariant forall j | 0 <= j < i :: AtLeast(largest, row[j])
      invariant forall j | 0 <= j < best :: !AtLeast(row[j], row[best])
    {
      if !AtLeast(largest, row[i]) {
        largest, best := row[i], i;
      }
    }
  }

  /** A token from a row: drawn, or without a sampler the largest. */
  method PickFrom(x: Setup, row: seq<Logit>, u: real, sampled: bool,
                  select: (seq<Candidate>, nat) -> seq<Candidate>, sort: seq<Candidate> -> seq<Candidate>)
    returns (t: nat)
    requires Exponential(x.e) && x.params.temperature > 0.0 && x.params.minP <= 1.0 && 0.0 <= u < 1.0
    requires Selects(select) && Sorts(sort) && !NothingLeft(row)
    ensures t < |row| && Picked(x, row, u, sampled, t)
  {
    if sampled {
      ghost var max, kept;
      t, max, kept := Sample(x.e, x.params, row, u, select, sort);
    } else {
      t := Argmax(row);
    }
  }

  /** The row a constraint that is masking leaves. */
  method MaskRow(c: ToolConstraint, x: Setup, row: Row) returns (masked: seq<Logit>)
    requires c.Valid() && c.IsMasking() && For(c, x) && |row| == |x.pieces| && WellFormed(x.m)
    ensures masked == MaskedRow(x, TextOf(c), row)
  {
    ghost var paths :| VocabFor(c.vocab, c.spellings, paths);
    MaskingMeans(c, x);
    var logits := new Logit[|row|](i requires 0 <= i < |row| => Finite(row[i]));
    c.Mask(logits);
    masked := logits[..];
  }

  lemma NotNothing(c: ToolConstraint, x: Setup, row: Row)
    requires Ready(x) && c.Valid() && c.IsMasking() && For(c, x) && |row| == |x.pieces|
    ensures !NothingLeft(MaskedRow(x, TextOf(c), row))
  {
    MaskingMeans(c, x);
    SurvivesIffViable(x.m, x.owner, x.tools, x.parallel, TextOf(c));
    MaskedLeavesSome(x, TextOf(c), row);
  }

  /**
   * One token of a sequence under a constraint that is masking: picked from the
   * masked row, and read by the constraint, which goes on masking for as long as
   * the machine is alive. This is what `ChoiceOk` asks of a chooser.
   */
  method ChooseUnder(c: ToolConstraint, x: Setup, row: Row, u: real, sampled: bool,
                     select: (seq<Candidate>, nat) -> seq<Candidate>, sort: seq<Candidate> -> seq<Candidate>)
    returns (t: nat)
    requires Ready(x) && c.Valid() && c.IsMasking() && For(c, x) && |row| == |x.pieces|
    requires 0.0 <= u < 1.0 && Selects(select) && Sorts(sort)
    modifies c
    ensures c.Valid() && For(c, x) && t < |x.pieces|
    ensures Picked(x, MaskedRow(x, old(TextOf(c)), row), u, sampled, t)
    ensures TextOf(c) == old(TextOf(c)) + x.pieces[t]
    ensures c.IsMasking() <==> RunSet(x.m, StartSet(x.m), TextOf(c)) != {}
  {
    NotNothing(c, x, row);
    var masked := MaskRow(c, x, row);
    t := PickFrom(x, masked, u, sampled, select, sort);
    Tell(c, x, t);
  }

  /** Tell the constraint of a token. */
  method Tell(c: ToolConstraint, x: Setup, t: nat)
    requires c.Valid() && c.armed && For(c, x) && t < |x.pieces| && WellFormed(x.m)
    modifies c
    ensures c.Valid() && TextOf(c) == old(TextOf(c)) + x.pieces[t]
    ensures c.IsMasking() <==> RunSet(x.m, StartSet(x.m), TextOf(c)) != {}
  {
    OnePiece(x.m.triggers, c.seen, x.pieces[t]);
    ghost var at, text := Watched(x.m.triggers, c.seen).at, Concat(c.seen);
    assert (text + x.pieces[t])[at..] == text[at..] + x.pieces[t];
    c.Observe(t);
    MaskingMeans(c, x);
  }
}
