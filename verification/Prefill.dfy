/** Prefilling a stretch of a sequence's prompt, and its first output token. */
module Prefilling {
  import opened Division
  import opened Decoding
  import opened States
  import opened Retentions
  import Arenas
  import opened Shapes
  import opened Serving
  import opened Options

  /** Plain decoding's first token, from the row the whole prompt leaves. */
  function FirstToken(rules: Rules, prompt: seq<Token>, chooser: Chooser): Progress {
    var picked := Pick(rules, chooser, rules.row(prompt));
    var ends := rules.eos == Some(picked.0);
    Progress(prompt, picked.0, picked.1, if ends then [] else [picked.0], {}, ends)
  }

  /** The chooser once its sampler has drawn, before it has taken note of the token. */
  function Drawn(rules: Rules, chooser: Chooser, row: Row): Chooser {
    if chooser.OnHost? then OnHost(rules.draw(chooser.state, row).1) else chooser
  }

  /** What a retained position leaves of the chooser and of the token to come. */
  ghost predicate AtPiece(rules: Rules, before: Chooser, row: Row, taken: Taken, atEnd: bool, chooser: Chooser,
                          nextToken: Option<Token>)
  {
    if taken.Nothing? then chooser == before
    else if atEnd && Sampled(rules, before) then
      chooser == Drawn(rules, before, row) && nextToken == Some(rules.draw(before.state, row).0)
    else chooser == before && nextToken == Some(rules.argmax(row))
  }

  // ----- what is recorded -----

  /**
   * A snapshot of the beginning of a prompt names the plain prediction after
   * it, or nothing: a sampler's draw at the prompt's end is not named.
   */
  ghost predicate Predicts(net: Net, rules: Rules, captured: map<nat, Memory>, stream: seq<Token>, sampled: bool,
                           limit: nat, record: Record)
  {
    && record.position <= limit && record.position <= |stream| && record.id in captured
    && captured[record.id] == After(net, stream[..record.position])
    && (record.next.Some? ==> record.next == Some(rules.argmax(rules.row(stream[..record.position])))
                              && !(sampled && record.position == |stream|))
  }

  ghost predicate AllPredict(net: Net, rules: Rules, captured: map<nat, Memory>, stream: seq<Token>, sampled: bool,
                             limit: nat, records: seq<Record>)
  {
    forall i | 0 <= i < |records| :: Predicts(net, rules, captured, stream, sampled, limit, records[i])
  }

  lemma PredictOn(net: Net, rules: Rules, captured: map<nat, Memory>, captured': map<nat, Memory>,
                  stream: seq<Token>, sampled: bool, limit: nat, limit': nat, records: seq<Record>, more: seq<Record>)
    requires CapturedOn(captured, captured') && limit <= limit'
    requires AllPredict(net, rules, captured, stream, sampled, limit, records)
    requires AllPredict(net, rules, captured', stream, sampled, limit', more)
    ensures AllPredict(net, rules, captured', stream, sampled, limit', records + more)
  {
    forall i | 0 <= i < |records|
      ensures Predicts(net, rules, captured', stream, sampled, limit', records[i])
    {
      assert Predicts(net, rules, captured, stream, sampled, limit, records[i]);
    }
  }

  /** The prediction at the prompt's end is the token put out there, if one is. */
  lemma PredictedIsFirst(net: Net, rules: Rules, captured: map<nat, Memory>, stream: seq<Token>, chooser: Chooser,
                         from: Chooser, limit: nat, records: seq<Record>)
    requires HostAgrees(rules) && !Masking(rules, chooser)
    requires AllPredict(net, rules, captured, stream, Sampled(rules, chooser), limit, records)
    requires !Sampled(rules, chooser) ==> from == chooser
    ensures AllDescribe(net, rules, captured, stream, |stream|, {}, records)
    ensures AllDescribe(net, rules, captured, stream + FirstToken(rules, stream, from).output, |stream|, {}, records)
    ensures forall r | r in records :: r.position <= limit
  {
    forall i | 0 <= i < |records|
      ensures Describes(net, rules, captured, stream, |stream|, {}, records[i])
      ensures Describes(net, rules, captured, stream + FirstToken(rules, stream, from).output, |stream|, {},
                        records[i])
      ensures records[i].position <= limit
    {
      assert Predicts(net, rules, captured, stream, Sampled(rules, chooser), limit, records[i]);
      var whole := stream + FirstToken(rules, stream, from).output;
      assert whole[..records[i].position] == stream[..records[i].position];
      assert stream[..|stream|] == stream;
    }
  }

  // ----- when the arena runs out -----

  /**
   * Of the positions due between `from` and `to`, the last is `to` itself, and
   * it is the first for which no slot is left.
   */
  predicate RunsOut(interval: nat, off: bool, stock: nat, from: nat, to: nat) {
    interval > 0 && !off && from < to && to % interval == 0 && Crossed(interval, from, to) == stock + 1
  }

  /** What is left at `position` of a stock of slots, one gone for every due position since `from`. */
  ghost predicate Stocked(interval: nat, off: bool, stock: nat, from: nat, position: nat, disabled: bool, left: nat) {
    && from <= position && ((interval == 0 || off) ==> disabled == off)
    && (interval > 0 && !off ==> (disabled <==> Crossed(interval, from, position) > stock)
                                 && (!disabled ==> left == stock - Crossed(interval, from, position)))
  }

  lemma StockedMore(interval: nat, off: bool, stock: nat, from: nat, position: nat, to: nat, disabled: bool, left: nat)
    requires Stocked(interval, off, stock, from, position, disabled, left)
    requires position < to && NoCross(interval, position, to)
    ensures var due := Due(interval, disabled, position, to);
            && (RunsOut(interval, off, stock, from, to) <==> due && left == 0)
            && Stocked(interval, off, stock, from, to, disabled || (due && left == 0),
                       if due && left > 0 then left - 1 else left)
  {
    if interval > 0 {
      CrossOne(interval, position, to);
      assert Crossed(interval, from, to) == Crossed(interval, from, position) + Crossed(interval, position, to);
    }
  }

  lemma CrossSome(interval: nat, position: nat, to: nat)
    requires interval > 0 && position < to && to % interval == 0
    ensures Crossed(interval, position, to) > 0
  {
    var p, t := position / interval, to / interval;
    assert interval * (t - p) == to - interval * p > 0;
    Grows(interval, t - p);
  }

  /** Whether the slots run out at `to` can be told anywhere on the way there. */
  lemma RunsOutStays(interval: nat, off: bool, stock: nat, from: nat, position: nat, to: nat, disabled: bool, left: nat)
    requires Stocked(interval, off, stock, from, position, disabled, left) && position < to
    ensures RunsOut(interval, disabled, left, position, to) <==> RunsOut(interval, off, stock, from, to)
  {
    if interval > 0 && to % interval == 0 {
      CrossSome(interval, position, to);
      assert Crossed(interval, from, to) == Crossed(interval, from, position) + Crossed(interval, position, to);
    }
  }

  // ----- one piece -----

  /** Part of the way through a stretch. */
  ghost predicate Midway(q: RuntimeSequence, net: Net, position: nat)
    reads q, q.state, q.state.kv, q.retention, q.retention.arena
  {
    && q.Roomy() && q.restored <= position <= |q.prompt| && q.retention.Valid(net, q.stream[..position])
    && !q.decoding && q.emitted == 0 && q.state.Holds(net, q.stream[..position])
  }

  /** One piece through the pass of its width. The cache always has room. */
  method RunPiece(q: RuntimeSequence, net: Net, rules: Rules, position: nat, next: nat) returns (row: Row)
    requires Agrees(net, rules) && Midway(q, net, position) && position < next <= |q.prompt|
    modifies q.state, q.state.kv
    ensures q.state.Holds(net, q.stream[..next]) && row == rules.row(q.stream[..next])
  {
    var piece := q.prompt[position..next];
    StreamGrows(q.stream, q.prompt, q.restored, position, next);
    var ok, rows := q.state.Run(net, piece, q.stream[..position]);
    assert ok && piece[..|piece|] == piece;
    assert rows[|piece| - 1] == RowAt(net, q.stream[..position] + piece[..|piece|]);
    row := rows[|piece| - 1];
  }

  /** Past what was restored, the prompt's tokens are the stream's. */
  lemma StreamGrows(stream: seq<Token>, prompt: seq<Token>, restored: nat, position: nat, next: nat)
    requires restored <= position <= next <= |prompt| == |stream|
    requires stream[restored..] == prompt[restored..]
    ensures stream[..position] + prompt[position..next] == stream[..next]
  {
    forall i | position <= i < next
      ensures prompt[i] == stream[i]
    {
      assert prompt[i] == prompt[restored..][i - restored] && stream[i] == stream[restored..][i - restored];
    }
  }

  /** The token a retained position goes with: drawn where it will be emitted, predicted elsewhere. */
  method TokenHere(q: RuntimeSequence, net: Net, rules: Rules, row: Row, position: nat, taken: Taken)
    returns (records: seq<Record>)
    requires q.StreamOk() && position <= |q.prompt| && row == rules.row(q.stream[..position])
    requires taken.Snapshot? ==>
               && taken.end == position && taken.id in q.retention.arena.captured
               && q.retention.arena.captured[taken.id] == After(net, q.stream[..position])
    modifies q`nextToken, q`chooser
    ensures AtPiece(rules, old(q.chooser), row, taken, position == |q.prompt|, q.chooser, q.nextToken)
    ensures AllPredict(net, rules, q.retention.arena.captured, q.stream, Sampled(rules, old(q.chooser)), position,
                       records)
    ensures taken.Snapshot? <==> records != []
  {
    records := [];
    if taken.Nothing? {
      return;
    }
    var sampleHere := position == |q.prompt| && Sampled(rules, q.chooser);
    if sampleHere {
      var drawn := rules.draw(q.chooser.state, row);
      q.nextToken, q.chooser := Some(drawn.0), OnHost(drawn.1);
    } else {
      q.nextToken := Some(rules.argmax(row));
    }
    if taken.Snapshot? {
      records := [Record(taken.id, position, if sampleHere then None else q.nextToken)];
    }
  }

  /** A piece, and what its end is worth retaining. */
  method PrefillPiece(q: RuntimeSequence, net: Net, rules: Rules, position: nat, next: nat)
    returns (row: Row, taken: Taken, records: seq<Record>)
    requires Agrees(net, rules) && Midway(q, net, position) && position < next <= |q.prompt|
    requires NoCross(q.retention.interval, position, next)
    modifies q, q.state, q.state.kv, q.retention, q.retention.arena
    ensures Midway(q, net, next) && q.prefilled == old(q.prefilled)
    ensures row == rules.row(q.stream[..next])
    ensures AtPiece(rules, old(q.chooser), row, taken, next == |q.prompt|, q.chooser, q.nextToken)
    ensures CapturedOn(old(q.retention.arena.captured), q.retention.arena.captured)
    ensures Arenas.Spares(old(q.retention.Holding()), q.retention.Holding())
    ensures AllPredict(net, rules, q.retention.arena.captured, q.stream, Sampled(rules, old(q.chooser)), next,
                       records)
    ensures taken.Snapshot? <==> records != []
    ensures taken.Snapshot? <==> q.retention.lastPosition == next
    ensures var due, left := old(Due(q.retention.interval, q.retention.disabled, position, next)),
                             old(q.retention.arena.Available());
            && (taken.Exhausted? <==> due && left == 0)
            && q.retention.disabled == (old(q.retention.disabled) || taken.Exhausted?)
            && q.retention.arena.Available() == if due && left > 0 then left - 1 else left
  {
    ghost var before, now := q.stream[..position], q.stream[..next];
    row := RunPiece(q, net, rules, position, next);
    taken := q.retention.Visit(net, q.state, before, now);
    records := TokenHere(q, net, rules, row, next, taken);
  }

  // ----- a stretch of pieces -----

  function Sum(widths: seq<nat>): nat {
    if widths == [] then 0 else Sum(widths[..|widths| - 1]) + widths[|widths| - 1]
  }

  /** Each piece has a pass of its own width. */
  ghost predicate HavePasses(plan: Plan, widths: seq<nat>) {
    forall w | w in widths :: PassFor(plan, w) != Missing && WidthOf(plan, PassFor(plan, w)) == w
  }

  /** Pieces that lead from one position to another. */
  ghost predicate Lead(plan: Plan, widths: seq<nat>, from: nat, to: nat) {
    from + Sum(widths) == to && HavePasses(plan, widths)
  }

  lemma LeadOn(plan: Plan, widths: seq<nat>, from: nat, to: nat, w: nat)
    requires Lead(plan, widths, from, to) && PassFor(plan, w) != Missing && WidthOf(plan, PassFor(plan, w)) == w
    ensures Lead(plan, widths + [w], from, to + w)
  {
    assert (widths + [w])[..|widths|] == widths;
  }

  /** How a stretch began: where, what chose, whether the sequence was retaining, and the slots there were. */
  datatype Begun = Begun(from: nat, chooser: Chooser, off: bool, stock: nat)

  /** Where the pieces so far have brought the chooser, the token to come and the slots. */
  ghost predicate Reached(q: RuntimeSequence, rules: Rules, begun: Begun, position: nat, row: Row, last: Taken)
    requires position <= |q.stream| == |q.prompt| && q.retention.arena.Valid()
    reads q, q.retention, q.retention.arena
  {
    && row == rules.row(q.stream[..position])
    && (last.Snapshot? <==> q.retention.lastPosition == position)
    && (last.Exhausted? <==> RunsOut(q.retention.interval, begun.off, begun.stock, begun.from, position))
    && if position == |q.prompt| then AtPiece(rules, begun.chooser, row, last, true, q.chooser, q.nextToken)
       else q.chooser == begun.chooser
  }

  ghost predicate Left(q: RuntimeSequence, begun: Begun, position: nat)
    requires q.retention.arena.Valid()
    reads q.retention, q.retention.arena
  {
    Stocked(q.retention.interval, begun.off, begun.stock, begun.from, position, q.retention.disabled,
            q.retention.arena.Available())
  }

  ghost function BegunAt(q: RuntimeSequence): Begun
    requires q.retention.arena.Valid()
    reads q, q.retention, q.retention.arena
  {
    Begun(q.prefilled, q.chooser, q.retention.disabled, q.retention.arena.Available())
  }

  /** The next piece on the way to `end`, of a width that has a pass. */
  method NextPiece(q: RuntimeSequence, net: Net, rules: Rules, plan: Plan, position: nat, end: nat,
                   before: seq<nat>, reported: seq<Record>, ghost begun: Begun)
    returns (next: nat, row: Row, last: Taken, widths: seq<nat>, records: seq<Record>)
    requires Agrees(net, rules) && Midway(q, net, position) && position < end <= |q.prompt|
    requires Built(plan) && plan.interval == q.retention.interval
    requires q.chooser == begun.chooser && Left(q, begun, position) && Lead(plan, before, begun.from, position)
    requires AllPredict(net, rules, q.retention.arena.captured, q.stream, Sampled(rules, begun.chooser), position,
                        reported)
    modifies q, q.state, q.state.kv, q.retention, q.retention.arena
    ensures position < next <= end && Lead(plan, widths, begun.from, next) && q.prefilled == old(q.prefilled)
    ensures Midway(q, net, next) && Left(q, begun, next) && Reached(q, rules, begun, next, row, last)
    ensures CapturedOn(old(q.retention.arena.captured), q.retention.arena.captured)
    ensures Arenas.Spares(old(q.retention.Holding()), q.retention.Holding())
    ensures AllPredict(net, rules, q.retention.arena.captured, q.stream, Sampled(rules, begun.chooser), next, records)
  {
    var width := ChooseWidth(plan, position, end - position);
    next, widths := position + width, before + [width];
    LeadOn(plan, before, begun.from, position, width);
    StockedMore(q.retention.interval, begun.off, begun.stock, begun.from, position, next,
                q.retention.disabled, q.retention.arena.Available());
    ghost var captured := q.retention.arena.captured;
    var more;
    row, last, more := PrefillPiece(q, net, rules, position, next);
    PredictOn(net, rules, captured, q.retention.arena.captured, q.stream, Sampled(rules, begun.chooser), position,
              next, reported, more);
    records := reported + more;
  }

  /** The scheduled tokens, cut into pieces: they add up to the work, and none passes a retained position over. */
  method RunStretch(q: RuntimeSequence, net: Net, rules: Rules, plan: Plan, end: nat, ghost begun: Begun)
    returns (row: Row, last: Taken, widths: seq<nat>, records: seq<Record>)
    requires Agrees(net, rules) && q.Valid(net) && !q.decoding && q.prefilled < end <= |q.prompt|
    requires Built(plan) && plan.interval == q.retention.interval
    requires begun == BegunAt(q)
    modifies q, q.state, q.state.kv, q.retention, q.retention.arena
    ensures q.prefilled == begun.from && Midway(q, net, end) && Reached(q, rules, begun, end, row, last)
    ensures Left(q, begun, end)
    ensures CapturedOn(old(q.retention.arena.captured), q.retention.arena.captured)
    ensures Arenas.Spares(old(q.retention.Holding()), q.retention.Holding())
    ensures Lead(plan, widths, begun.from, end)
    ensures AllPredict(net, rules, q.retention.arena.captured, q.stream, Sampled(rules, begun.chooser), end, records)
  {
    var position := q.prefilled;
    row, last, widths, records := [], Nothing, [], [];
    while position < end
      invariant position <= end && q.prefilled == begun.from && Midway(q, net, position) && Left(q, begun, position)
      invariant position < end ==> q.chooser == begun.chooser
      invariant position > begun.from ==> Reached(q, rules, begun, position, row, last)
      invariant Lead(plan, widths, begun.from, position)
      invariant CapturedOn(old(q.retention.arena.captured), q.retention.arena.captured)
      invariant Arenas.Spares(old(q.retention.Holding()), q.retention.Holding())
      invariant AllPredict(net, rules, q.retention.arena.captured, q.stream, Sampled(rules, begun.chooser), position,
                           records)
    {
      position, row, last, widths, records :=
        NextPiece(q, net, rules, plan, position, end, widths, records, begun);
    }
  }

  // ----- the first token -----

  /** The chooser once it has taken note of a token. */
  function Observed(rules: Rules, chooser: Chooser, token: Token): Chooser {
    match chooser
    case Device => Device
    case OnHost(state) => OnHost(rules.observe(state, token))
  }

  /** Decoding started off by a given token. */
  function FirstGiven(rules: Rules, prompt: seq<Token>, chooser: Chooser, token: Token): Progress {
    var ends := rules.eos == Some(token);
    Progress(prompt, token, Observed(rules, chooser, token), if ends then [] else [token], {}, ends)
  }

  /** Book the first output token. */
  method EmitFirst(q: RuntimeSequence, net: Net, rules: Rules, next: Token)
    requires Midway(q, net, |q.prompt|) && q.prefilled == |q.prompt| && q.maxOutput > 0
    modifies q
    ensures q.Valid(net) && q.decoding && q.progress == FirstGiven(rules, q.stream, old(q.chooser), next)
    ensures q.prefilled == old(q.prefilled)
  {
    assert q.stream[..|q.stream|] == q.stream;
    q.decoding, q.progress := true, FirstGiven(rules, q.stream, q.chooser, next);
    q.nextToken, q.chooser := Some(next), Observed(rules, q.chooser, next);
    q.emitted := if rules.eos == Some(next) then q.maxOutput else 1;
  }

  /** What the first token is drawn from: the sampler as it was, or as a draw left it. */
  function DrawnFrom(rules: Rules, chooser: Chooser, row: Row, runsOut: bool): Chooser {
    if Sampled(rules, chooser) && runsOut then Drawn(rules, chooser, row) else chooser
  }

  /** The token that follows the prompt: as retained here, drawn, or predicted. */
  method ChooseFirst(q: RuntimeSequence, rules: Rules, row: Row, ghost last: Taken, ghost chooser: Chooser)
    returns (next: Token)
    requires HostAgrees(rules) && !Masking(rules, chooser)
    requires Sampled(rules, Drawn(rules, chooser, row)) == Sampled(rules, chooser)
    requires last.Snapshot? <==> q.retention.lastPosition == q.state.position
    requires AtPiece(rules, chooser, row, last, true, q.chooser, q.nextToken)
    modifies q`chooser
    ensures Pick(rules, DrawnFrom(rules, chooser, row, last.Exhausted?), row)
         == (next, Observed(rules, q.chooser, next))
  {
    if q.state.position == q.retention.lastPosition {
      next := q.nextToken.value;
    } else if Sampled(rules, q.chooser) {
      var drawn := rules.draw(q.chooser.state, row);
      next, q.chooser := drawn.0, OnHost(drawn.1);
    } else {
      next := rules.argmax(row);
    }
  }

  /** A snapshot will be due at the prompt's very end, and it will be the first the arena has no slot for. */
  ghost predicate OutAtEnd(q: RuntimeSequence)
    requires q.retention.arena.Valid()
    reads q, q.retention, q.retention.arena
  {
    RunsOut(q.retention.interval, q.retention.disabled, q.retention.arena.Available(), q.prefilled, |q.prompt|)
  }

  ghost function DrawsFrom(q: RuntimeSequence, rules: Rules): Chooser
    requires q.retention.arena.Valid()
    reads q, q.retention, q.retention.arena
  {
    DrawnFrom(rules, q.chooser, rules.row(q.stream), OutAtEnd(q))
  }

  /** A stretch short of the prompt's end leaves open nothing it found settled. */
  lemma DrawsFromStays(q: RuntimeSequence, rules: Rules, begun: Begun)
    requires q.retention.arena.Valid() && Left(q, begun, q.prefilled) && q.prefilled < |q.prompt|
    requires q.chooser == begun.chooser
    ensures var out := RunsOut(q.retention.interval, begun.off, begun.stock, begun.from, |q.prompt|);
            DrawsFrom(q, rules) == DrawnFrom(rules, begun.chooser, rules.row(q.stream), out)
  {
    RunsOutStays(q.retention.interval, begun.off, begun.stock, begun.from, q.prefilled, |q.prompt|,
                 q.retention.disabled, q.retention.arena.Available());
  }

  /** The first token, chosen and booked. */
  method EmitChosen(q: RuntimeSequence, net: Net, rules: Rules, row: Row, ghost last: Taken, ghost chooser: Chooser,
                    ghost from: Chooser, ghost records: seq<Record>)
    requires HostOk(rules) && !Masking(rules, chooser)
    requires Midway(q, net, |q.prompt|) && q.prefilled == |q.prompt| && q.maxOutput > 0
    requires row == rules.row(q.stream[..|q.prompt|]) && (last.Snapshot? <==> q.retention.lastPosition == |q.prompt|)
    requires AtPiece(rules, chooser, row, last, true, q.chooser, q.nextToken)
    requires from == DrawnFrom(rules, chooser, rules.row(q.stream), last.Exhausted?)
    requires AllPredict(net, rules, q.retention.arena.captured, q.stream, Sampled(rules, chooser), |q.prompt|, records)
    modifies q
    ensures q.Valid(net) && q.decoding && q.prefilled == old(q.prefilled)
    ensures q.progress == FirstToken(rules, q.stream, from) && q.Reports(net, rules, records)
  {
    assert q.stream[..|q.prompt|] == q.stream;
    PredictedIsFirst(net, rules, q.retention.arena.captured, q.stream, chooser, from, |q.prompt|, records);
    var next := ChooseFirst(q, rules, row, last, chooser);
    EmitFirst(q, net, rules, next);
  }

  /**
   * One scheduled stretch of prompt, and the first token when it is the last.
   * A sampler draws that token once, unless the prompt ends on a retained
   * position just as the arena runs out: then it draws there, and again here.
   */
  method ExecutePrefill(q: RuntimeSequence, net: Net, rules: Rules, plan: Plan, tokens: nat)
    returns (widths: seq<nat>, records: seq<Record>)
    requires Agrees(net, rules) && HostOk(rules)
    requires q.Valid(net) && !q.decoding && !Masking(rules, q.chooser)
    requires 0 < tokens <= |q.prompt| - q.prefilled
    requires Built(plan) && plan.interval == q.retention.interval
    modifies q, q.state, q.state.kv, q.retention, q.retention.arena
    ensures q.Valid(net) && q.prefilled == old(q.prefilled) + tokens
    ensures Sum(widths) == tokens && HavePasses(plan, widths)
    ensures q.decoding ==> q.Reports(net, rules, records)
    ensures !q.decoding ==> AllDescribe(net, rules, q.retention.arena.captured, q.stream, |q.prompt|, {},
                                        records)
    ensures q.decoding <==> q.prefilled == |q.prompt| && q.maxOutput > 0
    ensures CapturedOn(old(q.retention.arena.captured), q.retention.arena.captured)
    ensures Arenas.Spares(old(q.retention.Holding()), q.retention.Holding())
    ensures forall r | r in records :: r.position <= q.prefilled
    ensures Left(q, old(BegunAt(q)), q.prefilled)
    ensures q.prefilled < |q.prompt| ==> q.chooser == old(q.chooser)
    ensures q.decoding ==>
              q.progress == FirstToken(rules, q.stream, old(DrawsFrom(q, rules)))
  {
    ghost var begun := BegunAt(q);
    ghost var from := DrawsFrom(q, rules);
    var row, last;
    var end := q.prefilled + tokens;
    row, last, widths, records := RunStretch(q, net, rules, plan, end, begun);
    q.prefilled := end;
    PredictedIsFirst(net, rules, q.retention.arena.captured, q.stream, begun.chooser, from, end, records);
    if end == |q.prompt| && q.maxOutput > 0 {
      EmitChosen(q, net, rules, row, last, begun.chooser, from, records);
    }
  }

  /**
   * A prompt restored whole: no pass is owed, and the first token is the one the
   * snapshot named. Refused when it names none.
   */
  method ResumeWhole(q: RuntimeSequence, net: Net, rules: Rules) returns (ok: bool)
    requires q.Valid(net) && !q.decoding && q.prefilled == |q.prompt| && q.maxOutput > 0
    modifies q
    ensures ok <==> old(q.nextToken).Some?
    ensures ok ==> q.Valid(net) && q.decoding
    ensures ok ==> q.progress == FirstGiven(rules, q.stream, old(q.chooser), old(q.nextToken).value)
  {
    ok := q.nextToken.Some?;
    if ok {
      EmitFirst(q, net, rules, q.nextToken.value);
    }
  }

  /** A given token is the one plain decoding starts with exactly when it is the argmax after the prompt. */
  lemma GivenIsFirst(rules: Rules, prompt: seq<Token>, chooser: Chooser, token: Token)
    requires HostAgrees(rules) && !Sampled(rules, chooser) && !Masking(rules, chooser)
    ensures FirstGiven(rules, prompt, chooser, token) == FirstToken(rules, prompt, chooser)
       <==> token == rules.argmax(rules.row(prompt))
  {
  }

  /** The first token of plain decoding starts it off. */
  lemma FirstTracks(rules: Rules, prompt: seq<Token>, chooser: Chooser)
    ensures Tracks(prompt, FirstToken(rules, prompt, chooser))
    ensures |FirstToken(rules, prompt, chooser).output| <= 1
  {
  }

  // ----- a token drawn twice -----

  /** A sampler that puts out how often it has drawn. */
  function Counting(): (rules: Rules)
    ensures HostOk(rules)
  {
    Rules((tokens: seq<Token>) => [], (row: Row) => 0, (state: Host, row: Row) => (|state|, state + [0]),
          (state: Host, token: Token) => state, (state: Host) => false, (state: Host) => true, None)
  }

  lemma CountsTwice(prompt: seq<Token>)
    ensures var rules, chooser := Counting(), OnHost([]);
            && Sampled(rules, chooser) && !Masking(rules, chooser)
            && FirstToken(rules, prompt, chooser).last == 0
            && FirstToken(rules, prompt, Drawn(rules, chooser, rules.row(prompt))).last == 1
  {
  }

  /**
   * A prefill gives every sampler the token plain decoding would, exactly when
   * the slots do not run out at the prompt's end.
   */
  lemma DrawnOnceIff(interval: nat, off: bool, stock: nat, from: nat, prompt: seq<Token>)
    ensures var out := RunsOut(interval, off, stock, from, |prompt|);
            (forall rules: Rules, chooser: Chooser {:trigger DrawnFrom(rules, chooser, rules.row(prompt), out)}
               | HostOk(rules) && !Masking(rules, chooser) ::
               FirstToken(rules, prompt, DrawnFrom(rules, chooser, rules.row(prompt), out))
               == FirstToken(rules, prompt, chooser))
            <==> !out
  {
    var rules, chooser, out := Counting(), OnHost([]), RunsOut(interval, off, stock, from, |prompt|);
    CountsTwice(prompt);
    if out {
      assert DrawnFrom(rules, chooser, rules.row(prompt), out) == Drawn(rules, chooser, rules.row(prompt));
    }
  }

  lemma CrossAll(interval: nat, to: nat)
    requires interval > 0 && to > 0 && to % interval == 0
    ensures Crossed(interval, 0, to) == to / interval > 0
  {
    CrossSome(interval, 0, to);
  }
}
