/**
 * A request from admission to its last token, whichever way it was admitted,
 * however its prompt was scheduled and whatever was drafted for it.
 */
module Driving {
  import opened Division
  import opened Decoding
  import opened States
  import opened Retentions
  import opened Shapes
  import opened Serving
  import opened Prefilling
  import opened Admission
  import opened Options
  import Arenas

  /** How much prompt each step takes on, what is drafted before each decode step, and in which form it runs. */
  datatype Schedule = Schedule(budget: nat -> nat, drafts: nat -> seq<Token>, batched: nat -> bool, minimum: nat)

  /** Drafters leave room for the last token in the window. */
  ghost predicate FitsWindow(schedule: Schedule, window: nat) {
    forall n: nat {:trigger schedule.drafts(n)} :: schedule.drafts(n) == [] || |schedule.drafts(n)| < window
  }

  /** A budget cut to the work there is; a step always takes on some. */
  function Slice(budget: nat, remaining: nat): (tokens: nat)
    requires remaining > 0
    ensures tokens == if budget == 0 then 1 else if budget < remaining then budget else remaining
  {
    Max(Min(budget, remaining), 1)
  }

  /** The whole prompt, stretch by stretch: how it was cut does not show in the first token. */
  method PrefillAll(q: RuntimeSequence, net: Net, rules: Rules, plan: Plan, schedule: Schedule)
    returns (records: seq<Record>)
    requires Agrees(net, rules) && HostOk(rules)
    requires q.Valid(net) && !q.decoding && !Masking(rules, q.chooser) && q.prefilled < |q.prompt| && q.maxOutput > 0
    requires Built(plan) && plan.interval == q.retention.interval
    modifies q, q.state, q.state.kv, q.retention, q.retention.arena
    ensures q.Valid(net) && q.decoding && q.Reports(net, rules, records)
    ensures q.progress == FirstToken(rules, q.stream, old(DrawsFrom(q, rules)))
  {
    ghost var from, chooser := DrawsFrom(q, rules), q.chooser;
    records := [];
    while q.prefilled < |q.prompt|
      invariant q.Valid(net) && (q.decoding <==> q.prefilled == |q.prompt|)
      invariant !q.decoding ==> q.chooser == chooser && DrawsFrom(q, rules) == from
      invariant !q.decoding ==> Begins(q, net, rules, records)
      invariant q.decoding ==> q.progress == FirstToken(rules, q.stream, from) && q.Reports(net, rules, records)
    {
      var budget := Slice(schedule.budget(q.prefilled), |q.prompt| - q.prefilled);
      records := PrefillSome(q, net, rules, plan, budget, records);
    }
  }

  /** What has been retained of a prompt not yet through. */
  ghost predicate Begins(q: RuntimeSequence, net: Net, rules: Rules, records: seq<Record>)
    reads q, q.retention, q.retention.arena
  {
    && AllDescribe(net, rules, q.retention.arena.captured, q.stream, |q.prompt|, {}, records)
    && forall r | r in records :: r.position < |q.stream|
  }

  /** One stretch more. */
  method PrefillSome(q: RuntimeSequence, net: Net, rules: Rules, plan: Plan, tokens: nat, reported: seq<Record>)
    returns (records: seq<Record>)
    requires Agrees(net, rules) && HostOk(rules)
    requires q.Valid(net) && !q.decoding && !Masking(rules, q.chooser) && q.maxOutput > 0
    requires 0 < tokens <= |q.prompt| - q.prefilled && Begins(q, net, rules, reported)
    requires Built(plan) && plan.interval == q.retention.interval
    modifies q, q.state, q.state.kv, q.retention, q.retention.arena
    ensures q.Valid(net) && q.prefilled == old(q.prefilled) + tokens && (q.decoding <==> q.prefilled == |q.prompt|)
    ensures !q.decoding ==>
              && q.chooser == old(q.chooser) && DrawsFrom(q, rules) == old(DrawsFrom(q, rules))
              && Begins(q, net, rules, records)
    ensures q.decoding ==>
              q.progress == FirstToken(rules, q.stream, old(DrawsFrom(q, rules))) && q.Reports(net, rules, records)
  {
    ghost var captured, begun := q.retention.arena.captured, BegunAt(q);
    var widths, more := ExecutePrefill(q, net, rules, plan, tokens);
    records := reported + more;
    if !q.decoding {
      DrawsFromStays(q, rules, begun);
    }
    DescribeOn(net, rules, captured, q.retention.arena.captured, q.stream,
               if q.decoding then q.Whole() else q.stream, |q.prompt|, {}, {}, reported);
  }

  // ----- decoding -----

  /** Plain decoding has come from `first` to `p` in `n` steps, none of them past the cap. */
  ghost predicate Came(rules: Rules, first: Progress, p: Progress, n: nat, cap: nat, generated: seq<Token>) {
    && p.output == first.output + generated && |first.output| <= cap && n <= cap - |first.output|
    && p == PlainRun(rules, first, n)
    && (!p.stopped ==> |p.output| == |first.output| + n)
  }

  /** Plain decoding from `first` with this cap ends at `p`. */
  ghost predicate Ended(rules: Rules, first: Progress, p: Progress, cap: nat) {
    |first.output| <= cap && Finished(p, cap) && p == PlainRun(rules, first, cap - |first.output|)
  }

  /** One decode step, of whatever form, brings plain decoding on. */
  lemma CameOn(rules: Rules, stream: seq<Token>, first: Progress, p: Progress, n: nat, cap: nat,
               generated: seq<Token>, step: Step, next: Progress, more: seq<Token>)
    returns (m: nat)
    requires Tracks(stream, first) && Came(rules, first, p, n, cap, generated) && !Finished(p, cap)
    requires next == ServeStep(rules, p, cap, step) && next.output == p.output + more
    ensures Came(rules, first, next, m, cap, generated + more)
    ensures p.output <= next.output && p.masked <= next.masked
    ensures next.stopped || |next.output| > |p.output|
  {
    RunTracks(rules, stream, first, n);
    var d := ServeStepIsPlain(rules, stream, p, cap, step);
    RunTracks(rules, stream, p, d);
    RunOn(rules, first, n, d);
    RunFeeds(rules, p, d);
    m := n + d;
  }

  lemma CameToTheEnd(rules: Rules, stream: seq<Token>, first: Progress, p: Progress, n: nat, cap: nat,
                     generated: seq<Token>)
    requires Tracks(stream, first) && Came(rules, first, p, n, cap, generated) && Finished(p, cap)
    ensures Ended(rules, first, p, cap)
  {
    RunIsComplete(rules, stream, first, n, cap - |first.output|);
  }

  lemma StreamLeads(stream: seq<Token>, before: seq<Token>, output: seq<Token>)
    requires before <= output
    ensures stream + before <= stream + output
  {
  }

  /** One decode step more. */
  method DecodeSome(q: RuntimeSequence, net: Net, rules: Rules, proposal: seq<Token>, minimum: nat, batched: bool,
                    before: seq<Token>, reported: seq<Record>, ghost first: Progress, ghost n: nat)
    returns (generated: seq<Token>, records: seq<Record>, ghost m: nat)
    requires Agrees(net, rules) && HostOk(rules)
    requires q.Valid(net) && q.Live() && (proposal == [] || |proposal| < q.window)
    requires Tracks(q.stream, first) && Came(rules, first, q.progress, n, q.maxOutput, before)
    requires q.Reports(net, rules, reported)
    modifies q, q.state, q.state.kv, q.retention, q.retention.arena
    ensures q.Valid(net) && q.decoding && Came(rules, first, q.progress, m, q.maxOutput, generated)
    ensures q.emitted > old(q.emitted)
    ensures q.Reports(net, rules, records)
  {
    ghost var p, captured, whole := q.progress, q.retention.arena.captured, q.Whole();
    ghost var step;
    var tokens, more;
    tokens, more, step := q.DecodeStep(net, rules, proposal, minimum, batched);
    m := CameOn(rules, q.stream, first, p, n, q.maxOutput, before, step, q.progress, tokens);
    generated, records := before + tokens, reported + more;
    StreamLeads(q.stream, p.output, q.progress.output);
    q.ReportsOn(net, rules, captured, whole, p.masked, reported, more);
  }

  /** Decode until the sequence is finished: it is where plain decoding with the same cap ends. */
  method DecodeAll(q: RuntimeSequence, net: Net, rules: Rules, schedule: Schedule, reported: seq<Record>)
    returns (generated: seq<Token>, records: seq<Record>)
    requires Agrees(net, rules) && HostOk(rules) && q.Valid(net) && q.decoding && FitsWindow(schedule, q.window)
    requires q.Reports(net, rules, reported)
    modifies q, q.state, q.state.kv, q.retention, q.retention.arena
    ensures q.Valid(net) && q.decoding && q.Reports(net, rules, records)
    ensures Ended(rules, old(q.progress), q.progress, q.maxOutput)
    ensures q.progress.output == old(q.progress).output + generated
  {
    ghost var first, n := q.progress, 0;
    generated, records := [], reported;
    while q.emitted < q.maxOutput
      invariant q.Valid(net) && q.decoding && q.Reports(net, rules, records)
      invariant Came(rules, first, q.progress, n, q.maxOutput, generated)
      decreases q.maxOutput - q.emitted
    {
      generated, records, n := DecodeSome(q, net, rules, schedule.drafts(q.emitted), schedule.minimum,
                                          schedule.batched(q.emitted), generated, records, first, n);
    }
    CameToTheEnd(rules, q.stream, first, q.progress, n, q.maxOutput, generated);
  }

  // ----- the whole of it -----

  /** An admitted sequence to its last token. */
  method Serve(q: RuntimeSequence, net: Net, rules: Rules, plan: Plan, schedule: Schedule)
    returns (output: seq<Token>, records: seq<Record>)
    requires Agrees(net, rules) && HostOk(rules)
    requires q.Valid(net) && !q.decoding && !Masking(rules, q.chooser) && q.prefilled < |q.prompt| && q.maxOutput > 0
    requires Built(plan) && plan.interval == q.retention.interval && FitsWindow(schedule, q.window)
    modifies q, q.state, q.state.kv, q.retention, q.retention.arena
    ensures q.Valid(net) && q.decoding && q.Reports(net, rules, records) && output == q.progress.output
    ensures Ended(rules, FirstToken(rules, q.stream, old(DrawsFrom(q, rules))), q.progress, q.maxOutput)
  {
    records := PrefillAll(q, net, rules, plan, schedule);
    output := if rules.eos == q.nextToken then [] else [q.nextToken.value];
    var more;
    more, records := DecodeAll(q, net, rules, schedule, records);
    output := output + more;
  }

  /** A snapshot of part of a prompt may always be built on; of all of it, only where it names a token to go on with. */
  predicate MayRestore(rules: Rules, request: Request, record: Record) {
    record.position < |request.prompt| || (!Sampled(rules, request.chooser) && record.next.Some?)
  }

  /** A prompt restored whole, to its last token. */
  method ServeWhole(q: RuntimeSequence, net: Net, rules: Rules, schedule: Schedule)
    returns (output: seq<Token>, records: seq<Record>)
    requires Agrees(net, rules) && HostOk(rules)
    requires q.Valid(net) && !q.decoding && q.prefilled == |q.prompt| && q.maxOutput > 0
    requires q.nextToken.Some? && FitsWindow(schedule, q.window)
    modifies q, q.state, q.state.kv, q.retention, q.retention.arena
    ensures q.Valid(net) && q.decoding && q.Reports(net, rules, records) && output == q.progress.output
    ensures Ended(rules, old(FirstGiven(rules, q.stream, q.chooser, q.nextToken.value)), q.progress, q.maxOutput)
  {
    var ok := ResumeWhole(q, net, rules);
    output := if rules.eos == q.nextToken then [] else [q.nextToken.value];
    var more;
    more, records := DecodeAll(q, net, rules, schedule, []);
    output := output + more;
  }

  /** What a request is resumed from: a snapshot, the stream it was taken of, and where a grammar picked its tokens. */
  datatype Origin = Origin(record: Record, made: seq<Token>, promptLen: nat, masked: set<nat>)

  /** A snapshot handed out for a prompt: held, as it was reported, and of a beginning of that prompt. */
  ghost predicate Handed(origin: Origin, net: Net, rules: Rules, arena: Arenas.SnapshotArena, request: Request)
    reads arena
  {
    && origin.record.id in arena.pool.handles
    && Describes(net, rules, arena.captured, origin.made, origin.promptLen, origin.masked, origin.record)
    && origin.made[..origin.record.position] <= request.prompt && MayRestore(rules, request, origin.record)
  }

  /** A prompt restored whole, from a snapshot whose maker was masking when it picked the token that follows. */
  ghost predicate Forced(request: Request, origin: Origin) {
    origin.record.position == |request.prompt| && origin.record.position in origin.masked
  }

  /** The snapshot of a whole prompt names another token than the argmax there. */
  predicate NamesOther(rules: Rules, request: Request, record: Record) {
    && record.position == |request.prompt| && record.next.Some?
    && record.next.value != rules.argmax(rules.row(request.prompt))
  }

  /**
   * A request resumed from a snapshot puts out what plain decoding would, as a
   * cold one does, unless the snapshot is of the whole prompt, its maker was
   * masking there, and the token it picked is not the argmax.
   */
  method ServeResumed(net: Net, rules: Rules, plan: Plan, schedule: Schedule, arena: Arenas.SnapshotArena,
                      request: Request, record: Record, ghost origin: Origin)
    returns (q: RuntimeSequence, output: seq<Token>, records: seq<Record>)
    requires Agrees(net, rules) && HostOk(rules) && FitsWindow(schedule, request.window)
    requires Built(plan) && plan.interval == arena.interval && arena.Valid()
    requires request.maxOutput > 0 && !Masking(rules, request.chooser)
    requires origin.record == record && Handed(origin, net, rules, arena, request)
    modifies arena
    ensures q.Valid(net) && q.decoding && q.Reports(net, rules, records) && output == q.progress.output
    ensures q.stream == request.prompt
    ensures !Forced(request, origin) || !NamesOther(rules, request, record) ==>
              var out := RunsOut(arena.interval, false, old(arena.Available()), record.position, |request.prompt|);
              var from := DrawnFrom(rules, request.chooser, rules.row(request.prompt), out);
              Ended(rules, FirstToken(rules, request.prompt, from), q.progress, request.maxOutput)
  {
    ghost var held := origin.made[..record.position];
    if record.position == |request.prompt| {
      assert held == request.prompt;
    }
    var admitted := AdmitRestored(net, arena, request, record, held);
    q := admitted;
    if record.position < |request.prompt| {
      output, records := Serve(q, net, rules, plan, schedule);
    } else {
      GivenIsFirst(rules, request.prompt, request.chooser, record.next.value);
      output, records := ServeWhole(q, net, rules, schedule);
    }
  }

  /** A request from a cold start, and its first token's sampler. */
  method ServeCold(net: Net, rules: Rules, plan: Plan, schedule: Schedule, arena: Arenas.SnapshotArena,
                   request: Request)
    returns (q: RuntimeSequence, output: seq<Token>, records: seq<Record>)
    requires Agrees(net, rules) && HostOk(rules) && FitsWindow(schedule, request.window)
    requires Built(plan) && plan.interval == arena.interval && arena.Valid()
    requires request.prompt != [] && request.maxOutput > 0 && !Masking(rules, request.chooser)
    modifies arena
    ensures q.Valid(net) && q.decoding && q.Reports(net, rules, records) && output == q.progress.output
    ensures q.stream == request.prompt
    ensures var out := RunsOut(arena.interval, false, old(arena.Available()), 0, |request.prompt|);
            var from := DrawnFrom(rules, request.chooser, rules.row(request.prompt), out);
            Ended(rules, FirstToken(rules, request.prompt, from), q.progress, request.maxOutput)
  {
    q := Admit(net, arena, request);
    output, records := Serve(q, net, rules, plan, schedule);
  }

  // ----- where it is not plain decoding -----

  /** A model that says nothing. */
  function Mute(): Net {
    Net([], (recurrent: Recurrent, slots: seq<Slot>, token: Token) => Pass([], [], []))
  }

  /**
   * A token drawn twice does happen: for any prompt that ends on a multiple of
   * the interval, in an arena with a slot for every multiple but the last. The
   * sampler's second draw is put out in place of its first.
   */
  method DrawTwice(prompt: seq<Token>, interval: nat) returns (q: RuntimeSequence)
    requires interval > 0 && prompt != [] && |prompt| % interval == 0
    ensures q.stream == prompt && q.decoding && q.progress != FirstToken(Counting(), prompt, OnHost([]))
  {
    CrossAll(interval, |prompt|);
    var arena := new Arenas.SnapshotArena(interval, seq(|prompt| / interval - 1, _ => Arenas.Buffers([], [])));
    q := Admit(Mute(), arena, Request(prompt, 1, 0, OnHost([])));
    var tails := BuildTails(1, interval, 1);
    CountsTwice(prompt);
    var widths, records := ExecutePrefill(q, Mute(), Counting(), Plan(1, interval, tails, 1), |prompt|);
  }

  /** No sampler; a grammar that lets the first token be the argmax, 0, and asks for 1 from then on. */
  function AsksForOne(): (rules: Rules)
    ensures HostOk(rules)
  {
    Rules((tokens: seq<Token>) => [], (row: Row) => 0, (state: Host, row: Row) => (if state == [] then 0 else 1, state),
          (state: Host, token: Token) => state + [token], (state: Host) => state != [], (state: Host) => false, None)
  }

  lemma ZeroFirst(prompt: seq<Token>, out: bool)
    ensures var rules := AsksForOne();
            FirstToken(rules, prompt, DrawnFrom(rules, OnHost([]), rules.row(prompt), out))
            == Progress(prompt, 0, OnHost([0]), [0], {}, false)
  {
    var none: Host := [];
    assert none + [0] == [0];
  }

  /** No slot goes before the first multiple, which is due one. */
  lemma NoneTaken(interval: nat, stock: nat, position: nat, disabled: bool, left: nat)
    requires Stocked(interval, false, stock, 0, position, disabled, left) && position < interval
    ensures !disabled && left == stock && Due(interval, disabled, position, interval)
  {
    ModIs(interval, 0, position);
    ModIs(interval, 1, 0);
  }

  /** A sequence under that grammar, its first token out. */
  method StartMasked(token: Token) returns (q: RuntimeSequence)
    ensures fresh(q) && fresh(q.retention) && fresh(q.retention.arena) && fresh(q.state) && fresh(q.state.kv)
    ensures q.Valid(Mute()) && q.Live() && q.stream == q.prompt == [token] && q.retention.arena.interval == 2
    ensures q.progress == Progress([token], 0, OnHost([0]), [0], {}, false) && q.retention.Takes(1, 2)
  {
    var arena := new Arenas.SnapshotArena(2, [Arenas.Buffers([], [])]);
    q := Admit(Mute(), arena, Request([token], 2, 0, OnHost([])));
    var tails := BuildTails(1, 2, 1);
    ZeroFirst([token], OutAtEnd(q));
    var widths, records := ExecutePrefill(q, Mute(), AsksForOne(), Plan(1, 2, tails, 1), 1);
    NoneTaken(2, 1, 1, q.retention.disabled, arena.Available());
  }

  /** It retains its second token, and names the third, which the grammar asked for. */
  method MakeMasked(token: Token) returns (arena: Arenas.SnapshotArena, record: Record, ghost origin: Origin)
    ensures fresh(arena) && arena.Valid() && origin.record == record
    ensures Handed(origin, Mute(), AsksForOne(), arena, Request([token, 0], 1, 0, Device))
    ensures record.position == 2 && record.next == Some(1) && 2 in origin.masked
  {
    var q := StartMasked(token);
    arena := q.retention.arena;
    var output, taken, records := q.Round(Mute(), AsksForOne());
    record := records[0];
    origin := Origin(record, q.Whole(), 1, q.progress.masked);
  }

  /**
   * A token asked for by one request's grammar is put out by another that has
   * none: its prompt was restored whole from a snapshot that names that token.
   */
  method InheritMasked(token: Token) returns (q: RuntimeSequence)
    ensures q.stream == [token, 0] && q.decoding
    ensures q.progress != FirstToken(AsksForOne(), [token, 0], Device)
  {
    var arena, record;
    ghost var origin;
    arena, record, origin := MakeMasked(token);
    ghost var held := origin.made[..2];
    var admitted := AdmitRestored(Mute(), arena, Request([token, 0], 1, 0, Device), record, held);
    q := admitted;
    var ok := ResumeWhole(q, Mute(), AsksForOne());
    GivenIsFirst(AsksForOne(), [token, 0], Device, 1);
  }

  /** What a request puts out that is restored whole from the snapshot of a maker that went on by its own rules. */
  function Inherits(rules: Rules, prompt: seq<Token>, maker: Chooser, heir: Chooser): Progress {
    FirstGiven(rules, prompt, heir, Pick(rules, maker, rules.row(prompt)).0)
  }

  /**
   * Restoring a whole prompt is starting as plain decoding does, for all unsampled
   * makers and heirs, exactly when the maker was not masking there. Whoever takes
   * the snapshot can tell.
   */
  lemma InheritedIsFirstIff(prompt: seq<Token>, masked: bool)
    ensures (forall rules: Rules, maker: Chooser, heir: Chooser {:trigger Inherits(rules, prompt, maker, heir)}
               | HostOk(rules) && !Sampled(rules, maker) && Masking(rules, maker) == masked
                 && !Sampled(rules, heir) && !Masking(rules, heir) ::
               Inherits(rules, prompt, maker, heir) == FirstToken(rules, prompt, heir))
       <==> !masked
  {
    var rules, maker: Chooser, heir: Chooser := AsksForOne(), OnHost([0]), Device;
    assert Masking(rules, maker) && !Sampled(rules, maker);
    GivenIsFirst(rules, prompt, heir, 1);
    assert Inherits(rules, prompt, maker, heir) != FirstToken(rules, prompt, heir);
  }
}
