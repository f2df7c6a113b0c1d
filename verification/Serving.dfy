/** A resident sequence: prefilled piece by piece, then decoded plainly, in rounds, or by verified windows. */
module Serving {
  import opened Decoding
  import opened Accepting
  import opened States
  import opened Retentions
  import Arenas
  import opened Options
  import opened Streams

  /** The rules' rows are the ones the device computes. */
  ghost predicate Agrees(net: Net, rules: Rules) {
    forall tokens: seq<Token> {:trigger RowAt(net, tokens)} | tokens != [] :: rules.row(tokens) == RowAt(net, tokens)
  }

  /** A draft padded to the window's fixed width with the last token. */
  function Padded(last: Token, draft: seq<Token>, window: nat): (ids: seq<Token>)
    requires |draft| < window
    ensures |ids| == window && forall j | 0 <= j <= |draft| :: ids[..j + 1] == [last] + draft[..j]
    ensures forall j | |draft| < j < window :: ids[j] == last
  {
    var ids := [last] + draft + seq(window - 1 - |draft|, _ => last);
    assert forall j | 0 <= j <= |draft| :: ids[..j + 1] == [last] + draft[..j];
    ids
  }

  lemma WindowRows(net: Net, rules: Rules, p: Progress, draft: seq<Token>,
                                       ids: seq<Token>, rows: seq<Row>, ring: seq<Recurrent>, slots: seq<Slot>)
    requires Agrees(net, rules) && |draft| < |ids| && ids == Padded(p.last, draft, |ids|)
    requires Passed(net, p.history, ids, |ids|, rows, ring, slots)
    ensures RowsFor(rules, p, draft, rows)
  {
    forall j | 0 <= j <= |draft|
      ensures rows[j] == rules.row(p.history + [p.last] + draft[..j])
    {
      assert ids[..j + 1] == [p.last] + draft[..j];
      assert p.history + ids[..j + 1] == p.history + [p.last] + draft[..j];
    }
  }

  /** A retained snapshot as a step reports it: which, where it ends, and the token it names as following it. */
  datatype Record = Record(id: nat, position: nat, next: Option<Token>)

  /**
   * A snapshot of the beginning of a stream, naming what follows there: the
   * argmax after that beginning, unless a grammar was masking when it was picked.
   */
  ghost predicate Describes(net: Net, rules: Rules, captured: map<nat, Memory>, stream: seq<Token>, promptLen: nat,
                            masked: set<nat>, record: Record)
  {
    && record.position <= |stream| && record.id in captured
    && captured[record.id] == After(net, stream[..record.position])
    && Follows(stream, promptLen, record.position, record.next)
    && (record.next.Some? && record.position !in masked ==>
          record.next.value == rules.argmax(rules.row(stream[..record.position])))
  }

  ghost predicate AllDescribe(net: Net, rules: Rules, captured: map<nat, Memory>, stream: seq<Token>, promptLen: nat,
                              masked: set<nat>, records: seq<Record>)
  {
    forall i | 0 <= i < |records| :: Describes(net, rules, captured, stream, promptLen, masked, records[i])
  }

  /** What a step's snapshot is said to be followed by: a sampled sequence's own draw is not named. */
  function Name(rules: Rules, chooser: Chooser, token: Token): Option<Token> {
    if Sampled(rules, chooser) then None else Some(token)
  }

  /** The record of a snapshot, if one was taken. */
  function RecordOf(rules: Rules, chooser: Chooser, token: Token, taken: Taken): (records: seq<Record>)
    ensures taken.Snapshot? ==>
              && |records| == 1 && records[0].id == taken.id && records[0].position == taken.end
              && (if chooser.OnHost? && rules.sampled(chooser.state) then records[0].next == None
                  else records[0].next == Some(token))
    ensures !taken.Snapshot? ==> records == []
  {
    if taken.Snapshot? then [Record(taken.id, taken.end, Name(rules, chooser, token))] else []
  }

  /** With no sampler, a token not picked under a mask is the argmax after everything folded in. */
  ghost predicate Named(rules: Rules, p: Progress) {
    !Sampled(rules, p.chooser) && |p.history| !in p.masked ==> p.last == rules.argmax(rules.row(p.history))
  }

  /** A draft of so many tokens leaves room in the output for one more, and does not pass a retained position. */
  predicate MayDraft(n: nat, left: nat, interval: nat, off: bool, position: nat) {
    n + 1 <= left && (interval > 0 && !off ==> position % interval + n + 1 <= interval)
  }

  ghost predicate LongestDraft(most: nat, n: nat, left: nat, interval: nat, off: bool, position: nat) {
    && n <= most && MayDraft(n, left, interval, off, position)
    && forall m: nat | n < m <= most :: !MayDraft(m, left, interval, off, position)
  }

  /** How much of a proposal may be drafted. */
  function DraftLength(most: nat, left: nat, interval: nat, off: bool, position: nat): (n: nat)
    requires left > 0
    ensures LongestDraft(most, n, left, interval, off, position)
  {
    var n := if most < left then most else left - 1;
    if interval > 0 && !off && n > interval - position % interval - 1 then interval - position % interval - 1 else n
  }

  /** The longest beginning of a proposal that may be drafted; nothing, if that is too short to be worth it. */
  function Trimmed(proposal: seq<Token>, minimum: nat, left: nat, interval: nat, off: bool, position: nat): seq<Token>
    requires left > 0
  {
    var n := DraftLength(|proposal|, left, interval, off, position);
    if n < minimum then [] else proposal[..n]
  }

  class RuntimeSequence {
    const state: SequenceState
    const retention: Retention
    const prompt: seq<Token>
    const maxOutput: nat
    /** Tokens one verify pass takes; 0 when nothing drafts. */
    const window: nat
    /** What the prompt comes to in the state: the restored tokens, whichever they were, then the prompt's own. */
    ghost const stream: seq<Token>
    ghost const restored: nat
    var prefilled: nat
    var nextToken: Option<Token>
    var chooser: Chooser
    var draft: seq<Token>
    var emitted: nat
    /** Where plain decoding is, once the prompt is through. */
    ghost var progress: Progress
    ghost var decoding: bool

    /** Admitted cold, or on top of a state that holds the tokens of `stream` up to `prefix`. */
    constructor (state: SequenceState, retention: Retention, prompt: seq<Token>, maxOutput: nat, window: nat,
                 chooser: Chooser, prefix: nat, nextToken: Option<Token>, ghost stream: seq<Token>)
      ensures this.state == state && this.retention == retention && this.prompt == prompt
      ensures this.maxOutput == maxOutput && this.window == window && this.chooser == chooser
      ensures this.stream == stream && restored == prefix
      ensures prefilled == prefix && this.nextToken == nextToken && emitted == 0 && draft == [] && !decoding
    {
      this.state, this.retention, this.prompt := state, retention, prompt;
      this.maxOutput, this.window, this.chooser := maxOutput, window, chooser;
      this.stream, restored := stream, prefix;
      prefilled, this.nextToken, emitted, draft, decoding := prefix, nextToken, 0, [], false;
      progress := Progress(prompt, 0, chooser, [], {}, false);
    }

    /** The stream is the prompt past what was restored. */
    ghost predicate StreamOk() {
      restored <= |prompt| == |stream| && stream[restored..] == prompt[restored..]
    }

    ghost predicate Roomy()
    {
      StreamOk() && state.kv.Length >= |prompt| + maxOutput + (if window == 0 then 0 else window - 1)
    }

    /** The tokens folded into the state. */
    ghost function Folded(): seq<Token>
      requires StreamOk() && prefilled <= |prompt|
      reads this
    {
      if decoding then progress.history else stream[..prefilled]
    }

    /** The state is the fold of exactly the committed tokens, and there is room for a whole window past any of them. */
    ghost predicate Valid(net: Net)
      reads this, state, state.kv, retention, retention.arena
    {
      && Roomy() && restored <= prefilled <= |prompt| && retention.Valid(net, Folded())
      && if decoding then DecodeValid(net) else PrefillValid(net)
    }

    ghost predicate PrefillValid(net: Net)
      requires StreamOk() && prefilled <= |prompt|
      reads this, state, state.kv
    {
      emitted == 0 && state.Holds(net, stream[..prefilled])
    }

    ghost predicate DecodeValid(net: Net)
      reads this, state, state.kv
    {
      && state.Holds(net, progress.history) && nextToken == Some(progress.last) && Tracks(stream, progress)
      && |progress.output| <= maxOutput && emitted == (if progress.stopped then maxOutput else |progress.output|)
      && (!progress.stopped ==> chooser == progress.chooser)
    }

    /** The prompt as folded, and everything put out. */
    ghost function Whole(): seq<Token>
      reads this
    {
      stream + progress.output
    }

    /** The records are of this sequence's own stream, and what they name is not open to change. */
    ghost predicate Reports(net: Net, rules: Rules, records: seq<Record>)
      reads this, retention, retention.arena
    {
      && AllDescribe(net, rules, retention.arena.captured, Whole(), |prompt|, progress.masked, records)
      && (!progress.stopped ==> forall r | r in records :: r.position < |Whole()|)
    }

    /** A step's snapshot, held for whoever it is reported to, and its record. */
    ghost predicate Kept(net: Net, rules: Rules, taken: Taken, records: seq<Record>)
      reads this, state, retention, retention.arena
    {
      && (taken.Snapshot? ==> taken.id in retention.arena.pool.handles && taken.end == state.position)
      && records == RecordOf(rules, chooser, progress.last, taken) && Reports(net, rules, records)
    }

    /** What was reported of the stream earlier on, and what is reported now. */
    lemma ReportsOn(net: Net, rules: Rules, captured: map<nat, Memory>, whole: seq<Token>, masked: set<nat>,
                    reported: seq<Record>, more: seq<Record>)
      requires CapturedOn(captured, retention.arena.captured) && whole <= Whole() && masked <= progress.masked
      requires AllDescribe(net, rules, captured, whole, |prompt|, masked, reported)
      requires forall r | r in reported :: r.position < |whole|
      requires Reports(net, rules, more)
      ensures Reports(net, rules, reported + more)
    {
      DescribeOn(net, rules, captured, retention.arena.captured, whole, Whole(), |prompt|, masked, progress.masked,
                 reported);
    }

    /** There is a handle on the last snapshot, and what it was taken of is known. */
    ghost predicate Spared(captured: map<nat, Memory>)
      reads retention, retention.arena
    {
      && retention.arena.Valid() && CapturedOn(captured, retention.arena.captured)
      && (retention.lastSnapshot.Some? ==> retention.lastSnapshot.value in retention.arena.pool.handles)
    }

    /** Whatever others do to the arena leaves a sequence valid, if they spare its handle and what was captured. */
    twostate lemma Undisturbed(net: Net)
      requires old(Valid(net)) && unchanged(this, state, state.kv, retention)
      requires Spared(old(retention.arena.captured))
      ensures Valid(net)
    {
    }

    ghost predicate Live()
      reads this
    {
      decoding && !progress.stopped && emitted < maxOutput
    }

    /** A live sequence has folded in its prompt and all of its output but the last token. */
    lemma LivePosition(net: Net)
      requires Valid(net) && Live()
      ensures state.position == |prompt| + emitted - 1
      ensures state.position + window <= state.kv.Length
    {
      assert |progress.history + [progress.last]| == |stream + progress.output|;
    }

    /** Cut a proposal to what the output cap, the next retained position and the minimum length allow. */
    method TrimDraft(net: Net, proposal: seq<Token>, minimum: nat)
      requires Valid(net) && Live()
      modifies `draft
      ensures draft <= proposal && emitted + |draft| + 1 <= maxOutput
      ensures !retention.disabled ==> NoCross(retention.interval, state.position, state.position + |draft| + 1)
      ensures draft == [] || |draft| >= minimum
      ensures draft == Trimmed(proposal, minimum, maxOutput - emitted, retention.interval, retention.disabled,
                               state.position)
    {
      draft := Truncated(proposal, maxOutput - (emitted + 1));
      if retention.interval > 0 && !retention.disabled {
        var toBoundary := retention.interval - state.position % retention.interval;
        draft := Truncated(draft, toBoundary - 1);
      }
      assert |draft| == DraftLength(|proposal|, maxOutput - emitted, retention.interval, retention.disabled,
                                    state.position);
      if |draft| < minimum {
        draft := [];
      }
    }

    /** The emissions of one window, cut at the end of the turn. */
    method Accept(rules: Rules, rows: seq<Row>) returns (kept: seq<Token>, hitEos: bool)
      requires !progress.stopped && chooser == progress.chooser && RowsFor(rules, progress, draft, rows)
      requires StaysSampled(rules)
      modifies `chooser
      ensures Sampled(rules, chooser) == Sampled(rules, old(chooser))
      ensures 0 < |kept| <= |draft| + 1 && kept[..|kept| - 1] == draft[..|kept| - 1]
      ensures Landed(rules, progress, draft, kept, hitEos, chooser)
    {
      var emit;
      match chooser {
        case OnHost(current) =>
          var after;
          emit, after := ChooseOnHost(rules, rows, draft, current, progress);
          chooser := OnHost(after);
        case Device =>
          emit := AcceptArgmax(rules, rows, draft, progress);
      }
      kept, hitEos := TruncateAtEos(rules, emit, progress, draft, chooser);
      assert kept[..|kept| - 1] == emit[..|emit| - 1][..|kept| - 1];
    }

    /** The whole window through one pass, and back to what was accepted of it. The cache always has room. */
    method RunWindow(net: Net, rules: Rules, ghost p: Progress) returns (kept: seq<Token>, stopped: bool)
      requires Agrees(net, rules) && StaysSampled(rules)
      requires Valid(net) && Live() && |draft| < window && p == progress
      modifies `chooser, state, state.kv
      ensures Sampled(rules, chooser) == Sampled(rules, p.chooser)
      ensures 0 < |kept| <= |draft| + 1 && state.position == old(state.position) + |kept|
      ensures state.Holds(net, p.history + [p.last] + kept[..|kept| - 1])
      ensures Landed(rules, p, draft, kept, stopped, chooser)
    {
      LivePosition(net);
      var ids := Padded(nextToken.value, draft, window);
      var ok, rows, ring := state.RunVerify(net, ids, p.history);
      assert ok;
      WindowRows(net, rules, p, draft, ids, rows, ring, state.kv[..state.position + |ids|]);
      kept, stopped := Accept(rules, rows);
      state.Commit(net, ring, |kept|, p.history, ids, rows);
      Committed(p, ids, draft, kept);
    }

    /** Book the tokens a window kept. */
    method Settle(net: Net, rules: Rules, kept: seq<Token>, stopped: bool, ghost p: Progress)
      returns (generated: seq<Token>)
      requires Tracks(stream, p) && emitted == |p.output| && emitted + |draft| + 1 <= maxOutput
      requires 0 < |kept| <= |draft| + 1 && Landed(rules, p, draft, kept, stopped, chooser)
      requires state.Holds(net, p.history + [p.last] + kept[..|kept| - 1])
      modifies `nextToken, `emitted, `progress
      ensures DecodeValid(net)
      ensures progress == PlainRun(rules, p, Reach(rules, p, draft, true))
      ensures progress.output == p.output + generated && stopped == progress.stopped
    {
      ghost var reach := Reach(rules, p, draft, true);
      nextToken := Some(kept[|kept| - 1]);
      generated := if stopped then kept[..|kept| - 1] else kept;
      emitted := if stopped then maxOutput else emitted + |generated|;
      RunTracks(rules, stream, p, reach);
      progress := PlainRun(rules, p, reach);
    }

    /** A verified window, booked. */
    method Window(net: Net, rules: Rules, ghost p: Progress) returns (generated: seq<Token>, stopped: bool)
      requires Agrees(net, rules) && StaysSampled(rules) && Valid(net) && Live() && p == progress
      requires |draft| < window && emitted + |draft| + 1 <= maxOutput
      modifies `chooser, `nextToken, `emitted, `progress, state, state.kv
      ensures Sampled(rules, chooser) == Sampled(rules, p.chooser)
      ensures DecodeValid(net)
      ensures progress == PlainRun(rules, p, Reach(rules, p, draft, true))
      ensures progress.output == p.output + generated && stopped == progress.stopped
      ensures old(state.position) < state.position <= old(state.position) + |draft| + 1
      ensures p.history <= progress.history
    {
      var kept;
      RunFeeds(rules, p, Reach(rules, p, draft, true));
      kept, stopped := RunWindow(net, rules, p);
      generated := Settle(net, rules, kept, stopped, p);
    }

    /** A snapshot of where a decode step has come to describes the stream. */
    lemma ReportsTaken(net: Net, rules: Rules, taken: Taken)
      requires DecodeValid(net) && Named(rules, progress)
      requires Sampled(rules, chooser) == Sampled(rules, progress.chooser)
      requires taken.Snapshot? ==>
                 && taken.end == state.position && taken.id in retention.arena.captured
                 && retention.arena.captured[taken.id] == After(net, progress.history)
      ensures Reports(net, rules, RecordOf(rules, chooser, progress.last, taken))
    {
      HistoryLeads(stream, progress);
    }

    /** Retain the position a decode step has come to, if a snapshot is due there. */
    method Retain(net: Net, rules: Rules, token: Token, ghost before: seq<Token>)
      returns (taken: Taken, records: seq<Record>)
      requires Roomy() && restored <= prefilled <= |prompt| && decoding && DecodeValid(net)
      requires token == progress.last && Named(rules, progress)
      requires Sampled(rules, chooser) == Sampled(rules, progress.chooser)
      requires retention.Valid(net, before) && before <= progress.history
      requires !retention.disabled ==> NoCross(retention.interval, |before|, |progress.history|)
      modifies retention, retention.arena
      ensures Valid(net)
      ensures CapturedOn(old(retention.arena.captured), retention.arena.captured)
      ensures Arenas.Spares(old(retention.Holding()), retention.Holding())
      ensures taken.Snapshot? <==> old(retention.Takes(|before|, |progress.history|))
      ensures retention.disabled ==> old(retention.disabled || retention.arena.Available() == 0)
      ensures retention.retained == old(retention.retained) + if taken.Snapshot? then [state.position] else []
      ensures Kept(net, rules, taken, records)
    {
      taken := retention.Visit(net, state, before, progress.history);
      records := RecordOf(rules, chooser, token, taken);
      ReportsTaken(net, rules, taken);
    }

    /**
     * One speculative step: a verified window, then bookkeeping. The tokens are
     * plain decoding's own.
     */
    method VerifyStep(net: Net, rules: Rules, ghost p: Progress)
      returns (generated: seq<Token>, stopped: bool, taken: Taken, records: seq<Record>)
      requires Agrees(net, rules) && HostOk(rules) && Valid(net) && Live() && p == progress
      requires |draft| < window && emitted + |draft| + 1 <= maxOutput
      requires !retention.disabled ==> NoCross(retention.interval, state.position, state.position + |draft| + 1)
      modifies this, state, state.kv, retention, retention.arena
      ensures Valid(net) && decoding && draft == old(draft)
      ensures progress == PlainRun(rules, p, Reach(rules, p, draft, true))
      ensures progress.output == p.output + generated && stopped == progress.stopped
      ensures old(state.position) < state.position <= old(state.position) + |draft| + 1
      ensures CapturedOn(old(retention.arena.captured), retention.arena.captured)
      ensures Arenas.Spares(old(retention.Holding()), retention.Holding())
      ensures retention.retained == old(retention.retained) + if taken.Snapshot? then [state.position] else []
      ensures retention.disabled ==> old(retention.disabled || retention.arena.Available() == 0)
      ensures Kept(net, rules, taken, records)
    {
      generated, stopped := Window(net, rules, p);
      RunNames(rules, p, Reach(rules, p, draft, true));
      taken, records := Retain(net, rules, nextToken.value, p.history);
    }

    /** One token from a row: on the host drawn and taken note of, or as the device decided. */
    method Choose(rules: Rules, row: Row) returns (token: Token)
      modifies `chooser
      ensures (token, chooser) == Pick(rules, old(chooser), row)
    {
      match chooser {
        case OnHost(current) =>
          var drawn := rules.draw(current, row);
          token := drawn.0;
          chooser := OnHost(rules.observe(drawn.1, token));
        case Device =>
          token := rules.argmax(row);
      }
    }

    /** The last token through a pass of its own. The cache always has room. */
    method FeedLast(net: Net, rules: Rules, ghost p: Progress) returns (row: Row)
      requires Agrees(net, rules) && Valid(net) && Live() && p == progress
      modifies state, state.kv
      ensures state.Holds(net, p.history + [p.last]) && row == rules.row(p.history + [p.last])
      ensures state.position == old(state.position) + 1
    {
      LivePosition(net);
      var ids := [nextToken.value];
      var ok, rows := state.Run(net, ids, p.history);
      assert ok && ids[..1] == [p.last];
      row := rows[0];
    }

    /** Book the token chosen from a row. */
    method BookOne(net: Net, rules: Rules, row: Row, ghost p: Progress) returns (output: Token)
      requires Tracks(stream, p) && !p.stopped && chooser == p.chooser && emitted == |p.output| < maxOutput
      requires state.Holds(net, p.history + [p.last]) && row == rules.row(p.history + [p.last])
      modifies `chooser, `nextToken, `emitted, `progress
      ensures DecodeValid(net) && progress == PlainStep(rules, p) && output == progress.last
      ensures chooser == progress.chooser
    {
      StepTracks(rules, stream, p);
      output := Choose(rules, row);
      nextToken := Some(output);
      emitted := if rules.eos == Some(output) then maxOutput else emitted + 1;
      progress := PlainStep(rules, p);
    }

    /** The last token fed, and the choice from its row booked. */
    method FeedAndBook(net: Net, rules: Rules, ghost p: Progress) returns (output: Token)
      requires Agrees(net, rules) && HostOk(rules) && Valid(net) && Live() && p == progress
      modifies `chooser, `nextToken, `emitted, `progress, state, state.kv
      ensures DecodeValid(net) && progress == PlainStep(rules, p) && output == progress.last
      ensures chooser == progress.chooser
      ensures state.position == old(state.position) + 1 && Named(rules, progress) && p.history <= progress.history
      ensures |progress.history| == |p.history| + 1 && NoCross(retention.interval, |p.history|, |progress.history|)
    {
      var row := FeedLast(net, rules, p);
      output := BookOne(net, rules, row, p);
      StepNames(rules, p);
      RemainderStays(retention.interval, |p.history|);
    }

    /** One plain round: feed the last token, choose from its row, and book the choice. */
    method Round(net: Net, rules: Rules) returns (output: Token, taken: Taken, records: seq<Record>)
      requires Agrees(net, rules) && HostOk(rules) && Valid(net) && Live()
      modifies `chooser, `nextToken, `emitted, `progress, state, state.kv, retention, retention.arena
      ensures Valid(net) && decoding && draft == old(draft)
      ensures progress == PlainStep(rules, old(progress)) && output == progress.last
      ensures state.position == old(state.position) + 1
      ensures retention.retained == old(retention.retained) + if taken.Snapshot? then [state.position] else []
      ensures CapturedOn(old(retention.arena.captured), retention.arena.captured)
      ensures Arenas.Spares(old(retention.Holding()), retention.Holding())
      ensures taken.Snapshot? <==> old(retention.Takes(state.position, state.position + 1))
      ensures Kept(net, rules, taken, records)
    {
      ghost var p, takes := progress, retention.Takes(state.position, state.position + 1);
      output := FeedAndBook(net, rules, p);
      assert draft == old(draft) && retention.Takes(|p.history|, |progress.history|) == takes;
      taken, records := Retain(net, rules, output, p.history);
    }

    /** One more round on the way to where the draft's agreement ends, and whether there is another. */
    method GatedRound(net: Net, rules: Rules, round: nat, before: seq<Token>, reported: seq<Record>,
                      ghost p: Progress, ghost cur: Progress)
      returns (generated: seq<Token>, again: bool, records: seq<Record>, ghost next: Progress)
      requires Agrees(net, rules) && HostOk(rules) && Valid(net) && Live() && round <= |draft| && cur == progress
      requires emitted + (|draft| - round) + 1 <= maxOutput && cur.output == p.output + before
      requires Reports(net, rules, reported)
      modifies this, state, state.kv, retention, retention.arena
      ensures Valid(net) && decoding && draft == old(draft) && state.position == old(state.position) + 1
      ensures next == progress && next.output == p.output + generated
      ensures again ==> Live() && round < |draft| && emitted + (|draft| - round) <= maxOutput
      ensures PlainRun(rules, cur, Reach(rules, cur, draft[round..], false))
           == if again then PlainRun(rules, next, Reach(rules, next, draft[round + 1..], false)) else next
      ensures CapturedOn(old(retention.arena.captured), retention.arena.captured)
      ensures Arenas.Spares(old(retention.Holding()), retention.Holding())
      ensures Reports(net, rules, records)
    {
      ReachFrom(rules, cur, draft, round);
      StepTracks(rules, stream, cur);
      StepNames(rules, cur);
      ghost var was, captured := Whole(), retention.arena.captured;
      var output, taken, more := Round(net, rules);
      next := progress;
      generated := if rules.eos == Some(output) then before else before + [output];
      again := rules.eos != Some(output) && emitted < maxOutput && round < |draft| && draft[round] == output;
      ReportsOn(net, rules, captured, was, cur.masked, reported, more);
      records := reported + more;
    }

    /**
     * The round-gated step: another round for as long as the draft agrees. It
     * emits what the batched window would, and goes on where the grammar arms.
     */
    method GatedStep(net: Net, rules: Rules, ghost p: Progress) returns (generated: seq<Token>, records: seq<Record>)
      requires Agrees(net, rules) && HostOk(rules)
      requires Valid(net) && Live() && emitted + |draft| + 1 <= maxOutput && p == progress
      modifies this, state, state.kv, retention, retention.arena
      ensures Valid(net) && decoding && draft == old(draft) && state.position > old(state.position)
      ensures progress == PlainRun(rules, p, Reach(rules, p, draft, false))
      ensures progress.output == p.output + generated
      ensures CapturedOn(old(retention.arena.captured), retention.arena.captured)
      ensures Arenas.Spares(old(retention.Holding()), retention.Holding())
      ensures Reports(net, rules, records)
    {
      ghost var goal, cur := PlainRun(rules, p, Reach(rules, p, draft, false)), p;
      var round, active := 0, true;
      generated, records := [], [];
      assert draft[0..] == draft;
      while active
        invariant Valid(net) && decoding && draft == old(draft) && cur == progress
        invariant cur.output == p.output + generated
        invariant active ==> Live() && round <= |draft| && emitted + (|draft| - round) + 1 <= maxOutput
        invariant goal == if active then PlainRun(rules, cur, Reach(rules, cur, draft[round..], false)) else cur
        invariant state.position == old(state.position) + round && (active || round > 0)
        invariant CapturedOn(old(retention.arena.captured), retention.arena.captured) && Reports(net, rules, records)
        invariant Arenas.Spares(old(retention.Holding()), retention.Holding())
        decreases active, |draft| - round
      {
        generated, active, records, cur := GatedRound(net, rules, round, generated, records, p, cur);
        round := round + 1;
      }
    }

    /** The draft there is, through one window or in rounds. */
    method RunDraft(net: Net, rules: Rules, batched: bool, ghost p: Progress)
      returns (generated: seq<Token>, records: seq<Record>, ghost step: Step)
      requires Agrees(net, rules) && HostOk(rules) && Valid(net) && Live() && p == progress
      requires emitted + |draft| + 1 <= maxOutput && (draft == [] || |draft| < window)
      requires !retention.disabled ==> NoCross(retention.interval, state.position, state.position + |draft| + 1)
      modifies this, state, state.kv, retention, retention.arena
      ensures Valid(net) && decoding && step.draft == old(draft)
      ensures progress == ServeStep(rules, p, maxOutput, step) && progress.output == p.output + generated
      ensures CapturedOn(old(retention.arena.captured), retention.arena.captured)
      ensures Arenas.Spares(old(retention.Holding()), retention.Holding())
      ensures Reports(net, rules, records)
    {
      step := Step(draft, batched && window >= 2);
      StepWithinCap(rules, p, maxOutput, step);
      if batched && window >= 2 {
        var stopped, taken;
        generated, stopped, taken, records := VerifyStep(net, rules, p);
      } else {
        generated, records := GatedStep(net, rules, p);
      }
    }

    /**
     * One decode step of whichever form, for whatever was proposed: a step of
     * the kind `Served` is made of. What it retained is of this sequence's own
     * stream, and names what follows there.
     */
    method DecodeStep(net: Net, rules: Rules, proposal: seq<Token>, minimum: nat, batched: bool)
      returns (generated: seq<Token>, records: seq<Record>, ghost step: Step)
      requires Agrees(net, rules) && HostOk(rules) && Valid(net) && Live() && (proposal == [] || |proposal| < window)
      modifies this, state, state.kv, retention, retention.arena
      ensures Valid(net) && decoding && step.draft <= proposal
      ensures step.draft == old(Trimmed(proposal, minimum, maxOutput - emitted, retention.interval,
                                        retention.disabled, state.position))
      ensures progress == ServeStep(rules, old(progress), maxOutput, step)
      ensures progress.output == old(progress.output) + generated
      ensures CapturedOn(old(retention.arena.captured), retention.arena.captured)
      ensures Arenas.Spares(old(retention.Holding()), retention.Holding())
      ensures Reports(net, rules, records)
    {
      ghost var p := progress;
      ghost var cut := Trimmed(proposal, minimum, maxOutput - emitted, retention.interval, retention.disabled,
                               state.position);
      TrimDraft(net, proposal, minimum);
      assert draft == cut;
      generated, records, step := RunDraft(net, rules, batched, p);
    }
  }

  lemma StepWithinCap(rules: Rules, p: Progress, cap: nat, step: Step)
    requires !p.stopped && |p.output| + |step.draft| + 1 <= cap
    ensures ServeStep(rules, p, cap, step) == PlainRun(rules, p, Reach(rules, p, step.draft, step.windowed))
  {
  }

  /** The state is a beginning of the stream, and the token to feed next follows it there. */
  lemma HistoryLeads(stream: seq<Token>, p: Progress)
    requires Tracks(stream, p)
    ensures var whole := stream + p.output;
            && p.history <= whole && whole[..|p.history|] == p.history
            && (!p.stopped ==> |p.history| < |whole| && whole[|p.history|] == p.last)
  {
    var whole := stream + p.output;
    if p.stopped {
      assert whole[..|p.history|] == p.history;
    } else {
      assert whole == p.history + [p.last];
    }
  }

  lemma StepNames(rules: Rules, p: Progress)
    requires HostOk(rules)
    ensures var next := PlainStep(rules, p);
            Named(rules, next) && Sampled(rules, next.chooser) == Sampled(rules, p.chooser)
  {
  }

  lemma {:induction false} RunNames(rules: Rules, p: Progress, n: nat)
    requires !p.stopped && n > 0 && HostOk(rules)
    ensures var q := PlainRun(rules, p, n);
            Named(rules, q) && Sampled(rules, q.chooser) == Sampled(rules, p.chooser)
    decreases n
  {
    if n == 1 {
      assert PlainRun(rules, p, 0) == p;
      StepNames(rules, p);
    } else {
      RunNames(rules, p, n - 1);
      StepNames(rules, PlainRun(rules, p, n - 1));
    }
  }

  lemma {:induction false} RunFeeds(rules: Rules, p: Progress, n: nat)
    ensures p.history <= PlainRun(rules, p, n).history && p.masked <= PlainRun(rules, p, n).masked
    ensures PlainRun(rules, p, n).chooser.Device? == p.chooser.Device?
    decreases n
  {
    if n > 0 {
      RunFeeds(rules, p, n - 1);
    }
  }

  /** What described the stream goes on describing it. */
  lemma DescribeOn(net: Net, rules: Rules, captured: map<nat, Memory>, captured': map<nat, Memory>,
                   stream: seq<Token>, stream': seq<Token>, promptLen: nat, masked: set<nat>,
                   masked': set<nat>, records: seq<Record>)
    requires CapturedOn(captured, captured') && stream <= stream' && masked <= masked'
    requires AllDescribe(net, rules, captured, stream, promptLen, masked, records)
    requires forall r | r in records :: r.position < |stream|
    ensures AllDescribe(net, rules, captured', stream', promptLen, masked', records)
    ensures forall r | r in records :: r.position < |stream'|
  {
    forall i | 0 <= i < |records|
      ensures Describes(net, rules, captured', stream', promptLen, masked', records[i])
    {
      assert Describes(net, rules, captured, stream, promptLen, masked, records[i]) && records[i] in records;
      assert stream'[..records[i].position] == stream[..records[i].position];
    }
  }

  /** The committed inputs: the last token, then every emitted token but the new last one. */
  lemma Committed(p: Progress, ids: seq<Token>, draft: seq<Token>, kept: seq<Token>)
    requires |draft| < |ids| && ids == Padded(p.last, draft, |ids|)
    requires 0 < |kept| <= |draft| + 1 && kept[..|kept| - 1] == draft[..|kept| - 1]
    ensures p.history + ids[..|kept|] == p.history + [p.last] + kept[..|kept| - 1]
  {
    var n := |kept| - 1;
    assert ids[..n + 1] == [p.last] + draft[..n];
  }

  lemma RemainderStays(interval: nat, position: nat)
    ensures NoCross(interval, position, position + 1)
  {
  }

  lemma ReachOnce(rules: Rules, cur: Progress, draft: seq<Token>, n: nat)
    requires n <= |draft|
    ensures var next := PlainStep(rules, cur);
            Reach(rules, cur, draft[n..], false)
            == if next.stopped || n == |draft| || next.last != draft[n] then 1
               else Reach(rules, next, draft[n + 1..], false) + 1
  {
    if n < |draft| {
      assert draft[n..][0] == draft[n] && draft[n..][1..] == draft[n + 1..];
    }
  }

  /** One more round: it goes on exactly where the reach does. */
  lemma ReachFrom(rules: Rules, cur: Progress, draft: seq<Token>, n: nat)
    requires n <= |draft| && !cur.stopped
    ensures var next := PlainStep(rules, cur);
            PlainRun(rules, cur, Reach(rules, cur, draft[n..], false))
            == if next.stopped || n == |draft| || next.last != draft[n] then next
               else PlainRun(rules, next, Reach(rules, next, draft[n + 1..], false))
  {
    ReachOnce(rules, cur, draft, n);
    RunFirst(rules, cur, Reach(rules, cur, draft[n..], false) - 1);
  }
}
