/** Accepting a drafted window: which of its rows become output, and where the turn ends in it. */
module Accepting {
  import opened Decoding
  import opened Options

  /** Row `j` of a window is the target's row once the first `j` draft tokens have been fed. */
  ghost predicate RowsFor(rules: Rules, p: Progress, draft: seq<Token>, rows: seq<Row>) {
    |rows| > |draft| && forall j | 0 <= j <= |draft| :: rows[j] == rules.row(p.history + [p.last] + draft[..j])
  }

  predicate Ends(rules: Rules, token: Token) {
    rules.eos == Some(token)
  }

  predicate EndsAt(rules: Rules, emit: seq<Token>, a: nat) {
    a < |emit| && Ends(rules, emit[a]) && forall i | 0 <= i < a :: !Ends(rules, emit[i])
  }

  /** The tokens `emit` chosen from `p` on bring plain decoding to `cur`, which stopped if one ended the turn. */
  ghost predicate Walked(rules: Rules, p: Progress, emit: seq<Token>, cur: Progress,
                                 chooser: Chooser)
  {
    var fed := p.history + [p.last];
    if cur.stopped then
      exists a: nat :: EndsAt(rules, emit, a)
        && cur.history == fed + emit[..a] && cur.last == emit[a] && cur.output == p.output + emit[..a]
    else
      && (forall i | 0 <= i < |emit| :: !Ends(rules, emit[i]))
      && cur.history + [cur.last] == fed + emit && cur.output == p.output + emit && cur.chooser == chooser
  }

  /** Plain decoding has come to `cur` within the reach of the window. */
  ghost predicate Within(rules: Rules, p: Progress, draft: seq<Token>, n: nat, cur: Progress) {
    n <= |draft| &&
    if cur.stopped then PlainRun(rules, p, Reach(rules, p, draft, true)) == cur
    else
      && PlainRun(rules, p, n) == cur
      && Reach(rules, p, draft, true) == n + Reach(rules, cur, draft[n..], true)
  }

  ghost predicate Arrived(rules: Rules, p: Progress, draft: seq<Token>, emit: seq<Token>,
                                  chooser: Chooser)
  {
    |emit| > 0 && Walked(rules, p, emit, PlainRun(rules, p, Reach(rules, p, draft, true)), chooser)
  }

  lemma StartWithin(rules: Rules, p: Progress, draft: seq<Token>)
    requires !p.stopped
    ensures Walked(rules, p, [], p, p.chooser) && Within(rules, p, draft, 0, p)
  {
    assert draft[0..] == draft;
  }

  /** Picking from the row the window holds is picking from the row plain decoding would see. */
  lemma WalkOne(rules: Rules, p: Progress, emit: seq<Token>, cur: Progress,
                        chooser: Chooser, row: Row)
    requires Walked(rules, p, emit, cur, chooser)
    requires row == rules.row(p.history + [p.last] + emit)
    ensures var picked := Pick(rules, chooser, row);
            var next := if cur.stopped then cur else PlainStep(rules, cur);
            && Walked(rules, p, emit + [picked.0], next, picked.1)
            && (!cur.stopped ==> next.last == picked.0 && next.chooser == picked.1)
  {
    var fed, picked := p.history + [p.last], Pick(rules, chooser, row);
    var more := emit + [picked.0];
    if cur.stopped {
      var a: nat :| EndsAt(rules, emit, a)
        && cur.history == fed + emit[..a] && cur.last == emit[a] && cur.output == p.output + emit[..a];
      assert more[..a] == emit[..a] && EndsAt(rules, more, a);
    } else {
      var next := PlainStep(rules, cur);
      assert next.history == fed + emit;
      if next.stopped {
        assert more[..|emit|] == emit && EndsAt(rules, more, |emit|);
      } else {
        assert next.history + [next.last] == fed + more;
      }
    }
  }

  lemma ReachOne(rules: Rules, cur: Progress, draft: seq<Token>, n: nat)
    requires n <= |draft|
    ensures var next := PlainStep(rules, cur);
            Reach(rules, cur, draft[n..], true)
            == if next.stopped || n == |draft| || next.last != draft[n] || Arms(rules, cur) then 1
               else 1 + Reach(rules, next, draft[n + 1..], true)
  {
    if n < |draft| {
      assert draft[n..][0] == draft[n] && draft[n..][1..] == draft[n + 1..];
    }
  }

  /** One more token: either the window goes on with an agreed draft token, or this is as far as it reaches. */
  lemma WithinOne(rules: Rules, p: Progress, draft: seq<Token>, n: nat, cur: Progress)
    requires Within(rules, p, draft, n, cur) && !cur.stopped
    ensures var next := PlainStep(rules, cur);
            if next.stopped || n == |draft| || next.last != draft[n] || Arms(rules, cur)
            then PlainRun(rules, p, Reach(rules, p, draft, true)) == next
            else Within(rules, p, draft, n + 1, next)
  {
    ReachOne(rules, cur, draft, n);
    assert PlainRun(rules, p, n + 1) == PlainStep(rules, cur);
  }

  /**
   * The emissions of a sequence that chooses on the host, in order: the drafts it
   * agreed with, then the bonus or the first disagreement. It picks one row past
   * the last draft, and does not look for the end of the turn.
   */
  method ChooseOnHost(rules: Rules, rows: seq<Row>, draft: seq<Token>, state: Host, ghost p: Progress)
    returns (emit: seq<Token>, state': Host)
    requires !p.stopped && p.chooser == OnHost(state) && RowsFor(rules, p, draft, rows) && StaysSampled(rules)
    ensures 0 < |emit| <= |draft| + 1 && emit[..|emit| - 1] <= draft && Arrived(rules, p, draft, emit, OnHost(state'))
    ensures rules.sampled(state') == rules.sampled(state)
  {
    emit, state' := [], state;
    ghost var cur := p;
    StartWithin(rules, p, draft);
    var j := 0;
    while true
      invariant j <= |draft| && emit == draft[..j] && rules.sampled(state') == rules.sampled(state)
      invariant Walked(rules, p, emit, cur, OnHost(state')) && Within(rules, p, draft, j, cur)
      decreases |draft| - j
    {
      var wasMasking := rules.masking(state');
      WalkOne(rules, p, emit, cur, OnHost(state'), rows[j]);
      var drawn := rules.draw(state', rows[j]);
      var token := drawn.0;
      state' := rules.observe(drawn.1, token);
      emit := emit + [token];
      if !cur.stopped {
        WithinOne(rules, p, draft, j, cur);
        cur := PlainStep(rules, cur);
      }
      if j >= |draft| || token != draft[j] || (!wasMasking && rules.masking(state')) {
        assert emit[..|emit| - 1] == draft[..j];
        return;
      }
      j := j + 1;
    }
  }

  /** The device's argmax already decided every row: accept drafts while they agree, then one more. */
  method AcceptArgmax(rules: Rules, rows: seq<Row>, draft: seq<Token>, ghost p: Progress)
    returns (emit: seq<Token>)
    requires !p.stopped && p.chooser == Device && RowsFor(rules, p, draft, rows)
    ensures 0 < |emit| <= |draft| + 1 && emit[..|emit| - 1] <= draft && Arrived(rules, p, draft, emit, Device)
  {
    var accepted := 0;
    ghost var cur := p;
    StartWithin(rules, p, draft);
    while accepted < |draft| && rules.argmax(rows[accepted]) == draft[accepted]
      invariant accepted <= |draft|
      invariant Walked(rules, p, draft[..accepted], cur, Device) && Within(rules, p, draft, accepted, cur)
    {
      WalkOne(rules, p, draft[..accepted], cur, Device, rows[accepted]);
      assert draft[..accepted + 1] == draft[..accepted] + [draft[accepted]];
      if !cur.stopped {
        WithinOne(rules, p, draft, accepted, cur);
        cur := PlainStep(rules, cur);
      }
      accepted := accepted + 1;
    }
    WalkOne(rules, p, draft[..accepted], cur, Device, rows[accepted]);
    if !cur.stopped {
      WithinOne(rules, p, draft, accepted, cur);
    }
    emit := draft[..accepted] + [rules.argmax(rows[accepted])];
    assert emit[..|emit| - 1] == draft[..accepted];
  }

  /** Where plain decoding is after the step, for the tokens it kept. */
  ghost predicate Landed(rules: Rules, p: Progress, draft: seq<Token>, emit: seq<Token>,
                                 hitEos: bool, chooser: Chooser)
  {
    && emit != []
    && var q, k := PlainRun(rules, p, Reach(rules, p, draft, true)), |emit| - 1;
    && q.stopped == hitEos && q.history == p.history + [p.last] + emit[..k] && q.last == emit[k]
    && q.output == p.output + (if hitEos then emit[..k] else emit)
    && (!hitEos ==> q.chooser == chooser)
  }

  /** Whatever was chosen past the first token that ends the turn is dropped. */
  method TruncateAtEos(rules: Rules, emit: seq<Token>, ghost p: Progress, ghost draft: seq<Token>,
                               ghost chooser: Chooser)
    returns (kept: seq<Token>, hitEos: bool)
    requires Arrived(rules, p, draft, emit, chooser)
    ensures kept <= emit && Landed(rules, p, draft, kept, hitEos, chooser)
  {
    var a := 0;
    while a < |emit| && !Ends(rules, emit[a])
      invariant a <= |emit| && forall i | 0 <= i < a :: !Ends(rules, emit[i])
    {
      a := a + 1;
    }
    if a < |emit| {
      kept, hitEos := emit[..a + 1], true;
      LandAtEnd(rules, p, draft, emit, chooser, a);
    } else {
      kept, hitEos := emit, false;
      LandWhole(rules, p, draft, emit, chooser);
    }
  }

  lemma LandAtEnd(rules: Rules, p: Progress, draft: seq<Token>, emit: seq<Token>,
                          chooser: Chooser, a: nat)
    requires Arrived(rules, p, draft, emit, chooser) && EndsAt(rules, emit, a)
    ensures Landed(rules, p, draft, emit[..a + 1], true, chooser)
  {
    assert emit[..a + 1][..a] == emit[..a];
  }

  lemma LandWhole(rules: Rules, p: Progress, draft: seq<Token>, emit: seq<Token>,
                          chooser: Chooser)
    requires Arrived(rules, p, draft, emit, chooser) && forall i | 0 <= i < |emit| :: !Ends(rules, emit[i])
    ensures Landed(rules, p, draft, emit, false, chooser)
  {
    var q := PlainRun(rules, p, Reach(rules, p, draft, true));
    assert !q.stopped;
    LastFed(q.history, q.last, p.history + [p.last], emit);
  }

  lemma LastFed(history: seq<Token>, last: Token, fed: seq<Token>, emit: seq<Token>)
    requires emit != [] && history + [last] == fed + emit
    ensures history == fed + emit[..|emit| - 1] && last == emit[|emit| - 1]
  {
    assert (history + [last])[..|history|] == history;
    assert (fed + emit)[..|history|] == fed + emit[..|emit| - 1];
    assert (history + [last])[|history|] == (fed + emit)[|history|];
  }

  /** Acceptance where nothing ends the turn: every emission is kept. */
  method AcceptWhole(rules: Rules, rows: seq<Row>, draft: seq<Token>, ghost p: Progress) returns (emit: seq<Token>)
    requires !p.stopped && p.chooser == Device && RowsFor(rules, p, draft, rows) && rules.eos == None
    ensures 0 < |emit| <= |draft| + 1 && emit[..|emit| - 1] == draft[..|emit| - 1]
    ensures Landed(rules, p, draft, emit, false, Device)
  {
    emit := AcceptArgmax(rules, rows, draft, p);
    LandWhole(rules, p, draft, emit, Device);
  }
}
