/**
 * Plain decoding: the target model one token at a time. The model is a function
 * from the tokens so far to a logits row; a choice of token is a function of
 * the row and of whatever the chooser carries.
 */
module Decoding {
  import opened Options

  type Token = int

  /** A logits row. */
  type Row = seq<real>

  /** Whatever a sampler and a grammar carry from token to token. */
  type Host = seq<int>

  /** What picks a token: the device's argmax, or a sampler or grammar on the host with a state of its own. */
  datatype Chooser = Device | OnHost(state: Host)

  /** The target model, as the logits row after a run of tokens, and how a token is chosen from a row. */
  datatype Rules = Rules(row: seq<Token> -> Row, argmax: Row -> Token, draw: (Host, Row) -> (Token, Host),
                                   observe: (Host, Token) -> Host, masking: Host -> bool, sampled: Host -> bool,
                                   eos: Option<Token>)

  /** A host chooser draws from the row, then takes note of the token. */
  function HostPick(rules: Rules, state: Host, row: Row): (Token, Host) {
    var drawn := rules.draw(state, row);
    (drawn.0, rules.observe(drawn.1, drawn.0))
  }

  function Pick(rules: Rules, chooser: Chooser, row: Row): (Token, Chooser) {
    match chooser
    case Device => (rules.argmax(row), Device)
    case OnHost(state) => var picked := HostPick(rules, state, row); (picked.0, OnHost(picked.1))
  }

  predicate Masking(rules: Rules, chooser: Chooser) {
    chooser.OnHost? && rules.masking(chooser.state)
  }

  predicate Sampled(rules: Rules, chooser: Chooser) {
    chooser.OnHost? && rules.sampled(chooser.state)
  }

  /** A host chooser without a sampler, not masking, takes the row's argmax and changes nothing. */
  ghost predicate HostAgrees(rules: Rules) {
    forall state: Host, row: Row | !rules.sampled(state) && !rules.masking(state) ::
      rules.draw(state, row) == (rules.argmax(row), state)
  }

  /** Neither drawing a token nor taking note of it takes a sampler away, or brings one. */
  ghost predicate StaysSampled(rules: Rules) {
    && (forall state: Host, row: Row :: rules.sampled(rules.draw(state, row).1) == rules.sampled(state))
    && (forall state: Host, token: Token :: rules.sampled(rules.observe(state, token)) == rules.sampled(state))
  }

  ghost predicate HostOk(rules: Rules) {
    HostAgrees(rules) && StaysSampled(rules)
  }

  /**
   * How far a sequence has come: what is folded in, the token to feed next, the
   * output so far, and the positions whose next token was picked under a mask.
   */
  datatype Progress = Progress(history: seq<Token>, last: Token, chooser: Chooser, output: seq<Token>,
                               masked: set<nat>, stopped: bool)

  /** One plain step: feed the last token, pick the next, and stop on the end of the turn. */
  function PlainStep(rules: Rules, p: Progress): Progress {
    var history := p.history + [p.last];
    var picked := Pick(rules, p.chooser, rules.row(history));
    var ends := rules.eos == Some(picked.0);
    var masked := if Masking(rules, p.chooser) then p.masked + {|history|} else p.masked;
    Progress(history, picked.0, picked.1, if ends then p.output else p.output + [picked.0], masked, ends)
  }

  /** At most `n` plain steps. */
  function PlainRun(rules: Rules, p: Progress, n: nat): Progress
    decreases n
  {
    if n == 0 then p
    else
      var q := PlainRun(rules, p, n - 1);
      if q.stopped then q else PlainStep(rules, q)
  }

  lemma {:induction false} RunOn(rules: Rules, p: Progress, a: nat, b: nat)
    ensures PlainRun(rules, PlainRun(rules, p, a), b) == PlainRun(rules, p, a + b)
    decreases b
  {
    if b > 0 {
      RunOn(rules, p, a, b - 1);
    }
  }

  lemma {:induction false} StoppedStays(rules: Rules, p: Progress, n: nat)
    requires p.stopped
    ensures PlainRun(rules, p, n) == p
    decreases n
  {
    if n > 0 {
      StoppedStays(rules, p, n - 1);
    }
  }

  lemma RunFirst(rules: Rules, p: Progress, n: nat)
    requires !p.stopped
    ensures PlainRun(rules, p, 1) == PlainStep(rules, p)
    ensures PlainRun(rules, p, n + 1) == PlainRun(rules, PlainStep(rules, p), n)
  {
    assert PlainRun(rules, p, 0) == p;
    RunOn(rules, p, 1, n);
  }

  /** Step `i` of a run picks the token that follows position `k`, under a mask. */
  ghost predicate PicksMasked(rules: Rules, p: Progress, i: nat, k: nat) {
    var q := PlainRun(rules, p, i);
    !q.stopped && Masking(rules, q.chooser) && k == |q.history| + 1
  }

  /** The positions booked as picked under a mask are those where the grammar was masking. */
  lemma {:induction false} MaskedMeans(rules: Rules, p: Progress, n: nat, k: nat)
    ensures k in PlainRun(rules, p, n).masked <==> k in p.masked || exists i | 0 <= i < n :: PicksMasked(rules, p, i, k)
    decreases n
  {
    if n > 0 {
      MaskedMeans(rules, p, n - 1, k);
      assert k in PlainRun(rules, p, n).masked
        <==> k in PlainRun(rules, p, n - 1).masked || PicksMasked(rules, p, n - 1, k);
    }
  }

  /** Everything fed or about to be fed is the prompt and the output, and the end of the turn is not output. */
  ghost predicate Tracks(prompt: seq<Token>, p: Progress) {
    if p.stopped then p.history == prompt + p.output else p.history + [p.last] == prompt + p.output && p.output != []
  }

  lemma StepTracks(rules: Rules, prompt: seq<Token>, p: Progress)
    requires Tracks(prompt, p) && !p.stopped
    ensures var next := PlainStep(rules, p);
            && Tracks(prompt, next) && p.output <= next.output
            && |next.output| == |p.output| + (if next.stopped then 0 else 1)
  {
    var next := PlainStep(rules, p);
    assert next.history == prompt + p.output;
    if !next.stopped {
      assert next.history + [next.last] == prompt + next.output;
    }
  }

  lemma {:induction false} RunTracks(rules: Rules, prompt: seq<Token>, p: Progress, n: nat)
    requires Tracks(prompt, p)
    ensures var q := PlainRun(rules, p, n);
            && Tracks(prompt, q) && p.output <= q.output && |q.output| <= |p.output| + n
            && (!q.stopped ==> |q.output| == |p.output| + n)
    decreases n
  {
    if n > 0 {
      RunTracks(rules, prompt, p, n - 1);
      var q := PlainRun(rules, p, n - 1);
      if !q.stopped {
        StepTracks(rules, prompt, q);
      }
    }
  }

  /** Where something holds, a step ends it or keeps it. */
  ghost predicate KeepsOn(rules: Rules, q: Progress, holds: Progress -> bool, ends: Progress -> bool) {
    !q.stopped && (ends(q) || holds(PlainStep(rules, q)))
  }

  /** What every step keeps or ends, a run keeps up to where it ends. */
  lemma {:induction false} RunUntil(rules: Rules, p: Progress, n: nat, holds: Progress -> bool,
                                    ends: Progress -> bool)
    returns (end: Option<nat>, q: Progress)
    requires holds(p)
    requires forall i: nat | i < n && holds(PlainRun(rules, p, i)) :: KeepsOn(rules, PlainRun(rules, p, i), holds, ends)
    ensures end.None? ==> q == PlainRun(rules, p, n) && holds(q)
    ensures end.Some? ==> end.value < n && q == PlainRun(rules, p, end.value) && ends(q)
    decreases n
  {
    end, q := None, p;
    if n > 0 {
      end, q := RunUntil(rules, p, n - 1, holds, ends);
      if end.None? {
        assert KeepsOn(rules, PlainRun(rules, p, n - 1), holds, ends);
        if ends(q) {
          end := Some(n - 1);
        } else {
          q := PlainStep(rules, q);
        }
      }
    }
  }

  // ----- how far a drafted step goes -----

  /** The grammar started masking with this step's token, too late for the rows after it. */
  predicate Arms(rules: Rules, p: Progress) {
    !Masking(rules, p.chooser) && Masking(rules, PlainStep(rules, p).chooser)
  }

  /**
   * The tokens one drafted step emits: one, and one more for every draft token
   * the target agreed with, up to the end of the turn. The batched window also
   * ends where the grammar arms.
   */
  function Reach(rules: Rules, p: Progress, draft: seq<Token>,
                               windowed: bool): (n: nat)
    ensures 1 <= n <= |draft| + 1
    decreases |draft|
  {
    var next := PlainStep(rules, p);
    if next.stopped || draft == [] || next.last != draft[0] || (windowed && Arms(rules, p)) then 1
    else 1 + Reach(rules, next, draft[1..], windowed)
  }

  /** The batched step stops short of the round-gated one exactly where the grammar arms on an agreed token. */
  ghost predicate ArmsWithin(rules: Rules, p: Progress,
                                           draft: seq<Token>)
    decreases |draft|
  {
    var next := PlainStep(rules, p);
    !next.stopped && draft != [] && next.last == draft[0]
    && (Arms(rules, p) || ArmsWithin(rules, next, draft[1..]))
  }

  lemma {:induction false} WindowedReach(rules: Rules, p: Progress,
                                                       draft: seq<Token>)
    ensures Reach(rules, p, draft, true) <= Reach(rules, p, draft, false)
    ensures Reach(rules, p, draft, true) == Reach(rules, p, draft, false)
       <==> !ArmsWithin(rules, p, draft)
    decreases |draft|
  {
    var next := PlainStep(rules, p);
    if !next.stopped && draft != [] && next.last == draft[0] {
      WindowedReach(rules, next, draft[1..]);
    }
  }

  // ----- whole runs -----

  function Truncated(tokens: seq<Token>, n: nat): (r: seq<Token>)
    ensures r <= tokens && |r| == if |tokens| <= n then |tokens| else n
  {
    if |tokens| <= n then tokens else tokens[..n]
  }

  /** One decode step: the draft it ran with, and whether in one batched window or in gated rounds. */
  datatype Step = Step(draft: seq<Token>, windowed: bool)

  predicate Finished(p: Progress, cap: nat) {
    p.stopped || |p.output| >= cap
  }

  /** A step of an unfinished sequence, its draft cut to what the cap leaves. */
  function ServeStep(rules: Rules, p: Progress, cap: nat, step: Step): Progress {
    if Finished(p, cap) then p
    else PlainRun(rules, p, Reach(rules, p, Truncated(step.draft, cap - |p.output| - 1), step.windowed))
  }

  function Served(rules: Rules, p: Progress, cap: nat, steps: seq<Step>): Progress
    decreases |steps|
  {
    if steps == [] then p else Served(rules, ServeStep(rules, p, cap, steps[0]), cap, steps[1..])
  }

  /** A run that stopped, or that has put out all it may, is the whole run. */
  lemma RunIsComplete(rules: Rules, prompt: seq<Token>, p: Progress, n: nat, total: nat)
    requires Tracks(prompt, p) && n <= total
    requires var q := PlainRun(rules, p, n); q.stopped || |q.output| == |p.output| + total
    ensures PlainRun(rules, p, total) == PlainRun(rules, p, n)
  {
    RunTracks(rules, prompt, p, n);
    RunOn(rules, p, n, total - n);
    if PlainRun(rules, p, n).stopped {
      StoppedStays(rules, PlainRun(rules, p, n), total - n);
    }
  }

  /** How many plain steps one decode step stands for. */
  lemma ServeStepIsPlain(rules: Rules, prompt: seq<Token>, p: Progress, cap: nat, step: Step)
    returns (n: nat)
    requires Tracks(prompt, p) && |p.output| <= cap
    ensures var q := ServeStep(rules, p, cap, step);
            && n <= cap - |p.output| && q == PlainRun(rules, p, n) && Tracks(prompt, q)
            && |q.output| <= cap && (Finished(p, cap) || n > 0) && (!q.stopped ==> |q.output| == |p.output| + n)
  {
    n := if Finished(p, cap) then 0
         else Reach(rules, p, Truncated(step.draft, cap - |p.output| - 1), step.windowed);
    RunTracks(rules, prompt, p, n);
  }

  /** Any steps at all keep to plain decoding, never past the cap. */
  lemma {:induction false} ServedIsPlain(rules: Rules, prompt: seq<Token>, p: Progress, cap: nat,
                                                 steps: seq<Step>) returns (n: nat)
    requires Tracks(prompt, p) && |p.output| <= cap
    ensures var q := Served(rules, p, cap, steps);
            && n <= cap - |p.output| && q == PlainRun(rules, p, n) && Tracks(prompt, q) && |q.output| <= cap
            && (Finished(q, cap) || n >= |steps|) && (!q.stopped ==> |q.output| == |p.output| + n)
    decreases |steps|
  {
    if steps == [] {
      return 0;
    }
    var q := ServeStep(rules, p, cap, steps[0]);
    var a := ServeStepIsPlain(rules, prompt, p, cap, steps[0]);
    if q.stopped {
      FinishedStays(rules, q, cap, steps[1..]);
      return a;
    }
    var b := ServedIsPlain(rules, prompt, q, cap, steps[1..]);
    RunOn(rules, p, a, b);
    n := a + b;
    if Finished(p, cap) {
      FinishedStays(rules, p, cap, steps);
    }
  }

  lemma {:induction false} FinishedStays(rules: Rules, p: Progress, cap: nat, steps: seq<Step>)
    requires Finished(p, cap)
    ensures Served(rules, p, cap, steps) == p
    decreases |steps|
  {
    if steps != [] {
      FinishedStays(rules, p, cap, steps[1..]);
    }
  }

  /**
   * Speculation is exact. For any drafter, any chooser, and any mixture of
   * windows and rounds, a sequence served until it finishes has emitted what
   * plain decoding emits with the same end of turn and the same cap; and it
   * does finish, within as many steps as there are tokens left to emit.
   */
  lemma SpeculationIsExact(rules: Rules, prompt: seq<Token>, p: Progress, cap: nat,
                                   steps: seq<Step>)
    requires Tracks(prompt, p) && |p.output| <= cap
    ensures var q := Served(rules, p, cap, steps);
            && (Finished(q, cap) ==> q == PlainRun(rules, p, cap - |p.output|))
            && (|steps| >= cap - |p.output| ==> Finished(q, cap))
  {
    var n := ServedIsPlain(rules, prompt, p, cap, steps);
    var q := Served(rules, p, cap, steps);
    if Finished(q, cap) {
      RunIsComplete(rules, prompt, p, n, cap - |p.output|);
    }
  }
}
