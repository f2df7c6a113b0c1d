/** The single-sequence driver: draft, verify, accept and commit, with a draft head that keeps its own position. */
module Sessions {
  import opened Decoding
  import opened Accepting
  import opened States
  import opened Serving
  import opened Prefilling
  import opened Options

  class SpeculativeSession {
    const state: SequenceState
    /** Tokens drafted per step. */
    const d: nat
    var idLast: Token
    /** How far the draft head has come. */
    var draftPos: nat
    ghost var progress: Progress

    /** The draft head is where the target is. */
    ghost predicate Valid(net: Net)
      reads this, state, state.kv
    {
      && state.Holds(net, progress.history) && idLast == progress.last && draftPos == state.position
      && progress.chooser == Device && !progress.stopped
    }

    /** With the prompt through the target, and the draft head caught up over it. */
    constructor (state: SequenceState, d: nat, idLast: Token, net: Net, rules: Rules, ghost prompt: seq<Token>)
      requires state.Holds(net, prompt) && rules.eos == None && idLast == rules.argmax(rules.row(prompt))
      ensures fresh(this) && this.state == state && this.d == d && Valid(net)
      ensures progress == FirstToken(rules, prompt, Device)
    {
      this.state, this.d, this.idLast, draftPos := state, d, idLast, state.position;
      progress := FirstToken(rules, prompt, Device);
    }

    /**
     * Prefill the prompt and take its argmax: the session starts where plain
     * decoding does. Refused for an empty prompt, and one the cache cannot take.
     */
    static method Open(net: Net, rules: Rules, prompt: seq<Token>, maxSeq: nat, d: nat)
      returns (session: SpeculativeSession?, first: Token)
      requires Agrees(net, rules) && rules.eos == None
      ensures session != null <==> 0 < |prompt| <= maxSeq
      ensures session != null ==>
                && fresh(session) && fresh(session.state) && fresh(session.state.kv) && session.d == d
                && session.state.kv.Length == maxSeq && session.Valid(net)
                && session.progress == FirstToken(rules, prompt, Device) && session.progress.output == [first]
    {
      session, first := null, 0;
      if prompt == [] {
        return;
      }
      var kv := new Slot[maxSeq](_ => []);
      var state := new SequenceState(net.init, kv);
      var ok, rows := state.Run(net, prompt, []);
      if !ok {
        return;
      }
      assert [] + prompt == prompt == prompt[..|prompt|];
      first := rules.argmax(rows[|prompt| - 1]);
      session := new SpeculativeSession(state, d, first, net, rules, prompt);
    }

    /** The window through the pass and the agreed part of it committed; the session's own fields wait. */
    method VerifyWindow(net: Net, rules: Rules, drafts: seq<Token>, ghost p: Progress)
      returns (ok: bool, emitted: seq<Token>)
      requires Agrees(net, rules) && rules.eos == None && |drafts| == d
      requires p == progress && p.chooser == Device && !p.stopped && idLast == p.last && state.Holds(net, p.history)
      modifies state, state.kv
      ensures ok <==> old(state.position) + d + 1 <= state.kv.Length
      ensures !ok ==> state.Holds(net, p.history)
      ensures ok ==> 0 < |emitted| <= d + 1 && Landed(rules, p, drafts, emitted, false, Device)
      ensures ok ==> state.Holds(net, p.history + [p.last] + emitted[..|emitted| - 1])
    {
      var window := Padded(idLast, drafts, d + 1);
      var rows, ring;
      ok, rows, ring := state.RunVerify(net, window, p.history);
      emitted := [];
      if !ok {
        return;
      }
      WindowRows(net, rules, p, drafts, window, rows, ring, state.kv[..state.position + |window|]);
      emitted := AcceptWhole(rules, rows, drafts, p);
      state.Commit(net, ring, |emitted|, p.history, window, rows);
      Committed(p, window, drafts, emitted);
    }

    /**
     * One round. It emits between one and `d + 1` tokens of plain decoding, and
     * leaves the draft head level with the target. When the cache cannot take a
     * window the round fails, with the draft head already `d` further on.
     */
    method Step(net: Net, rules: Rules, drafts: seq<Token>) returns (ok: bool, emitted: seq<Token>)
      requires Agrees(net, rules) && rules.eos == None && Valid(net) && |drafts| == d
      modifies this, state, state.kv
      ensures ok <==> old(state.position) + d + 1 <= state.kv.Length
      ensures ok ==> Valid(net) && 0 < |emitted| <= d + 1
      ensures ok ==> progress == PlainRun(rules, old(progress), Reach(rules, old(progress), drafts, true))
      ensures ok ==> progress.output == old(progress.output) + emitted
      ensures ok ==> state.position == old(state.position) + |emitted|
      ensures !ok ==> draftPos == state.position + d && state.position == old(state.position)
      ensures !ok ==> progress == old(progress) && idLast == old(idLast) && state.Holds(net, progress.history)
    {
      ghost var p := progress;
      draftPos := draftPos + d;
      ok, emitted := VerifyWindow(net, rules, drafts, p);
      if ok {
        var accepted := |emitted| - 1;
        draftPos := draftPos - d + accepted + 1;
        idLast := emitted[accepted];
        progress := PlainRun(rules, p, Reach(rules, p, drafts, true));
        RunFeeds(rules, p, Reach(rules, p, drafts, true));
      }
    }
  }
}
