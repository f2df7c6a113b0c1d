/** A tool whose name holds a trigger: the same output, cut two ways, is masked one way and broken the other. */
module AngleNames {
  import opened Tools
  import opened Machines
  import opened CallGrammar
  import opened Builders
  import opened Compilers
  import opened MaskLaws
  import opened Watching
  import opened Constraints

  function Named(): seq<ToolSpec> {
    [ToolSpec(Ascii("<tool_call>"), [])]
  }

  function Inner(): Bytes {
    Ascii("<tool_call>")
  }

  function Opening(): Bytes {
    Ascii("<function=")
  }

  function Ending(): Bytes {
    Ascii(">")
  }

  function Outer(): Bytes {
    Opening() + Inner() + Ending()
  }

  lemma NamedTriggers()
    ensures Triggers(Named()) == [Inner(), Outer()]
  {
  }

  /** In one piece the tool's own trigger is seen. */
  lemma WholeIsRead()
    ensures Watched(Triggers(Named()), [Outer()]) == Reading(0) && Concat([Outer()]) == Outer()
  {
    NamedTriggers();
    WatchedOne(Triggers(Named()), Outer());
    assert Outer()[0..|Outer()|] == Outer() && Occurs(Outer(), Outer(), 0);
    assert TriggerAt(Triggers(Named()), Outer(), 0);
  }

  lemma InnerStartsAtTen(at: nat)
    requires TriggerAt(Triggers(Named()), Opening() + Inner(), at)
    ensures at >= 10
  {
    NamedTriggers();
    var head := Opening() + Inner();
    var trigger :| trigger in Triggers(Named()) && Occurs(trigger, head, at);
    assert trigger == Inner();
    var there := head[at..at + |Inner()|];
    assert head[at] == there[0] && head[at + 1] == there[1];
  }

  /** Cut before the last byte, the other trigger is seen first. */
  lemma CutIsReadLate()
    ensures Watched(Triggers(Named()), [Opening() + Inner(), Ending()]) == Reading(10)
    ensures Concat([Opening() + Inner(), Ending()]) == Outer()
  {
    NamedTriggers();
    var head := Opening() + Inner();
    assert head[10..10 + |Inner()|] == Inner() && Occurs(Inner(), head, 10);
    assert Inner() in Triggers(Named()) && TriggerAt(Triggers(Named()), head, 10);
    WatchedTwo(Triggers(Named()), head, Ending());
    InnerStartsAtTen(Earliest(Triggers(Named()), head));
  }

  lemma CallsOpenWithAName(tools: seq<ToolSpec>, calls: seq<Call>)
    requires CallsInRange(tools, calls) && calls != []
    ensures |PrintCalls(tools, calls)| > 1 && PrintCalls(tools, calls)[1] == Opening()[1]
  {
    assert CallInRange(tools, calls[0]);
    assert FunctionOpen(tools[calls[0].tool])[1] == Opening()[1];
  }

  /** A turn begins with the header line or with a call's. */
  lemma TurnOpens(tools: seq<ToolSpec>, turn: Turn)
    requires CallsInRange(tools, turn.calls) && turn.calls != []
    ensures var s := PrintTurn(tools, turn);
            |s| > 1 && (s[1] == Opening()[1] || (|s| > 11 && s[11] == CallOpen()[11]))
  {
    CallsOpenWithAName(tools, turn.calls);
    if turn.headed {
      assert PrintTurn(tools, turn) == CallOpen() + PrintCalls(tools, turn.calls);
    } else {
      assert PrintTurn(tools, turn) == PrintCalls(tools, turn.calls);
    }
  }

  lemma LateReadIsNotViable(parallel: bool)
    ensures !Viable(Named(), parallel, Inner() + Ending())
  {
    var s := Inner() + Ending();
    assert s[1] != Opening()[1] && s[11] != CallOpen()[11];
    forall rest: Bytes
      ensures !InGrammar(Tracked, Named(), parallel, s + rest)
    {
      if InGrammar(Tracked, Named(), parallel, s + rest) {
        var turn :| WritesTurn(Tracked, Named(), parallel, s + rest, turn);
        TurnOpens(Named(), turn);
      }
    }
  }

  lemma WholeIsAlive(m: Machine, owner: Owner, parallel: bool)
    requires IsCompiled(m, owner, Named(), parallel)
    ensures WellFormed(m) && RunSet(m, StartSet(m), Outer()[0..]) != {}
  {
    NamedTriggers();
    assert Outer()[0..] == Outer() && Outer() in [Inner(), Outer()];
    TriggerAlive(m, owner, Named(), parallel, Outer());
  }

  lemma FromInner()
    ensures Outer()[10..] == Inner() + Ending()
  {
  }

  lemma NamedHaveLiterals()
    ensures AllHaveLiterals(Named())
  {
    assert AnyLiterals(Named()[0]);
  }

  lemma LateIsDead(m: Machine, owner: Owner, parallel: bool)
    requires IsCompiled(m, owner, Named(), parallel)
    ensures WellFormed(m) && RunSet(m, StartSet(m), Inner() + Ending()) == {}
  {
    NamedHaveLiterals();
    LateReadIsNotViable(parallel);
    SurvivesIffViable(m, owner, Named(), parallel, Inner() + Ending());
  }

  /** The same output: alive when read from its start, dead when the cut made the reading start late. */
  lemma CutDecidesBroken(m: Machine, owner: Owner, parallel: bool) returns (whole: seq<Bytes>, cut: seq<Bytes>)
    requires IsCompiled(m, owner, Named(), parallel)
    ensures WellFormed(m) && Concat(whole) == Concat(cut)
    ensures CursorsAfter(m, Watched(Triggers(Named()), whole), Concat(whole)) != {}
    ensures CursorsAfter(m, Watched(Triggers(Named()), cut), Concat(cut)) == {}
    ensures Watched(Triggers(Named()), cut).Reading?
  {
    whole, cut := [Outer()], [Opening() + Inner(), Ending()];
    WholeIsRead();
    CutIsReadLate();
    WholeIsAlive(m, owner, parallel);
    LateIsDead(m, owner, parallel);
    FromInner();
  }
}
