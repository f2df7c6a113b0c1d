/**
 * A run in which a worker's first token is applied between its request's
 * admission and the registration of its chain. The chain is one token short
 * from then on, too short for the drift check to have anything to compare, and
 * a later request is handed a prefix it did not send.
 */
module LostTokens {
  import opened Hashes
  import opened Protocols
  import opened ProtocolRuns
  import opened Options
  import opened Streams

  const LATE: Snap := Snap([7, 8], Some(9), {0})

  function Start(): State {
    State(1, map[], map[], map[], [])
  }

  function Admitted(): State {
    Start().(requests := map[0 := Request(0, [7], [7], {}, [], Unregistered, 0)])
  }

  function FirstStep(): State {
    Admitted().(requests := map[0 := Request(0, [7], [7], {}, [8], Unregistered, 0)],
                phases := map[0 := Stepped([(0, 8)], [])])
  }

  function FirstApplied(): State {
    Admitted().(requests := map[0 := Request(0, [7], [7], {}, [8], Unregistered, 1)],
                phases := map[0 := Applied([])])
  }

  function FirstDone(): State {
    FirstApplied().(phases := map[0 := Idle])
  }

  function NowRegistered(): State {
    FirstDone().(requests := map[0 := Request(0, [7], [7], {}, [8], Registered([7]), 1)])
  }

  function SecondStep(): State {
    NowRegistered().(requests := map[0 := Request(0, [7], [7], {}, [8, 9], Registered([7]), 1)],
                     phases := map[0 := Stepped([(0, 9)], [(0, LATE)])])
  }

  function SecondApplied(): State {
    NowRegistered().(requests := map[0 := Request(0, [7], [7], {}, [8, 9], Registered([7, 9]), 1)],
                     phases := map[0 := Applied([(0, LATE)])])
  }

  function NowInstalling(): State {
    SecondApplied().(phases := map[0 := Installing(LATE, [7, 9], 1, [])])
  }

  function Published(): State {
    SecondApplied().(phases := map[0 := Applied([])], shared := map[NameOf([7, 9], 1, 2) := LATE])
  }

  function Misled(): State {
    Published().(handouts := [Handout([7, 9], LATE)])
  }

  /** The misled request, admitted on top of what it was handed. */
  function Resuming(): State {
    Misled().(requests := Misled().requests[1 := Request(0, [7, 9], [7, 8], {0}, [], Unregistered, 0)])
  }

  lemma Tokens(id: nat, v: Value)
    ensures TokensOf([(id, v)], id) == [v]
  {
    assert [(id, v)][..0] == [];
  }

  lemma ToAdmitted()
    ensures Next(Start(), Admit(0, 0, [7], None), Admitted())
  {
  }

  lemma ToFirstStep()
    ensures Next(Admitted(), StepDevice(0, [(0, 8)], []), FirstStep())
  {
    Tokens(0, 8);
    assert Produced(Admitted(), [(0, 8)]) == FirstStep().requests;
  }

  lemma ToFirstApplied()
    ensures Next(FirstStep(), ApplyTokens(0, [(0, 8)]), FirstApplied())
  {
    Tokens(0, 8);
    assert AllPushed(FirstStep(), [(0, 8)]) == FirstApplied().requests;
  }

  lemma ToSecondStep()
    ensures Next(NowRegistered(), StepDevice(0, [(0, 9)], [(0, LATE)]), SecondStep())
  {
    Tokens(0, 9);
    assert [8] + [9] == [8, 9] && [7] + ([8] + [9]) == [7, 8, 9] && LATE.values <= [7, 8, 9];
    assert Produced(NowRegistered(), [(0, 9)]) == SecondStep().requests;
  }

  lemma SecondPushed(r: Request)
    requires r.entry == Registered([7])
    ensures Pushed(r, [9]) == r.(entry := Registered([7, 9]))
  {
    assert [7] + [9] == [7, 9];
  }

  lemma ToSecondApplied()
    ensures Next(SecondStep(), ApplyTokens(0, [(0, 9)]), SecondApplied())
  {
    Tokens(0, 9);
    SecondPushed(SecondStep().requests[0]);
    assert AllPushed(SecondStep(), [(0, 9)]) == SecondApplied().requests;
  }

  lemma ToPublished()
    ensures Next(NowInstalling(), Publish(0), Published())
  {
    assert CanPublish([7, 9], 1, 1, LATE);
  }

  lemma Others()
    ensures Next(FirstApplied(), FinishStep(0), FirstDone()) && Next(FirstDone(), Register(0), NowRegistered())
    ensures Next(SecondApplied(), BeginInstall(0), NowInstalling()) && Next(Published(), Take([7, 9], 2), Misled())
  {
    assert [(0, LATE)][1..] == [];
  }

  /** One more step of a run. */
  lemma Extend(states: seq<State>, actions: seq<Action>, last: State, a: Action, s: State)
    returns (states': seq<State>, actions': seq<Action>)
    requires IsRun(states, actions) && states[|states| - 1] == last && Next(last, a, s)
    ensures IsRun(states', actions') && states'[|states'| - 1] == s
  {
    states', actions' := states + [s], actions + [a];
    forall i | 0 <= i < |actions'|
      ensures Next(states'[i], actions'[i], states'[i + 1])
    {
      if i < |actions| {
        assert Next(states[i], actions[i], states[i + 1]);
      }
    }
  }

  lemma ToRegistered() returns (states: seq<State>, actions: seq<Action>)
    ensures IsRun(states, actions) && states[|states| - 1] == NowRegistered()
  {
    states, actions := [Start()], [];
    ToAdmitted();
    states, actions := Extend(states, actions, Start(), Admit(0, 0, [7], None), Admitted());
    ToFirstStep();
    states, actions := Extend(states, actions, Admitted(), StepDevice(0, [(0, 8)], []), FirstStep());
    ToFirstApplied();
    states, actions := Extend(states, actions, FirstStep(), ApplyTokens(0, [(0, 8)]), FirstApplied());
    Others();
    states, actions := Extend(states, actions, FirstApplied(), FinishStep(0), FirstDone());
    states, actions := Extend(states, actions, FirstDone(), Register(0), NowRegistered());
  }

  lemma ToResuming()
    ensures Next(Misled(), Admit(1, 0, [7, 9], Some(0)), Resuming())
  {
    assert Resumed(LATE.values, [7, 9]) == [7, 8];
  }

  lemma MisledIsUnsound()
    ensures !Sound(Misled().handouts[0]) && Resuming().requests[1].folded != Resuming().requests[1].prompt
  {
    assert LATE.values[1] != [7, 9][1];
    assert Resuming().requests[1].folded[1] != Resuming().requests[1].prompt[1];
  }

  lemma ToMisled() returns (states: seq<State>, actions: seq<Action>)
    ensures IsRun(states, actions) && states[|states| - 1] == Misled()
  {
    states, actions := ToRegistered();
    ToSecondStep();
    states, actions := Extend(states, actions, NowRegistered(), StepDevice(0, [(0, 9)], [(0, LATE)]), SecondStep());
    ToSecondApplied();
    states, actions := Extend(states, actions, SecondStep(), ApplyTokens(0, [(0, 9)]), SecondApplied());
    Others();
    states, actions := Extend(states, actions, SecondApplied(), BeginInstall(0), NowInstalling());
    ToPublished();
    states, actions := Extend(states, actions, NowInstalling(), Publish(0), Published());
    states, actions := Extend(states, actions, Published(), Take([7, 9], 2), Misled());
  }

  /** The snapshot of one stream is handed to a request that sent another, which goes on from there. */
  lemma LostTokenMisleads() returns (states: seq<State>, actions: seq<Action>)
    ensures IsRun(states, actions) && !LosesNothing(actions, |actions|)
    ensures var last := states[|states| - 1];
            && |last.handouts| == 1 && !(last.handouts[0].snap.values <= last.handouts[0].prompt)
            && 1 in last.requests && last.requests[1].folded != last.requests[1].prompt
  {
    states, actions := ToMisled();
    ToResuming();
    states, actions := Extend(states, actions, Misled(), Admit(1, 0, [7, 9], Some(0)), Resuming());
    MisledIsUnsound();
    CleanIff(states, actions, |actions|);
    assert Resuming().requests[0].dropped == 1;
  }
}
