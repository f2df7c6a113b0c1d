/** What holds of every run of the shared prefix cache, whichever threads take its steps. */
module ProtocolRuns {
  import opened Protocols
  import opened ProtocolSteps

  /** A run: one step after another, by whichever thread. */
  ghost predicate IsRun(states: seq<State>, actions: seq<Action>) {
    && |states| == |actions| + 1 && Init(states[0])
    && forall i | 0 <= i < |actions| :: Next(states[i], actions[i], states[i + 1])
  }

  lemma {:induction false} RunKeepsInv(states: seq<State>, actions: seq<Action>, n: nat)
    requires IsRun(states, actions) && n < |states|
    ensures Inv(states[n])
    decreases n
  {
    if n > 0 {
      RunKeepsInv(states, actions, n - 1);
      assert Next(states[n - 1], actions[n - 1], states[n - 1 + 1]);
      StepKeepsInv(states[n - 1], actions[n - 1], states[n]);
    }
  }

  // ----- when tokens are lost, as the run's steps tell -----

  predicate RegisteredBefore(actions: seq<Action>, n: nat, id: nat)
    requires n <= |actions|
  {
    Register(id) in actions[..n]
  }

  /** Some of the applied tokens are this request's. */
  predicate Carries(a: Action, id: nat) {
    a.ApplyTokens? && TokensOf(a.generated, id) != []
  }

  /** None of a request's tokens was applied before its chain was registered. */
  ghost predicate LosesNone(actions: seq<Action>, n: nat, id: nat)
    requires n <= |actions|
  {
    forall i | 0 <= i < n && Carries(actions[i], id) :: RegisteredBefore(actions, i, id)
  }

  ghost predicate LosesNothing(actions: seq<Action>, n: nat)
    requires n <= |actions|
  {
    forall id :: LosesNone(actions, n, id)
  }

  lemma RegisteredMore(actions: seq<Action>, n: nat, id: nat)
    requires n < |actions|
    ensures RegisteredBefore(actions, n + 1, id) <==> RegisteredBefore(actions, n, id) || actions[n] == Register(id)
  {
    assert actions[..n + 1] == actions[..n] + [actions[n]];
  }

  lemma LosesMore(actions: seq<Action>, n: nat, id: nat)
    requires n < |actions|
    ensures LosesNone(actions, n + 1, id) <==>
            LosesNone(actions, n, id) && (Carries(actions[n], id) ==> RegisteredBefore(actions, n, id))
  {
    if LosesNone(actions, n, id) && (Carries(actions[n], id) ==> RegisteredBefore(actions, n, id)) {
      forall i | 0 <= i < n + 1 && Carries(actions[i], id)
        ensures RegisteredBefore(actions, i, id)
      {
      }
    }
  }

  /** A request no step has brought in yet. */
  lemma {:induction false} NotThereYet(states: seq<State>, actions: seq<Action>, n: nat, id: nat)
    requires IsRun(states, actions) && n < |states| && id !in states[n].requests
    ensures !RegisteredBefore(actions, n, id) && LosesNone(actions, n, id)
    decreases n
  {
    if n > 0 {
      assert Next(states[n - 1], actions[n - 1], states[n - 1 + 1]);
      StepMoves(states[n - 1], actions[n - 1], states[n], id);
      NotThereYet(states, actions, n - 1, id);
      RegisteredMore(actions, n - 1, id);
      LosesMore(actions, n - 1, id);
      if Carries(actions[n - 1], id) {
        RunKeepsInv(states, actions, n - 1);
        assert PhaseOk(states[n - 1], actions[n - 1].worker);
        NoTokens(actions[n - 1].generated, id);
      }
    }
  }

  /** What the steps so far say of a request is what its entry and its losses say. */
  ghost predicate Accounted(actions: seq<Action>, n: nat, id: nat, r: Request)
    requires n <= |actions|
  {
    && (r.entry.Unregistered? <==> !RegisteredBefore(actions, n, id))
    && (r.dropped == 0 <==> LosesNone(actions, n, id))
  }

  lemma {:induction false} RunAccounts(states: seq<State>, actions: seq<Action>, n: nat, id: nat)
    requires IsRun(states, actions) && n < |states| && id in states[n].requests
    ensures Accounted(actions, n, id, states[n].requests[id])
    decreases n
  {
    if n > 0 {
      var a := actions[n - 1];
      assert Next(states[n - 1], a, states[n - 1 + 1]);
      StepMoves(states[n - 1], a, states[n], id);
      RegisteredMore(actions, n - 1, id);
      LosesMore(actions, n - 1, id);
      if id in states[n - 1].requests {
        RunAccounts(states, actions, n - 1, id);
      } else {
        NotThereYet(states, actions, n - 1, id);
      }
    }
  }

  lemma AllAccounted(states: seq<State>, actions: seq<Action>, n: nat)
    requires IsRun(states, actions) && n < |states|
    ensures forall id :: if id in states[n].requests then Accounted(actions, n, id, states[n].requests[id])
                         else LosesNone(actions, n, id)
  {
    forall id
      ensures if id in states[n].requests then Accounted(actions, n, id, states[n].requests[id])
              else LosesNone(actions, n, id)
    {
      if id in states[n].requests {
        RunAccounts(states, actions, n, id);
      } else {
        NotThereYet(states, actions, n, id);
      }
    }
  }

  /** None of these requests' tokens was applied before its chain was registered. */
  ghost predicate AllLoseNone(actions: seq<Action>, n: nat, ids: set<nat>)
    requires n <= |actions|
  {
    forall id | id in ids :: LosesNone(actions, n, id)
  }

  /** Which requests have lost tokens can be told from the run's steps. */
  lemma IntactIff(states: seq<State>, actions: seq<Action>, n: nat, ids: set<nat>)
    requires IsRun(states, actions) && n < |states|
    ensures Intact(states[n], ids) <==> AllLoseNone(actions, n, ids)
  {
    AllAccounted(states, actions, n);
  }

  /** No token has been lost exactly when none was applied to a request without a chain. */
  lemma CleanIff(states: seq<State>, actions: seq<Action>, n: nat)
    requires IsRun(states, actions) && n < |states|
    ensures Clean(states[n]) <==> LosesNothing(actions, n)
  {
    AllAccounted(states, actions, n);
  }

  // ----- what holds of every run -----

  /**
   * Over every interleaving: a request is handed only a prefix that it sent, if
   * the snapshot's producer, and whatever that was itself resumed from, lost no
   * token; and its worker's memory is of its own prompt, if that holds of what it
   * was resumed from. What other requests lose does not matter.
   */
  lemma HandedOnlyOwnPrefix(states: seq<State>, actions: seq<Action>, n: nat)
    requires IsRun(states, actions) && n < |states|
    ensures forall i | 0 <= i < |states[n].handouts| && AllLoseNone(actions, n, states[n].handouts[i].snap.makers) ::
              states[n].handouts[i].snap.values <= states[n].handouts[i].prompt
    ensures forall id | id in states[n].requests && AllLoseNone(actions, n, states[n].requests[id].from) ::
              states[n].requests[id].folded == states[n].requests[id].prompt
  {
    RunKeepsInv(states, actions, n);
    var s := states[n];
    forall i | 0 <= i < |s.handouts| && AllLoseNone(actions, n, s.handouts[i].snap.makers)
      ensures s.handouts[i].snap.values <= s.handouts[i].prompt
    {
      IntactIff(states, actions, n, s.handouts[i].snap.makers);
      assert Sound(s.handouts[i]);
    }
    forall id | id in s.requests && AllLoseNone(actions, n, s.requests[id].from)
      ensures s.requests[id].folded == s.requests[id].prompt
    {
      IntactIff(states, actions, n, s.requests[id].from);
    }
  }

  /** And the two records of what followed a snapshot do not disagree. */
  lemma DriftNeverFound(states: seq<State>, actions: seq<Action>, n: nat, w: nat)
    requires IsRun(states, actions) && n < |states| && states[n].size > 0 && PhaseOf(states[n], w).Installing?
    requires AllLoseNone(actions, n, PhaseOf(states[n], w).snap.makers)
    ensures var phase := PhaseOf(states[n], w);
            !Drifted(phase.chain, phase.promptLen, states[n].size, phase.snap)
  {
    RunKeepsInv(states, actions, n);
    IntactIff(states, actions, n, PhaseOf(states[n], w).snap.makers);
    assert PhaseOk(states[n], w);
  }

  /**
   * Exactly when a registered chain, with what is on its way to it, is what its
   * request sent and was sent back: when none of its tokens was applied before
   * it was registered.
   */
  lemma ChainExactIff(states: seq<State>, actions: seq<Action>, n: nat, id: nat)
    requires IsRun(states, actions) && n < |states| && id in states[n].requests
    requires states[n].requests[id].entry.Registered?
    ensures var r := states[n].requests[id];
            r.entry.chain + Unapplied(states[n], r.worker, id) == Whole(r) <==> LosesNone(actions, n, id)
  {
    RunKeepsInv(states, actions, n);
    RunAccounts(states, actions, n, id);
    assert RequestOk(states[n], id);
    var r := states[n].requests[id];
    assert |r.entry.chain + Unapplied(states[n], r.worker, id)| == |Whole(r)| - r.dropped;
  }
}
