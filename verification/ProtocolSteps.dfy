/** What every step of the shared prefix cache keeps. */
module ProtocolSteps {
  import opened Hashes
  import opened Chains
  import opened Protocols

  lemma {:induction false} NoTokens(generated: seq<(nat, Value)>, id: nat)
    requires forall i | 0 <= i < |generated| :: generated[i].0 != id
    ensures TokensOf(generated, id) == []
  {
    if generated != [] {
      NoTokens(generated[..|generated| - 1], id);
    }
  }

  /** What one step does to a request's entry and losses. */
  ghost predicate Moved(s: State, a: Action, s': State, id: nat) {
    if id !in s.requests then
      a != Register(id)
      && (id in s'.requests ==> s'.requests[id].entry.Unregistered? && s'.requests[id].dropped == 0)
    else
      && id in s'.requests
      && (s'.requests[id].entry.Unregistered? <==> s.requests[id].entry.Unregistered? && a != Register(id))
      && s'.requests[id].dropped == s.requests[id].dropped
         + if a.ApplyTokens? && s.requests[id].entry.Unregistered? then |TokensOf(a.generated, id)| else 0
  }

  lemma StepMoves(s: State, a: Action, s': State, id: nat)
    requires Next(s, a, s')
    ensures Moved(s, a, s', id)
  {
  }

  /** What was lost stays lost. */
  predicate LostStays(s: State, s': State) {
    forall id | id in s.requests :: id in s'.requests && s.requests[id].dropped <= s'.requests[id].dropped
  }

  lemma StepLostStays(s: State, a: Action, s': State)
    requires Next(s, a, s')
    ensures LostStays(s, s')
  {
    forall id | id in s.requests
      ensures id in s'.requests && s.requests[id].dropped <= s'.requests[id].dropped
    {
      StepMoves(s, a, s', id);
    }
  }

  /** A stream that shares a name with a prompt shares what the name stands for. */
  lemma TakeIsSound(size: nat, prompt: seq<Value>, blocks: nat, snap: Snap)
    requires blocks > 0 && Covers(prompt, size, blocks) && NamedRight(size, NameOf(prompt, size, blocks), snap)
    ensures Sound(Handout(prompt, snap))
  {
    var k := |snap.values| / size;
    assert k * size == |snap.values|;
    SameName(snap.values, prompt, size, k, blocks);
    assert snap.values[..k * size] == snap.values;
  }

  /** A worker's requests, as far as its snapshots are of them. */
  ghost predicate SameHeld(before: map<nat, Request>, now: map<nat, Request>, w: nat) {
    forall id | id in before && before[id].worker == w ::
      && id in now && now[id].worker == w
      && now[id].prompt == before[id].prompt && now[id].from == before[id].from && Held(now[id]) == Held(before[id])
  }

  lemma RetainedStays(before: map<nat, Request>, now: map<nat, Request>, w: nat, retained: seq<(nat, Snap)>)
    requires RetainedOk(before, w, retained) && SameHeld(before, now, w)
    ensures RetainedOk(now, w, retained)
  {
  }

  /** A worker's thread that a step is not of. */
  lemma PhaseStays(s: State, s': State, w: nat)
    requires PhaseOk(s, w) && PhaseOf(s', w) == PhaseOf(s, w) && SameHeld(s.requests, s'.requests, w)
    requires LostStays(s, s')
    ensures PhaseOk(s', w)
  {
    if !PhaseOf(s, w).Idle? {
      RetainedStays(s.requests, s'.requests, w, PhaseOf(s, w).retained);
    }
  }

  /** The same requests, run on the same memory. */
  predicate SameFolded(s: State, s': State) {
    forall id | id in s'.requests ::
      && id in s.requests && s'.requests[id].prompt == s.requests[id].prompt
      && s'.requests[id].folded == s.requests[id].folded && s'.requests[id].from == s.requests[id].from
  }

  lemma RestStays(s: State, s': State)
    requires FoldedOk(s) && SharedOk(s) && HandoutsOk(s)
    requires LostStays(s, s') && SameFolded(s, s')
    requires s'.size == s.size && s'.shared == s.shared && s'.handouts == s.handouts
    ensures FoldedOk(s') && SharedOk(s') && HandoutsOk(s')
  {
  }

  /** A step that only touches entries leaves everything else of the requests alone. */
  lemma EntriesOnly(s: State, a: Action, s': State)
    requires Next(s, a, s') && (a.Register? || a.ApplyTokens? || a.Retire?)
    ensures SameFolded(s, s') && forall w :: SameHeld(s.requests, s'.requests, w)
  {
    forall id | id in s.requests
      ensures id in s'.requests
              && s'.requests[id] == s.requests[id].(entry := s'.requests[id].entry, dropped := s'.requests[id].dropped)
    {
    }
  }

  lemma TakeKeeps(s: State, a: Action, s': State)
    requires Inv(s) && a.Take? && Next(s, a, s')
    ensures Inv(s')
  {
    forall id | id in s'.requests
      ensures RequestOk(s', id)
    {
      assert RequestOk(s, id);
    }
    forall w
      ensures PhaseOk(s', w)
    {
      assert PhaseOk(s, w);
    }
    var snap := s.shared[NameOf(a.prompt, s.size, a.blocks)];
    if Intact(s, snap.makers) {
      TakeIsSound(s.size, a.prompt, a.blocks, snap);
    }
    assert forall ids: set<nat> | Intact(s', ids) :: Intact(s, ids);
  }

  lemma AdmitRequest(s: State, a: Action, s': State, id: nat)
    requires Inv(s) && a.Admit? && Next(s, a, s') && id in s'.requests
    ensures RequestOk(s', id)
  {
    if id != a.id {
      assert RequestOk(s, id);
    } else if PhaseOf(s, a.worker).Stepped? {
      assert PhaseOk(s, a.worker);
      NoTokens(PhaseOf(s, a.worker).generated, id);
    }
  }

  /** What was handed out soundly is resumed soundly. */
  lemma AdmitFolded(s: State, a: Action, s': State)
    requires Inv(s) && a.Admit? && Next(s, a, s') && LostStays(s, s')
    ensures FoldedOk(s')
  {
    forall id | id in s'.requests && Intact(s', s'.requests[id].from)
      ensures s'.requests[id].folded == s'.requests[id].prompt
    {
      assert Intact(s, s'.requests[id].from);
      if id == a.id && a.handout.Some? {
        assert Sound(s.handouts[a.handout.value]);
      }
    }
  }

  lemma AdmitKeeps(s: State, a: Action, s': State)
    requires Inv(s) && a.Admit? && Next(s, a, s')
    ensures Inv(s')
  {
    forall id | id in s'.requests
      ensures RequestOk(s', id)
    {
      AdmitRequest(s, a, s', id);
    }
    StepLostStays(s, a, s');
    AdmitFolded(s, a, s');
    forall w
      ensures PhaseOk(s', w)
    {
      assert PhaseOk(s, w);
      PhaseStays(s, s', w);
    }
  }

  lemma RegisterKeeps(s: State, a: Action, s': State)
    requires Inv(s) && a.Register? && Next(s, a, s')
    ensures Inv(s')
  {
    forall id | id in s'.requests
      ensures RequestOk(s', id)
    {
      assert RequestOk(s, id);
    }
    StepLostStays(s, a, s');
    EntriesOnly(s, a, s');
    RestStays(s, s');
    forall w
      ensures PhaseOk(s', w)
    {
      assert PhaseOk(s, w);
      PhaseStays(s, s', w);
    }
  }

  /** A step's tokens are its own worker's requests' only. */
  lemma OthersGetNone(requests: map<nat, Request>, w: nat, generated: seq<(nat, Value)>, id: nat)
    requires forall i | 0 <= i < |generated| ::
               generated[i].0 in requests && requests[generated[i].0].worker == w
    requires id in requests && requests[id].worker != w
    ensures TokensOf(generated, id) == []
  {
    NoTokens(generated, id);
  }

  lemma StepRequest(s: State, a: Action, s': State, id: nat)
    requires id in s.requests && RequestOk(s, id) && a.StepDevice? && Next(s, a, s')
    ensures RequestOk(s', id) && (s.requests[id].worker != a.worker ==> s'.requests[id] == s.requests[id])
  {
    var r, tokens := s.requests[id], TokensOf(a.generated, id);
    assert forall i | 0 <= i < |a.generated| :: a.generated[i] in a.generated;
    if r.worker != a.worker {
      OthersGetNone(s.requests, a.worker, a.generated, id);
      assert r.output + tokens == r.output;
    } else {
      assert r.prompt + (r.output + tokens) == Whole(r) + tokens;
      assert r.folded + (r.output + tokens) == Held(r) + tokens;
    }
  }

  lemma StepKeeps(s: State, a: Action, s': State)
    requires Inv(s) && a.StepDevice? && Next(s, a, s')
    ensures Inv(s')
  {
    forall id | id in s'.requests
      ensures RequestOk(s', id)
    {
      assert RequestOk(s, id);
      StepRequest(s, a, s', id);
    }
    StepLostStays(s, a, s');
    RestStays(s, s');
    forall w
      ensures PhaseOk(s', w)
    {
      StepPhase(s, a, s', w);
    }
  }

  /** What a step retains is of what its requests' memory has come to. */
  lemma StepRetained(s: State, a: Action, s': State)
    requires a.StepDevice? && Next(s, a, s')
    ensures RetainedOk(s'.requests, a.worker, a.retained)
  {
    forall i | 0 <= i < |a.retained|
      ensures a.retained[i].0 in s.requests
      ensures Held(s'.requests[a.retained[i].0])
           == Held(s.requests[a.retained[i].0]) + TokensOf(a.generated, a.retained[i].0)
    {
      assert a.retained[i] in a.retained;
      var r, tokens := s.requests[a.retained[i].0], TokensOf(a.generated, a.retained[i].0);
      assert r.folded + (r.output + tokens) == Held(r) + tokens;
    }
    assert forall i | 0 <= i < |a.retained| :: a.retained[i] in a.retained;
  }

  lemma StepPhase(s: State, a: Action, s': State, w: nat)
    requires Inv(s) && a.StepDevice? && Next(s, a, s') && LostStays(s, s')
    ensures PhaseOk(s', w)
  {
    if w == a.worker {
      assert forall i | 0 <= i < |a.generated| :: a.generated[i] in a.generated;
      StepRetained(s, a, s');
    } else {
      assert PhaseOk(s, w);
      forall id | id in s.requests && s.requests[id].worker == w
        ensures s'.requests[id] == s.requests[id]
      {
        assert RequestOk(s, id);
        StepRequest(s, a, s', id);
      }
      PhaseStays(s, s', w);
    }
  }

  lemma ApplyRequest(s: State, a: Action, s': State, id: nat)
    requires Inv(s) && a.ApplyTokens? && Next(s, a, s') && id in s.requests
    ensures RequestOk(s', id)
  {
    assert RequestOk(s, id) && PhaseOk(s, a.worker);
    var r, generated := s.requests[id], PhaseOf(s, a.worker).generated;
    if r.worker != a.worker {
      OthersGetNone(s.requests, a.worker, generated, id);
      if r.entry.Registered? {
        assert r.entry.chain + [] == r.entry.chain;
      }
    } else if r.entry.Registered? {
      var chain, tokens := r.entry.chain, TokensOf(generated, id);
      assert (chain + tokens) + [] == chain + tokens;
    }
  }

  lemma ApplyKeeps(s: State, a: Action, s': State)
    requires Inv(s) && a.ApplyTokens? && Next(s, a, s')
    ensures Inv(s')
  {
    forall id | id in s'.requests
      ensures RequestOk(s', id)
    {
      ApplyRequest(s, a, s', id);
    }
    StepLostStays(s, a, s');
    EntriesOnly(s, a, s');
    RestStays(s, s');
    forall w
      ensures PhaseOk(s', w)
    {
      ApplyPhase(s, a, s', w);
    }
  }

  lemma ApplyPhase(s: State, a: Action, s': State, w: nat)
    requires Inv(s) && a.ApplyTokens? && Next(s, a, s') && LostStays(s, s')
    ensures PhaseOk(s', w)
  {
    assert PhaseOk(s, w);
    EntriesOnly(s, a, s');
    if w == a.worker {
      RetainedStays(s.requests, s'.requests, w, PhaseOf(s, w).retained);
    } else {
      PhaseStays(s, s', w);
    }
  }

  /** A registered chain that lost nothing is the whole stream so far, so it has whatever was retained of it. */
  lemma ChainHasSnap(s: State, id: nat, snap: Snap)
    requires id in s.requests && RequestOk(s, id) && FoldedOk(s)
    requires s.requests[id].entry.Registered? && !PhaseOf(s, s.requests[id].worker).Stepped?
    requires SnapOf(Held(s.requests[id]), |s.requests[id].prompt|, snap) && snap.makers == s.requests[id].from + {id}
    ensures Intact(s, snap.makers) ==> SnapOf(s.requests[id].entry.chain, |s.requests[id].prompt|, snap)
  {
    var r := s.requests[id];
    if Intact(s, snap.makers) {
      assert Intact(s, r.from) && r.dropped == 0;
      assert r.entry.chain + [] == r.entry.chain;
    }
  }

  lemma InstallPhase(s: State, a: Action, s': State)
    requires Inv(s) && a.BeginInstall? && Next(s, a, s')
    ensures PhaseOk(s', a.worker)
  {
    assert PhaseOk(s, a.worker);
    var first := PhaseOf(s, a.worker).retained[0];
    assert RequestOk(s, first.0);
    if s.requests[first.0].entry.Registered? {
      ChainHasSnap(s, first.0, first.1);
      assert Intact(s', first.1.makers) ==> Intact(s, first.1.makers);
    }
  }

  lemma BeginInstallKeeps(s: State, a: Action, s': State)
    requires Inv(s) && a.BeginInstall? && Next(s, a, s')
    ensures Inv(s')
  {
    RestStays(s, s');
    forall id | id in s'.requests
      ensures RequestOk(s', id)
    {
      assert RequestOk(s, id);
    }
    InstallPhase(s, a, s');
    forall w | w != a.worker
      ensures PhaseOk(s', w)
    {
      assert PhaseOk(s, w);
      PhaseStays(s, s', w);
    }
  }

  /** The records disagree where the chain's block that is being filled has another value than the snapshot names. */
  lemma DriftedIff(chain: seq<Value>, promptLen: nat, size: nat, snap: Snap)
    requires size > 0
    ensures Drifted(chain, promptLen, size, snap) <==>
            var at := |snap.values|;
            && snap.next.Some? && promptLen <= at < |chain| && |chain| - |chain| % size <= at
            && snap.next.value != chain[at]
  {
  }

  lemma PublishNamesRight(chain: seq<Value>, promptLen: nat, size: nat, snap: Snap)
    requires CanPublish(chain, promptLen, size, snap) && SnapOf(chain, promptLen, snap)
    ensures NamedRight(size, LeafName(chain, size, |snap.values|), snap)
  {
    var blocks := |snap.values| / size;
    assert blocks * size == |snap.values|;
    assert chain[..blocks * size] == snap.values == snap.values[..blocks * size];
    NameOfPrefix(chain, snap.values, size, blocks);
  }

  lemma PublishKeeps(s: State, a: Action, s': State)
    requires Inv(s) && a.Publish? && Next(s, a, s')
    ensures Inv(s')
  {
    forall id | id in s'.requests
      ensures RequestOk(s', id)
    {
      assert RequestOk(s, id);
    }
    forall w
      ensures PhaseOk(s', w)
    {
      assert PhaseOk(s, w);
    }
    assert PhaseOk(s, a.worker);
    var phase := PhaseOf(s, a.worker);
    if Intact(s, phase.snap.makers) {
      PublishNamesRight(phase.chain, phase.promptLen, s.size, phase.snap);
    }
  }

  lemma MoveOnKeeps(s: State, a: Action, s': State)
    requires Inv(s) && (a.Decline? || a.FinishStep?) && Next(s, a, s')
    ensures Inv(s')
  {
    RestStays(s, s');
    forall id | id in s'.requests
      ensures RequestOk(s', id)
    {
      assert RequestOk(s, id);
    }
    forall w
      ensures PhaseOk(s', w)
    {
      assert PhaseOk(s, w);
    }
  }

  lemma ForgetKeeps(s: State, a: Action, s': State)
    requires Inv(s) && a.Forget? && Next(s, a, s')
    ensures Inv(s')
  {
    forall id | id in s'.requests
      ensures RequestOk(s', id)
    {
      assert RequestOk(s, id);
    }
    forall w
      ensures PhaseOk(s', w)
    {
      assert PhaseOk(s, w);
    }
  }

  lemma RetireKeeps(s: State, a: Action, s': State)
    requires Inv(s) && a.Retire? && Next(s, a, s')
    ensures Inv(s')
  {
    forall id | id in s'.requests
      ensures RequestOk(s', id)
    {
      assert RequestOk(s, id);
    }
    StepLostStays(s, a, s');
    EntriesOnly(s, a, s');
    RestStays(s, s');
    forall w
      ensures PhaseOk(s', w)
    {
      assert PhaseOk(s, w);
      PhaseStays(s, s', w);
    }
  }

  lemma StepKeepsInv(s: State, a: Action, s': State)
    requires Inv(s) && Next(s, a, s')
    ensures Inv(s')
  {
    match a
    case Take(_, _) => TakeKeeps(s, a, s');
    case Admit(_, _, _, _) => AdmitKeeps(s, a, s');
    case Register(_) => RegisterKeeps(s, a, s');
    case StepDevice(_, _, _) => StepKeeps(s, a, s');
    case ApplyTokens(_, _) => ApplyKeeps(s, a, s');
    case BeginInstall(_) => BeginInstallKeeps(s, a, s');
    case Publish(_) => PublishKeeps(s, a, s');
    case Decline(_) => MoveOnKeeps(s, a, s');
    case FinishStep(_) => MoveOnKeeps(s, a, s');
    case Forget(_) => ForgetKeeps(s, a, s');
    case Retire(_) => RetireKeeps(s, a, s');
  }
}
