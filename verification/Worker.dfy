/** A worker's sequences, which share one arena and take turns in any order. */
module Workers {
  import opened Decoding
  import opened States
  import opened Retentions
  import opened Shapes
  import opened Serving
  import opened Prefilling
  import opened Admission
  import opened Driving
  import opened Options
  import Arenas

  /** No two sequences share anything but the arena. */
  predicate Apart(a: RuntimeSequence, b: RuntimeSequence) {
    a != b && a.state != b.state && a.state.kv != b.state.kv && a.retention != b.retention
  }

  ghost function Retaining(qs: seq<RuntimeSequence>): set<Retention> {
    set q | q in qs :: q.retention
  }

  /** Each sequence's last snapshot. */
  ghost function Lasts(qs: seq<RuntimeSequence>): (lasts: seq<Option<nat>>)
    reads Retaining(qs)
    ensures |lasts| == |qs| && forall i | 0 <= i < |qs| :: lasts[i] == qs[i].retention.lastSnapshot
  {
    seq(|qs|, i requires 0 <= i < |qs| reads Retaining(qs) => qs[i].retention.lastSnapshot)
  }

  /** There is a handle for every sequence's last snapshot, one each. */
  ghost predicate Covered(lasts: seq<Option<nat>>, handles: multiset<nat>) {
    forall id: nat {:trigger handles[id]} :: multiset(lasts)[Some(id)] <= handles[id]
  }

  lemma CoveredHas(lasts: seq<Option<nat>>, handles: multiset<nat>, i: nat)
    requires Covered(lasts, handles) && i < |lasts| && lasts[i].Some?
    ensures lasts[i].value in handles
  {
    assert lasts[i] in lasts;
    assert handles[lasts[i].value] >= multiset(lasts)[lasts[i]] > 0;
  }

  /** A sequence that spares the others' handles leaves one for each of them. */
  lemma CoveredStays(lasts: seq<Option<nat>>, handles: multiset<nat>, i: nat, own: Option<nat>, handles': multiset<nat>)
    requires Covered(lasts, handles) && i < |lasts|
    requires Arenas.Spares(Arenas.Holding(handles, lasts[i]), Arenas.Holding(handles', own))
    ensures Covered(lasts[i := own], handles')
  {
    forall id: nat
      ensures multiset(lasts[i := own])[Some(id)] <= handles'[id]
    {
      assert multiset(lasts[i := own]) == multiset(lasts) - multiset{lasts[i]} + multiset{own};
      assert multiset(lasts)[Some(id)] <= handles[id];
      assert Arenas.Others(Arenas.Holding(handles, lasts[i]), id) <= Arenas.Others(Arenas.Holding(handles', own), id);
    }
  }

  lemma CoveredMore(lasts: seq<Option<nat>>, handles: multiset<nat>, own: Option<nat>, handles': multiset<nat>)
    requires Covered(lasts, handles)
    requires handles' == handles + if own.Some? then multiset{own.value} else multiset{}
    ensures Covered(lasts + [own], handles')
  {
    forall id: nat
      ensures multiset(lasts + [own])[Some(id)] <= handles'[id]
    {
      assert multiset(lasts + [own]) == multiset(lasts) + multiset{own};
      assert multiset(lasts)[Some(id)] <= handles[id];
    }
  }

  // ----- one sequence -----

  /** How a sequence's tokens are chosen, and the one named for it if its prompt was restored whole. */
  datatype Seed = Seed(rules: Rules, chooser: Chooser, given: Option<Token>)

  /** Where decoding starts; a sampler may have drawn once already. */
  function Start(seed: Seed, stream: seq<Token>, drawn: bool): Progress {
    if seed.given.Some? then FirstGiven(seed.rules, stream, seed.chooser, seed.given.value)
    else FirstToken(seed.rules, stream, DrawnFrom(seed.rules, seed.chooser, seed.rules.row(stream), drawn))
  }

  /** Plain decoding has come to `p` in `n` steps. */
  ghost predicate CameBy(seed: Seed, stream: seq<Token>, cap: nat, p: Progress, drawn: bool, n: nat) {
    var first := Start(seed, stream, drawn);
    first.output <= p.output && Came(seed.rules, first, p, n, cap, p.output[|first.output|..])
  }

  ghost predicate OnCourse(seed: Seed, stream: seq<Token>, cap: nat, p: Progress) {
    exists drawn: bool, n: nat :: CameBy(seed, stream, cap, p, drawn, n)
  }

  lemma StartTracks(seed: Seed, stream: seq<Token>, cap: nat, drawn: bool)
    requires cap > 0
    ensures Tracks(stream, Start(seed, stream, drawn))
    ensures CameBy(seed, stream, cap, Start(seed, stream, drawn), drawn, 0)
  {
  }

  lemma CourseOn(seed: Seed, stream: seq<Token>, cap: nat, p: Progress, step: Step, next: Progress,
                 more: seq<Token>)
    requires cap > 0 && OnCourse(seed, stream, cap, p) && !Finished(p, cap)
    requires next == ServeStep(seed.rules, p, cap, step) && next.output == p.output + more
    ensures OnCourse(seed, stream, cap, next)
  {
    var drawn: bool, n: nat :| CameBy(seed, stream, cap, p, drawn, n);
    var first := Start(seed, stream, drawn);
    StartTracks(seed, stream, cap, drawn);
    var generated := p.output[|first.output|..];
    var m := CameOn(seed.rules, stream, first, p, n, cap, generated, step, next, more);
    assert next.output[|first.output|..] == generated + more;
    assert CameBy(seed, stream, cap, next, drawn, m);
  }

  /** A sequence that has finished is where plain decoding with its cap ends, from its start. */
  ghost predicate Plain(q: RuntimeSequence, seed: Seed)
    reads q
  {
    q.decoding && Finished(q.progress, q.maxOutput) ==>
      exists drawn: bool :: Ended(seed.rules, Start(seed, q.stream, drawn), q.progress, q.maxOutput)
  }

  lemma CourseEnds(seed: Seed, stream: seq<Token>, cap: nat, p: Progress)
    requires cap > 0
    ensures OnCourse(seed, stream, cap, p) && Finished(p, cap) ==>
              exists drawn: bool :: Ended(seed.rules, Start(seed, stream, drawn), p, cap)
  {
    if drawn: bool, n: nat :| CameBy(seed, stream, cap, p, drawn, n) && Finished(p, cap) {
      var first := Start(seed, stream, drawn);
      StartTracks(seed, stream, cap, drawn);
      CameToTheEnd(seed.rules, stream, first, p, n, cap, p.output[|first.output|..]);
    }
  }

  /** On its way through its prompt, or along plain decoding. */
  ghost predicate Runs(q: RuntimeSequence, net: Net, seed: Seed)
    reads q
  {
    && Agrees(net, seed.rules) && HostOk(seed.rules) && !Masking(seed.rules, seed.chooser) && q.maxOutput > 0
    && if q.decoding then OnCourse(seed, q.stream, q.maxOutput, q.progress)
       else
         && q.chooser == seed.chooser && (q.prefilled == |q.prompt| <==> seed.given.Some?)
         && (seed.given.Some? ==> q.nextToken == seed.given)
  }

  /** What a turn is given to work with. */
  datatype Turn = Turn(budget: nat, proposal: seq<Token>, minimum: nat, batched: bool)

  /** More of the prompt. */
  method PrefillTurn(q: RuntimeSequence, net: Net, plan: Plan, seed: Seed, turn: Turn)
    requires q.Valid(net) && Runs(q, net, seed) && q.prefilled < |q.prompt| && !q.decoding
    requires Built(plan) && plan.interval == q.retention.interval
    modifies q, q.state, q.state.kv, q.retention, q.retention.arena
    ensures q.Valid(net) && Runs(q, net, seed)
    ensures CapturedOn(old(q.retention.arena.captured), q.retention.arena.captured)
    ensures Arenas.Spares(old(q.retention.Holding()), q.retention.Holding())
  {
    ghost var drawn := OutAtEnd(q);
    StartTracks(seed, q.stream, q.maxOutput, drawn);
    var tokens := Slice(turn.budget, |q.prompt| - q.prefilled);
    var widths, records := ExecutePrefill(q, net, seed.rules, plan, tokens);
  }

  /** One decode step. */
  method DecodeTurn(q: RuntimeSequence, net: Net, seed: Seed, turn: Turn)
    requires q.Valid(net) && Runs(q, net, seed) && q.Live() && (turn.proposal == [] || |turn.proposal| < q.window)
    modifies q, q.state, q.state.kv, q.retention, q.retention.arena
    ensures q.Valid(net) && Runs(q, net, seed)
    ensures CapturedOn(old(q.retention.arena.captured), q.retention.arena.captured)
    ensures Arenas.Spares(old(q.retention.Holding()), q.retention.Holding())
  {
    ghost var p := q.progress;
    ghost var step;
    var tokens, records;
    tokens, records, step := q.DecodeStep(net, seed.rules, turn.proposal, turn.minimum, turn.batched);
    CourseOn(seed, q.stream, q.maxOutput, p, step, q.progress, tokens);
  }

  /** Whatever a sequence is due next. A finished one sits its turns out. */
  method TakeTurn(q: RuntimeSequence, net: Net, plan: Plan, seed: Seed, turn: Turn)
    requires q.Valid(net) && Runs(q, net, seed) && (turn.proposal == [] || |turn.proposal| < q.window)
    requires Built(plan) && plan.interval == q.retention.interval
    modifies q, q.state, q.state.kv, q.retention, q.retention.arena
    ensures q.Valid(net) && Runs(q, net, seed)
    ensures CapturedOn(old(q.retention.arena.captured), q.retention.arena.captured)
    ensures Arenas.Spares(old(q.retention.Holding()), q.retention.Holding())
  {
    if q.emitted == 0 && q.prefilled < |q.prompt| {
      PrefillTurn(q, net, plan, seed, turn);
    } else if q.emitted == 0 {
      StartTracks(seed, q.stream, q.maxOutput, false);
      var ok := ResumeWhole(q, net, seed.rules);
    } else if q.emitted < q.maxOutput {
      DecodeTurn(q, net, seed, turn);
    }
  }

  // ----- all of them -----

  ghost function Objects(qs: seq<RuntimeSequence>): set<object> {
    (set i | 0 <= i < |qs| :: qs[i] as object) + (set i | 0 <= i < |qs| :: qs[i].state as object)
    + (set i | 0 <= i < |qs| :: qs[i].state.kv as object) + (set i | 0 <= i < |qs| :: qs[i].retention as object)
  }

  /** A sequence on this arena, as it should be. */
  ghost predicate Fine(q: RuntimeSequence, seed: Seed, net: Net, arena: Arenas.SnapshotArena)
    reads q, q.state, q.state.kv, q.retention, q.retention.arena
  {
    q.retention.arena == arena && q.Valid(net) && Runs(q, net, seed)
  }

  predicate AllApart(qs: seq<RuntimeSequence>) {
    forall i, j | 0 <= i < |qs| && 0 <= j < |qs| && i != j :: Apart(qs[i], qs[j])
  }

  lemma ApartMore(qs: seq<RuntimeSequence>, q: RuntimeSequence)
    requires AllApart(qs) && forall j | 0 <= j < |qs| :: Apart(qs[j], q)
    ensures AllApart(qs + [q])
  {
    var more := qs + [q];
    forall i, j | 0 <= i < |more| && 0 <= j < |more| && i != j
      ensures Apart(more[i], more[j])
    {
      assert i < |qs| ==> more[i] == qs[i];
      assert j < |qs| ==> more[j] == qs[j];
    }
  }

  /** The sequences resident on a worker. */
  datatype Worker = Worker(qs: seq<RuntimeSequence>, seeds: seq<Seed>, net: Net, arena: Arenas.SnapshotArena)
  {
    /** Each is as it should be, and has a handle on its last snapshot for itself. */
    ghost predicate Valid()
      reads Objects(qs), arena
    {
      && |seeds| == |qs|
      && (forall i | 0 <= i < |qs| :: qs[i].retention.arena == arena && Fine(qs[i], seeds[i], net, arena))
      && AllApart(qs) && Covered(Lasts(qs), arena.pool.handles)
    }

    /** No sequence but this has changed; it spared the others' handles and what was captured. */
    twostate predicate OnlyOne(i: nat)
      requires i < |qs|
      reads Objects(qs), arena
    {
      && (forall j | 0 <= j < |qs| && j != i :: unchanged(qs[j], qs[j].state, qs[j].state.kv, qs[j].retention))
      && CapturedOn(old(arena.captured), arena.captured)
      && Arenas.Spares(Arenas.Holding(old(arena.pool.handles), old(qs[i].retention.lastSnapshot)),
                       Arenas.Holding(arena.pool.handles, qs[i].retention.lastSnapshot))
    }

    /** Then there is a handle left for each, and all the others are as they should be. */
    twostate lemma OthersStay(i: nat)
      requires old(Valid()) && i < |qs| && Fine(qs[i], seeds[i], net, arena) && OnlyOne(i)
      ensures Valid()
    {
      CoveredStays(old(Lasts(qs)), old(arena.pool.handles), i, qs[i].retention.lastSnapshot, arena.pool.handles);
      assert Lasts(qs) == old(Lasts(qs))[i := qs[i].retention.lastSnapshot];
      forall j | 0 <= j < |qs| && j != i
        ensures Fine(qs[j], seeds[j], net, arena)
      {
        assert old(Fine(qs[j], seeds[j], net, arena));
        if qs[j].retention.lastSnapshot.Some? {
          CoveredHas(Lasts(qs), arena.pool.handles, j);
        }
        qs[j].Undisturbed(net);
      }
    }

    /** One sequence's turn leaves the others as they were, and all of them as they should be. */
    method OneTurn(plan: Plan, i: nat, turn: Turn)
      requires Valid() && i < |qs| && (turn.proposal == [] || |turn.proposal| < qs[i].window)
      requires Built(plan) && plan.interval == arena.interval
      modifies qs[i], qs[i].state, qs[i].state.kv, qs[i].retention, arena
      ensures Valid() && OnlyOne(i)
    {
      assert Fine(qs[i], seeds[i], net, arena);
      assert forall j | 0 <= j < |qs| && j != i :: Apart(qs[i], qs[j]);
      TakeTurn(qs[i], net, plan, seeds[i], turn);
      assert Fine(qs[i], seeds[i], net, arena) && OnlyOne(i);
      OthersStay(i);
    }

    /** The same worker with one sequence more. */
    function Joined(q: RuntimeSequence, seed: Seed): Worker {
      Worker(qs + [q], seeds + [seed], net, arena)
    }

    lemma JoinedIsValid(q: RuntimeSequence, seed: Seed)
      requires |seeds| == |qs| && AllApart(qs)
      requires forall j | 0 <= j < |qs| :: Fine(qs[j], seeds[j], net, arena) && Apart(qs[j], q)
      requires Fine(q, seed, net, arena) && Covered(Lasts(qs + [q]), arena.pool.handles)
      ensures Joined(q, seed).Valid()
    {
      ApartMore(qs, q);
      var more := Joined(q, seed);
      forall i | 0 <= i < |more.qs|
        ensures Fine(more.qs[i], more.seeds[i], net, arena)
      {
        assert i < |qs| ==> more.qs[i] == qs[i] && more.seeds[i] == seeds[i];
      }
    }

    /** A new sequence, with a handle of its own if it has a snapshot, leaves the others as they were. */
    twostate lemma Joins(new q: RuntimeSequence, new seed: Seed)
      requires old(Valid()) && fresh(q) && fresh(q.state) && fresh(q.state.kv) && fresh(q.retention)
      requires Fine(q, seed, net, arena) && arena.captured == old(arena.captured)
      requires forall j | 0 <= j < |qs| :: unchanged(qs[j], qs[j].state, qs[j].state.kv, qs[j].retention)
      requires arena.pool.handles == old(arena.pool.handles)
               + if q.retention.lastSnapshot.Some? then multiset{q.retention.lastSnapshot.value} else multiset{}
      ensures Joined(q, seed).Valid()
    {
      CoveredMore(old(Lasts(qs)), old(arena.pool.handles), q.retention.lastSnapshot, arena.pool.handles);
      assert Lasts(qs + [q]) == old(Lasts(qs)) + [q.retention.lastSnapshot];
      forall j | 0 <= j < |qs|
        ensures Fine(qs[j], seeds[j], net, arena) && Apart(qs[j], q)
      {
        assert old(Fine(qs[j], seeds[j], net, arena));
        if qs[j].retention.lastSnapshot.Some? {
          CoveredHas(old(Lasts(qs)), old(arena.pool.handles), j);
        }
        qs[j].Undisturbed(net);
      }
      JoinedIsValid(q, seed);
    }

    /** A request that can be taken on. */
    ghost predicate Takes(request: Request, rules: Rules) {
      && Agrees(net, rules) && HostOk(rules) && !Masking(rules, request.chooser)
      && request.prompt != [] && request.maxOutput > 0
    }

    /** Take on a request cold. */
    method Enrol(request: Request, rules: Rules) returns (q: RuntimeSequence, seed: Seed)
      requires Valid() && arena.Valid() && Takes(request, rules)
      ensures Joined(q, seed).Valid() && seed == Seed(rules, request.chooser, None) && q.stream == request.prompt
    {
      q := Admit(net, arena, request);
      seed := Seed(rules, request.chooser, None);
      Joins(q, seed);
    }

    /** Take on a request from a snapshot of a beginning of its prompt. */
    method EnrolRestored(request: Request, rules: Rules, record: Record, ghost origin: Origin)
      returns (q: RuntimeSequence, seed: Seed)
      requires Valid() && arena.Valid() && Takes(request, rules)
      requires origin.record == record && Handed(origin, net, rules, arena, request)
      modifies arena`pool
      ensures Joined(q, seed).Valid() && q.stream == request.prompt
      ensures seed == Seed(rules, request.chooser, if record.position == |request.prompt| then record.next else None)
    {
      ghost var held := origin.made[..record.position];
      var admitted := AdmitRestored(net, arena, request, record, held);
      q := admitted;
      seed := Seed(rules, request.chooser, q.nextToken);
      Joins(q, seed);
    }

    /** Every sequence has put out what plain decoding from its start puts out, if it has finished. */
    ghost predicate AllPlain()
      reads Objects(qs)
    {
      |seeds| == |qs| && forall i | 0 <= i < |qs| :: Plain(qs[i], seeds[i])
    }

    /**
     * Turns in any order, with whatever is drafted and scheduled at each: every
     * sequence that finishes puts out what it would have alone.
     */
    method Interleave(plan: Plan, turns: seq<(nat, Turn)>)
      requires Valid() && Built(plan) && plan.interval == arena.interval
      requires forall t | t in turns :: t.0 < |qs| && (t.1.proposal == [] || |t.1.proposal| < qs[t.0].window)
      modifies Objects(qs), arena
      ensures Valid() && AllPlain()
    {
      for k := 0 to |turns|
        invariant Valid()
      {
        assert turns[k] in turns;
        OneTurn(plan, turns[k].0, turns[k].1);
      }
      forall i | 0 <= i < |qs|
        ensures Plain(qs[i], seeds[i])
      {
        assert Fine(qs[i], seeds[i], net, arena);
        CourseEnds(seeds[i], qs[i].stream, qs[i].maxOutput, qs[i].progress);
      }
    }
  }
}
