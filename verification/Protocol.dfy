/**
 * The shared prefix cache as its workers and request handlers use it, one lock
 * region at a time. A handler matches and takes a snapshot, admits the request
 * to a worker, and only then registers the chain that names its blocks; a
 * worker's thread steps its device, applies the tokens to the chains, and
 * installs what the step retained, while others do the same. What the prefix
 * tree answers, and when entries are reclaimed or evicted, is left open.
 */
module Protocols {
  import opened Hashes
  import opened Chains
  import opened Options
  import opened Streams

  // ----- the state -----

  /**
   * A snapshot: the values folded into it, the value its producer recorded as
   * following them, and the requests it goes back to: its producer, and those of
   * the snapshot its producer was resumed from.
   */
  datatype Snap = Snap(values: seq<Value>, next: Option<Value>, makers: set<nat>)

  /** A request's entry in the chain map. */
  datatype Registration = Unregistered | Registered(chain: seq<Value>) | Removed

  /**
   * A request as its worker runs it: what its prompt came to in the worker's
   * memory, the requests that goes back to, and its output; its chain, and how
   * many tokens no chain was there to take.
   */
  datatype Request = Request(worker: nat, prompt: seq<Value>, folded: seq<Value>, from: set<nat>,
                             output: seq<Value>, entry: Registration, dropped: nat)

  /** Where a worker's thread is in its loop. */
  datatype Phase =
    | Idle
    /** The device step is done, none of it applied yet. */
    | Stepped(generated: seq<(nat, Value)>, retained: seq<(nat, Snap)>)
    /** Tokens applied, snapshots to install. */
    | Applied(retained: seq<(nat, Snap)>)
    /** Installing one, named by a copy of its request's chain. */
    | Installing(snap: Snap, chain: seq<Value>, promptLen: nat, retained: seq<(nat, Snap)>)

  /** A snapshot handed to a request with this prompt. */
  datatype Handout = Handout(prompt: seq<Value>, snap: Snap)

  datatype State = State(size: nat, requests: map<nat, Request>, phases: map<nat, Phase>, shared: map<Hash, Snap>,
                         handouts: seq<Handout>)

  function PhaseOf(s: State, w: nat): Phase {
    if w in s.phases then s.phases[w] else Idle
  }

  /** One request's tokens among a step's, in order. */
  function TokensOf(generated: seq<(nat, Value)>, id: nat): seq<Value> {
    if generated == [] then []
    else
      var k := |generated| - 1;
      TokensOf(generated[..k], id) + if generated[k].0 == id then [generated[k].1] else []
  }

  /** Tokens of a request that its worker has stepped over and not applied yet. */
  function Unapplied(s: State, w: nat, id: nat): seq<Value> {
    if PhaseOf(s, w).Stepped? then TokensOf(PhaseOf(s, w).generated, id) else []
  }

  /** What a request sent and was sent back. */
  function Whole(r: Request): seq<Value> {
    r.prompt + r.output
  }

  /** What its worker's memory is of. */
  function Held(r: Request): seq<Value> {
    r.folded + r.output
  }

  /** A snapshot of some of a stream, naming the value that follows it there, if it names one past the prompt. */
  predicate SnapOf(stream: seq<Value>, promptLen: nat, snap: Snap) {
    snap.values <= stream && Follows(stream, promptLen, |snap.values|, snap.next)
  }

  // ----- the steps -----

  datatype Action =
    | Take(prompt: seq<Value>, blocks: nat)
    /** Cold, or on top of what was handed out for the prompt. */
    | Admit(id: nat, worker: nat, prompt: seq<Value>, handout: Option<nat>)
    | Register(id: nat)
    | StepDevice(worker: nat, generated: seq<(nat, Value)>, retained: seq<(nat, Snap)>)
    | ApplyTokens(worker: nat, generated: seq<(nat, Value)>)
    | BeginInstall(worker: nat)
    | Publish(worker: nat)
    | Decline(worker: nat)
    | FinishStep(worker: nat)
    | Forget(hash: Hash)
    | Retire(id: nat)

  /** The step a request's output grows by. */
  function Produced(s: State, generated: seq<(nat, Value)>): map<nat, Request> {
    map id | id in s.requests :: s.requests[id].(output := s.requests[id].output + TokensOf(generated, id))
  }

  /** Tokens pushed onto a chain, or lost on a request that has none registered yet. */
  function Pushed(r: Request, tokens: seq<Value>): Request {
    match r.entry
    case Registered(chain) => r.(entry := Registered(chain + tokens))
    case Unregistered => r.(dropped := r.dropped + |tokens|)
    case Removed => r
  }

  function AllPushed(s: State, generated: seq<(nat, Value)>): map<nat, Request> {
    map id | id in s.requests :: Pushed(s.requests[id], TokensOf(generated, id))
  }

  /** The two records of what followed a snapshot disagree. */
  predicate Drifted(chain: seq<Value>, promptLen: nat, size: nat, snap: Snap)
    requires size > 0
  {
    var followed := FollowedBy(chain, promptLen, size, |snap.values|);
    followed.Some? && snap.next.Some? && followed.value != snap.next.value
  }

  ghost predicate Next(s: State, a: Action, s': State) {
    match a
    // Whatever the tree matched, it is one of the request's own names.
    case Take(prompt, blocks) =>
      && blocks > 0 && Covers(prompt, s.size, blocks) && NameOf(prompt, s.size, blocks) in s.shared
      && s' == s.(handouts := s.handouts + [Handout(prompt, s.shared[NameOf(prompt, s.size, blocks)])])
    // A snapshot of more than the prompt is refused; of no more, it is taken for the prompt's beginning.
    case Admit(id, worker, prompt, handout) =>
      && id !in s.requests
      && (handout.Some? ==>
            && handout.value < |s.handouts| && s.handouts[handout.value].prompt == prompt
            && |s.handouts[handout.value].snap.values| <= |prompt|)
      && var folded := if handout.None? then prompt else Resumed(s.handouts[handout.value].snap.values, prompt);
      && var from := if handout.None? then {} else s.handouts[handout.value].snap.makers;
      && s' == s.(requests := s.requests[id := Request(worker, prompt, folded, from, [], Unregistered, 0)])
    case Register(id) =>
      && id in s.requests && s.requests[id].entry.Unregistered?
      && s' == s.(requests := s.requests[id := s.requests[id].(entry := Registered(s.requests[id].prompt))])
    case StepDevice(w, generated, retained) =>
      && PhaseOf(s, w).Idle?
      && (forall g | g in generated :: g.0 in s.requests && s.requests[g.0].worker == w)
      && (forall r | r in retained :: r.0 in s.requests && s.requests[r.0].worker == w
            && SnapOf(Held(s.requests[r.0]) + TokensOf(generated, r.0), |s.requests[r.0].prompt|, r.1)
            && r.1.makers == s.requests[r.0].from + {r.0})
      && s' == s.(requests := Produced(s, generated), phases := s.phases[w := Stepped(generated, retained)])
    case ApplyTokens(w, generated) =>
      && PhaseOf(s, w).Stepped? && PhaseOf(s, w).generated == generated
      && s' == s.(requests := AllPushed(s, generated),
                  phases := s.phases[w := Applied(PhaseOf(s, w).retained)])
    case BeginInstall(w) =>
      && PhaseOf(s, w).Applied? && PhaseOf(s, w).retained != []
      && var first, rest := PhaseOf(s, w).retained[0], PhaseOf(s, w).retained[1..];
      && s' == s.(phases := s.phases[w :=
           if first.0 in s.requests && s.requests[first.0].entry.Registered?
           then Installing(first.1, s.requests[first.0].entry.chain, |s.requests[first.0].prompt|, rest)
           else Applied(rest)])
    case Publish(w) =>
      && PhaseOf(s, w).Installing?
      && var snap, chain := PhaseOf(s, w).snap, PhaseOf(s, w).chain;
      && CanPublish(chain, PhaseOf(s, w).promptLen, s.size, snap)
      && s' == s.(shared := s.shared[LeafName(chain, s.size, |snap.values|) := snap],
                  phases := s.phases[w := Applied(PhaseOf(s, w).retained)])
    case Decline(w) =>
      && PhaseOf(s, w).Installing?
      && s' == s.(phases := s.phases[w := Applied(PhaseOf(s, w).retained)])
    case FinishStep(w) =>
      && PhaseOf(s, w) == Applied([]) && s' == s.(phases := s.phases[w := Idle])
    // Reclaimed for another snapshot's sake, or evicted from the tree.
    case Forget(hash) => s' == s.(shared := s.shared - {hash})
    // Completed or cancelled.
    case Retire(id) =>
      && id in s.requests && s.requests[id].entry.Registered?
      && s' == s.(requests := s.requests[id := s.requests[id].(entry := Removed)])
  }

  /** The chain names the snapshot's position, and does not contradict it. */
  predicate CanPublish(chain: seq<Value>, promptLen: nat, size: nat, snap: Snap) {
    Namable(|chain|, size, |snap.values|) && !Drifted(chain, promptLen, size, snap)
  }

  // ----- what every step keeps -----

  /** Every token a worker reported is on its request's chain, on its way there, or counted as lost. */
  ghost predicate RequestOk(s: State, id: nat)
    requires id in s.requests
  {
    var r := s.requests[id];
    var coming := Unapplied(s, r.worker, id);
    match r.entry
    case Registered(chain) =>
      |chain| + |coming| + r.dropped == |Whole(r)| && (r.dropped == 0 ==> chain + coming == Whole(r))
    case Unregistered => |coming| + r.dropped == |r.output| && (r.dropped == 0 ==> coming == r.output)
    case Removed => true
  }

  ghost predicate RetainedOk(requests: map<nat, Request>, w: nat, retained: seq<(nat, Snap)>) {
    forall i | 0 <= i < |retained| ::
      && retained[i].0 in requests && requests[retained[i].0].worker == w
      && SnapOf(Held(requests[retained[i].0]), |requests[retained[i].0].prompt|, retained[i].1)
      && retained[i].1.makers == requests[retained[i].0].from + {retained[i].0}
  }

  /** None of these requests has lost a token. */
  predicate Intact(s: State, ids: set<nat>) {
    forall id | id in s.requests && id in ids :: s.requests[id].dropped == 0
  }

  /** No token was ever lost. */
  predicate Clean(s: State) {
    forall id | id in s.requests :: s.requests[id].dropped == 0
  }

  ghost predicate PhaseOk(s: State, w: nat) {
    match PhaseOf(s, w)
    case Idle => true
    case Stepped(generated, retained) =>
      && (forall i | 0 <= i < |generated| ::
            generated[i].0 in s.requests && s.requests[generated[i].0].worker == w)
      && RetainedOk(s.requests, w, retained)
    case Applied(retained) => RetainedOk(s.requests, w, retained)
    case Installing(snap, chain, promptLen, retained) =>
      RetainedOk(s.requests, w, retained) && (Intact(s, snap.makers) ==> SnapOf(chain, promptLen, snap))
  }

  /** A hash that names exactly the values a snapshot was taken of. */
  predicate NamedRight(size: nat, hash: Hash, snap: Snap) {
    Namable(|snap.values|, size, |snap.values|) && hash == LeafName(snap.values, size, |snap.values|)
  }

  ghost predicate SharedOk(s: State) {
    forall h | h in s.shared && Intact(s, s.shared[h].makers) :: NamedRight(s.size, h, s.shared[h])
  }

  /** What a request was handed is what it would have computed. */
  predicate Sound(handout: Handout) {
    handout.snap.values <= handout.prompt
  }

  ghost predicate HandoutsOk(s: State) {
    forall i | 0 <= i < |s.handouts| && Intact(s, s.handouts[i].snap.makers) :: Sound(s.handouts[i])
  }

  /** A worker's memory is of what the request sent. */
  ghost predicate FoldedOk(s: State) {
    && (forall id | id in s.requests :: |s.requests[id].folded| == |s.requests[id].prompt|)
    && (forall id | id in s.requests && Intact(s, s.requests[id].from) ::
          s.requests[id].folded == s.requests[id].prompt)
  }

  ghost predicate Inv(s: State) {
    && (forall id | id in s.requests :: RequestOk(s, id)) && (forall w :: PhaseOk(s, w))
    && FoldedOk(s) && SharedOk(s) && HandoutsOk(s)
  }

  ghost predicate Init(s: State) {
    s.size > 0 && s == State(s.size, map[], map[], map[], [])
  }
}
