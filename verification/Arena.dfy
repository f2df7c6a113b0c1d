/**
 * Retained snapshots in a fixed arena of leased buffers. A snapshot holds only
 * the key/value slots past its parent's end, so restoring one walks its chain;
 * a buffer goes back to the pool when nothing refers to its snapshot any more.
 */
module Arenas {
  import opened States
  import opened Options

  /** What one slot of the arena holds: a stretch of key/value slots and a recurrent state. */
  datatype Buffers = Buffers(attention: seq<Slot>, recurrent: Recurrent)

  /** A snapshot: where it ends, where its own stretch starts, and the buffer it leases. */
  datatype Snapshot = Snapshot(position: nat, start: nat, lease: nat, parent: Option<nat>)

  datatype Outcome = Captured(id: nat) | BadShape | Exhausted

  type Snapshots = map<nat, Snapshot>

  // ----- chains -----

  /** Parents come first, end where their children start, and are there for as long as their children are. */
  predicate ChainOk(snaps: Snapshots, id: nat)
    requires id in snaps
  {
    && snaps[id].start <= snaps[id].position
    && match snaps[id].parent
       case None => snaps[id].start == 0
       case Some(p) => p < id && p in snaps && snaps[p].position == snaps[id].start
  }

  predicate ChainsOk(snaps: Snapshots) {
    forall id {:trigger ChainOk(snaps, id)} | id in snaps :: ChainOk(snaps, id)
  }

  predicate HasChild(snaps: Snapshots, id: nat) {
    exists c | c in snaps :: snaps[c].parent == Some(id)
  }

  /** Referred to from outside, or by a child. */
  predicate Needed(snaps: Snapshots, handles: multiset<nat>, id: nat) {
    id in handles || HasChild(snaps, id)
  }

  predicate Held(snaps: Snapshots, handles: multiset<nat>, id: nat) {
    id in handles ==> id in snaps
  }

  /** Nothing is kept that nothing refers to, except what is just being looked at; nothing referred to is gone. */
  ghost predicate AllNeeded(snaps: Snapshots, handles: multiset<nat>, doubtful: Option<nat>) {
    && (forall id {:trigger Needed(snaps, handles, id)} | id in snaps ::
          Needed(snaps, handles, id) || doubtful == Some(id))
    && (forall id {:trigger Held(snaps, handles, id)} :: Held(snaps, handles, id))
    && (doubtful.Some? ==> doubtful.value in snaps)
  }

  // ----- leases -----

  /** Every buffer is free or leased by exactly one snapshot. */
  ghost predicate LeasesOk(snaps: Snapshots, free: seq<nat>, capacity: nat) {
    && (forall i | 0 <= i < |free| :: free[i] < capacity)
    && (forall i, j | 0 <= i < j < |free| :: free[i] != free[j])
    && (forall id {:trigger Leased(snaps, free, capacity, id)} :: Leased(snaps, free, capacity, id))
    && (forall a, b {:trigger LeasedApart(snaps, a, b)} :: LeasedApart(snaps, a, b))
    && |free| + |snaps| == capacity
  }

  predicate Leased(snaps: Snapshots, free: seq<nat>, capacity: nat, id: nat) {
    id in snaps ==> snaps[id].lease < capacity && snaps[id].lease !in free
  }

  predicate LeasedApart(snaps: Snapshots, a: nat, b: nat) {
    a in snaps && b in snaps && a != b ==> snaps[a].lease != snaps[b].lease
  }

  /** A new snapshot takes the buffer on top of the free ones. */
  lemma LeaseTaken(snaps: Snapshots, free: seq<nat>, capacity: nat, id: nat, s: Snapshot)
    requires LeasesOk(snaps, free, capacity) && free != [] && id !in snaps && s.lease == free[|free| - 1]
    ensures LeasesOk(snaps[id := s], free[..|free| - 1], capacity)
  {
    var less, more := free[..|free| - 1], snaps[id := s];
    assert s.lease !in less && |more| == |snaps| + 1;
    forall x
      ensures Leased(more, less, capacity, x)
    {
      assert Leased(snaps, free, capacity, x);
    }
    forall a, b
      ensures LeasedApart(more, a, b)
    {
      assert LeasedApart(snaps, a, b) && Leased(snaps, free, capacity, a) && Leased(snaps, free, capacity, b);
      assert s.lease in free;
    }
  }

  lemma LeaseReturned(snaps: Snapshots, free: seq<nat>, capacity: nat, id: nat)
    requires LeasesOk(snaps, free, capacity) && id in snaps
    ensures LeasesOk(snaps - {id}, free + [snaps[id].lease], capacity)
    ensures |snaps - {id}| < |snaps|
  {
    var less, more := snaps - {id}, free + [snaps[id].lease];
    assert less.Keys == snaps.Keys - {id} && |less| == |snaps| - 1;
    assert Leased(snaps, free, capacity, id);
    forall x
      ensures Leased(less, more, capacity, x)
    {
      assert Leased(snaps, free, capacity, x) && LeasedApart(snaps, x, id);
    }
    forall a, b
      ensures LeasedApart(less, a, b)
    {
      assert LeasedApart(snaps, a, b);
    }
    assert forall i, j | 0 <= i < j < |more| :: more[i] != more[j] by {
      assert forall i | 0 <= i < |free| :: free[i] in free;
    }
  }

  // ----- contents -----

  /** A buffer holds its snapshot's own stretch of what was captured, and the parent's capture is the rest. */
  ghost predicate ContentOk(snaps: Snapshots, buffers: seq<Buffers>, captured: map<nat, Memory>, id: nat)
    requires id in snaps
  {
    && id in captured && snaps[id].lease < |buffers| && snaps[id].start <= snaps[id].position
    && |captured[id].slots| == snaps[id].position
    && buffers[snaps[id].lease] == Buffers(captured[id].slots[snaps[id].start..], captured[id].recurrent)
    && (snaps[id].parent.Some? ==>
          snaps[id].parent.value in captured
          && captured[snaps[id].parent.value].slots == captured[id].slots[..snaps[id].start])
  }

  ghost predicate ContentsOk(snaps: Snapshots, buffers: seq<Buffers>, captured: map<nat, Memory>) {
    forall id {:trigger ContentOk(snaps, buffers, captured, id)} | id in snaps ::
      ContentOk(snaps, buffers, captured, id)
  }

  lemma ContentsLess(snaps: Snapshots, buffers: seq<Buffers>, captured: map<nat, Memory>, id: nat)
    requires ContentsOk(snaps, buffers, captured)
    ensures ContentsOk(snaps - {id}, buffers, captured)
  {
    var less := snaps - {id};
    forall x | x in less
      ensures ContentOk(less, buffers, captured, x)
    {
      assert ContentOk(snaps, buffers, captured, x);
    }
  }

  lemma ContentsGrow(snaps: Snapshots, buffers: seq<Buffers>, captured: map<nat, Memory>, free: seq<nat>,
                     capacity: nat, id: nat, s: Snapshot, memory: Memory)
    requires ContentsOk(snaps, buffers, captured) && LeasesOk(snaps, free, capacity) && |buffers| == capacity
    requires free != [] && s.lease == free[|free| - 1] && id !in snaps && id !in captured
    requires s.start <= s.position == |memory.slots|
    requires s.parent.Some? ==> s.parent.value in captured && captured[s.parent.value].slots == memory.slots[..s.start]
    ensures ContentsOk(snaps[id := s], buffers[s.lease := Buffers(memory.slots[s.start..], memory.recurrent)],
                       captured[id := memory])
  {
    var buffers' := buffers[s.lease := Buffers(memory.slots[s.start..], memory.recurrent)];
    var more := snaps[id := s];
    forall x | x in more
      ensures ContentOk(more, buffers', captured[id := memory], x)
    {
      if x != id {
        assert ContentOk(snaps, buffers, captured, x) && Leased(snaps, free, capacity, x) && s.lease in free;
      }
    }
  }

  // ----- the arena -----

  /** The buffers, which are free, the snapshots on the others, and the references held on those from outside. */
  datatype Pool = Pool(buffers: seq<Buffers>, free: seq<nat>, snaps: Snapshots, handles: multiset<nat>, nextId: nat)

  ghost predicate PoolOk(pool: Pool, captured: map<nat, Memory>, capacity: nat, doubtful: Option<nat>) {
    && ChainsOk(pool.snaps) && AllNeeded(pool.snaps, pool.handles, doubtful)
    && LeasesOk(pool.snaps, pool.free, capacity)
    && |pool.buffers| == capacity && ContentsOk(pool.snaps, pool.buffers, captured)
    && IdsBelow(pool.snaps, captured, pool.nextId)
  }

  predicate IdsBelow(snaps: Snapshots, captured: map<nat, Memory>, n: nat) {
    (forall id {:trigger id in snaps} | id in snaps :: id < n)
    && forall id {:trigger id in captured} | id in captured :: id < n
  }

  /** Every buffer is free at first. */
  function New(buffers: seq<Buffers>): (pool: Pool)
    ensures PoolOk(pool, map[], |buffers|, None)
  {
    Pool(buffers, seq(|buffers|, i => i), map[], multiset{}, 0)
  }

  /** Another handle on a snapshot. */
  lemma Retained(pool: Pool, captured: map<nat, Memory>, capacity: nat, id: nat)
    requires PoolOk(pool, captured, capacity, None) && id in pool.snaps
    ensures PoolOk(pool.(handles := pool.handles + multiset{id}), captured, capacity, None)
  {
    var more := pool.handles + multiset{id};
    forall x
      ensures Held(pool.snaps, more, x) && (x in pool.snaps ==> Needed(pool.snaps, more, x))
    {
      assert Held(pool.snaps, pool.handles, x);
      assert Needed(pool.snaps, pool.handles, x) || x !in pool.snaps;
    }
  }

  lemma FreshHandle(pool: Pool, captured: map<nat, Memory>, capacity: nat, id: nat)
    requires PoolOk(pool, captured, capacity, None) && id !in captured
    ensures id !in pool.snaps && pool.handles[id] == 0
  {
    assert Held(pool.snaps, pool.handles, id);
    assert id in pool.snaps ==> ContentOk(pool.snaps, pool.buffers, captured, id);
  }

  lemma HeldFacts(pool: Pool, captured: map<nat, Memory>, capacity: nat, id: nat)
    requires PoolOk(pool, captured, capacity, None) && id in pool.handles
    ensures id in pool.snaps && id in captured && pool.snaps[id].position == |captured[id].slots|
  {
    assert Held(pool.snaps, pool.handles, id);
    assert ContentOk(pool.snaps, pool.buffers, captured, id);
  }

  // ----- giving up references -----

  lemma ChainsLess(snaps: Snapshots, handles: multiset<nat>, id: nat)
    requires ChainsOk(snaps) && AllNeeded(snaps, handles, Some(id)) && !Needed(snaps, handles, id)
    ensures ChainsOk(snaps - {id}) && AllNeeded(snaps - {id}, handles, snaps[id].parent)
  {
    var less := snaps - {id};
    assert ChainOk(snaps, id);
    forall x
      ensures Held(less, handles, x)
    {
      assert Held(snaps, handles, x);
    }
    forall x | x in less
      ensures ChainOk(less, x) && (Needed(less, handles, x) || snaps[id].parent == Some(x))
    {
      assert ChainOk(snaps, x) && snaps[x].parent != Some(id);
      assert Needed(snaps, handles, x);
      if x !in handles {
        var c :| c in snaps && snaps[c].parent == Some(x);
        if c != id {
          assert c in less && less[c].parent == Some(x);
        }
      }
    }
  }

  /** The buffer of a snapshot nothing refers to goes back; its parent is in doubt next. */
  lemma Dropped(pool: Pool, captured: map<nat, Memory>, capacity: nat, id: nat)
    requires PoolOk(pool, captured, capacity, Some(id)) && !Needed(pool.snaps, pool.handles, id)
    ensures PoolOk(pool.(snaps := pool.snaps - {id}, free := pool.free + [pool.snaps[id].lease]), captured, capacity,
                   pool.snaps[id].parent)
    ensures |pool.snaps - {id}| < |pool.snaps|
  {
    ChainsLess(pool.snaps, pool.handles, id);
    LeaseReturned(pool.snaps, pool.free, capacity, id);
    ContentsLess(pool.snaps, pool.buffers, captured, id);
  }

  /** Some of the snapshots, unchanged. */
  predicate Remain(now: Snapshots, before: Snapshots) {
    forall x | x in now :: x in before && now[x] == before[x]
  }

  lemma GivenUp(snaps: Snapshots, handles: multiset<nat>, id: nat)
    requires AllNeeded(snaps, handles, None) && id in handles
    ensures AllNeeded(snaps, handles - multiset{id}, Some(id))
  {
    var less := handles - multiset{id};
    assert Held(snaps, handles, id);
    forall x
      ensures Held(snaps, less, x) && (x in snaps ==> Needed(snaps, less, x) || x == id)
    {
      assert Held(snaps, handles, x);
      assert Needed(snaps, handles, x) || x !in snaps;
    }
  }

  /** From `id` up, each the parent of the one before. */
  ghost predicate Climbs(snaps: Snapshots, id: nat, chain: seq<nat>) {
    && (chain != [] ==> chain[0] == id) && (forall i | 0 <= i < |chain| :: chain[i] in snaps)
    && (forall i | 0 < i < |chain| :: snaps[chain[i - 1]].parent == Some(chain[i]))
  }

  ghost function LeasesOf(snaps: Snapshots, chain: seq<nat>): seq<nat>
    requires forall i | 0 <= i < |chain| :: chain[i] in snaps
  {
    seq(|chain|, i requires 0 <= i < |chain| => snaps[chain[i]].lease)
  }

  /** What a stretch of a chain leaves when it goes: its buffers are returned in the order it went. */
  ghost predicate Gone(pool: Pool, left: Pool, id: nat, gone: seq<nat>) {
    && Climbs(pool.snaps, id, gone) && Remain(left.snaps, pool.snaps) && left.buffers == pool.buffers
    && (forall x :: x in left.snaps <==> x in pool.snaps && x !in gone)
    && left.free == pool.free + LeasesOf(pool.snaps, gone)
  }

  lemma OneMoreGone(pool: Pool, left: Pool, id: nat, gone: seq<nat>, x: nat)
    requires Gone(pool, left, id, gone) && x in left.snaps
    requires if gone == [] then x == id else pool.snaps[gone[|gone| - 1]].parent == Some(x)
    ensures Gone(pool, left.(snaps := left.snaps - {x}, free := left.free + [left.snaps[x].lease]), id, gone + [x])
  {
    assert LeasesOf(pool.snaps, gone + [x]) == LeasesOf(pool.snaps, gone) + [pool.snaps[x].lease];
  }

  /**
   * Give up a handle, and every snapshot that hung on it alone, child before
   * parent. What is still referred to keeps its buffer; what is not returns it.
   */
  method Discard(pool: Pool, ghost captured: map<nat, Memory>, ghost capacity: nat, id: nat)
    returns (left: Pool, ghost gone: seq<nat>)
    requires PoolOk(pool, captured, capacity, None) && id in pool.handles
    ensures PoolOk(left, captured, capacity, None) && left.handles == pool.handles - multiset{id}
    ensures Gone(pool, left, id, gone)
    ensures Needed(pool.snaps, pool.handles - multiset{id}, id) ==> gone == []
  {
    left := pool.(handles := pool.handles - multiset{id});
    gone := [];
    var doubtful := Some(id);
    GivenUp(pool.snaps, pool.handles, id);
    assert LeasesOf(pool.snaps, gone) == [];
    while doubtful.Some? && !Needed(left.snaps, left.handles, doubtful.value)
      invariant PoolOk(left, captured, capacity, doubtful) && left.handles == pool.handles - multiset{id}
      invariant Gone(pool, left, id, gone)
      invariant doubtful == if gone == [] then Some(id) else pool.snaps[gone[|gone| - 1]].parent
      invariant Needed(pool.snaps, pool.handles - multiset{id}, id) ==> gone == []
      invariant gone == [] ==> left.snaps == pool.snaps
      decreases |left.snaps|
    {
      var s := left.snaps[doubtful.value];
      Dropped(left, captured, capacity, doubtful.value);
      OneMoreGone(pool, left, id, gone, doubtful.value);
      gone := gone + [doubtful.value];
      left := left.(snaps := left.snaps - {doubtful.value}, free := left.free + [s.lease]);
      doubtful := s.parent;
    }
  }

  // ----- capturing -----

  function StartOf(snaps: Snapshots, parent: Option<nat>): nat
    requires parent.Some? ==> parent.value in snaps
  {
    if parent.Some? then snaps[parent.value].position else 0
  }

  /** The parent a new snapshot would have was taken of the same sequence, earlier on. */
  ghost predicate TakenEarlier(snaps: Snapshots, captured: map<nat, Memory>, parent: Option<nat>, memory: Memory) {
    parent.Some? ==>
      && parent.value in snaps && parent.value in captured
      && (snaps[parent.value].position <= |memory.slots| ==>
            captured[parent.value].slots == memory.slots[..snaps[parent.value].position])
  }

  lemma ChainsGrow(snaps: Snapshots, handles: multiset<nat>, id: nat, s: Snapshot)
    requires ChainsOk(snaps) && AllNeeded(snaps, handles, None) && id !in snaps && ChainOk(snaps[id := s], id)
    ensures ChainsOk(snaps[id := s]) && AllNeeded(snaps[id := s], handles + multiset{id}, None)
  {
    var more := snaps[id := s];
    forall x
      ensures Held(more, handles + multiset{id}, x)
    {
      assert Held(snaps, handles, x);
    }
    forall x | x in snaps
      ensures ChainOk(more, x) && Needed(more, handles + multiset{id}, x)
    {
      assert ChainOk(snaps, x) && Needed(snaps, handles, x);
      if x !in handles {
        var c :| c in snaps && snaps[c].parent == Some(x);
        assert c in more && more[c].parent == Some(x);
      }
    }
  }

  function NewSnapshot(pool: Pool, memory: Memory, parent: Option<nat>): Snapshot
    requires pool.free != [] && (parent.Some? ==> parent.value in pool.snaps)
  {
    Snapshot(|memory.slots|, StartOf(pool.snaps, parent), pool.free[|pool.free| - 1], parent)
  }

  ghost predicate CanGrow(pool: Pool, captured: map<nat, Memory>, capacity: nat, memory: Memory, parent: Option<nat>) {
    && PoolOk(pool, captured, capacity, None) && TakenEarlier(pool.snaps, captured, parent, memory)
    && pool.free != [] && StartOf(pool.snaps, parent) <= |memory.slots|
  }

  lemma GrownChains(pool: Pool, captured: map<nat, Memory>, capacity: nat, memory: Memory, parent: Option<nat>)
    requires CanGrow(pool, captured, capacity, memory, parent)
    ensures var more := pool.snaps[pool.nextId := NewSnapshot(pool, memory, parent)];
            && ChainsOk(more) && AllNeeded(more, pool.handles + multiset{pool.nextId}, None)
            && IdsBelow(more, captured[pool.nextId := memory], pool.nextId + 1)
  {
    assert pool.nextId !in pool.snaps;
    ChainsGrow(pool.snaps, pool.handles, pool.nextId, NewSnapshot(pool, memory, parent));
  }

  lemma GrownContents(pool: Pool, captured: map<nat, Memory>, capacity: nat, memory: Memory, parent: Option<nat>)
    requires CanGrow(pool, captured, capacity, memory, parent)
    ensures pool.free[|pool.free| - 1] < |pool.buffers|
    ensures var id, s := pool.nextId, NewSnapshot(pool, memory, parent);
            && ContentsOk(pool.snaps[id := s],
                          pool.buffers[s.lease := Buffers(memory.slots[s.start..], memory.recurrent)],
                          captured[id := memory])
            && LeasesOk(pool.snaps[id := s], pool.free[..|pool.free| - 1], capacity)
  {
    var id, s := pool.nextId, NewSnapshot(pool, memory, parent);
    assert id !in pool.snaps && id !in captured;
    LeaseTaken(pool.snaps, pool.free, capacity, id, s);
    ContentsGrow(pool.snaps, pool.buffers, captured, pool.free, capacity, id, s, memory);
  }

  /** The pool with a new snapshot on the topmost free buffer. */
  function Grown(pool: Pool, memory: Memory, parent: Option<nat>): Pool
    requires pool.free != [] && (parent.Some? ==> parent.value in pool.snaps)
    requires pool.free[|pool.free| - 1] < |pool.buffers| && StartOf(pool.snaps, parent) <= |memory.slots|
  {
    var s := NewSnapshot(pool, memory, parent);
    Pool(pool.buffers[s.lease := Buffers(memory.slots[s.start..], memory.recurrent)],
         pool.free[..|pool.free| - 1], pool.snaps[pool.nextId := s], pool.handles + multiset{pool.nextId},
         pool.nextId + 1)
  }

  lemma GrownOk(pool: Pool, captured: map<nat, Memory>, capacity: nat, memory: Memory, parent: Option<nat>)
    requires CanGrow(pool, captured, capacity, memory, parent)
    ensures pool.free[|pool.free| - 1] < |pool.buffers|
    ensures PoolOk(Grown(pool, memory, parent), captured[pool.nextId := memory], capacity, None)
  {
    GrownChains(pool, captured, capacity, memory, parent);
    GrownContents(pool, captured, capacity, memory, parent);
  }

  /** One snapshot more, and the others as they were. */
  predicate GrewBy(now: Snapshots, before: Snapshots, id: nat) {
    id !in before && now.Keys == before.Keys + {id} && Remain(before, now)
  }

  lemma GrownKeeps(pool: Pool, captured: map<nat, Memory>, capacity: nat, memory: Memory, parent: Option<nat>)
    requires CanGrow(pool, captured, capacity, memory, parent)
    ensures pool.free[|pool.free| - 1] < |pool.buffers| && pool.nextId !in captured
    ensures GrewBy(Grown(pool, memory, parent).snaps, pool.snaps, pool.nextId)
  {
    assert pool.nextId !in pool.snaps;
    assert pool.free[|pool.free| - 1] < |pool.buffers|;
    assert Grown(pool, memory, parent).snaps.Keys == pool.snaps.Keys + {pool.nextId};
  }

  /** What restoring a snapshot of `memory` would lay down: the parent's capture, then the stretch past it. */
  ghost function Rebuilt(snaps: Snapshots, captured: map<nat, Memory>, memory: Memory, parent: Option<nat>): Memory
    requires parent.Some? ==> parent.value in snaps && parent.value in captured
    requires StartOf(snaps, parent) <= |memory.slots|
  {
    match parent
    case None => memory
    case Some(p) => Memory(memory.recurrent, captured[p].slots + memory.slots[snaps[p].position..])
  }

  lemma ParentCaptured(pool: Pool, captured: map<nat, Memory>, capacity: nat, parent: Option<nat>)
    requires PoolOk(pool, captured, capacity, None) && (parent.Some? ==> parent.value in pool.snaps)
    ensures parent.Some? ==> parent.value in captured && |captured[parent.value].slots| == StartOf(pool.snaps, parent)
  {
    if parent.Some? {
      assert ContentOk(pool.snaps, pool.buffers, captured, parent.value);
    }
  }

  /** A stretch past the parent's end is the same stretch of what would be rebuilt. */
  lemma RebuiltGrows(pool: Pool, captured: map<nat, Memory>, capacity: nat, memory: Memory, parent: Option<nat>)
    requires PoolOk(pool, captured, capacity, None) && (parent.Some? ==> parent.value in pool.snaps)
    requires pool.free != [] && StartOf(pool.snaps, parent) <= |memory.slots|
    ensures (parent.Some? ==> parent.value in captured) && pool.free[|pool.free| - 1] < |pool.buffers|
    ensures var whole := Rebuilt(pool.snaps, captured, memory, parent);
            && CanGrow(pool, captured, capacity, whole, parent)
            && Grown(pool, memory, parent) == Grown(pool, whole, parent)
  {
    ParentCaptured(pool, captured, capacity, parent);
    var whole := Rebuilt(pool.snaps, captured, memory, parent);
    if parent.Some? {
      var start := pool.snaps[parent.value].position;
      assert whole.slots[..start] == captured[parent.value].slots;
      assert whole.slots[start..] == memory.slots[start..];
    }
  }

  /** A parent taken earlier of the same sequence makes that the whole of what was captured. */
  lemma RebuiltIsMemory(snaps: Snapshots, captured: map<nat, Memory>, memory: Memory, parent: Option<nat>)
    requires (parent.Some? ==> parent.value in snaps) && StartOf(snaps, parent) <= |memory.slots|
    requires TakenEarlier(snaps, captured, parent, memory)
    ensures Rebuilt(snaps, captured, memory, parent) == memory
  {
    if parent.Some? {
      var start := snaps[parent.value].position;
      assert memory.slots == memory.slots[..start] + memory.slots[start..];
    }
  }

  /** Take a snapshot of `memory` past its parent's end, if it fits a buffer and one is free. */
  method Take(pool: Pool, ghost captured: map<nat, Memory>, ghost capacity: nat, interval: nat, memory: Memory,
              parent: Option<nat>)
    returns (outcome: Outcome, pool': Pool, ghost captured': map<nat, Memory>)
    requires PoolOk(pool, captured, capacity, None) && (parent.Some? ==> parent.value in pool.snaps)
    ensures PoolOk(pool', captured', capacity, None) && (parent.Some? ==> parent.value in captured)
    ensures outcome.BadShape? <==> !(0 <= |memory.slots| - StartOf(pool.snaps, parent) <= interval)
    ensures outcome.Exhausted? <==> !outcome.BadShape? && |pool.snaps| == capacity
    ensures !outcome.Captured? ==> pool' == pool && captured' == captured
    ensures outcome.Captured? ==>
              && outcome.id !in captured
              && captured' == captured[outcome.id := Rebuilt(pool.snaps, captured, memory, parent)]
              && pool'.handles == pool.handles + multiset{outcome.id} && GrewBy(pool'.snaps, pool.snaps, outcome.id)
              && pool'.snaps[outcome.id].parent == parent
  {
    var start := StartOf(pool.snaps, parent);
    ParentCaptured(pool, captured, capacity, parent);
    pool', captured' := pool, captured;
    if start > |memory.slots| || |memory.slots| - start > interval {
      outcome := BadShape;
    } else if pool.free == [] {
      outcome := Exhausted;
    } else {
      RebuiltGrows(pool, captured, capacity, memory, parent);
      ghost var whole := Rebuilt(pool.snaps, captured, memory, parent);
      GrownOk(pool, captured, capacity, whole, parent);
      GrownKeeps(pool, captured, capacity, whole, parent);
      outcome, pool', captured' := Captured(pool.nextId), Grown(pool, memory, parent), captured[pool.nextId := whole];
    }
  }

  /** A snapshot a sequence could hang its next one on: held, and taken of the first `position` slots of its own. */
  ghost predicate Anchors(pool: Pool, captured: map<nat, Memory>, last: Option<nat>, position: nat, memory: Memory) {
    match last
    case None => position == 0
    case Some(id) =>
      && id in pool.handles && id in captured && |captured[id].slots| == position
      && (position <= |memory.slots| ==> captured[id].slots == memory.slots[..position])
  }

  lemma AnchorStarts(pool: Pool, captured: map<nat, Memory>, capacity: nat, last: Option<nat>, position: nat,
                     memory: Memory)
    requires PoolOk(pool, captured, capacity, None) && Anchors(pool, captured, last, position, memory)
    ensures last.Some? ==> last.value in pool.snaps
    ensures StartOf(pool.snaps, last) == position && TakenEarlier(pool.snaps, captured, last, memory)
  {
    if last.Some? {
      assert Held(pool.snaps, pool.handles, last.value);
      assert ContentOk(pool.snaps, pool.buffers, captured, last.value);
    }
  }

  /**
   * A sequence's next snapshot: it hangs on the last one, and the sequence's own
   * handle moves from that to it. It is held twice, by the sequence and by
   * whoever the step reports it to.
   */
  method TakeNext(pool: Pool, ghost captured: map<nat, Memory>, ghost capacity: nat, interval: nat, memory: Memory,
                  last: Option<nat>, ghost position: nat)
    returns (outcome: Outcome, pool': Pool, ghost captured': map<nat, Memory>)
    requires PoolOk(pool, captured, capacity, None) && Anchors(pool, captured, last, position, memory)
    ensures PoolOk(pool', captured', capacity, None)
    ensures outcome.BadShape? <==> !(0 <= |memory.slots| - position <= interval)
    ensures outcome.Exhausted? <==> !outcome.BadShape? && |pool.free| == 0
    ensures !outcome.Captured? ==> pool' == pool && captured' == captured
    ensures outcome.Captured? ==>
              && pool'.handles[outcome.id] == 2 && captured' == captured[outcome.id := memory]
              && outcome.id !in captured && |pool'.free| == |pool.free| - 1
              && pool'.handles == pool.handles + multiset{outcome.id, outcome.id}
                                  - (if last.Some? then multiset{last.value} else multiset{})
  {
    AnchorStarts(pool, captured, capacity, last, position, memory);
    outcome, pool', captured' := Take(pool, captured, capacity, interval, memory, last);
    if outcome.Captured? {
      RebuiltIsMemory(pool.snaps, captured, memory, last);
      FreshHandle(pool, captured, capacity, outcome.id);
      pool' := MoveHandle(pool', captured', capacity, outcome.id, last);
    }
  }

  /** A second handle on a new snapshot, and none on the one it hangs on: that stays for its child's sake. */
  method MoveHandle(pool: Pool, ghost captured: map<nat, Memory>, ghost capacity: nat, id: nat, last: Option<nat>)
    returns (pool': Pool)
    requires PoolOk(pool, captured, capacity, None) && id in pool.snaps && pool.snaps[id].parent == last
    requires last.Some? ==> last.value in pool.handles
    ensures PoolOk(pool', captured, capacity, None) && pool'.free == pool.free
    ensures pool'.handles == pool.handles + multiset{id} - (if last.Some? then multiset{last.value} else multiset{})
  {
    Retained(pool, captured, capacity, id);
    pool' := pool.(handles := pool.handles + multiset{id});
    if last.Some? {
      assert HasChild(pool'.snaps, last.value);
      ghost var gone;
      pool', gone := Discard(pool', captured, capacity, last.value);
    }
  }

  // ----- restoring -----

  /** One stretch into the cache, where everything before it is already in place. */
  method CopyIn(kv: array<Slot>, stretch: seq<Slot>, start: nat, ghost slots: seq<Slot>)
    requires start + |stretch| == |slots| <= kv.Length
    requires kv[..start] == slots[..start] && stretch == slots[start..]
    modifies kv
    ensures kv[..|slots|] == slots
  {
    for i := 0 to |stretch|
      invariant kv[..start + i] == slots[..start + i]
    {
      assert stretch[i] == slots[start + i];
      kv[start + i] := stretch[i];
      assert slots[..start + i + 1] == slots[..start + i] + [slots[start + i]];
      assert kv[..start + i + 1] == kv[..start + i] + [kv[start + i]];
    }
  }

  lemma ChainFacts(pool: Pool, captured: map<nat, Memory>, capacity: nat, id: nat)
    requires PoolOk(pool, captured, capacity, None) && id in pool.snaps
    ensures var s := pool.snaps[id];
            && id in captured && s.lease < |pool.buffers| && s.start <= s.position == |captured[id].slots|
            && pool.buffers[s.lease] == Buffers(captured[id].slots[s.start..], captured[id].recurrent)
            && match s.parent
               case None => s.start == 0
               case Some(p) =>
                 && p < id && p in pool.snaps && p in captured && pool.snaps[p].position == s.start
                 && captured[p].slots == captured[id].slots[..s.start]
  {
    assert ChainOk(pool.snaps, id) && ContentOk(pool.snaps, pool.buffers, captured, id);
  }

  /** Lay the chain's stretches into the cache, the oldest first. */
  method RestoreChain(pool: Pool, ghost captured: map<nat, Memory>, ghost capacity: nat, kv: array<Slot>, id: nat)
    requires PoolOk(pool, captured, capacity, None) && id in pool.snaps && pool.snaps[id].position <= kv.Length
    modifies kv
    ensures id in captured && kv[..pool.snaps[id].position] == captured[id].slots
    decreases id
  {
    ChainFacts(pool, captured, capacity, id);
    var s := pool.snaps[id];
    if s.parent.Some? {
      RestoreChain(pool, captured, capacity, kv, s.parent.value);
    }
    CopyIn(kv, pool.buffers[s.lease].attention, s.start, captured[id].slots);
  }

  // ----- the arena as sequences use it -----

  class SnapshotArena {
    /** Positions a buffer has room for. */
    const interval: nat
    const capacity: nat
    var pool: Pool
    /** What each snapshot was taken of. */
    ghost var captured: map<nat, Memory>

    ghost predicate Valid()
      reads this
    {
      PoolOk(pool, captured, capacity, None)
    }

    constructor (interval: nat, buffers: seq<Buffers>)
      ensures Valid() && this.interval == interval && capacity == |buffers|
      ensures pool.handles == multiset{} && captured == map[] && |pool.free| == capacity
    {
      this.interval, capacity := interval, |buffers|;
      pool, captured := New(buffers), map[];
    }

    /** How many buffers are free; every other one is leased. */
    function Available(): (n: nat)
      requires Valid()
      reads this
      ensures n + |pool.snaps| == capacity
    {
      |pool.free|
    }

    method Clone(id: nat)
      requires Valid() && id in pool.snaps
      modifies `pool
      ensures Valid() && pool == old(pool).(handles := old(pool).handles + multiset{id})
    {
      Retained(pool, captured, capacity, id);
      pool := pool.(handles := pool.handles + multiset{id});
    }

    /** Give a handle up; buffers nothing refers to any more go back to the pool, child before parent. */
    method Drop(id: nat) returns (ghost gone: seq<nat>)
      requires Valid() && id in pool.handles
      modifies `pool
      ensures Valid() && pool.handles == old(pool).handles - multiset{id} && Gone(old(pool), pool, id, gone)
      ensures Needed(old(pool).snaps, pool.handles, id) ==> gone == []
    {
      pool, gone := Discard(pool, captured, capacity, id);
    }

    /**
     * Copy what a state holds past its parent's end into a leased buffer. It
     * fails when the stretch is negative or longer than a buffer, and when no
     * buffer is free. Together with the parent's that is what a restore gives:
     * the state itself, when the parent was taken of it earlier.
     */
    method Capture(state: SequenceState, parent: Option<nat>) returns (outcome: Outcome)
      requires Valid() && state.position <= state.kv.Length && (parent.Some? ==> parent.value in pool.snaps)
      modifies this
      ensures Valid() && (parent.Some? ==> parent.value in old(captured))
      ensures outcome.BadShape? <==> !(0 <= state.position - StartOf(old(pool).snaps, parent) <= interval)
      ensures outcome.Exhausted? <==> !outcome.BadShape? && |old(pool).snaps| == capacity
      ensures !outcome.Captured? ==> pool == old(pool) && captured == old(captured)
      ensures outcome.Captured? ==>
                && outcome.id !in old(captured) && pool.handles == old(pool).handles + multiset{outcome.id}
                && captured
                   == old(captured)[outcome.id := Rebuilt(old(pool).snaps, old(captured), state.Filled(), parent)]
                && GrewBy(pool.snaps, old(pool).snaps, outcome.id) && pool.snaps[outcome.id].parent == parent
      ensures outcome.Captured? && TakenEarlier(old(pool).snaps, old(captured), parent, state.Filled()) ==>
                captured == old(captured)[outcome.id := state.Filled()]
    {
      ghost var before, was := pool, captured;
      var memory := state.Filled();
      outcome, pool, captured := Take(pool, captured, capacity, interval, memory, parent);
      if outcome.Captured? && TakenEarlier(before.snaps, was, parent, memory) {
        RebuiltIsMemory(before.snaps, was, memory, parent);
      }
    }

    /** The next snapshot of a sequence, hung on its last. */
    method CaptureNext(state: SequenceState, last: Option<nat>, ghost position: nat) returns (outcome: Outcome)
      requires Valid() && state.position <= state.kv.Length
      requires Anchors(pool, captured, last, position, state.Filled())
      modifies this
      ensures Valid()
      ensures outcome.BadShape? <==> !(0 <= state.position - position <= interval)
      ensures outcome.Exhausted? <==> !outcome.BadShape? && old(Available()) == 0
      ensures !outcome.Captured? ==> pool == old(pool) && captured == old(captured)
      ensures outcome.Captured? ==>
                && pool.handles[outcome.id] == 2 && captured == old(captured)[outcome.id := state.Filled()]
                && outcome.id !in old(captured) && Available() == old(Available()) - 1
                && pool.handles == old(pool).handles + multiset{outcome.id, outcome.id}
                                   - (if last.Some? then multiset{last.value} else multiset{})
    {
      outcome, pool, captured := TakeNext(pool, captured, capacity, interval, state.Filled(), last, position);
    }

    /** Rebuild exactly what was captured. Refused only when the state was allocated too short for it. */
    method Restore(state: SequenceState, id: nat) returns (ok: bool)
      requires Valid() && id in pool.snaps
      modifies state, state.kv
      ensures id in captured && (ok <==> |captured[id].slots| <= state.kv.Length)
      ensures ok ==> state.position == |captured[id].slots|
      ensures ok ==> state.position <= state.kv.Length && state.Filled() == captured[id]
    {
      ChainFacts(pool, captured, capacity, id);
      ok := pool.snaps[id].position <= state.kv.Length;
      if ok {
        RestoreChain(pool, captured, capacity, state.kv, id);
        state.recurrent := pool.buffers[pool.snaps[id].lease].recurrent;
        state.position := pool.snaps[id].position;
      }
    }
  }

  // ----- whose handles -----

  /** The handles on an arena's snapshots, and the one of them a sequence has. */
  datatype Holding = Holding(handles: multiset<nat>, own: Option<nat>)

  /** How many handles on a snapshot are somebody else's. */
  function Others(h: Holding, id: nat): int {
    h.handles[id] as int - if h.own == Some(id) then 1 else 0
  }

  /** Others' handles are as they were, but that one on a new snapshot is given out. */
  ghost predicate GivenOut(before: Holding, now: Holding, id: Option<nat>) {
    forall x: nat {:trigger Others(before, x)} {:trigger Others(now, x)} ::
      Others(now, x) == Others(before, x) + if id == Some(x) then 1 else 0
  }

  lemma MovedGivesOut(handles: multiset<nat>, handles': multiset<nat>, last: Option<nat>, id: nat)
    requires last.Some? ==> last.value in handles
    requires handles' == handles + multiset{id, id} - (if last.Some? then multiset{last.value} else multiset{})
    ensures GivenOut(Holding(handles, last), Holding(handles', Some(id)), Some(id))
  {
  }

  /** No handle of anybody else's is gone. */
  ghost predicate Spares(before: Holding, now: Holding) {
    forall x: nat {:trigger Others(before, x)} {:trigger Others(now, x)} :: Others(before, x) <= Others(now, x)
  }

  // ----- what a handle keeps -----

  /** On the way from a snapshot to the first of its chain. */
  ghost predicate InChain(snaps: Snapshots, id: nat, x: nat)
    requires ChainsOk(snaps)
    decreases id
  {
    id in snaps && (x == id || (ChainOk(snaps, id) && snaps[id].parent.Some?
                                && InChain(snaps, snaps[id].parent.value, x)))
  }

  lemma {:induction false} InChainIsThere(snaps: Snapshots, id: nat, x: nat)
    requires ChainsOk(snaps) && InChain(snaps, id, x)
    ensures x in snaps
    decreases id
  {
    if x != id {
      assert ChainOk(snaps, id);
      InChainIsThere(snaps, snaps[id].parent.value, x);
    }
  }

  /** One more link down. */
  lemma {:induction false} InChainBelow(snaps: Snapshots, id: nat, c: nat, x: nat)
    requires ChainsOk(snaps) && InChain(snaps, id, c) && c in snaps && snaps[c].parent == Some(x)
    ensures InChain(snaps, id, x)
    decreases id
  {
    assert ChainOk(snaps, c);
    if c == id {
      assert InChain(snaps, x, x);
    } else {
      assert ChainOk(snaps, id);
      InChainBelow(snaps, snaps[id].parent.value, c, x);
    }
  }

  lemma {:induction false} FromSomeHandle(pool: Pool, captured: map<nat, Memory>, capacity: nat, x: nat)
    returns (id: nat)
    requires PoolOk(pool, captured, capacity, None) && x in pool.snaps
    ensures id in pool.handles && InChain(pool.snaps, id, x)
    decreases pool.nextId - x
  {
    if x in pool.handles {
      return x;
    }
    assert Needed(pool.snaps, pool.handles, x);
    var c :| c in pool.snaps && pool.snaps[c].parent == Some(x);
    assert ChainOk(pool.snaps, c);
    id := FromSomeHandle(pool, captured, capacity, c);
    InChainBelow(pool.snaps, id, c, x);
  }

  /**
   * The snapshots kept are exactly those some handle's chain runs through, so
   * what a held snapshot needs is never leased out again, and what none needs
   * always is free again.
   */
  lemma KeptIffReachable(pool: Pool, captured: map<nat, Memory>, capacity: nat, x: nat)
    requires PoolOk(pool, captured, capacity, None)
    ensures x in pool.snaps <==> exists id :: id in pool.handles && InChain(pool.snaps, id, x)
    ensures x in pool.snaps ==> pool.snaps[x].lease !in pool.free
    ensures |pool.free| + |pool.snaps| == capacity
  {
    assert Leased(pool.snaps, pool.free, capacity, x);
    if x in pool.snaps {
      var id := FromSomeHandle(pool, captured, capacity, x);
    }
    if id :| id in pool.handles && InChain(pool.snaps, id, x) {
      InChainIsThere(pool.snaps, id, x);
    }
  }
}
