/**
 * Snapshots held to be resumed from, by the name of the block
 * they end on. They yield to a worker's own needs, least recently used first.
 */
module SharedCaches {
  import opened Hashes
  import opened Options

  datatype Held = Held(worker: nat, value: nat, lastUsed: nat)

  type Entries = map<Hash, Held>

  /** Every use was stamped by a tick of its own. */
  predicate Stamped(entries: Entries, clock: nat) {
    && (forall h | h in entries :: entries[h].lastUsed <= clock)
    && forall g, h | g in entries && h in entries && g != h :: entries[g].lastUsed != entries[h].lastUsed
  }

  /** The entry of `worker` used longest ago. */
  predicate IsOldest(entries: Entries, worker: nat, h: Hash) {
    && h in entries && entries[h].worker == worker
    && forall x | x in entries && entries[x].worker == worker :: entries[h].lastUsed <= entries[x].lastUsed
  }

  method FindOldest(entries: Entries, worker: nat) returns (oldest: Option<Hash>)
    ensures oldest.Some? ==> IsOldest(entries, worker, oldest.value)
    ensures oldest.None? ==> forall x | x in entries :: entries[x].worker != worker
  {
    oldest := None;
    var rest := entries.Keys;
    while rest != {}
      invariant rest <= entries.Keys
      invariant oldest.Some? ==> oldest.value in entries && entries[oldest.value].worker == worker
      invariant oldest.Some? ==> forall x | x in entries && x !in rest && entries[x].worker == worker ::
                  entries[oldest.value].lastUsed <= entries[x].lastUsed
      invariant oldest.None? ==> forall x | x in entries && x !in rest :: entries[x].worker != worker
      decreases |rest|
    {
      var x :| x in rest;
      rest := rest - {x};
      if entries[x].worker == worker && (oldest.None? || entries[x].lastUsed < entries[oldest.value].lastUsed) {
        oldest := Some(x);
      }
    }
  }

  /** What is left once some entries have been dropped. */
  function Left(entries: Entries, dropped: seq<Hash>): Entries {
    entries - set h | h in dropped
  }

  lemma LeftMore(entries: Entries, dropped: seq<Hash>, h: Hash)
    ensures Left(entries, dropped + [h]) == Left(entries, dropped) - {h}
  {
    assert (set x | x in dropped + [h]) == (set x | x in dropped) + {h};
  }

  /** Each was, at its turn, the worker's oldest, and there was still too little room. */
  ghost predicate DroppedInTurn(entries: Entries, worker: nat, reserve: nat, available: Entries -> nat,
                                dropped: seq<Hash>)
  {
    forall k | 0 <= k < |dropped| :: DroppedAt(entries, worker, reserve, available, dropped, k)
  }

  ghost predicate DroppedAt(entries: Entries, worker: nat, reserve: nat, available: Entries -> nat,
                            dropped: seq<Hash>, k: nat)
  {
    k < |dropped| && IsOldest(Left(entries, dropped[..k]), worker, dropped[k])
    && available(Left(entries, dropped[..k])) < reserve
  }

  lemma DropOneMore(entries: Entries, worker: nat, reserve: nat, available: Entries -> nat, dropped: seq<Hash>,
                    h: Hash)
    requires DroppedInTurn(entries, worker, reserve, available, dropped)
    requires IsOldest(Left(entries, dropped), worker, h) && available(Left(entries, dropped)) < reserve
    ensures DroppedInTurn(entries, worker, reserve, available, dropped + [h])
  {
    var more := dropped + [h];
    forall k | 0 <= k < |more|
      ensures DroppedAt(entries, worker, reserve, available, more, k)
    {
      if k < |dropped| {
        assert more[..k] == dropped[..k] && DroppedAt(entries, worker, reserve, available, dropped, k);
      } else {
        assert more[..k] == dropped;
      }
    }
  }

  method Reclaimed(all: Entries, worker: nat, reserve: nat, available: Entries -> nat)
    returns (left: Entries, ok: bool, ghost dropped: seq<Hash>)
    ensures left == Left(all, dropped) && DroppedInTurn(all, worker, reserve, available, dropped)
    ensures ok <==> available(left) >= reserve
    ensures !ok ==> forall h | h in left :: left[h].worker != worker
    ensures forall h | h in all && all[h].worker != worker :: h in left
  {
    left, dropped := all, [];
    while available(left) < reserve
      invariant left == Left(all, dropped) && DroppedInTurn(all, worker, reserve, available, dropped)
      invariant forall h | h in all && all[h].worker != worker :: h in left
      decreases |left|
    {
      var oldest := FindOldest(left, worker);
      if oldest.None? {
        return left, false, dropped;
      }
      DropOneMore(all, worker, reserve, available, dropped, oldest.value);
      LeftMore(all, dropped, oldest.value);
      Fewer(left, oldest.value);
      left := left - {oldest.value};
      dropped := dropped + [oldest.value];
    }
    ok := true;
  }

  class SharedSnapshots {
    var entries: Entries
    var clock: nat

    ghost predicate Valid()
      reads this
    {
      Stamped(entries, clock)
    }

    constructor ()
      ensures Valid() && entries == map[]
    {
      entries, clock := map[], 0;
    }

    /** A snapshot to resume from, which is a use of it. */
    method TakeForReuse(hash: Hash) returns (value: Option<nat>)
      requires Valid()
      modifies this
      ensures Valid() && clock == old(clock) + 1
      ensures value == if hash in old(entries) then Some(old(entries)[hash].value) else None
      ensures entries == if hash in old(entries)
                         then old(entries)[hash := old(entries)[hash].(lastUsed := clock)] else old(entries)
    {
      clock := clock + 1;
      if hash !in entries {
        return None;
      }
      value := Some(entries[hash].value);
      entries := entries[hash := entries[hash].(lastUsed := clock)];
    }

    method Publish(hash: Hash, worker: nat, value: nat)
      requires Valid()
      modifies this
      ensures Valid() && clock == old(clock) + 1 && entries == old(entries)[hash := Held(worker, value, clock)]
    {
      clock := clock + 1;
      entries := entries[hash := Held(worker, value, clock)];
    }

    method Remove(hash: Hash)
      requires Valid()
      modifies `entries
      ensures Valid() && entries == old(entries) - {hash}
    {
      entries := entries - {hash};
    }

    /**
     * Drop the worker's entries, oldest first, until its arena has `reserve`
     * free slots or it has no entry left. How much a drop recovers is read
     * again each time: `available` is what the arena answers with the rest
     * still held. Nothing is dropped that need not be, and no other worker's.
     */
    method ReclaimFor(worker: nat, reserve: nat, available: Entries -> nat) returns (ok: bool, ghost dropped: seq<Hash>)
      requires Valid()
      modifies `entries
      ensures Valid() && entries == Left(old(entries), dropped)
      ensures DroppedInTurn(old(entries), worker, reserve, available, dropped)
      ensures ok <==> available(entries) >= reserve
      ensures !ok ==> forall h | h in entries :: entries[h].worker != worker
      ensures forall h | h in old(entries) && old(entries)[h].worker != worker :: h in entries
    {
      entries, ok, dropped := Reclaimed(entries, worker, reserve, available);
    }
  }

  lemma Fewer(entries: Entries, h: Hash)
    requires h in entries
    ensures |entries - {h}| < |entries|
  {
    assert entries.Keys == (entries - {h}).Keys + {h};
  }

  /** An entry goes only after every entry of its worker that was used less recently. */
  lemma OlderGoFirst(entries: Entries, worker: nat, reserve: nat, available: Entries -> nat, dropped: seq<Hash>,
                     clock: nat, k: nat, x: Hash) returns (i: nat)
    requires Stamped(entries, clock) && DroppedInTurn(entries, worker, reserve, available, dropped) && k < |dropped|
    requires x in entries && entries[x].worker == worker
    requires dropped[k] in entries && entries[x].lastUsed < entries[dropped[k]].lastUsed
    ensures i < k && dropped[i] == x
  {
    assert DroppedAt(entries, worker, reserve, available, dropped, k);
    var left := Left(entries, dropped[..k]);
    assert x !in left;
    i :| 0 <= i < k && dropped[..k][i] == x;
  }
}
