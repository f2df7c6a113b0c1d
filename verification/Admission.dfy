/** A sequence admitted to a worker: cold, or on top of a restored snapshot. */
module Admission {
  import opened Decoding
  import opened States
  import opened Retentions
  import opened Serving
  import opened Options
  import opened Streams
  import Arenas

  /** What a sequence was admitted for. */
  datatype Request = Request(prompt: seq<Token>, maxOutput: nat, window: nat, chooser: Chooser)

  /** Just admitted, with `prefix` tokens of its stream already folded in. */
  ghost predicate Admitted(q: RuntimeSequence, net: Net, arena: Arenas.SnapshotArena, request: Request, prefix: nat,
                           stream: seq<Token>)
    reads q, q.state, q.state.kv, q.retention, q.retention.arena
  {
    && q.Valid(net) && !q.decoding && q.prefilled == q.restored == prefix && q.stream == stream
    && q.prompt == request.prompt && q.maxOutput == request.maxOutput && q.window == request.window
    && q.chooser == request.chooser && q.retention.arena == arena && q.retention.interval == arena.interval
    && !q.retention.disabled && q.retention.lastPosition == prefix
  }

  /** Room for the prompt, the output, and a whole window past the last token but one. */
  method NewState(net: Net, request: Request) returns (state: SequenceState)
    ensures fresh(state) && fresh(state.kv) && state.Holds(net, [])
    ensures state.kv.Length
            == |request.prompt| + request.maxOutput + if request.window == 0 then 0 else request.window - 1
  {
    var slack := if request.window == 0 then 0 else request.window - 1;
    var kv := new Slot[|request.prompt| + request.maxOutput + slack](_ => []);
    state := new SequenceState(net.init, kv);
  }

  method Admit(net: Net, arena: Arenas.SnapshotArena, request: Request) returns (q: RuntimeSequence)
    requires arena.Valid()
    ensures fresh(q) && fresh(q.state) && fresh(q.state.kv) && fresh(q.retention)
    ensures Admitted(q, net, arena, request, 0, request.prompt)
    ensures q.nextToken == None && q.retention.lastSnapshot == None
  {
    var state := NewState(net, request);
    var retention := new Retention(arena.interval, arena, net, [], None);
    q := new RuntimeSequence(state, retention, request.prompt, request.maxOutput, request.window, request.chooser, 0,
                             None, request.prompt);
    assert q.stream[..0] == [];
  }

  /**
   * The snapshot's tokens are taken for the first of the prompt, as many as there
   * are, and not looked at. The state is theirs, whichever they are. The sequence
   * gets a handle of its own on the snapshot, for its next one to hang on.
   * Refused only when there are more of them than the prompt has.
   */
  method AdmitRestored(net: Net, arena: Arenas.SnapshotArena, request: Request, record: Record, ghost held: seq<Token>)
    returns (q: RuntimeSequence?)
    requires arena.Valid() && record.id in arena.pool.handles && record.id in arena.captured
    requires arena.captured[record.id] == After(net, held) && record.position == |held|
    modifies arena`pool
    ensures arena.Valid() && arena.Available() == old(arena.Available())
    ensures arena.pool.handles == old(arena.pool.handles) + if q == null then multiset{} else multiset{record.id}
    ensures q == null <==> record.position > |request.prompt|
    ensures q != null ==>
              && fresh(q) && fresh(q.state) && fresh(q.state.kv) && fresh(q.retention)
              && Admitted(q, net, arena, request, |held|, Resumed(held, request.prompt))
              && q.retention.lastSnapshot == Some(record.id)
              && q.nextToken == if record.position == |request.prompt| then record.next else None
  {
    if record.position > |request.prompt| {
      return null;
    }
    Arenas.HeldFacts(arena.pool, arena.captured, arena.capacity, record.id);
    var state := NewState(net, request);
    var ok := arena.Restore(state, record.id);
    assert ok;
    arena.Clone(record.id);
    var retention := new Retention(arena.interval, arena, net, held, Some(record.id));
    var next := if record.position == |request.prompt| then record.next else None;
    q := new RuntimeSequence(state, retention, request.prompt, request.maxOutput, request.window, request.chooser,
                             record.position, next, Resumed(held, request.prompt));
  }
}
