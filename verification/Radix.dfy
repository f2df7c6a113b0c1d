/** The prefix tree shared by the workers: nodes keyed by chained hash, with links for eviction. */
module RadixTrees {
  import opened Hashes
  import opened Options

  datatype Node = Node(parent: Hash, children: set<Hash>, block: nat, tokenEnd: nat, snapshot: Option<nat>,
                       refs: nat, pinned: bool, lastUsed: nat)

  type Nodes = map<Hash, Node>

  function EndOf(h: Hash, size: nat): nat {
    Depth(h) * size
  }

  /** Every node's parent is cached too, links agree both ways, and a node ends where its depth says. */
  predicate NodeOk(nodes: Nodes, roots: set<Hash>, size: nat, h: Hash)
    requires h in nodes
  {
    && h.Block? && nodes[h].parent == h.parent && nodes[h].tokenEnd == EndOf(h, size)
    && (if h.parent.Root? then h in roots else h.parent in nodes && h in nodes[h.parent].children)
    && (forall c | c in nodes[h].children :: c in nodes && c.Block? && c.parent == h)
  }

  predicate TreeOk(nodes: Nodes, roots: set<Hash>, size: nat) {
    && (forall h {:trigger NodeOk(nodes, roots, size, h)} | h in nodes :: NodeOk(nodes, roots, size, h))
    && Root !in nodes
    && (forall c | c in roots :: c in nodes && c.Block? && c.parent.Root?)
  }

  // ----- chains of names -----

  function Before(hashes: seq<Hash>, i: nat): Hash
    requires i <= |hashes|
  {
    if i == 0 then Root else hashes[i - 1]
  }

  predicate LinkOk(hashes: seq<Hash>, i: nat) {
    i < |hashes| && hashes[i].Block? && hashes[i].parent == Before(hashes, i)
  }

  /** A sequence's own names, in order, each chained from the one before. */
  predicate IsQuery(hashes: seq<Hash>) {
    forall i | 0 <= i < |hashes| :: LinkOk(hashes, i)
  }

  lemma {:induction false} QueryDepth(hashes: seq<Hash>, i: nat)
    requires IsQuery(hashes) && i < |hashes|
    ensures Depth(hashes[i]) == i + 1
    decreases i
  {
    assert LinkOk(hashes, i);
    if i > 0 {
      QueryDepth(hashes, i - 1);
    } else {
      assert Depth(hashes[i].parent) == 0;
    }
  }

  lemma BlockEnds(hashes: seq<Hash>, i: nat, size: nat)
    requires IsQuery(hashes) && i < |hashes|
    ensures LinkOk(hashes, i) && i * size + size == EndOf(hashes[i], size) == (i + 1) * size
  {
    QueryDepth(hashes, i);
  }

  /** A chain repeats no name. */
  lemma NotYet(hashes: seq<Hash>, i: nat)
    requires IsQuery(hashes) && i < |hashes|
    ensures forall j | 0 <= j < i :: hashes[j] != hashes[i]
  {
    forall j | 0 <= j < i
      ensures hashes[j] != hashes[i]
    {
      QueryDepth(hashes, j);
      QueryDepth(hashes, i);
    }
  }

  // ----- inserting -----

  datatype PrefixBlock = PrefixBlock(hash: Hash, block: nat, snapshot: Option<nat>)

  function Fresh(pb: PrefixBlock, parent: Hash, tokenEnd: nat): Node {
    Node(parent, {}, pb.block, tokenEnd, pb.snapshot, 0, false, 0)
  }

  function Linked(nodes: Nodes, parent: Hash, h: Hash): Nodes {
    if parent in nodes then nodes[parent := nodes[parent].(children := nodes[parent].children + {h})] else nodes
  }

  function Rooted(roots: set<Hash>, h: Hash): set<Hash> {
    if h.Block? && h.parent.Root? then roots + {h} else roots
  }

  /** A node missing below a parent that is there. */
  lemma Grow(nodes: Nodes, roots: set<Hash>, size: nat, pb: PrefixBlock)
    requires TreeOk(nodes, roots, size) && pb.hash.Block? && pb.hash !in nodes
    requires pb.hash.parent.Root? || pb.hash.parent in nodes
    ensures TreeOk(Linked(nodes[pb.hash := Fresh(pb, pb.hash.parent, EndOf(pb.hash, size))], pb.hash.parent, pb.hash),
                   Rooted(roots, pb.hash), size)
  {
    var p := pb.hash.parent;
    var linked := Linked(nodes[pb.hash := Fresh(pb, p, EndOf(pb.hash, size))], p, pb.hash);
    assert Root !in nodes && pb.hash != p;
    forall h | h in linked
      ensures NodeOk(linked, Rooted(roots, pb.hash), size, h)
    {
      if h != pb.hash {
        assert NodeOk(nodes, roots, size, h);
      }
    }
  }

  // ----- matching -----

  /** A node is never cached without everything before it. */
  lemma {:induction false} PrefixClosed(nodes: Nodes, roots: set<Hash>, size: nat, hashes: seq<Hash>, i: nat, j: nat)
    requires TreeOk(nodes, roots, size) && IsQuery(hashes) && j <= i < |hashes| && hashes[i] in nodes
    ensures hashes[j] in nodes
    decreases i - j
  {
    if j < i {
      assert NodeOk(nodes, roots, size, hashes[i]) && LinkOk(hashes, i) && LinkOk(hashes, i - 1);
      PrefixClosed(nodes, roots, size, hashes, i - 1, j);
    }
  }

  datatype Match = Match(tokens: nat, blocks: seq<nat>, snapshotAt: Option<nat>, snapshotTokens: nat)

  /** `n` is the longest prefix cached: all of it is, and nothing past it. */
  predicate Longest(nodes: Nodes, hashes: seq<Hash>, n: nat) {
    && n <= |hashes|
    && (forall i | 0 <= i < |hashes| :: hashes[i] in nodes <==> i < n)
  }

  predicate HasSnapshot(nodes: Nodes, h: Hash) {
    h in nodes && nodes[h].snapshot.Some?
  }

  /** The deepest of the first `n` entries that holds a snapshot. */
  predicate Deepest(nodes: Nodes, hashes: seq<Hash>, n: nat, at: Option<nat>)
    requires n <= |hashes|
  {
    match at
    case None => forall i | 0 <= i < n :: !HasSnapshot(nodes, hashes[i])
    case Some(k) => k < n && HasSnapshot(nodes, hashes[k]) && forall i | k < i < n :: !HasSnapshot(nodes, hashes[i])
  }

  // ----- evicting -----

  predicate Eligible(nodes: Nodes, h: Hash)
    requires h in nodes
  {
    nodes[h].children == {} && nodes[h].refs == 0 && !nodes[h].pinned
  }

  function Unlinked(nodes: Nodes, parent: Hash, h: Hash): Nodes {
    if parent in nodes then nodes[parent := nodes[parent].(children := nodes[parent].children - {h})] else nodes
  }

  /** Taking a leaf away leaves a tree. */
  lemma Shrink(nodes: Nodes, roots: set<Hash>, size: nat, h: Hash)
    requires TreeOk(nodes, roots, size) && h in nodes && nodes[h].children == {}
    ensures TreeOk(Unlinked(nodes - {h}, h.parent, h), if h.parent.Root? then roots - {h} else roots, size)
  {
    assert NodeOk(nodes, roots, size, h);
    var less := Unlinked(nodes - {h}, h.parent, h);
    var roots' := if h.parent.Root? then roots - {h} else roots;
    forall x | x in less
      ensures NodeOk(less, roots', size, x)
    {
      assert NodeOk(nodes, roots, size, x);
    }
  }

  /** Nothing frees a node that something below it still needs. */
  predicate InUse(nodes: Nodes, h: Hash) {
    h in nodes && (nodes[h].refs > 0 || nodes[h].pinned)
  }

  /** `x` is `h` or one of its ancestors. */
  predicate Above(h: Hash, x: Hash) {
    h == x || (h.Block? && Above(h.parent, x))
  }

  /** What must stay: everything in use, and everything above it. */
  ghost predicate Kept(nodes: Nodes, h: Hash) {
    exists x | x in nodes :: InUse(nodes, x) && Above(x, h)
  }

  /** Between a node and one strictly above it lies a child of the latter, cached like everything on the way. */
  lemma {:induction false} ChildOnTheWay(nodes: Nodes, roots: set<Hash>, size: nat, x: Hash, h: Hash)
    requires TreeOk(nodes, roots, size) && x in nodes && Above(x, h) && x != h && h.Block?
    ensures h in nodes && nodes[h].children != {}
    decreases x
  {
    assert NodeOk(nodes, roots, size, x);
    if x.parent != h {
      ChildOnTheWay(nodes, roots, size, x.parent, h);
    }
  }

  lemma LeafIsNotKept(nodes: Nodes, roots: set<Hash>, size: nat, h: Hash)
    requires TreeOk(nodes, roots, size) && h in nodes && Eligible(nodes, h)
    ensures !Kept(nodes, h)
  {
    forall x | x in nodes && InUse(nodes, x)
      ensures !Above(x, h)
    {
      if Above(x, h) {
        assert NodeOk(nodes, roots, size, h);
        ChildOnTheWay(nodes, roots, size, x, h);
      }
    }
  }

  /** A leaf that goes takes nothing that must stay with it, and changes nothing about what must. */
  lemma KeptStays(nodes: Nodes, roots: set<Hash>, size: nat, h: Hash, y: Hash)
    requires TreeOk(nodes, roots, size) && h in nodes && Eligible(nodes, h)
    ensures Kept(Unlinked(nodes - {h}, h.parent, h), y) <==> Kept(nodes, y)
  {
    var less := Unlinked(nodes - {h}, h.parent, h);
    if Kept(nodes, y) {
      var x :| x in nodes && InUse(nodes, x) && Above(x, y);
      assert x in less && InUse(less, x);
    }
    if Kept(less, y) {
      var x :| x in less && InUse(less, x) && Above(x, y);
      assert x in nodes && InUse(nodes, x);
    }
  }

  function Deeper(nodes: Nodes, d: nat): set<Hash> {
    set x | x in nodes && Depth(x) > d
  }

  lemma {:induction false} AboveOne(x: Hash, c: Hash, h: Hash)
    requires Above(x, c) && c.Block? && c.parent == h
    ensures Above(x, h)
    decreases x
  {
    if x != c {
      AboveOne(x.parent, c, h);
    } else {
      assert Above(x.parent, h);
    }
  }

  /** With nothing eligible left, everything left must stay. */
  lemma {:induction false} RestIsKept(nodes: Nodes, roots: set<Hash>, size: nat, h: Hash)
    requires TreeOk(nodes, roots, size) && h in nodes && forall x | x in nodes :: !Eligible(nodes, x)
    ensures Kept(nodes, h)
    decreases Deeper(nodes, Depth(h))
  {
    if InUse(nodes, h) {
      assert Above(h, h);
    } else {
      assert !Eligible(nodes, h) && NodeOk(nodes, roots, size, h);
      var c :| c in nodes[h].children;
      assert Depth(c) == Depth(h) + 1 && c in Deeper(nodes, Depth(h)) && c !in Deeper(nodes, Depth(c));
      assert Deeper(nodes, Depth(c)) <= Deeper(nodes, Depth(h));
      RestIsKept(nodes, roots, size, c);
      var x :| x in nodes && InUse(nodes, x) && Above(x, c);
      AboveOne(x, c, h);
    }
  }

  /** The least recently used of the eligible leaves. */
  predicate IsVictim(nodes: Nodes, h: Hash) {
    && h in nodes && Eligible(nodes, h)
    && forall x | x in nodes && Eligible(nodes, x) :: nodes[h].lastUsed <= nodes[x].lastUsed
  }

  method FindVictim(nodes: Nodes) returns (victim: Option<Hash>)
    ensures victim.Some? ==> IsVictim(nodes, victim.value)
    ensures victim.None? ==> forall x | x in nodes :: !Eligible(nodes, x)
  {
    victim := None;
    var rest := nodes.Keys;
    while rest != {}
      invariant rest <= nodes.Keys
      invariant victim.Some? ==> victim.value in nodes && Eligible(nodes, victim.value)
      invariant victim.Some? ==> forall x | x in nodes && x !in rest && Eligible(nodes, x) ::
                  nodes[victim.value].lastUsed <= nodes[x].lastUsed
      invariant victim.None? ==> forall x | x in nodes && x !in rest :: !Eligible(nodes, x)
      decreases |rest|
    {
      var x :| x in rest;
      rest := rest - {x};
      if Eligible(nodes, x) && (victim.None? || nodes[x].lastUsed < nodes[victim.value].lastUsed) {
        victim := Some(x);
      }
    }
  }

  /** The nodes without a leaf. */
  function Without(nodes: Nodes, h: Hash): (r: Nodes)
    ensures r.Keys == nodes.Keys - {h}
  {
    if h.Block? then Unlinked(nodes - {h}, h.parent, h) else nodes - {h}
  }

  /** Take one leaf out; nothing that must stay changes. */
  method EvictOne(nodes: Nodes, roots: set<Hash>, ghost size: nat, h: Hash) returns (less: Nodes, roots': set<Hash>)
    requires TreeOk(nodes, roots, size) && IsVictim(nodes, h)
    ensures TreeOk(less, roots', size) && less == Without(nodes, h)
    ensures forall y :: Kept(less, y) <==> Kept(nodes, y)
    ensures !Kept(nodes, h)
  {
    assert NodeOk(nodes, roots, size, h);
    Shrink(nodes, roots, size, h);
    LeafIsNotKept(nodes, roots, size, h);
    forall y {
      KeptStays(nodes, roots, size, h, y);
    }
    var parent := nodes[h].parent;
    less := Unlinked(nodes - {h}, parent, h);
    roots' := if parent.Root? then roots - {h} else roots;
  }

  /** The nodes once some leaves have gone, one after another. */
  function WithoutAll(nodes: Nodes, evicted: seq<Hash>): (r: Nodes)
    ensures r.Keys == nodes.Keys - set h | h in evicted
  {
    if evicted == [] then nodes
    else
      var k := |evicted| - 1;
      assert forall h :: h in evicted <==> h in evicted[..k] || h == evicted[k];
      Without(WithoutAll(nodes, evicted[..k]), evicted[k])
  }

  /** Each was, at its turn, the least recently used of the eligible leaves. */
  ghost predicate InTurn(nodes: Nodes, evicted: seq<Hash>) {
    evicted == [] ||
    (var k := |evicted| - 1;
     InTurn(nodes, evicted[..k]) && IsVictim(WithoutAll(nodes, evicted[..k]), evicted[k]))
  }

  lemma InTurnMore(nodes: Nodes, evicted: seq<Hash>, h: Hash)
    requires InTurn(nodes, evicted) && IsVictim(WithoutAll(nodes, evicted), h)
    ensures InTurn(nodes, evicted + [h])
    ensures WithoutAll(nodes, evicted + [h]) == Without(WithoutAll(nodes, evicted), h)
  {
    assert (evicted + [h])[..|evicted|] == evicted;
  }

  // ----- the tree -----

  /** Nodes that were there are there, as they were but for their children. */
  predicate Untouched(before: Nodes, now: Nodes) {
    forall h | h in before :: h in now && now[h] == before[h].(children := now[h].children)
  }

  lemma UntouchedOn(a: Nodes, b: Nodes, c: Nodes)
    requires Untouched(a, b) && Untouched(b, c)
    ensures Untouched(a, c)
  {
    forall h | h in a
      ensures h in c && c[h] == a[h].(children := c[h].children)
    {
      assert h in b;
    }
  }

  function HashesOf(prefix: seq<PrefixBlock>): (r: seq<Hash>)
    ensures |r| == |prefix| && forall i | 0 <= i < |prefix| :: r[i] == prefix[i].hash
  {
    seq(|prefix|, i requires 0 <= i < |prefix| => prefix[i].hash)
  }

  /** One node, if it is missing. */
  method InsertOne(nodes: Nodes, roots: set<Hash>, ghost size: nat, pb: PrefixBlock, parent: Hash, tokenEnd: nat)
    returns (nodes': Nodes, roots': set<Hash>)
    requires TreeOk(nodes, roots, size) && pb.hash.Block? && pb.hash.parent == parent
    requires parent.Root? || parent in nodes
    requires tokenEnd == EndOf(pb.hash, size)
    ensures TreeOk(nodes', roots', size) && Untouched(nodes, nodes') && nodes'.Keys == nodes.Keys + {pb.hash}
    ensures pb.hash !in nodes ==> nodes'[pb.hash] == Fresh(pb, parent, tokenEnd)
  {
    nodes', roots' := nodes, roots;
    if pb.hash in nodes {
      return;
    }
    Grow(nodes, roots, size, pb);
    nodes' := Linked(nodes[pb.hash := Fresh(pb, parent, tokenEnd)], parent, pb.hash);
    roots' := Rooted(roots, pb.hash);
    assert parent != pb.hash;
  }

  /** Change one node's bookkeeping, if it is there. */
  lemma TreeKeeps(nodes: Nodes, roots: set<Hash>, size: nat, h: Hash, node: Node)
    requires TreeOk(nodes, roots, size) && h in nodes
    requires node == nodes[h].(refs := node.refs, pinned := node.pinned, lastUsed := node.lastUsed)
    ensures TreeOk(nodes[h := node], roots, size)
  {
    var now := nodes[h := node];
    forall x | x in now
      ensures NodeOk(now, roots, size, x)
    {
      assert NodeOk(nodes, roots, size, x);
    }
  }

  function Released(node: Node, clock: nat): Node {
    var refs := if node.refs > 0 then node.refs - 1 else 0;
    node.(refs := refs, lastUsed := if refs == 0 then clock else node.lastUsed)
  }

  function ReleasedTimes(node: Node, clock: nat, n: nat): Node {
    if n == 0 then node else Released(ReleasedTimes(node, clock, n - 1), clock)
  }

  /** So many references fewer, but not below none; what has come to none was last used now. */
  lemma {:induction false} ReleasedMeans(node: Node, clock: nat, times: nat)
    ensures ReleasedTimes(node, clock, times)
         == node.(refs := if times < node.refs then node.refs - times else 0,
                  lastUsed := if times == 0 || times < node.refs then node.lastUsed else clock)
    decreases times
  {
    if times > 0 {
      ReleasedMeans(node, clock, times - 1);
    }
  }

  /** As inserted, whatever children it has got since. */
  predicate IsFresh(nodes: Nodes, size: nat, pb: PrefixBlock) {
    && pb.hash.Block? && pb.hash in nodes
    && var node := nodes[pb.hash];
    && node.parent == pb.hash.parent && node.block == pb.block && node.tokenEnd == Depth(pb.hash) * size
    && node.snapshot == pb.snapshot && node.refs == 0 && !node.pinned && node.lastUsed == 0
  }

  /** So many blocks of a chain are there, the new ones as inserted, and nothing else is new. */
  ghost predicate Inserted(before: Nodes, now: Nodes, size: nat, prefix: seq<PrefixBlock>, i: nat)
    requires i <= |prefix|
  {
    && now.Keys == before.Keys + (set j | 0 <= j < i :: prefix[j].hash)
    && forall j | 0 <= j < i && prefix[j].hash !in before :: IsFresh(now, size, prefix[j])
  }

  lemma InsertedOneMore(before: Nodes, was: Nodes, now: Nodes, size: nat, prefix: seq<PrefixBlock>, i: nat)
    requires i < |prefix| && prefix[i].hash.Block? && Inserted(before, was, size, prefix, i)
    requires Untouched(was, now) && now.Keys == was.Keys + {prefix[i].hash}
    requires forall j | 0 <= j < i :: prefix[j].hash != prefix[i].hash
    requires prefix[i].hash !in was ==> IsFresh(now, size, prefix[i])
    ensures Inserted(before, now, size, prefix, i + 1)
  {
    assert forall j | 0 <= j < i && prefix[j].hash !in before :: IsFresh(was, size, prefix[j]);
  }

  lemma CountMore(hashes: seq<Hash>, i: nat, h: Hash)
    requires i < |hashes|
    ensures multiset(hashes[..i + 1])[h] == multiset(hashes[..i])[h] + (if h == hashes[i] then 1 else 0)
  {
    assert hashes[..i + 1] == hashes[..i] + [hashes[i]];
  }

  /** Each node has been released once for every time it occurred so far. */
  ghost predicate ReleasedSoFar(before: Nodes, now: Nodes, clock: nat, hashes: seq<Hash>) {
    && now.Keys == before.Keys
    && forall h | h in now :: now[h] == ReleasedTimes(before[h], clock, multiset(hashes)[h])
  }

  lemma ReleasedOneMore(before: Nodes, now: Nodes, clock: nat, hashes: seq<Hash>, i: nat)
    requires i < |hashes| && ReleasedSoFar(before, now, clock, hashes[..i])
    ensures ReleasedSoFar(before, if hashes[i] in now then now[hashes[i] := Released(now[hashes[i]], clock)] else now,
                          clock, hashes[..i + 1])
  {
    forall h {
      CountMore(hashes, i, h);
    }
  }

  class RadixTree {
    const size: nat
    var nodes: Nodes
    /** Nodes with nothing above them. */
    var roots: set<Hash>
    var clock: nat

    predicate Valid()
      reads this
    {
      TreeOk(nodes, roots, size)
    }

    constructor (size: nat)
      ensures Valid() && nodes == map[] && this.size == size
    {
      this.size, nodes, roots, clock := size, map[], {}, 0;
    }

    /** Insert a chain; nodes that already exist keep their reference counts, pins and snapshots. */
    method Insert(prefix: seq<PrefixBlock>)
      requires Valid() && IsQuery(HashesOf(prefix))
      modifies `nodes, `roots
      ensures Valid() && Untouched(old(nodes), nodes)
      ensures nodes.Keys == old(nodes).Keys + set i | 0 <= i < |prefix| :: prefix[i].hash
      ensures forall i | 0 <= i < |prefix| && prefix[i].hash !in old(nodes) :: IsFresh(nodes, size, prefix[i])
    {
      var parent, tokenStart := Root, 0;
      ghost var hashes := HashesOf(prefix);
      for i := 0 to |prefix|
        invariant Valid() && Untouched(old(nodes), nodes) && tokenStart == i * size && parent == Before(hashes, i)
        invariant parent.Root? || parent in nodes
        invariant Inserted(old(nodes), nodes, size, prefix, i)
      {
        BlockEnds(hashes, i, size);
        NotYet(hashes, i);
        ghost var was := nodes;
        var tokenEnd := tokenStart + size;
        nodes, roots := InsertOne(nodes, roots, size, prefix[i], parent, tokenEnd);
        UntouchedOn(old(nodes), was, nodes);
        InsertedOneMore(old(nodes), was, nodes, size, prefix, i);
        parent, tokenStart := prefix[i].hash, tokenEnd;
      }
    }

    /**
     * The longest cached prefix of a sequence's own names, and the deepest
     * snapshot in it. No name past it is cached.
     */
    method MatchPrefix(hashes: seq<Hash>) returns (m: Match, ghost n: nat)
      requires Valid() && IsQuery(hashes)
      ensures Longest(nodes, hashes, n) && m.tokens == n * size
      ensures |m.blocks| == n && forall i | 0 <= i < n :: m.blocks[i] == nodes[hashes[i]].block
      ensures Deepest(nodes, hashes, n, m.snapshotAt)
      ensures m.snapshotTokens == match m.snapshotAt case None => 0 case Some(k) => (k + 1) * size
    {
      m := Match(0, [], None, 0);
      for i := 0 to |hashes|
        invariant forall j | 0 <= j < i :: hashes[j] in nodes
        invariant m.tokens == i * size && Deepest(nodes, hashes, i, m.snapshotAt)
        invariant |m.blocks| == i && forall j | 0 <= j < i :: m.blocks[j] == nodes[hashes[j]].block
        invariant m.snapshotTokens == match m.snapshotAt case None => 0 case Some(k) => (k + 1) * size
      {
        if hashes[i] !in nodes {
          forall j | i <= j < |hashes|
            ensures hashes[j] !in nodes
          {
            if hashes[j] in nodes {
              PrefixClosed(nodes, roots, size, hashes, j, i);
            }
          }
          return m, i;
        }
        var node := nodes[hashes[i]];
        assert NodeOk(nodes, roots, size, hashes[i]);
        QueryDepth(hashes, i);
        m := m.(tokens := node.tokenEnd, blocks := m.blocks + [node.block]);
        if node.snapshot.Some? {
          m := m.(snapshotAt := Some(i), snapshotTokens := node.tokenEnd);
        }
      }
      n := |hashes|;
    }

    /** One more reference on every node of a chain that is there. */
    method IncrRefChain(hashes: seq<Hash>)
      requires Valid()
      modifies `nodes
      ensures Valid() && nodes.Keys == old(nodes).Keys
      ensures forall h | h in nodes :: nodes[h] == old(nodes)[h].(refs := old(nodes)[h].refs + multiset(hashes)[h])
    {
      for i := 0 to |hashes|
        invariant Valid() && nodes.Keys == old(nodes).Keys
        invariant forall h | h in nodes ::
                    nodes[h] == old(nodes)[h].(refs := old(nodes)[h].refs + multiset(hashes[..i])[h])
      {
        assert hashes[..i + 1] == hashes[..i] + [hashes[i]];
        if hashes[i] in nodes {
          var node := nodes[hashes[i]];
          TreeKeeps(nodes, roots, size, hashes[i], node.(refs := node.refs + 1));
          nodes := nodes[hashes[i] := node.(refs := node.refs + 1)];
        }
      }
      assert hashes[..|hashes|] == hashes;
    }

    /** One reference fewer, not below none, on every node of a chain; what has none left was last used now. */
    method DecrRefChain(hashes: seq<Hash>)
      requires Valid()
      modifies `nodes, `clock
      ensures Valid() && clock == old(clock) + 1 && nodes.Keys == old(nodes).Keys
      ensures forall h | h in nodes ::
                var before, times := old(nodes)[h], multiset(hashes)[h];
                nodes[h] == before.(refs := if times < before.refs then before.refs - times else 0,
                                    lastUsed := if times == 0 || times < before.refs then before.lastUsed else clock)
    {
      clock := clock + 1;
      ghost var before := nodes;
      for i := 0 to |hashes|
        invariant Valid() && clock == old(clock) + 1 && ReleasedSoFar(before, nodes, clock, hashes[..i])
      {
        ReleasedOneMore(before, nodes, clock, hashes, i);
        if hashes[i] in nodes {
          TreeKeeps(nodes, roots, size, hashes[i], Released(nodes[hashes[i]], clock));
          nodes := nodes[hashes[i] := Released(nodes[hashes[i]], clock)];
        }
      }
      assert hashes[..|hashes|] == hashes;
      forall h | h in nodes {
        ReleasedMeans(before[h], clock, multiset(hashes)[h]);
      }
    }

    /** Exempt every node of a chain from eviction, or no longer. */
    method SetPinned(hashes: seq<Hash>, pinned: bool)
      requires Valid()
      modifies `nodes
      ensures Valid() && nodes.Keys == old(nodes).Keys
      ensures forall h | h in nodes ::
                nodes[h] == if h in hashes then old(nodes)[h].(pinned := pinned) else old(nodes)[h]
    {
      for i := 0 to |hashes|
        invariant Valid() && nodes.Keys == old(nodes).Keys
        invariant forall h | h in nodes ::
                    nodes[h] == if h in hashes[..i] then old(nodes)[h].(pinned := pinned) else old(nodes)[h]
      {
        assert hashes[..i + 1] == hashes[..i] + [hashes[i]];
        if hashes[i] in nodes {
          TreeKeeps(nodes, roots, size, hashes[i], nodes[hashes[i]].(pinned := pinned));
          nodes := nodes[hashes[i] := nodes[hashes[i]].(pinned := pinned)];
        }
      }
      assert hashes[..|hashes|] == hashes;
    }

    /**
     * Evict up to `most` unreferenced, unpinned leaves, each the least recently
     * used there is at its turn. What is in use stays, and so does everything
     * above it; with no bound reached, nothing else does.
     */
    method EvictUnreferenced(most: nat) returns (evicted: seq<Hash>)
      requires Valid()
      modifies `nodes, `roots
      ensures Valid() && |evicted| <= most
      ensures nodes == WithoutAll(old(nodes), evicted) && InTurn(old(nodes), evicted)
      ensures forall h | h in old(nodes) && Kept(old(nodes), h) :: h in nodes
      ensures |evicted| < most ==> forall h | h in nodes :: Kept(old(nodes), h)
    {
      ghost var first := nodes;
      evicted := [];
      var tree, tops := nodes, roots;
      while |evicted| < most
        invariant TreeOk(tree, tops, size) && |evicted| <= most
        invariant tree == WithoutAll(first, evicted) && InTurn(first, evicted)
        invariant forall h :: Kept(tree, h) <==> Kept(first, h)
        invariant forall h | h in first && Kept(first, h) :: h in tree
      {
        var victim := FindVictim(tree);
        if victim.None? {
          forall h | h in tree
            ensures Kept(first, h)
          {
            RestIsKept(tree, tops, size, h);
          }
          break;
        }
        InTurnMore(first, evicted, victim.value);
        tree, tops := EvictOne(tree, tops, size, victim.value);
        evicted := evicted + [victim.value];
      }
      nodes, roots := tree, tops;
    }
  }
}
