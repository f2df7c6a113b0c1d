/** The vocabulary's byte trie: built piece by piece, then flattened into edge arrays. */
module Tries {
  import opened Tools

  datatype Edge = Edge(byte: Byte, target: nat)

  // ----- which token a spelling leads to -----

  /** Tokens the trie holds: spelled by at least one byte, and not an end of generation. */
  predicate InTrie(pieces: seq<Bytes>, eog: seq<nat>, t: nat) {
    t < |pieces| && pieces[t] != [] && t !in eog
  }

  /** The last of the first `n` tokens spelled `path`, or -1. */
  function LastToken(pieces: seq<Bytes>, eog: seq<nat>, n: nat, path: Bytes): (r: int)
    requires n <= |pieces|
    ensures -1 <= r < n
    ensures r >= 0 ==> InTrie(pieces, eog, r) && pieces[r] == path
    ensures forall t | r < t < n :: !(InTrie(pieces, eog, t) && pieces[t] == path)
  {
    if n == 0 then -1
    else if InTrie(pieces, eog, n - 1) && pieces[n - 1] == path then n - 1
    else LastToken(pieces, eog, n - 1, path)
  }

  // ----- the trie while it is built -----

  ghost predicate HasParent(children: seq<seq<Edge>>, j: nat) {
    exists i, e | 0 <= i < |children| && e in children[i] :: e.target == j
  }

  /** Each node stands for the string its edges spell, and no two for the same. */
  ghost predicate TreeOk(children: seq<seq<Edge>>, paths: seq<Bytes>) {
    && 1 <= |children| == |paths| && paths[0] == []
    && (forall i, e | 0 <= i < |children| && e in children[i] ::
          i < e.target < |paths| && paths[e.target] == paths[i] + [e.byte])
    && (forall j | 0 < j < |paths| :: HasParent(children, j))
    && (forall i, j | 0 <= i < j < |paths| :: paths[i] != paths[j])
  }

  /** If some node spells a longer string, the edge to it is there. */
  lemma EdgeExists(children: seq<seq<Edge>>, paths: seq<Bytes>, i: nat, b: Byte, j: nat)
    requires TreeOk(children, paths) && i < |paths| && j < |paths| && paths[j] == paths[i] + [b]
    ensures Edge(b, j) in children[i]
  {
    assert j != 0;
    assert HasParent(children, j);
    var k, e :| 0 <= k < |children| && e in children[k] && e.target == j;
    assert paths[k] + [e.byte] == paths[i] + [b];
    assert (paths[k] + [e.byte])[..|paths[k]|] == paths[k];
    assert (paths[i] + [b])[..|paths[i]|] == paths[i];
    assert k == i;
  }

  /** A new leaf below `node`. */
  lemma GrowTree(children: seq<seq<Edge>>, paths: seq<Bytes>, node: nat, b: Byte)
    requires TreeOk(children, paths) && node < |paths|
    requires forall e | e in children[node] :: e.byte != b
    ensures TreeOk(children[node := children[node] + [Edge(b, |children|)]] + [[]], paths + [paths[node] + [b]])
    ensures forall i | 0 <= i < |paths| :: paths[i] != paths[node] + [b]
  {
    var leaf := Edge(b, |children|);
    var after: seq<seq<Edge>> := children[node := children[node] + [leaf]] + [[]];
    var paths' := paths + [paths[node] + [b]];
    forall i | 0 <= i < |paths|
      ensures paths[i] != paths[node] + [b]
    {
      if paths[i] == paths[node] + [b] {
        EdgeExists(children, paths, node, b, i);
      }
    }
    forall j | 0 < j < |paths'|
      ensures HasParent(after, j)
    {
      if j == |paths| {
        assert leaf in after[node];
      } else {
        assert HasParent(children, j);
        var i, e :| 0 <= i < |children| && e in children[i] && e.target == j;
        assert e in after[i];
      }
    }
    forall i, e: Edge | 0 <= i < |after| && e in after[i]
      ensures i < e.target < |paths'| && paths'[e.target] == paths'[i] + [e.byte]
    {
      if i < |children| && e != leaf {
        assert e in children[i];
      }
    }
  }

  /** Which of `edges` takes `b`, if any. */
  method FindEdge(edges: seq<Edge>, b: Byte) returns (found: bool, target: nat)
    ensures found ==> Edge(b, target) in edges
    ensures !found ==> forall e | e in edges :: e.byte != b
  {
    for i := 0 to |edges|
      invariant forall j | 0 <= j < i :: edges[j].byte != b
    {
      if edges[i].byte == b {
        return true, edges[i].target;
      }
    }
    return false, 0;
  }

  /** Every token so far has its node, and every node names the last token it spells. */
  ghost predicate TokensOk(pieces: seq<Bytes>, eog: seq<nat>, n: nat, paths: seq<Bytes>, nodeToken: seq<int>)
  {
    && n <= |pieces| && |nodeToken| == |paths|
    && (forall j | 0 <= j < |paths| :: nodeToken[j] == LastToken(pieces, eog, n, paths[j]))
    && (forall t | 0 <= t < n && InTrie(pieces, eog, t) :: pieces[t] in paths)
  }

  /** Walk to the node spelling `piece`, adding what is missing. */
  method Descend(pieces: seq<Bytes>, eog: seq<nat>, n: nat, piece: Bytes, children: seq<seq<Edge>>,
                 nodeToken: seq<int>, ghost paths: seq<Bytes>)
    returns (node: nat, children': seq<seq<Edge>>, nodeToken': seq<int>, ghost paths': seq<Bytes>)
    requires TreeOk(children, paths) && TokensOk(pieces, eog, n, paths, nodeToken)
    ensures TreeOk(children', paths') && TokensOk(pieces, eog, n, paths', nodeToken')
    ensures node < |paths'| && paths'[node] == piece
  {
    node, children', nodeToken', paths' := 0, children, nodeToken, paths;
    for i := 0 to |piece|
      invariant TreeOk(children', paths') && TokensOk(pieces, eog, n, paths', nodeToken')
      invariant node < |paths'| && paths'[node] == piece[..i]
    {
      assert piece[..i] + [piece[i]] == piece[..i + 1];
      var found, next := FindEdge(children'[node], piece[i]);
      if found {
        node := next;
      } else {
        GrowTree(children', paths', node, piece[i]);
        var leaf := |children'|;
        paths' := paths' + [paths'[node] + [piece[i]]];
        nodeToken' := nodeToken' + [-1];
        children' := children'[node := children'[node] + [Edge(piece[i], leaf)]] + [[]];
        node := leaf;
      }
    }
    assert piece[..|piece|] == piece;
  }

  /** Record token `n` at the node spelling its piece. */
  lemma TokenRecorded(pieces: seq<Bytes>, eog: seq<nat>, n: nat, paths: seq<Bytes>, nodeToken: seq<int>, node: nat)
    requires TokensOk(pieces, eog, n, paths, nodeToken) && InTrie(pieces, eog, n)
    requires node < |paths| && paths[node] == pieces[n]
    requires forall i, j | 0 <= i < j < |paths| :: paths[i] != paths[j]
    ensures TokensOk(pieces, eog, n + 1, paths, nodeToken[node := n])
  {
  }

  lemma TokenSkipped(pieces: seq<Bytes>, eog: seq<nat>, n: nat, paths: seq<Bytes>, nodeToken: seq<int>)
    requires TokensOk(pieces, eog, n, paths, nodeToken) && n < |pieces| && !InTrie(pieces, eog, n)
    ensures TokensOk(pieces, eog, n + 1, paths, nodeToken)
  {
  }

  // ----- the trie flattened -----

  /** Where each node's edges begin; the last entry is where the last node's end. */
  datatype Trie = Trie(edgeStart: seq<nat>, edgeByte: Bytes, edgeTarget: seq<nat>, nodeToken: seq<int>)

  predicate InOrder(starts: seq<nat>, i: nat, bound: nat) {
    i + 1 < |starts| && starts[i] <= starts[i + 1] <= bound
  }

  /** Edge `e` is one of node `i`'s. */
  predicate IsEdge(starts: seq<nat>, bound: nat, i: int, e: int) {
    0 <= i && i + 1 < |starts| && starts[i] <= e < starts[i + 1] && e < bound
  }

  /** Of two neighbouring edges of one node, the second has no smaller byte. */
  predicate Ascends(starts: seq<nat>, bytes: Bytes, i: int, e: int) {
    IsEdge(starts, |bytes|, i, e) && IsEdge(starts, |bytes|, i, e + 1) ==> bytes[e] <= bytes[e + 1]
  }

  ghost predicate InByteOrder(starts: seq<nat>, bytes: Bytes) {
    forall i, e {:trigger Ascends(starts, bytes, i, e)} :: Ascends(starts, bytes, i, e)
  }

  ghost predicate RangesOk(trie: Trie) {
    && 1 <= |trie.nodeToken| && |trie.edgeStart| == |trie.nodeToken| + 1
    && |trie.edgeByte| == |trie.edgeTarget|
    && (forall i | 0 <= i < |trie.nodeToken| :: InOrder(trie.edgeStart, i, |trie.edgeTarget|))
    && (forall i, e | IsEdge(trie.edgeStart, |trie.edgeTarget|, i, e) ::
          i < trie.edgeTarget[e] < |trie.nodeToken|)
  }

  ghost predicate TrieOk(trie: Trie, paths: seq<Bytes>) {
    && RangesOk(trie) && |paths| == |trie.nodeToken| && paths[0] == []
    && (forall i, e | IsEdge(trie.edgeStart, |trie.edgeTarget|, i, e) ::
          paths[trie.edgeTarget[e]] == paths[i] + [trie.edgeByte[e]])
    && (forall j | 0 < j < |paths| :: Entered(trie, j))
    && (forall i, j | 0 <= i < j < |paths| :: paths[i] != paths[j])
  }

  ghost predicate HasEdge(starts: seq<nat>, targets: seq<nat>, i: nat, j: nat) {
    exists e | IsEdge(starts, |targets|, i, e) :: targets[e] == j
  }

  ghost predicate Entered(trie: Trie, j: nat) {
    exists i :: HasEdge(trie.edgeStart, trie.edgeTarget, i, j)
  }

  predicate ByBytes(edges: seq<Edge>) {
    |edges| <= 1 || (edges[0].byte <= edges[1].byte && ByBytes(edges[1..]))
  }

  /** One node's edges in byte order. */
  function Insert(e: Edge, edges: seq<Edge>): (r: seq<Edge>)
    ensures ByBytes(edges) ==> ByBytes(r)
    ensures forall x :: x in r <==> x == e || x in edges
    ensures r != [] && (r[0] == e || (edges != [] && r[0] == edges[0]))
  {
    if edges == [] || e.byte <= edges[0].byte then
      assert ([e] + edges)[1..] == edges;
      [e] + edges
    else
      var rest := Insert(e, edges[1..]);
      assert ([edges[0]] + rest)[1..] == rest;
      [edges[0]] + rest
  }

  function Sorted(edges: seq<Edge>): (r: seq<Edge>)
    ensures ByBytes(r)
    ensures forall x :: x in r <==> x in edges
  {
    if edges == [] then [] else Insert(edges[0], Sorted(edges[1..]))
  }

  lemma {:induction false} ByBytesAt(edges: seq<Edge>, k: nat)
    requires ByBytes(edges) && k + 1 < |edges|
    ensures edges[k].byte <= edges[k + 1].byte
  {
    if k > 0 {
      ByBytesAt(edges[1..], k - 1);
    }
  }

  /** The first `n` nodes' edges are laid out, in order. */
  ghost predicate LaidOut(children: seq<seq<Edge>>, n: nat, edgeStart: seq<nat>, edgeByte: Bytes,
                          edgeTarget: seq<nat>)
  {
    && n <= |children| && |edgeStart| == n + 1 && edgeStart[n] == |edgeByte| == |edgeTarget|
    && (forall i | 0 <= i < n :: InOrder(edgeStart, i, |edgeTarget|))
    && (forall i, e | IsEdge(edgeStart, |edgeTarget|, i, e) ::
          Edge(edgeByte[e], edgeTarget[e]) in children[i])
    && (forall i, x | 0 <= i < n && x in children[i] :: HasEdge(edgeStart, edgeTarget, i, x.target))
  }

  /** Append one node's edges, in byte order. */
  method AddNode(children: seq<seq<Edge>>, n: nat, edgeStart: seq<nat>, edgeByte: Bytes, edgeTarget: seq<nat>)
    returns (edgeStart': seq<nat>, edgeByte': Bytes, edgeTarget': seq<nat>)
    requires n < |children| && LaidOut(children, n, edgeStart, edgeByte, edgeTarget)
    requires InByteOrder(edgeStart, edgeByte)
    ensures LaidOut(children, n + 1, edgeStart', edgeByte', edgeTarget') && InByteOrder(edgeStart', edgeByte')
  {
    var edges := Sorted(children[n]);
    edgeByte', edgeTarget' := edgeByte, edgeTarget;
    for k := 0 to |edges|
      invariant |edgeByte'| == |edgeTarget'| == |edgeByte| + k
      invariant edgeByte'[..|edgeByte|] == edgeByte && edgeTarget'[..|edgeTarget|] == edgeTarget
      invariant forall i | 0 <= i < k ::
                  Edge(edgeByte'[|edgeByte| + i], edgeTarget'[|edgeByte| + i]) == edges[i]
    {
      edgeByte' := edgeByte' + [edges[k].byte];
      edgeTarget' := edgeTarget' + [edges[k].target];
    }
    edgeStart' := edgeStart + [|edgeByte'|];
    NodeAdded(children, n, edgeStart, edgeByte, edgeTarget, edgeByte', edgeTarget', edges);
    OrderKept(children, n, edgeStart, edgeByte, edgeTarget, edgeByte', edges);
  }

  lemma OrderKept(children: seq<seq<Edge>>, n: nat, edgeStart: seq<nat>, edgeByte: Bytes, edgeTarget: seq<nat>,
                  edgeByte': Bytes, edges: seq<Edge>)
    requires LaidOut(children, n, edgeStart, edgeByte, edgeTarget) && InByteOrder(edgeStart, edgeByte)
    requires |edgeByte'| == |edgeByte| + |edges| && edgeByte'[..|edgeByte|] == edgeByte && ByBytes(edges)
    requires forall i | 0 <= i < |edges| :: edgeByte'[|edgeByte| + i] == edges[i].byte
    ensures InByteOrder(edgeStart + [|edgeByte'|], edgeByte')
  {
    var starts, m := edgeStart + [|edgeByte'|], |edgeByte|;
    forall i, e
      ensures Ascends(starts, edgeByte', i, e)
    {
      if IsEdge(starts, |edgeByte'|, i, e) && IsEdge(starts, |edgeByte'|, i, e + 1) {
        if i < n {
          assert InOrder(edgeStart, i, m) && Ascends(edgeStart, edgeByte, i, e);
          assert edgeByte'[e] == edgeByte'[..m][e] && edgeByte'[e + 1] == edgeByte'[..m][e + 1];
        } else {
          ByBytesAt(edges, e - m);
          assert edgeByte'[m + (e - m)] == edges[e - m].byte && edgeByte'[m + (e - m + 1)] == edges[e - m + 1].byte;
        }
      }
    }
  }

  lemma NodeAdded(children: seq<seq<Edge>>, n: nat, edgeStart: seq<nat>, edgeByte: Bytes, edgeTarget: seq<nat>,
                  edgeByte': Bytes, edgeTarget': seq<nat>, edges: seq<Edge>)
    requires n < |children| && LaidOut(children, n, edgeStart, edgeByte, edgeTarget)
    requires forall x :: x in edges <==> x in children[n]
    requires |edgeByte'| == |edgeTarget'| == |edgeByte| + |edges|
    requires edgeByte'[..|edgeByte|] == edgeByte && edgeTarget'[..|edgeTarget|] == edgeTarget
    requires forall i | 0 <= i < |edges| ::
               Edge(edgeByte'[|edgeByte| + i], edgeTarget'[|edgeByte| + i]) == edges[i]
    ensures LaidOut(children, n + 1, edgeStart + [|edgeByte'|], edgeByte', edgeTarget')
  {
    var starts := edgeStart + [|edgeByte'|];
    forall i | 0 <= i < n + 1
      ensures InOrder(starts, i, |edgeTarget'|)
    {
      if i < n {
        assert InOrder(edgeStart, i, |edgeTarget|);
      }
    }
    forall i, e | IsEdge(starts, |edgeTarget'|, i, e)
      ensures Edge(edgeByte'[e], edgeTarget'[e]) in children[i]
    {
      if i < n {
        assert InOrder(edgeStart, i, |edgeTarget|) && IsEdge(edgeStart, |edgeTarget|, i, e);
        assert edgeByte'[e] == edgeByte'[..|edgeByte|][e] && edgeTarget'[e] == edgeTarget'[..|edgeTarget|][e];
      } else {
        var k := e - |edgeByte|;
        assert Edge(edgeByte'[|edgeByte| + k], edgeTarget'[|edgeByte| + k]) == edges[k];
        assert edges[k] in edges;
      }
    }
    forall i, x | 0 <= i < n + 1 && x in children[i]
      ensures HasEdge(starts, edgeTarget', i, x.target)
    {
      if i < n {
        assert HasEdge(edgeStart, edgeTarget, i, x.target);
        var e :| IsEdge(edgeStart, |edgeTarget|, i, e) && edgeTarget[e] == x.target;
        assert edgeTarget'[e] == edgeTarget'[..|edgeTarget|][e] && IsEdge(starts, |edgeTarget'|, i, e);
      } else {
        var k :| 0 <= k < |edges| && edges[k] == x;
        assert edgeTarget'[|edgeByte| + k] == x.target;
        assert IsEdge(starts, |edgeTarget'|, i, |edgeByte| + k);
      }
    }
  }

  /** The node lists as three flat arrays. */
  method Flatten(children: seq<seq<Edge>>, nodeToken: seq<int>, ghost paths: seq<Bytes>) returns (trie: Trie)
    requires TreeOk(children, paths) && |nodeToken| == |children|
    ensures TrieOk(trie, paths) && trie.nodeToken == nodeToken && InByteOrder(trie.edgeStart, trie.edgeByte)
  {
    var edgeStart, edgeByte, edgeTarget := [0], [], [];
    for n := 0 to |children|
      invariant LaidOut(children, n, edgeStart, edgeByte, edgeTarget) && InByteOrder(edgeStart, edgeByte)
    {
      edgeStart, edgeByte, edgeTarget := AddNode(children, n, edgeStart, edgeByte, edgeTarget);
    }
    trie := Trie(edgeStart, edgeByte, edgeTarget, nodeToken);
    LaidOutIsTrie(children, paths, trie);
  }

  lemma LaidOutIsTrie(children: seq<seq<Edge>>, paths: seq<Bytes>, trie: Trie)
    requires TreeOk(children, paths) && |trie.nodeToken| == |children|
    requires LaidOut(children, |children|, trie.edgeStart, trie.edgeByte, trie.edgeTarget)
    ensures TrieOk(trie, paths)
  {
    forall i, e | IsEdge(trie.edgeStart, |trie.edgeTarget|, i, e)
      ensures i < trie.edgeTarget[e] < |paths|
      ensures paths[trie.edgeTarget[e]] == paths[i] + [trie.edgeByte[e]]
    {
      assert Edge(trie.edgeByte[e], trie.edgeTarget[e]) in children[i];
    }
    forall j | 0 < j < |paths|
      ensures Entered(trie, j)
    {
      assert HasParent(children, j);
      var i, x :| 0 <= i < |children| && x in children[i] && x.target == j;
      assert HasEdge(trie.edgeStart, trie.edgeTarget, i, j);
    }
  }
}
