/** The depth-first walk that finds the tokens a cursor set admits. */
module Walks {
  import opened Tools
  import opened Machines
  import opened Tries
  import opened Bits
  import opened Runs

  // ----- what the walk finds -----

  function TokenAt(trie: Trie, node: nat): set<nat> {
    if node < |trie.nodeToken| && trie.nodeToken[node] >= 0 then {trie.nodeToken[node] as nat} else {}
  }

  lemma EdgeInRange(trie: Trie, node: nat, e: nat)
    requires RangesOk(trie) && node < |trie.nodeToken| && trie.edgeStart[node] <= e < trie.edgeStart[node + 1]
    ensures IsEdge(trie.edgeStart, |trie.edgeTarget|, node, e)
    ensures e < |trie.edgeTarget| && node < trie.edgeTarget[e] < |trie.nodeToken|
  {
    assert InOrder(trie.edgeStart, node, |trie.edgeTarget|);
    assert IsEdge(trie.edgeStart, |trie.edgeTarget|, node, e);
  }

  /** The tokens below `node`, by its edges from `e` on, that the machine survives from `cs`. */
  ghost function Below(trie: Trie, m: Machine, node: nat, e: nat, cs: set<Cursor>): set<nat>
    requires RangesOk(trie) && WellFormed(m) && node < |trie.nodeToken| && trie.edgeStart[node] <= e
    decreases |trie.nodeToken| - node, if e < trie.edgeStart[node + 1] then trie.edgeStart[node + 1] - e else 0
  {
    if e >= trie.edgeStart[node + 1] then {}
    else
      EdgeInRange(trie, node, e);
      var target, after := trie.edgeTarget[e], StepSet(m, cs, trie.edgeByte[e]);
      var through := if after == {} then {}
                     else TokenAt(trie, target) + Below(trie, m, target, trie.edgeStart[target], after);
      through + Below(trie, m, node, e + 1, cs)
  }

  /** Steps the walk still owes for one frame. */
  ghost function Size(trie: Trie, node: nat, e: nat): nat
    requires RangesOk(trie) && node < |trie.nodeToken| && trie.edgeStart[node] <= e
    decreases |trie.nodeToken| - node, if e < trie.edgeStart[node + 1] then trie.edgeStart[node + 1] - e else 0
  {
    if e >= trie.edgeStart[node + 1] then 1
    else
      EdgeInRange(trie, node, e);
      var target := trie.edgeTarget[e];
      1 + Size(trie, target, trie.edgeStart[target]) + Size(trie, node, e + 1)
  }

  /** Feeding the part of `paths[j]` below `node` survives. */
  ghost predicate SurvivesTo(m: Machine, paths: seq<Bytes>, node: nat, j: nat, cs: set<Cursor>)
    requires WellFormed(m)
  {
    && node < |paths| && j < |paths| && paths[node] <= paths[j]
    && RunSet(m, cs, paths[j][|paths[node]|..]) != {}
  }

  lemma RunThrough(m: Machine, cs: set<Cursor>, prefix: Bytes, b: Byte, whole: Bytes)
    requires WellFormed(m) && prefix + [b] <= whole
    ensures RunSet(m, cs, whole[|prefix|..]) == RunSet(m, StepSet(m, cs, b), whole[|prefix| + 1..])
  {
    var rest := whole[|prefix|..];
    assert rest[0] == (prefix + [b])[|prefix|] == b;
    assert rest[1..] == whole[|prefix| + 1..];
  }

  /** Everything the walk finds is a token whose bytes survive. */
  lemma {:induction false} BelowSound(trie: Trie, paths: seq<Bytes>, m: Machine, node: nat, e: nat,
                                      cs: set<Cursor>, t: nat) returns (j: nat)
    requires TrieOk(trie, paths) && WellFormed(m) && node < |paths| && trie.edgeStart[node] <= e
    requires t in Below(trie, m, node, e, cs)
    ensures j < |paths| && |paths[node]| < |paths[j]| && trie.nodeToken[j] == t && SurvivesTo(m, paths, node, j, cs)
    decreases |trie.nodeToken| - node, if e < trie.edgeStart[node + 1] then trie.edgeStart[node + 1] - e else 0
  {
    EdgeInRange(trie, node, e);
    var target, b := trie.edgeTarget[e], trie.edgeByte[e];
    var after := StepSet(m, cs, b);
    if after != {} && t in TokenAt(trie, target) {
      j := target;
      RunThrough(m, cs, paths[node], b, paths[j]);
      assert paths[j][|paths[node]| + 1..] == [];
    } else if after != {} && t in Below(trie, m, target, trie.edgeStart[target], after) {
      j := BelowSound(trie, paths, m, target, trie.edgeStart[target], after, t);
      assert paths[node] + [b] <= paths[j];
      RunThrough(m, cs, paths[node], b, paths[j]);
    } else {
      j := BelowSound(trie, paths, m, node, e + 1, cs, t);
    }
  }

  /** A node spelling more than `x` does lies through one of `x`'s edges. */
  lemma {:induction false} FirstEdge(trie: Trie, paths: seq<Bytes>, x: nat, j: nat) returns (e: nat)
    requires TrieOk(trie, paths) && x < |paths| && j < |paths| && paths[x] < paths[j]
    ensures IsEdge(trie.edgeStart, |trie.edgeTarget|, x, e) && paths[trie.edgeTarget[e]] <= paths[j]
    decreases j
  {
    assert j != 0;
    assert Entered(trie, j);
    var i: nat :| HasEdge(trie.edgeStart, trie.edgeTarget, i, j);
    var f :| IsEdge(trie.edgeStart, |trie.edgeTarget|, i, f) && trie.edgeTarget[f] == j;
    assert paths[j] == paths[i] + [trie.edgeByte[f]];
    if i == x {
      e := f;
    } else {
      assert paths[i] == paths[j][..|paths[i]|];
      assert paths[x] == paths[j][..|paths[x]|];
      e := FirstEdge(trie, paths, x, i);
    }
  }

  lemma {:induction false} BelowGrows(trie: Trie, m: Machine, node: nat, e: nat, f: nat, cs: set<Cursor>)
    requires RangesOk(trie) && WellFormed(m) && node < |trie.nodeToken|
    requires trie.edgeStart[node] <= e <= f <= trie.edgeStart[node + 1]
    ensures Below(trie, m, node, f, cs) <= Below(trie, m, node, e, cs)
    decreases f - e
  {
    if e < f {
      EdgeInRange(trie, node, e);
      BelowGrows(trie, m, node, e + 1, f, cs);
    }
  }

  /** Every token whose bytes survive is found. */
  lemma {:induction false} BelowComplete(trie: Trie, paths: seq<Bytes>, m: Machine, node: nat, cs: set<Cursor>, j: nat)
    requires TrieOk(trie, paths) && WellFormed(m) && node < |paths| && j < |paths| && paths[node] < paths[j]
    requires trie.nodeToken[j] >= 0 && SurvivesTo(m, paths, node, j, cs)
    ensures trie.nodeToken[j] as nat in Below(trie, m, node, trie.edgeStart[node], cs)
    decreases |paths[j]| - |paths[node]|
  {
    var e := FirstEdge(trie, paths, node, j);
    var target, b := trie.edgeTarget[e], trie.edgeByte[e];
    assert paths[target] == paths[node] + [b];
    RunThrough(m, cs, paths[node], b, paths[j]);
    var after := StepSet(m, cs, b);
    if after == {} {
      RunDead(m, paths[j][|paths[node]| + 1..]);
      assert false;
    }
    if target != j {
      assert paths[target] < paths[j];
      BelowComplete(trie, paths, m, target, after, j);
    }
    BelowGrows(trie, m, node, trie.edgeStart[node], e, cs);
  }

  // ----- the walk, by an explicit stack -----

  datatype Frame = Frame(node: nat, edge: nat, depth: nat)

  ghost predicate FrameOk(trie: Trie, frame: Frame, depth: nat)
    requires RangesOk(trie)
  {
    && frame.node < |trie.nodeToken| && frame.depth == depth
    && trie.edgeStart[frame.node] <= frame.edge <= trie.edgeStart[frame.node + 1]
  }

  ghost predicate FramesOk(trie: Trie, owner: Owner, frames: seq<Frame>, levels: seq<seq<Cursor>>)
    requires RangesOk(trie)
  {
    |frames| <= |levels| && forall d | 0 <= d < |frames| :: FrameOk(trie, frames[d], d) && AllOk(owner, levels[d])
  }

  /** What the frames still lead to, each from its own level's cursors. */
  ghost function Owed(trie: Trie, m: Machine, owner: Owner, frames: seq<Frame>, levels: seq<seq<Cursor>>): set<nat>
    requires RangesOk(trie) && WellFormed(m) && FramesOk(trie, owner, frames, levels)
    decreases |frames|
  {
    if frames == [] then {}
    else
      var top := frames[|frames| - 1];
      assert FrameOk(trie, top, |frames| - 1);
      Owed(trie, m, owner, frames[..|frames| - 1], levels)
      + Below(trie, m, top.node, top.edge, Elements(levels[|frames| - 1]))
  }

  ghost function Work(trie: Trie, owner: Owner, frames: seq<Frame>, levels: seq<seq<Cursor>>): nat
    requires RangesOk(trie) && FramesOk(trie, owner, frames, levels)
    decreases |frames|
  {
    if frames == [] then 0
    else
      var top := frames[|frames| - 1];
      assert FrameOk(trie, top, |frames| - 1);
      Work(trie, owner, frames[..|frames| - 1], levels) + Size(trie, top.node, top.edge)
  }

  /** Levels at or above the stack are scratch. */
  lemma {:induction false} OwedIgnoresScratch(trie: Trie, m: Machine, owner: Owner, frames: seq<Frame>,
                                              levels: seq<seq<Cursor>>, levels': seq<seq<Cursor>>)
    requires RangesOk(trie) && WellFormed(m) && FramesOk(trie, owner, frames, levels)
    requires |levels'| >= |frames| && levels'[..|frames|] == levels[..|frames|]
    ensures FramesOk(trie, owner, frames, levels')
    ensures Owed(trie, m, owner, frames, levels') == Owed(trie, m, owner, frames, levels)
    ensures Work(trie, owner, frames, levels') == Work(trie, owner, frames, levels)
    decreases |frames|
  {
    forall d | 0 <= d < |frames|
      ensures levels'[d] == levels[d]
    {
      assert levels'[d] == levels'[..|frames|][d] == levels[..|frames|][d];
    }
    if frames != [] {
      var k := |frames| - 1;
      assert levels'[..k] == levels'[..|frames|][..k] == levels[..k];
      OwedIgnoresScratch(trie, m, owner, frames[..k], levels, levels');
    }
  }

  lemma PushOwed(trie: Trie, m: Machine, owner: Owner, frames: seq<Frame>, top: Frame, levels: seq<seq<Cursor>>)
    requires RangesOk(trie) && WellFormed(m) && FramesOk(trie, owner, frames, levels) && |frames| < |levels|
    requires FrameOk(trie, top, |frames|) && AllOk(owner, levels[|frames|])
    ensures FramesOk(trie, owner, frames + [top], levels)
    ensures Owed(trie, m, owner, frames + [top], levels)
         == Owed(trie, m, owner, frames, levels) + Below(trie, m, top.node, top.edge, Elements(levels[|frames|]))
    ensures Work(trie, owner, frames + [top], levels)
         == Work(trie, owner, frames, levels) + Size(trie, top.node, top.edge)
  {
    var all := frames + [top];
    assert all[..|all| - 1] == frames;
    forall d | 0 <= d < |all|
      ensures FrameOk(trie, all[d], d) && AllOk(owner, levels[d])
    {
      assert d < |frames| ==> all[d] == frames[d];
    }
  }

  /** Make room for `cursors` one level down. */
  function SetLevel(levels: seq<seq<Cursor>>, depth: nat, cursors: seq<Cursor>): (r: seq<seq<Cursor>>)
    requires depth <= |levels|
    ensures depth < |r| && r[depth] == cursors && r[..depth] == levels[..depth] && |r| >= |levels|
  {
    if depth == |levels| then levels + [cursors] else levels[depth := cursors]
  }

  /** Tokens the words hold: exactly `found`. */
  ghost predicate Holds(words: seq<Word>, found: set<nat>) {
    forall t: nat :: Marked(words, t) <==> t in found
  }

  ghost predicate TokensFit(trie: Trie, words: seq<Word>) {
    forall i | 0 <= i < |trie.nodeToken| :: trie.nodeToken[i] >= 0 ==> trie.nodeToken[i] / 64 < |words|
  }

  /** Allow the token that ends at `node`, if one does. */
  method AllowToken(trie: Trie, node: nat, words: seq<Word>, ghost found: set<nat>) returns (words': seq<Word>)
    requires node < |trie.nodeToken| && TokensFit(trie, words) && Holds(words, found)
    ensures |words'| == |words| && Holds(words', found + TokenAt(trie, node))
  {
    var token := trie.nodeToken[node];
    words' := if token >= 0 then WithBit(words, token as nat) else words;
  }

  /** What a frame leads to, by its next edge and by the rest. */
  lemma BelowByEdge(trie: Trie, m: Machine, node: nat, e: nat, cs: set<Cursor>)
    requires RangesOk(trie) && WellFormed(m) && node < |trie.nodeToken|
    requires trie.edgeStart[node] <= e < trie.edgeStart[node + 1] && e < |trie.edgeTarget| == |trie.edgeByte|
    ensures var target := trie.edgeTarget[e];
            var after := StepSet(m, cs, trie.edgeByte[e]);
            && target < |trie.nodeToken| && FrameOk(trie, Frame(target, trie.edgeStart[target], 0), 0)
            && Size(trie, node, e) == 1 + Size(trie, target, trie.edgeStart[target]) + Size(trie, node, e + 1)
            && Below(trie, m, node, e, cs)
               == (if after == {} then {}
                   else TokenAt(trie, target) + Below(trie, m, target, trie.edgeStart[target], after))
                  + Below(trie, m, node, e + 1, cs)
  {
    EdgeInRange(trie, node, e);
    assert InOrder(trie.edgeStart, trie.edgeTarget[e], |trie.edgeTarget|);
  }

  /** One edge of the top frame: its subtree is entered, and the frame moves on. */
  lemma EdgeTaken(trie: Trie, m: Machine, owner: Owner, rest: seq<Frame>, top: Frame, lower: seq<Cursor>,
                  levels: seq<seq<Cursor>>)
    requires RangesOk(trie) && WellFormed(m) && FramesOk(trie, owner, rest, levels) && |rest| < |levels|
    requires FrameOk(trie, top, |rest|) && AllOk(owner, levels[|rest|]) && AllOk(owner, lower)
    requires top.edge < trie.edgeStart[top.node + 1] && top.edge < |trie.edgeTarget| == |trie.edgeByte|
    requires Elements(lower) == StepSet(m, Elements(levels[|rest|]), trie.edgeByte[top.edge])
    ensures var target := trie.edgeTarget[top.edge];
            var stay := rest + [top.(edge := top.edge + 1)];
            var levels' := SetLevel(levels, |rest| + 1, lower);
            && target < |trie.nodeToken| && |trie.edgeStart| == |trie.nodeToken| + 1
            && FramesOk(trie, owner, rest + [top], levels) && FramesOk(trie, owner, stay, levels')
            && var deep := stay + [Frame(target, trie.edgeStart[target], |rest| + 1)];
            && FramesOk(trie, owner, deep, levels')
            && Work(trie, owner, stay, levels') < Work(trie, owner, rest + [top], levels)
            && Work(trie, owner, deep, levels') < Work(trie, owner, rest + [top], levels)
            && Owed(trie, m, owner, rest + [top], levels)
               == if Elements(lower) == {} then Owed(trie, m, owner, stay, levels')
                  else TokenAt(trie, target) + Owed(trie, m, owner, deep, levels')
  {
    BelowByEdge(trie, m, top.node, top.edge, Elements(levels[|rest|]));
    var target, next := trie.edgeTarget[top.edge], top.(edge := top.edge + 1);
    var stay, levels' := rest + [next], SetLevel(levels, |rest| + 1, lower);
    PushOwed(trie, m, owner, rest, top, levels);
    PushOwed(trie, m, owner, rest, next, levels);
    OwedIgnoresScratch(trie, m, owner, stay, levels, levels');
    PushOwed(trie, m, owner, stay, Frame(target, trie.edgeStart[target], |rest| + 1), levels');
  }

  lemma SplitTop(trie: Trie, m: Machine, owner: Owner, frames: seq<Frame>, levels: seq<seq<Cursor>>)
    requires RangesOk(trie) && WellFormed(m) && FramesOk(trie, owner, frames, levels) && frames != []
    ensures var k := |frames| - 1;
            var rest, top := frames[..k], frames[k];
            && rest + [top] == frames && FrameOk(trie, top, k) && AllOk(owner, levels[k])
            && FramesOk(trie, owner, rest, levels)
            && Work(trie, owner, rest, levels) < Work(trie, owner, frames, levels)
            && (top.edge >= trie.edgeStart[top.node + 1] ==>
                  Owed(trie, m, owner, frames, levels) == Owed(trie, m, owner, rest, levels))
            && (top.edge < trie.edgeStart[top.node + 1] ==> top.edge < |trie.edgeTarget|)
  {
    var k := |frames| - 1;
    var rest, top := frames[..k], frames[k];
    assert FrameOk(trie, top, k);
    assert forall d | 0 <= d < k :: rest[d] == frames[d];
    PushOwed(trie, m, owner, rest, top, levels);
    if top.edge < trie.edgeStart[top.node + 1] {
      EdgeInRange(trie, top.node, top.edge);
    }
  }

  /** Take the top frame's next edge: the frame moves on, and the subtree is entered if the machine survives it. */
  method TakeEdge(trie: Trie, m: Machine, ghost owner: Owner, rest: seq<Frame>, top: Frame,
                  levels: seq<seq<Cursor>>, allow: seq<Word>, ghost found: set<nat>)
    returns (frames: seq<Frame>, levels': seq<seq<Cursor>>, allow': seq<Word>, ghost found': set<nat>)
    requires RangesOk(trie) && WellFormed(m) && Owned(m, owner) && TableRight(m)
    requires FramesOk(trie, owner, rest + [top], levels) && FramesOk(trie, owner, rest, levels)
    requires FrameOk(trie, top, |rest|) && |rest| < |levels| && AllOk(owner, levels[|rest|])
    requires top.edge < trie.edgeStart[top.node + 1] && top.edge < |trie.edgeTarget|
    requires TokensFit(trie, allow) && Holds(allow, found)
    ensures |allow'| == |allow| && Holds(allow', found') && FramesOk(trie, owner, frames, levels')
    ensures Work(trie, owner, frames, levels') < Work(trie, owner, rest + [top], levels)
    ensures found' + Owed(trie, m, owner, frames, levels') == found + Owed(trie, m, owner, rest + [top], levels)
  {
    var lower, alive := Step(m, owner, levels[|rest|], trie.edgeByte[top.edge]);
    EdgeTaken(trie, m, owner, rest, top, lower, levels);
    levels' := SetLevel(levels, |rest| + 1, lower);
    frames := rest + [top.(edge := top.edge + 1)];
    allow', found' := allow, found;
    if alive {
      var target := trie.edgeTarget[top.edge];
      allow' := AllowToken(trie, target, allow, found);
      found' := found + TokenAt(trie, target);
      frames := frames + [Frame(target, trie.edgeStart[target], |rest| + 1)];
    }
  }

  /**
   * The trie with the machine run along its edges, on a stack of its own: a
   * node is looked at only if its path survives, and its token marked.
   */
  method Walk(trie: Trie, m: Machine, ghost owner: Owner, cursors: seq<Cursor>, words: seq<Word>)
    returns (allow: seq<Word>)
    requires RangesOk(trie) && WellFormed(m) && Owned(m, owner) && TableRight(m) && AllOk(owner, cursors)
    requires TokensFit(trie, words) && Holds(words, {})
    ensures |allow| == |words|
    ensures Holds(allow, Below(trie, m, 0, trie.edgeStart[0], Elements(cursors)))
  {
    allow := words;
    var levels: seq<seq<Cursor>> := [cursors];
    assert InOrder(trie.edgeStart, 0, |trie.edgeTarget|);
    var frames := [Frame(0, trie.edgeStart[0], 0)];
    ghost var all := Below(trie, m, 0, trie.edgeStart[0], Elements(cursors));
    ghost var found: set<nat> := {};
    assert FramesOk(trie, owner, [], levels) && [] + frames == frames;
    PushOwed(trie, m, owner, [], frames[0], levels);
    while frames != []
      invariant FramesOk(trie, owner, frames, levels) && |allow| == |words| && Holds(allow, found)
      invariant found + Owed(trie, m, owner, frames, levels) == all
      decreases Work(trie, owner, frames, levels)
    {
      SplitTop(trie, m, owner, frames, levels);
      var rest, top := frames[..|frames| - 1], frames[|frames| - 1];
      if top.edge >= trie.edgeStart[top.node + 1] {
        frames := rest;
      } else {
        frames, levels, allow, found := TakeEdge(trie, m, owner, rest, top, levels, allow, found);
      }
    }
  }
}
