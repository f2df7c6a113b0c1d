/** Which tokens a set of cursors can take, and what becomes of the others' logits. */
module Masks {
  import opened Tools
  import opened Machines
  import opened Tries
  import opened Bits
  import opened Runs
  import opened Vocabs
  import opened Walks
  import Kmp

  // ----- what a mask keeps -----

  ghost predicate Survives(m: Machine, cs: set<Cursor>, piece: Bytes)
    requires WellFormed(m)
  {
    RunSet(m, cs, piece) != {}
  }

  predicate AtFreeText(m: Machine, c: Cursor) {
    c.state < |m.states| && m.states[c.state].Until? && m.states[c.state].k == 0
  }

  /** Every cursor is inside a free value, the delimiter not begun; so is every cursor of none. */
  ghost predicate FreeText(m: Machine, cs: set<Cursor>) {
    forall c | c in cs :: AtFreeText(m, c)
  }

  /** The check the mask stands for, one token at a time. */
  ghost predicate Admissible(m: Machine, cs: set<Cursor>, pieces: seq<Bytes>, eog: seq<nat>, t: nat)
    requires WellFormed(m)
  {
    t < |pieces| && if t in eog then AcceptsEnd(m, cs) else pieces[t] != [] && Survives(m, cs, pieces[t])
  }

  /** A later token in the trie has the same spelling, and took the node over. */
  ghost predicate Shadowed(pieces: seq<Bytes>, eog: seq<nat>, t: nat) {
    t < |pieces| && exists u :: t < u < |pieces| && InTrie(pieces, eog, u) && pieces[u] == pieces[t]
  }

  /** What the mask keeps, with the shortcut and the trie as they are. */
  ghost predicate Kept(m: Machine, cs: set<Cursor>, pieces: seq<Bytes>, eog: seq<nat>, t: nat)
    requires WellFormed(m)
  {
    && t < |pieces|
    && if t in eog then AcceptsEnd(m, cs)
       else
         && pieces[t] != []
         && if FreeText(m, cs) then CLOSE[0] !in pieces[t] || Survives(m, cs, pieces[t])
            else Survives(m, cs, pieces[t]) && !Shadowed(pieces, eog, t)
  }

  /** Where the delimiter has not begun, a byte it does not begin with changes no cursor. */
  lemma FreeByte(m: Machine, cs: set<Cursor>, b: Byte)
    requires WellFormed(m) && FreeText(m, cs) && b != CLOSE[0]
    ensures StepSet(m, cs, b) == cs
  {
    assert Kmp.Advance(CLOSE, 0, b) == 0;
    forall c | c in cs
      ensures Moved(m, c, b) == [c] && Closure(m, c) == {c}
    {
      assert AtFreeText(m, c);
      MovedUntil(m, c, 0, m.states[c.state].next, b);
    }
    forall x | x in cs
      ensures x in StepSet(m, cs, b)
    {
      assert x in [x] && x in Closure(m, x);
    }
  }

  lemma {:induction false} PlainStays(m: Machine, cs: set<Cursor>, piece: Bytes)
    requires WellFormed(m) && FreeText(m, cs) && CLOSE[0] !in piece
    ensures RunSet(m, cs, piece) == cs
    decreases |piece|
  {
    if piece != [] {
      FreeByte(m, cs, piece[0]);
      assert forall b | b in piece[1..] :: b in piece;
      PlainStays(m, cs, piece[1..]);
    }
  }

  /**
   * The mask is the naive check, token by token, exactly when it is not asked
   * about no cursors at all and no surviving spelling was taken over.
   */
  lemma MaskIsNaiveIff(m: Machine, cs: set<Cursor>, pieces: seq<Bytes>, eog: seq<nat>, t: nat)
    requires WellFormed(m)
    ensures (Kept(m, cs, pieces, eog, t) <==> Admissible(m, cs, pieces, eog, t))
       <==> !(InTrie(pieces, eog, t)
              && ((cs == {} && CLOSE[0] !in pieces[t])
                  || (!FreeText(m, cs) && Shadowed(pieces, eog, t) && Survives(m, cs, pieces[t]))))
  {
    if InTrie(pieces, eog, t) && FreeText(m, cs) && CLOSE[0] !in pieces[t] {
      PlainStays(m, cs, pieces[t]);
    }
  }

  /** No two tokens the trie is built of are spelled alike. */
  ghost predicate NoTwins(pieces: seq<Bytes>, eog: seq<nat>) {
    forall i, j | 0 <= i < j < |pieces| && InTrie(pieces, eog, i) && InTrie(pieces, eog, j) :: pieces[i] != pieces[j]
  }

  /** With no two tokens spelled alike, the mask of any live position is the naive check. */
  lemma MaskIsNaive(m: Machine, cs: set<Cursor>, pieces: seq<Bytes>, eog: seq<nat>, t: nat)
    requires WellFormed(m) && cs != {} && NoTwins(pieces, eog)
    ensures Kept(m, cs, pieces, eog, t) <==> Admissible(m, cs, pieces, eog, t)
  {
    MaskIsNaiveIff(m, cs, pieces, eog, t);
  }

  // ----- the walk's findings, in terms of tokens -----

  lemma LastIsUnshadowed(pieces: seq<Bytes>, eog: seq<nat>, t: nat)
    requires InTrie(pieces, eog, t)
    ensures LastToken(pieces, eog, |pieces|, pieces[t]) == t <==> !Shadowed(pieces, eog, t)
  {
    var last := LastToken(pieces, eog, |pieces|, pieces[t]);
    if last != t {
      assert last > t;
      assert Shadowed(pieces, eog, t);
    }
  }

  lemma WalkFinds(v: Vocab, pieces: seq<Bytes>, paths: seq<Bytes>, m: Machine, cs: set<Cursor>, t: nat)
    requires VocabFor(v, pieces, paths) && WellFormed(m)
    ensures t in Below(v.trie, m, 0, v.trie.edgeStart[0], cs)
       <==> InTrie(pieces, v.eog, t) && Survives(m, cs, pieces[t]) && !Shadowed(pieces, v.eog, t)
  {
    var trie := v.trie;
    if t in Below(trie, m, 0, trie.edgeStart[0], cs) {
      var j := BelowSound(trie, paths, m, 0, trie.edgeStart[0], cs, t);
      assert pieces[t] == paths[j] && paths[j][0..] == paths[j];
      LastIsUnshadowed(pieces, v.eog, t);
    }
    if InTrie(pieces, v.eog, t) && Survives(m, cs, pieces[t]) && !Shadowed(pieces, v.eog, t) {
      LastIsUnshadowed(pieces, v.eog, t);
      var j :| 0 <= j < |paths| && paths[j] == pieces[t];
      assert paths[j][0..] == paths[j];
      BelowComplete(trie, paths, m, 0, cs, j);
    }
  }

  // ----- the mask as the code builds it -----

  method IsFreeText(m: Machine, cursors: seq<Cursor>) returns (r: bool)
    ensures r <==> FreeText(m, Elements(cursors))
  {
    r := forall c | c in cursors :: AtFreeText(m, c);
    assert r ==> FreeText(m, Elements(cursors));
    if !r {
      ghost var c :| c in cursors && !AtFreeText(m, c);
      assert c in Elements(cursors);
    }
  }

  /** One of the first `n` breaking tokens survives. */
  ghost predicate BrokeThrough(m: Machine, cs: set<Cursor>, breaking: seq<(nat, Bytes)>, n: nat, t: nat)
    requires WellFormed(m) && n <= |breaking|
  {
    exists i | 0 <= i < n :: breaking[i].0 == t && Survives(m, cs, breaking[i].1)
  }

  lemma BreakOne(m: Machine, cs: set<Cursor>, breaking: seq<(nat, Bytes)>, n: nat, t: nat)
    requires WellFormed(m) && n < |breaking|
    ensures BrokeThrough(m, cs, breaking, n + 1, t) <==>
            BrokeThrough(m, cs, breaking, n, t) || (t == breaking[n].0 && Survives(m, cs, breaking[n].1))
  {
    if t == breaking[n].0 && Survives(m, cs, breaking[n].1) {
      assert breaking[n].0 == t;
    }
  }

  lemma BreakAll(m: Machine, cs: set<Cursor>, breaking: seq<(nat, Bytes)>, pieces: seq<Bytes>, eog: seq<nat>, t: nat)
    requires WellFormed(m) && BreakingOk(pieces, eog, |pieces|, breaking)
    ensures BrokeThrough(m, cs, breaking, |breaking|, t) <==>
            IsBreaking(pieces, eog, t) && Survives(m, cs, pieces[t])
  {
    if IsBreaking(pieces, eog, t) && Survives(m, cs, pieces[t]) {
      assert (t, pieces[t]) in breaking;
    }
  }

  /** The shortcut: every token that cannot start the delimiter, and those that can and survive. */
  method AllowFree(v: Vocab, ghost pieces: seq<Bytes>, m: Machine, ghost owner: Owner, cursors: seq<Cursor>)
    returns (allow: seq<Word>)
    requires IsVocab(v, pieces) && WellFormed(m) && Owned(m, owner) && TableRight(m) && AllOk(owner, cursors)
    ensures |allow| == WordsFor(v.len)
    ensures forall t: nat :: Marked(allow, t) <==>
              InTrie(pieces, v.eog, t) && (CLOSE[0] !in pieces[t] || Survives(m, Elements(cursors), pieces[t]))
  {
    ghost var paths :| VocabFor(v, pieces, paths);
    ghost var cs := Elements(cursors);
    allow := v.freeText;
    for n := 0 to |v.breaking|
      invariant |allow| == WordsFor(v.len)
      invariant forall t: nat :: Marked(allow, t) <==>
                  IsPlain(pieces, v.eog, t) || BrokeThrough(m, cs, v.breaking, n, t)
    {
      var token, piece := v.breaking[n].0, v.breaking[n].1;
      assert IsBreaking(pieces, v.eog, token);
      var _, alive := Feed(m, owner, cursors, piece);
      if alive {
        allow := WithBit(allow, token);
      }
      forall t: nat {
        BreakOne(m, cs, v.breaking, n, t);
      }
    }
    forall t: nat {
      BreakAll(m, cs, v.breaking, pieces, v.eog, t);
    }
  }

  method AllowWalked(v: Vocab, ghost pieces: seq<Bytes>, m: Machine, ghost owner: Owner, cursors: seq<Cursor>)
    returns (allow: seq<Word>)
    requires IsVocab(v, pieces) && WellFormed(m) && Owned(m, owner) && TableRight(m) && AllOk(owner, cursors)
    ensures |allow| == WordsFor(v.len)
    ensures forall t: nat :: Marked(allow, t) <==>
              InTrie(pieces, v.eog, t) && Survives(m, Elements(cursors), pieces[t]) && !Shadowed(pieces, v.eog, t)
  {
    ghost var paths :| VocabFor(v, pieces, paths);
    var none := NoBits(WordsFor(v.len));
    assert TokensFit(v.trie, none) by {
      forall i | 0 <= i < |v.trie.nodeToken| && v.trie.nodeToken[i] >= 0
        ensures v.trie.nodeToken[i] / 64 < |none|
      {
        assert v.trie.nodeToken[i] == LastToken(pieces, v.eog, |pieces|, paths[i]);
      }
    }
    allow := Walk(v.trie, m, owner, cursors, none);
    forall t: nat {
      WalkFinds(v, pieces, paths, m, Elements(cursors), t);
    }
  }

  method AllowEnds(v: Vocab, allow: seq<Word>) returns (allow': seq<Word>)
    requires |allow| == WordsFor(v.len)
    ensures |allow'| == |allow|
    ensures forall t: nat :: Marked(allow', t) <==> Marked(allow, t) || (t in v.eog && t < v.len)
  {
    allow' := allow;
    for i := 0 to |v.eog|
      invariant |allow'| == |allow|
      invariant forall t: nat :: Marked(allow', t) <==> Marked(allow, t) || (t in v.eog[..i] && t < v.len)
    {
      if v.eog[i] < v.len {
        allow' := WithBit(allow', v.eog[i]);
      }
      assert v.eog[..i + 1] == v.eog[..i] + [v.eog[i]];
    }
    assert v.eog[..|v.eog|] == v.eog;
  }

  /** The tokens a cursor set admits, a bit each. */
  method Allowed(v: Vocab, ghost pieces: seq<Bytes>, m: Machine, ghost owner: Owner, cursors: seq<Cursor>)
    returns (allow: seq<Word>)
    requires IsVocab(v, pieces) && WellFormed(m) && Owned(m, owner) && TableRight(m) && AllOk(owner, cursors)
    ensures |allow| == WordsFor(v.len) && v.len == |pieces|
    ensures forall t: nat :: Marked(allow, t) <==> Kept(m, Elements(cursors), pieces, v.eog, t)
  {
    Owning(m, owner, cursors);
    var free := IsFreeText(m, cursors);
    if free {
      allow := AllowFree(v, pieces, m, owner, cursors);
    } else {
      allow := AllowWalked(v, pieces, m, owner, cursors);
    }
    var ends := AcceptsEndNow(m, cursors);
    if ends {
      allow := AllowEnds(v, allow);
    }
  }

  lemma Owning(m: Machine, owner: Owner, cursors: seq<Cursor>)
    requires Owned(m, owner) && AllOk(owner, cursors)
    ensures forall c | c in cursors :: c.state < |m.states|
  {
  }

  /** One word of the mask onto its stretch of the row. */
  method ApplyWord(allow: Word, logits: array<Logit>, from: nat, to: nat)
    requires from <= to <= logits.Length && to <= from + 64
    modifies logits
    ensures forall t | 0 <= t < logits.Length ::
              logits[t] == if from <= t < to && t - from !in allow then NegInf else old(logits[t])
  {
    if allow == Full() {
      return;
    }
    if allow == {} {
      forall t | from <= t < to {
        logits[t] := NegInf;
      }
      return;
    }
    for t := from to to
      invariant forall u | 0 <= u < logits.Length ::
                  logits[u] == if from <= u < t && u - from !in allow then NegInf else old(logits[u])
    {
      if t - from !in allow {
        logits[t] := NegInf;
      }
    }
  }

  /** Drive the row to negative infinity wherever the mask does not allow it, the ids past the vocabulary too. */
  method Apply(allow: seq<Word>, len: nat, logits: array<Logit>)
    requires |allow| == WordsFor(len) && len <= logits.Length
    modifies logits
    ensures forall t: nat | t < logits.Length ::
              logits[t] == if t < len && Marked(allow, t) then old(logits[t]) else NegInf
  {
    for w := 0 to |allow|
      invariant forall t: nat | t < logits.Length ::
                  logits[t] == if t < 64 * w && t < len && !Marked(allow, t) then NegInf else old(logits[t])
    {
      var from := 64 * w;
      var to := if from + 64 < len then from + 64 else len;
      ApplyWord(allow[w], logits, from, to);
      forall t: nat | from <= t < to
        ensures t / 64 == w && t % 64 == t - from
      {
      }
    }
    forall t | len <= t < logits.Length {
      logits[t] := NegInf;
    }
  }

  /** What is not kept goes to negative infinity; what is kept stays as it was. */
  method Mask(v: Vocab, ghost pieces: seq<Bytes>, m: Machine, ghost owner: Owner, cursors: seq<Cursor>,
              logits: array<Logit>)
    requires IsVocab(v, pieces) && WellFormed(m) && Owned(m, owner) && TableRight(m) && AllOk(owner, cursors)
    requires v.len <= logits.Length
    modifies logits
    ensures forall t: nat | t < logits.Length ::
              logits[t] == if Kept(m, Elements(cursors), pieces, v.eog, t) then old(logits[t]) else NegInf
  {
    var allow := Allowed(v, pieces, m, owner, cursors);
    Apply(allow, v.len, logits);
  }
}
