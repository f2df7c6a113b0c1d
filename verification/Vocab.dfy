/** The tokens' spellings, laid out for masking: a trie of them, and the words for free text. */
module Vocabs {
  import opened Tools
  import opened Tries
  import opened Bits

  datatype Logit = NegInf | Finite(value: real)

  datatype Vocab = Vocab(trie: Trie, breaking: seq<(nat, Bytes)>, freeText: seq<Word>, eog: seq<nat>,
                         pieceBytes: Bytes, pieceStart: seq<nat>, len: nat)

  // ----- what a vocabulary holds -----

  /** Spelled by bytes that cannot start the delimiter. */
  predicate IsPlain(pieces: seq<Bytes>, eog: seq<nat>, t: nat) {
    InTrie(pieces, eog, t) && CLOSE[0] !in pieces[t]
  }

  predicate IsBreaking(pieces: seq<Bytes>, eog: seq<nat>, t: nat) {
    InTrie(pieces, eog, t) && CLOSE[0] in pieces[t]
  }

  /** The free-text mask once the first `n` tokens have been looked at. */
  ghost predicate FreeOk(pieces: seq<Bytes>, eog: seq<nat>, n: nat, words: seq<Word>) {
    && |words| == WordsFor(|pieces|)
    && forall t: nat :: Marked(words, t) <==>
        t < |pieces| && t !in eog && (t < n ==> IsPlain(pieces, eog, t))
  }

  ghost predicate BreakingOk(pieces: seq<Bytes>, eog: seq<nat>, n: nat, breaking: seq<(nat, Bytes)>) {
    && n <= |pieces|
    && (forall i | 0 <= i < |breaking| ::
          breaking[i].0 < n && IsBreaking(pieces, eog, breaking[i].0) && breaking[i].1 == pieces[breaking[i].0])
    && (forall t | 0 <= t < n && IsBreaking(pieces, eog, t) :: (t, pieces[t]) in breaking)
  }

  predicate SpanOf(pieceBytes: Bytes, pieceStart: seq<nat>, piece: Bytes, t: nat) {
    && t + 1 < |pieceStart| && pieceStart[t] <= pieceStart[t + 1] <= |pieceBytes|
    && pieceBytes[pieceStart[t]..pieceStart[t + 1]] == piece
  }

  ghost predicate VocabFor(v: Vocab, pieces: seq<Bytes>, paths: seq<Bytes>) {
    && v.len == |pieces|
    && TrieOk(v.trie, paths) && TokensOk(pieces, v.eog, |pieces|, paths, v.trie.nodeToken)
    && FreeOk(pieces, v.eog, |pieces|, v.freeText)
    && BreakingOk(pieces, v.eog, |pieces|, v.breaking)
    && forall t | 0 <= t < |pieces| :: SpanOf(v.pieceBytes, v.pieceStart, pieces[t], t)
  }

  /** A vocabulary built from these spellings. */
  ghost predicate IsVocab(v: Vocab, pieces: seq<Bytes>) {
    exists paths :: VocabFor(v, pieces, paths)
  }

  /** How a token is spelled; an id past the end is spelled with nothing. */
  method Piece(v: Vocab, ghost pieces: seq<Bytes>, token: nat) returns (piece: Bytes)
    requires IsVocab(v, pieces)
    ensures piece == if token < |pieces| then pieces[token] else []
  {
    ghost var paths :| VocabFor(v, pieces, paths);
    if token >= v.len {
      return [];
    }
    assert SpanOf(v.pieceBytes, v.pieceStart, pieces[token], token);
    piece := v.pieceBytes[v.pieceStart[token]..v.pieceStart[token + 1]];
  }

  // ----- building one -----

  /** Clear a bit for every end-of-generation token that is in range. */
  method ClearEnds(pieces: seq<Bytes>, eog: seq<nat>) returns (words: seq<Word>)
    ensures FreeOk(pieces, eog, 0, words)
  {
    words := AllBits(|pieces|);
    for i := 0 to |eog|
      invariant |words| == WordsFor(|pieces|)
      invariant forall t: nat :: Marked(words, t) <==> t < |pieces| && t !in eog[..i]
    {
      if eog[i] < |pieces| {
        words := WithoutBit(words, eog[i]);
      }
      assert eog[..i + 1] == eog[..i] + [eog[i]];
    }
    assert eog[..|eog|] == eog;
  }

  lemma SpansGrow(pieceBytes: Bytes, pieceStart: seq<nat>, pieces: seq<Bytes>, n: nat)
    requires n < |pieces| && |pieceStart| == n + 1 && pieceStart[n] == |pieceBytes|
    requires forall t | 0 <= t < n :: SpanOf(pieceBytes, pieceStart, pieces[t], t)
    ensures var bytes, starts := pieceBytes + pieces[n], pieceStart + [|pieceBytes| + |pieces[n]|];
            forall t | 0 <= t < n + 1 :: SpanOf(bytes, starts, pieces[t], t)
  {
    var bytes, starts := pieceBytes + pieces[n], pieceStart + [|pieceBytes| + |pieces[n]|];
    forall t | 0 <= t < n + 1
      ensures SpanOf(bytes, starts, pieces[t], t)
    {
      if t < n {
        assert SpanOf(pieceBytes, pieceStart, pieces[t], t);
        assert bytes[starts[t]..starts[t + 1]] == pieceBytes[pieceStart[t]..pieceStart[t + 1]];
      } else {
        assert bytes[|pieceBytes|..|pieceBytes| + |pieces[n]|] == pieces[n];
      }
    }
  }

  /** What the loop over the pieces has built after `n` of them. */
  ghost predicate Building(pieces: seq<Bytes>, eog: seq<nat>, n: nat, children: seq<seq<Edge>>,
                           nodeToken: seq<int>, paths: seq<Bytes>, breaking: seq<(nat, Bytes)>, words: seq<Word>)
  {
    && TreeOk(children, paths) && TokensOk(pieces, eog, n, paths, nodeToken)
    && FreeOk(pieces, eog, n, words) && BreakingOk(pieces, eog, n, breaking)
  }

  /** One token: into the trie, and out of the free-text mask if it could start the delimiter. */
  method AddPiece(pieces: seq<Bytes>, eog: seq<nat>, n: nat, children: seq<seq<Edge>>, nodeToken: seq<int>,
                  ghost paths: seq<Bytes>, breaking: seq<(nat, Bytes)>, words: seq<Word>)
    returns (children': seq<seq<Edge>>, nodeToken': seq<int>, ghost paths': seq<Bytes>,
             breaking': seq<(nat, Bytes)>, words': seq<Word>)
    requires n < |pieces| && Building(pieces, eog, n, children, nodeToken, paths, breaking, words)
    ensures Building(pieces, eog, n + 1, children', nodeToken', paths', breaking', words')
  {
    children', nodeToken', paths', breaking', words' := children, nodeToken, paths, breaking, words;
    if pieces[n] == [] || n in eog {
      words' := WithoutBit(words, n);
      TokenSkipped(pieces, eog, n, paths, nodeToken);
      return;
    }
    if CLOSE[0] in pieces[n] {
      breaking' := breaking + [(n, pieces[n])];
      words' := WithoutBit(words, n);
      assert breaking'[|breaking|] == (n, pieces[n]);
    }
    var node;
    node, children', nodeToken', paths' := Descend(pieces, eog, n, pieces[n], children, nodeToken, paths);
    TokenRecorded(pieces, eog, n, paths', nodeToken', node);
    nodeToken' := nodeToken'[node := n];
  }

  method New(pieces: seq<Bytes>, eog: seq<nat>) returns (v: Vocab)
    ensures IsVocab(v, pieces) && v.eog == eog
  {
    var words := ClearEnds(pieces, eog);
    var children: seq<seq<Edge>>, nodeToken: seq<int> := [[]], [-1];
    ghost var paths: seq<Bytes> := [[]];
    var breaking: seq<(nat, Bytes)> := [];
    var pieceBytes: Bytes, pieceStart: seq<nat> := [], [0];
    for n := 0 to |pieces|
      invariant Building(pieces, eog, n, children, nodeToken, paths, breaking, words)
      invariant |pieceStart| == n + 1 && pieceStart[n] == |pieceBytes|
      invariant forall t | 0 <= t < n :: SpanOf(pieceBytes, pieceStart, pieces[t], t)
    {
      SpansGrow(pieceBytes, pieceStart, pieces, n);
      pieceBytes := pieceBytes + pieces[n];
      pieceStart := pieceStart + [|pieceBytes|];
      children, nodeToken, paths, breaking, words :=
        AddPiece(pieces, eog, n, children, nodeToken, paths, breaking, words);
    }
    var trie := Flatten(children, nodeToken, paths);
    v := Vocab(trie, breaking, words, eog, pieceBytes, pieceStart, |pieces|);
    assert VocabFor(v, pieces, paths);
  }
}
