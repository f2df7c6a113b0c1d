/** What names a sequence's blocks: its own tokens, in order, with image slots replaced by their content's digests. */
module Chains {
  import opened Division
  import opened Hashes
  import opened Options

  /** Where an image sits in a prompt, and what is in it. */
  datatype Placement = Placement(start: nat, gridH: nat, gridW: nat, content: nat)

  function End(image: Placement): nat {
    image.start + image.gridH * image.gridW
  }

  /** What a token contributes at `index`: the first image over it decides, else the token itself. */
  function ValueAt(images: seq<Placement>, lane: (Placement, nat) -> Value, index: nat, token: nat): Value {
    if images == [] then token
    else if images[0].start <= index < End(images[0]) then lane(images[0], index - images[0].start)
    else ValueAt(images[1..], lane, index, token)
  }

  /** A whole stream, substituted. */
  function Substituted(images: seq<Placement>, lane: (Placement, nat) -> Value, tokens: seq<nat>): (values: seq<Value>)
    ensures |values| == |tokens|
  {
    if tokens == [] then []
    else
      var k := |tokens| - 1;
      Substituted(images, lane, tokens[..k]) + [ValueAt(images, lane, k, tokens[k])]
  }

  lemma SubstitutedMore(images: seq<Placement>, lane: (Placement, nat) -> Value, tokens: seq<nat>, token: nat)
    ensures Substituted(images, lane, tokens + [token])
         == Substituted(images, lane, tokens) + [ValueAt(images, lane, |tokens|, token)]
  {
    assert (tokens + [token])[..|tokens|] == tokens;
  }

  class SequenceChain {
    const size: nat
    const promptLen: nat
    const images: seq<Placement>
    const lane: (Placement, nat) -> Value
    var hashes: seq<Hash>
    /** Values of the block being filled. */
    var pending: seq<Value>
    var nextIndex: nat
    ghost var tokens: seq<nat>

    ghost function Values(): seq<Value>
      reads this
    {
      Substituted(images, lane, tokens)
    }

    /** The hashes name the complete blocks of the tokens so far, and the rest is pending. */
    ghost predicate Valid()
      reads this
    {
      nextIndex == |tokens| && Laid(Values(), size, hashes, pending)
    }

    /** The prompt is pushed token by token, like any output later. */
    constructor (blockSize: nat, prompt: seq<nat>, images: seq<Placement>, lane: (Placement, nat) -> Value)
      ensures Valid() && tokens == prompt && promptLen == |prompt|
      ensures this.images == images && this.lane == lane && size == if blockSize == 0 then 1 else blockSize
    {
      size := if blockSize == 0 then 1 else blockSize;
      promptLen, this.images, this.lane := |prompt|, images, lane;
      hashes, pending, nextIndex, tokens := [], [], 0, [];
      new;
      for i := 0 to |prompt|
        invariant Valid() && tokens == prompt[..i]
      {
        Push(prompt[i]);
        assert prompt[..i + 1] == prompt[..i] + [prompt[i]];
      }
      assert prompt[..|prompt|] == prompt;
    }

    /** The token goes into the block being filled; a full block is named after all that led to it. */
    method Push(token: nat)
      requires Valid()
      modifies this
      ensures Valid() && tokens == old(tokens) + [token]
    {
      SubstitutedMore(images, lane, tokens, token);
      var value := ValueAt(images, lane, nextIndex, token);
      LaidMore(Values(), size, hashes, pending, value);
      tokens, nextIndex, pending := tokens + [token], nextIndex + 1, pending + [value];
      if |pending| == size {
        var parent := if hashes == [] then Root else hashes[|hashes| - 1];
        hashes, pending := hashes + [Block(parent, pending)], [];
      }
    }

    /** As long as the stream so far, told from the blocks alone. */
    function Position(): (n: nat)
      requires Valid()
      reads this
      ensures n == |tokens|
    {
      |hashes| * size + |pending|
    }

    /** The names of the blocks up to a position, if they are known and a block ends there. */
    method HashesFor(position: nat) returns (names: Option<seq<Hash>>)
      requires Valid()
      ensures names.Some? <==> Namable(|tokens|, size, position)
      ensures names.Some? ==>
                && |names.value| * size == position && NamedBy(Values()[..position], size, names.value)
                && names.value[|names.value| - 1] == LeafName(Values(), size, position)
    {
      if position == 0 || position % size != 0 {
        return None;
      }
      var blocks := position / size;
      assert blocks * size == position;
      FewerBlocks(size, blocks, |hashes|, |pending|);
      if blocks > |hashes| {
        return None;
      }
      names := Some(hashes[..blocks]);
      NamedTake(Values(), size, hashes, blocks);
      assert BlockNamed(Values(), size, hashes, blocks - 1);
    }

    /** What was generated at `position`, for as long as its block is not full. */
    method GeneratedTokenAt(position: nat) returns (value: Option<Value>)
      requires Valid()
      ensures value == FollowedBy(Values(), promptLen, size, position)
    {
      ModIs(size, |hashes|, |pending|);
      if position < promptLen {
        return None;
      }
      var hashed := |hashes| * size;
      if hashed <= position < hashed + |pending| {
        assert pending[position - hashed] == Values()[hashed..][position - hashed];
        return Some(pending[position - hashed]);
      }
      return None;
    }
  }

  /** A position some block of a stream this long ends at. */
  predicate Namable(length: nat, size: nat, position: nat) {
    size > 0 && 0 < position <= length && position % size == 0
  }

  /** The name of everything up to a block's end. */
  function LeafName(values: seq<Value>, size: nat, position: nat): Hash
    requires Namable(|values|, size, position)
  {
    assert (position / size) * size == position;
    NameOf(values, size, position / size)
  }

  /** What a chain can still tell of a position: past the prompt, and in the block being filled. */
  function FollowedBy(values: seq<Value>, promptLen: nat, size: nat, position: nat): Option<Value>
    requires size > 0
  {
    if promptLen <= position < |values| && |values| - |values| % size <= position then Some(values[position]) else None
  }

  /** Entry `k` names the first `k + 1` blocks. */
  ghost predicate BlockNamed(values: seq<Value>, size: nat, hashes: seq<Hash>, k: nat) {
    k < |hashes| && Covers(values, size, k + 1) && hashes[k] == NameOf(values, size, k + 1)
  }

  ghost predicate NamedBy(values: seq<Value>, size: nat, hashes: seq<Hash>) {
    forall k | 0 <= k < |hashes| :: BlockNamed(values, size, hashes, k)
  }

  /** A stream laid out: its complete blocks named, the rest pending. */
  ghost predicate Laid(values: seq<Value>, size: nat, hashes: seq<Hash>, pending: seq<Value>) {
    && |pending| < size && |values| == |hashes| * size + |pending|
    && pending == values[|hashes| * size..] && NamedBy(values, size, hashes)
  }

  lemma LaidMore(values: seq<Value>, size: nat, hashes: seq<Hash>, pending: seq<Value>, value: Value)
    requires Laid(values, size, hashes, pending)
    ensures if |pending| + 1 < size then Laid(values + [value], size, hashes, pending + [value])
            else Laid(values + [value], size,
                      hashes + [Block(if hashes == [] then Root else hashes[|hashes| - 1], pending + [value])], [])
  {
    var more, n := values + [value], |hashes| * size;
    NamedOn(values, more, size, hashes);
    assert more[n..] == pending + [value];
    if |pending| + 1 == size {
      NamedOneMore(more, size, hashes, pending + [value]);
      assert (|hashes| + 1) * size == |more|;
    }
  }

  /** More of a stream renames nothing. */
  lemma NamedOn(before: seq<Value>, now: seq<Value>, size: nat, hashes: seq<Hash>)
    requires before <= now && NamedBy(before, size, hashes)
    ensures NamedBy(now, size, hashes)
  {
    forall k | 0 <= k < |hashes|
      ensures BlockNamed(now, size, hashes, k)
    {
      assert BlockNamed(before, size, hashes, k);
      assert before[..(k + 1) * size] == now[..(k + 1) * size];
      NameOfPrefix(before, now, size, k + 1);
    }
  }

  lemma NamedOneMore(values: seq<Value>, size: nat, hashes: seq<Hash>, block: seq<Value>)
    requires size > 0 && NamedBy(values, size, hashes) && |values| == |hashes| * size + size
    requires block == values[|hashes| * size..]
    ensures NamedBy(values, size, hashes + [Block(if hashes == [] then Root else hashes[|hashes| - 1], block)])
  {
    var n := |hashes|;
    var more := hashes + [Block(if hashes == [] then Root else hashes[n - 1], block)];
    assert (n + 1) * size == |values| && values[n * size..(n + 1) * size] == block;
    forall k | 0 <= k < |more|
      ensures BlockNamed(values, size, more, k)
    {
      if k < n {
        assert BlockNamed(values, size, hashes, k);
      } else if n > 0 {
        assert BlockNamed(values, size, hashes, n - 1);
      }
    }
  }

  lemma NamedTake(values: seq<Value>, size: nat, hashes: seq<Hash>, n: nat)
    requires NamedBy(values, size, hashes) && n <= |hashes| && n * size <= |values|
    ensures NamedBy(values[..n * size], size, hashes[..n])
  {
    forall k | 0 <= k < n
      ensures BlockNamed(values[..n * size], size, hashes[..n], k)
    {
      assert BlockNamed(values, size, hashes, k);
      MulOrder(k + 1, n, size);
      assert values[..n * size][..(k + 1) * size] == values[..(k + 1) * size];
      NameOfPrefix(values, values[..n * size], size, k + 1);
    }
  }

  /** Whole blocks up to a position are among the hashed ones exactly when the position has been reached. */
  lemma FewerBlocks(size: nat, blocks: nat, hashed: nat, rest: nat)
    requires size > 0 && rest < size
    ensures blocks <= hashed <==> blocks * size <= hashed * size + rest
  {
    if blocks <= hashed {
      MulOrder(blocks, hashed, size);
    } else {
      MulOrder(hashed + 1, blocks, size);
      assert (hashed + 1) * size == hashed * size + size;
    }
  }

  /** Equal streams have equal names, wherever the prompt ended in either. */
  lemma SameTokensSameNames(a: SequenceChain, b: SequenceChain)
    requires a.Valid() && b.Valid() && a.size == b.size && a.Values() == b.Values()
    ensures a.hashes == b.hashes && a.pending == b.pending
  {
    FewerBlocks(a.size, |a.hashes|, |b.hashes|, |b.pending|);
    FewerBlocks(b.size, |b.hashes|, |a.hashes|, |a.pending|);
    forall k | 0 <= k < |a.hashes|
      ensures a.hashes[k] == b.hashes[k]
    {
      assert BlockNamed(a.Values(), a.size, a.hashes, k) && BlockNamed(b.Values(), b.size, b.hashes, k);
    }
  }

  // ----- what a position contributes -----

  /** A position inside an image. */
  predicate Covered(image: Placement, index: nat) {
    image.start <= index < image.start + image.gridH * image.gridW
  }

  /** No two images share a position. */
  ghost predicate AllApart(images: seq<Placement>) {
    forall i, j, index: nat | 0 <= i < j < |images| :: !(Covered(images[i], index) && Covered(images[j], index))
  }

  /** Inside an image that shares no position with another, its digest for the slot. */
  lemma {:induction false} InsideIsLane(images: seq<Placement>, lane: (Placement, nat) -> Value, i: nat, index: nat,
                                        token: nat)
    requires AllApart(images) && i < |images| && Covered(images[i], index)
    ensures ValueAt(images, lane, index, token) == lane(images[i], index - images[i].start)
    decreases |images|
  {
    if i > 0 {
      assert !Covered(images[0], index);
      assert forall a | 0 <= a < |images[1..]| :: images[1..][a] == images[a + 1];
      InsideIsLane(images[1..], lane, i - 1, index, token);
    }
  }

  /** Outside every image, the token. */
  lemma {:induction false} OutsideIsToken(images: seq<Placement>, lane: (Placement, nat) -> Value, index: nat,
                                          token: nat)
    requires forall i | 0 <= i < |images| :: !Covered(images[i], index)
    ensures ValueAt(images, lane, index, token) == token
    decreases |images|
  {
    if images != [] {
      assert !Covered(images[0], index);
      assert forall i | 0 <= i < |images[1..]| :: images[1..][i] == images[i + 1];
      OutsideIsToken(images[1..], lane, index, token);
    }
  }

  lemma {:induction false} SubstitutedAt(images: seq<Placement>, lane: (Placement, nat) -> Value, tokens: seq<nat>,
                                         j: nat)
    requires j < |tokens|
    ensures Substituted(images, lane, tokens)[j] == ValueAt(images, lane, j, tokens[j])
    decreases |tokens|
  {
    var k := |tokens| - 1;
    if j < k {
      SubstitutedAt(images, lane, tokens[..k], j);
    }
  }

  /** A chain's values: an image's digests inside it, the tokens themselves outside of all of them. */
  lemma ValuesAre(c: SequenceChain, j: nat)
    requires c.Valid() && AllApart(c.images) && j < |c.tokens|
    ensures forall i | 0 <= i < |c.images| && Covered(c.images[i], j) ::
              c.Values()[j] == c.lane(c.images[i], j - c.images[i].start)
    ensures (forall i | 0 <= i < |c.images| :: !Covered(c.images[i], j)) ==> c.Values()[j] == c.tokens[j]
  {
    SubstitutedAt(c.images, c.lane, c.tokens, j);
    forall i | 0 <= i < |c.images| && Covered(c.images[i], j)
      ensures c.Values()[j] == c.lane(c.images[i], j - c.images[i].start)
    {
      InsideIsLane(c.images, c.lane, i, j, c.tokens[j]);
    }
    if forall i | 0 <= i < |c.images| :: !Covered(c.images[i], j) {
      OutsideIsToken(c.images, c.lane, j, c.tokens[j]);
    }
  }

  /** Streams that share a name have the same value at every position in it. */
  lemma SameValue(a: seq<Value>, b: seq<Value>, size: nat, k: nat, l: nat, j: nat)
    requires Covers(a, size, k) && Covers(b, size, l) && NameOf(a, size, k) == NameOf(b, size, l)
    requires j / size < k || j / size < l
    ensures j < |a| && j < |b| && a[j] == b[j]
  {
    SameName(a, b, size, k, l);
    BeforeBlock(j, size, k);
    SamePrefix(a, b, k * size, j);
  }

  lemma SamePrefix(a: seq<Value>, b: seq<Value>, n: nat, j: nat)
    requires j < n <= |a| && n <= |b| && a[..n] == b[..n]
    ensures a[j] == b[j]
  {
    assert a[j] == a[..n][j] && b[j] == b[..n][j];
  }

  lemma BeforeBlock(j: nat, size: nat, k: nat)
    requires size > 0 && j / size < k
    ensures j < k * size
  {
    var q := j / size;
    assert j < q * size + size;
    MulOrder(q + 1, k, size);
    assert (q + 1) * size == q * size + size;
  }

  /** Streams that differ at a position share no name from its block on. */
  lemma DifferApart(a: SequenceChain, b: SequenceChain, j: nat, k: nat, l: nat)
    requires a.Valid() && b.Valid() && a.size == b.size
    requires j < |a.tokens| && j < |b.tokens| && a.Values()[j] != b.Values()[j]
    requires k < |a.hashes| && l < |b.hashes| && (j / a.size <= k || j / a.size <= l)
    ensures a.hashes[k] != b.hashes[l]
  {
    assert BlockNamed(a.Values(), a.size, a.hashes, k) && BlockNamed(b.Values(), b.size, b.hashes, l);
    if a.hashes[k] == b.hashes[l] {
      SameValue(a.Values(), b.Values(), a.size, k + 1, l + 1, j);
    }
  }

  /** Two prompts with images whose digests differ at a slot share no name from that block on. */
  lemma ImagesApart(a: SequenceChain, b: SequenceChain, p: nat, q: nat, j: nat, k: nat, l: nat)
    requires a.Valid() && b.Valid() && a.size == b.size && AllApart(a.images) && AllApart(b.images)
    requires j < |a.tokens| && j < |b.tokens| && p < |a.images| && q < |b.images|
    requires Covered(a.images[p], j) && Covered(b.images[q], j)
    requires a.lane(a.images[p], j - a.images[p].start) != b.lane(b.images[q], j - b.images[q].start)
    requires k < |a.hashes| && l < |b.hashes| && (j / a.size <= k || j / a.size <= l)
    ensures a.hashes[k] != b.hashes[l]
  {
    ValuesAre(a, j);
    ValuesAre(b, j);
    DifferApart(a, b, j, k, l);
  }
}
