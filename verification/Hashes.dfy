/**
 * Chained block names. A block's hash feeds in its parent's, so a name stands
 * for everything up to its block's end; hashing is taken to be injective, so
 * names are the free terms.
 */
module Hashes {

  /** What a position contributes to a name: its token, or its image's digest for the slot. */
  type Value = nat

  datatype Hash = Root | Block(parent: Hash, values: seq<Value>)

  /** How many blocks a name stands for. */
  function Depth(hash: Hash): nat {
    if hash.Root? then 0 else 1 + Depth(hash.parent)
  }

  predicate Covers(values: seq<Value>, size: nat, k: nat) {
    size > 0 && k * size <= |values|
  }

  lemma CoversFewer(values: seq<Value>, size: nat, k: nat)
    requires k > 0 && Covers(values, size, k)
    ensures Covers(values, size, k - 1) && k * size == (k - 1) * size + size
  {
  }

  /** The name of the first `k` blocks of a stream. */
  function NameOf(values: seq<Value>, size: nat, k: nat): (name: Hash)
    requires Covers(values, size, k)
    ensures Depth(name) == k && (name.Root? <==> k == 0)
    decreases k
  {
    if k == 0 then Root
    else
      CoversFewer(values, size, k);
      Block(NameOf(values, size, k - 1), values[(k - 1) * size..k * size])
  }

  /** Streams that share a name share everything the name stands for. */
  lemma {:induction false} SameName(a: seq<Value>, b: seq<Value>, size: nat, k: nat, j: nat)
    requires Covers(a, size, k) && Covers(b, size, j) && NameOf(a, size, k) == NameOf(b, size, j)
    ensures k == j && k * size <= |b| && a[..k * size] == b[..k * size]
    decreases k
  {
    if k > 0 {
      CoversFewer(a, size, k);
      CoversFewer(b, size, j);
      SameName(a, b, size, k - 1, j - 1);
      var n, m := (k - 1) * size, k * size;
      assert a[..m] == a[..n] + a[n..m] && b[..m] == b[..n] + b[n..m];
    }
  }

  /** A name depends on nothing past the blocks it stands for. */
  lemma {:induction false} NameOfPrefix(a: seq<Value>, b: seq<Value>, size: nat, k: nat)
    requires Covers(a, size, k) && k * size <= |b| && a[..k * size] == b[..k * size]
    ensures NameOf(a, size, k) == NameOf(b, size, k)
    decreases k
  {
    if k > 0 {
      CoversFewer(a, size, k);
      CoversFewer(b, size, k);
      var n, m := (k - 1) * size, k * size;
      assert a[..n] == a[..m][..n] && b[..n] == b[..m][..n];
      assert a[n..m] == a[..m][n..m] && b[n..m] == b[..m][n..m];
      NameOfPrefix(a, b, size, k - 1);
    }
  }
}
