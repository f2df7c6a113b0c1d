/** Bit sets held a 64-bit word at a time. A word is the set of its bit positions. */
module Bits {

  type Word = set<nat>

  /** The lowest `n` bits. */
  function LowBits(n: nat): (r: Word)
    ensures forall b: nat :: b in r <==> b < n
  {
    if n == 0 then {} else LowBits(n - 1) + {n - 1}
  }

  /** Every bit of a word. */
  function Full(): Word {
    LowBits(64)
  }

  function WordsFor(len: nat): nat {
    (len + 63) / 64
  }

  predicate Marked(words: seq<Word>, t: nat) {
    t / 64 < |words| && t % 64 in words[t / 64]
  }

  lemma SameBit(t: nat, u: nat)
    requires t / 64 == u / 64 && t % 64 == u % 64
    ensures t == u
  {
  }

  function WithBit(words: seq<Word>, t: nat): (r: seq<Word>)
    requires t / 64 < |words|
    ensures |r| == |words|
    ensures forall u: nat :: Marked(r, u) <==> Marked(words, u) || u == t
  {
    var r := words[t / 64 := words[t / 64] + {t % 64}];
    assert forall u: nat | Marked(r, u) && !Marked(words, u) :: u == t by {
      forall u: nat | Marked(r, u) && !Marked(words, u) ensures u == t { SameBit(t, u); }
    }
    r
  }

  function WithoutBit(words: seq<Word>, t: nat): (r: seq<Word>)
    requires t / 64 < |words|
    ensures |r| == |words|
    ensures forall u: nat :: Marked(r, u) <==> Marked(words, u) && u != t
  {
    var r := words[t / 64 := words[t / 64] - {t % 64}];
    assert forall u: nat | Marked(words, u) && !Marked(r, u) :: u == t by {
      forall u: nat | Marked(words, u) && !Marked(r, u) ensures u == t { SameBit(t, u); }
    }
    r
  }

  lemma WordOf(len: nat, t: nat)
    ensures t < len <==> t / 64 < WordsFor(len)
                         && (t / 64 + 1 == WordsFor(len) && len % 64 != 0 ==> t % 64 < len % 64)
  {
  }

  /** All of the first `len` bits; nothing past them is set. */
  function AllBits(len: nat): (r: seq<Word>)
    ensures |r| == WordsFor(len)
    ensures forall t: nat :: Marked(r, t) <==> t < len
  {
    var n := WordsFor(len);
    var r := seq(n, (w: nat) => if w + 1 == n && len % 64 != 0 then LowBits(len % 64) else Full());
    assert forall t: nat :: Marked(r, t) <==> t < len by {
      forall t: nat ensures Marked(r, t) <==> t < len {
        WordOf(len, t);
        if t / 64 < n {
          assert r[t / 64] == if t / 64 + 1 == n && len % 64 != 0 then LowBits(len % 64) else Full();
        }
      }
    }
    r
  }

  function NoBits(n: nat): (r: seq<Word>)
    ensures |r| == n
    ensures forall t: nat :: !Marked(r, t)
  {
    seq(n, (w: nat) => {})
  }
}
