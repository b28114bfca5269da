/** Sets of small numbers kept as 64-bit words. A word is modelled by the set of its one bits: testing
    w & (1 << b) is membership of b, and w |= 1 << b adds b. */
module Bitmaps {
  type Word = w: set<nat> | forall b :: b in w ==> b < 64

  /** Bit s % 64 of word s / 64. */
  predicate Has(words: seq<Word>, s: nat) {
    s / 64 < |words| && s % 64 in words[s / 64]
  }

  /** The word that ((1 << n) - 1) stands for. */
  function Ones(n: nat): (w: Word)
    requires n <= 64
    ensures forall b: nat :: b in w <==> b < n
  {
    if n == 0 then {} else Ones(n - 1) + {n - 1}
  }

  function SetBit(words: seq<Word>, s: nat): (r: seq<Word>)
    requires s / 64 < |words|
    ensures |r| == |words|
    ensures forall t: nat :: Has(r, t) <==> t == s || Has(words, t)
  {
    var r := words[s / 64 := words[s / 64] + {s % 64}];
    assert forall t: nat :: t / 64 == s / 64 && t % 64 == s % 64 ==> t == s;
    r
  }

  /** The bits set are exactly the listed ones. */
  ghost predicate Marks(words: seq<Word>, s: seq<int>) {
    forall x: nat :: Has(words, x) <==> x in s
  }
}
