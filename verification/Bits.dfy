/** Bit arrays kept in 32-bit words, as the kernel stores them: block free bits of the memory
    pool and the priority bitmap of the ready queue. A word is its 32 bits, least significant
    first, so `w |= 1 << b` is `w[b := true]`. */
module Bits {
  type Word = w: seq<bool> | |w| == 32 witness seq(32, _ => false)

  const ZERO: Word := seq(32, _ => false)

  predicate InRange(words: seq<Word>, i: nat) {
    i < 32 * |words|
  }

  /** Bit `i` of the array: word `i / 32`, bit `i & 0x1f`. */
  predicate Test(words: seq<Word>, i: nat)
    requires InRange(words, i)
  {
    words[i / 32][i % 32]
  }

  function Put(words: seq<Word>, i: nat, value: bool): (r: seq<Word>)
    requires InRange(words, i)
    ensures |r| == |words|
    ensures forall j: nat | InRange(words, j) :: Test(r, j) == if j == i then value else Test(words, j)
  {
    words[i / 32 := words[i / 32][i % 32 := value]]
  }

  /** The bottom four bits of `word >> (4 * (bit / 4))`. */
  function Nibble(words: seq<Word>, i: nat): (n: seq<bool>)
    requires InRange(words, i)
    ensures |n| == 4
  {
    var shift := i % 32 / 4 * 4;
    words[i / 32][shift..shift + 4]
  }

  lemma NibbleBit(words: seq<Word>, i: nat, k: nat)
    requires InRange(words, i) && k < 4
    ensures InRange(words, i / 4 * 4 + k) && Nibble(words, i)[k] == Test(words, i / 4 * 4 + k)
  {
    var w, s, n := i / 32, i % 32 / 4, i / 4 * 4 + k;
    assert i / 4 == 8 * w + s;
    assert n == 32 * w + (s * 4 + k) && s * 4 + k < 32;
    assert n / 32 == w && n % 32 == s * 4 + k;
  }

  function Zeros(n: nat): (words: seq<Word>)
    ensures |words| == n
    ensures forall i: nat | InRange(words, i) :: !Test(words, i)
  {
    seq(n, _ => ZERO)
  }
}
