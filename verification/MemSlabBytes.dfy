/** The free list of a slab in memory made of bytes: 32-bit little-endian pointers at the start of blocks
    that may be too small for them. */
module MemSlabBytes {
  import opened MemSlab

  type Byte = b: nat | b < 256

  /** What memory holds; bytes that are not listed are 0. */
  type Memory = map<nat, Byte>

  const SPACE := 0x1_0000_0000

  function At(m: Memory, a: nat): (b: Byte) { if a in m then m[a] else 0 }

  /** Byte `i` of a word, the least significant first. */
  function ByteOf(v: nat, i: nat): (b: Byte)
    requires i < WORD
  {
    if i == 0 then v % 256
    else if i == 1 then v / 256 % 256
    else if i == 2 then v / 256 / 256 % 256
    else v / 256 / 256 / 256 % 256
  }

  function Word(b0: Byte, b1: Byte, b2: Byte, b3: Byte): (v: nat) {
    b0 + 0x100 * b1 + 0x1_0000 * b2 + 0x100_0000 * b3
  }

  function Load(m: Memory, a: nat): (v: nat) {
    Word(At(m, a), At(m, a + 1), At(m, a + 2), At(m, a + 3))
  }

  function Store(m: Memory, a: nat, v: nat): (r: Memory) {
    m[a := ByteOf(v, 0)][a + 1 := ByteOf(v, 1)][a + 2 := ByteOf(v, 2)][a + 3 := ByteOf(v, 3)]
  }

  lemma WordOfBytes(v: nat)
    requires v < SPACE
    ensures Word(ByteOf(v, 0), ByteOf(v, 1), ByteOf(v, 2), ByteOf(v, 3)) == v
  {
    var a := v / 256;
    var b := a / 256;
    var c := b / 256;
    assert v == 256 * a + v % 256 && a == 256 * b + a % 256 && b == 256 * c + b % 256;
    assert c < 256;
  }

  lemma BytesOfWord(b0: Byte, b1: Byte, b2: Byte, b3: Byte)
    ensures var v := Word(b0, b1, b2, b3); ByteOf(v, 0) == b0 && ByteOf(v, 1) == b1 && ByteOf(v, 2) == b2 && ByteOf(v, 3) == b3
  {
    var v := Word(b0, b1, b2, b3);
    var a := b1 + 256 * b2 + 65536 * b3;
    var b := b2 + 256 * b3;
    assert v == 256 * a + b0 && a == 256 * b + b1;
    assert v / 256 == a && a / 256 == b && b / 256 == b3;
  }

  lemma LoadedByte(m: Memory, a: nat, i: nat)
    requires i < WORD
    ensures ByteOf(Load(m, a), i) == At(m, a + i)
  {
    BytesOfWord(At(m, a), At(m, a + 1), At(m, a + 2), At(m, a + 3));
    assert i == 0 || i == 1 || i == 2 || i == 3;
  }

  lemma StoreAt(m: Memory, a: nat, v: nat, x: nat)
    ensures At(Store(m, a, v), x) == if a <= x < a + WORD then ByteOf(v, x - a) else At(m, x)
  {
  }

  lemma LoadStored(m: Memory, a: nat, v: nat)
    requires v < SPACE
    ensures Load(Store(m, a, v), a) == v
  {
    StoreAt(m, a, v, a); StoreAt(m, a, v, a + 1); StoreAt(m, a, v, a + 2); StoreAt(m, a, v, a + 3);
    WordOfBytes(v);
  }

  lemma LoadApart(m: Memory, a: nat, v: nat, b: nat)
    requires WordsApart(a, b)
    ensures Load(Store(m, a, v), b) == Load(m, b)
  {
    StoreAt(m, a, v, b); StoreAt(m, a, v, b + 1); StoreAt(m, a, v, b + 2); StoreAt(m, a, v, b + 3);
  }

  // ---- building the list

  /** The addresses of the blocks, in order. */
  function Addresses(buffer: nat, size: nat, n: nat): (bs: seq<nat>)
    ensures |bs| == n && forall k | 0 <= k < n :: bs[k] == BlockAt(buffer, size, k)
  {
    seq(n, k requires k >= 0 => BlockAt(buffer, size, k))
  }

  /** `free_list` after a round for each of the blocks. */
  function Head(bs: seq<nat>): (p: nat) { if bs == [] then 0 else bs[|bs| - 1] }

  /** Memory after a round of `create_free_list` for each of the blocks. */
  function Linked(m: Memory, bs: seq<nat>): (r: Memory) {
    if bs == [] then m
    else
      var rest := bs[..|bs| - 1];
      Store(Linked(m, rest), bs[|bs| - 1], Head(rest))
  }

  method CreateList(m: Memory, buffer: nat, size: nat, n: nat) returns (r: Memory, list: nat)
    ensures r == Linked(m, Addresses(buffer, size, n)) && list == Head(Addresses(buffer, size, n))
  {
    r, list := m, 0;
    var p := buffer;
    for j := 0 to n
      invariant r == Linked(m, Addresses(buffer, size, j)) && list == Head(Addresses(buffer, size, j))
      invariant p == BlockAt(buffer, size, j)
    {
      assert Addresses(buffer, size, j + 1)[..j] == Addresses(buffer, size, j);
      r := Store(r, p, list);
      list := p;
      Stepped(j, size);
      p := p + size;
    }
  }

  /** Following the pointers in memory from `head` visits the blocks from the last to the first and ends
      at null. */
  ghost predicate Reads(m: Memory, head: nat, bs: seq<nat>)
    decreases |bs|
  {
    head == Head(bs) && (bs != [] ==> Reads(m, Load(m, head), bs[..|bs| - 1]))
  }

  /** The slab is in the address space, and not at null. */
  predicate InMemory(buffer: nat, size: nat, n: nat) {
    0 < buffer < SPACE && buffer + n * size <= SPACE
  }

  /** The list that `create_free_list` leaves visits all blocks. */
  ghost predicate ListIntact(m: Memory, buffer: nat, size: nat, n: nat) {
    var bs := Addresses(buffer, size, n);
    Reads(Linked(m, bs), Head(bs), bs)
  }

  // ---- blocks that hold a pointer

  /** Addresses that fit a pointer and whose words do not overlap. */
  ghost predicate Separate(bs: seq<nat>) {
    && (forall k | 0 <= k < |bs| :: bs[k] < SPACE)
    && (forall j, k | 0 <= j < k < |bs| :: WordsApart(bs[j], bs[k]))
  }

  lemma {:induction false} LinkKept(m: Memory, bs: seq<nat>, k: nat)
    requires Separate(bs) && k < |bs|
    ensures Load(Linked(m, bs), bs[k]) == Head(bs[..k])
  {
    var n := |bs| - 1;
    var rest := bs[..n];
    if k == n {
      LoadStored(Linked(m, rest), bs[n], Head(rest));
    } else {
      LinkKept(m, rest, k);
      assert rest[..k] == bs[..k] && rest[k] == bs[k];
      LoadApart(Linked(m, rest), bs[n], Head(rest), bs[k]);
    }
  }

  lemma {:induction false} ReadsFrom(m: Memory, bs: seq<nat>, k: nat)
    requires Separate(bs) && k <= |bs|
    ensures Reads(Linked(m, bs), Head(bs[..k]), bs[..k])
    decreases k
  {
    if k > 0 {
      LinkKept(m, bs, k - 1);
      ReadsFrom(m, bs, k - 1);
      assert bs[..k][..k - 1] == bs[..k - 1];
    }
  }

  lemma BlocksSeparate(buffer: nat, size: nat, n: nat)
    requires InMemory(buffer, size, n) && size >= WORD
    ensures Separate(Addresses(buffer, size, n))
  {
    var bs := Addresses(buffer, size, n);
    forall k | 0 <= k < n ensures bs[k] < SPACE {
      Scaled(k + 1, n, size);
      Stepped(k, size);
    }
    forall j, k | 0 <= j < k < n ensures WordsApart(bs[j], bs[k]) {
      Scaled(j + 1, k, size);
      Stepped(j, size);
    }
  }

  lemma LargeBlocksIntact(m: Memory, buffer: nat, size: nat, n: nat)
    requires InMemory(buffer, size, n) && size >= WORD
    ensures ListIntact(m, buffer, size, n)
  {
    var bs := Addresses(buffer, size, n);
    BlocksSeparate(buffer, size, n);
    ReadsFrom(m, bs, n);
    assert bs[..n] == bs;
  }

  // ---- blocks that do not

  /** The last link but one is what an intact list needs it to be. */
  lemma {:induction false} IntactLink(m: Memory, bs: seq<nat>)
    requires |bs| >= 2 && Reads(m, Head(bs), bs)
    ensures Load(m, bs[|bs| - 2]) == Head(bs[..|bs| - 2])
  {
    var n := |bs|;
    var rest := bs[..n - 1];
    assert rest[..n - 2] == bs[..n - 2] && Head(rest) == bs[n - 2];
    assert Reads(m, Load(m, Head(bs)), rest);
    assert Reads(m, Load(m, bs[n - 2]), rest[..n - 2]);
  }

  /** In a block of 1 to 3 bytes the next link's low byte lands inside the last link but one. */
  lemma {:induction false} Overwritten(m: Memory, p: nat, d: nat)
    requires 1 <= d < WORD
    ensures ByteOf(Load(Store(m, p + d, p), p), d) == p % 256
  {
    StoreAt(m, p + d, p, p + d);
    LoadedByte(Store(m, p + d, p), p, d);
  }

  /** So the list is damaged whenever that byte is not the one that belongs there. */
  lemma {:induction false} Damaged(m: Memory, bs: seq<nat>, d: nat)
    requires |bs| >= 2 && 1 <= d < WORD && bs[|bs| - 1] == bs[|bs| - 2] + d
    requires ByteOf(Head(bs[..|bs| - 2]), d) != bs[|bs| - 2] % 256
    ensures !Reads(Linked(m, bs), Head(bs), bs)
  {
    var n := |bs|;
    var rest := bs[..n - 1];
    assert Head(rest) == bs[n - 2];
    Overwritten(Linked(m, rest), bs[n - 2], d);
    if Reads(Linked(m, bs), Head(bs), bs) { IntactLink(Linked(m, bs), bs); }
  }

  /** At neighbouring addresses the links differ in no byte but the lowest. */
  lemma HighBytes(q: nat, size: nat, r: nat)
    requires 1 <= size < WORD && 4 <= r < 252
    ensures ByteOf(256 * q + r, size) == ByteOf(256 * q + 128, size)
    ensures (256 * q + r) % 256 == r
  {
    assert (256 * q + r) / 256 == q && (256 * q + 128) / 256 == q;
  }

  /** A buffer whose last block but one is at `256 * q + r`. */
  lemma PlacedAt(q: nat, r: nat, size: nat, n: nat) returns (buffer: nat)
    requires n >= 2 && 1 <= size < WORD && n <= 0x4000_0000 && 128 <= r <= 129 && q == (n - 2) * size / 256 + 1
    ensures InMemory(buffer, size, n) && BlockAt(buffer, size, n - 2) == 256 * q + r
  {
    var k := (n - 2) * size;
    buffer := 256 * q + r - k;
    assert k <= (n - 2) * 3 by { assert (n - 2) * size <= (n - 2) * 3; }
    assert n * size == k + 2 * size;
  }

  lemma SmallBlocksDamaged(m: Memory, size: nat, n: nat) returns (buffer: nat)
    requires 2 <= n <= 0x4000_0000 && 1 <= size < WORD
    ensures InMemory(buffer, size, n) && !ListIntact(m, buffer, size, n)
  {
    var q := (n - 2) * size / 256 + 1;
    var wanted := if n == 2 then 0 else ByteOf(256 * q + 128, size);
    var r := if wanted == 128 then 129 else 128;
    buffer := PlacedAt(q, r, size, n);
    var bs, p := Addresses(buffer, size, n), 256 * q + r;
    Stepped(n - 2, size);
    HighBytes(q, size, r);
    if n > 2 {
      Stepped(n - 3, size);
      assert Head(bs[..n - 2]) == p - size;
      HighBytes(q, size, r - size);
    } else {
      assert bs[..n - 2] == [];
    }
    Damaged(m, bs, size);
  }

  /** Blocks without any size are all the same one, which leads to itself. */
  lemma {:induction false} Cycle(m: Memory, p: nat, bs: seq<nat>)
    requires p > 0 && Load(m, p) == p
    ensures !Reads(m, p, bs)
    decreases |bs|
  {
    if bs != [] { Cycle(m, p, bs[..|bs| - 1]); }
  }

  lemma NoBlocksDamaged(m: Memory, buffer: nat, n: nat)
    requires 0 < buffer < SPACE && n >= 2
    ensures !ListIntact(m, buffer, 0, n)
  {
    var bs := Addresses(buffer, 0, n);
    var rest := bs[..n - 1];
    assert bs[n - 1] == buffer && Head(rest) == rest[n - 2] == buffer;
    LoadStored(Linked(m, rest), buffer, buffer);
    Cycle(Linked(m, bs), buffer, bs);
  }

  /** Wherever the buffer is, the list is intact, exactly when blocks are not smaller than a pointer. (The
      number of blocks is bounded by the address space.) */
  lemma IntactIff(m: Memory, size: nat, n: nat)
    requires 2 <= n <= 0x4000_0000
    ensures (forall buffer: nat | InMemory(buffer, size, n) :: ListIntact(m, buffer, size, n)) <==> size >= WORD
  {
    if size >= WORD {
      forall buffer: nat | InMemory(buffer, size, n) ensures ListIntact(m, buffer, size, n) {
        LargeBlocksIntact(m, buffer, size, n);
      }
    } else if size == 0 {
      NoBlocksDamaged(m, 256, n);
      assert InMemory(256, size, n);
    } else {
      var buffer := SmallBlocksDamaged(m, size, n);
    }
  }

  /** Two blocks of 3 bytes: at 257 the list is damaged. */
  lemma DamagedAt257(m: Memory)
    ensures InMemory(257, 3, 2) && !ListIntact(m, 257, 3, 2)
  {
    var bs := Addresses(257, 3, 2);
    assert bs == [257, 260] && bs[..0] == [];
    Damaged(m, bs, 3);
  }
}
