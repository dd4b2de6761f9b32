/** The free bits of a memory pool: where they are stored, and how the locked sections change them. */
module MemPoolBits {
  import opened Bits
  import opened MemPoolTiles
  import opened MemPoolStore
  import opened Common

  // ---- where the bits are

  /** `max_inline_level` after the first `levels` rounds of `init_mem_pool`: the last level with fewer
      than 32 blocks, and 0 when there is none. */
  function MaxInlineLevel(g: Shape, levels: nat): (r: nat) {
    if levels == 0 then 0
    else if g.Count(levels - 1) < 32 then levels - 1
    else MaxInlineLevel(g, levels - 1)
  }

  /** `get_bit_ptr` looks for a level's bits where `init_mem_pool` put them, at every level, exactly
      when there are fewer than 32 top blocks. */
  lemma {:induction false} BitStorageAgreesIff(g: Shape)
    requires g.nMax > 0 && g.nLevels > 0
    ensures (forall l: nat | l < g.nLevels :: l <= MaxInlineLevel(g, g.nLevels) <==> g.Count(l) < 32) <==> g.nMax < 32
  {
    MaxInlineIsLast(g, g.nLevels);
    if g.nMax < 32 {
      forall l: nat | l < g.nLevels ensures l <= MaxInlineLevel(g, g.nLevels) <==> g.Count(l) < 32 {
        var m := MaxInlineLevel(g, g.nLevels);
        if l <= m { CountGrows(g, l, m); }
      }
    } else {
      assert g.Count(0) >= 32;
    }
  }

  lemma {:induction false} MaxInlineIsLast(g: Shape, levels: nat)
    ensures MaxInlineLevel(g, levels) == 0 || MaxInlineLevel(g, levels) < levels
    ensures forall l: nat | MaxInlineLevel(g, levels) < l < levels :: g.Count(l) >= 32
    ensures MaxInlineLevel(g, levels) > 0 || g.nMax < 32 ==> g.Count(MaxInlineLevel(g, levels)) < 32
  {
    if levels > 0 && g.Count(levels - 1) >= 32 { MaxInlineIsLast(g, levels - 1); }
  }

  lemma {:induction false} CountGrows(g: Shape, l: nat, m: nat)
    requires l <= m
    ensures g.Count(l) <= g.Count(m)
  {
    if l < m { CountGrows(g, l, m - 1); }
  }

  /** Words that hold one bit for each block of a level. */
  function BitWords(g: Shape, l: nat): (n: nat) { (g.Count(l) + 31) / 32 }

  /** How many words there are where `get_bit_ptr` looks: the one inside the level structure, or those
      behind its pointer. */
  function LevelWords(g: Shape, l: nat): (n: nat) {
    if l <= MaxInlineLevel(g, g.nLevels) then 1 else BitWords(g, l)
  }

  /** Every block of every level has a bit of its own where it is looked for, exactly when there are at
      most 32 top blocks. With 32 the word inside the level structure is full and the pointer stored
      there by `init_mem_pool` is never used; with more, bits are set beyond it. */
  lemma {:induction false} BitsFitIff(g: Shape)
    requires g.nMax > 0 && g.nLevels > 0
    ensures (forall l: nat | l < g.nLevels :: g.Count(l) <= 32 * LevelWords(g, l)) <==> g.nMax <= 32
  {
    if g.nMax < 32 {
      BitStorageAgreesIff(g);
    } else {
      assert g.Count(0) == g.nMax && LevelWords(g, 0) == 1;
      MaxInlineIsLast(g, g.nLevels);
      if MaxInlineLevel(g, g.nLevels) > 0 { CountGrows(g, 0, MaxInlineLevel(g, g.nLevels)); }
    }
  }

  /** Words behind the buffer that `init_mem_pool` gives to the first `levels` levels. */
  function External(g: Shape, levels: nat): (n: nat) {
    if levels == 0 then 0
    else External(g, levels - 1) + if g.Count(levels - 1) < 32 then 0 else BitWords(g, levels - 1)
  }

  /** The words of different levels do not overlap. */
  lemma {:induction false} ExternalApart(g: Shape, l: nat, m: nat)
    requires l < m
    ensures External(g, l) + (if g.Count(l) < 32 then 0 else BitWords(g, l)) <= External(g, m)
  {
    if l + 1 < m { ExternalApart(g, l, m - 1); }
  }

  /** `_MPOOL_LBIT_WORDS`: a level that needs one word is reserved none. */
  function LBitWords(g: Shape, l: nat): (n: nat) {
    if BitWords(g, l) < 2 then 0 else BitWords(g, l)
  }

  /** `_MPOOL_BITS_SIZE` in words, up to level `k`: one level more than the pool has is counted. */
  function Reserved(g: Shape, k: nat): (n: nat) {
    if k == 0 then 0 else Reserved(g, k - 1) + if g.nLevels >= k - 1 then LBitWords(g, k - 1) else 0
  }

  /** Levels below `k` with exactly 32 blocks, for which `init_mem_pool` takes a word that is not reserved. */
  function Exact32(g: Shape, k: nat): (n: nat) {
    if k == 0 then 0 else Exact32(g, k - 1) + if g.Count(k - 1) == 32 then 1 else 0
  }

  lemma {:induction false} Exact32Once(g: Shape, k: nat)
    ensures Exact32(g, k) <= 1 && (Exact32(g, k) == 1 ==> g.Count(k) >= 128)
    ensures Exact32(g, k) == 0 <==> forall l: nat | l < k :: g.Count(l) != 32
  {
    if k > 0 {
      Exact32Once(g, k - 1);
      assert g.Count(k) == 4 * g.Count(k - 1);
      if Exact32(g, k) == 0 {
        forall l: nat | l < k ensures g.Count(l) != 32 {
          assert l < k - 1 || l == k - 1;
        }
      }
    }
  }

  lemma {:induction false} ReservedBelow(g: Shape, k: nat)
    requires g.nMax > 0 && k <= g.nLevels + 1
    ensures External(g, k) == Reserved(g, k) + Exact32(g, k)
  {
    if k > 0 {
      ReservedBelow(g, k - 1);
      CountGrows(g, 0, k - 1);
    }
  }

  lemma {:induction false} ReservedAbove(g: Shape, k: nat)
    requires g.nLevels + 1 <= k
    ensures Reserved(g, k) == Reserved(g, g.nLevels + 1)
  {
    if g.nLevels + 1 < k { ReservedAbove(g, k - 1); }
  }

  /** The words reserved behind the buffer suffice exactly when there are fewer than 16 levels or no
      level has exactly 32 blocks. */
  lemma {:induction false} ReservedSufficesIff(g: Shape)
    requires g.nMax > 0 && 0 < g.nLevels <= 16
    ensures External(g, g.nLevels) <= Reserved(g, 16) <==>
      g.nLevels < 16 || forall l: nat | l < g.nLevels :: g.Count(l) != 32
  {
    ReservedBelow(g, g.nLevels);
    Exact32Once(g, g.nLevels);
    if g.nLevels < 16 { ReservedAbove(g, 16); }
  }

  // ---- the pools that can be defined

  /** The bytes of a list node, two pointers: no block may be smaller. */
  const MIN_BLOCK := 8

  /** A size shifted right by two bits per level. */
  function Shifted(maxSz: nat, l: nat): (r: nat) { if l == 0 then maxSz else Shifted(maxSz, l - 1) / 4 }

  /** `__MPOOL_LVLS`, up to level `k`: levels whose blocks are not smaller than `minSz`. */
  function Levels(maxSz: nat, minSz: nat, k: nat): (n: nat) {
    if k == 0 then 0 else Levels(maxSz, minSz, k - 1) + if Shifted(maxSz, k - 1) >= minSz then 1 else 0
  }

  /** `_MPOOL_LVLS`. */
  function DefinedLevels(maxSz: nat, minSz: nat): (n: nat) {
    Levels(maxSz, if minSz >= MIN_BLOCK then minSz else MIN_BLOCK, 16)
  }

  /** The pools whose bits fit, and whose blocks can be on a list. */
  ghost predicate Usable(g: Shape) {
    g.Ok() && g.nMax <= 32 && g.nLevels < 16 && g.Size(g.nLevels - 1) >= MIN_BLOCK
  }

  lemma {:induction false} ShiftedFalls(maxSz: nat, l: nat, m: nat)
    requires l <= m
    ensures Shifted(maxSz, m) <= Shifted(maxSz, l)
  {
    if l < m { ShiftedFalls(maxSz, l, m - 1); }
  }

  /** The levels counted are the first ones. */
  lemma {:induction false} LevelsAreFirst(maxSz: nat, minSz: nat, k: nat)
    ensures var n := Levels(maxSz, minSz, k);
      && n <= k
      && (n < k ==> Shifted(maxSz, n) < minSz)
      && (n > 0 ==> Shifted(maxSz, n - 1) >= minSz)
  {
    if k > 0 {
      LevelsAreFirst(maxSz, minSz, k - 1);
      var n := Levels(maxSz, minSz, k - 1);
      if n < k - 1 { ShiftedFalls(maxSz, n, k - 1); }
    }
  }

  function Pow4(l: nat): (r: nat) { if l == 0 then 1 else 4 * Pow4(l - 1) }

  lemma {:induction false} ShiftedBound(maxSz: nat, l: nat)
    ensures Pow4(l) * Shifted(maxSz, l) <= maxSz
  {
    if l > 0 {
      var a, p := Shifted(maxSz, l - 1), Pow4(l - 1);
      ShiftedBound(maxSz, l - 1);
      assert 4 * (a / 4) <= a;
      Scale(p, 4 * (a / 4), a);
      assert 4 * p * (a / 4) == p * (4 * (a / 4));
    }
  }

  lemma Scale(p: nat, x: nat, y: nat)
    requires x <= y
    ensures p * x <= p * y
  {
  }

  lemma {:induction false} SizeIsShifted(g: Shape, l: nat)
    requires g.Ok() && l < g.nLevels
    ensures g.Size(l) == Shifted(g.maxSz, l)
  {
    if l > 0 {
      SizeIsShifted(g, l - 1);
      assert LevelSize(g.maxSz, l - 1) == 4 * LevelSize(g.maxSz, l - 1 + 1);
    }
  }

  /** Every pool of exact quarters that the macros define in a 32-bit address space has fewer than 16
      levels, so that its words are reserved, and blocks that hold a list node. */
  lemma {:induction false} DefinedPoolFits(g: Shape, minSz: nat)
    requires g.Ok() && g.maxSz < 0x1_0000_0000 && g.nLevels == DefinedLevels(g.maxSz, minSz)
    ensures g.nLevels < 16 && g.Size(g.nLevels - 1) >= MIN_BLOCK && External(g, g.nLevels) <= Reserved(g, 16)
    ensures Usable(g) <==> g.nMax <= 32
  {
    var n, low := g.nLevels, if minSz >= MIN_BLOCK then minSz else MIN_BLOCK;
    LevelsAreFirst(g.maxSz, low, 16);
    SizeIsShifted(g, n - 1);
    if n == 16 { TooLarge(g.maxSz); }
    ReservedSufficesIff(g);
  }

  lemma {:induction false} TooLarge(maxSz: nat)
    requires Shifted(maxSz, 15) >= MIN_BLOCK
    ensures maxSz >= 0x2_0000_0000
  {
    ShiftedBound(maxSz, 15);
    assert Pow4(5) == 1024 && Pow4(10) == 1024 * 1024 && Pow4(15) == 1024 * 1024 * 1024;
    Scale(Pow4(15), MIN_BLOCK, Shifted(maxSz, 15));
  }

  // ---- bits and lists

  ghost predicate LevelMatches(g: Shape, level: nat, bits: seq<Word>, list: seq<nat>) {
    && g.Count(level) <= 32 * |bits|
    && forall n: nat | n < g.Count(level) :: Test(bits, n) <==> n in list
  }

  /** A free bit is set exactly when its block is on the level's list. */
  ghost predicate BitsMatch(g: Shape, bits: seq<seq<Word>>, lists: seq<seq<nat>>) {
    && |bits| == |lists| == g.nLevels
    && forall l | 0 <= l < |bits| :: LevelMatches(g, l, bits[l], lists[l])
  }

  /** Each level has the words that `get_bit_ptr` looks at. */
  predicate Stored(g: Shape, bits: seq<seq<Word>>) {
    |bits| == g.nLevels && forall l | 0 <= l < |bits| :: |bits[l]| == LevelWords(g, l)
  }

  lemma LevelReplaced(g: Shape, bits: seq<seq<Word>>, lists: seq<seq<nat>>, l: nat, bs: seq<Word>, list: seq<nat>)
    requires BitsMatch(g, bits, lists) && l < |bits| && LevelMatches(g, l, bs, list)
    ensures BitsMatch(g, bits[l := bs], lists[l := list])
  {
  }

  /** Words are determined by their bits. */
  lemma SameBits(a: seq<Word>, b: seq<Word>)
    requires |a| == |b| && forall n: nat | InRange(a, n) :: Test(a, n) == Test(b, n)
    ensures a == b
  {
    forall k | 0 <= k < |a| ensures a[k] == b[k] {
      forall j | 0 <= j < 32 ensures a[k][j] == b[k][j] {
        assert Test(a, 32 * k + j) == Test(b, 32 * k + j);
      }
    }
  }

  /** The bits from `first` on, `count` of them, set to `value` one after the other. */
  function PutRun(words: seq<Word>, first: nat, count: nat, value: bool): (r: seq<Word>)
    requires first + count <= 32 * |words|
    ensures |r| == |words|
    ensures forall n: nat | InRange(words, n) ::
      Test(r, n) == if first <= n < first + count then value else Test(words, n)
  {
    if count == 0 then words else Put(PutRun(words, first, count - 1, value), first + count - 1, value)
  }

  lemma {:induction false} PutRunNext(words: seq<Word>, first: nat, count: nat, value: bool)
    requires first + count < 32 * |words|
    ensures Put(PutRun(words, first, count, value), first + count, value) == PutRun(words, first, count + 1, value)
  {
  }

  /** All four bits of the group of block `n` are set. */
  predicate Full(words: seq<Word>, n: nat)
    requires InRange(words, n)
  {
    Nibble(words, n) == [true, true, true, true]
  }

  // ---- what the locked sections do to one level's words

  function TakenWords(words: seq<Word>, n: nat): (r: seq<Word>)
    requires InRange(words, n)
    ensures |r| == |words|
  {
    Put(words, n, false)
  }

  function SplitWords(words: seq<Word>, num: nat): (r: seq<Word>)
    requires 4 * num + 4 <= 32 * |words|
    ensures |r| == |words|
  {
    PutRun(words, 4 * num + 1, 3, true)
  }

  /** `free_block`: whether the group is complete once the bit of `b` is set. */
  predicate Merges(words: seq<Word>, b: Block)
    requires InRange(words, b.num)
  {
    b.level > 0 && Full(Put(words, b.num, true), b.num)
  }

  function ReleasedWords(words: seq<Word>, b: Block): (r: seq<Word>)
    requires InRange(words, b.num)
    ensures |r| == |words|
  {
    assert b.num / 4 < 8 * |words|;
    var marked := Put(words, b.num, true);
    if Merges(words, b) then PutRun(marked, b.num / 4 * 4, 4, false) else marked
  }

  /** The list of the level after that. */
  function FreedList(list: seq<nat>, b: Block, merged: bool): (r: seq<nat>) {
    if merged then Drop(list, 4 * (b.num / 4), 4 * (b.num / 4) + 4) else list + [b.num]
  }

  // ---- ... and to the pool's

  /** There is a bit for the block. */
  predicate HasBit(bits: seq<seq<Word>>, b: Block) {
    b.level < |bits| && InRange(bits[b.level], b.num)
  }

  function TakenBits(bits: seq<seq<Word>>, b: Block): (r: seq<seq<Word>>)
    requires HasBit(bits, b)
  {
    bits[b.level := TakenWords(bits[b.level], b.num)]
  }

  function SplitBits(bits: seq<seq<Word>>, b: Block): (r: seq<seq<Word>>)
    requires HasBit(bits, Child(b, 3))
  {
    bits[b.level + 1 := SplitWords(bits[b.level + 1], b.num)]
  }

  function ReleasedBits(bits: seq<seq<Word>>, b: Block): (r: seq<seq<Word>>)
    requires HasBit(bits, b)
  {
    bits[b.level := ReleasedWords(bits[b.level], b)]
  }

  /** The bits of a new pool. */
  function InitialBits(g: Shape): (bits: seq<seq<Word>>)
    requires 0 < g.nMax <= 32 && g.nLevels > 0
    ensures |bits| == g.nLevels
  {
    [PutRun(Zeros(1), 0, g.nMax, true)] + seq(g.nLevels - 1, i requires i >= 0 => Zeros(LevelWords(g, i + 1)))
  }

  lemma InitialMatches(g: Shape)
    requires 0 < g.nMax <= 32 && g.nLevels > 0
    ensures InStep(g, InitialBits(g), Initial(g).free)
  {
    BitsFitIff(g);
    var bits, lists := InitialBits(g), Initial(g).free;
    forall l | 0 <= l < |bits| ensures LevelMatches(g, l, bits[l], lists[l]) {
      if l == 0 {
        forall n: nat | n < g.nMax ensures n in lists[0] { assert lists[0][n] == n; }
      }
    }
  }

  // ---- ... and the list stays in step

  lemma TakenMatches(g: Shape, l: nat, words: seq<Word>, list: seq<nat>, n: nat, rest: seq<nat>)
    requires LevelMatches(g, l, words, list) && list == [n] + rest && n !in rest && n < g.Count(l)
    ensures LevelMatches(g, l, TakenWords(words, n), rest)
  {
  }

  lemma SetMatches(g: Shape, level: nat, bits: seq<Word>, list: seq<nat>, n: nat)
    requires LevelMatches(g, level, bits, list) && n < g.Count(level)
    ensures LevelMatches(g, level, Put(bits, n, true), list + [n])
  {
  }

  lemma SplitMatches(g: Shape, l: nat, words: seq<Word>, list: seq<nat>, num: nat)
    requires LevelMatches(g, l, words, list) && 4 * num + 4 <= g.Count(l)
    ensures LevelMatches(g, l, SplitWords(words, num), list + Quarters(num))
  {
    var r, added := SplitWords(words, num), Quarters(num);
    forall n: nat | n < g.Count(l) ensures Test(r, n) <==> n in list + added {
      assert Test(words, n) <==> n in list;
      assert n in added <==> 4 * num + 1 <= n < 4 * num + 4 by { QuartersHas(num, n); }
    }
  }

  lemma {:induction false} GroupFits(g: Shape, b: Block)
    requires b.level > 0 && b.num < g.Count(b.level)
    ensures b.num / 4 * 4 + 4 <= g.Count(b.level)
  {
    var c := g.Count(b.level - 1);
    assert g.Count(b.level) == 4 * c;
    assert b.num / 4 < c;
  }

  /** The group test on the bit words is the group test on the lists. */
  lemma {:induction false} NibbleCompletes(g: Shape, s: Store, b: Block, bits: seq<Word>)
    requires b.level < |s.free| && 0 < b.level && b.num < g.Count(b.level)
    requires LevelMatches(g, b.level, bits, s.free[b.level] + [b.num])
    ensures Full(bits, b.num) <==> Completes(s, b)
  {
    var n := Nibble(bits, b.num);
    GroupBit(g, s, b, bits, 0); GroupBit(g, s, b, bits, 1);
    GroupBit(g, s, b, bits, 2); GroupBit(g, s, b, bits, 3);
    assert n == [n[0], n[1], n[2], n[3]];
  }

  lemma {:induction false} GroupBit(g: Shape, s: Store, b: Block, bits: seq<Word>, i: nat)
    requires b.level < |s.free| && 0 < b.level && b.num < g.Count(b.level) && i < 4
    requires LevelMatches(g, b.level, bits, s.free[b.level] + [b.num])
    ensures Nibble(bits, b.num)[i] <==> WithIt(s, b, i)
  {
    var n := b.num / 4 * 4 + i;
    NibbleBit(bits, b.num, i);
    GroupFits(g, b);
    assert Child(Parent(b), i) == Block(b.level, n);
    assert Test(bits, n) <==> n in s.free[b.level] + [b.num];
  }

  /** The decision of `free_block`, made on the bits, is the one on the lists. */
  lemma {:induction false} MergesIff(g: Shape, s: Store, b: Block, words: seq<Word>)
    requires b.level < |s.free| && b.num < g.Count(b.level) && LevelMatches(g, b.level, words, s.free[b.level])
    ensures Merges(words, b) <==> Completes(s, b)
  {
    if b.level > 0 {
      SetMatches(g, b.level, words, s.free[b.level], b.num);
      NibbleCompletes(g, s, b, Put(words, b.num, true));
    }
  }

  /** `free_block` leaves the level's bits in step with its list. */
  lemma {:induction false} ReleasedMatches(g: Shape, s: Store, b: Block, words: seq<Word>)
    requires b.level < |s.free| && b.num < g.Count(b.level) && b.num !in s.free[b.level]
    requires LevelMatches(g, b.level, words, s.free[b.level])
    ensures LevelMatches(g, b.level, ReleasedWords(words, b), Release(s, b).free[b.level])
  {
    MergesIff(g, s, b, words);
    if b.level > 0 { GroupFits(g, b); }
    ReleasedList(s, b);
    StepMatches(g, b.level, words, s.free[b.level], b.num, Merges(words, b),
                ReleasedWords(words, b), Release(s, b).free[b.level]);
  }

  lemma ReleasedList(s: Store, b: Block)
    requires b.level < |s.free|
    ensures Release(s, b).free[b.level] == FreedList(s.free[b.level], b, Completes(s, b))
    ensures Release(s, b).free == s.free[b.level := FreedList(s.free[b.level], b, Completes(s, b))]
  {
  }

  lemma {:induction false} StepMatches(g: Shape, l: nat, words: seq<Word>, list: seq<nat>, num: nat, merged: bool,
                    words': seq<Word>, list': seq<nat>)
    requires LevelMatches(g, l, words, list) && num < g.Count(l)
    requires merged ==> num / 4 * 4 + 4 <= g.Count(l)
    requires words' == if merged then PutRun(Put(words, num, true), num / 4 * 4, 4, false) else Put(words, num, true)
    requires list' == FreedList(list, Block(l, num), merged)
    ensures LevelMatches(g, l, words', list')
  {
    SetMatches(g, l, words, list, num);
    if merged { ClearedMatches(g, l, Put(words, num, true), list, num); }
  }

  lemma {:induction false} ClearedMatches(g: Shape, l: nat, words: seq<Word>, list: seq<nat>, num: nat)
    requires LevelMatches(g, l, words, list + [num]) && num / 4 * 4 + 4 <= g.Count(l)
    ensures LevelMatches(g, l, PutRun(words, num / 4 * 4, 4, false), Drop(list, 4 * (num / 4), 4 * (num / 4) + 4))
  {
    var first := num / 4 * 4;
    DropContents(list, first, first + 4);
    forall n: nat | n < g.Count(l)
      ensures Test(PutRun(words, first, 4, false), n) <==> n in Drop(list, first, first + 4)
    {
      assert Test(words, n) <==> n in list + [num];
    }
  }

  // ---- the whole pool

  /** Each level has its words, and they are in step with its list. */
  ghost predicate InStep(g: Shape, bits: seq<seq<Word>>, lists: seq<seq<nat>>) {
    Stored(g, bits) && BitsMatch(g, bits, lists)
  }

  lemma StepReplaced(g: Shape, bits: seq<seq<Word>>, lists: seq<seq<nat>>, l: nat, bs: seq<Word>, list: seq<nat>)
    requires InStep(g, bits, lists) && l < |bits| && |bs| == |bits[l]| && LevelMatches(g, l, bs, list)
    ensures InStep(g, bits[l := bs], lists[l := list])
  {
    LevelReplaced(g, bits, lists, l, bs, list);
  }

  lemma {:induction false} ChildrenFit(g: Shape, b: Block)
    requires b.num < g.Count(b.level)
    ensures 4 * b.num + 4 <= g.Count(b.level + 1)
  {
  }

  lemma {:induction false} TakeKeepsBits(g: Shape, s: Store, bits: seq<seq<Word>>, l: nat)
    requires InStep(g, bits, s.free) && l < g.nLevels && s.free[l] != [] && NoDuplicates(s.free[l])
    requires s.free[l][0] < g.Count(l)
    ensures HasBit(bits, Block(l, s.free[l][0]))
    ensures InStep(g, TakenBits(bits, Block(l, s.free[l][0])), Take(s, l).free)
  {
    var list := s.free[l];
    assert LevelMatches(g, l, bits[l], list);
    TakenMatches(g, l, bits[l], list, list[0], list[1..]);
    StepReplaced(g, bits, s.free, l, TakenWords(bits[l], list[0]), list[1..]);
  }

  lemma {:induction false} SplitKeepsBits(g: Shape, s: Store, bits: seq<seq<Word>>, b: Block)
    requires InStep(g, bits, s.free) && InShape(g, b) && b.level + 1 < g.nLevels
    ensures HasBit(bits, Child(b, 3)) && InStep(g, SplitBits(bits, b), Break(s, b).free)
  {
    ChildrenFit(g, b);
    BrokenList(s, b);
    BrokenInStep(g, bits, s.free, b, Break(s, b).free);
  }

  lemma {:induction false} BrokenInStep(g: Shape, bits: seq<seq<Word>>, lists: seq<seq<nat>>, b: Block, lists': seq<seq<nat>>)
    requires InStep(g, bits, lists) && b.level + 1 < |bits| && 4 * b.num + 4 <= g.Count(b.level + 1)
    requires lists' == lists[b.level + 1 := lists[b.level + 1] + Quarters(b.num)]
    ensures HasBit(bits, Child(b, 3)) && InStep(g, SplitBits(bits, b), lists')
  {
    var l := b.level + 1;
    assert LevelMatches(g, l, bits[l], lists[l]);
    BrokenLevel(g, l, bits[l], lists[l], b.num);
    StepReplaced(g, bits, lists, l, SplitWords(bits[l], b.num), lists'[l]);
  }

  lemma {:induction false} BrokenLevel(g: Shape, l: nat, words: seq<Word>, list: seq<nat>, num: nat)
    requires LevelMatches(g, l, words, list) && 4 * num + 4 <= g.Count(l)
    ensures 4 * num + 4 <= 32 * |words| && |SplitWords(words, num)| == |words|
    ensures LevelMatches(g, l, SplitWords(words, num), list + Quarters(num))
  {
    SplitMatches(g, l, words, list, num);
  }

  lemma BrokenList(s: Store, b: Block)
    requires b.level + 1 < |s.free|
    ensures Break(s, b).free == s.free[b.level + 1 := s.free[b.level + 1] + Quarters(b.num)]
  {
  }

  lemma {:induction false} ReleaseKeepsBits(g: Shape, s: Store, bits: seq<seq<Word>>, b: Block)
    requires InStep(g, bits, s.free) && InShape(g, b) && b.num !in s.free[b.level]
    ensures HasBit(bits, b) && (Merges(bits[b.level], b) <==> Completes(s, b))
    ensures InStep(g, ReleasedBits(bits, b), Release(s, b).free)
  {
    var l := b.level;
    assert LevelMatches(g, l, bits[l], s.free[l]);
    MergesIff(g, s, b, bits[l]);
    ReleasedMatches(g, s, b, bits[l]);
    ReleasedList(s, b);
    StepReplaced(g, bits, s.free, l, ReleasedWords(bits[l], b), Release(s, b).free[l]);
  }
}
