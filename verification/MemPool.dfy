/** The memory pool object: free bits packed in 32-bit words beside the free lists, changed in
    place by the sections that run with interrupts locked. */
module MemPool {
  import opened Bits
  import opened MemPoolTiles
  import opened MemPoolStore
  import opened MemPoolComplete
  import opened MemPoolBits

  /** -ENOMEM, -EAGAIN after losing a race, or a block. */
  datatype AllocResult = NoMemory | TryAgain | Allocated(block: Block, data: nat)

  /** `block_fits`. */
  predicate BlockFits(g: Shape, b: Block) {
    BlockPtr(g, b) + g.Size(b.level) - 1 < g.Bytes()
  }

  /** The largest level, hence smallest size, that still holds `size` bytes. */
  ghost predicate BestLevel(g: Shape, size: nat, level: nat) {
    level < g.nLevels && size <= g.Size(level) && (level + 1 < g.nLevels ==> g.Size(level + 1) < size)
  }

  /** The last non-empty list at or above `level`: where a split wastes least. */
  function FromLevel(free: seq<seq<nat>>, level: nat): (r: int)
    requires level < |free|
    ensures -1 <= r <= level
    ensures r >= 0 ==> free[r] != []
    ensures forall l | r < l <= level :: free[l] == []
  {
    if free[level] != [] then level
    else if level == 0 then -1
    else FromLevel(free, level - 1)
  }

  /** With exact sizes every block of a level fits the buffer. */
  method Fits(g: Shape, b: Block) returns (fits: bool)
    requires g.Ok() && InShape(g, b)
    ensures fits
  {
    FirstByte(g, b);
    fits := BlockFits(g, b);
  }

  /** The two loops of `init_mem_pool` over words that are zero to begin with, as static storage is,
      except that the first loop leaves a pointer in the word of level 0 when there are 32 top blocks. */
  method InitialWords(g: Shape, ptr: Word) returns (bits: seq<seq<Word>>, top: seq<nat>)
    requires Usable(g)
    ensures bits == InitialBits(g) && top == Initial(g).free[0]
  {
    bits := [if g.nMax < 32 then Zeros(1) else [ptr]] + seq(g.nLevels - 1, i requires i >= 0 => Zeros(LevelWords(g, i + 1)));
    top := [];
    ghost var zero := bits[0];
    for i := 0 to g.nMax
      invariant |bits| == g.nLevels && bits[1..] == InitialBits(g)[1..]
      invariant |zero| == 1 && bits[0] == PutRun(zero, 0, i, true)
      invariant |top| == i && forall k | 0 <= k < i :: top[k] == k
    {
      top := top + [i];
      bits := bits[0 := Put(bits[0], i, true)];
    }
    SameBits(bits[0], InitialBits(g)[0]);
    assert bits == [bits[0]] + bits[1..];
  }

  /** The loop of `break_block` over the bit words and the list of the next level. */
  method BreakBits(g: Shape, b: Block, bits: seq<Word>, list: seq<nat>) returns (bits': seq<Word>, list': seq<nat>)
    requires g.Ok() && InShape(g, b) && b.level + 1 < g.nLevels && g.Count(b.level + 1) <= 32 * |bits|
    ensures 4 * b.num + 4 <= 32 * |bits| && bits' == SplitWords(bits, b.num)
    ensures list' == list + Quarters(b.num)
  {
    bits', list' := bits, list;
    ChildrenFit(g, b);
    var first := 4 * b.num + 1;
    for i := 1 to 4
      invariant bits' == PutRun(bits, first, i - 1, true) && list' == list + Numbers(first, i - 1)
    {
      var n: nat := first + (i - 1);
      PutRunNext(bits, first, i - 1, true);
      NumbersNext(list, first, i - 1, n);
      bits', list' := AddQuarter(g, b, i, n, bits', list');
    }
    assert Numbers(first, 3) == Quarters(b.num);
  }

  /** One round: set the bit of quarter `i`, and list it if it fits the buffer. */
  method AddQuarter(g: Shape, b: Block, i: nat, n: nat, bits: seq<Word>, list: seq<nat>)
    returns (bits': seq<Word>, list': seq<nat>)
    requires g.Ok() && InShape(g, b) && b.level + 1 < g.nLevels && i < 4 && n == 4 * b.num + i && InRange(bits, n)
    ensures bits' == Put(bits, n, true) && list' == list + [n]
  {
    bits', list' := Put(bits, n, true), list;
    ChildrenFit(g, b);
    var fits := Fits(g, Child(b, i));
    if fits {
      list' := list' + [n];
    }
  }

  lemma NumbersNext(list: seq<nat>, first: nat, k: nat, n: nat)
    requires n == first + k
    ensures list + Numbers(first, k) + [n] == list + Numbers(first, k + 1)
  {
    assert Numbers(first, k) + [n] == Numbers(first, k + 1);
  }

  function Numbers(first: nat, count: nat): (r: seq<nat>)
    ensures |r| == count && forall i | 0 <= i < count :: r[i] == first + i
  {
    seq(count, i requires i >= 0 => first + i)
  }

  lemma UnlinkNext(list: seq<nat>, num: nat, first: nat, n: nat)
    requires first <= n && num !in list
    ensures Drop(Drop(list, first, n), n, n + 1) == Drop(list, first, n + 1)
    ensures n == num ==> Drop(list, first, n + 1) == Drop(list, first, n)
  {
    DropNext(list, first, n);
    if n == num {
      DropContents(list, first, n);
      DropNone(Drop(list, first, n), n, n + 1);
    }
  }

  /** The merge loop of `free_block`: clear the group's bits, unlink the other three blocks. */
  method MergeBits(g: Shape, b: Block, bits: seq<Word>, list: seq<nat>) returns (bits': seq<Word>, list': seq<nat>)
    requires g.Ok() && InShape(g, b) && b.level > 0 && b.num !in list && g.Count(b.level) <= 32 * |bits|
    ensures b.num / 4 * 4 + 4 <= 32 * |bits| && bits' == PutRun(bits, b.num / 4 * 4, 4, false)
    ensures list' == Drop(list, 4 * Parent(b).num, 4 * Parent(b).num + 4)
  {
    var first := 4 * (b.num / 4);
    bits', list' := bits, list;
    DropNone(list, first, first);
    GroupFits(g, b);
    for i := 0 to 4
      invariant list' == Drop(list, first, first + i)
      invariant bits' == PutRun(bits, first, i, false)
    {
      var n := first + i;
      PutRunNext(bits, first, i, false);
      UnlinkNext(list, b.num, first, n);
      bits', list' := ClearOne(g, b, n, bits', list');
    }
  }

  /** One round: clear the bit of block `n`, and unlink it unless it is the one being freed. */
  method ClearOne(g: Shape, b: Block, n: nat, bits: seq<Word>, list: seq<nat>) returns (bits': seq<Word>, list': seq<nat>)
    requires g.Ok() && InShape(g, Block(b.level, n)) && InRange(bits, n)
    ensures bits' == Put(bits, n, false) && list' == if n == b.num then list else Drop(list, n, n + 1)
  {
    bits', list' := Put(bits, n, false), list;
    var fits := Fits(g, Block(b.level, n));
    if n != b.num && fits {
      list' := Drop(list', n, n + 1);
    }
  }

  /** The body of `free_block`'s locked section, on one level's words and list. */
  method FreeBits(g: Shape, b: Block, bits: seq<Word>, list: seq<nat>)
    returns (merged: bool, bits': seq<Word>, list': seq<nat>)
    requires g.Ok() && InShape(g, b) && b.num !in list && g.Count(b.level) <= 32 * |bits|
    ensures merged == Merges(bits, b) && bits' == ReleasedWords(bits, b) && list' == FreedList(list, b, merged)
  {
    list' := list;
    bits' := Put(bits, b.num, true);
    merged := b.level > 0 && Nibble(bits', b.num) == [true, true, true, true];
    if merged {
      bits', list' := MergeBits(g, b, bits', list');
    } else {
      var fits := Fits(g, b);
      if fits {
        list' := list' + [b.num];
      }
    }
  }

  lemma BestLevelUnique(g: Shape, size: nat, chosen: int, level: nat)
    requires g.Ok() && -1 <= chosen < g.nLevels && BestLevel(g, size, level)
    requires if chosen < 0 then g.Size(0) < size else BestLevel(g, size, chosen)
    ensures level == chosen
  {
    if chosen < 0 { SizeDescends(g, 0, level); }
    else if level < chosen { SizeDescends(g, level + 1, chosen); }
    else if chosen < level { SizeDescends(g, chosen + 1, level); }
  }

  lemma {:induction false} SizeDescends(g: Shape, l: nat, m: nat)
    requires g.Ok() && l <= m < g.nLevels
    ensures g.Size(m) <= g.Size(l)
  {
    if l < m {
      SizeDescends(g, l, m - 1);
      assert LevelSize(g.maxSz, m - 1) == 4 * LevelSize(g.maxSz, m - 1 + 1);
    }
  }

  class Pool {
    const shape: Shape
    var bits: seq<seq<Word>>
    var lists: seq<seq<nat>>
    var waiting: seq<nat>
    var readied: seq<nat>
    ghost var used: set<Block>

    ghost function Abs(): (s: Store)
      reads this`lists, this`used
    {
      Store(lists, used)
    }

    ghost predicate Valid()
      reads this`bits, this`lists, this`used
    {
      && Usable(shape)
      && Inv(shape, Abs())
      && InStep(shape, bits, lists)
    }

    /** `init_mem_pool`, for a usable pool; `ptr` is what is left in the word of level 0. */
    constructor (g: Shape, ptr: Word)
      requires Usable(g)
      ensures Valid() && shape == g && Abs() == Initial(g) && bits == InitialBits(g)
      ensures waiting == [] && readied == []
    {
      var words, top := InitialWords(g, ptr);
      shape := g;
      used := {};
      waiting, readied := [], [];
      bits := words;
      lists := [top] + seq(g.nLevels - 1, _ => []);
      new;
      InitialInv(g);
      InitialMatches(g);
      assert lists == Initial(g).free;
    }

    /** `alloc_block`: one locked section. */
    method AllocBlock(level: nat) returns (ok: bool, b: Block)
      requires Valid() && level < shape.nLevels
      modifies this`bits, this`lists, this`used
      ensures Valid()
      ensures ok <==> old(lists[level]) != []
      ensures ok ==> b == Block(level, old(lists[level][0])) && Abs() == Take(old(Abs()), level)
      ensures ok ==> HasBit(old(bits), b) && bits == TakenBits(old(bits), b)
      ensures !ok ==> Abs() == old(Abs()) && bits == old(bits)
    {
      ok := lists[level] != [];
      b := Block(0, 0);
      if ok {
        TakeInv(shape, Abs(), level);
        var n := lists[level][0];
        b := Block(level, n);
        assert b in Leaves(Abs());
        TakeKeepsBits(shape, Abs(), bits, level);
        lists := lists[level := lists[level][1..]];
        bits := bits[level := Put(bits[level], n, false)];
        used := used + {b};
      }
    }

    /** The updates of `break_block`. */
    method SplitBlock(b: Block)
      requires shape.Ok() && InShape(shape, b) && b.level + 1 < shape.nLevels == |bits| == |lists|
      requires shape.Count(b.level + 1) <= 32 * |bits[b.level + 1]|
      modifies this`bits, this`lists, this`used
      ensures Abs() == Break(old(Abs()), b)
      ensures HasBit(old(bits), Child(b, 3)) && bits == SplitBits(old(bits), b)
    {
      var l := b.level + 1;
      var bs, list := BreakBits(shape, b, bits[l], lists[l]);
      bits := bits[l := bs];
      lists := lists[l := list];
      used := used - {b} + {Child(b, 0)};
    }

    /** `break_block`: one locked section. */
    method BreakBlock(b: Block) returns (first: Block)
      requires Valid() && b in used && b.level + 1 < shape.nLevels
      modifies this`bits, this`lists, this`used
      ensures Valid()
      ensures first == Child(b, 0) && Abs() == Break(old(Abs()), b)
      ensures HasBit(old(bits), Child(b, 3)) && bits == SplitBits(old(bits), b)
    {
      BreakInv(shape, Abs(), b);
      assert b in Leaves(Abs());
      SplitKeepsBits(shape, Abs(), bits, b);
      assert LevelMatches(shape, b.level + 1, bits[b.level + 1], lists[b.level + 1]);
      SplitBlock(b);
      first := Child(b, 0);
    }

    /** The updates of `free_block`, on the level of `b`. */
    method ReleaseBlock(b: Block) returns (merged: bool)
      requires shape.Ok() && InShape(shape, b) && shape.nLevels == |bits| == |lists| && b.num !in lists[b.level]
      requires shape.Count(b.level) <= 32 * |bits[b.level]| && (Merges(bits[b.level], b) <==> Completes(Abs(), b))
      modifies this`bits, this`lists, this`used
      ensures merged == Completes(old(Abs()), b) && Abs() == Release(old(Abs()), b)
      ensures HasBit(old(bits), b) && bits == ReleasedBits(old(bits), b)
    {
      var l := b.level;
      ReleasedList(Abs(), b);
      var bs, list;
      merged, bs, list := FreeBits(shape, b, bits[l], lists[l]);
      bits := bits[l := bs];
      lists := lists[l := list];
      used := if merged then used - {b} + {Parent(b)} else used - {b};
    }

    /** The locked section of `free_block` for one level. */
    method FreeSection(b: Block) returns (merged: bool)
      requires Valid() && b in used && b.level < shape.nLevels
      modifies this`bits, this`lists, this`used
      ensures Valid()
      ensures merged == Completes(old(Abs()), b) && Abs() == Release(old(Abs()), b)
      ensures HasBit(old(bits), b) && bits == ReleasedBits(old(bits), b) && merged == Merges(old(bits)[b.level], b)
    {
      assert b in Leaves(Abs()) && b !in FreeBlocks(lists);
      ReleaseInv(shape, Abs(), b);
      ReleaseKeepsBits(shape, Abs(), bits, b);
      assert LevelMatches(shape, b.level, bits[b.level], lists[b.level]);
      merged := ReleaseBlock(b);
    }

    /** `free_block`: sections up the levels, ended by the first incomplete group. */
    method FreeBlock(b: Block)
      requires Valid() && b in used && b.level < shape.nLevels
      modifies this`bits, this`lists, this`used
      ensures Valid()
      ensures Abs() == FreeFully(old(Abs()), b) && used == old(used) - {b}
      decreases b.level
    {
      FreeFullyInv(shape, Abs(), b);
      var merged := FreeSection(b);
      if merged { FreeBlock(Parent(b)); }
    }

    /** `k_mem_pool_free`: release the block, then ready every thread waiting on the pool. */
    method Free(b: Block)
      requires Valid() && b in used
      modifies this`bits, this`lists, this`used, this`waiting, this`readied
      ensures Valid()
      ensures b.level < |old(lists)| && Abs() == FreeFully(old(Abs()), b) && used == old(used) - {b}
      ensures waiting == [] && readied == old(readied) + old(waiting)
    {
      assert b in Leaves(Abs()) && InShape(shape, b);
      FreeBlock(b);
      WakeAll();
    }

    method WakeAll()
      modifies this`waiting, this`readied
      ensures waiting == [] && readied == old(readied) + old(waiting)
    {
      while waiting != []
        invariant readied + waiting == old(readied) + old(waiting)
        decreases |waiting|
      {
        readied := readied + [waiting[0]];
        waiting := waiting[1..];
      }
    }

    /** The size loop of `pool_alloc`: the level to allocate from and the level to split from. */
    method ChooseLevels(size: nat) returns (allocL: int, freeL: int)
      requires Valid()
      ensures -1 <= allocL < shape.nLevels
      ensures allocL < 0 ==> shape.Size(0) < size && freeL == -1
      ensures allocL >= 0 ==> BestLevel(shape, size, allocL) && freeL == FromLevel(lists, allocL)
    {
      allocL, freeL := -1, -1;
      var lsz := Align4(shape.maxSz);
      var i := 0;
      while i < shape.nLevels
        invariant 0 <= i <= shape.nLevels && allocL == i - 1
        invariant i == 0 ==> lsz == shape.Size(0) && freeL == -1
        invariant i > 0 ==> lsz == shape.Size(i - 1) && size <= lsz && freeL == FromLevel(lists, i - 1)
      {
        if i > 0 { lsz := Align4(lsz / 4); }
        if lsz < size { break; }
        allocL := i;
        if lists[i] != [] { freeL := i; }
        i := i + 1;
      }
    }

    /** The splitting loop of `pool_alloc`. */
    method SplitDown(b: Block, target: nat) returns (blk: Block)
      requires Valid() && b in used && b.level <= target < shape.nLevels
      modifies this`bits, this`lists, this`used
      ensures Valid()
      ensures blk.level == target && used == old(used) - {b} + {blk} && blk !in old(used) - {b}
      ensures Abs() == SplitTo(old(Abs()), b, target)
    {
      blk := b;
      while blk.level < target
        invariant Valid() && blk.level <= target
        invariant used == old(used) - {b} + {blk} && blk !in old(used) - {b}
        invariant SplitTo(Abs(), blk, target) == SplitTo(old(Abs()), b, target)
        decreases target - blk.level
      {
        assert blk in Leaves(Abs());
        ChildNotLeaf(shape, Abs(), blk, 0);
        blk := BreakBlock(blk);
      }
    }

    /** The rest of `pool_alloc`, with levels chosen before: other threads may have been at work since. */
    method Claim(allocL: nat, freeL: nat) returns (r: AllocResult)
      requires Valid() && freeL <= allocL < shape.nLevels
      modifies this`bits, this`lists, this`used
      ensures Valid()
      ensures !r.NoMemory? && (r.TryAgain? <==> old(lists[freeL]) == [])
      ensures r.TryAgain? ==> Abs() == old(Abs()) && bits == old(bits)
      ensures r.Allocated? ==> r.block.level == allocL && r.data == BlockPtr(shape, r.block)
      ensures r.Allocated? ==> r.data + shape.Size(allocL) <= shape.Bytes()
      ensures r.Allocated? ==> used == old(used) + {r.block} && r.block !in old(used)
      ensures r.Allocated? ==> forall u | u in old(used) :: !Overlap(shape, u, r.block)
      ensures r.Allocated? ==> Abs() == SplitTo(Take(old(Abs()), freeL), Block(freeL, old(lists)[freeL][0]), allocL)
    {
      var ok, blk := AllocBlock(freeL);
      if !ok {
        return TryAgain;
      }
      blk := SplitDown(blk, allocL);
      assert blk in Leaves(Abs()) && InShape(shape, blk);
      FirstByte(shape, blk);
      return Allocated(blk, BlockPtr(shape, blk));
    }

    /** `pool_alloc`, when no other thread comes in between: it never has to try again. */
    method Alloc(size: nat) returns (r: AllocResult)
      requires Valid()
      modifies this`bits, this`lists, this`used
      ensures Valid() && !r.TryAgain?
      // Failure is exact: nothing that large exists, or no aligned block of that size is intact.
      ensures r.NoMemory? ==> Abs() == old(Abs())
      ensures r.NoMemory? ==> forall level | BestLevel(shape, size, level) :: Exhausted(shape, old(Abs()), level)
      ensures r.Allocated? ==> BestLevel(shape, size, r.block.level) && !Exhausted(shape, old(Abs()), r.block.level)
      ensures r.Allocated? ==> used == old(used) + {r.block} && r.block !in old(used)
      ensures r.Allocated? ==> r.data == BlockPtr(shape, r.block) && r.data + size <= shape.Bytes()
      ensures r.Allocated? ==> forall u | u in old(used) :: !Overlap(shape, u, r.block)
      // The block came from the smallest free block that is large enough.
      ensures r.Allocated? ==>
        var from := FromLevel(old(lists), r.block.level);
        from >= 0 && Abs() == SplitTo(Take(old(Abs()), from), Block(from, old(lists)[from][0]), r.block.level)
    {
      var allocL, freeL := ChooseLevels(size);
      if allocL < 0 || freeL < 0 {
        forall level: nat | BestLevel(shape, size, level) ensures Exhausted(shape, Abs(), level) {
          BestLevelUnique(shape, size, allocL, level);
          EmptyListsMeanExhausted(shape, Abs(), level);
        }
        return NoMemory;
      }
      EmptyListsMeanExhausted(shape, Abs(), allocL);
      r := Claim(allocL, freeL);
    }
  }
}
