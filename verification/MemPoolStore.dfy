/** The memory pool's store as a value: free lists by level, and the blocks that callers hold.
    Each function here is one section that the pool executes with interrupts locked. */
module MemPoolStore {
  import opened MemPoolTiles
  import opened Common

  /** `free[l]` is the free list of level `l`, as block numbers. `used` are the blocks that some
      caller holds, either handed out to an application or in transit inside an operation. */
  datatype Store = Store(free: seq<seq<nat>>, used: set<Block>)

  predicate IsFree(s: Store, b: Block) {
    b.level < |s.free| && b.num in s.free[b.level]
  }

  function FreeBlocks(free: seq<seq<nat>>): (r: set<Block>)
    ensures forall b :: b in r <==> b.level < |free| && b.num in free[b.level]
  {
    set l, n | 0 <= l < |free| && n in free[l] :: Block(l, n)
  }

  function Leaves(s: Store): (r: set<Block>) {
    FreeBlocks(s.free) + s.used
  }

  /** Blocks `4q .. 4q+3` of `level` are all free. */
  ghost predicate Quad(s: Store, level: nat, q: nat) {
    && IsFree(s, Block(level, 4 * q)) && IsFree(s, Block(level, 4 * q + 1))
    && IsFree(s, Block(level, 4 * q + 2)) && IsFree(s, Block(level, 4 * q + 3))
  }

  ghost predicate NoQuad(g: Shape, s: Store) {
    forall l: nat, q: nat | 0 < l < g.nLevels :: !Quad(s, l, q)
  }

  /** The invariant that every locked section keeps: lists without repetition; no block both free
      and held; free and held blocks together tile the buffer; no four siblings all free. */
  ghost predicate Inv(g: Shape, s: Store) {
    && g.Ok()
    && |s.free| == g.nLevels
    && (forall l | 0 <= l < |s.free| :: NoDuplicates(s.free[l]))
    && FreeBlocks(s.free) !! s.used
    && Tiles(g, Leaves(s))
    && NoQuad(g, s)
  }

  // ---- the locked sections

  /** `init_mem_pool`: all blocks of level 0, in address order. */
  function Initial(g: Shape): (s: Store)
    requires g.nLevels > 0
  {
    Store([seq(g.nMax, i => i)] + seq(g.nLevels - 1, _ => []), {})
  }

  /** `alloc_block` on a non-empty list. */
  function Take(s: Store, level: nat): (r: Store)
    requires level < |s.free| && s.free[level] != []
  {
    Store(s.free[level := s.free[level][1..]], s.used + {Block(level, s.free[level][0])})
  }

  /** The quarters of block `num` but the first. */
  function Quarters(num: nat): (r: seq<nat>) { [4 * num + 1, 4 * num + 2, 4 * num + 3] }

  lemma QuartersHas(num: nat, n: nat)
    ensures n in Quarters(num) <==> 4 * num + 1 <= n < 4 * num + 4
  {
  }

  /** `break_block`: the caller keeps the first quarter. */
  function Break(s: Store, b: Block): (r: Store)
    requires b.level + 1 < |s.free|
  {
    var l := b.level + 1;
    Store(s.free[l := s.free[l] + Quarters(b.num)],
          s.used - {b} + {Child(b, 0)})
  }

  /** The other three blocks of `b`'s group are all free. */
  predicate Completes(s: Store, b: Block) {
    b.level > 0 && WithIt(s, b, 0) && WithIt(s, b, 1) && WithIt(s, b, 2) && WithIt(s, b, 3)
  }

  predicate WithIt(s: Store, b: Block, i: nat)
    requires b.level > 0 && i < 4
  {
    Child(Parent(b), i) == b || IsFree(s, Child(Parent(b), i))
  }

  /** The list without the numbers from `lo` up to `hi`; with `hi == lo + 1`, `sys_dlist_remove`. */
  function Drop(list: seq<nat>, lo: nat, hi: nat): (r: seq<nat>) {
    if list == [] then []
    else if lo <= list[0] < hi then Drop(list[1..], lo, hi)
    else [list[0]] + Drop(list[1..], lo, hi)
  }

  /** One locked section of `free_block`: put `b` on its list, or, when it completes its group,
      take the other three off the list and go on holding the parent. */
  function Release(s: Store, b: Block): (r: Store)
    requires b.level < |s.free|
  {
    if Completes(s, b) then Merged(s, b) else Listed(s, b)
  }

  function Merged(s: Store, b: Block): (r: Store)
    requires 0 < b.level < |s.free|
  {
    Store(s.free[b.level := Drop(s.free[b.level], 4 * Parent(b).num, 4 * Parent(b).num + 4)],
          s.used - {b} + {Parent(b)})
  }

  function Listed(s: Store, b: Block): (r: Store)
    requires b.level < |s.free|
  {
    Store(s.free[b.level := s.free[b.level] + [b.num]], s.used - {b})
  }

  // ---- each section keeps the invariant

  lemma InitialInv(g: Shape)
    requires g.Ok()
    ensures Inv(g, Initial(g))
  {
    var s := Initial(g);
    forall a: nat | a < g.Bytes() ensures Covered(g, Leaves(s), a) {
      var n := FindMultiple(g.maxSz, g.nMax, a);
      assert s.free[0][n] == n;
      assert Block(0, n) in Leaves(s);
    }
    forall x, y, a: nat | x in Leaves(s) && y in Leaves(s) && Covers(g, x, a) && Covers(g, y, a)
      ensures x == y
    {
      CoverUnique(g, x, y, a);
    }
  }

  lemma {:induction false} FindMultiple(m: nat, k: nat, a: nat) returns (n: nat)
    requires a < m * k
    ensures n < k && m * n <= a < m * n + m
  {
    if k == 0 || m * (k - 1) <= a {
      n := k - 1;
    } else {
      n := FindMultiple(m, k - 1, a);
    }
  }

  lemma TakeInv(g: Shape, s: Store, level: nat)
    requires Inv(g, s) && level < g.nLevels && s.free[level] != []
    ensures Inv(g, Take(s, level))
  {
    var r := Take(s, level);
    var list := s.free[level];
    assert list == [list[0]] + list[1..];
    assert Leaves(r) == Leaves(s);
    FewerFreeNoQuad(g, s, r);
  }

  lemma FewerFreeNoQuad(g: Shape, s: Store, r: Store)
    requires NoQuad(g, s) && forall b | IsFree(r, b) :: IsFree(s, b)
    ensures NoQuad(g, r)
  {
    forall l: nat, q: nat | 0 < l < g.nLevels ensures !Quad(r, l, q) {
      assert !Quad(s, l, q);
    }
  }

  /** A block inside a leaf is not itself a leaf. */
  lemma ChildNotLeaf(g: Shape, s: Store, b: Block, i: nat)
    requires Inv(g, s) && b in Leaves(s) && b.level + 1 < g.nLevels && i < 4
    ensures InShape(g, Child(b, i)) && Child(b, i) !in Leaves(s)
  {
    var c := Child(b, i);
    assert InShape(g, b);
    FirstByte(g, c);
    ChildCovers(g, b, i, BlockPtr(g, c));
  }

  lemma BreakInv(g: Shape, s: Store, b: Block)
    requires Inv(g, s) && b in s.used && b.level + 1 < g.nLevels
    ensures Inv(g, Break(s, b))
  {
    var r := Break(s, b);
    ChildNotLeaf(g, s, b, 0); ChildNotLeaf(g, s, b, 1); ChildNotLeaf(g, s, b, 2); ChildNotLeaf(g, s, b, 3);
    BreakLeaves(s, b);
    BreakNoDup(s, b);
    SplitTiles(g, Leaves(s), b);
    BreakNoQuad(g, s, b);
  }

  lemma BreakLeaves(s: Store, b: Block)
    requires b in s.used && b.level + 1 < |s.free| && FreeBlocks(s.free) !! s.used
    requires Children(b) !! Leaves(s)
    ensures Leaves(Break(s, b)) == Leaves(s) - {b} + Children(b)
    ensures FreeBlocks(Break(s, b).free) !! Break(s, b).used
  {
    BreakFree(s, b);
    SplitSets(FreeBlocks(s.free), s.used, b, Child(b, 0), {Child(b, 1), Child(b, 2), Child(b, 3)}, Children(b));
  }

  lemma SplitSets(free: set<Block>, used: set<Block>, b: Block, kept: Block, freed: set<Block>, all: set<Block>)
    requires free !! used && b in used && kept !in freed && all == {kept} + freed && all !! free + used
    ensures (free + freed) + (used - {b} + {kept}) == (free + used) - {b} + all
    ensures free + freed !! used - {b} + {kept}
  {
  }

  lemma BreakNoDup(s: Store, b: Block)
    requires b.level + 1 < |s.free| && Children(b) !! Leaves(s)
    requires forall l | 0 <= l < |s.free| :: NoDuplicates(s.free[l])
    ensures forall l | 0 <= l < |s.free| :: NoDuplicates(Break(s, b).free[l])
  {
    var list := s.free[b.level + 1];
    forall i: nat | i < 4 ensures Child(b, i).num !in list {
      assert Child(b, i) in Children(b) && Child(b, i) !in FreeBlocks(s.free);
    }
    assert Child(b, 1).num !in list && Child(b, 2).num !in list && Child(b, 3).num !in list;
    AppendThreeNoDup(list, 4 * b.num + 1, 4 * b.num + 2, 4 * b.num + 3);
  }

  lemma BreakFree(s: Store, b: Block)
    requires b.level + 1 < |s.free|
    ensures FreeBlocks(Break(s, b).free) == FreeBlocks(s.free) + {Child(b, 1), Child(b, 2), Child(b, 3)}
  {
    var r, l := Break(s, b), b.level + 1;
    var more := [4 * b.num + 1, 4 * b.num + 2, 4 * b.num + 3];
    assert forall n :: n in r.free[l] <==> n in s.free[l] || n in more;
    assert forall n :: n in more <==> Block(l, n) in {Child(b, 1), Child(b, 2), Child(b, 3)};
  }

  lemma AppendThreeNoDup(list: seq<nat>, x: nat, y: nat, z: nat)
    requires NoDuplicates(list) && x !in list && y !in list && z !in list && x != y && x != z && y != z
    ensures NoDuplicates(list + [x, y, z])
  {
  }

  lemma BreakNoQuad(g: Shape, s: Store, b: Block)
    requires |s.free| == g.nLevels && NoQuad(g, s) && b.level + 1 < g.nLevels
    requires !IsFree(s, Child(b, 0))
    ensures NoQuad(g, Break(s, b))
  {
    var r := Break(s, b);
    forall l: nat, q: nat | 0 < l < g.nLevels ensures !Quad(r, l, q) {
      assert !Quad(s, l, q);
      assert l == b.level + 1 && q == b.num ==> !IsFree(r, Block(l, 4 * q));
    }
  }

  lemma {:induction false} DropContents(list: seq<nat>, lo: nat, hi: nat)
    ensures forall n :: n in Drop(list, lo, hi) <==> n in list && !(lo <= n < hi)
  {
    if list != [] {
      DropContents(list[1..], lo, hi);
      assert list == [list[0]] + list[1..];
    }
  }

  lemma {:induction false} DropNoDup(list: seq<nat>, lo: nat, hi: nat)
    requires NoDuplicates(list)
    ensures NoDuplicates(Drop(list, lo, hi))
  {
    if list != [] {
      var tail := Drop(list[1..], lo, hi);
      DropNoDup(list[1..], lo, hi);
      DropContents(list[1..], lo, hi);
      assert list[0] !in list[1..];
      forall i | 0 <= i < |tail| ensures tail[i] != list[0] { assert tail[i] in tail; }
    }
  }

  lemma {:induction false} DropNext(list: seq<nat>, lo: nat, mid: nat)
    requires lo <= mid
    ensures Drop(Drop(list, lo, mid), mid, mid + 1) == Drop(list, lo, mid + 1)
  {
    if list != [] { DropNext(list[1..], lo, mid); }
  }

  lemma {:induction false} DropNone(list: seq<nat>, lo: nat, hi: nat)
    requires forall n | n in list :: !(lo <= n < hi)
    ensures Drop(list, lo, hi) == list
  {
    if list != [] {
      assert list == [list[0]] + list[1..];
      assert list[0] in list && forall n | n in list[1..] :: n in list;
      DropNone(list[1..], lo, hi);
    }
  }

  lemma ReleaseInv(g: Shape, s: Store, b: Block)
    requires Inv(g, s) && b in s.used
    ensures Inv(g, Release(s, b))
  {
    assert b in Leaves(s);
    if Completes(s, b) { MergeInv(g, s, b); } else { AppendInv(g, s, b); }
  }

  lemma AppendInv(g: Shape, s: Store, b: Block)
    requires Inv(g, s) && b in s.used && b.level < |s.free| && !Completes(s, b)
    ensures Inv(g, Release(s, b))
  {
    var r := Release(s, b);
    assert !IsFree(s, b) by { assert b !in FreeBlocks(s.free); }
    assert Leaves(r) == Leaves(s);
    AppendNoQuad(g, s, b);
  }

  lemma AppendNoQuad(g: Shape, s: Store, b: Block)
    requires |s.free| == g.nLevels && NoQuad(g, s) && b.level < g.nLevels && !Completes(s, b)
    ensures NoQuad(g, Release(s, b))
  {
    var r := Release(s, b);
    assert forall x | IsFree(r, x) :: x == b || IsFree(s, x);
    forall l: nat, q: nat | 0 < l < g.nLevels ensures !Quad(r, l, q) {
      assert !Quad(s, l, q);
      if l == b.level && q == b.num / 4 {
        var i: nat :| i < 4 && !WithIt(s, b, i);
        assert Child(Parent(b), i) == Block(l, 4 * q + i);
      }
    }
  }

  lemma MergeInv(g: Shape, s: Store, b: Block)
    requires Inv(g, s) && b in s.used && b.level < |s.free| && Completes(s, b)
    ensures Inv(g, Release(s, b))
  {
    var r, p := Release(s, b), Parent(b);
    assert b == Child(p, b.num % 4);
    forall i: nat | i < 4 ensures Child(p, i) in Leaves(s) { assert WithIt(s, b, i); }
    assert p !in Leaves(s) by {
      if p in Leaves(s) { ChildNotLeaf(g, s, p, b.num % 4); }
    }
    DropContents(s.free[b.level], 4 * p.num, 4 * p.num + 4);
    DropNoDup(s.free[b.level], 4 * p.num, 4 * p.num + 4);
    assert Tiles(g, Leaves(r)) by {
      MergeLeaves(s, b);
      MergeTiles(g, Leaves(s), p);
    }
    FewerFreeNoQuad(g, s, r);
  }

  lemma MergeLeaves(s: Store, b: Block)
    requires b in s.used && b.level < |s.free| && Completes(s, b) && FreeBlocks(s.free) !! s.used
    ensures Leaves(Release(s, b)) == Leaves(s) - Children(Parent(b)) + {Parent(b)}
  {
    var r, p := Release(s, b), Parent(b);
    DropContents(s.free[b.level], 4 * p.num, 4 * p.num + 4);
    forall x ensures x in Leaves(r) <==> x in Leaves(s) - Children(p) + {p} {
      if x.level == b.level && x.num / 4 == p.num { assert x == Child(p, x.num % 4); }
    }
  }

  // ---- whole operations, as sequences of sections

  /** `free_block` to the end of its tail recursion. */
  function FreeFully(s: Store, b: Block): (r: Store)
    requires b.level < |s.free|
    ensures |r.free| == |s.free|
    decreases b.level
  {
    if Completes(s, b) then FreeFully(Release(s, b), Parent(b)) else Release(s, b)
  }

  lemma {:induction false} FreeFullyInv(g: Shape, s: Store, b: Block)
    requires Inv(g, s) && b in s.used && b.level < |s.free|
    ensures Inv(g, FreeFully(s, b)) && FreeFully(s, b).used == s.used - {b}
    decreases b.level
  {
    ReleaseInv(g, s, b);
    if Completes(s, b) {
      assert Parent(b) !in s.used by {
        if Parent(b) in s.used {
          assert b == Child(Parent(b), b.num % 4);
          assert b in Leaves(s);
          ChildNotLeaf(g, s, Parent(b), b.num % 4);
        }
      }
      FreeFullyInv(g, Release(s, b), Parent(b));
    }
  }

  /** `break_block` repeated down to `target`. */
  function SplitTo(s: Store, b: Block, target: nat): (r: Store)
    requires b.level <= target < |s.free|
    ensures |r.free| == |s.free|
    decreases target - b.level
  {
    if b.level == target then s else SplitTo(Break(s, b), Child(b, 0), target)
  }
}
