/** Geometry of the quad-buddy memory pool: level sizes, aligned blocks, and what it means for a
    set of blocks to tile the pool buffer. */
module MemPoolTiles {

  /** The kernel's `_ALIGN4`. */
  function Align4(n: nat): (r: nat) {
    (n + 3) / 4 * 4
  }

  /** Entry `level` of the `lsizes` table that allocation and free both rebuild. */
  function LevelSize(maxSz: nat, level: nat): (r: nat) {
    if level == 0 then Align4(maxSz) else Align4(LevelSize(maxSz, level - 1) / 4)
  }

  /** Every block divides into four blocks of the next level with nothing left over, and level 0
      has the size the buffer was dimensioned with. */
  ghost predicate ExactSizes(maxSz: nat, nLevels: nat) {
    && LevelSize(maxSz, 0) == maxSz
    && forall l: nat | l + 1 < nLevels :: LevelSize(maxSz, l) == 4 * LevelSize(maxSz, l + 1)
  }

  /** A pool shape: `nMax` blocks of `maxSz` bytes, split at most `nLevels - 1` times. */
  datatype Shape = Shape(nMax: nat, maxSz: nat, nLevels: nat) {
    ghost predicate Ok() {
      nMax > 0 && maxSz > 0 && nLevels > 0 && ExactSizes(maxSz, nLevels)
    }

    function Size(level: nat): (r: nat) {
      LevelSize(maxSz, level)
    }

    function Count(level: nat): (r: nat) {
      if level == 0 then nMax else 4 * Count(level - 1)
    }

    /** `buf_size`. */
    function Bytes(): (r: nat) {
      nMax * maxSz
    }
  }

  datatype Block = Block(level: nat, num: nat)

  ghost predicate InShape(g: Shape, b: Block) {
    b.level < g.nLevels && b.num < g.Count(b.level)
  }

  /** `block_ptr`, relative to the start of the buffer. */
  function BlockPtr(g: Shape, b: Block): (offset: nat) {
    g.Size(b.level) * b.num
  }

  ghost predicate Covers(g: Shape, b: Block, a: nat) {
    BlockPtr(g, b) <= a < BlockPtr(g, b) + g.Size(b.level)
  }

  ghost predicate Overlap(g: Shape, x: Block, y: Block) {
    exists a: nat :: Covers(g, x, a) && Covers(g, y, a)
  }

  function Child(b: Block, i: nat): (c: Block)
    requires i < 4
  {
    Block(b.level + 1, 4 * b.num + i)
  }

  function Parent(b: Block): (p: Block)
    requires b.level > 0
  {
    Block(b.level - 1, b.num / 4)
  }

  function Children(b: Block): (s: set<Block>) {
    {Child(b, 0), Child(b, 1), Child(b, 2), Child(b, 3)}
  }

  ghost predicate Covered(g: Shape, leaves: set<Block>, a: nat) {
    exists b :: b in leaves && Covers(g, b, a)
  }

  /** Every byte of the buffer is in exactly one block of `leaves`. */
  ghost predicate Tiles(g: Shape, leaves: set<Block>) {
    && (forall b | b in leaves :: InShape(g, b))
    && (forall a: nat | a < g.Bytes() :: Covered(g, leaves, a))
    && (forall x, y, a: nat | x in leaves && y in leaves && Covers(g, x, a) && Covers(g, y, a) :: x == y)
  }

  // ---- when the level table is exact

  /** `n` is divisible by `4^times`. */
  predicate QuarterDivides(n: nat, times: nat) {
    times == 0 || (n % 4 == 0 && QuarterDivides(n / 4, times - 1))
  }

  /** The rounding in the size table is harmless exactly when the largest block is a multiple of
      `4^nLevels`. */
  lemma {:induction false} ExactSizesIff(maxSz: nat, nLevels: nat)
    requires nLevels > 0
    ensures ExactSizes(maxSz, nLevels) <==> QuarterDivides(maxSz, nLevels)
  {
    if maxSz % 4 == 0 {
      forall l: nat ensures LevelSize(maxSz, l + 1) == LevelSize(maxSz / 4, l) {
        LevelSizeOfQuarter(maxSz, l);
      }
      if nLevels > 1 {
        ExactSizesIff(maxSz / 4, nLevels - 1);
        if ExactSizes(maxSz, nLevels) {
          assert LevelSize(maxSz, 0) == 4 * LevelSize(maxSz, 0 + 1);
          forall l: nat | l + 1 < nLevels - 1
            ensures LevelSize(maxSz / 4, l) == 4 * LevelSize(maxSz / 4, l + 1)
          {
            assert LevelSize(maxSz, l + 1) == 4 * LevelSize(maxSz, l + 1 + 1);
          }
        }
        if ExactSizes(maxSz / 4, nLevels - 1) {
          forall l: nat | l + 1 < nLevels ensures LevelSize(maxSz, l) == 4 * LevelSize(maxSz, l + 1) {
            if l > 0 { assert LevelSize(maxSz / 4, l - 1) == 4 * LevelSize(maxSz / 4, l - 1 + 1); }
          }
        }
      }
    }
  }

  lemma {:induction false} LevelSizeOfQuarter(maxSz: nat, l: nat)
    requires maxSz % 4 == 0
    ensures LevelSize(maxSz, l + 1) == LevelSize(maxSz / 4, l)
  {
    if l > 0 { LevelSizeOfQuarter(maxSz, l - 1); }
  }

  lemma {:induction false} SizePositive(g: Shape, level: nat)
    requires g.Ok() && level < g.nLevels
    ensures g.Size(level) > 0
  {
    if level > 0 {
      SizePositive(g, level - 1);
      assert g.Size(level - 1) == 4 * LevelSize(g.maxSz, level - 1 + 1);
    }
  }

  lemma Quartered(s: nat, c: nat)
    ensures (4 * s) * c == s * (4 * c)
  {
  }

  lemma {:induction false} BytesAtLevel(g: Shape, level: nat)
    requires g.Ok() && level < g.nLevels
    ensures g.Bytes() == g.Size(level) * g.Count(level)
  {
    if level > 0 {
      BytesAtLevel(g, level - 1);
      var s, c := g.Size(level), g.Count(level - 1);
      assert g.Size(level - 1) == 4 * LevelSize(g.maxSz, level - 1 + 1);
      Quartered(s, c);
    }
  }

  // ---- aligned blocks

  lemma CoverUnique(g: Shape, x: Block, y: Block, a: nat)
    requires x.level == y.level && Covers(g, x, a) && Covers(g, y, a)
    ensures x == y
  {
    var s := g.Size(x.level);
    if x.num < y.num {
      MulGap(s, x.num, y.num);
    } else if y.num < x.num {
      MulGap(s, y.num, x.num);
    }
  }

  lemma {:induction false} MulGap(s: nat, i: nat, j: nat)
    requires i < j
    ensures s * i + s <= s * j
  {
    if i + 1 < j { MulGap(s, i, j - 1); }
  }

  /** A block's bytes are its children's bytes. */
  lemma ChildPtr(g: Shape, b: Block, i: nat)
    requires g.Ok() && b.level + 1 < g.nLevels && i < 4
    ensures g.Size(b.level) == 4 * g.Size(b.level + 1)
    ensures BlockPtr(g, Child(b, i)) == BlockPtr(g, b) + g.Size(b.level + 1) * i
  {
    var s := g.Size(b.level + 1);
    assert LevelSize(g.maxSz, b.level) == 4 * LevelSize(g.maxSz, b.level + 1);
    assert s * (4 * b.num + i) == (4 * s) * b.num + s * i;
  }

  lemma ChildCovers(g: Shape, b: Block, i: nat, a: nat)
    requires g.Ok() && b.level + 1 < g.nLevels && i < 4
    requires Covers(g, Child(b, i), a)
    ensures Covers(g, b, a)
  {
    ChildPtr(g, b, i);
    if i == 0 {} else if i == 1 {} else if i == 2 {} else {}
  }

  lemma SomeChildCovers(g: Shape, b: Block, a: nat) returns (i: nat)
    requires g.Ok() && b.level + 1 < g.nLevels && Covers(g, b, a)
    ensures i < 4 && Covers(g, Child(b, i), a)
  {
    ChildPtr(g, b, 0); ChildPtr(g, b, 1); ChildPtr(g, b, 2); ChildPtr(g, b, 3);
    var s, p := g.Size(b.level + 1), BlockPtr(g, b);
    i := if a < p + s then 0 else if a < p + 2 * s then 1 else if a < p + 3 * s then 2 else 3;
  }

  lemma ParentCovers(g: Shape, b: Block, a: nat)
    requires g.Ok() && 0 < b.level < g.nLevels && Covers(g, b, a)
    ensures Covers(g, Parent(b), a)
  {
    assert b == Child(Parent(b), b.num % 4);
    ChildCovers(g, Parent(b), b.num % 4, a);
  }

  function Ancestor(b: Block, level: nat): (r: Block)
    requires level <= b.level
    ensures r.level == level
    decreases b.level
  {
    if b.level == level then b else Ancestor(Parent(b), level)
  }

  lemma {:induction false} AncestorCovers(g: Shape, b: Block, level: nat, a: nat)
    requires g.Ok() && level <= b.level < g.nLevels && Covers(g, b, a)
    ensures Covers(g, Ancestor(b, level), a)
    decreases b.level
  {
    if b.level > level {
      ParentCovers(g, b, a);
      AncestorCovers(g, Parent(b), level, a);
    }
  }

  /** Two aligned blocks that share a byte are nested, the lower level outside. */
  lemma Nested(g: Shape, outer: Block, inner: Block, shared: nat, a: nat)
    requires g.Ok() && outer.level <= inner.level < g.nLevels
    requires Covers(g, outer, shared) && Covers(g, inner, shared) && Covers(g, inner, a)
    ensures Covers(g, outer, a)
  {
    AncestorCovers(g, inner, outer.level, shared);
    AncestorCovers(g, inner, outer.level, a);
    CoverUnique(g, outer, Ancestor(inner, outer.level), shared);
  }

  lemma FirstByte(g: Shape, b: Block)
    requires g.Ok() && InShape(g, b)
    ensures Covers(g, b, BlockPtr(g, b))
    ensures BlockPtr(g, b) + g.Size(b.level) <= g.Bytes()
  {
    SizePositive(g, b.level);
    BytesAtLevel(g, b.level);
    MulGap(g.Size(b.level), b.num, g.Count(b.level));
  }

  /** `block_num`: the division undoes `block_ptr`. */
  lemma BlockNumOfPtr(g: Shape, b: Block)
    requires g.Ok() && InShape(g, b)
    ensures g.Size(b.level) > 0 && BlockPtr(g, b) / g.Size(b.level) == b.num
  {
    SizePositive(g, b.level);
    DivOfProduct(g.Size(b.level), b.num);
  }

  lemma DivOfProduct(s: nat, n: nat)
    requires s > 0
    ensures (s * n) / s == n
  {
    var q := (s * n) / s;
    assert s * q <= s * n < s * q + s;
    if q < n { MulGap(s, q, n); } else if n < q { MulGap(s, n, q); }
  }

  // ---- splitting and merging keep the tiling

  lemma SplitTiles(g: Shape, leaves: set<Block>, b: Block)
    requires g.Ok() && Tiles(g, leaves) && b in leaves && b.level + 1 < g.nLevels
    ensures Tiles(g, leaves - {b} + Children(b))
  {
    var after := leaves - {b} + Children(b);
    forall a: nat | a < g.Bytes() ensures Covered(g, after, a) {
      assert Covered(g, leaves, a);
      var x :| x in leaves && Covers(g, x, a);
      if x == b {
        var i := SomeChildCovers(g, b, a);
        assert Child(b, i) in after;
      } else {
        assert x in after;
      }
    }
    forall x, y, a: nat | x in after && y in after && Covers(g, x, a) && Covers(g, y, a)
      ensures x == y
    {
      var x' := if x in Children(b) then b else x;
      var y' := if y in Children(b) then b else y;
      if x in Children(b) { ChildCovers(g, b, x.num - 4 * b.num, a); }
      if y in Children(b) { ChildCovers(g, b, y.num - 4 * b.num, a); }
      assert x' == y';
      if x in Children(b) && y in Children(b) { CoverUnique(g, x, y, a); }
    }
  }

  lemma MergeTiles(g: Shape, leaves: set<Block>, b: Block)
    requires g.Ok() && Tiles(g, leaves) && Children(b) <= leaves
    ensures Tiles(g, leaves - Children(b) + {b})
  {
    assert Child(b, 0) in leaves;
    var after := leaves - Children(b) + {b};
    forall a: nat | a < g.Bytes() ensures Covered(g, after, a) {
      assert Covered(g, leaves, a);
      var x :| x in leaves && Covers(g, x, a);
      if x in Children(b) {
        ChildCovers(g, b, x.num - 4 * b.num, a);
        assert b in after;
      } else {
        assert x in after;
      }
    }
    forall x, y, a: nat | x in after && y in after && Covers(g, x, a) && Covers(g, y, a)
      ensures x == y
    {
      if x == b && y != b {
        var i := SomeChildCovers(g, b, a);
        assert false;
      } else if y == b && x != b {
        var i := SomeChildCovers(g, b, a);
        assert false;
      }
    }
  }
}
