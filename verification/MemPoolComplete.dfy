/** What the pool invariant implies: allocation finds a block whenever the buffer has one, and a
    pool with nothing outstanding has merged back to whole level-0 blocks. */
module MemPoolComplete {
  import opened MemPoolTiles
  import opened MemPoolStore

  lemma {:induction false} DeepestOf(s: set<Block>) returns (m: Block)
    requires s != {}
    ensures m in s && forall x | x in s :: x.level <= m.level
  {
    m :| m in s;
    var rest := s - {m};
    if rest != {} {
      var d := DeepestOf(rest);
      if d.level > m.level { m := d; }
    }
  }

  /** The siblings of a deepest leaf inside `top` are leaves too. */
  lemma SiblingIsLeaf(g: Shape, leaves: set<Block>, top: Block, m: Block, i: nat)
    requires g.Ok() && Tiles(g, leaves) && InShape(g, top) && i < 4
    requires m in leaves && m.level > top.level && Overlap(g, m, top)
    requires forall x | x in leaves && Overlap(g, x, top) :: top.level < x.level <= m.level
    ensures Child(Parent(m), i) in leaves && Overlap(g, Child(Parent(m), i), top)
  {
    var c := Child(Parent(m), i);
    SiblingInShape(g, m, i);
    FirstByte(g, c);
    var a := BlockPtr(g, c);
    assert Covered(g, leaves, a);
    var x :| x in leaves && Covers(g, x, a);
    ParentInside(g, top, m, i, a);
    assert Overlap(g, x, top) && Overlap(g, c, top);
    NotAbove(g, leaves, x, m, i, a);
    CoverUnique(g, x, c, a);
  }

  lemma SiblingInShape(g: Shape, m: Block, i: nat)
    requires InShape(g, m) && m.level > 0 && i < 4
    ensures InShape(g, Child(Parent(m), i)) && Child(Parent(m), i).level == m.level
  {
    var c := g.Count(m.level - 1);
    assert g.Count(m.level) == 4 * c;
    assert m.num / 4 < c;
  }

  /** A leaf that covers a sibling of the leaf `m` is not larger than it. */
  lemma NotAbove(g: Shape, leaves: set<Block>, x: Block, m: Block, i: nat, a: nat)
    requires g.Ok() && Tiles(g, leaves) && x in leaves && m in leaves && m.level > 0 && i < 4
    requires Covers(g, x, a) && Covers(g, Child(Parent(m), i), a)
    ensures x.level >= m.level
  {
    var p := Parent(m);
    ChildCovers(g, p, i, a);
    FirstByte(g, m);
    ParentCovers(g, m, BlockPtr(g, m));
    if x.level < m.level { Nested(g, x, p, a, BlockPtr(g, m)); }
  }

  /** A block around `m`'s group that overlaps `m` covers the whole group. */
  lemma ParentInside(g: Shape, top: Block, m: Block, i: nat, a: nat)
    requires g.Ok() && InShape(g, top) && InShape(g, m) && i < 4 && m.level > top.level && Overlap(g, m, top)
    requires InShape(g, Child(Parent(m), i)) && Covers(g, Child(Parent(m), i), a)
    ensures Covers(g, top, a)
  {
    var p := Parent(m);
    ChildCovers(g, p, i, a);
    var shared: nat :| Covers(g, m, shared) && Covers(g, top, shared);
    ParentCovers(g, m, shared);
    Nested(g, top, p, shared, a);
  }

  /** Blocks inside `top` cannot all be free and smaller: the deepest would be four free siblings. */
  lemma NotAllSmall(g: Shape, s: Store, top: Block, inside: set<Block>)
    requires Inv(g, s) && InShape(g, top) && inside == (set x | x in Leaves(s) && Overlap(g, x, top)) && inside != {}
    ensures exists x :: x in inside && (x in s.used || x.level <= top.level)
  {
    var m := DeepestOf(inside);
    if (forall x | x in inside :: x !in s.used && x.level > top.level) {
      FreeSibling(g, s, top, m, inside, 0); FreeSibling(g, s, top, m, inside, 1);
      FreeSibling(g, s, top, m, inside, 2); FreeSibling(g, s, top, m, inside, 3);
      NoFreeGroup(g, s, m);
    }
  }

  lemma NoFreeGroup(g: Shape, s: Store, m: Block)
    requires Inv(g, s) && m in Leaves(s) && m.level > 0
    ensures var p := Parent(m);
      !(IsFree(s, Child(p, 0)) && IsFree(s, Child(p, 1)) && IsFree(s, Child(p, 2)) && IsFree(s, Child(p, 3)))
  {
    assert InShape(g, m);
    assert !Quad(s, m.level, Parent(m).num);
  }

  lemma FreeSibling(g: Shape, s: Store, top: Block, m: Block, inside: set<Block>, i: nat)
    requires Inv(g, s) && InShape(g, top) && inside == (set x | x in Leaves(s) && Overlap(g, x, top)) && i < 4
    requires m in inside && forall x | x in inside :: x !in s.used && top.level < x.level <= m.level
    ensures IsFree(s, Child(Parent(m), i))
  {
    SiblingIsLeaf(g, Leaves(s), top, m, i);
    assert Child(Parent(m), i) in inside;
  }

  /** Inside any block there is a held block, or a free block at least as large, or a held block
      around it: a region with only smaller free blocks would contain four free siblings. */
  lemma RegionHasHeldOrLarge(g: Shape, s: Store, top: Block)
    requires Inv(g, s) && InShape(g, top)
    ensures (exists x :: x in s.used && Overlap(g, x, top))
         || (exists x :: IsFree(s, x) && x.level <= top.level && Overlap(g, x, top))
  {
    var inside := set x | x in Leaves(s) && Overlap(g, x, top);
    FirstByte(g, top);
    assert Covered(g, Leaves(s), BlockPtr(g, top));
    var x0 :| x0 in Leaves(s) && Covers(g, x0, BlockPtr(g, top));
    assert x0 in inside;
    NotAllSmall(g, s, top, inside);
    var x :| x in inside && (x in s.used || x.level <= top.level);
  }

  function FirstDescendant(b: Block, level: nat): (r: Block)
    requires b.level <= level
    ensures r.level == level
    decreases level - b.level
  {
    if b.level == level then b else FirstDescendant(Child(b, 0), level)
  }

  lemma {:induction false} FirstDescendantInside(g: Shape, b: Block, level: nat, a: nat)
    requires g.Ok() && InShape(g, b) && b.level <= level < g.nLevels
    ensures InShape(g, FirstDescendant(b, level))
    ensures Covers(g, FirstDescendant(b, level), a) ==> Covers(g, b, a)
    decreases level - b.level
  {
    if b.level < level {
      FirstDescendantInside(g, Child(b, 0), level, a);
      if Covers(g, Child(b, 0), a) { ChildCovers(g, b, 0, a); }
    }
  }

  /** No level up to `level` has a free block. */
  ghost predicate ListsEmpty(s: Store, level: nat)
    requires level < |s.free|
  {
    forall l | 0 <= l <= level :: s.free[l] == []
  }

  /** Every aligned block of `level` overlaps a held block. */
  ghost predicate Exhausted(g: Shape, s: Store, level: nat) {
    forall b | InShape(g, b) && b.level == level :: OverlapsHeld(g, s, b)
  }

  ghost predicate OverlapsHeld(g: Shape, s: Store, b: Block) {
    exists u :: u in s.used && Overlap(g, u, b)
  }

  /** The test that allocation makes (are the lists of this and all larger sizes empty?) decides
      exactly whether the buffer still has room for an aligned block of that size. */
  lemma EmptyListsMeanExhausted(g: Shape, s: Store, level: nat)
    requires Inv(g, s) && level < g.nLevels
    ensures ListsEmpty(s, level) <==> Exhausted(g, s, level)
  {
    if ListsEmpty(s, level) {
      forall b | InShape(g, b) && b.level == level ensures OverlapsHeld(g, s, b) {
        RegionHasHeldOrLarge(g, s, b);
      }
    } else {
      var l :| 0 <= l <= level && s.free[l] != [];
      var x := Block(l, s.free[l][0]);
      assert x in Leaves(s);
      var d := FirstDescendant(x, level);
      FirstDescendantInside(g, x, level, 0);
      if OverlapsHeld(g, s, d) {
        var u :| u in s.used && Overlap(g, u, d);
        var a: nat :| Covers(g, u, a) && Covers(g, d, a);
        FirstDescendantInside(g, x, level, a);
        assert false;
      }
      assert !OverlapsHeld(g, s, d);
    }
  }

  /** With nothing held, every level-0 block is on the level-0 list and all other lists are empty,
      whatever was allocated, split and freed before. */
  lemma NothingHeldMeansWhole(g: Shape, s: Store)
    requires Inv(g, s) && s.used == {}
    ensures forall n: nat :: n in s.free[0] <==> n < g.nMax
    ensures forall l | 0 < l < g.nLevels :: s.free[l] == []
  {
    forall n: nat ensures n in s.free[0] <==> n < g.nMax {
      var b := Block(0, n);
      if n < g.nMax {
        RegionHasHeldOrLarge(g, s, b);
        var x :| IsFree(s, x) && x.level <= 0 && Overlap(g, x, b);
        var a: nat :| Covers(g, x, a) && Covers(g, b, a);
        CoverUnique(g, x, b, a);
      }
      if n in s.free[0] { assert b in Leaves(s); }
    }
    forall l | 0 < l < g.nLevels ensures s.free[l] == [] {
      if s.free[l] != [] {
        var y := Block(l, s.free[l][0]);
        assert y in Leaves(s);
        FirstByte(g, y);
        var a := BlockPtr(g, y);
        AncestorCovers(g, y, 0, a);
        AncestorInShape(g, y, 0);
        assert false;
      }
    }
  }

  lemma {:induction false} AncestorInShape(g: Shape, b: Block, level: nat)
    requires InShape(g, b) && level <= b.level
    ensures InShape(g, Ancestor(b, level))
    decreases b.level
  {
    if b.level > level { AncestorInShape(g, Parent(b), level); }
  }
}
