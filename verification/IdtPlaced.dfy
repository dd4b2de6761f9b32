/** Pass 2 of the vector assignment: every class serves its requests while it has free vectors. */
module IdtPlaced {
  import opened IdtSpec
  import opened Common

  // ---- counting

  /** Entries that ask for a vector of priority `p`. */
  function Requests(es: seq<Entry>, p: int): (n: nat) {
    if es == [] then 0
    else Requests(es[..|es| - 1], p) + if !Fixed(es[|es| - 1]) && es[|es| - 1].prio == p then 1 else 0
  }

  /** Free vectors from `lo` on below `hi`. */
  function FreeIn(vectors: seq<Option<Gate>>, lo: nat, hi: nat): (n: nat)
    requires lo <= hi
    decreases hi - lo
  {
    if lo == hi then 0
    else FreeIn(vectors, lo, hi - 1) + if hi - 1 < |vectors| && vectors[hi - 1].None? then 1 else 0
  }

  function FreeFor(vectors: seq<Option<Gate>>, p: nat): (n: nat) {
    FreeIn(vectors, ClassBase(p), ClassBase(p) + 16)
  }

  lemma {:induction false} FreeAfter(vectors: seq<Option<Gate>>, v: nat, g: Gate, lo: nat, hi: nat)
    requires v < |vectors| && vectors[v].None? && lo <= hi
    ensures FreeIn(vectors[v := Some(g)], lo, hi) == FreeIn(vectors, lo, hi) - if lo <= v < hi then 1 else 0
    decreases hi - lo
  {
    if lo < hi { FreeAfter(vectors, v, g, lo, hi - 1); }
  }

  lemma {:induction false} NoneFree(vectors: seq<Option<Gate>>, lo: nat, hi: nat)
    requires lo <= hi
    ensures FreeIn(vectors, lo, hi) == 0 <==> forall v | lo <= v < hi && v < |vectors| :: vectors[v].Some?
    decreases hi - lo
  {
    if lo < hi { NoneFree(vectors, lo, hi - 1); }
  }

  /** Classes do not share vectors. */
  lemma ClassesApart(v: int, p: nat, q: nat)
    requires InClass(v, p) && InClass(v, q)
    ensures p == q
  {
  }

  /** A vector is picked exactly when the class has a free one, and it is free and in the class. */
  lemma PickIff(vectors: seq<Option<Gate>>, p: nat)
    ensures Pick(vectors, p).Some? <==> FreeFor(vectors, p) > 0
    ensures Pick(vectors, p).Some? ==>
      var v := Pick(vectors, p).value; InClass(v, p) && v < |vectors| && vectors[v].None?
  {
    NoneFree(vectors, ClassBase(p), ClassBase(p) + 16);
  }

  // ---- what the pass keeps

  /** Entry `i` was given a vector by this pass. */
  ghost predicate PickedFor(es: seq<Entry>, p: Placed, t0: Tables, i: nat)
    requires i < |es| && i < |p.vecs|
  {
    var v, e, t := p.vecs[i], es[i], p.tables;
    && InClass(v, e.prio) && v < |t.vectors| && v < |t0.vectors|
    && t0.vectors[v].None? && t.vectors[v] == Some(GateOf(e))
    && e.irq < |t.irqVec| && (e.irq >= 0 ==> t.irqVec[e.irq] == v)
  }

  ghost predicate VecUsed(es: seq<Entry>, p: Placed, v: int)
    requires |p.vecs| == |es|
  {
    exists i :: 0 <= i < |es| && !Fixed(es[i]) && p.vecs[i] == v
  }

  ghost predicate LineUsed(es: seq<Entry>, q: int) {
    exists i :: 0 <= i < |es| && !Fixed(es[i]) && es[i].irq == q
  }

  ghost predicate Kept(t0: Tables, t: Tables) {
    && |t.vectors| == |t0.vectors| && |t.irqVec| == |t0.irqVec|
    && (forall v | 0 <= v < |t.vectors| && t0.vectors[v].Some? :: t.vectors[v] == t0.vectors[v])
    && (forall q | 0 <= q < |t.irqVec| && t0.irqVec[q] != 0 :: t.irqVec[q] == t0.irqVec[q])
  }

  ghost predicate PlacedOk(es: seq<Entry>, t0: Tables, p: Placed) {
    && |p.vecs| == |es| && Kept(t0, p.tables)
    && (forall i | 0 <= i < |es| :: if Fixed(es[i]) then p.vecs[i] == es[i].vec else PickedFor(es, p, t0, i))
    && (forall i, j | 0 <= i < j < |es| && !Fixed(es[i]) && !Fixed(es[j]) :: p.vecs[i] != p.vecs[j])
    && (forall v | 0 <= v < |t0.vectors| :: p.tables.vectors[v].Some? <==> t0.vectors[v].Some? || VecUsed(es, p, v))
    && (forall q | 0 <= q < |t0.irqVec| :: p.tables.irqVec[q] != 0 <==> t0.irqVec[q] != 0 || LineUsed(es, q))
    && (forall c: nat :: FreeFor(p.tables.vectors, c) + Requests(es, c) == FreeFor(t0.vectors, c))
  }

  /** What the pass accepts. */
  ghost predicate Placeable(es: seq<Entry>, t0: Tables) {
    && (forall c: nat :: Requests(es, c) <= FreeFor(t0.vectors, c))
    && (forall i | 0 <= i < |es| && !Fixed(es[i]) :: LineFree(t0, es[i].irq))
    && (forall i, j | 0 <= i < j < |es| && !Fixed(es[i]) && !Fixed(es[j]) :: es[i].irq == -1 || es[i].irq != es[j].irq)
  }

  predicate LineFree(t0: Tables, q: int) {
    q == -1 || (0 <= q < |t0.irqVec| && t0.irqVec[q] == 0)
  }

  lemma VecUsedSnoc(es: seq<Entry>, p: Placed, v: int)
    requires es != [] && |p.vecs| == |es|
    ensures var n := |es| - 1;
      VecUsed(es, p, v) <==> VecUsed(es[..n], p.(vecs := p.vecs[..n]), v) || (!Fixed(es[n]) && p.vecs[n] == v)
  {
    var n := |es| - 1;
    var pre, q := es[..n], p.(vecs := p.vecs[..n]);
    if VecUsed(es, p, v) {
      var i :| 0 <= i < |es| && !Fixed(es[i]) && p.vecs[i] == v;
      if i < n { assert !Fixed(pre[i]) && q.vecs[i] == v; }
    }
    if VecUsed(pre, q, v) {
      var i :| 0 <= i < n && !Fixed(pre[i]) && q.vecs[i] == v;
      assert !Fixed(es[i]) && p.vecs[i] == v;
    }
  }

  lemma LineUsedSnoc(es: seq<Entry>, q: int)
    requires es != []
    ensures var n := |es| - 1; LineUsed(es, q) <==> LineUsed(es[..n], q) || (!Fixed(es[n]) && es[n].irq == q)
  {
    var n := |es| - 1;
    if LineUsed(es, q) {
      var i :| 0 <= i < |es| && !Fixed(es[i]) && es[i].irq == q;
      if i < n { assert !Fixed(es[..n][i]) && es[..n][i].irq == q; }
    }
    if LineUsed(es[..n], q) {
      var i :| 0 <= i < n && !Fixed(es[..n][i]) && es[..n][i].irq == q;
      assert !Fixed(es[i]) && es[i].irq == q;
    }
  }

  // ---- one entry more

  ghost predicate Fits(es: seq<Entry>, t0: Tables, e: Entry) {
    Fixed(e) || (e.prio >= 0 && Requests(es, e.prio) < FreeFor(t0.vectors, e.prio)
                 && LineFree(t0, e.irq) && (e.irq == -1 || !LineUsed(es, e.irq)))
  }

  lemma PlaceableSnoc(es: seq<Entry>, t0: Tables)
    requires es != [] && AllWellFormed(es) && AllSpecified(es)
    ensures Placeable(es, t0) <==> Placeable(es[..|es| - 1], t0) && Fits(es[..|es| - 1], t0, es[|es| - 1])
  {
    var n := |es| - 1;
    var pre, e := es[..n], es[n];
    assert forall i | 0 <= i < n :: pre[i] == es[i];
    assert forall c: nat :: Requests(es, c) == Requests(pre, c) + if !Fixed(e) && e.prio == c then 1 else 0;
    if Placeable(es, t0) {
      assert forall c: nat :: Requests(pre, c) <= Requests(es, c);
      if !Fixed(e) { assert Requests(es, e.prio) <= FreeFor(t0.vectors, e.prio); }
    }
    if Placeable(pre, t0) && Fits(pre, t0, e) {
      forall i, j | 0 <= i < j < |es| && !Fixed(es[i]) && !Fixed(es[j])
        ensures es[i].irq == -1 || es[i].irq != es[j].irq
      {
        assert pre[i] == es[i];
        if j < n { assert pre[j] == es[j]; }
      }
      forall c: nat ensures Requests(es, c) <= FreeFor(t0.vectors, c) {
        assert Requests(pre, c) <= FreeFor(t0.vectors, c);
      }
    }
  }

  lemma StepFits(pre: seq<Entry>, t0: Tables, p: Placed, e: Entry)
    requires WellFormed(e) && (e.vec == -1 ==> e.prio != -1) && PlacedOk(pre, t0, p)
    ensures PlaceStep(p, e).Ok? <==> Fits(pre, t0, e)
  {
    if !Fixed(e) {
      PickIff(p.tables.vectors, e.prio);
      assert FreeFor(p.tables.vectors, e.prio) + Requests(pre, e.prio) == FreeFor(t0.vectors, e.prio);
    }
  }

  lemma {:induction false} FreeStep(pre: seq<Entry>, t0: Tables, p: Placed, e: Entry, v: nat, c: nat)
    requires PlacedOk(pre, t0, p) && !Fixed(e) && InClass(v, e.prio) && v < |p.tables.vectors| && p.tables.vectors[v].None?
    ensures FreeFor(p.tables.vectors[v := Some(GateOf(e))], c) + Requests(pre + [e], c) == FreeFor(t0.vectors, c)
  {
    FreeAfter(p.tables.vectors, v, GateOf(e), ClassBase(c), ClassBase(c) + 16);
    assert (pre + [e])[..|pre|] == pre;
    assert FreeFor(p.tables.vectors, c) + Requests(pre, c) == FreeFor(t0.vectors, c);
    if InClass(v, c) { ClassesApart(v, c, e.prio); }
  }

  lemma FixedEntries(es: seq<Entry>, t0: Tables, p: Placed)
    requires es != [] && PlacedOk(es[..|es| - 1], t0, p) && Fixed(es[|es| - 1])
    ensures var r := p.(vecs := p.vecs + [es[|es| - 1].vec]);
      && (forall i | 0 <= i < |es| :: if Fixed(es[i]) then r.vecs[i] == es[i].vec else PickedFor(es, r, t0, i))
      && (forall i, j | 0 <= i < j < |es| && !Fixed(es[i]) && !Fixed(es[j]) :: r.vecs[i] != r.vecs[j])
  {
    var n := |es| - 1;
    var pre, r := es[..n], p.(vecs := p.vecs + [es[n].vec]);
    forall i | 0 <= i < |es| ensures if Fixed(es[i]) then r.vecs[i] == es[i].vec else PickedFor(es, r, t0, i) {
      if i < n {
        assert pre[i] == es[i];
        assert Fixed(pre[i]) || PickedFor(pre, p, t0, i);
      }
    }
    forall i, j | 0 <= i < j < |es| && !Fixed(es[i]) && !Fixed(es[j]) ensures r.vecs[i] != r.vecs[j] {
      assert pre[i] == es[i] && pre[j] == es[j];
    }
  }

  lemma FixedStep(es: seq<Entry>, t0: Tables, p: Placed)
    requires es != [] && PlacedOk(es[..|es| - 1], t0, p) && Fixed(es[|es| - 1])
    ensures PlacedOk(es, t0, p.(vecs := p.vecs + [es[|es| - 1].vec]))
  {
    var n := |es| - 1;
    var pre, r := es[..n], p.(vecs := p.vecs + [es[n].vec]);
    assert r.vecs[..n] == p.vecs;
    FixedEntries(es, t0, p);
    forall v | 0 <= v < |t0.vectors| ensures r.tables.vectors[v].Some? <==> t0.vectors[v].Some? || VecUsed(es, r, v) {
      VecUsedSnoc(es, r, v);
      assert VecUsed(pre, r.(vecs := p.vecs), v) <==> VecUsed(pre, p, v);
    }
    forall q | 0 <= q < |t0.irqVec| ensures r.tables.irqVec[q] != 0 <==> t0.irqVec[q] != 0 || LineUsed(es, q) {
      LineUsedSnoc(es, q);
    }
    forall c: nat ensures FreeFor(r.tables.vectors, c) + Requests(es, c) == FreeFor(t0.vectors, c) {
      assert FreeFor(p.tables.vectors, c) + Requests(pre, c) == FreeFor(t0.vectors, c);
    }
  }

  lemma PickedStep(es: seq<Entry>, t0: Tables, p: Placed, v: nat, t: Tables)
    requires es != [] && AllWellFormed(es) && PlacedOk(es[..|es| - 1], t0, p) && !Fixed(es[|es| - 1])
    requires v < |p.tables.vectors| && InClass(v, es[|es| - 1].prio) && p.tables.vectors[v].None?
    requires Assign(p.tables, es[|es| - 1], v) == Ok(t)
    ensures PlacedOk(es, t0, Placed(t, p.vecs + [v]))
  {
    var n := |es| - 1;
    var pre, e, r := es[..n], es[n], Placed(t, p.vecs + [v]);
    assert es == pre + [e];
    EntriesStep(es, t0, p, v, t);
    UsedStep(es, t0, p, v, t);
    forall c: nat ensures FreeFor(r.tables.vectors, c) + Requests(es, c) == FreeFor(t0.vectors, c) {
      FreeStep(pre, t0, p, e, v, c);
    }
  }

  lemma EntriesStep(es: seq<Entry>, t0: Tables, p: Placed, v: nat, t: Tables)
    requires es != [] && AllWellFormed(es) && PlacedOk(es[..|es| - 1], t0, p) && !Fixed(es[|es| - 1])
    requires v < |p.tables.vectors| && InClass(v, es[|es| - 1].prio) && p.tables.vectors[v].None?
    requires Assign(p.tables, es[|es| - 1], v) == Ok(t)
    ensures var r := Placed(t, p.vecs + [v]);
      && Kept(t0, t)
      && (forall i | 0 <= i < |es| :: if Fixed(es[i]) then r.vecs[i] == es[i].vec else PickedFor(es, r, t0, i))
      && (forall i, j | 0 <= i < j < |es| && !Fixed(es[i]) && !Fixed(es[j]) :: r.vecs[i] != r.vecs[j])
  {
    var n := |es| - 1;
    var pre, r := es[..n], Placed(t, p.vecs + [v]);
    forall i | 0 <= i < |es| ensures if Fixed(es[i]) then r.vecs[i] == es[i].vec else PickedFor(es, r, t0, i) {
      if i < n {
        assert pre[i] == es[i];
        assert Fixed(pre[i]) || PickedFor(pre, p, t0, i);
      }
    }
    forall i, j | 0 <= i < j < |es| && !Fixed(es[i]) && !Fixed(es[j]) ensures r.vecs[i] != r.vecs[j] {
      assert pre[i] == es[i] && PickedFor(pre, p, t0, i);
      if j < n { assert pre[j] == es[j]; }
    }
  }

  lemma UsedStep(es: seq<Entry>, t0: Tables, p: Placed, v: nat, t: Tables)
    requires es != [] && AllWellFormed(es) && PlacedOk(es[..|es| - 1], t0, p) && !Fixed(es[|es| - 1])
    requires v < |p.tables.vectors| && InClass(v, es[|es| - 1].prio) && p.tables.vectors[v].None?
    requires Assign(p.tables, es[|es| - 1], v) == Ok(t)
    ensures var r := Placed(t, p.vecs + [v]);
      && (forall u | 0 <= u < |t0.vectors| :: t.vectors[u].Some? <==> t0.vectors[u].Some? || VecUsed(es, r, u))
      && (forall q | 0 <= q < |t0.irqVec| :: t.irqVec[q] != 0 <==> t0.irqVec[q] != 0 || LineUsed(es, q))
  {
    var n := |es| - 1;
    var r := Placed(t, p.vecs + [v]);
    assert r.vecs[..n] == p.vecs;
    forall u | 0 <= u < |t0.vectors| ensures t.vectors[u].Some? <==> t0.vectors[u].Some? || VecUsed(es, r, u) {
      VecUsedSnoc(es, r, u);
      assert VecUsed(es[..n], r.(vecs := p.vecs), u) <==> VecUsed(es[..n], p, u);
    }
    forall q | 0 <= q < |t0.irqVec| ensures t.irqVec[q] != 0 <==> t0.irqVec[q] != 0 || LineUsed(es, q) {
      LineUsedSnoc(es, q);
    }
  }

  lemma StepKeeps(es: seq<Entry>, t0: Tables, p: Placed)
    requires es != [] && AllWellFormed(es) && AllSpecified(es) && PlacedOk(es[..|es| - 1], t0, p)
    requires PlaceStep(p, es[|es| - 1]).Ok?
    ensures PlacedOk(es, t0, PlaceStep(p, es[|es| - 1]).value)
  {
    var e := es[|es| - 1];
    if Fixed(e) {
      FixedStep(es, t0, p);
    } else {
      PickIff(p.tables.vectors, e.prio);
      var v := Pick(p.tables.vectors, e.prio).value;
      PickedStep(es, t0, p, v, Assign(p.tables, e, v).value);
    }
  }

  /** Pass 2 succeeds exactly when no class has more requests than free vectors and the interrupt
      lines of its entries are in range, free, and all different. It then gives every entry a free
      vector of its class, no two the same, and leaves the rest alone. */
  lemma {:induction false} PlaceIff(es: seq<Entry>, t0: Tables)
    requires AllWellFormed(es) && AllSpecified(es)
    ensures PlaceAll(es, t0).Ok? <==> Placeable(es, t0)
    ensures PlaceAll(es, t0).Ok? ==> PlacedOk(es, t0, PlaceAll(es, t0).value)
  {
    if es != [] {
      var n := |es| - 1;
      PlaceIff(es[..n], t0);
      PlaceableSnoc(es, t0);
      if PlaceAll(es[..n], t0).Ok? {
        var p := PlaceAll(es[..n], t0).value;
        StepFits(es[..n], t0, p, es[n]);
        if PlaceStep(p, es[n]).Ok? { StepKeeps(es, t0, p); }
      }
    }
  }
}
