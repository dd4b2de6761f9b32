/** The whole vector assignment, and exactly which interrupt lists it accepts. */
module Idt {
  import opened IdtSpec
  import opened IdtFixed
  import opened IdtPlaced
  import opened Common

  /** Vectors of a range, below the size of the table, that no entry is fixed to. */
  ghost function Untaken(es: seq<Entry>, maxVec: nat, lo: nat, hi: nat): (n: nat)
    requires lo <= hi
    decreases hi - lo
  {
    if lo == hi then 0
    else Untaken(es, maxVec, lo, hi - 1) + if hi - 1 < maxVec && !TakenBy(es, hi - 1) then 1 else 0
  }

  /** Entry `i` is assigned before entry `j`: fixed entries first, each kind in list order. */
  predicate Precedes(es: seq<Entry>, i: int, j: int)
    requires 0 <= i < |es| && 0 <= j < |es|
  {
    if Fixed(es[i]) == Fixed(es[j]) then i < j else Fixed(es[i])
  }

  /** A line is repeated only after an entry on vector 0. */
  ghost predicate InOrder(es: seq<Entry>) {
    forall i, j | 0 <= i < |es| && 0 <= j < |es| && Precedes(es, i, j) :: MayFollow(es[i], es[j])
  }

  /** The lists that are served: every entry names a vector or a priority; vectors and interrupt lines
      are in range; no vector is fixed twice; a line is repeated only after an entry on vector 0; and no
      priority class is asked for more vectors than the fixed entries leave it. */
  ghost predicate Acceptable(es: seq<Entry>, maxVec: nat, maxIrq: nat) {
    && (forall i | 0 <= i < |es| :: (Fixed(es[i]) || es[i].prio != -1) && es[i].vec < maxVec && es[i].irq < maxIrq)
    && (forall i, j | 0 <= i < j < |es| :: !Fixed(es[i]) || es[i].vec != es[j].vec)
    && InOrder(es)
    && (forall c: nat :: Requests(es, c) <= Untaken(es, maxVec, ClassBase(c), ClassBase(c) + 16))
  }

  /** A finished assignment: every entry has a vector of its own, the one it asked for or one of its
      class, with its gate there and its line mapped to it unless the vector is 0; all other vectors are
      spurious, and a mapped line leads to an entry that asked for it. */
  ghost predicate Assigned(es: seq<Entry>, withCode: nat, without: nat, vectors: seq<Gate>, irqVec: seq<nat>, vecs: seq<int>) {
    && |vecs| == |es|
    && (forall i | 0 <= i < |es| ::
          && (if Fixed(es[i]) then vecs[i] == es[i].vec else InClass(vecs[i], es[i].prio))
          && 0 <= vecs[i] < |vectors| && vectors[vecs[i]] == GateOf(es[i])
          && es[i].irq < |irqVec| && (es[i].irq >= 0 && vecs[i] != 0 ==> irqVec[es[i].irq] == vecs[i]))
    && (forall i, j | 0 <= i < j < |es| :: vecs[i] != vecs[j])
    && (forall v: nat | v < |vectors| && v !in vecs :: vectors[v] == Spurious(v, withCode, without))
    && (forall q: nat | q < |irqVec| && irqVec[q] != 0 :: exists i :: 0 <= i < |es| && es[i].irq == q && vecs[i] == irqVec[q])
  }

  /** The map gives every entry's line the entry's vector, in a way that does not read as "unmapped". */
  ghost predicate MapAgrees(es: seq<Entry>, irqVec: seq<nat>, vecs: seq<int>)
    requires |vecs| == |es|
  {
    forall i | 0 <= i < |es| && es[i].irq >= 0 :: es[i].irq < |irqVec| && irqVec[es[i].irq] == vecs[i] != 0
  }

  /** No entry ties its line to vector 0. */
  ghost predicate LinesOffZero(es: seq<Entry>) {
    forall i | 0 <= i < |es| :: es[i].irq == -1 || es[i].vec != 0
  }

  /** An assignment's map agrees with every entry exactly when none ties its line to vector 0. */
  lemma MapAgreesIff(es: seq<Entry>, withCode: nat, without: nat, vectors: seq<Gate>, irqVec: seq<nat>, vecs: seq<int>)
    requires AllWellFormed(es) && Assigned(es, withCode, without, vectors, irqVec, vecs)
    ensures MapAgrees(es, irqVec, vecs) <==> LinesOffZero(es)
  {
    if LinesOffZero(es) {
      forall i | 0 <= i < |es| && es[i].irq >= 0 ensures irqVec[es[i].irq] == vecs[i] != 0 {
        assert !Fixed(es[i]) ==> InClass(vecs[i], es[i].prio);
      }
    } else {
      var i :| 0 <= i < |es| && es[i].irq != -1 && es[i].vec == 0;
      assert vecs[i] == 0;
    }
  }

  /** When two entries of an accepted list share a line, one of them is on vector 0, and the map leads
      to the other. */
  lemma SharedLine(es: seq<Entry>, maxVec: nat, maxIrq: nat, withCode: nat, without: nat,
                   vectors: seq<Gate>, irqVec: seq<nat>, vecs: seq<int>, i: nat, j: nat)
    requires AllWellFormed(es) && Acceptable(es, maxVec, maxIrq) && Assigned(es, withCode, without, vectors, irqVec, vecs)
    requires i < |es| && j < |es| && i != j && es[i].irq == es[j].irq >= 0
    ensures (vecs[i] == 0 && irqVec[es[i].irq] == vecs[j] != 0) || (vecs[j] == 0 && irqVec[es[i].irq] == vecs[i] != 0)
  {
    assert Precedes(es, i, j) || Precedes(es, j, i);
    assert vecs[i] != vecs[j];
  }

  /** Line 3 is given to vector 0 and then to vector 40. */
  ghost predicate TwiceOnLine3(es: seq<Entry>) {
    |es| == 2 && es[0] == Entry(1, 3, -1, 0, 0, 0) && es[1] == Entry(2, 3, -1, 40, 0, 0)
  }

  lemma SharedLineIsAccepted(es: seq<Entry>)
    requires TwiceOnLine3(es)
    ensures AllWellFormed(es) && Acceptable(es, 64, 8)
  {
    forall c: nat ensures Requests(es, c) == 0 {
      NoRequests(es, c);
    }
  }

  /** ... and the first assignment is lost. */
  lemma FirstLineIsLost(es: seq<Entry>, withCode: nat, without: nat, vectors: seq<Gate>, irqVec: seq<nat>, vecs: seq<int>)
    requires TwiceOnLine3(es) && Assigned(es, withCode, without, vectors, irqVec, vecs)
    ensures vecs[0] == 0 && irqVec[3] == 40
  {
    assert Fixed(es[0]) && Fixed(es[1]);
  }

  /** One entry on line 3 and vector 0 is accepted, and its line stays unmapped. */
  lemma SingleLineIsLost(es: seq<Entry>)
    requires |es| == 1 && es[0] == Entry(1, 3, -1, 0, 0, 0)
    ensures AllWellFormed(es) && Acceptable(es, 64, 8)
    ensures forall withCode, without, vectors, irqVec, vecs | Assigned(es, withCode, without, vectors, irqVec, vecs) ::
      irqVec[3] == 0
  {
    forall c: nat ensures Requests(es, c) == 0 {
      NoRequests(es, c);
    }
    forall withCode, without, vectors, irqVec, vecs | Assigned(es, withCode, without, vectors, irqVec, vecs)
      ensures irqVec[3] == 0
    {
      OnlyLine(es, withCode, without, vectors, irqVec, vecs);
    }
  }

  lemma OnlyLine(es: seq<Entry>, withCode: nat, without: nat, vectors: seq<Gate>, irqVec: seq<nat>, vecs: seq<int>)
    requires |es| == 1 && es[0] == Entry(1, 3, -1, 0, 0, 0) && Assigned(es, withCode, without, vectors, irqVec, vecs)
    ensures irqVec[3] == 0
  {
    assert Fixed(es[0]) && vecs[0] == 0;
    if irqVec[3] != 0 {
      var i :| 0 <= i < |es| && es[i].irq == 3 && vecs[i] == irqVec[3];
      assert false;
    }
  }

  lemma {:induction false} NoRequests(es: seq<Entry>, c: int)
    requires forall i | 0 <= i < |es| :: Fixed(es[i])
    ensures Requests(es, c) == 0
  {
    if es != [] { NoRequests(es[..|es| - 1], c); }
  }

  lemma {:induction false} FreeIsUntaken(es: seq<Entry>, maxVec: nat, maxIrq: nat, t: Tables, lo: nat, hi: nat)
    requires FixedTables(es, maxVec, maxIrq, t) && lo <= hi
    ensures FreeIn(t.vectors, lo, hi) == Untaken(es, maxVec, lo, hi)
    decreases hi - lo
  {
    if lo < hi { FreeIsUntaken(es, maxVec, maxIrq, t, lo, hi - 1); }
  }

  /** Fixed and placed lines together. */
  lemma LinesIff(es: seq<Entry>, maxVec: nat, maxIrq: nat, t: Tables)
    requires AllWellFormed(es) && Fixable(es, maxVec, maxIrq) && FixedTables(es, maxVec, maxIrq, t)
    ensures (forall i | 0 <= i < |es| && !Fixed(es[i]) :: LineFree(t, es[i].irq)) <==>
      && (forall i | 0 <= i < |es| && !Fixed(es[i]) :: es[i].irq < maxIrq)
      && (forall i, j | 0 <= i < |es| && 0 <= j < |es| && !Fixed(es[i]) && Fixed(es[j]) :: MayFollow(es[j], es[i]))
  {
    forall i | 0 <= i < |es| && !Fixed(es[i]) && LineFree(t, es[i].irq)
      ensures es[i].irq < maxIrq && !(es[i].irq != -1 && LineOf(es, es[i].irq)) {}
    if (forall i | 0 <= i < |es| && !Fixed(es[i]) :: es[i].irq < maxIrq)
      && (forall i, j | 0 <= i < |es| && 0 <= j < |es| && !Fixed(es[i]) && Fixed(es[j]) :: MayFollow(es[j], es[i]))
    {
      forall i | 0 <= i < |es| && !Fixed(es[i]) ensures LineFree(t, es[i].irq) {
        assert es[i].irq == -1 || !LineOf(es, es[i].irq);
      }
    }
  }

  /** Which entries may follow which, by kind. */
  lemma OrderIff(es: seq<Entry>)
    ensures InOrder(es) <==>
      && (forall i, j | 0 <= i < j < |es| && Fixed(es[i]) && Fixed(es[j]) :: MayFollow(es[i], es[j]))
      && (forall i, j | 0 <= i < |es| && 0 <= j < |es| && !Fixed(es[i]) && Fixed(es[j]) :: MayFollow(es[j], es[i]))
      && (forall i, j | 0 <= i < j < |es| && !Fixed(es[i]) && !Fixed(es[j]) :: es[i].irq == -1 || es[i].irq != es[j].irq)
  {
    if InOrder(es) {
      forall i, j | 0 <= i < j < |es| && Fixed(es[i]) && Fixed(es[j]) ensures MayFollow(es[i], es[j]) {
        assert Precedes(es, i, j);
      }
      forall i, j | 0 <= i < j < |es| && !Fixed(es[i]) && !Fixed(es[j]) ensures es[i].irq == -1 || es[i].irq != es[j].irq {
        assert Precedes(es, i, j);
      }
      forall i, j | 0 <= i < |es| && 0 <= j < |es| && !Fixed(es[i]) && Fixed(es[j]) ensures MayFollow(es[j], es[i]) {
        assert Precedes(es, j, i);
      }
    }
  }

  lemma AcceptableIff(es: seq<Entry>, maxVec: nat, maxIrq: nat, t: Tables)
    requires AllWellFormed(es) && Fixable(es, maxVec, maxIrq) && FixedTables(es, maxVec, maxIrq, t)
    ensures Placeable(es, t) <==> Acceptable(es, maxVec, maxIrq)
  {
    forall c: nat ensures FreeFor(t.vectors, c) == Untaken(es, maxVec, ClassBase(c), ClassBase(c) + 16) {
      FreeIsUntaken(es, maxVec, maxIrq, t, ClassBase(c), ClassBase(c) + 16);
    }
    LinesIff(es, maxVec, maxIrq, t);
    OrderIff(es);
  }

  lemma AcceptableIsFixable(es: seq<Entry>, maxVec: nat, maxIrq: nat)
    requires AllWellFormed(es) && Acceptable(es, maxVec, maxIrq)
    ensures Fixable(es, maxVec, maxIrq)
  {
    OrderIff(es);
  }

  function Filled(vectors: seq<Option<Gate>>, withCode: nat, without: nat): (r: seq<Gate>)
    ensures |r| == |vectors|
    ensures forall v | 0 <= v < |r| ::
      r[v] == if vectors[v].Some? then vectors[v].value else Spurious(v, withCode, without)
  {
    seq(|vectors|, v requires 0 <= v < |vectors| =>
      if vectors[v].Some? then vectors[v].value else Spurious(v, withCode, without))
  }

  lemma AssignedFrom(es: seq<Entry>, maxVec: nat, maxIrq: nat, t: Tables, p: Placed, withCode: nat, without: nat)
    requires AllWellFormed(es) && Fixable(es, maxVec, maxIrq) && FixedTables(es, maxVec, maxIrq, t) && PlacedOk(es, t, p)
    ensures Assigned(es, withCode, without, Filled(p.tables.vectors, withCode, without), p.tables.irqVec, p.vecs)
  {
    var vectors, vecs := Filled(p.tables.vectors, withCode, without), p.vecs;
    forall i | 0 <= i < |es| ensures
        && (if Fixed(es[i]) then vecs[i] == es[i].vec else InClass(vecs[i], es[i].prio))
        && 0 <= vecs[i] < |vectors| && vectors[vecs[i]] == GateOf(es[i])
        && es[i].irq < maxIrq && (es[i].irq >= 0 && vecs[i] != 0 ==> p.tables.irqVec[es[i].irq] == vecs[i])
    {
      if !Fixed(es[i]) { assert PickedFor(es, p, t, i); }
    }
    forall q: nat | q < maxIrq && p.tables.irqVec[q] != 0
      ensures exists i :: 0 <= i < |es| && es[i].irq == q && vecs[i] == p.tables.irqVec[q]
    {
      MappedBy(es, maxVec, maxIrq, t, p, q);
    }
    VecsDistinct(es, maxVec, maxIrq, t, p);
    forall v: nat ensures TakenBy(es, v) || VecUsed(es, p, v) ==> v in vecs {
      if TakenBy(es, v) {
        var i :| 0 <= i < |es| && es[i].vec == v;
        assert vecs[i] == v;
      }
    }
  }

  lemma MappedBy(es: seq<Entry>, maxVec: nat, maxIrq: nat, t: Tables, p: Placed, q: nat)
    requires AllWellFormed(es) && FixedTables(es, maxVec, maxIrq, t) && PlacedOk(es, t, p)
    requires q < maxIrq && p.tables.irqVec[q] != 0
    ensures exists i :: 0 <= i < |es| && es[i].irq == q && p.vecs[i] == p.tables.irqVec[q]
  {
    if t.irqVec[q] != 0 {
      var i :| 0 <= i < |es| && Shown(es[i]) && es[i].irq == q;
      assert p.vecs[i] == es[i].vec;
    } else {
      var i :| 0 <= i < |es| && !Fixed(es[i]) && es[i].irq == q;
      assert PickedFor(es, p, t, i);
    }
  }

  lemma VecsDistinct(es: seq<Entry>, maxVec: nat, maxIrq: nat, t: Tables, p: Placed)
    requires AllWellFormed(es) && Fixable(es, maxVec, maxIrq) && FixedTables(es, maxVec, maxIrq, t) && PlacedOk(es, t, p)
    ensures forall i, j | 0 <= i < j < |es| :: p.vecs[i] != p.vecs[j]
  {
    forall i, j | 0 <= i < j < |es| ensures p.vecs[i] != p.vecs[j] {
      if !Fixed(es[i]) { assert PickedFor(es, p, t, i); }
      if !Fixed(es[j]) { assert PickedFor(es, p, t, j); }
    }
  }

  // ---- the program

  datatype Output = Output(vectors: seq<Gate>, irqVec: seq<nat>)

  /** Storing a gate with `update_irq_vec_map`: refused exactly for a line out of range or mapped; on a
      free vector it takes nothing back that was assigned before, and uses no other vector or line. */
  method AssignVector(t: Tables, e: Entry, v: nat) returns (r: Result<Tables>)
    requires WellFormed(e) && v < |t.vectors|
    ensures r == Assign(t, e, v)
    ensures r.Ok? <==> LineFree(t, e.irq)
    ensures r.Err? ==> (r.error == IrqTooBig <==> e.irq >= |t.irqVec|) && (r.error == IrqTaken <==> e.irq < |t.irqVec|)
    ensures r.Ok? && t.vectors[v].None? ==> Kept(t, r.value)
    ensures r.Ok? ==> r.value.vectors[v] == Some(GateOf(e)) && (e.irq >= 0 ==> r.value.irqVec[e.irq] == v)
    ensures r.Ok? ==> forall u | 0 <= u < |t.vectors| && t.vectors[u].None? && u != v :: r.value.vectors[u].None?
    ensures r.Ok? ==> forall q | 0 <= q < |t.irqVec| && t.irqVec[q] == 0 && q != e.irq :: r.value.irqVec[q] == 0
  {
    var vectors := t.vectors[v := Some(GateOf(e))];
    if e.irq == -1 {
      return Ok(t.(vectors := vectors));
    }
    if e.irq >= |t.irqVec| {
      return Err(IrqTooBig);
    }
    if t.irqVec[e.irq] != 0 {
      return Err(IrqTaken);
    }
    return Ok(Tables(vectors, t.irqVec[e.irq := v]));
  }

  method PassOne(es: seq<Entry>, maxVec: nat, maxIrq: nat) returns (r: Result<Tables>)
    requires AllWellFormed(es)
    ensures r == Fix(es, maxVec, maxIrq)
  {
    var t := Start(maxVec, maxIrq);
    var i := 0;
    while i < |es|
      invariant 0 <= i <= |es| && Fix(es[..i], maxVec, maxIrq) == Ok(t)
    {
      var e := es[i];
      assert es[..i + 1][..i] == es[..i];
      assert Fix(es[..i + 1], maxVec, maxIrq) == FixStep(t, e);
      FixSize(es[..i], maxVec, maxIrq);
      if e.vec == -1 {
        if e.prio == -1 {
          FixFails(es, i + 1, maxVec, maxIrq);
          return Err(NoVectorOrPriority);
        }
      } else if e.vec >= maxVec {
        FixFails(es, i + 1, maxVec, maxIrq);
        return Err(VectorTooBig);
      } else if t.vectors[e.vec].Some? {
        FixFails(es, i + 1, maxVec, maxIrq);
        return Err(VectorTaken);
      } else {
        var next := AssignVector(t, e, e.vec);
        if next.Err? {
          FixFails(es, i + 1, maxVec, maxIrq);
          return Err(next.error);
        }
        t := next.value;
      }
      i := i + 1;
    }
    assert es[..i] == es;
    return Ok(t);
  }

  lemma {:induction false} FixSize(es: seq<Entry>, maxVec: nat, maxIrq: nat)
    requires AllWellFormed(es) && Fix(es, maxVec, maxIrq).Ok?
    ensures |Fix(es, maxVec, maxIrq).value.vectors| == maxVec && |Fix(es, maxVec, maxIrq).value.irqVec| == maxIrq
  {
    if es != [] { FixSize(es[..|es| - 1], maxVec, maxIrq); }
  }

  lemma {:induction false} FixFails(es: seq<Entry>, n: nat, maxVec: nat, maxIrq: nat)
    requires AllWellFormed(es) && n <= |es| && Fix(es[..n], maxVec, maxIrq).Err?
    ensures Fix(es, maxVec, maxIrq) == Fix(es[..n], maxVec, maxIrq)
    decreases |es| - n
  {
    if n == |es| {
      assert es[..n] == es;
    } else {
      assert es[..n + 1][..n] == es[..n];
      FixFails(es, n + 1, maxVec, maxIrq);
    }
  }

  /** The search of a priority class for a free vector. */
  method FindVector(vectors: seq<Option<Gate>>, prio: nat) returns (r: Option<nat>)
    ensures r == Pick(vectors, prio)
  {
    var v, end := ClassBase(prio), ClassBase(prio) + 16;
    while v < end
      invariant ClassBase(prio) <= v <= end
      invariant FirstFree(vectors, ClassBase(prio), end) == FirstFree(vectors, v, end)
    {
      if v >= |vectors| {
        return None;
      }
      if vectors[v].None? {
        return Some(v);
      }
      v := v + 1;
    }
    return None;
  }

  method PassTwo(es: seq<Entry>, t0: Tables) returns (r: Result<Placed>)
    requires AllWellFormed(es) && AllSpecified(es)
    ensures r == PlaceAll(es, t0)
  {
    var p := Placed(t0, []);
    var i := 0;
    while i < |es|
      invariant 0 <= i <= |es| && PlaceAll(es[..i], t0) == Ok(p)
    {
      var e := es[i];
      assert es[..i + 1][..i] == es[..i];
      assert PlaceAll(es[..i + 1], t0) == PlaceStep(p, e);
      if e.vec != -1 {
        p := p.(vecs := p.vecs + [e.vec]);
      } else {
        var v := FindVector(p.tables.vectors, e.prio);
        if v.None? {
          PlaceFails(es, i + 1, t0);
          return Err(NoFreeVector);
        }
        var next := AssignVector(p.tables, e, v.value);
        if next.Err? {
          PlaceFails(es, i + 1, t0);
          return Err(next.error);
        }
        p := Placed(next.value, p.vecs + [v.value]);
      }
      i := i + 1;
    }
    assert es[..i] == es;
    return Ok(p);
  }

  lemma {:induction false} PlaceFails(es: seq<Entry>, n: nat, t0: Tables)
    requires AllWellFormed(es) && AllSpecified(es) && n <= |es| && PlaceAll(es[..n], t0).Err?
    ensures PlaceAll(es, t0) == PlaceAll(es[..n], t0)
    decreases |es| - n
  {
    if n == |es| {
      assert es[..n] == es;
    } else {
      assert es[..n + 1][..n] == es[..n];
      PlaceFails(es, n + 1, t0);
    }
  }

  method PassThree(vectors: seq<Option<Gate>>, withCode: nat, without: nat) returns (r: seq<Gate>)
    ensures r == Filled(vectors, withCode, without)
  {
    r := [];
    var i := 0;
    while i < |vectors|
      invariant 0 <= i <= |vectors| && r == Filled(vectors, withCode, without)[..i]
    {
      if vectors[i].Some? {
        r := r + [vectors[i].value];
      } else {
        var handler := if i in ERR_CODE_VECTORS then withCode else without;
        r := r + [Gate(handler, 0, 0)];
      }
      i := i + 1;
    }
  }

  /** `setup_idt`: it succeeds exactly on acceptable lists, and then the assignment is right, and its map
      too exactly when no line is tied to vector 0. */
  method SetupIdt(withCode: nat, without: nat, es: seq<Entry>, maxVec: nat, maxIrq: nat)
    returns (r: Result<Output>, ghost vecs: seq<int>)
    requires AllWellFormed(es)
    ensures r.Ok? <==> Acceptable(es, maxVec, maxIrq)
    ensures r.Ok? ==> |r.value.vectors| == maxVec && |r.value.irqVec| == maxIrq
    ensures r.Ok? ==> Assigned(es, withCode, without, r.value.vectors, r.value.irqVec, vecs)
    ensures r.Ok? ==> (MapAgrees(es, r.value.irqVec, vecs) <==> LinesOffZero(es))
  {
    vecs := [];
    FixIff(es, maxVec, maxIrq);
    var one := PassOne(es, maxVec, maxIrq);
    if one.Err? {
      if Acceptable(es, maxVec, maxIrq) { AcceptableIsFixable(es, maxVec, maxIrq); }
      return Err(one.error), [];
    }
    PlaceIff(es, one.value);
    AcceptableIff(es, maxVec, maxIrq, one.value);
    var two := PassTwo(es, one.value);
    if two.Err? {
      return Err(two.error), [];
    }
    AssignedFrom(es, maxVec, maxIrq, one.value, two.value, withCode, without);
    var gates := PassThree(two.value.tables.vectors, withCode, without);
    MapAgreesIff(es, withCode, without, gates, two.value.tables.irqVec, two.value.vecs);
    return Ok(Output(gates, two.value.tables.irqVec)), two.value.vecs;
  }
}
