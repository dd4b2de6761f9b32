/** Assigning interrupt vectors: fixed ones first, then by priority class, then spurious handlers. */
module IdtSpec {
  import opened Common

  datatype Error = NoVectorOrPriority | VectorTooBig | VectorTaken | IrqTooBig | IrqTaken | NoFreeVector

  datatype Result<T> = Ok(value: T) | Err(error: Error)

  /** An interrupt list entry; -1 stands for no irq, no priority and no fixed vector. */
  datatype Entry = Entry(handler: nat, irq: int, prio: int, vec: int, dpl: nat, tss: nat)

  datatype Gate = Gate(handler: nat, tss: nat, dpl: nat)

  /** Fields are -1 or not negative. */
  predicate WellFormed(e: Entry) {
    e.irq >= -1 && e.prio >= -1 && e.vec >= -1
  }

  /** The tables while they are being filled: gates by vector, and vectors by irq (0 for none). */
  datatype Tables = Tables(vectors: seq<Option<Gate>>, irqVec: seq<nat>)

  function GateOf(e: Entry): (g: Gate) { Gate(e.handler, e.tss, e.dpl) }

  function Start(maxVec: nat, maxIrq: nat): (t: Tables) {
    Tables(seq(maxVec, _ => None), seq(maxIrq, _ => 0))
  }

  /** Store a gate, then `update_irq_vec_map`. */
  function Assign(t: Tables, e: Entry, v: nat): (r: Result<Tables>)
    requires WellFormed(e) && v < |t.vectors|
  {
    var vectors := t.vectors[v := Some(GateOf(e))];
    if e.irq == -1 then Ok(t.(vectors := vectors))
    else if e.irq >= |t.irqVec| then Err(IrqTooBig)
    else if t.irqVec[e.irq] != 0 then Err(IrqTaken)
    else Ok(Tables(vectors, t.irqVec[e.irq := v]))
  }

  // ---- pass 1: fixed vectors

  function FixStep(t: Tables, e: Entry): (r: Result<Tables>)
    requires WellFormed(e)
  {
    if e.vec == -1 then (if e.prio == -1 then Err(NoVectorOrPriority) else Ok(t))
    else if e.vec >= |t.vectors| then Err(VectorTooBig)
    else if t.vectors[e.vec].Some? then Err(VectorTaken)
    else Assign(t, e, e.vec)
  }

  ghost predicate AllWellFormed(es: seq<Entry>) {
    forall i | 0 <= i < |es| :: WellFormed(es[i])
  }

  function Fix(es: seq<Entry>, maxVec: nat, maxIrq: nat): (r: Result<Tables>)
    requires AllWellFormed(es)
  {
    if es == [] then Ok(Start(maxVec, maxIrq))
    else
      match Fix(es[..|es| - 1], maxVec, maxIrq)
      case Err(x) => Err(x)
      case Ok(t) => FixStep(t, es[|es| - 1])
  }

  // ---- pass 2: priority classes

  function ClassBase(prio: nat): (b: nat) { 32 + prio * 16 }

  predicate InClass(v: int, prio: int) {
    prio >= 0 && ClassBase(prio) <= v < ClassBase(prio) + 16
  }

  /** The first free vector from `v` on below `end`, or `end`. */
  function FirstFree(vectors: seq<Option<Gate>>, v: nat, end: nat): (r: nat)
    requires v <= end
    ensures v <= r <= end && (r > v ==> r <= |vectors|)
    ensures forall u | v <= u < r :: vectors[u].Some?
    ensures r < end && r < |vectors| ==> vectors[r].None?
    decreases end - v
  {
    if v == end || v >= |vectors| || vectors[v].None? then v else FirstFree(vectors, v + 1, end)
  }

  /** The vector for an entry with a priority, if its class still has one. */
  function Pick(vectors: seq<Option<Gate>>, prio: nat): (r: Option<nat>) {
    var v := FirstFree(vectors, ClassBase(prio), ClassBase(prio) + 16);
    if v < ClassBase(prio) + 16 && v < |vectors| then Some(v) else None
  }

  datatype Placed = Placed(tables: Tables, vecs: seq<int>)

  function PlaceStep(p: Placed, e: Entry): (r: Result<Placed>)
    requires WellFormed(e) && (e.vec == -1 ==> e.prio != -1)
  {
    if e.vec != -1 then Ok(p.(vecs := p.vecs + [e.vec]))
    else
      match Pick(p.tables.vectors, e.prio)
      case None => Err(NoFreeVector)
      case Some(v) =>
        match Assign(p.tables, e, v)
        case Err(x) => Err(x)
        case Ok(t) => Ok(Placed(t, p.vecs + [v]))
  }

  ghost predicate AllSpecified(es: seq<Entry>) {
    forall i | 0 <= i < |es| :: es[i].vec == -1 ==> es[i].prio != -1
  }

  function PlaceAll(es: seq<Entry>, t: Tables): (r: Result<Placed>)
    requires AllWellFormed(es) && AllSpecified(es)
  {
    if es == [] then Ok(Placed(t, []))
    else
      match PlaceAll(es[..|es| - 1], t)
      case Err(x) => Err(x)
      case Ok(p) => PlaceStep(p, es[|es| - 1])
  }

  // ---- pass 3: spurious handlers

  const ERR_CODE_VECTORS := [8, 10, 11, 12, 13, 14, 17]

  function Spurious(v: nat, withCode: nat, without: nat): (g: Gate) {
    Gate(if v in ERR_CODE_VECTORS then withCode else without, 0, 0)
  }

  // ---- what pass 1 does

  /** Entry `i` has a fixed vector. */
  predicate Fixed(e: Entry) { e.vec != -1 }

  ghost predicate TakenBy(es: seq<Entry>, v: int) {
    exists i :: 0 <= i < |es| && es[i].vec == v
  }

  /** An entry that the map shows: 0 in the map means that the line is unmapped. */
  predicate Shown(e: Entry) { Fixed(e) && e.vec != 0 }

  ghost predicate LineOf(es: seq<Entry>, q: int) {
    exists i :: 0 <= i < |es| && Shown(es[i]) && es[i].irq == q
  }

  /** Whether `f` is let through after `e`: it has another line, or the map does not show the line of
      `e`, which is on vector 0. */
  predicate MayFollow(e: Entry, f: Entry) {
    e.irq == -1 || e.irq != f.irq || e.vec == 0
  }

  /** What pass 1 accepts. */
  ghost predicate Fixable(es: seq<Entry>, maxVec: nat, maxIrq: nat) {
    && AllSpecified(es)
    && (forall i | 0 <= i < |es| && Fixed(es[i]) :: es[i].vec < maxVec && es[i].irq < maxIrq)
    && (forall i, j | 0 <= i < j < |es| && Fixed(es[i]) && Fixed(es[j]) ::
          es[i].vec != es[j].vec && MayFollow(es[i], es[j]))
  }

  /** What pass 1 leaves: the fixed gates, and nothing else. */
  ghost predicate FixedTables(es: seq<Entry>, maxVec: nat, maxIrq: nat, t: Tables) {
    && |t.vectors| == maxVec && |t.irqVec| == maxIrq
    && (forall v | 0 <= v < maxVec :: t.vectors[v].Some? <==> TakenBy(es, v))
    && (forall q | 0 <= q < maxIrq :: t.irqVec[q] != 0 <==> LineOf(es, q))
    && (forall i | 0 <= i < |es| && Fixed(es[i]) :: 0 <= es[i].vec < maxVec && es[i].irq < maxIrq
          && t.vectors[es[i].vec] == Some(GateOf(es[i])) && (es[i].irq >= 0 && es[i].vec != 0 ==> t.irqVec[es[i].irq] == es[i].vec))
  }
}
