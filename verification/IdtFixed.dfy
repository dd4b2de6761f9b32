/** Pass 1 of the vector assignment: which lists it accepts and what it leaves. */
module IdtFixed {
  import opened IdtSpec
  import opened Common

  lemma TakenSnoc(es: seq<Entry>, v: int)
    requires es != []
    ensures TakenBy(es, v) <==> TakenBy(es[..|es| - 1], v) || es[|es| - 1].vec == v
  {
    var n := |es| - 1;
    if TakenBy(es, v) {
      var i :| 0 <= i < |es| && es[i].vec == v;
      if i < n { assert es[..n][i].vec == v; }
    }
    if TakenBy(es[..n], v) {
      var i :| 0 <= i < n && es[..n][i].vec == v;
      assert es[i].vec == v;
    }
  }

  lemma LineSnoc(es: seq<Entry>, q: int)
    requires es != []
    ensures LineOf(es, q) <==> LineOf(es[..|es| - 1], q) || (Shown(es[|es| - 1]) && es[|es| - 1].irq == q)
  {
    var n := |es| - 1;
    if LineOf(es, q) {
      var i :| 0 <= i < |es| && Shown(es[i]) && es[i].irq == q;
      if i < n { assert Shown(es[..n][i]) && es[..n][i].irq == q; }
    }
    if LineOf(es[..n], q) {
      var i :| 0 <= i < n && Shown(es[..n][i]) && es[..n][i].irq == q;
      assert Shown(es[i]) && es[i].irq == q;
    }
  }

  /** What one more entry must meet. */
  ghost predicate Joins(es: seq<Entry>, e: Entry, maxVec: nat, maxIrq: nat) {
    && (e.vec == -1 ==> e.prio != -1)
    && (Fixed(e) ==> e.vec < maxVec && e.irq < maxIrq && !TakenBy(es, e.vec) && (e.irq == -1 || !LineOf(es, e.irq)))
  }

  lemma FixableSnoc(es: seq<Entry>, maxVec: nat, maxIrq: nat)
    requires es != []
    ensures Fixable(es, maxVec, maxIrq) <==>
      Fixable(es[..|es| - 1], maxVec, maxIrq) && Joins(es[..|es| - 1], es[|es| - 1], maxVec, maxIrq)
  {
    var n := |es| - 1;
    var pre, e := es[..n], es[n];
    assert forall i | 0 <= i < n :: pre[i] == es[i];
    if Fixable(pre, maxVec, maxIrq) && Joins(pre, e, maxVec, maxIrq) {
      forall i, j | 0 <= i < j < |es| && Fixed(es[i]) && Fixed(es[j])
        ensures es[i].vec != es[j].vec && MayFollow(es[i], es[j])
      {
        assert pre[i] == es[i];
        if j < n { assert pre[j] == es[j]; }
      }
      forall i | 0 <= i < |es| ensures (es[i].vec == -1 ==> es[i].prio != -1)
          && (Fixed(es[i]) ==> es[i].vec < maxVec && es[i].irq < maxIrq) {
        if i < n { assert pre[i] == es[i]; }
      }
    }
  }

  lemma StepFits(es: seq<Entry>, e: Entry, maxVec: nat, maxIrq: nat, t: Tables)
    requires WellFormed(e) && FixedTables(es, maxVec, maxIrq, t)
    ensures FixStep(t, e).Ok? <==> Joins(es, e, maxVec, maxIrq)
  {
  }

  lemma StepTables(es: seq<Entry>, maxVec: nat, maxIrq: nat, t: Tables)
    requires es != [] && AllWellFormed(es) && FixedTables(es[..|es| - 1], maxVec, maxIrq, t)
    requires FixStep(t, es[|es| - 1]).Ok?
    ensures FixedTables(es, maxVec, maxIrq, FixStep(t, es[|es| - 1]).value)
  {
    var n := |es| - 1;
    var pre, e, r := es[..n], es[n], FixStep(t, es[n]).value;
    forall v | 0 <= v < maxVec ensures r.vectors[v].Some? <==> TakenBy(es, v) {
      TakenSnoc(es, v);
    }
    forall q | 0 <= q < maxIrq ensures r.irqVec[q] != 0 <==> LineOf(es, q) {
      LineSnoc(es, q);
    }
    forall i | 0 <= i < |es| && Fixed(es[i]) ensures 0 <= es[i].vec < maxVec && es[i].irq < maxIrq
        && r.vectors[es[i].vec] == Some(GateOf(es[i])) && (es[i].irq >= 0 && es[i].vec != 0 ==> r.irqVec[es[i].irq] == es[i].vec) {
      if i < n {
        assert pre[i] == es[i];
        assert TakenBy(pre, es[i].vec);
        assert es[i].vec != 0 ==> LineOf(pre, es[i].irq);
      }
    }
  }

  /** Pass 1 succeeds exactly on lists whose fixed entries have vectors and lines in range, no two
      vectors the same and a line repeated only after vector 0, and whose other entries have a priority;
      it then holds exactly their gates. */
  lemma {:induction false} FixIff(es: seq<Entry>, maxVec: nat, maxIrq: nat)
    requires AllWellFormed(es)
    ensures Fix(es, maxVec, maxIrq).Ok? <==> Fixable(es, maxVec, maxIrq)
    ensures Fix(es, maxVec, maxIrq).Ok? ==> FixedTables(es, maxVec, maxIrq, Fix(es, maxVec, maxIrq).value)
  {
    if es != [] {
      var n := |es| - 1;
      FixIff(es[..n], maxVec, maxIrq);
      FixableSnoc(es, maxVec, maxIrq);
      if Fix(es[..n], maxVec, maxIrq).Ok? {
        var t := Fix(es[..n], maxVec, maxIrq).value;
        StepFits(es[..n], es[n], maxVec, maxIrq, t);
        if FixStep(t, es[n]).Ok? { StepTables(es, maxVec, maxIrq, t); }
      }
    }
  }
}
