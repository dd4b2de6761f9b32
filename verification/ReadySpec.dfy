/** The ready queue as one line of threads, best priority first and first come first served among
    equals, and how per-priority lists represent it. */
module ReadySpec {
  import opened WaitQueue

  type Line = seq<Waiter<()>>

  /** Taking a thread out of the line. */
  function Drop(line: Line, t: nat): (r: Line) {
    if line == [] then [] else if line[0].thread == t then line[1..] else [line[0]] + Drop(line[1..], t)
  }

  /** The list of one priority without a thread. */
  function Unlink(list: seq<nat>, t: nat): (r: seq<nat>) {
    if list == [] then [] else if list[0] == t then list[1..] else [list[0]] + Unlink(list[1..], t)
  }

  function Tag(list: seq<nat>, prio: int): (r: Line)
    ensures |r| == |list|
    ensures forall i | 0 <= i < |r| :: r[i] == Waiter(list[i], prio, ())
  {
    seq(|list|, i requires 0 <= i < |list| => Waiter(list[i], prio, ()))
  }

  /** The line that lists for the priorities from `prio` on stand for. */
  function Flatten(q: seq<seq<nat>>, prio: int): (r: Line) {
    if q == [] then [] else Tag(q[0], prio) + Flatten(q[1..], prio + 1)
  }

  predicate Apart(line: Line, i: nat, j: nat)
    requires i < |line| && j < |line|
  {
    line[i].thread != line[j].thread
  }

  /** No thread is in the line twice. */
  ghost predicate Distinct(line: Line) {
    forall i: nat, j: nat | i < j < |line| :: Apart(line, i, j)
  }

  predicate Has(line: Line, t: nat) {
    exists i :: 0 <= i < |line| && line[i].thread == t
  }

  // ---- lists and line

  lemma {:induction false} FlattenAppend(a: seq<seq<nat>>, b: seq<seq<nat>>, prio: int)
    ensures Flatten(a + b, prio) == Flatten(a, prio) + Flatten(b, prio + |a|)
  {
    if a == [] {
      assert a + b == b;
    } else {
      assert (a + b)[1..] == a[1..] + b && (a + b)[0] == a[0];
      FlattenAppend(a[1..], b, prio + 1);
    }
  }

  /** The line around the list of one priority. */
  lemma {:induction false} FlattenAt(q: seq<seq<nat>>, prio: int, i: nat, list: seq<nat>)
    requires i < |q|
    ensures Flatten(q[i := list], prio)
         == Flatten(q[..i], prio) + Tag(list, prio + i) + Flatten(q[i + 1..], prio + i + 1)
  {
    var a, b := q[..i], q[i + 1..];
    assert q[i := list] == a + ([list] + b);
    FlattenAppend(a, [list] + b, prio);
    assert ([list] + b)[1..] == b;
    assert Flatten(a, prio) + (Tag(list, prio + i) + Flatten(b, prio + i + 1))
        == Flatten(a, prio) + Tag(list, prio + i) + Flatten(b, prio + i + 1);
  }

  lemma {:induction false} FlattenPrios(q: seq<seq<nat>>, prio: int)
    ensures forall k | 0 <= k < |Flatten(q, prio)| :: prio <= Flatten(q, prio)[k].prio < prio + |q|
  {
    if q != [] { FlattenPrios(q[1..], prio + 1); }
  }

  lemma {:induction false} PlaceBetween(a: Line, b: Line, w: Waiter<()>)
    requires forall i | 0 <= i < |a| :: a[i].prio <= w.prio
    requires b != [] ==> w.prio < b[0].prio
    ensures Place(a + b, w) == |a| && Insert(a + b, w) == a + [w] + b
  {
    if a == [] {
      assert a + b == b;
    } else {
      assert (a + b)[1..] == a[1..] + b && (a + b)[0] == a[0];
      PlaceBetween(a[1..], b, w);
    }
    assert (a + b)[..|a|] == a && (a + b)[|a|..] == b;
  }

  /** Appending to the list of a priority is queueing behind its equals. */
  lemma AppendIsInsert(q: seq<seq<nat>>, prio: int, i: nat, w: Waiter<()>)
    requires i < |q| && w.prio == prio + i
    ensures Flatten(q[i := q[i] + [w.thread]], prio) == Insert(Flatten(q, prio), w)
  {
    var a, m, b := Flatten(q[..i], prio), Tag(q[i], w.prio), Flatten(q[i + 1..], prio + i + 1);
    FlattenAt(q, prio, i, q[i] + [w.thread]);
    FlattenAt(q, prio, i, q[i]);
    assert q[i := q[i]] == q;
    FlattenPrios(q[..i], prio);
    FlattenPrios(q[i + 1..], prio + i + 1);
    TagAppend(q[i], w);
    QueuedBehind(a, m, b, w);
  }

  lemma TagAppend(list: seq<nat>, w: Waiter<()>)
    ensures Tag(list + [w.thread], w.prio) == Tag(list, w.prio) + [w]
    ensures forall k | 0 <= k < |Tag(list, w.prio)| :: Tag(list, w.prio)[k].prio == w.prio
  {
    assert w.data == ();
  }

  lemma QueuedBehind(a: Line, m: Line, b: Line, w: Waiter<()>)
    requires forall k | 0 <= k < |a| :: a[k].prio <= w.prio
    requires forall k | 0 <= k < |m| :: m[k].prio == w.prio
    requires b != [] ==> w.prio < b[0].prio
    ensures a + (m + [w]) + b == Insert(a + m + b, w)
  {
    PlaceBetween(a + m, b, w);
    assert a + (m + [w]) == a + m + [w];
  }

  lemma {:induction false} HasTail(a: Line, t: nat)
    requires a != []
    ensures Has(a, t) <==> a[0].thread == t || Has(a[1..], t)
  {
    if Has(a, t) {
      var i :| 0 <= i < |a| && a[i].thread == t;
      if i > 0 { assert a[1..][i - 1].thread == t; }
    }
    if Has(a[1..], t) {
      var i :| 0 <= i < |a[1..]| && a[1..][i].thread == t;
      assert a[i + 1].thread == t;
    }
  }

  lemma {:induction false} DropAppend(a: Line, b: Line, t: nat)
    ensures Has(a, t) ==> Drop(a + b, t) == Drop(a, t) + b
    ensures !Has(a, t) ==> Drop(a + b, t) == a + Drop(b, t)
  {
    if a == [] {
      assert a + b == b;
    } else {
      assert (a + b)[1..] == a[1..] + b && (a + b)[0] == a[0];
      HasTail(a, t);
      if a[0].thread != t { DropAppend(a[1..], b, t); }
    }
  }

  lemma {:induction false} UnlinkIsDrop(list: seq<nat>, prio: int, t: nat)
    ensures Tag(Unlink(list, t), prio) == Drop(Tag(list, prio), t)
  {
    if list != [] {
      assert Tag(list, prio)[1..] == Tag(list[1..], prio);
      UnlinkIsDrop(list[1..], prio, t);
    }
  }

  lemma {:induction false} DropMiddle(a: Line, m: Line, b: Line, t: nat)
    requires !Has(a, t) && Has(m, t)
    ensures Drop(a + m + b, t) == a + Drop(m, t) + b
  {
    DropAppend(a, m + b, t);
    DropAppend(m, b, t);
    assert a + m + b == a + (m + b) && a + (Drop(m, t) + b) == a + Drop(m, t) + b;
  }

  /** Unlinking from the list of its priority is leaving the line. */
  lemma RemoveIsDrop(q: seq<seq<nat>>, prio: int, i: nat, t: nat)
    requires i < |q| && t in q[i] && forall j | 0 <= j < i :: t !in q[j]
    ensures Flatten(q[i := Unlink(q[i], t)], prio) == Drop(Flatten(q, prio), t)
  {
    var a, m, b := Flatten(q[..i], prio), Tag(q[i], prio + i), Flatten(q[i + 1..], prio + i + 1);
    FlattenAt(q, prio, i, Unlink(q[i], t));
    FlattenAt(q, prio, i, q[i]);
    assert q[i := q[i]] == q;
    UnlinkIsDrop(q[i], prio + i, t);
    assert !Has(a, t) by { FlattenHas(q[..i], prio, t); }
    assert Has(m, t) by {
      var k :| 0 <= k < |q[i]| && q[i][k] == t;
      assert m[k].thread == t;
    }
    DropMiddle(a, m, b, t);
  }

  lemma {:induction false} FlattenHas(q: seq<seq<nat>>, prio: int, t: nat)
    ensures Has(Flatten(q, prio), t) <==> exists j :: 0 <= j < |q| && t in q[j]
  {
    if q != [] {
      var a, b := Tag(q[0], prio), Flatten(q[1..], prio + 1);
      FlattenHas(q[1..], prio + 1, t);
      assert Has(a + b, t) <==> Has(a, t) || Has(b, t) by {
        if Has(a, t) { var k :| 0 <= k < |a| && a[k].thread == t; assert (a + b)[k].thread == t; }
        if Has(b, t) { var k :| 0 <= k < |b| && b[k].thread == t; assert (a + b)[|a| + k].thread == t; }
      }
      if Has(a, t) { var k :| 0 <= k < |a| && a[k].thread == t; assert q[0][k] == t; }
      if t in q[0] { var k :| 0 <= k < |q[0]| && q[0][k] == t; assert a[k].thread == t; }
      if exists j :: 0 <= j < |q[1..]| && t in q[1..][j] {
        var j :| 0 <= j < |q[1..]| && t in q[1..][j];
        assert t in q[j + 1];
      }
      if exists j :: 0 <= j < |q| && t in q[j] {
        var j :| 0 <= j < |q| && t in q[j];
        if j > 0 { assert t in q[1..][j - 1]; }
      }
    }
  }

  lemma {:induction false} FlattenSorted(q: seq<seq<nat>>, prio: int)
    ensures Sorted(Flatten(q, prio))
  {
    if q != [] {
      FlattenSorted(q[1..], prio + 1);
      FlattenPrios(q[1..], prio + 1);
    }
  }

  /** Whom the line has, with which priority, is which list it is in. */
  lemma {:induction false} FlattenMember(q: seq<seq<nat>>, prio: int, w: Waiter<()>)
    ensures w in Flatten(q, prio) <==> prio <= w.prio < prio + |q| && w.thread in q[w.prio - prio]
  {
    if q != [] {
      FlattenMember(q[1..], prio + 1, w);
      var a, b := Tag(q[0], prio), Flatten(q[1..], prio + 1);
      assert w in a + b <==> w in a || w in b;
      if w.prio == prio && w.thread in q[0] {
        var k :| 0 <= k < |q[0]| && q[0][k] == w.thread;
        assert w.data == ();
        assert a[k] == w;
      }
      if w.prio > prio && w.prio < prio + |q| { assert q[1..][w.prio - prio - 1] == q[w.prio - prio]; }
    }
  }

  /** The line starts with the first thread of the first list that has one. */
  lemma {:induction false} FlattenHead(q: seq<seq<nat>>, prio: int, i: nat)
    requires i < |q| && q[i] != [] && forall j | 0 <= j < i :: q[j] == []
    ensures Flatten(q, prio) != [] && Flatten(q, prio)[0] == Waiter(q[i][0], prio + i, ())
  {
    if i > 0 {
      assert Tag(q[0], prio) == [];
      FlattenHead(q[1..], prio + 1, i - 1);
    }
  }

  // ---- the line itself

  lemma InsertHead(line: Line, w: Waiter<()>)
    ensures Insert(line, w)[0] == if line == [] || w.prio < line[0].prio then w else line[0]
  {
  }

  lemma InsertDistinct(line: Line, w: Waiter<()>)
    requires Distinct(line) && !Has(line, w.thread)
    ensures Distinct(Insert(line, w))
  {
    var k := Place(line, w);
    var r := Insert(line, w);
    forall i: nat, j: nat | i < j < |r| ensures Apart(r, i, j) {
      if i != k && j != k {
        assert Apart(line, if i < k then i else i - 1, if j < k then j else j - 1);
      }
    }
  }

  lemma {:induction false} DropMembers(line: Line, t: nat)
    ensures forall k | 0 <= k < |Drop(line, t)| :: Drop(line, t)[k] in line
    ensures Has(line, t) ==> |Drop(line, t)| == |line| - 1
  {
    if line != [] {
      DropMembers(line[1..], t);
      if Has(line, t) && line[0].thread != t {
        var i :| 0 <= i < |line| && line[i].thread == t;
        assert line[1..][i - 1].thread == t;
      }
    }
  }

  lemma TailDistinct(line: Line)
    requires Distinct(line) && line != []
    ensures Distinct(line[1..]) && !Has(line[1..], line[0].thread)
  {
    var r := line[1..];
    forall i: nat, j: nat | i < j < |r| ensures Apart(r, i, j) {
      assert Apart(line, i + 1, j + 1);
    }
    forall i: nat | i < |r| ensures r[i].thread != line[0].thread {
      assert Apart(line, 0, i + 1);
    }
  }

  lemma {:induction false} DropDistinct(line: Line, t: nat)
    requires Distinct(line)
    ensures Distinct(Drop(line, t)) && !Has(Drop(line, t), t)
  {
    if line != [] {
      TailDistinct(line);
      if line[0].thread != t {
        DropDistinct(line[1..], t);
        DropMembers(line[1..], t);
        var r := Drop(line[1..], t);
        forall i: nat, j: nat | i < j < |r| + 1 ensures Apart([line[0]] + r, i, j) {
          if i == 0 {
            assert r[j - 1] in line[1..];
          } else {
            assert Apart(r, i - 1, j - 1);
          }
        }
      }
    }
  }

  // ---- yielding

  /** The line after its first thread yields. */
  function Yield(line: Line): (r: Line)
    requires line != []
  {
    Insert(Drop(line, line[0].thread), line[0])
  }

  lemma YieldRotates(g: Line, rest: Line)
    requires g != [] && (forall i | 0 <= i < |g| :: g[i].prio == g[0].prio) && (rest != [] ==> g[0].prio < rest[0].prio)
    ensures Yield(g + rest) == g[1..] + [g[0]] + rest
  {
    assert (g + rest)[1..] == g[1..] + rest;
    PlaceBetween(g[1..], rest, g[0]);
  }

  function Yields(line: Line, n: nat): (r: Line)
    requires line != []
    ensures r != []
    decreases n
  {
    if n == 0 then line else Yields(Yield(line), n - 1)
  }

  lemma Rotated(a: Line, b: Line)
    requires a != []
    ensures (a + b)[1..] + [(a + b)[0]] == a[1..] + (b + [a[0]]) && b + [a[0]] + a[1..] == b + a
    ensures forall i | 0 <= i < |a + b| :: (a[1..] + (b + [a[0]]))[i] == (a + b)[if i < |a + b| - 1 then i + 1 else 0]
  {
  }

  /** Round robin: when the threads of the best priority keep yielding, each gets its turn in order,
      and after one round the line is as it was; threads of lower priority never move. */
  lemma {:induction false} YieldsTakeTurns(a: Line, b: Line, rest: Line, prio: int)
    requires a + b != [] && (forall i | 0 <= i < |a + b| :: (a + b)[i].prio == prio)
    requires rest != [] ==> prio < rest[0].prio
    ensures Yields(a + b + rest, |a|) == b + a + rest
    decreases |a|
  {
    if a == [] {
      assert a + b + rest == b + a + rest;
    } else {
      var a', b' := a[1..], b + [a[0]];
      YieldRotates(a + b, rest);
      Rotated(a, b);
      assert Yield(a + b + rest) == a' + b' + rest;
      YieldsTakeTurns(a', b', rest, prio);
      assert b' + a' == b + a;
    }
  }
}
