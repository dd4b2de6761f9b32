/** A history in which a read does not get one run of bytes: a read of better priority queues in front of
    it after it has received something. */
module PipeOvertaken {
  import opened WaitQueue
  import opened PipeSpec
  import opened PipeRuns
  import opened PipeReads
  import opened Common

  /** A pipe without a buffer, with these readers. */
  ghost predicate Unbuffered(s: State, q: Queue<Unit>) {
    s.pipe == Pipe(0, [], q, [])
  }

  /** A write that waiting readers take whole. */
  lemma {:induction false} WriteTaken(s: State, q: Queue<Unit>, n: nat, done: Queue<Unit>, rest: Queue<Unit>)
      returns (e: Event, s': State)
    requires Unbuffered(s, q) && 0 < n <= Total(q) && Fill(q, Units(|s.calls|, 0, n)) == Served(done, rest)
    ensures Next(s, e, s') && Unbuffered(s', rest) && |s'.calls| == |s.calls| + 1
    ensures s'.delivered == s.delivered + Units(|s.calls|, 0, n) && s'.returned == s.returned + Received(done)
  {
    var data := Units(|s.calls|, 0, n);
    var share := Share(data, [], []);
    e := Wrote(9, 5, n, 0, false, done, Moved(0, n), share);
    s' := State(Pipe(0, [], rest, []), s.delivered + data, s.calls + [Call(9, n, n)], s.returned + Received(done));
    assert data == share.direct + share.buffered + share.left;
  }

  /** A read that has to wait. */
  lemma {:induction false} ReadWaits(s: State, q: Queue<Unit>, thread: nat, prio: int, want: nat)
      returns (e: Event, s': State)
    requires Unbuffered(s, q) && want > 0
    ensures Next(s, e, s') && Unbuffered(s', Insert(q, Waiter(thread, prio, Desc([], want))))
    ensures s'.delivered == s.delivered && s'.calls == s.calls && s'.returned == s.returned
  {
    var w := Waiter(thread, prio, Desc([], want));
    e := Got(thread, prio, want, 0, false, [], Pended, []);
    s' := s.(pipe := Pipe(0, [], Insert(q, w), []));
    assert s.pipe.Stream() == [] && s.delivered + [] == s.delivered && s.returned + [] == s.returned;
    assert Drain<Unit>([], 0) == Served([], []);
  }

  lemma {:induction false} ReachesNext(size: nat, events: seq<Event>, s: State, e: Event, s': State)
    requires Reaches(size, events, s) && Next(s, e, s')
    ensures Reaches(size, events + [e], s')
  {
    assert (events + [e])[..|events|] == events;
  }

  function Reader(thread: nat, prio: int, bytes: seq<Unit>, left: nat): (w: Waiter<Desc<Unit>>) {
    Waiter(thread, prio, Desc(bytes, left))
  }

  /** One reader gets bytes and goes on waiting. */
  lemma {:induction false} ServedOne(w: Waiter<Desc<Unit>>, x: seq<Unit>)
    requires 0 < |x| < w.data.left
    ensures Fill([w], x) == Served([], [Topped(w, x)]) && Total([w]) == w.data.left
  {
    assert [w][1..] == [] && [Topped(w, x)] + [] == [Topped(w, x)];
  }

  /** The first of some readers gets all it wants, and no byte is left over. */
  lemma {:induction false} ServedWhole(w: Waiter<Desc<Unit>>, q: Queue<Unit>, x: seq<Unit>)
    requires |x| == w.data.left && forall i | 0 <= i < |q| :: q[i].data.left > 0
    ensures Fill([w] + q, x) == Served([Topped(w, x)], q) && Total([w] + q) >= |x|
  {
    FillCons(w, q, x, []);
    FillNothing(q);
    assert x + [] == x && [Topped(w, x)] + [] == [Topped(w, x)] && ([w] + q)[1..] == q;
  }

  lemma {:induction false} InsertFront(w: Waiter<Desc<Unit>>, v: Waiter<Desc<Unit>>)
    requires v.prio < w.prio
    ensures Insert([w], v) == [v, w] && [v, w] == [v] + [w]
  {
  }

  lemma {:induction false} InsertOnly(v: Waiter<Desc<Unit>>)
    ensures Insert([], v) == [v]
  {
  }

  /** A write that waiting readers take whole, at the end of a history. */
  lemma {:induction false} ThenWrite(events: seq<Event>, s: State, q: Queue<Unit>, n: nat, done: Queue<Unit>, rest: Queue<Unit>)
      returns (events': seq<Event>, s': State)
    requires Reaches(0, events, s) && Unbuffered(s, q) && 0 < n <= Total(q)
    requires Fill(q, Units(|s.calls|, 0, n)) == Served(done, rest)
    ensures Reaches(0, events', s') && Unbuffered(s', rest) && |s'.calls| == |s.calls| + 1
    ensures s'.delivered == s.delivered + Units(|s.calls|, 0, n) && s'.returned == s.returned + Received(done)
  {
    var e, r := WriteTaken(s, q, n, done, rest);
    ReachesNext(0, events, s, e, r);
    events', s' := events + [e], r;
  }

  lemma {:induction false} ThenRead(events: seq<Event>, s: State, q: Queue<Unit>, thread: nat, prio: int, want: nat)
      returns (events': seq<Event>, s': State)
    requires Reaches(0, events, s) && Unbuffered(s, q) && want > 0
    ensures Reaches(0, events', s') && Unbuffered(s', Insert(q, Reader(thread, prio, [], want)))
    ensures s'.delivered == s.delivered && s'.calls == s.calls && s'.returned == s.returned
  {
    var e, r := ReadWaits(s, q, thread, prio, want);
    ReachesNext(0, events, s, e, r);
    events', s' := events + [e], r;
  }

  /** A read of 3 has received one byte. */
  lemma {:induction false} PartlyServed(a: Waiter<Desc<Unit>>, u: seq<Unit>) returns (events: seq<Event>, s: State)
    requires a == Reader(1, 5, [], 3) && u == Units(0, 0, 1)
    ensures Reaches(0, events, s) && Unbuffered(s, [Topped(a, u)])
    ensures |s.calls| == 1 && s.delivered == [] + u && s.returned == []
  {
    InsertOnly(a);
    assert Reaches(0, [], Start(0));
    events, s := ThenRead([], Start(0), [], 1, 5, 3);
    ServedOne(a, u);
    events, s := ThenWrite(events, s, [a], 1, [], [Topped(a, u)]);
  }

  /** A read of better priority comes and gets the next byte. */
  lemma {:induction false} Overtaken(a: Waiter<Desc<Unit>>, b: Waiter<Desc<Unit>>, u: seq<Unit>, v: seq<Unit>)
      returns (events: seq<Event>, s: State)
    requires a == Reader(1, 5, [], 3) && b == Reader(2, 1, [], 1) && u == Units(0, 0, 1) && v == Units(1, 0, 1)
    ensures Reaches(0, events, s) && Unbuffered(s, [Topped(a, u)])
    ensures |s.calls| == 2 && s.delivered == [] + u + v && |s.returned| == 1
  {
    var a1 := Topped(a, u);
    events, s := PartlyServed(a, u);
    InsertFront(a1, b);
    events, s := ThenRead(events, s, [a1], 2, 1, 1);
    ServedWhole(b, [a1], v);
    events, s := ThenWrite(events, s, [b] + [a1], 1, [Topped(b, v)], [a1]);
  }

  /** The rest of the first read's bytes come after that. */
  lemma {:induction false} OvertakenHistory() returns (events: seq<Event>, s: State)
    ensures Reaches(0, events, s) && |s.returned| == 2
    ensures s.delivered == [Unit(0, 0), Unit(1, 0), Unit(2, 0), Unit(2, 1)]
    ensures s.returned[1] == [Unit(0, 0), Unit(2, 0), Unit(2, 1)]
  {
    var u, v, x := Units(0, 0, 1), Units(1, 0, 1), Units(2, 0, 2);
    var a, b := Reader(1, 5, [], 3), Reader(2, 1, [], 1);
    var a1 := Topped(a, u);
    events, s := Overtaken(a, b, u, v);
    ServedWhole(a1, [], x);
    assert [a1] + [] == [a1];
    events, s := ThenWrite(events, s, [a1], 2, [Topped(a1, x)], []);
    WhatWasRead(u, v, x, s.delivered, a1.data.bytes, Topped(a1, x).data.bytes);
  }

  lemma {:induction false} WhatWasRead(u: seq<Unit>, v: seq<Unit>, x: seq<Unit>, delivered: seq<Unit>,
                                       first: seq<Unit>, all: seq<Unit>)
    requires u == Units(0, 0, 1) && v == Units(1, 0, 1) && x == Units(2, 0, 2)
    requires delivered == [] + u + v + x && first == [] + u && all == first + x
    ensures delivered == [Unit(0, 0), Unit(1, 0), Unit(2, 0), Unit(2, 1)]
    ensures all == [Unit(0, 0), Unit(2, 0), Unit(2, 1)]
  {
  }

  /** The bytes are one run of those delivered. */
  ghost predicate IsRun(r: seq<Unit>, delivered: seq<Unit>) {
    exists a, b :: delivered == a + r + b
  }

  /** So a read can return bytes that were not delivered in one run. */
  lemma {:induction false} SomeReadIsSplit() returns (events: seq<Event>, s: State)
    ensures Reaches(0, events, s) && |s.returned| == 2 && !IsRun(s.returned[1], s.delivered)
  {
    events, s := OvertakenHistory();
    NotARun(s.returned[1], s.delivered);
  }

  lemma {:induction false} NotARun(r: seq<Unit>, d: seq<Unit>)
    requires |d| == 4 && |r| == 3 && r[0] == d[0] != d[1] && r[1] == d[2] != d[1]
    ensures !IsRun(r, d)
  {
    forall a, b ensures d != a + r + b {
      if d == a + r + b { RunAt(a, r, b, 1); }
    }
  }

  lemma {:induction false} RunAt(a: seq<Unit>, r: seq<Unit>, b: seq<Unit>, k: nat)
    requires k < |r|
    ensures (a + r + b)[|a| + k] == r[k]
  {
  }
}
