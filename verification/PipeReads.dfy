/** Where the bytes of a pipe go: what every read call ends up with, over whole histories. */
module PipeReads {
  import opened WaitQueue
  import opened PipeSpec
  import opened PipeRuns
  import opened Common

  type Bytes = seq<Unit>

  // ---- parts of a sequence, in order

  /** `a` is `s` with some elements left out. */
  ghost predicate Within(a: Bytes, s: Bytes)
    decreases |s|
  {
    a == [] ||
    (s != [] &&
      var n, m := |s| - 1, |a| - 1;
      Within(a, s[..n]) || (a[m] == s[n] && Within(a[..m], s[..n])))
  }

  lemma {:induction false} WithinMore(a: Bytes, s: Bytes, x: Bytes)
    requires Within(a, s)
    ensures Within(a, s + x)
    decreases |x|
  {
    if x == [] {
      assert s + x == s;
    } else {
      var n := |x| - 1;
      WithinMore(a, s, x[..n]);
      assert (s + x)[..|s| + n] == s + x[..n];
    }
  }

  lemma {:induction false} WithinBoth(a: Bytes, s: Bytes, x: Bytes)
    requires Within(a, s)
    ensures Within(a + x, s + x)
    decreases |x|
  {
    if x == [] {
      assert a + x == a && s + x == s;
    } else {
      var n := |x| - 1;
      WithinBoth(a, s, x[..n]);
      assert (s + x)[..|s| + n] == s + x[..n] && (a + x)[..|a| + n] == a + x[..n];
    }
  }

  ghost predicate AllWithin(q: Queue<Unit>, s: Bytes) {
    forall i | 0 <= i < |q| :: Within(q[i].data.bytes, s)
  }

  lemma {:induction false} AllWithinMore(q: Queue<Unit>, s: Bytes, x: Bytes)
    requires AllWithin(q, s)
    ensures AllWithin(q, s + x)
  {
    forall i | 0 <= i < |q| ensures Within(q[i].data.bytes, s + x) {
      WithinMore(q[i].data.bytes, s, x);
    }
  }

  lemma {:induction false} AllWithinCons(w: Waiter<Desc<Unit>>, q: Queue<Unit>, s: Bytes)
    requires Within(w.data.bytes, s) && AllWithin(q, s)
    ensures AllWithin([w] + q, s)
  {
  }

  /** A reader completed first, and the rest of the queue after it. */
  lemma {:induction false} ServedFirst(w: Waiter<Desc<Unit>>, x: Bytes, y: Bytes, s: Bytes)
    requires |x| == w.data.left && Within(w.data.bytes, s)
    ensures Within(Topped(w, x).data.bytes, s + (x + y))
  {
    WithinBoth(w.data.bytes, s, x);
    WithinMore(w.data.bytes + x, s + x, y);
    assert (s + x) + y == s + (x + y);
  }

  /** The last reader served, which is not completed, and those behind it. */
  lemma {:induction false} ServedPart(w: Waiter<Desc<Unit>>, tail: Queue<Unit>, bytes: Bytes, s: Bytes)
    requires |bytes| < w.data.left && Within(w.data.bytes, s) && AllWithin(tail, s)
    ensures AllWithin(Fill([w] + tail, bytes).done, s + bytes) && AllWithin(Fill([w] + tail, bytes).rest, s + bytes)
  {
    assert ([w] + tail)[1..] == tail;
    WithinBoth(w.data.bytes, s, bytes);
    AllWithinMore(tail, s, bytes);
    AllWithinCons(Topped(w, bytes), tail, s + bytes);
  }

  /** Served readers, completed or not, hold parts of what was handed over before and now. */
  lemma {:induction false} FillWithin(q: Queue<Unit>, bytes: Bytes, s: Bytes)
    requires AllWithin(q, s)
    ensures AllWithin(Fill(q, bytes).done, s + bytes) && AllWithin(Fill(q, bytes).rest, s + bytes)
  {
    if q != [] {
      var w, tail, n := q[0], q[1..], q[0].data.left;
      assert q == [w] + tail;
      if n <= |bytes| {
        var x, y := bytes[..n], bytes[n..];
        assert bytes == x + y;
        FillCons(w, tail, x, y);
        AllWithinMore(tail, s, x);
        FillWithin(tail, y, s + x);
        assert (s + x) + y == s + bytes;
        ServedFirst(w, x, y, s);
        AllWithinCons(Topped(w, x), Fill(tail, y).done, s + bytes);
      } else {
        ServedPart(w, tail, bytes, s);
      }
    }
  }

  /** How often a byte occurs. */
  function Times(u: Unit, s: Bytes): (n: nat) { multiset(s)[u] }

  lemma {:induction false} TimesAppend(u: Unit, a: Bytes, b: Bytes)
    ensures Times(u, a + b) == Times(u, a) + Times(u, b)
  {
  }

  lemma {:induction false} ConsFlat(w: Waiter<Desc<Unit>>, q: Queue<Unit>)
    ensures Flat([w] + q) == w.data.bytes + Flat(q)
  {
    assert ([w] + q)[1..] == q;
  }

  lemma {:induction false} ConsTimes(u: Unit, w: Waiter<Desc<Unit>>, q: Queue<Unit>)
    ensures Times(u, Flat([w] + q)) == Times(u, w.data.bytes) + Times(u, Flat(q))
  {
    ConsFlat(w, q);
    TimesAppend(u, w.data.bytes, Flat(q));
  }

  /** Served readers gain exactly the bytes handed over. */
  lemma {:induction false} FillGains(q: Queue<Unit>, bytes: Bytes, u: Unit)
    requires |bytes| <= Total(q)
    ensures var r := Fill(q, bytes); Times(u, Flat(r.done)) + Times(u, Flat(r.rest)) == Times(u, Flat(q)) + Times(u, bytes)
  {
    if q != [] {
      var w, tail, n := q[0], q[1..], q[0].data.left;
      assert q == [w] + tail;
      ConsTimes(u, w, tail);
      if n <= |bytes| {
        var x, y := bytes[..n], bytes[n..];
        assert bytes == x + y;
        FillCons(w, tail, x, y);
        FillGains(tail, y, u);
        TimesAppend(u, x, y);
        TimesAppend(u, w.data.bytes, x);
        ConsTimes(u, Topped(w, x), Fill(tail, y).done);
      } else {
        TimesAppend(u, w.data.bytes, bytes);
        ConsTimes(u, Topped(w, bytes), tail);
      }
    }
  }

  // ---- what the reads have

  function Join(rs: seq<Bytes>): (r: Bytes) {
    if rs == [] then [] else Join(rs[..|rs| - 1]) + rs[|rs| - 1]
  }

  lemma {:induction false} JoinAppend(rs: seq<Bytes>, ts: seq<Bytes>)
    ensures Join(rs + ts) == Join(rs) + Join(ts)
  {
    if ts == [] {
      assert rs + ts == rs;
    } else {
      var n := |ts| - 1;
      assert (rs + ts)[..|rs| + n] == rs + ts[..n];
      JoinAppend(rs, ts[..n]);
    }
  }

  lemma {:induction false} JoinReceived(q: Queue<Unit>)
    ensures Join(Received(q)) == Flat(q)
  {
    if q != [] {
      var n := |q| - 1;
      JoinReceived(q[..n]);
      assert Received(q)[..n] == Received(q[..n]);
      FlatAppend(q[..n], [q[n]]);
      FlatOne(q[n]);
      assert q == q[..n] + [q[n]];
    }
  }

  lemma {:induction false} JoinOne(rs: seq<Bytes>, x: Bytes)
    ensures Join(rs + [x]) == Join(rs) + x
  {
    assert (rs + [x])[..|rs|] == rs;
  }

  /** The bytes delivered are exactly those that reads hold, returned or waiting, each with one read, and
      every read has its bytes in the order they were delivered. */
  ghost predicate Shared(returned: seq<Bytes>, q: Queue<Unit>, delivered: Bytes) {
    && (forall u :: Times(u, Join(returned)) + Times(u, Flat(q)) == Times(u, delivered))
    && (forall i | 0 <= i < |returned| :: Within(returned[i], delivered))
    && AllWithin(q, delivered)
  }

  ghost predicate ReadsInv(s: State) {
    Shared(s.returned, s.pipe.readers, s.delivered)
  }

  /** More than that: each read's bytes are one run of those delivered, in the order of returning. */
  ghost predicate Runs(returned: seq<Bytes>, q: Queue<Unit>, delivered: Bytes) {
    delivered == Join(returned) + Flat(q) && FirstOnly(q)
  }

  ghost predicate InRuns(s: State) {
    Runs(s.returned, s.pipe.readers, s.delivered)
  }

  /** Of waiting readers only the first has received anything. */
  ghost predicate FirstOnly(q: Queue<Unit>) {
    forall i | 0 < i < |q| :: q[i].data.bytes == []
  }

  lemma {:induction false} NoneReceived(q: Queue<Unit>)
    requires forall i | 0 <= i < |q| :: q[i].data.bytes == []
    ensures Flat(q) == []
  {
    if q != [] { NoneReceived(q[1..]); }
  }

  lemma {:induction false} FirstOnlyFlat(w: Waiter<Desc<Unit>>, tail: Queue<Unit>)
    requires FirstOnly([w] + tail)
    ensures Flat(tail) == [] && Flat([w] + tail) == w.data.bytes
    ensures forall i | 0 <= i < |tail| :: tail[i].data.bytes == []
  {
    forall i | 0 <= i < |tail| ensures tail[i].data.bytes == [] {
      assert tail[i] == ([w] + tail)[i + 1];
    }
    NoneReceived(tail);
    ConsFlat(w, tail);
  }

  /** Served in turn, readers of whom only the first has anything extend what they hold by a run. */
  lemma {:induction false} FillInRuns(q: Queue<Unit>, bytes: Bytes)
    requires FirstOnly(q) && |bytes| <= Total(q)
    ensures var r := Fill(q, bytes); Flat(r.done) + Flat(r.rest) == Flat(q) + bytes && FirstOnly(r.rest)
  {
    if q == [] {
      assert bytes == [];
    } else {
      var w, tail, n := q[0], q[1..], q[0].data.left;
      assert q == [w] + tail;
      FirstOnlyFlat(w, tail);
      if n <= |bytes| {
        var x, y := bytes[..n], bytes[n..];
        assert bytes == x + y;
        FillCons(w, tail, x, y);
        FillInRuns(tail, y);
        ConsFlat(Topped(w, x), Fill(tail, y).done);
        RunsOn(w.data.bytes, x, Flat(Fill(tail, y).done), Flat(Fill(tail, y).rest), y);
      } else {
        ConsFlat(Topped(w, bytes), tail);
      }
    }
  }

  /** ... and exactly such readers do: a byte for the first one comes before what another already has. */
  lemma {:induction false} FillInRunsIff(q: Queue<Unit>)
    requires q != [] && q[0].data.left > 0
    ensures (forall x: Bytes | |x| <= Total(q) :: ExtendsByRun(q, x)) <==> FirstOnly(q)
  {
    if FirstOnly(q) {
      forall x: Bytes | |x| <= Total(q) ensures ExtendsByRun(q, x) { FillInRuns(q, x); }
    } else {
      var w, tail := q[0], q[1..];
      assert q == [w] + tail;
      SomeReceived(tail);
      var z := Flat(tail)[0];
      SplitRead(w, tail, Unit(z.call + 1, z.index));
    }
  }

  ghost predicate ExtendsByRun(q: Queue<Unit>, x: Bytes) {
    Flat(Fill(q, x).done) + Flat(Fill(q, x).rest) == Flat(q) + x
  }

  lemma {:induction false} SomeReceived(q: Queue<Unit>)
    requires exists i :: 0 <= i < |q| && q[i].data.bytes != []
    ensures Flat(q) != []
  {
    if Flat(q) == [] {
      forall i | 0 <= i < |q| ensures q[i].data.bytes == [] {
        FlatWithout(q, i);
      }
    }
  }

  lemma {:induction false} SplitRead(w: Waiter<Desc<Unit>>, tail: Queue<Unit>, u: Unit)
    requires w.data.left > 0 && Flat(tail) != [] && Flat(tail)[0] != u
    ensures !ExtendsByRun([w] + tail, [u]) && 1 <= Total([w] + tail)
  {
    var b, f, q := w.data.bytes, Flat(tail), [w] + tail;
    assert q[1..] == tail;
    ConsFlat(w, tail);
    if w.data.left == 1 {
      FillCons(w, tail, [u], []);
      FillOnto(tail);
      assert [u] + [] == [u];
      ConsFlat(Topped(w, [u]), Fill(tail, []).done);
    } else {
      ConsFlat(Topped(w, [u]), tail);
    }
    assert (b + f + [u])[|b|] == f[0];
    assert (b + [u] + f)[|b|] == u;
  }

  /** Serving with nothing changes nothing that readers have. */
  lemma {:induction false} FillOnto(q: Queue<Unit>)
    ensures Flat(Fill(q, []).done) + Flat(Fill(q, []).rest) == Flat(q)
  {
    if q != [] {
      var w, tail := q[0], q[1..];
      assert q == [w] + tail && w.data.bytes + [] == w.data.bytes;
      ConsFlat(w, tail);
      if w.data.left == 0 {
        FillCons(w, tail, [], []);
        FillOnto(tail);
        ConsFlat(Topped(w, []), Fill(tail, []).done);
      } else {
        ConsFlat(Topped(w, []), tail);
      }
    }
  }

  lemma {:induction false} RunsOn(b: Bytes, x: Bytes, f: Bytes, g: Bytes, y: Bytes)
    requires f + g == y
    ensures (b + x + f) + g == b + (x + y)
  {
    assert (b + x + f) + g == b + (x + (f + g));
  }

  // ---- a write

  lemma {:induction false} FillNothing(q: Queue<Unit>)
    requires forall i | 0 <= i < |q| :: q[i].data.left > 0
    ensures Fill(q, []) == Served([], q)
  {
    if q != [] {
      assert q[0].data.bytes + [] == q[0].data.bytes;
      assert [Topped(q[0], [])] + q[1..] == q;
    }
  }

  /** What a write does to readers. */
  lemma {:induction false} WriteServes(s: State, e: Event, s': State)
    requires WaitInv(s.pipe) && e.Wrote? && Next(s, e, s')
    ensures |e.share.direct| <= Total(s.pipe.readers)
    ensures Fill(s.pipe.readers, e.share.direct) == Served(e.done, s'.pipe.readers)
    ensures s'.delivered == s.delivered + e.share.direct && s'.returned == s.returned + Received(e.done)
  {
    if PutRefused(s.pipe, e.minXfer, e.noWait) { FillNothing(s.pipe.readers); }
  }

  lemma {:induction false} JoinDone(returned: seq<Bytes>, done: Queue<Unit>)
    ensures Join(returned + Received(done)) == Join(returned) + Flat(done)
  {
    JoinAppend(returned, Received(done));
    JoinReceived(done);
  }

  lemma {:induction false} ServedShared(returned: seq<Bytes>, q: Queue<Unit>, delivered: Bytes, x: Bytes)
    requires Shared(returned, q, delivered) && |x| <= Total(q)
    ensures var r := Fill(q, x); Shared(returned + Received(r.done), r.rest, delivered + x)
  {
    var r := Fill(q, x);
    JoinDone(returned, r.done);
    forall u ensures Times(u, Join(returned + Received(r.done))) + Times(u, Flat(r.rest)) == Times(u, delivered + x) {
      FillGains(q, x, u);
      TimesAppend(u, Join(returned), Flat(r.done));
      TimesAppend(u, delivered, x);
      assert Times(u, Join(returned)) + Times(u, Flat(q)) == Times(u, delivered);
    }
    FillWithin(q, x, delivered);
    forall i | 0 <= i < |returned| ensures Within(returned[i], delivered + x) {
      WithinMore(returned[i], delivered, x);
    }
  }

  lemma {:induction false} ServedRuns(returned: seq<Bytes>, q: Queue<Unit>, delivered: Bytes, x: Bytes)
    requires Runs(returned, q, delivered) && |x| <= Total(q)
    ensures var r := Fill(q, x); Runs(returned + Received(r.done), r.rest, delivered + x)
  {
    var r := Fill(q, x);
    JoinDone(returned, r.done);
    FillInRuns(q, x);
    HeldRegrouped(Join(returned), Flat(q), x, Flat(r.done), Flat(r.rest));
  }

  lemma {:induction false} HeldRegrouped(j: Bytes, f: Bytes, x: Bytes, d: Bytes, r: Bytes)
    requires d + r == f + x
    ensures (j + f) + x == (j + d) + r
  {
    assert (j + f) + x == j + (f + x) && (j + d) + r == j + (d + r);
  }

  // ---- a read

  /** While readers wait there is nothing to read. */
  lemma {:induction false} NothingToRead(s: State, e: Event, s': State)
    requires WaitInv(s.pipe) && e.Got? && Next(s, e, s') && s.pipe.readers != []
    ensures e.data == []
  {
    ReadsNothing(s.pipe, e.thread, e.prio, e.want, e.minXfer, e.noWait, s'.pipe, e.done, e.reply, e.data);
  }

  /** What a read does to readers. */
  lemma {:induction false} ReadJoins(s: State, e: Event, s': State)
    requires WaitInv(s.pipe) && e.Got? && Next(s, e, s')
    ensures s'.delivered == s.delivered + e.data && (s.pipe.readers != [] ==> e.data == [])
    ensures if e.reply.Pended? then
        && |e.data| <= e.want && s'.returned == s.returned
        && s'.pipe.readers == Insert(s.pipe.readers, Waiter(e.thread, e.prio, Desc(e.data, e.want - |e.data|)))
      else s'.returned == s.returned + [e.data] && s'.pipe.readers == s.pipe.readers
  {
    if s.pipe.readers != [] { NothingToRead(s, e, s'); }
    GotParts(s, e, s');
    GetReaders(s.pipe, e.thread, e.prio, e.want, e.minXfer, e.noWait, s'.pipe, e.done, e.reply, e.data);
  }

  lemma {:induction false} GotParts(s: State, e: Event, s': State)
    requires e.Got? && Next(s, e, s')
    ensures Get(s.pipe, e.thread, e.prio, e.want, e.minXfer, e.noWait, s'.pipe, e.done, e.reply, e.data)
    ensures s'.delivered == s.delivered + e.data
    ensures s'.returned == if e.reply.Pended? then s.returned else s.returned + [e.data]
  {
    if e.reply.Pended? { assert s.returned + [] == s.returned; }
  }

  /** A new reader, wherever it waits. */
  lemma {:induction false} FlatInserted(q: Queue<Unit>, w: Waiter<Desc<Unit>>)
    requires q != [] ==> w.data.bytes == []
    ensures Flat(Insert(q, w)) == Flat(q) + w.data.bytes
  {
    var k := Place(q, w);
    assert q == q[..k] + q[k..];
    FlatParts(q[..k], w, q[k..]);
    if q == [] { assert q[..k] == [] && q[k..] == []; }
  }

  lemma {:induction false} InsertedWithin(q: Queue<Unit>, w: Waiter<Desc<Unit>>, s: Bytes)
    requires AllWithin(q, s) && Within(w.data.bytes, s)
    ensures AllWithin(Insert(q, w), s)
  {
  }

  lemma {:induction false} PartWithin(delivered: Bytes, x: Bytes)
    ensures Within(x, delivered + x)
  {
    WithinBoth([], delivered, x);
    assert [] + x == x;
  }

  lemma {:induction false} WaitsShared(returned: seq<Bytes>, q: Queue<Unit>, delivered: Bytes, w: Waiter<Desc<Unit>>)
    requires Shared(returned, q, delivered) && (q != [] ==> w.data.bytes == [])
    ensures Shared(returned, Insert(q, w), delivered + w.data.bytes)
  {
    var x := w.data.bytes;
    FlatInserted(q, w);
    forall u ensures Times(u, Join(returned)) + Times(u, Flat(q) + x) == Times(u, delivered + x) {
      TimesAppend(u, Flat(q), x);
      TimesAppend(u, delivered, x);
      assert Times(u, Join(returned)) + Times(u, Flat(q)) == Times(u, delivered);
    }
    AllWithinMore(q, delivered, x);
    PartWithin(delivered, x);
    InsertedWithin(q, w, delivered + x);
    forall i | 0 <= i < |returned| ensures Within(returned[i], delivered + x) {
      WithinMore(returned[i], delivered, x);
    }
  }

  lemma {:induction false} ReturnsShared(returned: seq<Bytes>, q: Queue<Unit>, delivered: Bytes, x: Bytes)
    requires Shared(returned, q, delivered)
    ensures Shared(returned + [x], q, delivered + x)
  {
    JoinOne(returned, x);
    forall u ensures Times(u, Join(returned) + x) + Times(u, Flat(q)) == Times(u, delivered + x) {
      TimesAppend(u, Join(returned), x);
      TimesAppend(u, delivered, x);
      assert Times(u, Join(returned)) + Times(u, Flat(q)) == Times(u, delivered);
    }
    AllWithinMore(q, delivered, x);
    PartWithin(delivered, x);
    forall i | 0 <= i < |returned| ensures Within(returned[i], delivered + x) {
      WithinMore(returned[i], delivered, x);
    }
  }

  lemma {:induction false} GotReads(s: State, e: Event, s': State)
    requires WaitInv(s.pipe) && ReadsInv(s) && e.Got? && Next(s, e, s')
    ensures ReadsInv(s')
  {
    ReadJoins(s, e, s');
    if e.reply.Pended? {
      WaitsShared(s.returned, s.pipe.readers, s.delivered, Waiter(e.thread, e.prio, Desc(e.data, e.want - |e.data|)));
    } else {
      ReturnsShared(s.returned, s.pipe.readers, s.delivered, e.data);
    }
  }

  /** A read that waits in front of a reader that has already received something. */
  ghost predicate Overtakes(s: State, e: Event) {
    e.Got? && e.reply.Pended? && InFrontOf(s.pipe.readers, e.prio)
  }

  ghost predicate InFrontOf(q: Queue<Unit>, prio: int) {
    exists i :: 0 <= i < |q| && prio < q[i].prio && q[i].data.bytes != []
  }

  lemma {:induction false} WaitsRuns(returned: seq<Bytes>, q: Queue<Unit>, delivered: Bytes, w: Waiter<Desc<Unit>>)
    requires Runs(returned, q, delivered) && (q != [] ==> w.data.bytes == []) && !InFrontOf(q, w.prio)
    ensures Runs(returned, Insert(q, w), delivered + w.data.bytes)
  {
    FlatInserted(q, w);
    assert Join(returned) + (Flat(q) + w.data.bytes) == (Join(returned) + Flat(q)) + w.data.bytes;
  }

  lemma {:induction false} ReturnsRuns(returned: seq<Bytes>, q: Queue<Unit>, delivered: Bytes, x: Bytes)
    requires Runs(returned, q, delivered) && (q != [] ==> x == [])
    ensures Runs(returned + [x], q, delivered + x)
  {
    JoinOne(returned, x);
    if q == [] {
      assert delivered == Join(returned) && Join(returned) + x + [] == Join(returned) + x;
    } else {
      assert delivered + x == delivered && Join(returned) + x == Join(returned);
    }
  }

  lemma {:induction false} GotInRuns(s: State, e: Event, s': State)
    requires WaitInv(s.pipe) && InRuns(s) && e.Got? && Next(s, e, s') && !Overtakes(s, e)
    ensures InRuns(s')
  {
    ReadJoins(s, e, s');
    if e.reply.Pended? {
      WaitsRuns(s.returned, s.pipe.readers, s.delivered, Waiter(e.thread, e.prio, Desc(e.data, e.want - |e.data|)));
    } else {
      ReturnsRuns(s.returned, s.pipe.readers, s.delivered, e.data);
    }
  }

  // ---- a time-out

  lemma {:induction false} TimesMoved(u: Unit, j: Bytes, x: Bytes, a: Bytes, b: Bytes)
    ensures Times(u, j + x) + Times(u, a + b) == Times(u, j) + Times(u, a + x + b)
  {
    TimesAppend(u, j, x);
    TimesAppend(u, a, b);
    TimesAppend(u, a + x, b);
    TimesAppend(u, a, x);
  }

  lemma {:induction false} WithoutWithin(q: Queue<Unit>, i: nat, s: Bytes)
    requires i < |q| && AllWithin(q, s)
    ensures AllWithin(Without(q, i), s)
  {
  }

  lemma {:induction false} LeavesShared(returned: seq<Bytes>, q: Queue<Unit>, delivered: Bytes, i: nat)
    requires Shared(returned, q, delivered) && i < |q|
    ensures Shared(returned + [q[i].data.bytes], Without(q, i), delivered)
  {
    var x := q[i].data.bytes;
    JoinOne(returned, x);
    FlatWithout(q, i);
    forall u ensures Times(u, Join(returned) + x) + Times(u, Flat(Without(q, i))) == Times(u, delivered) {
      TimesMoved(u, Join(returned), x, Flat(q[..i]), Flat(q[i + 1..]));
      assert Times(u, Join(returned)) + Times(u, Flat(q)) == Times(u, delivered);
    }
    WithoutWithin(q, i, delivered);
  }

  lemma {:induction false} LeavesRuns(returned: seq<Bytes>, q: Queue<Unit>, delivered: Bytes, i: nat)
    requires Runs(returned, q, delivered) && i < |q|
    ensures Runs(returned + [q[i].data.bytes], Without(q, i), delivered)
  {
    JoinOne(returned, q[i].data.bytes);
    if i == 0 {
      assert q == [q[0]] + q[1..] && Without(q, 0) == q[1..];
      FirstLeaves(returned, q[0], q[1..], delivered);
    } else {
      LaterLeaves(q, i);
      assert Join(returned) + q[i].data.bytes == Join(returned);
    }
  }

  lemma {:induction false} FirstLeaves(returned: seq<Bytes>, w: Waiter<Desc<Unit>>, tail: Queue<Unit>, delivered: Bytes)
    requires Runs(returned, [w] + tail, delivered)
    ensures delivered == Join(returned) + w.data.bytes + Flat(tail) && FirstOnly(tail)
  {
    FirstOnlyFlat(w, tail);
    assert Join(returned) + w.data.bytes + [] == Join(returned) + w.data.bytes;
  }

  lemma {:induction false} LaterLeaves(q: Queue<Unit>, i: nat)
    requires FirstOnly(q) && 0 < i < |q|
    ensures Flat(Without(q, i)) == Flat(q) && FirstOnly(Without(q, i)) && q[i].data.bytes == []
  {
    FlatWithout(q, i);
    assert Flat(q[..i]) + q[i].data.bytes == Flat(q[..i]);
  }

  // ---- whole histories

  lemma {:induction false} NextKeepsReads(s: State, e: Event, s': State)
    requires WaitInv(s.pipe) && ReadsInv(s) && Next(s, e, s')
    ensures ReadsInv(s')
  {
    match e
    case Wrote(_, _, _, _, _, _, _, _) =>
      WriteServes(s, e, s');
      ServedShared(s.returned, s.pipe.readers, s.delivered, e.share.direct);
    case Got(_, _, _, _, _, _, _, _) => GotReads(s, e, s');
    case WriterTimedOut(_) =>
    case ReaderTimedOut(i) => LeavesShared(s.returned, s.pipe.readers, s.delivered, i);
  }

  /** In every history, whatever the priorities, the bytes delivered are exactly those that reads hold,
      each with one read, and every read has them in order. */
  lemma {:induction false} EveryRunKeepsReads(size: nat, events: seq<Event>, s: State)
    requires Reaches(size, events, s)
    ensures ReadsInv(s)
    decreases |events|
  {
    if events != [] {
      var n := |events| - 1;
      var before :| Reaches(size, events[..n], before) && Next(before, events[n], s);
      EveryRunKeepsReads(size, events[..n], before);
      EveryRunKeepsInv(size, events[..n], before);
      NextKeepsReads(before, events[n], s);
    }
  }

  /** A history in which no read overtakes one that has already received something. */
  ghost predicate ReachesInTurn(size: nat, events: seq<Event>, s: State)
    decreases |events|
  {
    if events == [] then s == Start(size)
    else
      var n := |events| - 1;
      exists before :: ReachesInTurn(size, events[..n], before) && Next(before, events[n], s)
                       && !Overtakes(before, events[n])
  }

  lemma {:induction false} NextKeepsRuns(s: State, e: Event, s': State)
    requires WaitInv(s.pipe) && InRuns(s) && Next(s, e, s') && !Overtakes(s, e)
    ensures InRuns(s')
  {
    match e
    case Wrote(_, _, _, _, _, _, _, _) =>
      WriteServes(s, e, s');
      ServedRuns(s.returned, s.pipe.readers, s.delivered, e.share.direct);
    case Got(_, _, _, _, _, _, _, _) => GotInRuns(s, e, s');
    case WriterTimedOut(_) =>
    case ReaderTimedOut(i) => LeavesRuns(s.returned, s.pipe.readers, s.delivered, i);
  }

  /** Then each read's bytes are one run of those delivered: all that was delivered is what the reads
      returned, one after the other, and what the first waiting reader has so far. */
  lemma {:induction false} RunInTurnDeliversRuns(size: nat, events: seq<Event>, s: State)
    requires ReachesInTurn(size, events, s)
    ensures WaitInv(s.pipe) && InRuns(s)
    decreases |events|
  {
    if events != [] {
      var n := |events| - 1;
      var before :| ReachesInTurn(size, events[..n], before) && Next(before, events[n], s) && !Overtakes(before, events[n]);
      RunInTurnDeliversRuns(size, events[..n], before);
      InTurnReaches(size, events, s);
      EveryRunKeepsInv(size, events, s);
      NextKeepsRuns(before, events[n], s);
    }
  }

  lemma {:induction false} InTurnReaches(size: nat, events: seq<Event>, s: State)
    requires ReachesInTurn(size, events, s)
    ensures Reaches(size, events, s)
    decreases |events|
  {
    if events != [] {
      var n := |events| - 1;
      var before :| ReachesInTurn(size, events[..n], before) && Next(before, events[n], s) && !Overtakes(before, events[n]);
      InTurnReaches(size, events[..n], before);
    }
  }
}
