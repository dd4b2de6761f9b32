/** Whole histories of a pipe. Every byte is tagged with the call that wrote it and its place in that
    call's data, so that a history can say where each byte went. */
module PipeRuns {
  import opened WaitQueue
  import opened PipeSpec
  import opened Common

  datatype Unit = Unit(call: nat, index: nat)

  function Units(call: nat, from: nat, to: nat): (r: seq<Unit>)
    requires from <= to
    ensures |r| == to - from && forall i | 0 <= i < |r| :: r[i] == Unit(call, from + i)
  {
    seq(to - from, i requires 0 <= i < to - from => Unit(call, from + i))
  }

  /** A write. `moved` is what the call reports, and all that was asked for while it still waits. */
  datatype Call = Call(thread: nat, requested: nat, moved: nat)

  /** `delivered` lists the bytes handed to readers, in the order they were handed over; `returned` has what
      each read that has returned ended up with. */
  datatype State = State(pipe: Pipe<Unit>, delivered: seq<Unit>, calls: seq<Call>, returned: seq<seq<Unit>>) {
    function Line(): (r: seq<Unit>) {
      delivered + pipe.Stream()
    }
  }

  datatype Event =
    | Wrote(thread: nat, prio: int, count: nat, minXfer: nat, noWait: bool,
            done: Queue<Unit>, reply: Reply, share: Share<Unit>)
    | Got(thread: nat, prio: int, want: nat, minXfer: nat, noWait: bool,
          done: Queue<Unit>, reply: Reply, data: seq<Unit>)
    | WriterTimedOut(at: nat)
    | ReaderTimedOut(at: nat)

  /** What the threads of a queue have received. */
  function Received(q: Queue<Unit>): (r: seq<seq<Unit>>)
    ensures |r| == |q| && forall i | 0 <= i < |q| :: r[i] == q[i].data.bytes
  {
    seq(|q|, i requires 0 <= i < |q| => q[i].data.bytes)
  }

  ghost predicate Next(s: State, e: Event, s': State) {
    match e
    case Wrote(thread, prio, count, minXfer, noWait, done, reply, share) =>
      && minXfer <= count
      && Put(s.pipe, thread, prio, Units(|s.calls|, 0, count), minXfer, noWait, s'.pipe, done, reply, share)
      && s'.delivered == s.delivered + share.direct
      && |share.left| <= count
      && s'.calls == s.calls + [Call(thread, count, if reply.Pended? then count else count - |share.left|)]
      && s'.returned == s.returned + Received(done)
    case Got(thread, prio, want, minXfer, noWait, done, reply, data) =>
      && minXfer <= want
      && Get(s.pipe, thread, prio, want, minXfer, noWait, s'.pipe, done, reply, data)
      && s'.delivered == s.delivered + data
      && s'.calls == s.calls
      && s'.returned == s.returned + if reply.Pended? then [] else [data]
    case WriterTimedOut(i) =>
      && i < |s.pipe.writers|
      && s'.pipe == s.pipe.(writers := Without(s.pipe.writers, i))
      && s'.delivered == s.delivered && s'.returned == s.returned
      && s.pipe.writers[i].data.bytes != []
      && var w, c := s.pipe.writers[i], s.pipe.writers[i].data.bytes[0].call;
      && c < |s.calls| && w.data.left <= s.calls[c].requested
      && s'.calls == s.calls[c := s.calls[c].(moved := s.calls[c].requested - w.data.left)]
    case ReaderTimedOut(i) =>
      && i < |s.pipe.readers|
      && s' == s.(pipe := s.pipe.(readers := Without(s.pipe.readers, i)),
                  returned := s.returned + [s.pipe.readers[i].data.bytes])
  }

  function Start(size: nat): (s: State) {
    State(Pipe(size, [], [], []), [], [], [])
  }

  /** `s` is where the pipe is after `events`, starting empty. */
  ghost predicate Reaches(size: nat, events: seq<Event>, s: State)
    decreases |events|
  {
    if events == [] then s == Start(size)
    else
      var n := |events| - 1;
      exists before :: Reaches(size, events[..n], before) && Next(before, events[n], s)
  }

  // ---- which bytes belong to a call

  function Of(c: nat, s: seq<Unit>): (r: seq<Unit>) {
    if s == [] then [] else (if s[0].call == c then [s[0]] else []) + Of(c, s[1..])
  }

  function MovedBy(calls: seq<Call>, c: nat): (r: nat) {
    if c < |calls| then calls[c].moved else 0
  }

  /** Of every call, exactly the bytes it accounts for are in the line, each once and in order. */
  ghost predicate Accounted(line: seq<Unit>, calls: seq<Call>) {
    forall c: nat :: Of(c, line) == Units(c, 0, MovedBy(calls, c))
  }

  lemma {:induction false} OfAppend(c: nat, a: seq<Unit>, b: seq<Unit>)
    ensures Of(c, a + b) == Of(c, a) + Of(c, b)
  {
    if a == [] {
      assert a + b == b;
    } else {
      assert (a + b)[0] == a[0] && (a + b)[1..] == a[1..] + b;
      OfAppend(c, a[1..], b);
      var first := if a[0].call == c then [a[0]] else [];
      assert first + (Of(c, a[1..]) + Of(c, b)) == (first + Of(c, a[1..])) + Of(c, b);
    }
  }

  lemma {:induction false} OfSame(c: nat, s: seq<Unit>, d: nat)
    requires forall i | 0 <= i < |s| :: s[i].call == d
    ensures Of(c, s) == if c == d then s else []
  {
    if s != [] {
      OfSame(c, s[1..], d);
      assert s == [s[0]] + s[1..];
    }
  }

  lemma {:induction false} OfThree(c: nat, a: seq<Unit>, b: seq<Unit>, d: seq<Unit>)
    ensures Of(c, a + b + d) == Of(c, a) + Of(c, b) + Of(c, d)
  {
    OfAppend(c, a + b, d);
    OfAppend(c, a, b);
  }

  // ---- what waiting writers hold

  /** A waiting writer holds the last bytes of one call, which is its own. */
  ghost predicate Holds(w: Waiter<Desc<Unit>>, calls: seq<Call>) {
    && w.data.bytes != []
    && var u := w.data.bytes[0];
    && u.call < |calls| && u.index < calls[u.call].moved == calls[u.call].requested
    && w.data.bytes == Units(u.call, u.index, calls[u.call].requested)
    && w.data.left == |w.data.bytes|
    && calls[u.call].thread == w.thread
  }

  ghost predicate Holding(q: Queue<Unit>, calls: seq<Call>) {
    && (forall i | 0 <= i < |q| :: Holds(q[i], calls))
    && (forall i, j | 0 <= i < j < |q| :: q[i].data.bytes[0].call != q[j].data.bytes[0].call)
  }

  lemma {:induction false} DrainHolding(q: Queue<Unit>, n: nat, calls: seq<Call>)
    requires Holding(q, calls)
    ensures Holding(Drain(q, n).rest, calls)
  {
    if q != [] {
      if q[0].data.left <= n {
        DrainHolding(q[1..], n - q[0].data.left, calls);
      }
    }
  }

  lemma InsertHolding(q: Queue<Unit>, w: Waiter<Desc<Unit>>, calls: seq<Call>, call: Call)
    requires Holding(q, calls)
    ensures Holding(q, calls + [call])
    ensures Holds(w, calls + [call]) && w.data.bytes[0].call == |calls| ==> Holding(Insert(q, w), calls + [call])
  {
    forall i | 0 <= i < |q| ensures Holds(q[i], calls + [call]) && q[i].data.bytes[0].call < |calls| {
      assert Holds(q[i], calls);
    }
  }

  // ---- the line of bytes, step by step

  lemma {:induction false} FlatParts(a: Queue<Unit>, w: Waiter<Desc<Unit>>, b: Queue<Unit>)
    ensures Flat(a + b) == Flat(a) + Flat(b)
    ensures Flat(a + [w] + b) == Flat(a) + w.data.bytes + Flat(b)
  {
    FlatAppend(a, b);
    FlatAppend(a + [w], b);
    FlatAppend(a, [w]);
    FlatOne(w);
  }

  lemma FlatOne(w: Waiter<Desc<Unit>>)
    ensures Flat([w]) == w.data.bytes
  {
    assert [w][1..] == [] && Flat<Unit>([]) == [];
    assert w.data.bytes + [] == w.data.bytes;
  }

  lemma SplitAt<S>(q: seq<S>, i: nat)
    requires i < |q|
    ensures q == q[..i] + [q[i]] + q[i + 1..]
  {
  }

  lemma {:induction false} FlatWithout(q: Queue<Unit>, i: nat)
    requires i < |q|
    ensures Flat(q) == Flat(q[..i]) + q[i].data.bytes + Flat(q[i + 1..])
    ensures Flat(Without(q, i)) == Flat(q[..i]) + Flat(q[i + 1..])
  {
    var a, w, b := q[..i], q[i], q[i + 1..];
    SplitAt(q, i);
    FlatParts(a, w, b);
  }

  lemma Gather(d: seq<Unit>, x: seq<Unit>, c: seq<Unit>, y: seq<Unit>, f1: seq<Unit>, z: seq<Unit>, f2: seq<Unit>)
    requires x != [] ==> c == [] && f1 == []
    requires y != [] ==> f1 == []
    ensures (d + x) + ((c + y) + (f1 + z + f2)) == (d + (c + f1)) + (x + y + z) + f2
  {
    if x == [] {
      if y == [] {
        assert (d + x) + ((c + y) + (f1 + z + f2)) == d + (c + (f1 + z + f2));
      } else {
        assert (d + x) + ((c + y) + (f1 + z + f2)) == d + ((c + y) + (z + f2));
      }
    }
  }

  /** What a write contributes to the line. */
  function Contributed(e: Event): (r: seq<Unit>)
    requires e.Wrote?
  {
    e.share.direct + e.share.buffered + (if e.reply.Pended? then e.share.left else [])
  }

  lemma PendedLine(s: State, e: Event, s': State, w: Waiter<Desc<Unit>>) returns (a: seq<Unit>, b: seq<Unit>)
    requires WaitInv(s.pipe) && e.Wrote? && Next(s, e, s') && e.reply.Pended?
    requires w == Waiter(e.thread, e.prio, Desc(e.share.left, |e.share.left|))
    ensures s.Line() == a + b && s'.Line() == a + Contributed(e) + b && s.delivered + s.pipe.contents <= a
    ensures Place(s.pipe.writers, w) == |s.pipe.writers| ==> b == []
  {
    var q, c := s.pipe.writers, s.pipe.contents;
    WriteRoom(s, e, s');
    var k := Place(q, w);
    FlatParts(q[..k], w, q[k..]);
    assert q == q[..k] + q[k..];
    var f1, f2 := Flat(q[..k]), Flat(q[k..]);
    a, b := s.delivered + (c + f1), f2;
    Gather(s.delivered, e.share.direct, c, e.share.buffered, f1, e.share.left, f2);
    LineRegrouped(s.delivered, c, f1, f2);
  }

  lemma {:induction false} SettledLine(s: State, e: Event, s': State)
    requires WaitInv(s.pipe) && e.Wrote? && Next(s, e, s') && !e.reply.Pended?
    ensures s'.Line() == s.Line() + Contributed(e) && s.delivered + s.pipe.contents <= s.Line()
  {
    var f := Flat(s.pipe.writers);
    LineRegrouped(s.delivered, s.pipe.contents, f, []);
    assert f + [] == f;
    if PutRefused(s.pipe, e.minXfer, e.noWait) {
      assert s'.Line() == s.Line() && Contributed(e) == [];
    } else {
      WriteRoom(s, e, s');
      Gather(s.delivered, e.share.direct, s.pipe.contents, e.share.buffered, f, [], []);
      assert f + [] + [] == f;
    }
  }

  /** A write puts what it moves into the line as one run, behind all that is buffered and behind the
      writers that wait with the same or a better priority. */
  lemma WriteExtendsLine(s: State, e: Event, s': State) returns (a: seq<Unit>, b: seq<Unit>)
    requires WaitInv(s.pipe) && e.Wrote? && Next(s, e, s')
    ensures s.Line() == a + b && s'.Line() == a + Contributed(e) + b
    ensures s.delivered + s.pipe.contents <= a
    ensures (forall i | 0 <= i < |s.pipe.writers| :: s.pipe.writers[i].prio <= e.prio) ==> b == []
  {
    if e.reply.Pended? {
      var w := Waiter(e.thread, e.prio, Desc(e.share.left, |e.share.left|));
      a, b := PendedLine(s, e, s', w);
    } else {
      SettledLine(s, e, s');
      a, b := s.Line(), [];
    }
  }

  lemma LineRegrouped(d: seq<Unit>, c: seq<Unit>, f1: seq<Unit>, f2: seq<Unit>)
    ensures d + (c + (f1 + f2)) == (d + (c + f1)) + f2 && d + c <= d + (c + f1)
  {
    assert d + (c + f1) == (d + c) + f1;
  }

  lemma WriteRoom(s: State, e: Event, s': State)
    requires WaitInv(s.pipe) && e.Wrote? && Next(s, e, s') && !PutRefused(s.pipe, e.minXfer, e.noWait)
    ensures e.share.direct != [] ==> s.pipe.contents == [] && s.pipe.writers == []
    ensures e.share.buffered != [] ==> s.pipe.writers == []
  {
    assert |s'.pipe.contents| == |s.pipe.contents| + |e.share.buffered|;
  }

  lemma {:induction false} OfInserted(c: nat, a: seq<Unit>, x: seq<Unit>, b: seq<Unit>, d: nat)
    requires forall i | 0 <= i < |x| :: x[i].call == d
    ensures Of(c, a + b) == Of(c, a) + Of(c, b)
    ensures Of(c, a + x + b) == Of(c, a) + (if c == d then x else []) + Of(c, b)
  {
    OfAppend(c, a, b);
    OfThree(c, a, x, b);
    OfSame(c, x, d);
  }

  lemma AccountInserted(a: seq<Unit>, x: seq<Unit>, b: seq<Unit>, calls: seq<Call>, call: Call)
    requires Accounted(a + b, calls) && x == Units(|calls|, 0, call.moved)
    ensures Accounted(a + x + b, calls + [call])
  {
    forall c: nat ensures Of(c, a + x + b) == Units(c, 0, MovedBy(calls + [call], c)) {
      OfInserted(c, a, x, b, |calls|);
      assert Of(c, a + b) == Units(c, 0, MovedBy(calls, c));
      if c == |calls| {
        Squeezed(Of(c, a), Of(c, b), x);
      }
    }
  }

  lemma Squeezed(a: seq<Unit>, b: seq<Unit>, x: seq<Unit>)
    requires |a + b| == 0
    ensures a + x + b == x && a + [] + b == a + b
  {
  }

  /** The bytes of a call that a waiting writer still holds are the last of its bytes in the line. */
  lemma LastInLine(c: nat, m: nat, n: nat, a: seq<Unit>, b: seq<Unit>)
    requires m < n && a + Units(c, m, n) + b == Units(c, 0, n)
    ensures a == Units(c, 0, m) && b == []
  {
    var all := Units(c, 0, n);
    assert all[|a|] == Units(c, m, n)[0];
    assert |a| == m;
    forall i | 0 <= i < m ensures a[i] == Unit(c, i) {
      assert a[i] == all[i];
    }
  }

  lemma AccountRemoved(a: seq<Unit>, x: seq<Unit>, b: seq<Unit>, calls: seq<Call>, d: nat, m: nat)
    requires Accounted(a + x + b, calls) && d < |calls| && m < calls[d].moved && x == Units(d, m, calls[d].moved)
    ensures Accounted(a + b, calls[d := calls[d].(moved := m)])
  {
    var calls' := calls[d := calls[d].(moved := m)];
    forall c: nat ensures Of(c, a + b) == Units(c, 0, MovedBy(calls', c)) {
      OfInserted(c, a, x, b, d);
      assert Of(c, a + x + b) == Units(c, 0, MovedBy(calls, c));
      if c == d {
        LastInLine(c, m, calls[c].moved, Of(c, a), Of(c, b));
      } else {
        assert Of(c, a) + [] + Of(c, b) == Of(c, a) + Of(c, b);
      }
    }
  }

  // ---- every run

  ghost predicate StateInv(s: State) {
    && WaitInv(s.pipe)
    && Holding(s.pipe.writers, s.calls)
    && Accounted(s.Line(), s.calls)
  }

  lemma UnitsSplit(call: nat, n: nat, x: seq<Unit>, z: seq<Unit>)
    requires Units(call, 0, n) == x + z
    ensures x == Units(call, 0, n - |z|) && z == Units(call, n - |z|, n)
  {
    var all := Units(call, 0, n);
    assert |all| == |x| + |z|;
    forall i | 0 <= i < |x| ensures x[i] == Unit(call, i) {
      assert all[i] == x[i];
    }
    forall i | 0 <= i < |z| ensures z[i] == Unit(call, n - |z| + i) {
      assert all[|x| + i] == z[i];
    }
  }

  lemma ContributedIs(s: State, e: Event, s': State)
    requires e.Wrote? && Next(s, e, s')
    ensures Contributed(e) == Units(|s.calls|, 0, s'.calls[|s.calls|].moved)
    ensures e.share.left == Units(|s.calls|, e.count - |e.share.left|, e.count)
    ensures e.reply.Pended? ==> e.share.left != []
  {
    var x, z := e.share.direct + e.share.buffered, e.share.left;
    assert Units(|s.calls|, 0, e.count) == x + z;
    UnitsSplit(|s.calls|, e.count, x, z);
    assert x + [] == x;
  }

  lemma WriteAccounts(s: State, e: Event, s': State)
    requires StateInv(s) && e.Wrote? && Next(s, e, s')
    ensures Accounted(s'.Line(), s'.calls)
  {
    var a, b := WriteExtendsLine(s, e, s');
    ContributedIs(s, e, s');
    AccountInserted(a, Contributed(e), b, s.calls, s'.calls[|s.calls|]);
  }

  lemma WriteKeepsInv(s: State, e: Event, s': State)
    requires StateInv(s) && e.Wrote? && Next(s, e, s')
    ensures StateInv(s')
  {
    WriteAccounts(s, e, s');
    var data := Units(|s.calls|, 0, e.count);
    PutKeepsWaitInv(s.pipe, e.thread, e.prio, data, e.minXfer, e.noWait, s'.pipe, e.done, e.reply, e.share);
    ContributedIs(s, e, s');
    var w := Waiter(e.thread, e.prio, Desc(e.share.left, |e.share.left|));
    InsertHolding(s.pipe.writers, w, s.calls, s'.calls[|s.calls|]);
  }

  lemma GotKeepsLine(s: State, e: Event, s': State)
    requires e.Got? && Next(s, e, s')
    ensures s'.Line() == s.Line()
  {
    var t := s'.pipe.(readers := s.pipe.readers).Stream();
    assert t == s'.pipe.Stream();
    assert (s.delivered + e.data) + t == s.delivered + (e.data + t);
  }

  lemma GotKeepsInv(s: State, e: Event, s': State)
    requires StateInv(s) && e.Got? && Next(s, e, s')
    ensures StateInv(s')
  {
    GotKeepsLine(s, e, s');
    GetKeepsWaitInv(s.pipe, e.thread, e.prio, e.want, e.minXfer, e.noWait, s'.pipe, e.done, e.reply, e.data);
    if !GetRefused(s.pipe, e.minXfer, e.noWait) {
      DrainHolding(s.pipe.writers, Min(e.want, Total(s.pipe.writers)), s.calls);
    }
  }

  /** A writer that gives up takes the bytes it still holds out of the line, and no others. */
  lemma TimeoutCutsLine(s: State, i: nat, s': State) returns (a: seq<Unit>, b: seq<Unit>)
    requires Next(s, WriterTimedOut(i), s')
    ensures s.Line() == a + s.pipe.writers[i].data.bytes + b && s'.Line() == a + b
  {
    FlatWithout(s.pipe.writers, i);
    var f := Flat(s.pipe.writers[..i]);
    a, b := s.delivered + (s.pipe.contents + f), Flat(s.pipe.writers[i + 1..]);
    LineRegrouped(s.delivered, s.pipe.contents, f, b);
    LineRegrouped(s.delivered, s.pipe.contents, f, s.pipe.writers[i].data.bytes + b);
    assert f + (s.pipe.writers[i].data.bytes + b) == f + s.pipe.writers[i].data.bytes + b;
    assert a + (s.pipe.writers[i].data.bytes + b) == a + s.pipe.writers[i].data.bytes + b;
  }

  lemma TimeoutKeepsInv(s: State, i: nat, s': State)
    requires StateInv(s) && Next(s, WriterTimedOut(i), s')
    ensures StateInv(s')
  {
    var w := s.pipe.writers[i];
    var u := w.data.bytes[0];
    assert Holds(w, s.calls);
    var a, b := TimeoutCutsLine(s, i, s');
    AccountRemoved(a, w.data.bytes, b, s.calls, u.call, u.index);
    WithoutHolding(s.pipe.writers, i, s.calls, s'.calls);
  }

  lemma WithoutHolding(q: Queue<Unit>, i: nat, calls: seq<Call>, calls': seq<Call>)
    requires Holding(q, calls) && i < |q| && |calls'| == |calls|
    requires forall c | 0 <= c < |calls| && c != q[i].data.bytes[0].call :: calls'[c] == calls[c]
    ensures Holding(Without(q, i), calls')
  {
    var r := Without(q, i);
    forall j | 0 <= j < |r| ensures Holds(r[j], calls') {
      assert r[j] == q[if j < i then j else j + 1];
      assert Holds(r[j], calls);
    }
  }

  lemma NextKeepsInv(s: State, e: Event, s': State)
    requires StateInv(s) && Next(s, e, s')
    ensures StateInv(s')
  {
    match e
    case Wrote(_, _, _, _, _, _, _, _) => WriteKeepsInv(s, e, s');
    case Got(_, _, _, _, _, _, _, _) => GotKeepsInv(s, e, s');
    case WriterTimedOut(i) => TimeoutKeepsInv(s, i, s');
    case ReaderTimedOut(i) => assert s'.Line() == s.Line();
  }

  lemma StartInv(size: nat)
    ensures StateInv(Start(size))
  {
    assert Start(size).Line() == [];
  }

  /** A waiting writer can time out at any moment. */
  lemma WriterCanTimeOut(s: State, i: nat) returns (s': State)
    requires StateInv(s) && i < |s.pipe.writers|
    ensures Next(s, WriterTimedOut(i), s')
  {
    var w := s.pipe.writers[i];
    assert Holds(w, s.calls);
    var c := w.data.bytes[0].call;
    s' := s.(pipe := s.pipe.(writers := Without(s.pipe.writers, i)),
             calls := s.calls[c := s.calls[c].(moved := s.calls[c].requested - w.data.left)]);
  }

  /** Whatever the calls, priorities and time-outs: readers and writers never wait together, a waiting
      side means the buffer is empty or full, and of every write exactly the bytes it accounts for are
      delivered or still in the pipe, each once and in the order written. */
  lemma {:induction false} EveryRunKeepsInv(size: nat, events: seq<Event>, s: State)
    requires Reaches(size, events, s)
    ensures StateInv(s)
    decreases |events|
  {
    if events == [] {
      StartInv(size);
    } else {
      var n := |events| - 1;
      var before :| Reaches(size, events[..n], before) && Next(before, events[n], s);
      EveryRunKeepsInv(size, events[..n], before);
      NextKeepsInv(before, events[n], s);
    }
  }

  /** When the pipe has drained, what was delivered is exactly what the writes reported. */
  lemma {:induction false} DrainedRunDeliversAll(size: nat, events: seq<Event>, s: State, c: nat)
    requires Reaches(size, events, s) && s.pipe.Stream() == [] && c < |s.calls|
    ensures Of(c, s.delivered) == Units(c, 0, s.calls[c].moved)
  {
    EveryRunKeepsInv(size, events, s);
    assert s.Line() == s.delivered;
    assert Of(c, s.Line()) == Units(c, 0, MovedBy(s.calls, c));
  }

  // ---- writers of one priority

  ghost predicate InCallOrder(s: seq<Unit>) {
    forall i, j | 0 <= i < j < |s| :: s[i].call <= s[j].call
  }

  ghost predicate AllAt(q: Queue<Unit>, prio: int) {
    forall i | 0 <= i < |q| :: q[i].prio == prio
  }

  ghost predicate OnePriority(events: seq<Event>, prio: int) {
    forall i | 0 <= i < |events| && events[i].Wrote? :: events[i].prio == prio
  }

  lemma {:induction false} FoundIn(s: seq<Unit>, i: nat)
    requires i < |s|
    ensures Of(s[i].call, s) != []
  {
    if i > 0 { FoundIn(s[1..], i - 1); }
  }

  lemma {:induction false} DrainAllAt(q: Queue<Unit>, n: nat, prio: int)
    requires AllAt(q, prio)
    ensures AllAt(Drain(q, n).rest, prio)
  {
    if q != [] && q[0].data.left <= n { DrainAllAt(q[1..], n - q[0].data.left, prio); }
  }

  /** Only calls made so far have bytes in the line. */
  lemma KnownCalls(line: seq<Unit>, calls: seq<Call>, i: nat)
    requires Accounted(line, calls) && i < |line|
    ensures line[i].call < |calls|
  {
    FoundIn(line, i);
    assert Of(line[i].call, line) == Units(line[i].call, 0, MovedBy(calls, line[i].call));
  }

  lemma WriteAppends(s: State, e: Event, s': State)
    requires WaitInv(s.pipe) && e.Wrote? && Next(s, e, s') && AllAt(s.pipe.writers, e.prio)
    ensures s'.Line() == s.Line() + Contributed(e)
  {
    var a, b := WriteExtendsLine(s, e, s');
    var x := Contributed(e);
    assert a + b == a && a + x + b == a + x;
  }

  lemma WriteAllAt(s: State, e: Event, s': State)
    requires e.Wrote? && Next(s, e, s') && AllAt(s.pipe.writers, e.prio)
    ensures AllAt(s'.pipe.writers, e.prio)
  {
  }

  lemma WriteInOrder(s: State, e: Event, s': State, prio: int)
    requires StateInv(s) && e.Wrote? && e.prio == prio && Next(s, e, s')
    requires InCallOrder(s.Line()) && AllAt(s.pipe.writers, prio)
    ensures InCallOrder(s'.Line()) && AllAt(s'.pipe.writers, prio)
  {
    WriteAppends(s, e, s');
    WriteAllAt(s, e, s');
    ContributedIs(s, e, s');
    NewCallInOrder(s.Line(), s.calls, Contributed(e));
  }

  lemma NewCallInOrder(line: seq<Unit>, calls: seq<Call>, x: seq<Unit>)
    requires InCallOrder(line) && Accounted(line, calls) && forall i | 0 <= i < |x| :: x[i].call == |calls|
    ensures InCallOrder(line + x)
  {
    forall i: nat | i < |line| ensures line[i].call < |calls| {
      KnownCalls(line, calls, i);
    }
    AppendInOrder(line, x, |calls|);
  }

  lemma AppendInOrder(line: seq<Unit>, x: seq<Unit>, call: nat)
    requires InCallOrder(line) && (forall i | 0 <= i < |line| :: line[i].call < call)
    requires forall i | 0 <= i < |x| :: x[i].call == call
    ensures InCallOrder(line + x)
  {
  }

  lemma CutInOrder(a: seq<Unit>, x: seq<Unit>, b: seq<Unit>)
    requires InCallOrder(a + x + b)
    ensures InCallOrder(a + b)
  {
    var s, t := a + x + b, a + b;
    forall i, j | 0 <= i < j < |t| ensures t[i].call <= t[j].call {
      assert t[i] == s[if i < |a| then i else i + |x|] && t[j] == s[if j < |a| then j else j + |x|];
    }
  }

  lemma NextInOrder(s: State, e: Event, s': State, prio: int)
    requires StateInv(s) && Next(s, e, s') && (e.Wrote? ==> e.prio == prio)
    requires InCallOrder(s.Line()) && AllAt(s.pipe.writers, prio)
    ensures InCallOrder(s'.Line()) && AllAt(s'.pipe.writers, prio)
  {
    match e
    case Wrote(_, _, _, _, _, _, _, _) => WriteInOrder(s, e, s', prio);
    case Got(_, _, _, _, _, _, _, _) => GotInOrder(s, e, s', prio);
    case WriterTimedOut(i) => TimeoutInOrder(s, i, s', prio);
    case ReaderTimedOut(i) => ReaderTimeoutInOrder(s, i, s', prio);
  }

  lemma GotInOrder(s: State, e: Event, s': State, prio: int)
    requires e.Got? && Next(s, e, s') && InCallOrder(s.Line()) && AllAt(s.pipe.writers, prio)
    ensures InCallOrder(s'.Line()) && AllAt(s'.pipe.writers, prio)
  {
    GotKeepsLine(s, e, s');
    if !GetRefused(s.pipe, e.minXfer, e.noWait) {
      DrainAllAt(s.pipe.writers, Min(e.want, Total(s.pipe.writers)), prio);
    }
  }

  lemma TimeoutInOrder(s: State, i: nat, s': State, prio: int)
    requires Next(s, WriterTimedOut(i), s') && InCallOrder(s.Line()) && AllAt(s.pipe.writers, prio)
    ensures InCallOrder(s'.Line()) && AllAt(s'.pipe.writers, prio)
  {
    var a, b := TimeoutCutsLine(s, i, s');
    CutInOrder(a, s.pipe.writers[i].data.bytes, b);
    WithoutAllAt(s.pipe.writers, i, prio);
  }

  lemma ReaderTimeoutInOrder(s: State, i: nat, s': State, prio: int)
    requires Next(s, ReaderTimedOut(i), s') && InCallOrder(s.Line()) && AllAt(s.pipe.writers, prio)
    ensures InCallOrder(s'.Line()) && AllAt(s'.pipe.writers, prio)
  {
    assert s'.Line() == s.Line();
  }

  lemma WithoutAllAt(q: Queue<Unit>, i: nat, prio: int)
    requires AllAt(q, prio) && i < |q|
    ensures AllAt(Without(q, i), prio)
  {
    forall j | 0 <= j < |q| - 1 ensures Without(q, i)[j].prio == prio {
      assert Without(q, i)[j] == q[if j < i then j else j + 1];
    }
  }

  /** With writers of one priority the whole pipe is first in, first out: bytes are delivered in the
      order of the calls that wrote them. */
  lemma {:induction false} OnePriorityRunIsFifo(size: nat, events: seq<Event>, s: State, prio: int)
    requires Reaches(size, events, s) && OnePriority(events, prio)
    ensures InCallOrder(s.Line()) && AllAt(s.pipe.writers, prio)
    decreases |events|
  {
    if events != [] {
      var n := |events| - 1;
      var before :| Reaches(size, events[..n], before) && Next(before, events[n], s);
      OnePriorityRunIsFifo(size, events[..n], before, prio);
      EveryRunKeepsInv(size, events[..n], before);
      NextInOrder(before, events[n], s, prio);
    }
  }
}
