/** What a pipe promises, as a value: one stream of bytes, made of the buffered bytes followed by
    the bytes that waiting writers still have to deliver. The code only ever copies bytes, so their type
    `T` is left open. */
module PipeSpec {
  import opened WaitQueue
  import opened Common

  /** A pending transfer. For a writer `bytes` are still to be sent; for a reader `bytes` have been
      received. `left` counts the bytes still to move. */
  datatype Desc<T> = Desc(bytes: seq<T>, left: nat)

  type Queue<T> = seq<Waiter<Desc<T>>>

  /** Bytes that the threads of `q` still have to move. */
  function Total<T>(q: Queue<T>): (r: nat) {
    if q == [] then 0 else q[0].data.left + Total(q[1..])
  }

  /** The pending bytes of waiting writers, in queue order. */
  function Flat<T>(q: Queue<T>): (r: seq<T>) {
    if q == [] then [] else q[0].data.bytes + Flat(q[1..])
  }

  datatype Pipe<T> = Pipe(size: nat, contents: seq<T>, readers: Queue<T>, writers: Queue<T>) {
    function Stream(): (r: seq<T>) {
      contents + Flat(writers)
    }
  }

  /** What the transfer code relies on and never checks: readers and writers do not wait together,
      waiting readers mean an empty buffer, waiting writers mean a full one, and every waiter still
      has something to move. */
  ghost predicate WaitInv<T>(p: Pipe<T>) {
    && |p.contents| <= p.size
    && (p.readers != [] ==> p.contents == [] && p.writers == [])
    && (p.writers != [] ==> |p.contents| == p.size && p.readers == [])
    && (forall i | 0 <= i < |p.readers| :: p.readers[i].data.left > 0)
    && (forall i | 0 <= i < |p.writers| :: WriterOk(p.writers[i]))
  }

  predicate WriterOk<T>(w: Waiter<Desc<T>>) {
    w.data.left == |w.data.bytes| > 0
  }

  // ---- serving a queue

  /** Threads completed, and the queue left behind. */
  datatype Served<T> = Served(done: Queue<T>, rest: Queue<T>)

  /** Hand `bytes` to waiting readers in queue order. */
  function Fill<T>(q: Queue<T>, bytes: seq<T>): (r: Served<T>)
    decreases |q|
  {
    if q == [] then Served([], [])
    else
      var d := q[0].data;
      if d.left <= |bytes| then
        var more := Fill(q[1..], bytes[d.left..]);
        Served([q[0].(data := Desc(d.bytes + bytes[..d.left], 0))] + more.done, more.rest)
      else
        Served([], [q[0].(data := Desc(d.bytes + bytes, d.left - |bytes|))] + q[1..])
  }

  /** Take `n` bytes from waiting writers in queue order. */
  function Drain<T>(q: Queue<T>, n: nat): (r: Served<T>)
    decreases |q|
  {
    if q == [] then Served([], [])
    else
      var d := q[0].data;
      if d.left <= n then
        var more := Drain(q[1..], n - d.left);
        Served([q[0].(data := Desc([], 0))] + more.done, more.rest)
      else if n <= |d.bytes| then
        Served([], [q[0].(data := Desc(d.bytes[n..], d.left - n))] + q[1..])
      else Served([], q)
  }

  // ---- the two operations

  /** What a call has come to: `NoSpace` is -EIO, `Moved` a return code and a count. */
  datatype Reply = NoSpace | Moved(code: int, count: nat) | Pended

  const EAGAIN := -11

  /** `_pipe_return_code`. */
  function ReturnCode(minXfer: nat, left: nat, requested: nat): (r: int)
    requires left <= requested
  {
    if requested - left >= minXfer then 0 else EAGAIN
  }

  /** How a write's bytes are shared out: copied to waiting readers, put in the buffer, not moved. */
  datatype Share<T> = Share(direct: seq<T>, buffered: seq<T>, left: seq<T>)

  /** Bytes put into the pipe: first to waiting readers in queue order, then to the buffer, in order
      and as many as there is room for. */
  ghost predicate Deposited<T>(p: Pipe<T>, data: seq<T>, p': Pipe<T>, done: Queue<T>, s: Share<T>) {
    && data == s.direct + s.buffered + s.left
    && |s.direct| == Min(|data|, Total(p.readers))
    && Served(done, p'.readers) == Fill(p.readers, s.direct)
    && p'.contents == p.contents + s.buffered
    && |p'.contents| <= p'.size && (s.left != [] ==> |p'.contents| == p'.size)
    && p'.size == p.size && p'.writers == p.writers
  }

  predicate PutRefused<T>(p: Pipe<T>, minXfer: nat, noWait: bool) {
    noWait && Total(p.readers) + (p.size - |p.contents|) < minXfer
  }

  /** What a call that moved `moved` of `requested` units answers. */
  function ReplyTo(requested: nat, moved: nat, minXfer: nat, noWait: bool): (r: Reply)
    requires moved <= requested
  {
    if moved == requested then Moved(0, requested)
    else if noWait then Moved(ReturnCode(minXfer, requested - moved, requested), moved)
    else Pended
  }

  /** A write: what cannot be deposited waits. */
  ghost predicate Put<T>(p: Pipe<T>, thread: nat, prio: int, data: seq<T>, minXfer: nat, noWait: bool,
                         p': Pipe<T>, done: Queue<T>, reply: Reply, s: Share<T>)
  {
    if PutRefused(p, minXfer, noWait) then
      p' == p && done == [] && reply == NoSpace && s == Share([], [], data)
    else
      && Deposited(p, data, p'.(writers := p.writers), done, s)
      && reply == ReplyTo(|data|, |data| - |s.left|, minXfer, noWait)
      && p'.writers == if reply.Pended? then Insert(p.writers, Waiter(thread, prio, Desc(s.left, |s.left|)))
                       else p.writers
  }

  /** Bytes taken from the pipe: the first of the stream, in order, as many as wanted or all there are;
      writers whose bytes are used up are done, and the buffer is topped up from those that wait. */
  ghost predicate Withdrew<T>(p: Pipe<T>, want: nat, p': Pipe<T>, done: Queue<T>, data: seq<T>) {
    && data + p'.Stream() == p.Stream()
    && |data| <= want && (|data| < want ==> p'.Stream() == [])
    && Served(done, p'.writers) == Drain(p.writers, Min(want, Total(p.writers)))
    && p'.size == p.size && p'.readers == p.readers
  }

  predicate GetRefused<T>(p: Pipe<T>, minXfer: nat, noWait: bool) {
    noWait && Total(p.writers) + |p.contents| < minXfer
  }

  /** A read: what the stream cannot give is waited for. */
  ghost predicate Get<T>(p: Pipe<T>, thread: nat, prio: int, want: nat, minXfer: nat, noWait: bool,
                      p': Pipe<T>, done: Queue<T>, reply: Reply, data: seq<T>)
  {
    if GetRefused(p, minXfer, noWait) then
      p' == p && done == [] && reply == NoSpace && data == []
    else
      && Withdrew(p, want, p'.(readers := p.readers), done, data)
      && reply == ReplyTo(want, |data|, minXfer, noWait)
      && p'.readers == if reply.Pended? then Insert(p.readers, Waiter(thread, prio, Desc(data, want - |data|)))
                       else p.readers
  }

  /** While readers wait there is nothing to read. */
  lemma ReadsNothing<T>(p: Pipe<T>, thread: nat, prio: int, want: nat, minXfer: nat, noWait: bool,
                        p': Pipe<T>, done: Queue<T>, reply: Reply, data: seq<T>)
    requires WaitInv(p) && p.readers != [] && Get(p, thread, prio, want, minXfer, noWait, p', done, reply, data)
    ensures data == []
  {
    assert p.Stream() == [];
    if !GetRefused(p, minXfer, noWait) {
      assert |data| <= |p.Stream()|;
    }
  }

  /** What a read does to the readers' queue. */
  lemma GetReaders<T>(p: Pipe<T>, thread: nat, prio: int, want: nat, minXfer: nat, noWait: bool,
                      p': Pipe<T>, done: Queue<T>, reply: Reply, data: seq<T>)
    requires Get(p, thread, prio, want, minXfer, noWait, p', done, reply, data)
    ensures if reply.Pended? then
        |data| <= want && p'.readers == Insert(p.readers, Waiter(thread, prio, Desc(data, want - |data|)))
      else p'.readers == p.readers
  {
  }

  // ---- lemmas on serving

  lemma {:induction false} FlatTotal<T>(q: Queue<T>)
    requires forall i | 0 <= i < |q| :: WriterOk(q[i])
    ensures |Flat(q)| == Total(q)
  {
    if q != [] { FlatTotal(q[1..]); }
  }

  lemma {:induction false} FlatAppend<T>(a: Queue<T>, b: Queue<T>)
    ensures Flat(a + b) == Flat(a) + Flat(b) && Total(a + b) == Total(a) + Total(b)
  {
    if a == [] {
      assert a + b == b;
    } else {
      assert (a + b)[1..] == a[1..] + b;
      FlatAppend(a[1..], b);
    }
  }

  /** Draining takes exactly the first `n` pending bytes; whoever leaves the queue is finished. */
  lemma {:induction false} DrainTakesPrefix<T>(q: Queue<T>, n: nat)
    requires forall i | 0 <= i < |q| :: WriterOk(q[i])
    requires n <= Total(q)
    ensures |Flat(q)| == Total(q) && Flat(q)[n..] == Flat(Drain(q, n).rest)
    ensures forall i | 0 <= i < |Drain(q, n).rest| :: WriterOk(Drain(q, n).rest[i])
    ensures forall i | 0 <= i < |Drain(q, n).done| :: Drain(q, n).done[i].data == Desc([], 0)
  {
    FlatTotal(q);
    if q != [] {
      var d := q[0].data;
      if d.left <= n {
        DrainTakesPrefix(q[1..], n - d.left);
      }
    }
  }

  /** Nothing is left in the queue exactly when everything pending was taken. */
  lemma {:induction false} DrainEmpty<T>(q: Queue<T>, n: nat)
    requires forall i | 0 <= i < |q| :: WriterOk(q[i])
    requires n <= Total(q)
    ensures Drain(q, n).rest == [] <==> n == Total(q)
  {
    if q != [] && q[0].data.left <= n { DrainEmpty(q[1..], n - q[0].data.left); }
  }

  /** What readers received between two states of the same queue, in queue order. */
  function Gained<T>(before: Queue<T>, after: Queue<T>): (r: seq<T>)
    requires |before| == |after|
  {
    if before == [] then []
    else
      var b, a := before[0].data.bytes, after[0].data.bytes;
      (if |b| <= |a| then a[|b|..] else []) + Gained(before[1..], after[1..])
  }

  /** Filling completes exactly the readers that leave the queue. */
  lemma {:induction false} FillCompletes<T>(q: Queue<T>, bytes: seq<T>)
    requires forall i | 0 <= i < |q| :: q[i].data.left > 0
    requires |bytes| <= Total(q)
    ensures var r := Fill(q, bytes);
      && |r.done| + |r.rest| == |q|
      && Total(r.rest) == Total(q) - |bytes|
      && (forall i | 0 <= i < |r.done| :: r.done[i].data.left == 0)
      && (forall i | 0 <= i < |r.rest| :: r.rest[i].data.left > 0)
      && (r.rest == [] <==> |bytes| == Total(q))
  {
    if q != [] && q[0].data.left <= |bytes| {
      FillCompletes(q[1..], bytes[q[0].data.left..]);
    }
  }

  /** A reader that got some of the bytes it wants. */
  function Topped<T>(w: Waiter<Desc<T>>, bytes: seq<T>): (r: Waiter<Desc<T>>)
    requires |bytes| <= w.data.left
  {
    w.(data := Desc(w.data.bytes + bytes, w.data.left - |bytes|))
  }

  lemma FillStep<T>(q: Queue<T>, bytes: seq<T>)
    requires q != [] && q[0].data.left <= |bytes|
    ensures var d := q[0].data; var more := Fill(q[1..], bytes[d.left..]);
      Fill(q, bytes) == Served([q[0].(data := Desc(d.bytes + bytes[..d.left], 0))] + more.done, more.rest)
  {
  }

  lemma {:induction false} FillCons<T>(w: Waiter<Desc<T>>, q: Queue<T>, x: seq<T>, y: seq<T>)
    requires |x| == w.data.left
    ensures var r := Fill(q, y); Fill([w] + q, x + y) == Served([Topped(w, x)] + r.done, r.rest)
  {
    assert ([w] + q)[1..] == q && (x + y)[..|x|] == x && (x + y)[|x|..] == y;
    FillStep([w] + q, x + y);
  }

  lemma {:induction false} GainedHead<T>(x: Waiter<Desc<T>>, y: Waiter<Desc<T>>, before: Queue<T>, after: Queue<T>, g: seq<T>)
    requires |before| == |after| && x.data.bytes + g == y.data.bytes
    ensures Gained([x] + before, [y] + after) == g + Gained(before, after)
  {
    assert ([x] + before)[1..] == before && ([y] + after)[1..] == after;
    assert y.data.bytes[|x.data.bytes|..] == g;
  }

  /** Filling splits `bytes` over the readers in queue order. */
  lemma {:induction false} FillDelivers<T>(q: Queue<T>, bytes: seq<T>)
    requires |bytes| <= Total(q)
    ensures var r := Fill(q, bytes); |r.done| + |r.rest| == |q| && Gained(q, r.done + r.rest) == bytes
  {
    if q != [] {
      var w, q', n := q[0], q[1..], q[0].data.left;
      assert q == [w] + q';
      if n <= |bytes| {
        var x, y := bytes[..n], bytes[n..];
        assert bytes == x + y;
        var more := Fill(q', y);
        FillDelivers(q', y);
        FillCons(w, q', x, y);
        Reassociate([Topped(w, x)], more.done, more.rest);
        GainedHead(w, Topped(w, x), q', more.done + more.rest, x);
      } else {
        NothingGained(q');
        GainedHead(w, Topped(w, bytes), q', q', bytes);
        assert Fill(q, bytes).done + Fill(q, bytes).rest == [Topped(w, bytes)] + q';
      }
    }
  }

  /** Filling keeps who the readers are and what they asked for. */
  lemma {:induction false} FillKeepsRequests<T>(q: Queue<T>, bytes: seq<T>)
    ensures var r := Fill(q, bytes); SameRequests(q, r.done + r.rest)
  {
    var r := Fill(q, bytes);
    if q == [] {
    } else if q[0].data.left <= |bytes| {
      var more := Fill(q[1..], bytes[q[0].data.left..]);
      FillKeepsRequests(q[1..], bytes[q[0].data.left..]);
      assert r.done + r.rest == [r.done[0]] + (more.done + more.rest);
    } else {
      assert r.done + r.rest == r.rest;
      SameAsItself(q[1..]);
    }
  }

  lemma {:induction false} SameAsItself<T>(q: Queue<T>)
    ensures SameRequests(q, q)
  {
    if q != [] { SameAsItself(q[1..]); }
  }

  lemma {:induction false} NothingGained<T>(q: Queue<T>)
    ensures Gained(q, q) == []
  {
    if q != [] { NothingGained(q[1..]); }
  }

  /** Same thread, same total request, and what was received before still heads what it has now. */
  ghost predicate SameRequest<T>(before: Waiter<Desc<T>>, after: Waiter<Desc<T>>) {
    && before.thread == after.thread && before.prio == after.prio
    && before.data.bytes <= after.data.bytes
    && |before.data.bytes| + before.data.left == |after.data.bytes| + after.data.left
  }

  ghost predicate SameRequests<T>(before: Queue<T>, after: Queue<T>) {
    if before == [] then after == []
    else after != [] && SameRequest(before[0], after[0]) && SameRequests(before[1..], after[1..])
  }

  // ---- what the operations keep

  lemma DepositedWaitInv<T>(p: Pipe<T>, data: seq<T>, p': Pipe<T>, done: Queue<T>, s: Share<T>)
    requires WaitInv(p) && Deposited(p, data, p', done, s)
    ensures WaitInv(p') && (s.left != [] ==> p'.readers == [] && |p'.contents| == p.size)
  {
    FillCompletes(p.readers, s.direct);
    assert |data| == |s.direct| + |s.buffered| + |s.left|;
    assert |p'.contents| == |p.contents| + |s.buffered|;
    if p.writers != [] { assert p'.contents == p.contents; }
  }

  lemma PutKeepsWaitInv<T>(p: Pipe<T>, thread: nat, prio: int, data: seq<T>, minXfer: nat, noWait: bool,
                           p': Pipe<T>, done: Queue<T>, reply: Reply, s: Share<T>)
    requires WaitInv(p) && Put(p, thread, prio, data, minXfer, noWait, p', done, reply, s)
    ensures WaitInv(p')
  {
    if !PutRefused(p, minXfer, noWait) {
      DepositedWaitInv(p, data, p'.(writers := p.writers), done, s);
      if reply.Pended? {
        InsertKeeps(p.writers, Waiter(thread, prio, Desc(s.left, |s.left|)));
      }
    }
  }

  lemma InsertKeeps<T>(q: Queue<T>, w: Waiter<Desc<T>>)
    ensures (forall i | 0 <= i < |q| :: WriterOk(q[i])) && WriterOk(w) ==>
      forall i | 0 <= i < |Insert(q, w)| :: WriterOk(Insert(q, w)[i])
    ensures (forall i | 0 <= i < |q| :: q[i].data.left > 0) && w.data.left > 0 ==>
      forall i | 0 <= i < |Insert(q, w)| :: Insert(q, w)[i].data.left > 0
  {
  }

  lemma WithdrewWaitInv<T>(p: Pipe<T>, want: nat, p': Pipe<T>, done: Queue<T>, data: seq<T>)
    requires WaitInv(p) && Withdrew(p, want, p', done, data)
    ensures WaitInv(p') && (|data| < want ==> p'.writers == [] && p'.contents == [])
  {
    var drained := Min(want, Total(p.writers));
    DrainTakesPrefix(p.writers, drained);
    DrainEmpty(p.writers, drained);
    FlatTotal(p'.writers);
    assert |p.Stream()| == |data| + |p'.contents| + |Flat(p'.writers)|;
    if |data| < want { assert p'.Stream() == []; }
  }

  lemma GetKeepsWaitInv<T>(p: Pipe<T>, thread: nat, prio: int, want: nat, minXfer: nat, noWait: bool,
                        p': Pipe<T>, done: Queue<T>, reply: Reply, data: seq<T>)
    requires WaitInv(p) && Get(p, thread, prio, want, minXfer, noWait, p', done, reply, data)
    ensures WaitInv(p')
  {
    if !GetRefused(p, minXfer, noWait) {
      WithdrewWaitInv(p, want, p'.(readers := p.readers), done, data);
      if reply.Pended? {
        InsertKeeps(p.readers, Waiter(thread, prio, Desc(data, want - |data|)));
      }
    }
  }

  /** A read takes exactly the first bytes of the stream, and there is only one way to be the pipe it
      leaves: what was handed over and what remains are determined. */
  lemma GetIsDetermined<T>(p: Pipe<T>, want: nat, p1: Pipe<T>, done1: Queue<T>, data1: seq<T>,
                        p2: Pipe<T>, done2: Queue<T>, data2: seq<T>)
    requires Withdrew(p, want, p1, done1, data1) && Withdrew(p, want, p2, done2, data2)
    ensures data1 == p.Stream()[..Min(want, |p.Stream()|)]
    ensures p1 == p2 && done1 == done2 && data1 == data2
  {
    var n := Min(want, |p.Stream()|);
    PrefixOf(p.Stream(), data1, p1.Stream(), n);
    PrefixOf(p.Stream(), data2, p2.Stream(), n);
    SuffixOf(p1.contents, p2.contents, Flat(p1.writers));
  }

  lemma PrefixOf<T>(s: seq<T>, a: seq<T>, b: seq<T>, n: nat)
    requires a + b == s && n == |a|
    ensures a == s[..n] && b == s[n..]
  {
  }

  lemma SuffixOf<T>(a: seq<T>, b: seq<T>, f: seq<T>)
    requires a + f == b + f
    ensures a == b
  {
    assert |a + f| == |b + f|;
    assert a == (a + f)[..|a|] && b == (b + f)[..|a|];
  }

  /** A call that may not wait either moves at least the minimum and reports success, or is refused
      and moves nothing. */
  lemma NoWaitPut<T>(p: Pipe<T>, thread: nat, prio: int, data: seq<T>, minXfer: nat,
                     p': Pipe<T>, done: Queue<T>, reply: Reply, s: Share<T>)
    requires WaitInv(p) && minXfer <= |data|
    requires Put(p, thread, prio, data, minXfer, true, p', done, reply, s)
    ensures if reply.NoSpace? then p' == p && done == [] && Total(p.readers) + (p.size - |p.contents|) < minXfer
            else reply.Moved? && reply.code == 0 && minXfer <= reply.count == |data| - |s.left|
  {
    if !PutRefused(p, minXfer, true) {
      assert |data| == |s.direct| + |s.buffered| + |s.left|;
      assert |p'.contents| == |p.contents| + |s.buffered|;
    }
  }

  lemma NoWaitGet<T>(p: Pipe<T>, thread: nat, prio: int, want: nat, minXfer: nat,
                  p': Pipe<T>, done: Queue<T>, reply: Reply, data: seq<T>)
    requires WaitInv(p) && minXfer <= want && Get(p, thread, prio, want, minXfer, true, p', done, reply, data)
    ensures if reply.NoSpace? then p' == p && done == [] && |p.Stream()| < minXfer
            else reply.Moved? && reply.code == 0 && minXfer <= reply.count == |data| <= want
  {
    FlatTotal(p.writers);
    if !GetRefused(p, minXfer, true) {
      var q := p'.(readers := p.readers);
      assert |data| + |q.Stream()| == |p.Stream()|;
    }
  }

  /** Every thread that a write takes off the readers' queue has received all it asked for. */
  lemma {:induction false} PutFinishesReaders<T>(p: Pipe<T>, data: seq<T>, p': Pipe<T>, done: Queue<T>, s: Share<T>)
    requires WaitInv(p) && Deposited(p, data, p', done, s)
    ensures forall i | 0 <= i < |done| :: done[i].data.left == 0
    ensures SameRequests(p.readers, done + p'.readers) && |done| + |p'.readers| == |p.readers|
    ensures Gained(p.readers, done + p'.readers) == s.direct
  {
    FillCompletes(p.readers, s.direct);
    FillKeepsRequests(p.readers, s.direct);
    FillDelivers(p.readers, s.direct);
  }

  lemma {:induction false} TotalCons<T>(w: Waiter<Desc<T>>, q: Queue<T>)
    ensures Total([w] + q) == w.data.left + Total(q)
  {
    assert ([w] + q)[1..] == q;
  }

  /** The writers that draining completes are the first of the queue. */
  lemma {:induction false} DrainDone<T>(q: Queue<T>, n: nat)
    requires n <= Total(q)
    ensures var k := |Drain(q, n).done|; k <= |q| && Total(q[..k]) <= n
    ensures forall i | 0 <= i < |Drain(q, n).done| :: Drain(q, n).done[i].thread == q[i].thread
  {
    if q != [] && q[0].data.left <= n {
      var tail, w := q[1..], q[0];
      var more := Drain(tail, n - w.data.left);
      DrainDone(tail, n - w.data.left);
      var k := |more.done|;
      assert q[..k + 1] == [w] + tail[..k];
      TotalCons(w, tail[..k]);
      assert Drain(q, n).done == [w.(data := Desc([], 0))] + more.done;
      forall i | 0 <= i < k + 1 ensures ([w.(data := Desc([], 0))] + more.done)[i].thread == q[i].thread {
        if i > 0 { assert q[i] == tail[i - 1]; }
      }
    }
  }

  /** Every thread that a read takes off the writers' queue has nothing left to send, and all its bytes
      were read or are in the buffer, which has room for them: the read leaves there what it did not take
      of the bytes that were buffered and of those it drained. */
  lemma {:induction false} GetFinishesWriters<T>(p: Pipe<T>, want: nat, p': Pipe<T>, done: Queue<T>, data: seq<T>)
    requires WaitInv(p) && Withdrew(p, want, p', done, data)
    ensures forall i | 0 <= i < |done| :: done[i].data == Desc([], 0)
    ensures |done| <= |p.writers| && forall i | 0 <= i < |done| :: done[i].thread == p.writers[i].thread
    ensures p.contents + Flat(p.writers[..|done|]) <= data + p'.contents
    ensures |p'.contents| <= p.size
  {
    var n := Min(want, Total(p.writers));
    DrainTakesPrefix(p.writers, n);
    DrainDone(p.writers, n);
    WithdrewWaitInv(p, want, p', done, data);
    var a, b := p.writers[..|done|], p.writers[|done|..];
    assert p.writers == a + b;
    FlatAppend(a, b);
    FlatTotal(a);
    FirstOf(p.contents, Flat(a), Flat(b), data, p'.contents, Flat(p'.writers), n);
  }

  lemma FirstOf<T>(c: seq<T>, a: seq<T>, b: seq<T>, data: seq<T>, c': seq<T>, f: seq<T>, n: nat)
    requires data + (c' + f) == c + (a + b) && |a| <= n <= |a + b| && (a + b)[n..] == f
    ensures c + a <= data + c'
  {
    assert |data + c'| == |c| + n;
    assert data + (c' + f) == (data + c') + f && c + (a + b) == (c + a) + b;
    assert ((data + c') + f)[..|c + a|] == (data + c')[..|c + a|];
    assert ((c + a) + b)[..|c + a|] == c + a;
  }
}
