/** The pipe object: a circular buffer and two priority wait queues, with data copied directly
    between threads where it can be. */
module Pipe {
  import opened WaitQueue
  import opened PipeSpec
  import opened PipeRing
  import opened Common

  /** Threads whose transfer is complete, as writers are readied. */
  function Finished<T>(q: Queue<T>): (r: Queue<T>)
    ensures |r| == |q|
    ensures forall i | 0 <= i < |q| :: r[i] == q[i].(data := Desc([], 0))
  {
    seq(|q|, i requires 0 <= i < |q| => q[i].(data := Desc([], 0)))
  }

  /** `_pipe_xfer_prepare`: refuse a call that may not wait and cannot move its minimum; otherwise
      count the threads at the head of the queue that this call can serve completely. */
  method Prepare<T>(q: Queue<T>, space: nat, bytes: nat, minXfer: nat, noWait: bool) returns (ok: bool, k: nat)
    requires minXfer <= bytes
    ensures ok <==> !(noWait && Total(q) + space < minXfer)
    ensures ok ==> k <= |q| && Total(q[..k]) <= bytes && (k < |q| ==> bytes < Total(q[..k]) + q[k].data.left)
  {
    k := 0;
    if noWait {
      var num, i := 0, 0;
      while i < |q| && num < bytes
        invariant 0 <= i <= |q| && num == Total(q[..i])
      {
        TotalSnoc(q, i);
        num := num + q[i].data.left;
        i := i + 1;
      }
      TotalPrefix(q, i);
      assert q[..|q|] == q;
      if num + space < minXfer {
        return false, 0;
      }
    }
    ok := true;
    var num := 0;
    while k < |q| && num + q[k].data.left <= bytes
      invariant 0 <= k <= |q| && num == Total(q[..k]) <= bytes
    {
      TotalSnoc(q, k);
      num := num + q[k].data.left;
      k := k + 1;
    }
  }

  lemma TotalSnoc<T>(q: Queue<T>, i: nat)
    requires i < |q|
    ensures Total(q[..i + 1]) == Total(q[..i]) + q[i].data.left
  {
    assert q[..i + 1] == q[..i] + [q[i]];
    FlatAppend(q[..i], [q[i]]);
  }

  lemma {:induction false} TotalPrefix<T>(q: Queue<T>, i: nat)
    requires i <= |q|
    ensures Total(q) == Total(q[..i]) + Total(q[i..])
  {
    assert q == q[..i] + q[i..];
    FlatAppend(q[..i], q[i..]);
  }

  /** Copy into the working readers, completing each. */
  method ServeReaders<T>(xs: Queue<T>, bytes: seq<T>) returns (done: Queue<T>)
    requires |bytes| == Total(xs)
    ensures Served(done, []) == Fill(xs, bytes)
  {
    done := [];
    var left, src := xs, bytes;
    while left != []
      invariant |src| == Total(left)
      invariant Fill(xs, bytes).done == done + Fill(left, src).done && Fill(xs, bytes).rest == Fill(left, src).rest
      decreases |left|
    {
      var want := left[0].data.left;
      FillStep(left, src);
      done := done + [left[0].(data := Desc(left[0].data.bytes + src[..want], 0))];
      left, src := left[1..], src[want..];
    }
  }

  /** Serving two stretches of the queue with two stretches of bytes. */
  lemma {:induction false} FillAppend<T>(a: Queue<T>, b: Queue<T>, first: seq<T>, more: seq<T>)
    requires |first| == Total(a)
    ensures Fill(a + b, first + more) == Served(Fill(a, first).done + Fill(b, more).done, Fill(b, more).rest)
  {
    if a == [] {
      assert a + b == b && first + more == more;
    } else {
      var w, a', x, f := a[0], a[1..], first[..a[0].data.left], first[a[0].data.left..];
      FillAppend(a', b, f, more);
      FillCons(w, a' + b, x, f + more);
      FillCons(w, a', x, f);
      Reassociate([w], a', b);
      Reassociate(x, f, more);
      assert a == [w] + a' && first == x + f;
      Reassociate([Topped(w, x)], Fill(a', f).done, Fill(b, more).done);
    }
  }

  /** Direct copies of a write: `k` readers completed and taken off the queue, then as much as is left
      for the next one, which stays. */
  method ToReaders<T>(q: Queue<T>, k: nat, data: seq<T>) returns (done: Queue<T>, rest: Queue<T>, n: nat)
    requires k <= |q| && Total(q[..k]) <= |data| && (k < |q| ==> |data| < Total(q[..k]) + q[k].data.left)
    ensures n == Min(|data|, Total(q)) && Served(done, rest) == Fill(q, data[..n])
  {
    TotalPrefix(q, k);
    var first := data[..Total(q[..k])];
    done := ServeReaders(q[..k], first);
    rest, n := q[k..], |first|;
    ghost var more := if rest == [] then [] else data[n..];
    FillAppend(q[..k], q[k..], first, more);
    assert q == q[..k] + q[k..];
    if rest != [] {
      rest := [Topped(rest[0], data[n..])] + rest[1..];
      n := |data|;
    }
    assert data[..n] == first + more;
  }

  /** Copy straight from the working writers into a reader's buffer, readying each writer that is
      used up before the reader is satisfied. */
  method TakeDirect<T>(xs: Queue<T>, want: nat) returns (out: seq<T>, done: Queue<T>, left: Queue<T>)
    requires forall i | 0 <= i < |xs| :: WriterOk(xs[i])
    ensures Flat(xs) == out + Flat(left)
    ensures |out| <= want && (|out| < want ==> left == [])
    ensures done + Finished(left) == Finished(xs)
    ensures forall i | 0 <= i < |left| :: left[i].data.left == |left[i].data.bytes|
  {
    out, done, left := [], [], xs;
    while left != [] && |out| < want
      invariant |out| <= want && Flat(xs) == out + Flat(left)
      invariant |done| <= |xs| && left == xs[|done|..] && done == Finished(xs)[..|done|]
      decreases |left|
    {
      var d := left[0].data;
      var c := Min(want - |out|, d.left);
      CutMoves(out, d.bytes, c, Flat(left[1..]));
      out := out + d.bytes[..c];
      var w := left[0].(data := Desc(d.bytes[c..], d.left - c));
      if |out| == want {
        left := [w] + left[1..];
        assert Finished(left) == Finished(xs)[|done|..];
        break;
      }
      assert d.bytes[c..] == [] && w == Finished(xs)[|done|];
      done := done + [w];
      left := left[1..];
    }
    assert Finished(left) == Finished(xs)[|done|..];
  }

  lemma CutMoves<T>(out: seq<T>, bytes: seq<T>, c: nat, rest: seq<T>)
    requires c <= |bytes|
    ensures out + (bytes + rest) == (out + bytes[..c]) + (bytes[c..] + rest)
    ensures c == |bytes| ==> bytes[c..] + rest == rest
  {
  }

  /** Move what is left of the working writers into the buffer, readying each. */
  method RefillFrom<T(0)>(ring: Ring<T>, left: Queue<T>) returns (done: Queue<T>)
    requires ring.Valid()
    requires forall i | 0 <= i < |left| :: left[i].data.left == |left[i].data.bytes|
    requires |ring.contents| + |Flat(left)| <= ring.size
    modifies ring, ring.buffer
    ensures ring.Valid() && ring.contents == old(ring.contents) + Flat(left)
    ensures done == Finished(left)
  {
    done := [];
    var i := 0;
    assert left[0..] == left;
    while i < |left|
      invariant 0 <= i <= |left| && done == Finished(left)[..i]
      invariant ring.Valid() && ring.contents + Flat(left[i..]) == old(ring.contents) + Flat(left)
    {
      var d := left[i].data;
      assert left[i..][1..] == left[i + 1..];
      assert ring.contents + (d.bytes + Flat(left[i + 1..])) == (ring.contents + d.bytes) + Flat(left[i + 1..]);
      var n := ring.Put(d.bytes);
      assert n == |d.bytes| && d.bytes[..n] == d.bytes && d.bytes[n..] == [];
      assert left[i].(data := Desc(d.bytes[n..], d.left - n)) == Finished(left)[i];
      done := done + [left[i].(data := Desc(d.bytes[n..], d.left - n))];
      i := i + 1;
    }
    assert Flat(left[i..]) == [];
  }

  /** The queue that a read of `n` pending bytes leaves: `k` writers finished, the next one cut. */
  lemma {:induction false} DrainSplit<T>(q: Queue<T>, k: nat, n: nat)
    requires forall i | 0 <= i < |q| :: WriterOk(q[i])
    requires k <= |q| && Total(q[..k]) <= n <= Total(q)
    requires k < |q| ==> WriterOk(q[k]) && n < Total(q[..k]) + q[k].data.left
    ensures Drain(q, n).done == Finished(q[..k])
    ensures Drain(q, n).rest == if k == |q| then [] else [Cut(q[k], n - Total(q[..k]))] + q[k + 1..]
  {
    if k == 0 {
      assert q[..k] == [];
    } else {
      assert q[..k][1..] == q[1..][..k - 1];
      DrainSplit(q[1..], k - 1, n - q[0].data.left);
    }
  }

  /** A waiting writer after `n` of its bytes were taken. */
  function Cut<T>(w: Waiter<Desc<T>>, n: nat): (r: Waiter<Desc<T>>)
    requires n <= w.data.left == |w.data.bytes|
  {
    w.(data := Desc(w.data.bytes[n..], w.data.left - n))
  }

  lemma {:induction false} FlatCut<T>(q: Queue<T>, k: nat, used: nat)
    requires k < |q| && used <= q[k].data.left == |q[k].data.bytes|
    ensures Flat(q) == Flat(q[..k]) + q[k].data.bytes[..used] + Flat([Cut(q[k], used)] + q[k + 1..])
  {
    var b := q[k].data.bytes;
    assert q == q[..k] + q[k..] && q[k..][1..] == q[k + 1..];
    FlatAppend(q[..k], q[k..]);
    CutMoves(Flat(q[..k]), b, used, Flat(q[k + 1..]));
    assert ([Cut(q[k], used)] + q[k + 1..])[1..] == q[k + 1..];
  }

  lemma StreamRegrouped<T>(a: seq<T>, b: seq<T>, c: seq<T>, d: seq<T>, e: seq<T>, f: seq<T>)
    requires a + b == c + d + e
    ensures a + (b + f) == c + (d + e + f)
  {
    assert a + (b + f) == (a + b) + f;
    assert c + (d + e + f) == (c + d + e) + f;
  }

  /** The queue a read leaves, split after the `k` writers it finishes. */
  function LeftOver<T>(q: Queue<T>, k: nat, used: nat): (r: Queue<T>)
    requires k <= |q| && (k < |q| ==> used <= q[k].data.left == |q[k].data.bytes|)
  {
    if k < |q| then [Cut(q[k], used)] + q[k + 1..] else []
  }

  /** The stream after a read, from what the copies preserve up to the split. */
  lemma StreamAfter<T>(p: PipeSpec.Pipe<T>, k: nat, want: nat, head: seq<T>, used: nat, data: seq<T>, contents: seq<T>)
    requires WaitInv(p) && k <= |p.writers| && Total(p.writers[..k]) <= want
    requires k < |p.writers| ==> WriterOk(p.writers[k]) && want < Total(p.writers[..k]) + p.writers[k].data.left
    requires head == if k < |p.writers| then p.writers[k].data.bytes else []
    requires used == if k < |p.writers| then want - Total(p.writers[..k]) else 0
    requires data + contents == p.contents + Flat(p.writers[..k]) + head[..used]
    requires |data| <= want && (|data| < want ==> contents == [])
    ensures data + (contents + Flat(LeftOver(p.writers, k, used))) == p.Stream()
    ensures |data| < want ==> contents + Flat(LeftOver(p.writers, k, used)) == []
  {
    var q := p.writers;
    FlatTotal(q[..k]);
    StreamRegrouped(data, contents, p.contents, Flat(q[..k]), head[..used], Flat(LeftOver(q, k, used)));
    if k < |q| {
      FlatCut(q, k, used);
      assert |data + contents| == p.size + want;
    } else {
      assert q[..k] == q;
    }
  }

  /** A read whose copies preserve the stream up to the split is the specified read. */
  lemma WithdrewIs<T>(p: PipeSpec.Pipe<T>, k: nat, want: nat, head: seq<T>, used: nat, data: seq<T>, contents: seq<T>)
    requires WaitInv(p) && k <= |p.writers| && Total(p.writers[..k]) <= want
    requires k < |p.writers| ==> WriterOk(p.writers[k]) && want < Total(p.writers[..k]) + p.writers[k].data.left
    requires head == if k < |p.writers| then p.writers[k].data.bytes else []
    requires used == if k < |p.writers| then want - Total(p.writers[..k]) else 0
    requires data + contents == p.contents + Flat(p.writers[..k]) + head[..used]
    requires |data| <= want && (|data| < want ==> contents == [])
    ensures Withdrew(p, want, p.(contents := contents, writers := LeftOver(p.writers, k, used)),
                     Finished(p.writers[..k]), data)
  {
    var q := p.writers;
    StreamAfter(p, k, want, head, used, data, contents);
    DrainLeaves(q, k, want, used);
  }

  lemma {:induction false} DrainLeaves<T>(q: Queue<T>, k: nat, want: nat, used: nat)
    requires (forall i | 0 <= i < |q| :: WriterOk(q[i])) && k <= |q| && Total(q[..k]) <= want
    requires k < |q| ==> WriterOk(q[k]) && want < Total(q[..k]) + q[k].data.left
    requires used == if k < |q| then want - Total(q[..k]) else 0
    ensures Drain(q, Min(want, Total(q))) == Served(Finished(q[..k]), LeftOver(q, k, used))
  {
    TotalPrefix(q, k);
    if k == |q| { assert q[..k] == q; }
    DrainSplit(q, k, Min(want, Total(q)));
  }

  /** What a read hands over (`d1`, `d2`, `d3`) comes before what it then moves into the buffer. */
  lemma InStreamOrder<T>(d1: seq<T>, c: seq<T>, d2: seq<T>, w: seq<T>, d3: seq<T>, m: seq<T>)
    requires (c == [] || d2 == []) && ((c == [] && w == []) || d3 == [])
    ensures (d1 + d2 + d3) + (c + w + m) == (d1 + c) + (d2 + w) + (d3 + m)
  {
    if c != [] {
      assert (d1 + d2 + d3) + (c + w + m) == d1 + (c + w + m);
    } else if d3 != [] {
      assert (d1 + d2 + d3) + (c + w + m) == (d1 + d2 + d3) + m;
    }
  }

  /** The copies to the reader: from the buffer, straight from the working writers, and from the next
      writer (`head`, which stays queued). `d1`, `d2` and `d3` are what they give. */
  method Collect<T(0)>(ring: Ring<T>, xfer: Queue<T>, head: seq<T>, want: nat)
    returns (d1: seq<T>, d2: seq<T>, d3: seq<T>, done: Queue<T>, left: Queue<T>)
    requires ring.Valid() && (forall i | 0 <= i < |xfer| :: WriterOk(xfer[i]))
    modifies ring
    ensures ring.Valid() && old(ring.contents) == d1 + ring.contents && Flat(xfer) == d2 + Flat(left)
    ensures d3 <= head && |d1| + |d2| + |d3| <= want
    ensures ring.contents != [] ==> |d1| == want
    ensures left != [] ==> |d1| + |d2| == want
    ensures |d3| < |head| ==> |d1| + |d2| + |d3| == want
    ensures done + Finished(left) == Finished(xfer)
    ensures forall i | 0 <= i < |left| :: left[i].data.left == |left[i].data.bytes|
  {
    d1 := ring.Get(want);
    d2, done, left := TakeDirect(xfer, want - |d1|);
    d3 := head[..Min(want - |d1| - |d2|, |head|)];
  }

  /** All the copies of a read: to the reader, then the refill of the buffer from what the writers
      still hold. */
  method MoveOut<T(0)>(ring: Ring<T>, xfer: Queue<T>, head: seq<T>, want: nat)
    returns (data: seq<T>, done: Queue<T>, used: nat)
    requires ring.Valid() && (forall i | 0 <= i < |xfer| :: WriterOk(xfer[i])) && |Flat(xfer)| <= want
    requires Flat(xfer) != [] || head != [] ==> |ring.contents| == ring.size
    requires head != [] ==> want < |Flat(xfer)| + |head|
    modifies ring, ring.buffer
    ensures ring.Valid()
    ensures done == Finished(xfer)
    ensures used <= |head| && used == if head == [] then 0 else want - |Flat(xfer)|
    ensures data + ring.contents == old(ring.contents) + Flat(xfer) + head[..used]
    ensures |data| <= want && (|data| < want ==> ring.contents == [])
  {
    var d1, d2, d3, done1, left := Collect(ring, xfer, head, want);
    ghost var c, w := ring.contents, Flat(left);
    Leftovers(ring.size, |old(ring.contents)|, |d1|, |c|, |d2|, |w|, |d3|, |head|, want);
    var done2 := RefillFrom(ring, left);
    var rest := head[|d3|..];
    var more := ring.Put(rest);
    data, done, used := d1 + d2 + d3, done1 + done2, |d3| + more;
    InStreamOrder(d1, c, d2, w, d3, rest[..more]);
    assert d3 + rest[..more] == head[..used] by { TakeTwice(head, |d3|, more); }
  }

  /** What the working writers still hold fits the room the read made. */
  lemma Leftovers(size: nat, before: nat, d1: nat, c: nat, d2: nat, w: nat, d3: nat, head: nat, want: nat)
    requires before == d1 + c && d1 + d2 + d3 <= want && d2 + w <= want && before <= size && d3 <= head
    requires d2 + w > 0 || head > 0 ==> before == size
    requires head > 0 ==> want < d2 + w + head
    requires (c > 0 ==> d1 == want) && (w > 0 ==> d1 + d2 == want) && (d3 < head ==> d1 + d2 + d3 == want)
    ensures c + w <= size && (c == 0 || d2 == 0) && ((c == 0 && w == 0) || d3 == 0)
    ensures head > 0 ==> d3 + Min(size - (c + w), head - d3) == want - (d2 + w)
  {
  }

  lemma TakeTwice<T>(h: seq<T>, k: nat, more: nat)
    requires k + more <= |h|
    ensures h[..k] + h[k..][..more] == h[..k + more]
  {
  }

  lemma SharedOut<T>(data: seq<T>, direct: nat, more: nat)
    requires direct + more <= |data|
    ensures data == data[..direct] + data[direct..][..more] + data[direct..][more..]
  {
    assert data == data[..direct] + data[direct..];
  }

  class KPipe<T(0)> {
    const ring: Ring<T>
    var readers: Queue<T>
    var writers: Queue<T>
    var readied: Queue<T>

    ghost function Abs(): (p: PipeSpec.Pipe<T>)
      reads this, ring
    {
      PipeSpec.Pipe(ring.size, ring.contents, readers, writers)
    }

    ghost predicate Valid()
      reads this, ring, ring.buffer
    {
      ring.Valid() && WaitInv(Abs())
    }

    constructor (bytes: array<T>)
      ensures Valid() && Abs() == PipeSpec.Pipe(bytes.Length, [], [], []) && readied == []
      ensures fresh(ring) && ring.buffer == bytes
    {
      ring := new Ring(bytes);
      readers, writers, readied := [], [], [];
    }

    /** The copying part of a write: directly to readers, then into the buffer. */
    method Deposit(k: nat, data: seq<T>) returns (left: seq<T>, ghost done: Queue<T>, ghost s: Share<T>)
      requires ring.Valid() && k <= |readers| && Total(readers[..k]) <= |data|
      requires k < |readers| ==> |data| < Total(readers[..k]) + readers[k].data.left
      modifies this`readers, this`readied, ring, ring.buffer
      ensures ring.Valid() && readied == old(readied) + done && left == s.left
      ensures Deposited(old(Abs()), data, Abs(), done, s)
    {
      var served, rest, direct := ToReaders(readers, k, data);
      readers := rest;
      readied := readied + served;
      var tail := data[direct..];
      var more := ring.Put(tail);
      left := tail[more..];
      done, s := served, Share(data[..direct], tail[..more], left);
      SharedOut(data, direct, more);
    }

    /** The body of `k_pipe_put`. */
    method Send(thread: nat, prio: int, data: seq<T>, minXfer: nat, noWait: bool)
      returns (reply: Reply, ghost done: Queue<T>, ghost s: Share<T>)
      requires ring.Valid() && minXfer <= |data|
      modifies this`readers, this`writers, this`readied, ring, ring.buffer
      ensures ring.Valid() && readied == old(readied) + done
      ensures PipeSpec.Put(old(Abs()), thread, prio, data, minXfer, noWait, Abs(), done, reply, s)
    {
      ghost var p := Abs();
      var ok, k := Prepare(readers, ring.size - ring.bytesUsed, |data|, minXfer, noWait);
      if !ok {
        return NoSpace, [], Share([], [], data);
      }
      var left;
      left, done, s := Deposit(k, data);
      ghost var q := Abs();
      reply := Settle(thread, prio, left, |data|, minXfer, noWait);
      assert Abs().(writers := p.writers) == q;
    }

    /** `k_pipe_put`. */
    method Put(thread: nat, prio: int, data: seq<T>, minXfer: nat, noWait: bool)
      returns (reply: Reply, ghost done: Queue<T>, ghost s: Share<T>)
      requires Valid() && minXfer <= |data|
      modifies this`readers, this`writers, this`readied, ring, ring.buffer
      ensures Valid() && readied == old(readied) + done
      ensures PipeSpec.Put(old(Abs()), thread, prio, data, minXfer, noWait, Abs(), done, reply, s)
    {
      ghost var p := Abs();
      reply, done, s := Send(thread, prio, data, minXfer, noWait);
      PutKeepsWaitInv(p, thread, prio, data, minXfer, noWait, Abs(), done, reply, s);
    }

    /** The end of a write: report, or wait with the bytes that are left. */
    method Settle(thread: nat, prio: int, left: seq<T>, requested: nat, minXfer: nat, noWait: bool)
      returns (reply: Reply)
      requires |left| <= requested
      modifies this`writers
      ensures reply == ReplyTo(requested, requested - |left|, minXfer, noWait)
      ensures writers == if reply.Pended? then Insert(old(writers), Waiter(thread, prio, Desc(left, |left|)))
                         else old(writers)
    {
      if left == [] {
        return Moved(0, requested);
      }
      if noWait {
        return Moved(ReturnCode(minXfer, |left|, requested), requested - |left|);
      }
      writers := Pend(writers, Waiter(thread, prio, Desc(left, |left|)));
      return Pended;
    }

    /** The copying part of a read, with the queue split as prepared. */
    method Withdraw(k: nat, want: nat) returns (data: seq<T>, ghost done: Queue<T>)
      requires Valid() && k <= |writers| && Total(writers[..k]) <= want
      requires k < |writers| ==> want < Total(writers[..k]) + writers[k].data.left
      modifies this`writers, this`readied, ring, ring.buffer
      ensures ring.Valid() && readied == old(readied) + done
      ensures Withdrew(old(Abs()), want, Abs(), done, data)
    {
      ghost var p := Abs();
      FlatTotal(writers[..k]);
      var head := if k < |writers| then writers[k].data.bytes else [];
      var finished, used;
      data, finished, used := MoveOut(ring, writers[..k], head, want);
      WithdrewIs(p, k, want, head, used, data, ring.contents);
      done := finished;
      readied := readied + finished;
      writers := LeftOver(writers, k, used);
    }

    /** The body of `k_pipe_get`. */
    method Receive(thread: nat, prio: int, want: nat, minXfer: nat, noWait: bool)
      returns (reply: Reply, data: seq<T>, ghost done: Queue<T>)
      requires Valid() && minXfer <= want
      modifies this`readers, this`writers, this`readied, ring, ring.buffer
      ensures ring.Valid() && readied == old(readied) + done
      ensures PipeSpec.Get(old(Abs()), thread, prio, want, minXfer, noWait, Abs(), done, reply, data)
    {
      ghost var p := Abs();
      var ok, k := Prepare(writers, ring.bytesUsed, want, minXfer, noWait);
      if !ok {
        return NoSpace, [], [];
      }
      data, done := Withdraw(k, want);
      ghost var q := Abs();
      reply := Await(thread, prio, data, want, minXfer, noWait);
      assert Abs().(readers := p.readers) == q;
    }

    /** `k_pipe_get`. */
    method Get(thread: nat, prio: int, want: nat, minXfer: nat, noWait: bool)
      returns (reply: Reply, data: seq<T>, ghost done: Queue<T>)
      requires Valid() && minXfer <= want
      modifies this`readers, this`writers, this`readied, ring, ring.buffer
      ensures Valid() && readied == old(readied) + done
      ensures PipeSpec.Get(old(Abs()), thread, prio, want, minXfer, noWait, Abs(), done, reply, data)
    {
      ghost var p := Abs();
      reply, data, done := Receive(thread, prio, want, minXfer, noWait);
      GetKeepsWaitInv(p, thread, prio, want, minXfer, noWait, Abs(), done, reply, data);
    }

    /** The end of a read: report, or wait for the rest. */
    method Await(thread: nat, prio: int, data: seq<T>, want: nat, minXfer: nat, noWait: bool)
      returns (reply: Reply)
      requires |data| <= want
      modifies this`readers
      ensures reply == ReplyTo(want, |data|, minXfer, noWait)
      ensures readers == if reply.Pended? then Insert(old(readers), Waiter(thread, prio, Desc(data, want - |data|)))
                         else old(readers)
    {
      if |data| == want {
        return Moved(0, want);
      }
      if noWait {
        return Moved(ReturnCode(minXfer, want - |data|, want), |data|);
      }
      readers := Pend(readers, Waiter(thread, prio, Desc(data, want - |data|)));
      return Pended;
    }
  }
}
