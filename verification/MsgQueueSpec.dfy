/** A message queue as one line of messages: those in the ring buffer, then those of waiting writers.
    One wait queue serves readers and writers. */
module MsgQueueSpec {
  import opened WaitQueue
  import opened Common

  const ENOMSG := -80

  datatype Role = Reader | Writer

  /** What a waiting thread's buffer holds: its message, or for a reader whatever it held before. The
      code never looks at the role. */
  datatype Slot<T> = Slot(role: Role, value: T)

  type Waiters<T> = seq<Waiter<Slot<T>>>

  datatype Queue<T> = Queue(cap: nat, contents: seq<T>, waiters: Waiters<T>) {
    function Line(): (r: seq<T>) {
      contents + Pending(waiters)
    }
  }

  /** The messages of waiting writers, in queue order. */
  function Pending<T>(ws: Waiters<T>): (r: seq<T>) {
    if ws == [] then []
    else (if ws[0].data.role == Writer then [ws[0].data.value] else []) + Pending(ws[1..])
  }

  /** The wait queue never mixes roles: readers wait only on an empty queue, writers on a full one. */
  ghost predicate Roles<T>(q: Queue<T>) {
    && |q.contents| <= q.cap
    && (forall i | 0 <= i < |q.waiters| && q.waiters[i].data.role == Reader :: q.contents == [])
    && (forall i | 0 <= i < |q.waiters| && q.waiters[i].data.role == Writer :: |q.contents| == q.cap)
  }

  // ---- the operations

  /** What a call has come to, and whom it handed a message. */
  datatype Reply<T> = Done | Got(value: T) | GaveTo(thread: nat, value: T) | NoMessage | Pended

  datatype Outcome<T> = Outcome(queue: Queue<T>, reply: Reply<T>)

  /** `k_msgq_put`. */
  function Put<T>(q: Queue<T>, thread: nat, prio: int, msg: T, noWait: bool): (r: Outcome<T>) {
    if |q.contents| < q.cap then
      if q.waiters != [] then Outcome(q.(waiters := q.waiters[1..]), GaveTo(q.waiters[0].thread, msg))
      else Outcome(q.(contents := q.contents + [msg]), Done)
    else if noWait then Outcome(q, NoMessage)
    else Outcome(q.(waiters := Insert(q.waiters, Waiter(thread, prio, Slot(Writer, msg)))), Pended)
  }

  /** `k_msgq_get`, by a thread whose buffer holds `junk`. */
  function Get<T>(q: Queue<T>, thread: nat, prio: int, junk: T, noWait: bool): (r: Outcome<T>) {
    if q.contents != [] then
      if q.waiters != [] then
        Outcome(q.(contents := q.contents[1..] + [q.waiters[0].data.value], waiters := q.waiters[1..]), Got(q.contents[0]))
      else Outcome(q.(contents := q.contents[1..]), Got(q.contents[0]))
    else if noWait then Outcome(q, NoMessage)
    else Outcome(q.(waiters := Insert(q.waiters, Waiter(thread, prio, Slot(Reader, junk)))), Pended)
  }

  function Purge<T>(q: Queue<T>): (r: Queue<T>) {
    q.(contents := [], waiters := [])
  }

  // ---- the line

  lemma {:induction false} PendingAppend<T>(a: Waiters<T>, b: Waiters<T>)
    ensures Pending(a + b) == Pending(a) + Pending(b)
  {
    if a == [] {
      assert a + b == b;
    } else {
      assert (a + b)[1..] == a[1..] + b && (a + b)[0] == a[0];
      PendingAppend(a[1..], b);
      var first := if a[0].data.role == Writer then [a[0].data.value] else [];
      assert first + (Pending(a[1..]) + Pending(b)) == first + Pending(a[1..]) + Pending(b);
    }
  }

  lemma {:induction false} ReadersPendNothing<T>(ws: Waiters<T>)
    requires forall i | 0 <= i < |ws| :: ws[i].data.role == Reader
    ensures Pending(ws) == []
  {
    if ws != [] { ReadersPendNothing(ws[1..]); }
  }

  lemma PutKeepsRoles<T>(q: Queue<T>, thread: nat, prio: int, msg: T, noWait: bool)
    requires Roles(q) && q.cap > 0
    ensures Roles(Put(q, thread, prio, msg, noWait).queue)
  {
    RolesAgree(q);
    var r := Put(q, thread, prio, msg, noWait).queue;
    forall i | 0 <= i < |r.waiters| ensures r.waiters[i].data.role == Reader ==> r.contents == [] {}
  }

  lemma GetKeepsRoles<T>(q: Queue<T>, thread: nat, prio: int, junk: T, noWait: bool)
    requires Roles(q) && q.cap > 0
    ensures Roles(Get(q, thread, prio, junk, noWait).queue)
  {
    RolesAgree(q);
  }

  /** A reader and a writer wait together. */
  ghost predicate Mixed<T>(q: Queue<T>) {
    exists i, j :: 0 <= i < |q.waiters| && 0 <= j < |q.waiters|
                   && q.waiters[i].data.role == Reader && q.waiters[j].data.role == Writer
  }

  /** With capacity, waiters are all of one role. */
  lemma RolesAgree<T>(q: Queue<T>)
    requires Roles(q) && q.cap > 0
    ensures !Mixed(q)
    ensures forall i, j | 0 <= i < |q.waiters| && 0 <= j < |q.waiters| :: q.waiters[i].data.role == q.waiters[j].data.role
  {
  }

  lemma HeadTaken<T>(q: Queue<T>)
    requires Roles(q) && q.cap > 0 && q.contents != []
    ensures var rest := if q.waiters == [] then q.(contents := q.contents[1..])
        else q.(contents := q.contents[1..] + [q.waiters[0].data.value], waiters := q.waiters[1..]);
      q.Line()[0] == q.contents[0] && rest.Line() == q.Line()[1..]
  {
    var c := q.contents[1..];
    if q.waiters != [] {
      assert q.waiters[0].data.role == Writer;
      var x, f := [q.waiters[0].data.value], Pending(q.waiters[1..]);
      assert Pending(q.waiters) == x + f;
      assert c + (x + f) == c + x + f;
    }
    assert (q.contents + Pending(q.waiters))[1..] == c + Pending(q.waiters);
  }

  /** A queue with nothing in it has no waiting writers. */
  lemma EmptyLine<T>(q: Queue<T>)
    requires Roles(q) && q.cap > 0 && q.contents == []
    ensures q.Line() == []
  {
    forall i | 0 <= i < |q.waiters| ensures q.waiters[i].data.role == Reader {}
    ReadersPendNothing(q.waiters);
  }

  /** A get takes the head of the line, and waits or reports exactly when the line is empty. */
  lemma GetTakesHead<T>(q: Queue<T>, thread: nat, prio: int, junk: T, noWait: bool)
    requires Roles(q) && q.cap > 0
    ensures var r := Get(q, thread, prio, junk, noWait);
      if q.Line() == [] then
        && r.reply == (if noWait then NoMessage else Pended) && r.queue.Line() == []
      else r.reply == Got(q.Line()[0]) && r.queue.Line() == q.Line()[1..]
  {
    if q.contents != [] {
      HeadTaken(q);
    } else {
      EmptyLine(q);
      GetKeepsRoles(q, thread, prio, junk, noWait);
      EmptyLine(Get(q, thread, prio, junk, noWait).queue);
    }
  }

  lemma PendingOne<T>(w: Waiter<Slot<T>>)
    ensures Pending([w]) == if w.data.role == Writer then [w.data.value] else []
  {
    assert [w][1..] == [] && Pending<T>([]) == [];
    var first := if w.data.role == Writer then [w.data.value] else [];
    assert first + [] == first;
  }

  lemma PendingParts<T>(a: Waiters<T>, w: Waiter<Slot<T>>, b: Waiters<T>)
    ensures Pending(a + b) == Pending(a) + Pending(b)
    ensures Pending(a + [w] + b) == Pending(a) + (if w.data.role == Writer then [w.data.value] else []) + Pending(b)
  {
    PendingAppend(a, b);
    PendingAppend(a + [w], b);
    PendingAppend(a, [w]);
    PendingOne(w);
  }

  lemma LineRegrouped<T>(c: seq<T>, f: seq<T>, x: seq<T>, b: seq<T>)
    ensures c + (f + b) == c + f + b && c + (f + x + b) == c + f + x + b
  {
  }

  lemma WriterJoins<T>(q: Queue<T>, w: Waiter<Slot<T>>) returns (a: seq<T>, b: seq<T>)
    requires w.data.role == Writer
    ensures q.Line() == a + b && q.(waiters := Insert(q.waiters, w)).Line() == a + [w.data.value] + b
    ensures q.contents <= a && (Place(q.waiters, w) == |q.waiters| ==> b == [])
  {
    var k := Place(q.waiters, w);
    var f := Pending(q.waiters[..k]);
    PendingParts(q.waiters[..k], w, q.waiters[k..]);
    assert q.waiters == q.waiters[..k] + q.waiters[k..];
    a, b := q.contents + f, Pending(q.waiters[k..]);
    LineRegrouped(q.contents, f, [w.data.value], b);
  }

  /** A put hands its message to the first waiting reader; else it joins the line, at the end or, when
      it has to wait, behind the writers of the same or a better priority. */
  lemma PutJoinsLine<T>(q: Queue<T>, thread: nat, prio: int, msg: T, noWait: bool)
    returns (a: seq<T>, b: seq<T>)
    requires Roles(q) && q.cap > 0
    ensures var r := Put(q, thread, prio, msg, noWait);
      && q.Line() == a + b
      && (r.reply.GaveTo? ==> q.Line() == [] == r.queue.Line() && r.reply == GaveTo(q.waiters[0].thread, msg))
      && (r.reply.NoMessage? ==> r.queue == q && noWait && |q.contents| == q.cap)
      && (r.reply == Done || r.reply.Pended? ==> r.queue.Line() == a + [msg] + b && q.contents <= a)
      && (r.reply == Done ==> b == [])
      && ((forall i | 0 <= i < |q.waiters| :: q.waiters[i].prio <= prio) ==> b == [])
  {
    RolesAgree(q);
    a, b := q.Line(), [];
    if |q.contents| < q.cap {
      if q.waiters != [] {
        assert q.waiters[0].data.role == Reader;
        ReadersPendNothing(q.waiters);
        ReadersPendNothing(q.waiters[1..]);
      }
    } else if !noWait {
      a, b := WriterJoins(q, Waiter(thread, prio, Slot(Writer, msg)));
    }
  }

  /** Without capacity a put that waits and a get that waits always do so together, in any state and with
      any priorities. */
  lemma {:induction false} NoCapacityMixesRoles<T>(q: Queue<T>, t: nat, u: nat, p: int, r: int, msg: T, junk: T)
    requires q.cap == 0 && q.contents == []
    ensures Mixed(Get(Put(q, t, p, msg, false).queue, u, r, junk, false).queue)
  {
    var w, v := Waiter(t, p, Slot(Writer, msg)), Waiter(u, r, Slot(Reader, junk));
    var q1 := Put(q, t, p, msg, false).queue;
    assert q1 == q.(waiters := Insert(q.waiters, w));
    var ws := Insert(q1.waiters, v);
    assert Get(q1, u, r, junk, false).queue.waiters == ws;
    InsertMembers(q.waiters, w, w);
    InsertMembers(q1.waiters, v, w);
    InsertMembers(q1.waiters, v, v);
    var i :| 0 <= i < |ws| && ws[i] == v;
    var j :| 0 <= j < |ws| && ws[j] == w;
  }
}
