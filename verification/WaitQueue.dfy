/** Priority wait queues: threads pended on a kernel object, best priority first and first come
    first served among equals. A lower number is a higher priority. */
module WaitQueue {

  /** A pended thread, the priority it was pended with, and what it left in `swap_data`. */
  datatype Waiter<T> = Waiter(thread: nat, prio: int, data: T)

  ghost predicate Sorted<T>(q: seq<Waiter<T>>) {
    forall i, j | 0 <= i < j < |q| :: q[i].prio <= q[j].prio
  }

  /** Where `_pend_thread` links `w`: before the first thread that it strictly outranks. */
  function Place<T>(q: seq<Waiter<T>>, w: Waiter<T>): (k: nat)
    ensures k <= |q|
    ensures forall i | 0 <= i < k :: q[i].prio <= w.prio
    ensures k < |q| ==> w.prio < q[k].prio
  {
    if q == [] || w.prio < q[0].prio then 0 else 1 + Place(q[1..], w)
  }

  function Insert<T>(q: seq<Waiter<T>>, w: Waiter<T>): (r: seq<Waiter<T>>)
    ensures |r| == |q| + 1
  {
    var k := Place(q, w);
    q[..k] + [w] + q[k..]
  }

  lemma InsertContents<T>(q: seq<Waiter<T>>, w: Waiter<T>)
    ensures multiset(Insert(q, w)) == multiset(q) + multiset{w}
  {
    var k := Place(q, w);
    assert q == q[..k] + q[k..];
  }

  lemma InsertMembers<T>(q: seq<Waiter<T>>, w: Waiter<T>, x: Waiter<T>)
    ensures x in Insert(q, w) <==> x == w || x in q
  {
    InsertContents(q, w);
    assert x in Insert(q, w) <==> x in multiset(Insert(q, w));
    assert x in q <==> x in multiset(q);
  }

  lemma InsertSorted<T>(q: seq<Waiter<T>>, w: Waiter<T>)
    requires Sorted(q)
    ensures Sorted(Insert(q, w))
  {
  }

  /** The insertion loop of `_pend_thread`. */
  method Pend<T>(q: seq<Waiter<T>>, w: Waiter<T>) returns (r: seq<Waiter<T>>)
    ensures r == Insert(q, w)
    ensures Sorted(q) ==> Sorted(r)
  {
    var i := 0;
    while i < |q| && q[i].prio <= w.prio
      invariant 0 <= i <= |q|
      invariant forall j | 0 <= j < i :: q[j].prio <= w.prio
    {
      i := i + 1;
    }
    r := q[..i] + [w] + q[i..];
  }
}
