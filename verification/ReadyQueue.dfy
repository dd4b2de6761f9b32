/** The scheduler's ready queue: a list per priority, a bitmap of the non-empty lists, and a cache of
    the next thread to run. */
module ReadyQueue {
  import opened WaitQueue
  import opened Bits
  import opened ReadySpec

  type Lists = seq<seq<nat>>

  predicate BitOk(bmap: seq<Word>, q: Lists, i: nat)
    requires InRange(bmap, i)
  {
    Test(bmap, i) <==> i < |q| && q[i] != []
  }

  /** A bit is set exactly for a list that has a thread. */
  ghost predicate BitsAgree(bmap: seq<Word>, q: Lists) {
    |bmap| == (|q| + 31) / 32 && forall i: nat | i < 32 * |bmap| :: BitOk(bmap, q, i)
  }

  lemma BitSet(bmap: seq<Word>, q: Lists, i: nat, list: seq<nat>, bit: bool)
    requires BitsAgree(bmap, q) && i < |q| && bit == (list != [])
    ensures InRange(bmap, i) && BitsAgree(Put(bmap, i, bit), q[i := list])
  {
    var bmap', q' := Put(bmap, i, bit), q[i := list];
    forall j: nat | j < 32 * |bmap'| ensures BitOk(bmap', q', j) {
      assert BitOk(bmap, q, j) && InRange(bmap, j);
    }
  }

  lemma BitKept(bmap: seq<Word>, q: Lists, i: nat, list: seq<nat>)
    requires BitsAgree(bmap, q) && i < |q| && q[i] != [] && list != []
    ensures InRange(bmap, i) && BitsAgree(bmap, q[i := list])
  {
    var q' := q[i := list];
    forall j: nat | j < 32 * |bmap| ensures BitOk(bmap, q', j) {
      assert BitOk(bmap, q, j);
    }
  }

  ghost predicate Consistent(line: Line, prio: map<nat, int>) {
    forall k | 0 <= k < |line| :: line[k].thread in prio && prio[line[k].thread] == line[k].prio
  }

  lemma InsertConsistent(line: Line, w: Waiter<()>, prio: map<nat, int>)
    requires Consistent(line, prio) && w.thread in prio && prio[w.thread] == w.prio
    ensures Consistent(Insert(line, w), prio)
  {
  }

  lemma {:induction false} DropConsistent(line: Line, t: nat, prio: map<nat, int>)
    requires Consistent(line, prio)
    ensures Consistent(Drop(line, t), prio)
  {
    DropMembers(line, t);
    var r := Drop(line, t);
    forall k | 0 <= k < |r| ensures r[k].thread in prio && prio[r[k].thread] == r[k].prio {
      assert r[k] in line;
    }
  }

  /** A queued thread is in the list of its priority and in no other. */
  lemma {:induction false} WhereQueued(q: Lists, low: int, prio: map<nat, int>, t: nat)
    requires Consistent(Flatten(q, low), prio) && Has(Flatten(q, low), t)
    ensures t in prio && 0 <= prio[t] - low < |q| && t in q[prio[t] - low]
    ensures forall j | 0 <= j < |q| && t in q[j] :: j == prio[t] - low
  {
    var line := Flatten(q, low);
    var k :| 0 <= k < |line| && line[k].thread == t;
    FlattenMember(q, low, line[k]);
    assert line[k] in line;
    forall j | 0 <= j < |q| && t in q[j] ensures j == prio[t] - low {
      FlattenMember(q, low, Waiter(t, low + j, ()));
    }
  }

  /** What the line promises: no thread twice, priorities up to date, and the cache on its head. */
  ghost predicate LineOk(line: Line, prio: map<nat, int>, cache: nat) {
    Distinct(line) && Consistent(line, prio) && line != [] && cache == line[0].thread
  }

  ghost predicate Sound(bmap: seq<Word>, q: Lists, low: int, prio: map<nat, int>, cache: nat) {
    BitsAgree(bmap, q) && LineOk(Flatten(q, low), prio, cache)
  }

  lemma LineAdded(line: Line, prio: map<nat, int>, cache: nat, t: nat)
    requires LineOk(line, prio, cache) && !Has(line, t) && t in prio
    ensures cache in prio
    ensures LineOk(Insert(line, Waiter(t, prio[t], ())), prio, if prio[t] < prio[cache] then t else cache)
  {
    var w := Waiter(t, prio[t], ());
    InsertDistinct(line, w);
    InsertConsistent(line, w, prio);
    InsertHead(line, w);
  }

  /** The cache for a line, when `cache` was right before thread `t` left its place. */
  ghost function NewCache(line: Line, cache: nat, t: nat): (r: nat)
    requires line != []
  {
    if cache == t then line[0].thread else cache
  }

  lemma {:induction false} LineDropped(line: Line, prio: map<nat, int>, cache: nat, t: nat)
    requires LineOk(line, prio, cache) && Has(line, t) && |line| > 1
    ensures Drop(line, t) != [] && LineOk(Drop(line, t), prio, NewCache(Drop(line, t), cache, t))
  {
    DropDistinct(line, t);
    DropConsistent(line, t, prio);
    DropMembers(line, t);
  }

  lemma {:induction false} LineMoved(line: Line, prio: map<nat, int>, cache: nat, t: nat)
    requires LineOk(line, prio, cache) && Sorted(line) && Has(line, t) && t in prio
    ensures var r := Insert(Drop(line, t), Waiter(t, prio[t], ())); r != [] && LineOk(r, prio, NewCache(r, cache, t))
  {
    var w := Waiter(t, prio[t], ());
    DropDistinct(line, t);
    DropConsistent(line, t, prio);
    InsertDistinct(Drop(line, t), w);
    InsertConsistent(Drop(line, t), w, prio);
    if cache != t { HeadStays(line, t, prio); }
  }

  lemma {:induction false} AddSound(bmap: seq<Word>, q: Lists, low: int, prio: map<nat, int>, cache: nat, t: nat, i: nat, q': Lists)
    requires Sound(bmap, q, low, prio, cache) && !Has(Flatten(q, low), t)
    requires t in prio && i == prio[t] - low < |q| && q' == q[i := q[i] + [t]]
    ensures cache in prio && InRange(bmap, i)
    ensures Flatten(q', low) == Insert(Flatten(q, low), Waiter(t, prio[t], ()))
    ensures Sound(Put(bmap, i, true), q', low, prio, if prio[t] < prio[cache] then t else cache)
  {
    AppendIsInsert(q, low, i, Waiter(t, prio[t], ()));
    LineAdded(Flatten(q, low), prio, cache, t);
    BitSet(bmap, q, i, q[i] + [t], true);
  }

  lemma {:induction false} RemoveSound(bmap: seq<Word>, q: Lists, low: int, prio: map<nat, int>, cache: nat, t: nat, i: nat, q': Lists)
    requires Sound(bmap, q, low, prio, cache) && Has(Flatten(q, low), t) && |Flatten(q, low)| > 1
    requires t in prio && i == prio[t] - low < |q| && q' == q[i := Unlink(q[i], t)]
    ensures InRange(bmap, i) && Flatten(q', low) == Drop(Flatten(q, low), t) && Flatten(q', low) != []
    ensures Sound(if q'[i] == [] then Put(bmap, i, false) else bmap, q', low, prio, NewCache(Flatten(q', low), cache, t))
  {
    WhereQueued(q, low, prio, t);
    RemoveIsDrop(q, low, i, t);
    LineDropped(Flatten(q, low), prio, cache, t);
    BitAfter(bmap, q, i, Unlink(q[i], t));
  }

  /** The bit of a list that had a thread, cleared if it has none left. */
  lemma BitAfter(bmap: seq<Word>, q: Lists, i: nat, list: seq<nat>)
    requires BitsAgree(bmap, q) && i < |q| && q[i] != []
    ensures InRange(bmap, i) && BitsAgree(if list == [] then Put(bmap, i, false) else bmap, q[i := list])
  {
    if list == [] { BitSet(bmap, q, i, list, false); } else { BitKept(bmap, q, i, list); }
  }

  lemma {:induction false} MoveSound(bmap: seq<Word>, q: Lists, low: int, prio: map<nat, int>, cache: nat, t: nat, i: nat, q': Lists)
    requires Sound(bmap, q, low, prio, cache) && Has(Flatten(q, low), t)
    requires t in prio && i == prio[t] - low < |q| && q' == q[i := Unlink(q[i], t) + [t]]
    ensures Flatten(q', low) == Insert(Drop(Flatten(q, low), t), Waiter(t, prio[t], ())) && Flatten(q', low) != []
    ensures Sound(bmap, q', low, prio, NewCache(Flatten(q', low), cache, t))
  {
    WhereQueued(q, low, prio, t);
    MovedIs(q, low, i, Waiter(t, prio[t], ()));
    FlattenSorted(q, low);
    LineMoved(Flatten(q, low), prio, cache, t);
    BitKept(bmap, q, i, Unlink(q[i], t) + [t]);
  }

  /** A thread that already is last in its list would be moved to where it is. */
  lemma {:induction false} TailIsMoved(q: Lists, low: int, i: nat, t: nat)
    requires i < |q| && q[i] != [] && q[i][|q[i]| - 1] == t && Distinct(Flatten(q, low))
    ensures q[i := Unlink(q[i], t) + [t]] == q
  {
    OnceInList(q, low, i);
    UnlinkTail(q[i], t);
  }

  lemma NoBits(numPrios: nat)
    ensures BitsAgree(Zeros((numPrios + 31) / 32), seq(numPrios, _ => []))
  {
    var none, empty: Lists := Zeros((numPrios + 31) / 32), seq(numPrios, _ => []);
    forall j: nat | j < 32 * |none| ensures BitOk(none, empty, j) {
      assert InRange(none, j);
    }
  }

  lemma OneReady(numPrios: nat, low: int, prio: map<nat, int>, t: nat)
    requires t in prio && 0 <= prio[t] - low < numPrios
    ensures var q := seq(numPrios, _ => [])[prio[t] - low := [t]];
      Flatten(q, low) == [Waiter(t, prio[t], ())] &&
      var none := Zeros((numPrios + 31) / 32);
      InRange(none, prio[t] - low) && Sound(Put(none, prio[t] - low, true), q, low, prio, t)
  {
    var empty: Lists := seq(numPrios, _ => []);
    var i := prio[t] - low;
    EmptyLine(empty, low);
    AppendIsInsert(empty, low, i, Waiter(t, prio[t], ()));
    assert empty[i] + [t] == [t];
    assert Insert([], Waiter(t, prio[t], ())) == [Waiter(t, prio[t], ())];
    NoBits(numPrios);
    BitSet(Zeros((numPrios + 31) / 32), empty, i, [t], true);
  }

  /** The scan of `_get_highest_ready_prio`: the first word that is not zero, and its lowest bit. */
  method FirstSet(bmap: seq<Word>) returns (i: nat)
    requires exists k: nat :: InRange(bmap, k) && Test(bmap, k)
    ensures InRange(bmap, i) && Test(bmap, i) && forall j: nat | j < i :: !Test(bmap, j)
  {
    ghost var first: nat :| InRange(bmap, first) && Test(bmap, first);
    var word := 0;
    while bmap[word] == ZERO
      invariant 0 <= word < |bmap| && 32 * word <= first
      invariant forall j: nat | j < 32 * word :: !Test(bmap, j)
      decreases |bmap| - word
    {
      assert forall j: nat | 32 * word <= j < 32 * word + 32 :: !Test(bmap, j);
      word := word + 1;
    }
    var bit := LowestBit(bmap[word]);
    i := 32 * word + bit;
    forall j: nat | j < i ensures !Test(bmap, j) {
      if j >= 32 * word { assert !bmap[word][j - 32 * word]; }
    }
  }

  /** `find_lsb_set`, counting from 0. */
  method LowestBit(w: Word) returns (bit: nat)
    requires w != ZERO
    ensures bit < 32 && w[bit] && forall j | 0 <= j < bit :: !w[j]
  {
    ghost var b :| 0 <= b < 32 && w[b] != ZERO[b];
    bit := 0;
    while !w[bit]
      invariant 0 <= bit <= b
      invariant forall j | 0 <= j < bit :: !w[j]
      decreases 32 - bit
    {
      bit := bit + 1;
    }
  }

  class ReadyQ {
    /** The best priority, `-_NUM_COOP_PRIO`; list `i` is for priority `low + i`. */
    const low: int
    var prioBmap: seq<Word>
    var q: Lists
    var cache: nat
    var prio: map<nat, int>

    ghost function Line(): (r: ReadySpec.Line)
      reads this`q
    {
      Flatten(q, low)
    }

    ghost predicate Valid()
      reads this
    {
      Sound(prioBmap, q, low, prio, cache)
    }

    predicate InRangePrio(p: int)
      reads this`q
    {
      0 <= p - low < |q|
    }

    /** The queue once its first thread `t` (the idle thread, say) is ready. */
    constructor (numCoop: nat, numPrios: nat, prio: map<nat, int>, t: nat)
      requires t in prio && 0 <= prio[t] + numCoop < numPrios
      ensures Valid() && Line() == [Waiter(t, prio[t], ())] && this.prio == prio
      ensures low == 0 - numCoop && |q| == numPrios
    {
      low, this.prio := 0 - numCoop, prio;
      OneReady(numPrios, 0 - numCoop, prio, t);
      var i := prio[t] - (0 - numCoop);
      q := seq(numPrios, _ => [])[i := [t]];
      prioBmap := Put(Zeros((numPrios + 31) / 32), i, true);
      cache := t;
    }

    /** `_get_highest_ready_prio`, as a list index. */
    method HighestReady() returns (i: nat)
      requires BitsAgree(prioBmap, q) && Line() != []
      ensures i < |q| && q[i] != [] && forall j | 0 <= j < i :: q[j] == []
      ensures Line()[0] == Waiter(q[i][0], low + i, ())
    {
      SomeBit(prioBmap, q, low);
      i := FirstSet(prioBmap);
      assert BitOk(prioBmap, q, i);
      forall j | 0 <= j < i ensures q[j] == [] {
        assert BitOk(prioBmap, q, j) && !Test(prioBmap, j);
      }
      FlattenHead(q, low, i);
    }

    /** `_get_ready_q_head`. */
    method Head() returns (t: nat)
      requires BitsAgree(prioBmap, q) && Line() != []
      ensures t == Line()[0].thread
    {
      var i := HighestReady();
      t := q[i][0];
    }

    /** The updates of `_add_thread_to_ready_q`, for list `i`. */
    method Append(t: nat, i: nat)
      requires t in prio && cache in prio && i < |q| && InRange(prioBmap, i)
      modifies this`q, this`prioBmap, this`cache
      ensures prioBmap == Put(old(prioBmap), i, true) && q == old(q)[i := old(q)[i] + [t]]
      ensures cache == if prio[t] < prio[old(cache)] then t else old(cache)
    {
      prioBmap := Put(prioBmap, i, true);
      q := q[i := q[i] + [t]];
      cache := if prio[t] < prio[cache] then t else cache;
    }

    /** `_add_thread_to_ready_q`. */
    method Add(t: nat)
      requires Valid() && t in prio && InRangePrio(prio[t]) && !Has(Line(), t)
      modifies this`q, this`prioBmap, this`cache
      ensures Valid() && |q| == old(|q|)
      ensures Line() == Insert(old(Line()), Waiter(t, prio[t], ()))
    {
      var i := prio[t] - low;
      AddSound(prioBmap, q, low, prio, cache, t, i, q[i := q[i] + [t]]);
      Append(t, i);
    }

    /** `_remove_thread_from_ready_q`; another thread must be ready. */
    method Remove(t: nat)
      requires Valid() && Has(Line(), t) && |Line()| > 1
      modifies this`q, this`prioBmap, this`cache
      ensures Valid() && |q| == old(|q|)
      ensures Line() == Drop(old(Line()), t)
    {
      WhereQueued(q, low, prio, t);
      var i := prio[t] - low;
      var lists := q[i := Unlink(q[i], t)];
      RemoveSound(prioBmap, q, low, prio, cache, t, i, lists);
      q := lists;
      if q[i] == [] {
        prioBmap := Put(prioBmap, i, false);
      }
      if cache == t {
        cache := Head();
      }
    }

    /** `_move_thread_to_end_of_prio_q`. */
    method MoveToEnd(t: nat)
      requires Valid() && Has(Line(), t)
      modifies this`q, this`cache
      ensures Valid() && |q| == old(|q|)
      ensures Line() == Insert(Drop(old(Line()), t), Waiter(t, prio[t], ()))
    {
      WhereQueued(q, low, prio, t);
      var i := prio[t] - low;
      var lists := q[i := Unlink(q[i], t) + [t]];
      MoveSound(prioBmap, q, low, prio, cache, t, i, lists);
      if q[i][|q[i]| - 1] == t {
        TailIsMoved(q, low, i, t);
        return;
      }
      q := lists;
      if cache == t {
        cache := Head();
      }
    }

    /** `_thread_priority_set`. */
    method SetPriority(t: nat, p: int)
      requires Valid() && t in prio && InRangePrio(p) && (Has(Line(), t) ==> |Line()| > 1)
      modifies this
      ensures Valid() && |q| == old(|q|) && prio == old(prio)[t := p]
      ensures Line() == if Has(old(Line()), t) then Insert(Drop(old(Line()), t), Waiter(t, p, ())) else old(Line())
    {
      var ready := IsReady(t);
      DropDistinct(Line(), t);
      if ready {
        Remove(t);
      }
      ConsistentAfter(Line(), prio, t, p);
      prio := prio[t := p];
      if ready {
        Add(t);
      }
    }

    /** Whether a thread is queued. */
    method IsReady(t: nat) returns (b: bool)
      requires Valid() && t in prio
      ensures b <==> Has(Line(), t)
    {
      FlattenHas(q, low, t);
      if Has(Line(), t) { WhereQueued(q, low, prio, t); }
      return 0 <= prio[t] - low < |q| && t in q[prio[t] - low];
    }

    /** `__must_switch_threads`: some ready thread strictly outranks the current one. */
    method MustSwitch(current: nat) returns (b: bool)
      requires Valid() && current in prio
      ensures b <==> exists k :: 0 <= k < |Line()| && Line()[k].prio < prio[current]
    {
      var i := HighestReady();
      FlattenSorted(q, low);
      b := low + i < prio[current];
    }
  }

  lemma ConsistentAfter(line: Line, prio: map<nat, int>, t: nat, p: int)
    requires Consistent(line, prio) && !Has(line, t)
    ensures Consistent(line, prio[t := p])
  {
  }

  lemma {:induction false} EmptyLine(q: Lists, low: int)
    requires forall i | 0 <= i < |q| :: q[i] == []
    ensures Flatten(q, low) == []
  {
    if q != [] { EmptyLine(q[1..], low + 1); }
  }

  lemma {:induction false} SomeBit(bmap: seq<Word>, q: Lists, low: int)
    requires BitsAgree(bmap, q) && Flatten(q, low) != []
    ensures exists i: nat :: InRange(bmap, i) && Test(bmap, i)
  {
    if forall i | 0 <= i < |q| :: q[i] == [] {
      EmptyLine(q, low);
    } else {
      var i :| 0 <= i < |q| && q[i] != [];
      assert BitOk(bmap, q, i);
    }
  }

  /** Moving a thread to the end of its list is leaving the line and queueing again. */
  lemma MovedIs(q: Lists, low: int, i: nat, w: Waiter<()>)
    requires i < |q| && w.prio == low + i && w.thread in q[i] && forall j | 0 <= j < i :: w.thread !in q[j]
    ensures Flatten(q[i := Unlink(q[i], w.thread) + [w.thread]], low) == Insert(Drop(Flatten(q, low), w.thread), w)
  {
    var r := q[i := Unlink(q[i], w.thread)];
    RemoveIsDrop(q, low, i, w.thread);
    AppendIsInsert(r, low, i, w);
    assert r[i := r[i] + [w.thread]] == q[i := Unlink(q[i], w.thread) + [w.thread]];
  }

  lemma {:induction false} UnlinkTail(list: seq<nat>, t: nat)
    requires list != [] && list[|list| - 1] == t && t !in list[..|list| - 1]
    ensures Unlink(list, t) + [t] == list
  {
    if |list| > 1 {
      assert list[0] == list[..|list| - 1][0];
      assert list[1..][..|list| - 2] == list[1..|list| - 1];
      UnlinkTail(list[1..], t);
    }
  }

  lemma {:induction false} OnceInList(q: Lists, low: int, i: nat)
    requires i < |q| && Distinct(Flatten(q, low))
    ensures forall j, k | 0 <= j < k < |q[i]| :: q[i][j] != q[i][k]
  {
    var a, m := Flatten(q[..i], low), Tag(q[i], low + i);
    FlattenAt(q, low, i, q[i]);
    assert q[i := q[i]] == q;
    forall j, k | 0 <= j < k < |q[i]| ensures q[i][j] != q[i][k] {
      assert Flatten(q, low)[|a| + j] == m[j] && Flatten(q, low)[|a| + k] == m[k];
      assert Apart(Flatten(q, low), |a| + j, |a| + k);
    }
  }

  lemma {:induction false} HeadStays(line: Line, t: nat, prio: map<nat, int>)
    requires Sorted(line) && Has(line, t) && line[0].thread != t && Consistent(line, prio)
    ensures t in prio && Insert(Drop(line, t), Waiter(t, prio[t], ()))[0] == line[0]
  {
    var k :| 0 <= k < |line| && line[k].thread == t;
    InsertHead(Drop(line, t), Waiter(t, prio[t], ()));
  }
}
