/** Every run of a message queue. The messages are numbered in the order they are sent, so that a
    history can say where each one went. */
module MsgQueueRuns {
  import opened WaitQueue
  import opened MsgQueueSpec
  import opened Common

  /** `delivered` lists messages in the order readers got them; `lost` those refused, withdrawn by a
      time-out, or purged. */
  datatype State = State(queue: Queue<nat>, delivered: seq<nat>, lost: seq<nat>, sent: nat) {
    function Line(): (r: seq<nat>) {
      delivered + queue.Line()
    }
  }

  datatype Event =
    | Sent(thread: nat, prio: int, noWait: bool)
    | Asked(thread: nat, prio: int, junk: nat, noWait: bool)
    | TimedOut(at: nat)
    | Purged

  predicate Enabled(s: State, e: Event) {
    e.TimedOut? ==> e.at < |s.queue.waiters|
  }

  function Next(s: State, e: Event): (r: State)
    requires Enabled(s, e)
  {
    match e
    case Sent(thread, prio, noWait) =>
      var r := Put(s.queue, thread, prio, s.sent, noWait);
      s.(queue := r.queue, sent := s.sent + 1,
         delivered := s.delivered + (if r.reply.GaveTo? then [r.reply.value] else []),
         lost := s.lost + (if r.reply.NoMessage? then [s.sent] else []))
    case Asked(thread, prio, junk, noWait) =>
      var r := Get(s.queue, thread, prio, junk, noWait);
      s.(queue := r.queue, delivered := s.delivered + if r.reply.Got? then [r.reply.value] else [])
    case TimedOut(i) =>
      var w := s.queue.waiters[i];
      s.(queue := s.queue.(waiters := Without(s.queue.waiters, i)),
         lost := s.lost + if w.data.role == Writer then [w.data.value] else [])
    case Purged => s.(queue := Purge(s.queue), lost := s.lost + s.queue.Line())
  }

  function Start(cap: nat): (s: State) {
    State(Queue(cap, [], []), [], [], 0)
  }

  function Count(d: seq<nat>, line: seq<nat>, lost: seq<nat>, m: nat): (n: nat) {
    multiset(d)[m] + multiset(line)[m] + multiset(lost)[m]
  }

  /** Of the messages below `sent` each is in one of the three lists, once. */
  ghost predicate Accounted(d: seq<nat>, line: seq<nat>, lost: seq<nat>, sent: nat) {
    forall m: nat :: Count(d, line, lost, m) == if m < sent then 1 else 0
  }

  /** Roles are not mixed, and every message sent is delivered, waiting or lost, exactly one of these
      and exactly once. */
  ghost predicate Inv(s: State) {
    Roles(s.queue) && Accounted(s.delivered, s.queue.Line(), s.lost, s.sent)
  }

  lemma AccountNew(d: seq<nat>, a: seq<nat>, b: seq<nat>, lost: seq<nat>, sent: nat)
    requires Accounted(d, a + b, lost, sent)
    ensures Accounted(d, a + [sent] + b, lost, sent + 1)
    ensures Accounted(d + [sent], a + b, lost, sent + 1)
    ensures Accounted(d, a + b, lost + [sent], sent + 1)
  {
    forall m: nat ensures Count(d, a + [sent] + b, lost, m) == Count(d, a + b, lost, m) + (if m == sent then 1 else 0)
        && Count(d + [sent], a + b, lost, m) == Count(d, a + b, lost, m) + (if m == sent then 1 else 0)
        && Count(d, a + b, lost + [sent], m) == Count(d, a + b, lost, m) + (if m == sent then 1 else 0) {
    }
    forall m: nat ensures Count(d, a + b, lost, m) == if m < sent then 1 else 0 {}
  }

  lemma AccountTaken(d: seq<nat>, line: seq<nat>, lost: seq<nat>, sent: nat)
    requires Accounted(d, line, lost, sent) && line != []
    ensures Accounted(d + [line[0]], line[1..], lost, sent) && d + [line[0]] + line[1..] == d + line
  {
    assert line == [line[0]] + line[1..];
    forall m: nat ensures Count(d + [line[0]], line[1..], lost, m) == Count(d, line, lost, m) {}
  }

  lemma AccountLost(d: seq<nat>, a: seq<nat>, x: seq<nat>, b: seq<nat>, lost: seq<nat>, sent: nat)
    requires Accounted(d, a + x + b, lost, sent)
    ensures Accounted(d, a + b, lost + x, sent)
  {
    forall m: nat ensures Count(d, a + b, lost + x, m) == Count(d, a + x + b, lost, m) {}
  }

  lemma AccountBelow(d: seq<nat>, line: seq<nat>, lost: seq<nat>, sent: nat, i: nat)
    requires Accounted(d, line, lost, sent) && i < |d + line|
    ensures (d + line)[i] < sent
  {
    var m := (d + line)[i];
    assert m in multiset(d + line);
    assert multiset(d + line)[m] == multiset(d)[m] + multiset(line)[m];
    assert Count(d, line, lost, m) == if m < sent then 1 else 0;
  }

  lemma SentKeepsInv(s: State, e: Event)
    requires Inv(s) && s.queue.cap > 0 && e.Sent?
    ensures Inv(Next(s, e))
  {
    PutKeepsRoles(s.queue, e.thread, e.prio, s.sent, e.noWait);
    var a, b := PutJoinsLine(s.queue, e.thread, e.prio, s.sent, e.noWait);
    AccountNew(s.delivered, a, b, s.lost, s.sent);
    assert s.delivered + [] == s.delivered && s.lost + [] == s.lost;
  }

  lemma AskedKeepsInv(s: State, e: Event)
    requires Inv(s) && s.queue.cap > 0 && e.Asked?
    ensures Inv(Next(s, e)) && Next(s, e).Line() == s.Line()
  {
    GetKeepsRoles(s.queue, e.thread, e.prio, e.junk, e.noWait);
    GetTakesHead(s.queue, e.thread, e.prio, e.junk, e.noWait);
    var line := s.queue.Line();
    if line != [] {
      AccountTaken(s.delivered, line, s.lost, s.sent);
    } else {
      assert s.delivered + [] == s.delivered;
    }
  }

  lemma WithdrawnLine(q: Queue<nat>, i: nat) returns (a: seq<nat>, b: seq<nat>)
    requires i < |q.waiters|
    ensures var x := if q.waiters[i].data.role == Writer then [q.waiters[i].data.value] else [];
      q.Line() == a + x + b && q.(waiters := Without(q.waiters, i)).Line() == a + b
  {
    var w := q.waiters[i];
    var x := if w.data.role == Writer then [w.data.value] else [];
    PendingParts(q.waiters[..i], w, q.waiters[i + 1..]);
    assert q.waiters == q.waiters[..i] + [w] + q.waiters[i + 1..];
    var f := Pending(q.waiters[..i]);
    a, b := q.contents + f, Pending(q.waiters[i + 1..]);
    assert q.contents + (f + x + b) == a + x + b;
    assert q.contents + (f + b) == a + b;
  }

  lemma TimedOutKeepsInv(s: State, i: nat)
    requires Inv(s) && i < |s.queue.waiters|
    ensures Inv(Next(s, TimedOut(i)))
  {
    var a, b := WithdrawnLine(s.queue, i);
    var w := s.queue.waiters[i];
    AccountLost(s.delivered, a, if w.data.role == Writer then [w.data.value] else [], b, s.lost, s.sent);
  }

  lemma PurgedKeepsInv(s: State)
    requires Inv(s)
    ensures Inv(Next(s, Purged))
  {
    var line := s.queue.Line();
    assert [] + line + [] == line;
    AccountLost(s.delivered, [], line, [], s.lost, s.sent);
    assert Next(s, Purged).queue.Line() == [] + [];
  }

  lemma NextKeepsInv(s: State, e: Event)
    requires Inv(s) && s.queue.cap > 0 && Enabled(s, e)
    ensures Inv(Next(s, e)) && Next(s, e).queue.cap == s.queue.cap
  {
    match e
    case Sent(_, _, _) => SentKeepsInv(s, e);
    case Asked(_, _, _, _) => AskedKeepsInv(s, e);
    case TimedOut(i) => TimedOutKeepsInv(s, i);
    case Purged => PurgedKeepsInv(s);
  }

  // ---- runs

  datatype Outcome = Stuck | At(state: State)

  function Run(cap: nat, events: seq<Event>): (r: Outcome)
    decreases |events|
  {
    if events == [] then At(Start(cap))
    else
      var n := |events| - 1;
      match Run(cap, events[..n])
      case Stuck => Stuck
      case At(s) => if Enabled(s, events[n]) then At(Next(s, events[n])) else Stuck
  }

  /** With capacity, in every run readers and writers never wait together, and every message sent is
      delivered once, waits, or was reported lost. */
  lemma {:induction false} EveryRunKeepsInv(cap: nat, events: seq<Event>)
    requires cap > 0 && Run(cap, events).At?
    ensures Inv(Run(cap, events).state) && Run(cap, events).state.queue.cap == cap
    decreases |events|
  {
    if events != [] {
      var n := |events| - 1;
      EveryRunKeepsInv(cap, events[..n]);
      NextKeepsInv(Run(cap, events[..n]).state, events[n]);
    }
  }

  /** The shortest run that mixes roles. */
  lemma {:induction false} MixedRun(events: seq<Event>)
    requires |events| == 2 && events[0] == Sent(1, 5, false) && events[1] == Asked(2, 5, 0, false)
    ensures Run(0, events).At? && Mixed(Run(0, events).state.queue)
  {
    var first := events[..1];
    assert first[..0] == [] && Run(0, first[..0]) == At(Start(0));
    assert Run(0, first) == At(Next(Start(0), first[0]));
    NoCapacityMixesRoles(Start(0).queue, 1, 2, 5, 5, 0, 0);
  }

  /** Readers and writers are kept apart, in every run, exactly when the queue has capacity. */
  lemma {:induction false} UnmixedIff(cap: nat)
    ensures (forall events | Run(cap, events).At? :: !Mixed(Run(cap, events).state.queue)) <==> cap > 0
  {
    if cap == 0 {
      MixedRun([Sent(1, 5, false), Asked(2, 5, 0, false)]);
    } else {
      forall events | Run(cap, events).At? ensures !Mixed(Run(cap, events).state.queue) {
        EveryRunKeepsInv(cap, events);
        RolesAgree(Run(cap, events).state.queue);
      }
    }
  }

  // ---- writers of one priority

  ghost predicate OnePriority(events: seq<Event>, prio: int) {
    forall i | 0 <= i < |events| && (events[i].Sent? || events[i].Asked?) :: events[i].prio == prio
  }

  ghost predicate AllAt(q: Queue<nat>, prio: int) {
    forall i | 0 <= i < |q.waiters| :: q.waiters[i].prio == prio
  }

  lemma SentLine(s: State, e: Event)
    requires Inv(s) && s.queue.cap > 0 && e.Sent? && AllAt(s.queue, e.prio)
    ensures Next(s, e).Line() == s.Line() || Next(s, e).Line() == s.Line() + [s.sent]
  {
    var a, b := PutJoinsLine(s.queue, e.thread, e.prio, s.sent, e.noWait);
    Joined(s.delivered, a, s.sent);
    assert a + b == a && a + [s.sent] + b == a + [s.sent];
    assert s.delivered + [] == s.delivered;
  }

  lemma Joined(d: seq<nat>, a: seq<nat>, x: nat)
    ensures d + (a + [x]) == d + a + [x] && d + [x] + [] == d + [] + [x]
  {
  }

  lemma SentInOrder(s: State, e: Event)
    requires Inv(s) && s.queue.cap > 0 && e.Sent? && AllAt(s.queue, e.prio) && Increasing(s.Line())
    ensures Increasing(Next(s, e).Line()) && AllAt(Next(s, e).queue, e.prio)
  {
    SentLine(s, e);
    forall i: nat | i < |s.Line()| ensures s.Line()[i] < s.sent {
      AccountBelow(s.delivered, s.queue.Line(), s.lost, s.sent, i);
    }
    assert Increasing(s.Line() + [s.sent]);
  }

  lemma CutIncreasing(d: seq<nat>, a: seq<nat>, x: seq<nat>, b: seq<nat>)
    requires Increasing(d + (a + x + b))
    ensures Increasing(d + (a + b))
  {
    var s, t := d + (a + x + b), d + (a + b);
    var n := |d| + |a|;
    forall i, j | 0 <= i < j < |t| ensures t[i] < t[j] {
      assert t[i] == s[if i < n then i else i + |x|] && t[j] == s[if j < n then j else j + |x|];
    }
  }

  lemma AskedInOrder(s: State, e: Event)
    requires Inv(s) && s.queue.cap > 0 && e.Asked? && AllAt(s.queue, e.prio) && Increasing(s.Line())
    ensures Increasing(Next(s, e).Line()) && AllAt(Next(s, e).queue, e.prio)
  {
    AskedKeepsInv(s, e);
    GetAllAt(s.queue, e.thread, e.prio, e.junk, e.noWait);
  }

  lemma GetAllAt(q: Queue<nat>, thread: nat, prio: int, junk: nat, noWait: bool)
    requires AllAt(q, prio)
    ensures AllAt(Get(q, thread, prio, junk, noWait).queue, prio)
  {
  }

  lemma NextInOrder(s: State, e: Event, prio: int)
    requires Inv(s) && s.queue.cap > 0 && Enabled(s, e) && ((e.Sent? || e.Asked?) ==> e.prio == prio)
    requires AllAt(s.queue, prio) && Increasing(s.Line())
    ensures Increasing(Next(s, e).Line()) && AllAt(Next(s, e).queue, prio)
  {
    match e
    case Sent(_, _, _) => SentInOrder(s, e);
    case Asked(_, _, _, _) => AskedInOrder(s, e);
    case TimedOut(i) => TimedOutInOrder(s, i);
    case Purged => PurgedInOrder(s);
  }

  lemma PurgedInOrder(s: State)
    requires Increasing(s.Line())
    ensures Increasing(Next(s, Purged).Line())
  {
    PrefixIncreasing(s.delivered, s.queue.Line());
    assert Next(s, Purged).Line() == s.delivered;
  }

  lemma TimedOutInOrder(s: State, i: nat)
    requires i < |s.queue.waiters| && Increasing(s.Line())
    ensures Increasing(Next(s, TimedOut(i)).Line())
  {
    var a, b := WithdrawnLine(s.queue, i);
    var w := s.queue.waiters[i];
    CutIncreasing(s.delivered, a, if w.data.role == Writer then [w.data.value] else [], b);
  }

  lemma PrefixIncreasing(d: seq<nat>, line: seq<nat>)
    requires Increasing(d + line)
    ensures Increasing(d)
  {
    assert forall i | 0 <= i < |d| :: d[i] == (d + line)[i];
  }

  /** With threads of one priority the queue is first in, first out. */
  lemma {:induction false} OnePriorityRunIsFifo(cap: nat, events: seq<Event>, prio: int)
    requires cap > 0 && Run(cap, events).At? && OnePriority(events, prio)
    ensures var s := Run(cap, events).state; Increasing(s.Line()) && AllAt(s.queue, prio)
    decreases |events|
  {
    if events != [] {
      var n := |events| - 1;
      OnePriorityRunIsFifo(cap, events[..n], prio);
      EveryRunKeepsInv(cap, events[..n]);
      NextInOrder(Run(cap, events[..n]).state, events[n], prio);
    }
  }
}
