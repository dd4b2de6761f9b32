/** A mutex with priority inheritance, step by step. A lower number is a higher priority. */
module MutexSpec {
  import opened WaitQueue
  import opened Common

  datatype Owner = Nobody | Held(thread: nat)

  type Queue = seq<Waiter<()>>

  /** One mutex and the current priorities. `cleaning` holds the threads whose wait timed out and who
      have not yet run the rest of their lock call. */
  datatype State = State(owner: Owner, count: nat, orig: int, waiters: Queue, prio: map<nat, int>, cleaning: set<nat>)

  datatype Action =
    | Lock(thread: nat, noWait: bool)
    | Unlock(thread: nat)
    | Timeout(at: nat)
    | Cleanup(thread: nat)

  /** `_get_new_prio_with_ceiling`. */
  function Clamp(ceil: int, p: int): (r: int) { if p >= ceil then p else ceil }

  /** `new_prio_for_inheritance`. */
  function Inherit(ceil: int, target: int, limit: int): (r: int) {
    Clamp(ceil, Min(target, limit))
  }

  // ---- the steps

  /** A thread that runs: it neither waits nor has a timed-out wait to finish. */
  predicate Running(s: State, t: nat) {
    t in s.prio && t !in s.cleaning && forall i | 0 <= i < |s.waiters| :: s.waiters[i].thread != t
  }

  predicate Enabled(s: State, a: Action) {
    match a
    case Lock(t, _) => Running(s, t) && (s.count > 0 ==> s.owner.Held? && s.owner.thread in s.prio)
    case Unlock(t) => Running(s, t) && s.count > 0 && s.owner == Held(t)
                      && (s.waiters != [] ==> s.waiters[0].thread in s.prio)
    case Timeout(i) => i < |s.waiters|
    case Cleanup(t) => t in s.cleaning && s.owner.Held? && s.owner.thread in s.prio
  }

  function Locked(s: State, t: nat): (r: State)
    requires t in s.prio
  {
    s.(owner := Held(t), count := s.count + 1, orig := if s.count == 0 then s.prio[t] else s.orig)
  }

  function Contended(ceil: int, s: State, t: nat): (r: State)
    requires t in s.prio && s.owner.Held? && s.owner.thread in s.prio
  {
    var o := s.owner.thread;
    var boosted := Inherit(ceil, s.prio[t], s.prio[o]);
    s.(prio := if boosted < s.prio[o] then s.prio[o := boosted] else s.prio,
       waiters := Insert(s.waiters, Waiter(t, s.prio[t], ())))
  }

  function Unlocked(s: State, t: nat): (r: State)
    requires t in s.prio && s.count > 0 && (s.waiters != [] ==> s.waiters[0].thread in s.prio)
  {
    if s.count > 1 then s.(count := s.count - 1)
    else
      var prio := s.prio[t := s.orig];
      if s.waiters == [] then s.(owner := Nobody, count := 0, prio := prio)
      else
        var next := s.waiters[0].thread;
        s.(owner := Held(next), count := 1, orig := prio[next], prio := prio, waiters := s.waiters[1..])
  }

  function TimedOut(s: State, i: nat): (r: State)
    requires i < |s.waiters|
  {
    s.(waiters := Without(s.waiters, i), cleaning := s.cleaning + {s.waiters[i].thread})
  }

  function Cleaned(ceil: int, s: State, t: nat): (r: State)
    requires s.owner.Held?
  {
    var target := if s.waiters == [] then s.orig else Inherit(ceil, s.waiters[0].prio, s.orig);
    s.(prio := s.prio[s.owner.thread := target], cleaning := s.cleaning - {t})
  }

  function Next(ceil: int, s: State, a: Action): (r: State)
    requires Enabled(s, a)
  {
    match a
    case Lock(t, noWait) =>
      if s.count == 0 || s.owner == Held(t) then Locked(s, t)
      else if noWait then s
      else Contended(ceil, s, t)
    case Unlock(t) => Unlocked(s, t)
    case Timeout(i) => TimedOut(s, i)
    case Cleanup(t) => Cleaned(ceil, s, t)
  }

  function Start(base: map<nat, int>): (s: State) {
    State(Nobody, 0, 0, [], base, {})
  }

  // ---- what holds in between

  /** The priority the owner should run at: its own, or the best clamped priority of a waiter. */
  function Target(ceil: int, orig: int, q: Queue): (r: int) {
    if q == [] then orig else Min(Target(ceil, orig, q[1..]), Clamp(ceil, q[0].prio))
  }

  /** Who is where, and that only an owner's priority ever differs from its own. */
  ghost predicate Shape(base: map<nat, int>, s: State) {
    && s.prio.Keys == base.Keys
    && (s.owner == Nobody <==> s.count == 0)
    && (s.owner == Nobody ==> s.waiters == [])
    && (s.owner.Held? ==> s.owner.thread in base && s.owner.thread !in s.cleaning && s.orig == base[s.owner.thread])
    && s.cleaning <= base.Keys
    && Queued(base, s)
    && (forall t | t in base && s.owner != Held(t) :: s.prio[t] == base[t])
  }

  ghost predicate Queued(base: map<nat, int>, s: State) {
    && Sorted(s.waiters)
    && (forall i | 0 <= i < |s.waiters| :: WaiterOk(base, s, s.waiters[i]))
    && (forall i, j | 0 <= i < j < |s.waiters| :: s.waiters[i].thread != s.waiters[j].thread)
  }

  ghost predicate WaiterOk(base: map<nat, int>, s: State, w: Waiter<()>) {
    w.thread in base && w.prio == base[w.thread] && w.thread !in s.cleaning && s.owner != Held(w.thread)
  }

  /** The inheritance promise: never worse than it should be, and exact once nobody has to clean up. */
  ghost predicate Inherits(ceil: int, s: State)
    requires s.owner.Held? ==> s.owner.thread in s.prio
  {
    s.owner.Held? ==>
      && s.prio[s.owner.thread] <= Target(ceil, s.orig, s.waiters)
      && (s.cleaning == {} ==> s.prio[s.owner.thread] == Target(ceil, s.orig, s.waiters))
  }

  /** What the target means: a lower bound of the owner's own and every waiter's clamped priority, and
      one of them. */
  lemma {:induction false} TargetIsBest(ceil: int, orig: int, q: Queue)
    ensures Target(ceil, orig, q) <= orig
    ensures forall i | 0 <= i < |q| :: Target(ceil, orig, q) <= Clamp(ceil, q[i].prio)
    ensures Target(ceil, orig, q) == orig || exists i :: 0 <= i < |q| && Target(ceil, orig, q) == Clamp(ceil, q[i].prio)
  {
    if q != [] {
      TargetIsBest(ceil, orig, q[1..]);
      if Target(ceil, orig, q) != orig && Target(ceil, orig, q) != Clamp(ceil, q[0].prio) {
        var i :| 0 <= i < |q[1..]| && Target(ceil, orig, q[1..]) == Clamp(ceil, q[1..][i].prio);
        assert q[i + 1] == q[1..][i];
      }
    }
  }

  /** In a sorted queue only the first waiter matters. */
  lemma {:induction false} TargetOfSorted(ceil: int, orig: int, q: Queue)
    requires Sorted(q)
    ensures Target(ceil, orig, q) == if q == [] then orig else Min(orig, Clamp(ceil, q[0].prio))
  {
    if q != [] { TargetOfSorted(ceil, orig, q[1..]); }
  }

  lemma {:induction false} TargetAppend(ceil: int, orig: int, a: Queue, b: Queue)
    ensures Target(ceil, orig, a + b) == Target(ceil, Target(ceil, orig, b), a)
  {
    if a == [] {
      assert a + b == b;
    } else {
      assert (a + b)[1..] == a[1..] + b && (a + b)[0] == a[0];
      TargetAppend(ceil, orig, a[1..], b);
    }
  }

  lemma {:induction false} TargetLimit(ceil: int, orig: int, p: int, q: Queue)
    ensures Target(ceil, Min(orig, p), q) == Min(Target(ceil, orig, q), p)
  {
    if q != [] { TargetLimit(ceil, orig, p, q[1..]); }
  }

  /** A new waiter lowers the target to its own clamped priority, wherever it is queued. */
  lemma {:induction false} TargetInsert(ceil: int, orig: int, q: Queue, w: Waiter<()>)
    ensures Target(ceil, orig, Insert(q, w)) == Min(Target(ceil, orig, q), Clamp(ceil, w.prio))
  {
    var k := Place(q, w);
    var a, b := q[..k], q[k..];
    assert q == a + b;
    TargetAppend(ceil, orig, a, b);
    TargetAppend(ceil, orig, a + [w], b);
    TargetAppend(ceil, Target(ceil, orig, b), a, [w]);
    assert Target(ceil, Target(ceil, orig, b), [w]) == Min(Target(ceil, orig, b), Clamp(ceil, w.prio));
    TargetLimit(ceil, Target(ceil, orig, b), Clamp(ceil, w.prio), a);
  }

  lemma {:induction false} TargetWithout(ceil: int, orig: int, q: Queue, i: nat)
    requires i < |q|
    ensures Target(ceil, orig, q) <= Target(ceil, orig, q[..i] + q[i + 1..])
  {
    var a, b := q[..i], q[i + 1..];
    assert q == a + [q[i]] + b;
    TargetAppend(ceil, orig, a, b);
    TargetAppend(ceil, orig, a + [q[i]], b);
    TargetAppend(ceil, Target(ceil, orig, b), a, [q[i]]);
    TargetLimit(ceil, Target(ceil, orig, b), Clamp(ceil, q[i].prio), a);
  }
}
