/** Every run of lock, unlock, time-out and clean-up on one mutex, with no priority changes from
    outside. */
module MutexRuns {
  import opened WaitQueue
  import opened MutexSpec
  import opened Common

  // ---- who is where

  lemma LockedShape(base: map<nat, int>, s: State, t: nat)
    requires Shape(base, s) && Running(s, t) && (s.count == 0 || s.owner == Held(t))
    ensures Shape(base, Locked(s, t))
  {
    var r := Locked(s, t);
    forall i | 0 <= i < |r.waiters| ensures WaiterOk(base, r, r.waiters[i]) {
      assert WaiterOk(base, s, s.waiters[i]);
    }
  }

  lemma ContendedShape(ceil: int, base: map<nat, int>, s: State, t: nat)
    requires Shape(base, s) && Running(s, t) && s.count > 0 && s.owner != Held(t)
    ensures Shape(base, Contended(ceil, s, t))
  {
    var r := Contended(ceil, s, t);
    var w := Waiter(t, s.prio[t], ());
    InsertSorted(s.waiters, w);
    assert WaiterOk(base, r, w);
    var k := Place(s.waiters, w);
    forall i | 0 <= i < |r.waiters| ensures WaiterOk(base, r, r.waiters[i]) {
      if i != k { assert WaiterOk(base, s, s.waiters[if i < k then i else i - 1]); }
    }
  }

  lemma UnlockedShape(base: map<nat, int>, s: State, t: nat)
    requires Shape(base, s) && Enabled(s, Unlock(t))
    ensures Shape(base, Unlocked(s, t))
  {
    var r := Unlocked(s, t);
    if s.waiters != [] { assert WaiterOk(base, s, s.waiters[0]); }
    forall i | 0 <= i < |r.waiters| ensures WaiterOk(base, r, r.waiters[i]) {
      assert WaiterOk(base, s, s.waiters[|s.waiters| - |r.waiters| + i]);
    }
  }

  lemma TimedOutShape(base: map<nat, int>, s: State, i: nat)
    requires Shape(base, s) && i < |s.waiters|
    ensures Shape(base, TimedOut(s, i))
  {
    var r := TimedOut(s, i);
    assert WaiterOk(base, s, s.waiters[i]);
    forall j | 0 <= j < |r.waiters| ensures WaiterOk(base, r, r.waiters[j]) && r.waiters[j] == s.waiters[if j < i then j else j + 1] {
      assert WaiterOk(base, s, s.waiters[if j < i then j else j + 1]);
    }
  }

  lemma CleanedShape(ceil: int, base: map<nat, int>, s: State, t: nat)
    requires Shape(base, s) && Enabled(s, Cleanup(t))
    ensures Shape(base, Cleaned(ceil, s, t))
  {
    var r := Cleaned(ceil, s, t);
    forall i | 0 <= i < |r.waiters| ensures WaiterOk(base, r, r.waiters[i]) {
      assert WaiterOk(base, s, s.waiters[i]);
    }
  }

  lemma NextShape(ceil: int, base: map<nat, int>, s: State, a: Action)
    requires Shape(base, s) && Enabled(s, a)
    ensures Shape(base, Next(ceil, s, a))
  {
    match a
    case Lock(t, noWait) =>
      if s.count == 0 || s.owner == Held(t) { LockedShape(base, s, t); }
      else if !noWait { ContendedShape(ceil, base, s, t); }
    case Unlock(t) => UnlockedShape(base, s, t);
    case Timeout(i) => TimedOutShape(base, s, i);
    case Cleanup(t) => CleanedShape(ceil, base, s, t);
  }

  // ---- what the owner inherits

  lemma LockInherits(ceil: int, base: map<nat, int>, s: State, t: nat, noWait: bool)
    requires Shape(base, s) && Inherits(ceil, s) && Enabled(s, Lock(t, noWait))
    ensures Inherits(ceil, Next(ceil, s, Lock(t, noWait)))
  {
    if s.count > 0 && s.owner != Held(t) && !noWait {
      TargetInsert(ceil, s.orig, s.waiters, Waiter(t, s.prio[t], ()));
    }
  }

  /** The thread that gets the mutex is the best waiter, at its own priority, which is what it should
      run at whatever the others wait with. */
  lemma {:induction false} UnlockHandsOff(ceil: int, base: map<nat, int>, s: State, t: nat)
    requires Shape(base, s) && Enabled(s, Unlock(t)) && s.count == 1
    ensures var r := Unlocked(s, t);
      && r.prio[t] == base[t]
      && (s.waiters == [] ==> r.owner == Nobody)
      && (s.waiters != [] ==>
            && r.owner == Held(s.waiters[0].thread) && r.count == 1
            && (forall i | 0 <= i < |s.waiters| :: r.prio[r.owner.thread] <= s.waiters[i].prio)
            && r.prio[r.owner.thread] == Target(ceil, r.orig, r.waiters))
  {
    UnlockedShape(base, s, t);
    var r := Unlocked(s, t);
    if s.waiters != [] {
      assert WaiterOk(base, s, s.waiters[0]);
      TargetOfSorted(ceil, r.orig, r.waiters);
    }
  }

  lemma UnlockInherits(ceil: int, base: map<nat, int>, s: State, t: nat)
    requires Shape(base, s) && Inherits(ceil, s) && Enabled(s, Unlock(t))
    ensures Unlocked(s, t).owner.Held? ==> Unlocked(s, t).owner.thread in Unlocked(s, t).prio
    ensures Inherits(ceil, Unlocked(s, t))
  {
    if s.count == 1 { UnlockHandsOff(ceil, base, s, t); }
  }

  lemma TimeoutInherits(ceil: int, base: map<nat, int>, s: State, i: nat)
    requires Shape(base, s) && Inherits(ceil, s) && i < |s.waiters|
    ensures Inherits(ceil, TimedOut(s, i))
  {
    TargetWithout(ceil, s.orig, s.waiters, i);
    assert s.waiters[i].thread in TimedOut(s, i).cleaning;
  }

  /** A lock that succeeds is undone by an unlock: a nested one exactly, a first one up to the note of
      the owner's priority. */
  lemma LockThenUnlock(base: map<nat, int>, s: State, t: nat)
    requires Shape(base, s) && Running(s, t) && (s.count == 0 || s.owner == Held(t))
    ensures Enabled(Locked(s, t), Unlock(t))
    ensures var r := Unlocked(Locked(s, t), t); if s.owner == Held(t) then r == s else r.(orig := s.orig) == s
  {
    LockedShape(base, s, t);
    assert s.prio[t := s.prio[t]] == s.prio;
  }

  /** When the clean-up of a timed-out wait is right. */
  predicate CleanupIsSafe(ceil: int, s: State) {
    s.orig >= ceil || s.waiters == []
  }

  /** A clean-up leaves the owner at the priority it should have exactly when the owner's own priority
      is not above the ceiling or nobody waits any more. Otherwise the owner ends up at the ceiling,
      which is worse than its own. */
  lemma {:induction false} CleanupIsExactIff(ceil: int, base: map<nat, int>, s: State, t: nat)
    requires Shape(base, s) && Enabled(s, Cleanup(t))
    ensures Inherits(ceil, Cleaned(ceil, s, t)) <==> CleanupIsSafe(ceil, s)
    ensures CleanupIsSafe(ceil, s) ==>
      Cleaned(ceil, s, t).prio[s.owner.thread] == Target(ceil, s.orig, s.waiters)
    ensures !CleanupIsSafe(ceil, s) ==> Cleaned(ceil, s, t).prio[s.owner.thread] == ceil > s.orig
  {
    TargetOfSorted(ceil, s.orig, s.waiters);
  }

  // ---- runs

  /** The state after `actions`, as far as they are enabled one after the other. */
  datatype Outcome = Stuck | At(state: State)

  function Run(ceil: int, base: map<nat, int>, actions: seq<Action>): (r: Outcome)
    decreases |actions|
  {
    if actions == [] then At(Start(base))
    else
      var n := |actions| - 1;
      match Run(ceil, base, actions[..n])
      case Stuck => Stuck
      case At(s) => if Enabled(s, actions[n]) then At(Next(ceil, s, actions[n])) else Stuck
  }

  /** Every clean-up in the run happened when it was safe. */
  ghost predicate SafeCleanups(ceil: int, base: map<nat, int>, actions: seq<Action>) {
    forall n | 0 <= n < |actions| && actions[n].Cleanup? ::
      Run(ceil, base, actions[..n]).At? ==> CleanupIsSafe(ceil, Run(ceil, base, actions[..n]).state)
  }

  /** In every run: at most one owner, which holds the mutex as long as its count is not zero; a free
      mutex has no waiters; waiters are in priority order; and every thread but the owner has its own
      priority, so an owner always gets it back. */
  lemma {:induction false} EveryRunKeepsShape(ceil: int, base: map<nat, int>, actions: seq<Action>)
    requires Run(ceil, base, actions).At?
    ensures Shape(base, Run(ceil, base, actions).state)
    decreases |actions|
  {
    if actions != [] {
      var n := |actions| - 1;
      EveryRunKeepsShape(ceil, base, actions[..n]);
      NextShape(ceil, base, Run(ceil, base, actions[..n]).state, actions[n]);
    }
  }

  /** In every run whose clean-ups are safe the owner runs at least at its own priority and at the
      clamped priority of every waiter, and at the best of these once nobody has to clean up. */
  lemma {:induction false} EveryRunInherits(ceil: int, base: map<nat, int>, actions: seq<Action>)
    requires Run(ceil, base, actions).At? && SafeCleanups(ceil, base, actions)
    ensures Shape(base, Run(ceil, base, actions).state) && Inherits(ceil, Run(ceil, base, actions).state)
    decreases |actions|
  {
    EveryRunKeepsShape(ceil, base, actions);
    if actions != [] {
      var n := |actions| - 1;
      var s, a := Run(ceil, base, actions[..n]).state, actions[n];
      forall m | 0 <= m < n && actions[..n][m].Cleanup? ensures
          Run(ceil, base, actions[..n][..m]).At? ==> CleanupIsSafe(ceil, Run(ceil, base, actions[..n][..m]).state) {
        assert actions[..n][..m] == actions[..m];
      }
      EveryRunInherits(ceil, base, actions[..n]);
      match a
      case Lock(t, noWait) => LockInherits(ceil, base, s, t, noWait);
      case Unlock(t) => UnlockInherits(ceil, base, s, t);
      case Timeout(i) => TimeoutInherits(ceil, base, s, i);
      case Cleanup(t) => CleanupIsExactIff(ceil, base, s, t);
    }
  }

  lemma {:induction false} RunStep(ceil: int, base: map<nat, int>, actions: seq<Action>, n: nat, s: State, r: State)
    requires n < |actions| && Run(ceil, base, actions[..n]) == At(s)
    requires Enabled(s, actions[n]) && r == Next(ceil, s, actions[n])
    ensures Run(ceil, base, actions[..n + 1]) == At(r)
  {
    assert actions[..n + 1][..n] == actions[..n];
  }

  /** Thread `t` holds the mutex and `u` waits for it. */
  lemma {:induction false} OneWaits(ceil: int, base: map<nat, int>, a: seq<Action>, t: nat, u: nat) returns (s: State)
    requires t in base && u in base && t != u
    requires |a| >= 2 && a[0] == Lock(t, false) && a[1] == Lock(u, false)
    ensures Run(ceil, base, a[..2]) == At(s)
    ensures s.owner == Held(t) && s.count == 1 && s.orig == base[t] && s.waiters == [Waiter(u, base[u], ())]
    ensures s.cleaning == {} && s.prio.Keys == base.Keys && forall x | x in base && x != t :: s.prio[x] == base[x]
  {
    var s0 := Start(base);
    assert a[..0] == [];
    var s1 := Locked(s0, t);
    RunStep(ceil, base, a, 0, s0, s1);
    s := Contended(ceil, s1, u);
    assert s.waiters == [Waiter(u, base[u], ())];
    RunStep(ceil, base, a, 1, s1, s);
  }

  /** ... and then `v` waits behind `u`. */
  lemma {:induction false} TwoWait(ceil: int, base: map<nat, int>, a: seq<Action>, t: nat, u: nat, v: nat) returns (s: State)
    requires t in base && u in base && v in base && t != u && t != v && u != v && base[u] <= base[v]
    requires |a| >= 3 && a[0] == Lock(t, false) && a[1] == Lock(u, false) && a[2] == Lock(v, false)
    ensures Run(ceil, base, a[..3]) == At(s)
    ensures s.owner == Held(t) && s.orig == base[t] && t in s.prio && s.cleaning == {}
    ensures s.waiters == [Waiter(u, base[u], ()), Waiter(v, base[v], ())]
  {
    var s2 := OneWaits(ceil, base, a, t, u);
    s := Contended(ceil, s2, v);
    assert s.waiters == [Waiter(u, base[u], ()), Waiter(v, base[v], ())];
    RunStep(ceil, base, a, 2, s2, s);
  }

  /** An owner above the ceiling is demoted by the clean-up of a waiter that timed out while another
      still waits. */
  lemma {:induction false} DemotedOwner(ceil: int, base: map<nat, int>, a: seq<Action>, t: nat, u: nat, v: nat)
    requires t in base && u in base && v in base && t != u && t != v && u != v
    requires base[t] < ceil && base[u] <= base[v]
    requires |a| == 5 && a[0] == Lock(t, false) && a[1] == Lock(u, false) && a[2] == Lock(v, false)
    requires a[3] == Timeout(0) && a[4] == Cleanup(u)
    ensures var run := Run(ceil, base, a);
      run.At? && run.state.owner == Held(t) && t in run.state.prio && run.state.prio[t] == ceil > base[t]
  {
    var s3 := TwoWait(ceil, base, a, t, u, v);
    var s4 := TimedOut(s3, 0);
    DemotedState(ceil, base, s3, t, u, v);
    RunStep(ceil, base, a, 3, s3, s4);
    RunStep(ceil, base, a, 4, s4, Cleaned(ceil, s4, u));
    assert a[..5] == a;
  }

  /** The clean-up of `u` while `v` waits. */
  lemma {:induction false} DemotedState(ceil: int, base: map<nat, int>, s: State, t: nat, u: nat, v: nat)
    requires t in base && u in base && v in base && base[t] < ceil && base[u] <= base[v]
    requires s.owner == Held(t) && s.orig == base[t] && t in s.prio && s.cleaning == {}
    requires s.waiters == [Waiter(u, base[u], ()), Waiter(v, base[v], ())]
    ensures Enabled(s, Timeout(0)) && Enabled(TimedOut(s, 0), Cleanup(u))
    ensures var r := Cleaned(ceil, TimedOut(s, 0), u); r.owner == Held(t) && t in r.prio && r.prio[t] == ceil
  {
    var s4 := TimedOut(s, 0);
    assert s4.waiters == [Waiter(v, base[v], ())] && s4.cleaning == {u};
  }

  /** A clean-up finds an owner exactly when the mutex is locked. */
  lemma CleanupHasOwnerIff(base: map<nat, int>, s: State, t: nat)
    requires Shape(base, s) && t in s.cleaning
    ensures Enabled(s, Cleanup(t)) <==> s.count > 0
  {
  }

  /** In every run, a thread whose wait timed out can finish its call exactly when the mutex is locked
      at that moment; when it has become free the code follows a null owner. */
  lemma {:induction false} EveryRunCleanupIff(ceil: int, base: map<nat, int>, actions: seq<Action>, t: nat)
    requires Run(ceil, base, actions).At? && t in Run(ceil, base, actions).state.cleaning
    ensures Run(ceil, base, actions + [Cleanup(t)]).At? <==> Run(ceil, base, actions).state.count > 0
    ensures Run(ceil, base, actions + [Cleanup(t)]).At? ==>
      Run(ceil, base, actions + [Cleanup(t)]).state.count == Run(ceil, base, actions).state.count
  {
    EveryRunKeepsShape(ceil, base, actions);
    CleanupHasOwnerIff(base, Run(ceil, base, actions).state, t);
    assert (actions + [Cleanup(t)])[..|actions|] == actions;
  }

  /** A clean-up can come when nobody owns the mutex; the code then follows a null owner. */
  lemma {:induction false} CleanupWithoutOwner(ceil: int, base: map<nat, int>, a: seq<Action>, t: nat, u: nat)
    requires t in base && u in base && t != u
    requires |a| == 4 && a[0] == Lock(t, false) && a[1] == Lock(u, false) && a[2] == Timeout(0) && a[3] == Unlock(t)
    ensures var run := Run(ceil, base, a); run.At? && run.state.owner == Nobody && u in run.state.cleaning
  {
    var s2 := OneWaits(ceil, base, a, t, u);
    var s3 := TimedOut(s2, 0);
    assert s3.waiters == [] && s3.cleaning == {u};
    RunStep(ceil, base, a, 2, s2, s3);
    RunStep(ceil, base, a, 3, s3, Unlocked(s3, t));
    assert a[..4] == a;
  }
}
