/** The mutex object. The priorities of all threads are kept beside it, since locking changes the
    owner's. */
module Mutex {
  import opened WaitQueue
  import opened MutexSpec
  import opened MutexRuns
  import opened Common

  const EBUSY := -16
  const EAGAIN := -11

  /** What a lock call has come to: an answer, a wait, or an access through the null owner. */
  datatype Reply = Returned(code: int) | Pended | NullOwner

  class KMutex {
    const ceil: int
    var owner: Owner
    var lockCount: nat
    var ownerOrigPrio: int
    var waitQ: Queue
    var prio: map<nat, int>
    var cleaning: set<nat>

    ghost function Abs(): (s: State)
      reads this
    {
      State(owner, lockCount, ownerOrigPrio, waitQ, prio, cleaning)
    }

    constructor (ceil: int, base: map<nat, int>)
      ensures this.ceil == ceil && Abs() == Start(base) && Shape(base, Abs())
    {
      this.ceil := ceil;
      owner, lockCount, ownerOrigPrio, waitQ := Nobody, 0, 0, [];
      prio, cleaning := base, {};
    }

    /** `adjust_owner_prio`. */
    method AdjustOwnerPrio(newPrio: int)
      requires owner.Held? && owner.thread in prio
      modifies this`prio
      ensures prio == old(prio)[owner.thread := newPrio]
    {
      if prio[owner.thread] != newPrio {
        prio := prio[owner.thread := newPrio];
      }
    }

    /** `k_mutex_lock` up to its return or its wait. */
    method Lock(t: nat, noWait: bool, ghost base: map<nat, int>) returns (reply: Reply)
      requires Shape(base, Abs()) && Running(Abs(), t)
      modifies this
      ensures Enabled(old(Abs()), MutexSpec.Lock(t, noWait))
      ensures Abs() == Next(ceil, old(Abs()), MutexSpec.Lock(t, noWait)) && Shape(base, Abs())
      ensures reply == Returned(0) <==> owner == Held(t)
      ensures reply == Returned(EBUSY) ==> Abs() == old(Abs()) && owner.Held? && owner.thread != t && noWait
      ensures reply == Pended <==> exists i :: 0 <= i < |waitQ| && waitQ[i].thread == t
      ensures reply.Returned? ==> reply.code == 0 || reply.code == EBUSY
    {
      NextShape(ceil, base, Abs(), MutexSpec.Lock(t, noWait));
      if lockCount == 0 || owner == Held(t) {
        ownerOrigPrio := if lockCount == 0 then prio[t] else ownerOrigPrio;
        lockCount := lockCount + 1;
        owner := Held(t);
        return Returned(0);
      }
      if noWait {
        return Returned(EBUSY);
      }
      var w := Waiter(t, prio[t], ());
      var newPrio := Inherit(ceil, prio[t], prio[owner.thread]);
      if newPrio < prio[owner.thread] {
        AdjustOwnerPrio(newPrio);
      }
      ghost var k := Place(waitQ, w);
      waitQ := Pend(waitQ, w);
      assert waitQ[k].thread == t;
      return Pended;
    }

    /** The wait of the thread at position `i` times out. */
    method Timeout(i: nat, ghost base: map<nat, int>)
      requires Shape(base, Abs()) && i < |waitQ|
      modifies this
      ensures Abs() == Next(ceil, old(Abs()), MutexSpec.Timeout(i)) && Shape(base, Abs())
    {
      TimedOutShape(base, Abs(), i);
      cleaning := cleaning + {waitQ[i].thread};
      waitQ := waitQ[..i] + waitQ[i + 1..];
    }

    /** The rest of `k_mutex_lock` after a timed-out wait. It goes through the owner, and so fails exactly
        when the mutex has become free in the meantime. */
    method Cleanup(t: nat, ghost base: map<nat, int>) returns (reply: Reply)
      requires Shape(base, Abs()) && t in cleaning
      modifies this
      ensures reply == (if old(lockCount) == 0 then NullOwner else Returned(EAGAIN)) && Shape(base, Abs())
      ensures reply == NullOwner ==> Abs() == old(Abs())
      ensures reply != NullOwner ==>
        && Enabled(old(Abs()), MutexSpec.Cleanup(t))
        && Abs() == Next(ceil, old(Abs()), MutexSpec.Cleanup(t))
        && (Inherits(ceil, Abs()) <==> CleanupIsSafe(ceil, old(Abs())))
    {
      CleanupHasOwnerIff(base, Abs(), t);
      if owner == Nobody {
        return NullOwner;
      }
      CleanedShape(ceil, base, Abs(), t);
      CleanupIsExactIff(ceil, base, Abs(), t);
      var newPrio := ownerOrigPrio;
      if waitQ != [] {
        newPrio := Inherit(ceil, waitQ[0].prio, newPrio);
      }
      AdjustOwnerPrio(newPrio);
      cleaning := cleaning - {t};
      return Returned(EAGAIN);
    }

    /** `k_mutex_unlock`. */
    method Unlock(t: nat, ghost base: map<nat, int>)
      requires Shape(base, Abs()) && Running(Abs(), t) && lockCount > 0 && owner == Held(t)
      modifies this
      ensures Enabled(old(Abs()), MutexSpec.Unlock(t))
      ensures Abs() == Next(ceil, old(Abs()), MutexSpec.Unlock(t)) && Shape(base, Abs())
      ensures old(lockCount) == 1 ==> prio[t] == base[t] && owner != Held(t)
    {
      assert waitQ != [] ==> WaiterOk(base, Abs(), waitQ[0]);
      UnlockedShape(base, Abs(), t);
      if lockCount == 1 { UnlockHandsOff(ceil, base, Abs(), t); }
      lockCount := lockCount - 1;
      if lockCount != 0 {
        return;
      }
      AdjustOwnerPrio(ownerOrigPrio);
      if waitQ != [] {
        var newOwner := waitQ[0].thread;
        waitQ := waitQ[1..];
        owner := Held(newOwner);
        lockCount := lockCount + 1;
        ownerOrigPrio := prio[newOwner];
      } else {
        owner := Nobody;
      }
    }
  }
}
