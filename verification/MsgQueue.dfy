/** The message queue object: a ring of fixed-size messages and one wait queue. */
module MsgQueue {
  import opened WaitQueue
  import opened Circular
  import opened MsgQueueSpec

  class KMsgq<T(0)> {
    const maxMsgs: nat
    const buffer: array<T>
    var readIdx: nat
    var writeIdx: nat
    var usedMsgs: nat
    var waitQ: Waiters<T>
    ghost var contents: seq<T>

    ghost predicate Ring()
      reads this, buffer
    {
      && buffer.Length == maxMsgs
      && usedMsgs == |contents| <= maxMsgs
      && (maxMsgs == 0 ==> readIdx == 0 && writeIdx == 0)
      && (maxMsgs > 0 ==> readIdx < maxMsgs && writeIdx == Wrap(maxMsgs, readIdx + usedMsgs))
      && contents == Window(buffer[..], readIdx, usedMsgs)
    }

    ghost function Abs(): (q: Queue<T>)
      reads this
    {
      Queue(maxMsgs, contents, waitQ)
    }

    constructor (buffer: array<T>)
      ensures Ring() && this.buffer == buffer && Abs() == Queue(buffer.Length, [], [])
    {
      this.buffer, maxMsgs := buffer, buffer.Length;
      readIdx, writeIdx, usedMsgs := 0, 0, 0;
      waitQ, contents := [], [];
    }

    /** Copy a message to the write pointer and advance it. */
    method Enqueue(msg: T)
      requires Ring() && usedMsgs < maxMsgs
      modifies this`writeIdx, this`usedMsgs, this`contents, buffer
      ensures Ring() && contents == old(contents) + [msg]
    {
      WindowExtend(buffer[..], readIdx, usedMsgs, [msg]);
      ghost var patched := Patch(buffer[..], writeIdx, [msg]);
      buffer[writeIdx] := msg;
      assert buffer[..] == patched;
      writeIdx := writeIdx + 1;
      if writeIdx == maxMsgs {
        writeIdx := 0;
      }
      usedMsgs := usedMsgs + 1;
      contents := contents + [msg];
    }

    /** Copy a message from the read pointer and advance it. */
    method Dequeue() returns (msg: T)
      requires Ring() && usedMsgs > 0
      modifies this`readIdx, this`usedMsgs, this`contents
      ensures Ring() && old(contents) == [msg] + contents
    {
      WindowSplit(buffer[..], readIdx, usedMsgs, 1);
      msg := buffer[readIdx];
      assert buffer[..][readIdx..readIdx + 1] == [msg];
      readIdx := readIdx + 1;
      if readIdx == maxMsgs {
        readIdx := 0;
      }
      usedMsgs := usedMsgs - 1;
      contents := contents[1..];
    }

    /** `k_msgq_put`. */
    method Put(thread: nat, prio: int, msg: T, noWait: bool) returns (reply: Reply<T>)
      requires Ring()
      modifies this, buffer
      ensures Ring()
      ensures Outcome(Abs(), reply) == MsgQueueSpec.Put(old(Abs()), thread, prio, msg, noWait)
    {
      if usedMsgs < maxMsgs {
        if waitQ != [] {
          var w := waitQ[0];
          waitQ := waitQ[1..];
          return GaveTo(w.thread, msg);
        }
        Enqueue(msg);
        return Done;
      }
      if noWait {
        return NoMessage;
      }
      waitQ := Pend(waitQ, Waiter(thread, prio, Slot(Writer, msg)));
      return Pended;
    }

    /** `k_msgq_get`. */
    method Get(thread: nat, prio: int, junk: T, noWait: bool) returns (reply: Reply<T>)
      requires Ring()
      modifies this, buffer
      ensures Ring()
      ensures Outcome(Abs(), reply) == MsgQueueSpec.Get(old(Abs()), thread, prio, junk, noWait)
    {
      if usedMsgs > 0 {
        var msg := Dequeue();
        assert old(contents)[1..] == contents;
        if waitQ != [] {
          var w := waitQ[0];
          waitQ := waitQ[1..];
          Enqueue(w.data.value);
        }
        return Got(msg);
      }
      if noWait {
        return NoMessage;
      }
      waitQ := Pend(waitQ, Waiter(thread, prio, Slot(Reader, junk)));
      return Pended;
    }

    /** `k_msgq_purge`: every waiter is woken with an error, and the messages are dropped. */
    method Purge() returns (woken: Waiters<T>)
      requires Ring()
      modifies this
      ensures Ring() && Abs() == MsgQueueSpec.Purge(old(Abs())) && woken == old(waitQ)
    {
      woken := [];
      while waitQ != []
        invariant Ring() && woken + waitQ == old(waitQ) && contents == old(contents)
        decreases |waitQ|
      {
        woken := woken + [waitQ[0]];
        waitQ := waitQ[1..];
      }
      usedMsgs := 0;
      readIdx := writeIdx;
      contents := [];
    }
  }
}
