/** The mailbox object, with the array-backed stack of asynchronous message descriptors. */
module Mailbox {
  import opened WaitQueue
  import opened MailboxSpec
  import opened MailboxRuns
  import opened Common

  const ENOMSG := -80

  /** What a put or get has come to. */
  datatype Reply = Returned(code: int) | Delivered | Pended

  /** `_mbox_message_match`. */
  method MatchMessages(tx: Tx, rx: Rx) returns (ok: bool, p: Pair)
    ensures ok <==> Compatible(tx.msg, rx.msg)
    ensures p == if ok then Match(tx, rx) else Pair(tx, rx)
  {
    p := Pair(tx, rx);
    ok := (tx.msg.target == Any || tx.msg.target == rx.msg.target)
          && (rx.msg.source == Any || rx.msg.source == tx.msg.source);
    if !ok {
      return;
    }
    var t, r := tx.msg, rx.msg;
    r := r.(source := t.source);
    t := t.(target := r.target);
    r, t := r.(info := t.info), t.(info := r.info);
    if r.size > t.size {
      r := r.(size := t.size);
    }
    r := r.(data := t.data, block := t.block);
    if r.data != 0 {
      r := r.(block := 0);
    } else if r.block != 0 {
      r := r.(data := r.block);
    }
    p := Pair(tx.(msg := t), rx.(msg := r));
  }

  /** The scan of the receive queue in `_mbox_message_put`, which matches in place: of all descriptors only
      the one it stops at changes, and the message only if it stops. */
  method ScanRx(q: RxQueue, tx: Tx) returns (k: nat, tx': Tx, q': RxQueue)
    ensures k == FindRx(q, tx.msg)
    ensures k < |q| ==> tx' == Match(tx, q[k].data).tx && q' == q[k := q[k].(data := Match(tx, q[k].data).rx)]
    ensures k == |q| ==> tx' == tx && q' == q
  {
    k, tx', q' := 0, tx, q;
    while k < |q|
      invariant 0 <= k <= |q| && tx' == tx && q' == q
      invariant forall i | 0 <= i < k :: !Compatible(tx.msg, q[i].data.msg)
    {
      var ok, p := MatchMessages(tx', q'[k].data);
      tx' := p.tx;
      q' := q'[k := q'[k].(data := p.rx)];
      if ok {
        FirstRx(q, tx.msg, k);
        return;
      }
      assert q[k := q[k].(data := q[k].data)] == q;
      k := k + 1;
    }
    FirstRx(q, tx.msg, k);
  }

  /** The scan of the transmit queue in `k_mbox_get`, likewise. */
  method ScanTx(q: TxQueue, rx: Rx) returns (k: nat, rx': Rx, q': TxQueue)
    ensures k == FindTx(q, rx.msg)
    ensures k < |q| ==> rx' == Match(q[k].data, rx).rx && q' == q[k := q[k].(data := Match(q[k].data, rx).tx)]
    ensures k == |q| ==> rx' == rx && q' == q
  {
    k, rx', q' := 0, rx, q;
    while k < |q|
      invariant 0 <= k <= |q| && rx' == rx && q' == q
      invariant forall i | 0 <= i < k :: !Compatible(q[i].data.msg, rx.msg)
    {
      var ok, p := MatchMessages(q'[k].data, rx');
      rx' := p.rx;
      q' := q'[k := q'[k].(data := p.tx)];
      if ok {
        FirstTx(q, rx.msg, k);
        return;
      }
      assert q[k := q[k].(data := q[k].data)] == q;
      k := k + 1;
    }
    FirstTx(q, rx.msg, k);
  }

  lemma FirstRx(q: RxQueue, m: Msg, k: nat)
    requires k <= |q| && (k < |q| ==> Compatible(m, q[k].data.msg))
    requires forall i | 0 <= i < k :: !Compatible(m, q[i].data.msg)
    ensures FindRx(q, m) == k
  {
  }

  lemma FirstTx(q: TxQueue, m: Msg, k: nat)
    requires k <= |q| && (k < |q| ==> Compatible(q[k].data.msg, m))
    requires forall i | 0 <= i < k :: !Compatible(q[i].data.msg, m)
    ensures FindTx(q, m) == k
  {
  }

  /** Memory as bytes by address; those not listed are 0. */
  type Memory = map<nat, nat>

  function Byte(mem: Memory, a: nat): (b: nat) { if a in mem then mem[a] else 0 }

  /** `memcpy`. */
  function Copied(mem: Memory, to: nat, from: nat, n: nat): (r: Memory) {
    if n == 0 then mem else Copied(mem, to, from, n - 1)[to + n - 1 := Byte(mem, from + n - 1)]
  }

  lemma {:induction false} CopiedAt(mem: Memory, to: nat, from: nat, n: nat, x: nat)
    ensures Byte(Copied(mem, to, from, n), x) == if to <= x < to + n then Byte(mem, from + (x - to)) else Byte(mem, x)
  {
    if n > 0 { CopiedAt(mem, to, from, n - 1, x); }
  }

  /** The copy that `k_mbox_data_get` makes: all that the descriptor says there is, to a buffer that is not
      null. */
  function Retrieved(mem: Memory, m: Msg, buffer: nat): (r: Memory) {
    if buffer != 0 && m.data != 0 && m.size > 0 then Copied(mem, buffer, m.data, m.size) else mem
  }

  /** A matched receiver finds the sender's bytes in its buffer, from the sender's memory or its block, as
      many as were sent or fit; nothing else in memory changes. */
  lemma ReceiverGetsMessage(mem: Memory, tx: Tx, rx: Rx, buffer: nat, x: nat)
    requires Compatible(tx.msg, rx.msg) && buffer != 0
    ensures var sent := if tx.msg.data != 0 then tx.msg.data else tx.msg.block;
      var n := Min(tx.msg.size, rx.msg.size);
      var after := Retrieved(mem, Match(tx, rx).rx.msg, buffer);
      Byte(after, x) == if sent != 0 && buffer <= x < buffer + n then Byte(mem, sent + (x - buffer)) else Byte(mem, x)
  {
    var m := Match(tx, rx).rx.msg;
    CopiedAt(mem, buffer, m.data, m.size, x);
  }

  method CopyOut(mem: Memory, m: Msg, buffer: nat) returns (mem': Memory)
    ensures mem' == Retrieved(mem, m, buffer)
  {
    if buffer != 0 && m.data != 0 && m.size > 0 {
      return Copied(mem, buffer, m.data, m.size);
    }
    return mem;
  }

  /** What the pool answers when a block is asked for. */
  datatype PoolReply = Failed(code: int) | Gave(block: nat)

  const EMPTY := Msg(0, 0, 0, 0, Any, Any)

  function DescriptorAt(matched: seq<Pair>, ended: map<nat, Msg>, slot: nat): (m: Msg) {
    var i := FindSlot(matched, slot);
    if i < |matched| then matched[i].rx.msg else if slot in ended then ended[slot] else EMPTY
  }

  ghost predicate NoBlocks(ended: map<nat, Msg>) {
    forall x | x in ended :: ended[x].block == 0
  }

  /** The descriptors once the message at `slot` has ended. */
  function EndedAt(matched: seq<Pair>, ended: map<nat, Msg>, slot: nat): (r: map<nat, Msg>) {
    var i := FindSlot(matched, slot);
    if i < |matched| then ended[slot := matched[i].rx.msg.(block := 0)] else ended
  }

  /** A descriptor keeps what it says of the data when its message ends, but no block. */
  lemma DescriptorEnds(n: nat, s: State, ended: map<nat, Msg>, slot: nat)
    requires Inv(n, s) && NoBlocks(ended)
    ensures var after := EndedAt(s.matched, ended, slot);
      && NoBlocks(after)
      && DescriptorAt(Dispose(s, slot).matched, after, slot) == DescriptorAt(s.matched, ended, slot).(block := 0)
  {
    DisposedIsGone(n, s, slot);
  }

  /** Messages with the size of the one at `slot` cleared. */
  function ClearedAt(matched: seq<Pair>, slot: nat): (r: seq<Pair>) {
    var i := FindSlot(matched, slot);
    if i < |matched| then matched[i := NoSize(matched[i])] else matched
  }

  function ClearedEnded(matched: seq<Pair>, ended: map<nat, Msg>, slot: nat): (r: map<nat, Msg>) {
    if FindSlot(matched, slot) == |matched| && slot in ended then ended[slot := ended[slot].(size := 0)] else ended
  }

  lemma DescriptorClears(matched: seq<Pair>, ended: map<nat, Msg>, slot: nat)
    requires NoBlocks(ended)
    ensures var after := ClearedEnded(matched, ended, slot);
      && NoBlocks(after)
      && DescriptorAt(ClearedAt(matched, slot), after, slot) == DescriptorAt(matched, ended, slot).(size := 0)
  {
    var i := FindSlot(matched, slot);
    if i < |matched| { FindSlotIs(ClearedAt(matched, slot), slot, i); }
  }

  /** Clearing the size and ending the message is discarding it. */
  lemma ClearedIsDiscarded(n: nat, s: State, slot: nat)
    requires Inv(n, s)
    ensures var r := s.(matched := ClearedAt(s.matched, slot)); Inv(n, r) && Dispose(r, slot) == Discard(s, slot)
  {
    var i := FindSlot(s.matched, slot);
    if i < |s.matched| { ResizedKeepsInv(n, s, i); }
  }

  /** Nobody in the queue can take the message. */
  ghost predicate NoFit(q: RxQueue, m: Msg) {
    forall i | 0 <= i < |q| :: !Compatible(m, q[i].data.msg)
  }

  /** Nothing in the queue is for the receiver. */
  ghost predicate NoTx(q: TxQueue, m: Msg) {
    forall i | 0 <= i < |q| :: !Compatible(q[i].data.msg, m)
  }

  lemma NoneFits(q: RxQueue, m: Msg)
    ensures NoFit(q, m) <==> FindRx(q, m) == |q|
  {
  }

  lemma NothingFits(q: TxQueue, m: Msg)
    ensures NoTx(q, m) <==> FindTx(q, m) == |q|
  {
  }

  class KMbox {
    const stackBuf: array<nat>
    var next: nat
    var txQueue: TxQueue
    var rxQueue: RxQueue
    var matched: seq<Pair>
    var held: seq<Holding>
    var poolWaiters: seq<Waiter<()>>
    var spent: multiset<Token>
    var sizes: map<Sender, nat>
    /** What is left in the receive descriptors of messages that have ended. */
    var ended: map<nat, Msg>
    ghost var issued: multiset<Token>

    ghost function Abs(): (s: State)
      requires next <= stackBuf.Length
      reads this, stackBuf
    {
      State(txQueue, rxQueue, matched, stackBuf[..next], held, poolWaiters, issued, spent, sizes)
    }

    ghost predicate Valid()
      reads this, stackBuf
    {
      next <= stackBuf.Length && Inv(stackBuf.Length, Abs())
    }

    /** A receive descriptor: of a message on hand, of one that has ended, or not used yet. */
    function Descriptor(slot: nat): (m: Msg)
      reads this
    {
      DescriptorAt(matched, ended, slot)
    }

    constructor (n: nat)
      ensures Valid() && NoBlocks(ended) && stackBuf.Length == n && fresh(stackBuf) && Abs() == Start(n)
    {
      stackBuf := new nat[n];
      next := 0;
      txQueue, rxQueue, matched, held, poolWaiters := [], [], [], [], [];
      issued, spent, sizes, ended := multiset{}, multiset{}, map[], map[];
      new;
      while next < n
        invariant 0 <= next <= n && stackBuf.Length == n && fresh(stackBuf)
        invariant stackBuf[..next] == Range(next)
        invariant txQueue == [] && rxQueue == [] && matched == [] && held == [] && poolWaiters == []
        invariant issued == multiset{} && spent == multiset{} && sizes == map[] && ended == map[]
      {
        stackBuf[next] := next;
        next := next + 1;
      }
      StartInv(n);
    }

    /** `_mbox_message_put`. */
    method Put(tx: Tx, thread: nat, prio: int, noWait: bool) returns (reply: Reply)
      requires next <= stackBuf.Length
      modifies this`txQueue, this`rxQueue, this`matched, this`issued
      ensures Abs() == Post(old(Abs()), tx, thread, prio, noWait)
      ensures reply == if FindRx(old(rxQueue), tx.msg) < |old(rxQueue)| then Delivered
                       else if noWait then Returned(ENOMSG) else Pended
    {
      var k, sent, scanned := ScanRx(rxQueue, tx);
      if k < |rxQueue| {
        WithoutUpdated(rxQueue, k, scanned[k]);
        MeetReceiver(Without(scanned, k), Pair(sent, scanned[k].data), TxTokens(tx));
        return Delivered;
      }
      if noWait {
        return Returned(ENOMSG);
      }
      WaitToSend(Waiter(thread, prio, tx));
      return Pended;
    }

    /** A waiting receiver leaves the queue with a message. */
    method MeetReceiver(rest: RxQueue, p: Pair, ghost tokens: multiset<Token>)
      requires next <= stackBuf.Length
      modifies this`rxQueue, this`matched, this`issued
      ensures Abs() == old(Abs()).(rx := rest, matched := old(matched) + [p], issued := old(issued) + tokens)
    {
      rxQueue := rest;
      matched := matched + [p];
      issued := issued + tokens;
    }

    method WaitToSend(w: Waiter<Tx>)
      requires next <= stackBuf.Length
      modifies this`txQueue, this`issued
      ensures Abs() == old(Abs()).(tx := Insert(old(txQueue), w), issued := old(issued) + TxTokens(w.data))
    {
      txQueue := Pend(txQueue, w);
      issued := issued + TxTokens(w.data);
    }

    /** `k_mbox_put` up to the wait for the receiver to finish. */
    method SyncPut(thread: nat, prio: int, msg: Msg, noWait: bool) returns (reply: Reply)
      requires Valid() && InFlight(Abs(), From(thread)) == 0
      modifies this`txQueue, this`rxQueue, this`matched, this`issued
      ensures Valid() && Abs() == Next(old(Abs()), MailboxSpec.SyncPut(thread, prio, msg, noWait))
      ensures reply == Returned(ENOMSG) <==> noWait && NoFit(old(rxQueue), msg.(source := Thread(thread)))
      ensures reply == Pended <==> !noWait && NoFit(old(rxQueue), msg.(source := Thread(thread)))
      ensures reply.Returned? ==> reply.code == ENOMSG && Abs() == old(Abs())
    {
      NextKeepsInv(stackBuf.Length, Abs(), MailboxSpec.SyncPut(thread, prio, msg, noWait));
      NoneFits(rxQueue, msg.(source := Thread(thread)));
      reply := Put(Tx(Real(thread), msg.(source := Thread(thread)), 0), thread, prio, noWait);
    }

    /** `k_stack_pop` on the free descriptors. */
    method Pop(thread: nat, prio: int) returns (reply: Reply)
      requires next <= stackBuf.Length
      modifies this`next, this`held, this`poolWaiters
      ensures next <= stackBuf.Length && Abs() == Claim(old(Abs()), thread, prio)
      ensures reply == if old(next) > 0 then Returned(0) else Pended
    {
      if next > 0 {
        next := next - 1;
        assert stackBuf[..next] == old(stackBuf[..next])[..next];
        held := held + [Holding(thread, stackBuf[next])];
        return Returned(0);
      }
      poolWaiters := Pend(poolWaiters, Waiter(thread, prio, ()));
      return Pended;
    }

    /** `_mbox_async_alloc`: take a descriptor off the stack, or wait for one. */
    method AsyncAlloc(thread: nat, prio: int) returns (reply: Reply)
      requires Valid()
      modifies this`next, this`held, this`poolWaiters
      ensures Valid() && Abs() == Next(old(Abs()), Alloc(thread, prio))
      ensures reply == if old(next) > 0 then Returned(0) else Pended
    {
      NextKeepsInv(stackBuf.Length, Abs(), Alloc(thread, prio));
      reply := Pop(thread, prio);
    }

    /** The rest of `k_mbox_async_put`, once the thread has its descriptor. */
    method AsyncPut(i: nat, msg: Msg, sem: nat, prio: int)
      requires Valid() && i < |held|
      modifies this`txQueue, this`rxQueue, this`matched, this`issued, this`held
      ensures Valid() && Abs() == Next(old(Abs()), MailboxSpec.AsyncPut(i, msg, sem, prio))
    {
      NextKeepsInv(stackBuf.Length, Abs(), MailboxSpec.AsyncPut(i, msg, sem, prio));
      PostHeld(i, msg, sem, prio);
    }

    method PostHeld(i: nat, msg: Msg, sem: nat, prio: int)
      requires next <= stackBuf.Length && i < |held|
      modifies this`txQueue, this`rxQueue, this`matched, this`issued, this`held
      ensures Abs() == AsyncPost(old(Abs()), i, msg, sem, prio)
    {
      var h := held[i];
      held := Without(held, i);
      var reply := Put(Tx(Dummy(h.desc), msg.(source := Thread(h.thread)), sem), h.thread, prio, false);
    }

    /** `k_mbox_get` up to the match or the wait, once the receiver's name is filled in. */
    method Receive(thread: nat, rx: Rx, prio: int, noWait: bool) returns (reply: Reply)
      requires next <= stackBuf.Length
      modifies this`txQueue, this`rxQueue, this`matched, this`issued
      ensures Abs() == Fetch(old(Abs()), rx, thread, prio, noWait)
      ensures reply == if FindTx(old(txQueue), rx.msg) < |old(txQueue)| then Delivered
                       else if noWait then Returned(ENOMSG) else Pended
    {
      var k, filled, scanned := ScanTx(txQueue, rx);
      if k < |txQueue| {
        WithoutUpdated(txQueue, k, scanned[k]);
        MeetSender(Without(scanned, k), Pair(scanned[k].data, filled));
        return Delivered;
      }
      if noWait {
        return Returned(ENOMSG);
      }
      WaitToReceive(Waiter(thread, prio, rx));
      return Pended;
    }

    /** A waiting message leaves the queue for a receiver. */
    method MeetSender(rest: TxQueue, p: Pair)
      requires next <= stackBuf.Length
      modifies this`txQueue, this`matched, this`issued
      ensures Abs() == old(Abs()).(tx := rest, matched := old(matched) + [p], issued := old(issued) + multiset{Slot(p.rx.slot)})
    {
      txQueue := rest;
      matched := matched + [p];
      issued := issued + multiset{Slot(p.rx.slot)};
    }

    method WaitToReceive(w: Waiter<Rx>)
      requires next <= stackBuf.Length
      modifies this`rxQueue, this`issued
      ensures Abs() == old(Abs()).(rx := Insert(old(rxQueue), w), issued := old(issued) + multiset{Slot(w.data.slot)})
    {
      rxQueue := Pend(rxQueue, w);
      issued := issued + multiset{Slot(w.data.slot)};
    }

    /** `k_mbox_get` up to the match or the wait. */
    method Get(thread: nat, rx: Rx, prio: int, noWait: bool) returns (reply: Reply)
      requires Valid() && InFlight(Abs(), Slot(rx.slot)) == 0
      modifies this`txQueue, this`rxQueue, this`matched, this`issued
      ensures Valid() && Abs() == Next(old(Abs()), MailboxSpec.Get(thread, rx, prio, noWait))
      ensures reply == Returned(ENOMSG) <==> noWait && NoTx(old(txQueue), rx.msg.(target := Thread(thread)))
      ensures reply == Pended <==> !noWait && NoTx(old(txQueue), rx.msg.(target := Thread(thread)))
      ensures reply.Returned? ==> reply.code == ENOMSG && Abs() == old(Abs())
    {
      NextKeepsInv(stackBuf.Length, Abs(), MailboxSpec.Get(thread, rx, prio, noWait));
      NothingFits(txQueue, rx.msg.(target := Thread(thread)));
      reply := Receive(thread, rx.(msg := rx.msg.(target := Thread(thread))), prio, noWait);
    }

    /** `_mbox_async_free`: `k_stack_push`, which has room because the descriptor was out. */
    method AsyncFree(d: nat)
      requires next < stackBuf.Length
      modifies this`next, this`held, this`poolWaiters, stackBuf
      ensures next <= stackBuf.Length && Abs() == Release(old(Abs()), d)
    {
      if poolWaiters != [] {
        held := held + [Holding(poolWaiters[0].thread, d)];
        poolWaiters := poolWaiters[1..];
      } else {
        stackBuf[next] := d;
        next := next + 1;
        assert stackBuf[..next] == old(stackBuf[..next]) + [d];
      }
    }

    /** What a disposal gives back: the block, the sender or its descriptor, and the semaphore. */
    method GiveBack(p: Pair)
      modifies this`spent
      ensures spent == old(spent) + PairTokens(p)
    {
      var sender := if p.tx.sender.Dummy? then Desc(p.tx.sender.desc) else From(p.tx.sender.thread);
      var sem: multiset<Token>, block: multiset<Token> := multiset{}, multiset{};
      if p.tx.sem != 0 {
        sem := multiset{Sem(p.tx.sem)};
      }
      if p.rx.msg.block != 0 {
        block := multiset{Block(p.rx.msg.block)};
      }
      spent := spent + (multiset{sender} + sem + block + multiset{Slot(p.rx.slot)});
    }

    /** The body of `_mbox_message_dispose`, for message `i`. */
    method Unmatch(i: nat)
      requires next <= stackBuf.Length && i < |matched| && FindSlot(matched, matched[i].rx.slot) == i
      requires matched[i].tx.sender.Dummy? ==> next < stackBuf.Length
      modifies this`matched, this`spent, this`sizes, this`ended, this`next, this`held, this`poolWaiters, stackBuf
      ensures next <= stackBuf.Length && Abs() == Dispose(old(Abs()), old(matched)[i].rx.slot)
      ensures var p := old(matched)[i]; ended == old(ended)[p.rx.slot := p.rx.msg.(block := 0)]
    {
      var p := matched[i];
      matched := Without(matched, i);
      ended := ended[p.rx.slot := p.rx.msg.(block := 0)];
      GiveBack(p);
      sizes := sizes[p.tx.sender := p.rx.msg.size];
      assert Abs() == Removed(old(Abs()), i);
      if p.tx.sender.Dummy? {
        AsyncFree(p.tx.sender.desc);
      }
    }

    /** The body of `_mbox_message_dispose`. */
    method End(slot: nat)
      requires next <= stackBuf.Length
      requires var i := FindSlot(matched, slot); i < |matched| && matched[i].tx.sender.Dummy? ==> next < stackBuf.Length
      modifies this`matched, this`spent, this`sizes, this`ended, this`next, this`held, this`poolWaiters, stackBuf
      ensures next <= stackBuf.Length && Abs() == Dispose(old(Abs()), slot)
      ensures ended == EndedAt(old(matched), old(ended), slot)
    {
      var i := FindSlot(matched, slot);
      if i < |matched| {
        Unmatch(i);
      }
    }

    /** `_mbox_message_dispose`. The receive descriptor keeps what it says of the data, but no block. */
    method Finish(slot: nat)
      requires Valid() && NoBlocks(ended)
      modifies this`matched, this`spent, this`sizes, this`ended, this`next, this`held, this`poolWaiters, stackBuf
      ensures Valid() && NoBlocks(ended) && Abs() == Dispose(old(Abs()), slot)
      ensures Descriptor(slot) == old(Descriptor(slot)).(block := 0)
    {
      DisposeKeepsInv(stackBuf.Length, Abs(), slot);
      DescriptorEnds(stackBuf.Length, Abs(), ended, slot);
      ghost var i := FindSlot(matched, slot);
      if i < |matched| && matched[i].tx.sender.Dummy? { RoomForDesc(stackBuf.Length, Abs(), i); }
      End(slot);
    }

    /** Set the size in a receive descriptor to 0. */
    method ClearSize(slot: nat)
      modifies this`matched, this`ended
      ensures matched == ClearedAt(old(matched), slot) && ended == ClearedEnded(old(matched), old(ended), slot)
    {
      var i := FindSlot(matched, slot);
      if i < |matched| {
        matched := matched[i := NoSize(matched[i])];
      } else if slot in ended {
        ended := ended[slot := ended[slot].(size := 0)];
      }
    }

    /** Retrieval without a buffer. */
    method DropData(slot: nat)
      requires Valid() && NoBlocks(ended)
      modifies this`matched, this`spent, this`sizes, this`ended, this`next, this`held, this`poolWaiters, stackBuf
      ensures Valid() && NoBlocks(ended) && Abs() == Discard(old(Abs()), slot)
      ensures Descriptor(slot) == old(Descriptor(slot)).(block := 0, size := 0)
    {
      ClearedIsDiscarded(stackBuf.Length, Abs(), slot);
      DescriptorClears(matched, ended, slot);
      ClearSize(slot);
      assert Abs() == old(Abs()).(matched := ClearedAt(old(matched), slot));
      Finish(slot);
    }

    /** `k_mbox_data_get`: what it copies, and how it leaves the message. On a message that has ended it
        still copies what the descriptor says. */
    method DataGet(mem: Memory, slot: nat, buffer: nat) returns (mem': Memory)
      requires Valid() && NoBlocks(ended)
      modifies this`matched, this`spent, this`sizes, this`ended, this`next, this`held, this`poolWaiters, stackBuf
      ensures Valid() && NoBlocks(ended)
      ensures buffer != 0 ==> Abs() == Dispose(old(Abs()), slot)
      ensures buffer == 0 ==> Abs() == Discard(old(Abs()), slot)
      ensures mem' == Retrieved(mem, old(Descriptor(slot)), buffer)
      ensures var m := old(Descriptor(slot)); Descriptor(slot) == m.(block := 0, size := if buffer != 0 then m.size else 0)
    {
      mem' := CopyOut(mem, Descriptor(slot), buffer);
      if buffer == 0 {
        DropData(slot);
      } else {
        Finish(slot);
      }
    }

    /** `_mbox_message_data_check`: a message that has just been received is kept only when there is data
        and nowhere to put it yet. */
    method DataCheck(mem: Memory, slot: nat, buffer: nat) returns (mem': Memory)
      requires Valid() && NoBlocks(ended) && FindSlot(matched, slot) < |matched|
      modifies this`matched, this`spent, this`sizes, this`ended, this`next, this`held, this`poolWaiters, stackBuf
      ensures Valid() && NoBlocks(ended) && mem' == Retrieved(mem, old(Descriptor(slot)), buffer)
      ensures buffer != 0 || old(Descriptor(slot)).size == 0 ==> Abs() == Dispose(old(Abs()), slot)
      ensures buffer == 0 && old(Descriptor(slot)).size != 0 ==> Abs() == old(Abs())
    {
      if buffer != 0 {
        mem' := DataGet(mem, slot, buffer);
        return;
      }
      if Descriptor(slot).size == 0 {
        Finish(slot);
      }
      return mem;
    }

    /** Take the block out of a matched message. */
    method DropBlock(i: nat)
      requires next <= stackBuf.Length && i < |matched|
      modifies this`matched, this`spent
      ensures Abs() == Emptied(old(Abs()), i)
    {
      spent := spent + NonNull(matched[i].rx.msg.block, Block(matched[i].rx.msg.block));
      matched := matched[i := WithoutBlock(matched[i])];
    }

    /** The receiver becomes the owner of the message's block. */
    method TakeOver(slot: nat, i: nat)
      requires Valid() && NoBlocks(ended) && i == FindSlot(matched, slot) < |matched| && matched[i].rx.msg.block != 0
      modifies this`matched, this`spent, this`sizes, this`ended, this`next, this`held, this`poolWaiters, stackBuf
      ensures Valid() && NoBlocks(ended) && Abs() == TakeBlock(old(Abs()), slot)
    {
      EmptiedKeepsInv(stackBuf.Length, Abs(), i);
      DropBlock(i);
      assert Valid() && Abs() == Emptied(old(Abs()), i);
      Finish(slot);
    }

    /** `k_mbox_data_block_get`; `given` is what the pool would answer. A message that has ended has no block,
        and a new one is used for it. */
    method DataBlockGet(mem: Memory, slot: nat, pool: bool, given: PoolReply)
      returns (code: int, block: nat, mem': Memory)
      requires Valid() && NoBlocks(ended) && (if given.Gave? then given.block != 0 else given.code != 0)
      modifies this`matched, this`spent, this`sizes, this`ended, this`next, this`held, this`poolWaiters, stackBuf
      ensures Valid() && NoBlocks(ended)
      ensures var m := old(Descriptor(slot));
        if !pool then code == 0 && block == 0 && mem' == mem && Abs() == Discard(old(Abs()), slot)
        else if m.block != 0 then code == 0 && block == m.block && mem' == mem && Abs() == TakeBlock(old(Abs()), slot)
        else if given.Failed? then code == given.code && mem' == mem && Abs() == old(Abs())
        else code == 0 && block == given.block && mem' == Retrieved(mem, m, block) && Abs() == Dispose(old(Abs()), slot)
    {
      if !pool {
        mem' := DataGet(mem, slot, 0);
        return 0, 0, mem';
      }
      block := Descriptor(slot).block;
      if block != 0 {
        TakeOver(slot, FindSlot(matched, slot));
        return 0, block, mem;
      }
      if given.Failed? {
        return given.code, 0, mem;
      }
      mem' := DataGet(mem, slot, given.block);
      return 0, given.block, mem';
    }
  }
}
