/** A mailbox and the pool of asynchronous message descriptors, step by step. */
module MailboxSpec {
  import opened WaitQueue
  import opened Common

  datatype Id = Any | Thread(id: nat)

  /** Who is to be told when a message is consumed: a waiting thread, or a descriptor's dummy thread. */
  datatype Sender = Real(thread: nat) | Dummy(desc: nat)

  /** A message descriptor; 0 stands for a null pointer in `data` and `block`. */
  datatype Msg = Msg(size: nat, info: nat, data: nat, block: nat, source: Id, target: Id)

  /** A message on its way, with the semaphore to give (0 for none). */
  datatype Tx = Tx(sender: Sender, msg: Msg, sem: nat)

  /** A receiver's descriptor, at address `slot`. */
  datatype Rx = Rx(slot: nat, msg: Msg)

  /** A matched message that is not yet disposed of. */
  datatype Pair = Pair(tx: Tx, rx: Rx)

  type TxQueue = seq<Waiter<Tx>>
  type RxQueue = seq<Waiter<Rx>>

  datatype Holding = Holding(thread: nat, desc: nat)

  /** What a message carries that must come out exactly once. */
  datatype Token = From(thread: nat) | Desc(desc: nat) | Sem(sem: nat) | Block(block: nat) | Slot(slot: nat)

  /** `issued` and `spent` count what went into the mailbox and what came out again: threads woken,
      descriptors freed, semaphores given, blocks freed or handed over, receive descriptors done.
      `sizes` is what each sender last found in the size field of its descriptor. */
  datatype State = State(
    tx: TxQueue, rx: RxQueue, matched: seq<Pair>,
    free: seq<nat>, held: seq<Holding>, poolWaiters: seq<Waiter<()>>,
    issued: multiset<Token>, spent: multiset<Token>, sizes: map<Sender, nat>)

  // ---- matching

  /** The test of `_mbox_message_match`. */
  predicate Compatible(tx: Msg, rx: Msg) {
    (tx.target == Any || tx.target == rx.target) && (rx.source == Any || rx.source == tx.source)
  }

  /** The updates of `_mbox_message_match`. */
  function Match(tx: Tx, rx: Rx): (p: Pair) {
    var data := if tx.msg.data != 0 then tx.msg.data else tx.msg.block;
    var block := if tx.msg.data != 0 then 0 else tx.msg.block;
    Pair(tx.(msg := tx.msg.(target := rx.msg.target, info := rx.msg.info)),
         rx.(msg := rx.msg.(source := tx.msg.source, info := tx.msg.info,
                            size := if rx.msg.size > tx.msg.size then tx.msg.size else rx.msg.size,
                            data := data, block := block)))
  }

  /** The first waiting receiver that fits, or the end of the queue. */
  function FindRx(q: RxQueue, m: Msg): (k: nat)
    ensures k <= |q| && (k < |q| ==> Compatible(m, q[k].data.msg))
    ensures forall i | 0 <= i < k :: !Compatible(m, q[i].data.msg)
  {
    if q == [] || Compatible(m, q[0].data.msg) then 0 else 1 + FindRx(q[1..], m)
  }

  function FindTx(q: TxQueue, m: Msg): (k: nat)
    ensures k <= |q| && (k < |q| ==> Compatible(q[k].data.msg, m))
    ensures forall i | 0 <= i < k :: !Compatible(q[i].data.msg, m)
  {
    if q == [] || Compatible(q[0].data.msg, m) then 0 else 1 + FindTx(q[1..], m)
  }

  // ---- tokens

  function NonNull(p: nat, t: Token): (r: multiset<Token>) {
    if p == 0 then multiset{} else multiset{t}
  }

  function SenderToken(s: Sender): (t: Token) {
    match s case Real(t) => From(t) case Dummy(d) => Desc(d)
  }

  /** A block travels with the message unless a data pointer hides it. */
  function TxTokens(tx: Tx): (r: multiset<Token>) {
    multiset{SenderToken(tx.sender)} + NonNull(tx.sem, Sem(tx.sem))
    + NonNull(if tx.msg.data != 0 then 0 else tx.msg.block, Block(tx.msg.block))
  }

  function PairTokens(p: Pair): (r: multiset<Token>) {
    multiset{SenderToken(p.tx.sender)} + NonNull(p.tx.sem, Sem(p.tx.sem))
    + NonNull(p.rx.msg.block, Block(p.rx.msg.block)) + multiset{Slot(p.rx.slot)}
  }

  /** How often a token is with the messages that wait to be sent. */
  function Queued(q: TxQueue, t: Token): (n: nat) {
    if q == [] then 0 else TxTokens(q[0].data)[t] + Queued(q[1..], t)
  }

  function Waiting(q: RxQueue, t: Token): (n: nat) {
    if q == [] then 0 else (if t == Slot(q[0].data.slot) then 1 else 0) + Waiting(q[1..], t)
  }

  function Matched(m: seq<Pair>, t: Token): (n: nat) {
    if m == [] then 0 else PairTokens(m[0])[t] + Matched(m[1..], t)
  }

  function InFlight(s: State, t: Token): (n: nat) {
    Queued(s.tx, t) + Waiting(s.rx, t) + Matched(s.matched, t)
  }

  function HeldDescs(held: seq<Holding>): (r: seq<nat>)
    ensures |r| == |held|
    ensures forall i | 0 <= i < |r| :: r[i] == held[i].desc
  {
    seq(|held|, i requires 0 <= i < |held| => held[i].desc)
  }

  // ---- the steps

  /** `_mbox_message_put`, for a message that is ready to go. */
  function Post(s: State, tx: Tx, thread: nat, prio: int, noWait: bool): (r: State) {
    var k := FindRx(s.rx, tx.msg);
    if k < |s.rx| then
      s.(rx := Without(s.rx, k), matched := s.matched + [Match(tx, s.rx[k].data)], issued := s.issued + TxTokens(tx))
    else if noWait then s
    else s.(tx := Insert(s.tx, Waiter(thread, prio, tx)), issued := s.issued + TxTokens(tx))
  }

  /** `k_mbox_get` up to the match or the wait. */
  function Fetch(s: State, rx: Rx, thread: nat, prio: int, noWait: bool): (r: State) {
    var k := FindTx(s.tx, rx.msg);
    if k < |s.tx| then
      s.(tx := Without(s.tx, k), matched := s.matched + [Match(s.tx[k].data, rx)],
         issued := s.issued + multiset{Slot(rx.slot)})
    else if noWait then s
    else s.(rx := Insert(s.rx, Waiter(thread, prio, rx)), issued := s.issued + multiset{Slot(rx.slot)})
  }

  /** `k_stack_push` on the descriptor pool. */
  function Release(s: State, d: nat): (r: State) {
    if s.poolWaiters == [] then s.(free := s.free + [d])
    else s.(poolWaiters := s.poolWaiters[1..], held := s.held + [Holding(s.poolWaiters[0].thread, d)])
  }

  /** `k_stack_pop` on the descriptor pool. */
  function Claim(s: State, thread: nat, prio: int): (r: State) {
    if s.free == [] then s.(poolWaiters := Insert(s.poolWaiters, Waiter(thread, prio, ())))
    else
      var n := |s.free| - 1;
      s.(free := s.free[..n], held := s.held + [Holding(thread, s.free[n])])
  }

  /** `k_mbox_async_put`, by the thread in `held[i]`. */
  function AsyncPost(s: State, i: nat, msg: Msg, sem: nat, prio: int): (r: State)
    requires i < |s.held|
  {
    var h := s.held[i];
    Post(s.(held := Without(s.held, i)), Tx(Dummy(h.desc), msg.(source := Thread(h.thread)), sem), h.thread, prio, false)
  }

  /** Where the matched message of a receive descriptor is. */
  function FindSlot(m: seq<Pair>, slot: nat): (i: nat)
    ensures i <= |m| && (i < |m| ==> m[i].rx.slot == slot)
    ensures forall j | 0 <= j < i :: m[j].rx.slot != slot
  {
    if m == [] || m[0].rx.slot == slot then 0 else 1 + FindSlot(m[1..], slot)
  }

  /** A matched message leaves, with all it carries. */
  function Removed(s: State, i: nat): (r: State)
    requires i < |s.matched|
  {
    s.(matched := Without(s.matched, i), spent := s.spent + PairTokens(s.matched[i]),
       sizes := s.sizes[s.matched[i].tx.sender := s.matched[i].rx.msg.size])
  }

  /** `_mbox_message_dispose`: nothing when there is no message, else everything comes out. */
  function Dispose(s: State, slot: nat): (r: State) {
    var i := FindSlot(s.matched, slot);
    if i == |s.matched| then s
    else
      match s.matched[i].tx.sender
      case Real(_) => Removed(s, i)
      case Dummy(d) => Release(Removed(s, i), d)
  }

  function Resized(s: State, i: nat): (r: State)
    requires i < |s.matched|
  {
    s.(matched := s.matched[i := NoSize(s.matched[i])])
  }

  function NoSize(p: Pair): (r: Pair) {
    p.(rx := p.rx.(msg := p.rx.msg.(size := 0)))
  }

  /** `k_mbox_data_get` without a buffer: the data is dropped, and the sender is told so. */
  function Discard(s: State, slot: nat): (r: State) {
    var i := FindSlot(s.matched, slot);
    if i == |s.matched| then s else Dispose(Resized(s, i), slot)
  }

  /** A matched message without its block, which has gone to the receiver. */
  function WithoutBlock(p: Pair): (r: Pair) {
    p.(rx := p.rx.(msg := p.rx.msg.(block := 0)))
  }

  function Emptied(s: State, i: nat): (r: State)
    requires i < |s.matched|
  {
    s.(matched := s.matched[i := WithoutBlock(s.matched[i])],
       spent := s.spent + NonNull(s.matched[i].rx.msg.block, Block(s.matched[i].rx.msg.block)))
  }

  /** The receiver takes the sender's block over (`k_mbox_data_block_get`), which ends the message. */
  function TakeBlock(s: State, slot: nat): (r: State) {
    var i := FindSlot(s.matched, slot);
    if i == |s.matched| || s.matched[i].rx.msg.block == 0 then s
    else Dispose(Emptied(s, i), slot)
  }

  function SendTimedOut(s: State, i: nat): (r: State)
    requires i < |s.tx|
  {
    s.(tx := Without(s.tx, i), spent := s.spent + TxTokens(s.tx[i].data))
  }

  function ReceiveTimedOut(s: State, i: nat): (r: State)
    requires i < |s.rx|
  {
    s.(rx := Without(s.rx, i), spent := s.spent + multiset{Slot(s.rx[i].data.slot)})
  }

  function Range(n: nat): (r: seq<nat>)
    ensures |r| == n && forall i | 0 <= i < n :: r[i] == i
  {
    seq(n, i => i)
  }

  /** `init_mbox_module`: all `n` descriptors on the stack. */
  function Start(n: nat): (s: State) {
    State([], [], [], Range(n), [], [], multiset{}, multiset{}, map[])
  }

  datatype Action =
    | SyncPut(thread: nat, prio: int, msg: Msg, noWait: bool)
    | Alloc(thread: nat, prio: int)
    | AsyncPut(at: nat, msg: Msg, sem: nat, prio: int)
    | Get(thread: nat, rx: Rx, prio: int, noWait: bool)
    | Finish(slot: nat)
    | Drop(slot: nat)
    | KeepBlock(slot: nat)
    | PutTimeout(at: nat)
    | GetTimeout(at: nat)

  predicate Enabled(s: State, a: Action) {
    match a
    case SyncPut(t, _, _, _) => InFlight(s, From(t)) == 0
    case Alloc(_, _) => true
    case AsyncPut(i, _, _, _) => i < |s.held|
    case Get(_, rx, _, _) => InFlight(s, Slot(rx.slot)) == 0
    case Finish(_) => true
    case Drop(_) => true
    case KeepBlock(_) => true
    case PutTimeout(i) => i < |s.tx| && s.tx[i].data.sender.Real?
    case GetTimeout(i) => i < |s.rx|
  }

  function Next(s: State, a: Action): (r: State)
    requires Enabled(s, a)
  {
    match a
    case SyncPut(t, prio, msg, noWait) => Post(s, Tx(Real(t), msg.(source := Thread(t)), 0), t, prio, noWait)
    case Alloc(t, prio) => Claim(s, t, prio)
    case AsyncPut(i, msg, sem, prio) => AsyncPost(s, i, msg, sem, prio)
    case Get(t, rx, prio, noWait) => Fetch(s, rx.(msg := rx.msg.(target := Thread(t))), t, prio, noWait)
    case Finish(slot) => Dispose(s, slot)
    case Drop(slot) => Discard(s, slot)
    case KeepBlock(slot) => TakeBlock(s, slot)
    case PutTimeout(i) => SendTimedOut(s, i)
    case GetTimeout(i) => ReceiveTimedOut(s, i)
  }
}
