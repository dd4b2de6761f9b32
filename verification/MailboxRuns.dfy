/** Every run of a mailbox: no rendezvous is missed, and everything a message carries comes out
    exactly once. */
module MailboxRuns {
  import opened WaitQueue
  import opened MailboxSpec
  import opened Common

  // ---- counting tokens

  lemma {:induction false} QueuedAppend(a: TxQueue, b: TxQueue, t: Token)
    ensures Queued(a + b, t) == Queued(a, t) + Queued(b, t)
  {
    if a == [] {
      assert a + b == b;
    } else {
      assert (a + b)[1..] == a[1..] + b && (a + b)[0] == a[0];
      QueuedAppend(a[1..], b, t);
    }
  }

  lemma {:induction false} QueuedParts(a: TxQueue, w: Waiter<Tx>, b: TxQueue, t: Token)
    ensures Queued(a + [w] + b, t) == Queued(a + b, t) + TxTokens(w.data)[t]
  {
    QueuedAppend(a + [w], b, t);
    QueuedAppend(a, [w], t);
    QueuedAppend(a, b, t);
  }

  lemma {:induction false} WaitingAppend(a: RxQueue, b: RxQueue, t: Token)
    ensures Waiting(a + b, t) == Waiting(a, t) + Waiting(b, t)
  {
    if a == [] {
      assert a + b == b;
    } else {
      assert (a + b)[1..] == a[1..] + b && (a + b)[0] == a[0];
      WaitingAppend(a[1..], b, t);
    }
  }

  lemma {:induction false} WaitingParts(a: RxQueue, w: Waiter<Rx>, b: RxQueue, t: Token)
    ensures Waiting(a + [w] + b, t) == Waiting(a + b, t) + if t == Slot(w.data.slot) then 1 else 0
  {
    WaitingAppend(a + [w], b, t);
    WaitingAppend(a, [w], t);
    WaitingAppend(a, b, t);
  }

  lemma {:induction false} MatchedAppend(a: seq<Pair>, b: seq<Pair>, t: Token)
    ensures Matched(a + b, t) == Matched(a, t) + Matched(b, t)
  {
    if a == [] {
      assert a + b == b;
    } else {
      assert (a + b)[1..] == a[1..] + b && (a + b)[0] == a[0];
      MatchedAppend(a[1..], b, t);
    }
  }

  lemma {:induction false} MatchedParts(a: seq<Pair>, p: Pair, b: seq<Pair>, t: Token)
    ensures Matched(a + [p] + b, t) == Matched(a + b, t) + PairTokens(p)[t]
  {
    MatchedAppend(a + [p], b, t);
    MatchedAppend(a, [p], t);
    MatchedAppend(a, b, t);
  }

  lemma {:induction false} QueuedInsert(q: TxQueue, w: Waiter<Tx>, t: Token)
    ensures Queued(Insert(q, w), t) == Queued(q, t) + TxTokens(w.data)[t]
  {
    var k := Place(q, w);
    assert q == q[..k] + q[k..];
    QueuedParts(q[..k], w, q[k..], t);
  }

  lemma {:induction false} WaitingInsert(q: RxQueue, w: Waiter<Rx>, t: Token)
    ensures Waiting(Insert(q, w), t) == Waiting(q, t) + if t == Slot(w.data.slot) then 1 else 0
  {
    var k := Place(q, w);
    assert q == q[..k] + q[k..];
    WaitingParts(q[..k], w, q[k..], t);
  }

  lemma {:induction false} QueuedWithout(q: TxQueue, i: nat, t: Token)
    requires i < |q|
    ensures Queued(q, t) == Queued(Without(q, i), t) + TxTokens(q[i].data)[t]
  {
    assert q == q[..i] + [q[i]] + q[i + 1..];
    QueuedParts(q[..i], q[i], q[i + 1..], t);
  }

  lemma {:induction false} WaitingWithout(q: RxQueue, i: nat, t: Token)
    requires i < |q|
    ensures Waiting(q, t) == Waiting(Without(q, i), t) + if t == Slot(q[i].data.slot) then 1 else 0
  {
    assert q == q[..i] + [q[i]] + q[i + 1..];
    WaitingParts(q[..i], q[i], q[i + 1..], t);
  }

  lemma {:induction false} MatchedWithout(m: seq<Pair>, i: nat, t: Token)
    requires i < |m|
    ensures Matched(m, t) == Matched(Without(m, i), t) + PairTokens(m[i])[t]
  {
    assert m == m[..i] + [m[i]] + m[i + 1..];
    MatchedParts(m[..i], m[i], m[i + 1..], t);
  }

  // ---- matching

  /** A match passes everything on: both learn the other's name and application value, the receiver
      gets the sender's data (or block) cut to the smaller size, and nothing carried is lost. */
  lemma MatchPassesOn(tx: Tx, rx: Rx)
    requires Compatible(tx.msg, rx.msg)
    ensures var p := Match(tx, rx);
      && p.rx.msg.source == tx.msg.source && p.tx.msg.target == rx.msg.target
      && (tx.msg.target == Any || p.tx.msg.target == tx.msg.target)
      && (rx.msg.source == Any || p.rx.msg.source == rx.msg.source)
      && p.rx.msg.info == tx.msg.info && p.tx.msg.info == rx.msg.info
      && p.rx.msg.size <= tx.msg.size && p.rx.msg.size <= rx.msg.size
      && (p.rx.msg.size == tx.msg.size || p.rx.msg.size == rx.msg.size)
      && (tx.msg.data != 0 ==> p.rx.msg.data == tx.msg.data && p.rx.msg.block == 0)
      && (tx.msg.data == 0 ==> p.rx.msg.data == p.rx.msg.block == tx.msg.block)
      && PairTokens(p) == TxTokens(tx) + multiset{Slot(rx.slot)}
  {
  }

  // ---- the invariant

  /** Nobody on the transmit queue fits anybody on the receive queue. */
  ghost predicate NoneFit(tx: TxQueue, rx: RxQueue) {
    forall i, j | 0 <= i < |tx| && 0 <= j < |rx| :: !Compatible(tx[i].data.msg, rx[j].data.msg)
  }

  ghost predicate NoneMissed(s: State) {
    NoneFit(s.tx, s.rx)
  }

  /** What went in has come out or is still on its way. */
  ghost predicate Balanced(s: State) {
    forall t :: s.issued[t] == s.spent[t] + InFlight(s, t)
  }

  /** A thread sends one message at a time, and a receive descriptor is used once at a time. */
  ghost predicate Single(s: State) {
    && (forall t :: InFlight(s, From(t)) <= 1)
    && (forall x :: InFlight(s, Slot(x)) <= 1)
  }

  function Uses(s: State, d: nat): (n: nat) {
    multiset(s.free)[d] + multiset(HeldDescs(s.held))[d] + InFlight(s, Desc(d))
  }

  /** Every descriptor is in exactly one place. */
  ghost predicate Conserved(n: nat, s: State) {
    forall d: nat :: Uses(s, d) == if d < n then 1 else 0
  }

  ghost predicate Inv(n: nat, s: State) {
    && NoneMissed(s)
    && Balanced(s)
    && Single(s)
    && Conserved(n, s)
    && (s.poolWaiters != [] ==> s.free == [])
  }

  // ---- what each step does to the tokens in flight

  predicate Sends(s: State, tx: Tx, noWait: bool) {
    FindRx(s.rx, tx.msg) < |s.rx| || !noWait
  }

  predicate Receives(s: State, rx: Rx, noWait: bool) {
    FindTx(s.tx, rx.msg) < |s.tx| || !noWait
  }

  lemma MatchTokens(tx: Tx, rx: Rx, t: Token)
    ensures PairTokens(Match(tx, rx))[t] == TxTokens(tx)[t] + if t == Slot(rx.slot) then 1 else 0
  {
  }

  lemma {:induction false} MatchedAdd(m: seq<Pair>, p: Pair, t: Token)
    ensures Matched(m + [p], t) == Matched(m, t) + PairTokens(p)[t]
  {
    MatchedParts(m, p, [], t);
    assert m + [p] + [] == m + [p] && m + [] == m;
  }

  lemma PostTokens(s: State, tx: Tx, thread: nat, prio: int, noWait: bool, t: Token)
    requires Sends(s, tx, noWait)
    ensures InFlight(Post(s, tx, thread, prio, noWait), t) == InFlight(s, t) + TxTokens(tx)[t]
  {
    var k := FindRx(s.rx, tx.msg);
    if k < |s.rx| {
      WaitingWithout(s.rx, k, t);
      MatchedAdd(s.matched, Match(tx, s.rx[k].data), t);
      MatchTokens(tx, s.rx[k].data, t);
    } else {
      QueuedInsert(s.tx, Waiter(thread, prio, tx), t);
    }
  }

  lemma FetchTokens(s: State, rx: Rx, thread: nat, prio: int, noWait: bool, t: Token)
    requires Receives(s, rx, noWait)
    ensures InFlight(Fetch(s, rx, thread, prio, noWait), t) == InFlight(s, t) + if t == Slot(rx.slot) then 1 else 0
  {
    var k := FindTx(s.tx, rx.msg);
    if k < |s.tx| {
      QueuedWithout(s.tx, k, t);
      MatchedAdd(s.matched, Match(s.tx[k].data, rx), t);
      MatchTokens(s.tx[k].data, rx, t);
    } else {
      WaitingInsert(s.rx, Waiter(thread, prio, rx), t);
    }
  }

  lemma FewerFit(tx: TxQueue, rx: RxQueue, i: nat)
    requires NoneFit(tx, rx)
    ensures i < |tx| ==> NoneFit(Without(tx, i), rx)
    ensures i < |rx| ==> NoneFit(tx, Without(rx, i))
  {
  }

  lemma AddedFitNone(tx: TxQueue, rx: RxQueue, w: Waiter<Tx>, v: Waiter<Rx>)
    requires NoneFit(tx, rx)
    ensures (forall j | 0 <= j < |rx| :: !Compatible(w.data.msg, rx[j].data.msg)) ==> NoneFit(Insert(tx, w), rx)
    ensures (forall i | 0 <= i < |tx| :: !Compatible(tx[i].data.msg, v.data.msg)) ==> NoneFit(tx, Insert(rx, v))
  {
  }

  lemma PostMissesNone(s: State, tx: Tx, thread: nat, prio: int, noWait: bool)
    requires NoneMissed(s)
    ensures NoneMissed(Post(s, tx, thread, prio, noWait))
  {
    var k := FindRx(s.rx, tx.msg);
    FewerFit(s.tx, s.rx, k);
    AddedFitNone(s.tx, s.rx, Waiter(thread, prio, tx), Waiter(thread, prio, Rx(0, tx.msg)));
  }

  lemma FetchMissesNone(s: State, rx: Rx, thread: nat, prio: int, noWait: bool)
    requires NoneMissed(s)
    ensures NoneMissed(Fetch(s, rx, thread, prio, noWait))
  {
    var k := FindTx(s.tx, rx.msg);
    FewerFit(s.tx, s.rx, k);
    AddedFitNone(s.tx, s.rx, Waiter(thread, prio, Tx(Real(0), rx.msg, 0)), Waiter(thread, prio, rx));
  }

  // ---- putting in and taking out

  /** `r` is `s` with the tokens `x` put in. */
  ghost predicate PutIn(s: State, r: State, x: multiset<Token>) {
    r.issued == s.issued + x && r.spent == s.spent && forall t :: InFlight(r, t) == InFlight(s, t) + x[t]
  }

  /** `r` is `s` with the tokens `x` taken out. */
  ghost predicate TakenOut(s: State, r: State, x: multiset<Token>) {
    r.issued == s.issued && r.spent == s.spent + x && forall t :: InFlight(s, t) == InFlight(r, t) + x[t]
  }

  lemma PutInBalanced(s: State, r: State, x: multiset<Token>)
    requires Balanced(s) && PutIn(s, r, x)
    ensures Balanced(r)
  {
    forall t ensures r.issued[t] == r.spent[t] + InFlight(r, t) {
      assert s.issued[t] == s.spent[t] + InFlight(s, t);
    }
  }

  lemma TakenOutBalanced(s: State, r: State, x: multiset<Token>)
    requires Balanced(s) && TakenOut(s, r, x)
    ensures Balanced(r)
  {
    forall t ensures r.issued[t] == r.spent[t] + InFlight(r, t) {
      assert s.issued[t] == s.spent[t] + InFlight(s, t);
    }
  }

  lemma PutInSingle(s: State, r: State, x: multiset<Token>)
    requires Single(s) && PutIn(s, r, x)
    requires forall t | t in x && (t.From? || t.Slot?) :: x[t] == 1 && InFlight(s, t) == 0
    ensures Single(r)
  {
    forall t ensures InFlight(r, From(t)) <= 1 { assert InFlight(s, From(t)) <= 1; }
    forall t ensures InFlight(r, Slot(t)) <= 1 { assert InFlight(s, Slot(t)) <= 1; }
  }

  lemma TakenOutSingle(s: State, r: State, x: multiset<Token>)
    requires Single(s) && TakenOut(s, r, x)
    ensures Single(r)
  {
    forall t ensures InFlight(r, From(t)) <= 1 { assert InFlight(s, From(t)) <= 1; }
    forall t ensures InFlight(r, Slot(t)) <= 1 { assert InFlight(s, Slot(t)) <= 1; }
  }

  lemma PutInConserved(n: nat, s: State, r: State, x: multiset<Token>)
    requires PutIn(s, r, x) && r.free == s.free && r.held == s.held
    requires forall d: nat :: Uses(s, d) + x[Desc(d)] == if d < n then 1 else 0
    ensures Conserved(n, r)
  {
    forall d: nat ensures Uses(r, d) == if d < n then 1 else 0 {
      assert InFlight(r, Desc(d)) == InFlight(s, Desc(d)) + x[Desc(d)];
      assert Uses(s, d) + x[Desc(d)] == if d < n then 1 else 0;
    }
  }

  /** Only the descriptor pool changed. */
  ghost predicate SameMail(s: State, r: State) {
    r.tx == s.tx && r.rx == s.rx && r.matched == s.matched && r.issued == s.issued && r.spent == s.spent
  }

  lemma SameMailKeeps(s: State, r: State)
    requires SameMail(s, r)
    ensures NoneMissed(s) ==> NoneMissed(r)
    ensures Balanced(s) ==> Balanced(r)
    ensures Single(s) ==> Single(r)
    ensures forall t :: InFlight(r, t) == InFlight(s, t)
  {
    forall t ensures InFlight(r, t) == InFlight(s, t) {}
    if Balanced(s) {
      forall t ensures r.issued[t] == r.spent[t] + InFlight(r, t) {
        assert s.issued[t] == s.spent[t] + InFlight(s, t);
      }
    }
    if Single(s) {
      forall t ensures InFlight(r, From(t)) <= 1 { assert InFlight(s, From(t)) <= 1; }
      forall t ensures InFlight(r, Slot(t)) <= 1 { assert InFlight(s, Slot(t)) <= 1; }
    }
  }

  lemma PostPutsIn(s: State, tx: Tx, thread: nat, prio: int, noWait: bool)
    requires Sends(s, tx, noWait)
    ensures PutIn(s, Post(s, tx, thread, prio, noWait), TxTokens(tx))
  {
    forall t ensures InFlight(Post(s, tx, thread, prio, noWait), t) == InFlight(s, t) + TxTokens(tx)[t] {
      PostTokens(s, tx, thread, prio, noWait, t);
    }
  }

  lemma FetchPutsIn(s: State, rx: Rx, thread: nat, prio: int, noWait: bool)
    requires Receives(s, rx, noWait)
    ensures PutIn(s, Fetch(s, rx, thread, prio, noWait), multiset{Slot(rx.slot)})
  {
    forall t ensures InFlight(Fetch(s, rx, thread, prio, noWait), t) == InFlight(s, t) + multiset{Slot(rx.slot)}[t] {
      FetchTokens(s, rx, thread, prio, noWait, t);
    }
  }

  lemma SenderTokens(tx: Tx)
    ensures forall t | t in TxTokens(tx) && (t.From? || t.Slot?) ::
      TxTokens(tx)[t] == 1 && tx.sender.Real? && t == From(tx.sender.thread)
    ensures forall d :: TxTokens(tx)[Desc(d)] == if tx.sender == Dummy(d) then 1 else 0
  {
  }

  // ---- every step keeps the invariant

  lemma PostKeepsInv(n: nat, s: State, tx: Tx, thread: nat, prio: int, noWait: bool)
    requires NoneMissed(s) && Balanced(s) && Single(s) && (s.poolWaiters != [] ==> s.free == [])
    requires Sends(s, tx, noWait)
    requires forall d: nat :: Uses(s, d) + TxTokens(tx)[Desc(d)] == if d < n then 1 else 0
    requires tx.sender.Real? ==> InFlight(s, From(tx.sender.thread)) == 0
    ensures Inv(n, Post(s, tx, thread, prio, noWait))
  {
    var r := Post(s, tx, thread, prio, noWait);
    PostMissesNone(s, tx, thread, prio, noWait);
    PostPutsIn(s, tx, thread, prio, noWait);
    PutInBalanced(s, r, TxTokens(tx));
    assert Single(r) by {
      SenderTokens(tx);
      PutInSingle(s, r, TxTokens(tx));
    }
    PutInConserved(n, s, r, TxTokens(tx));
  }

  lemma SlotConserved(n: nat, s: State, r: State, slot: nat)
    requires Conserved(n, s) && PutIn(s, r, multiset{Slot(slot)}) && r.free == s.free && r.held == s.held
    ensures Conserved(n, r)
  {
    var x := multiset{Slot(slot)};
    forall d: nat ensures Uses(s, d) + x[Desc(d)] == if d < n then 1 else 0 {
      assert Uses(s, d) == if d < n then 1 else 0;
    }
    PutInConserved(n, s, r, x);
  }

  lemma FetchKeepsInv(n: nat, s: State, rx: Rx, thread: nat, prio: int, noWait: bool)
    requires Inv(n, s) && Receives(s, rx, noWait) && InFlight(s, Slot(rx.slot)) == 0
    ensures Inv(n, Fetch(s, rx, thread, prio, noWait))
  {
    var r := Fetch(s, rx, thread, prio, noWait);
    FetchMissesNone(s, rx, thread, prio, noWait);
    FetchPutsIn(s, rx, thread, prio, noWait);
    PutInBalanced(s, r, multiset{Slot(rx.slot)});
    PutInSingle(s, r, multiset{Slot(rx.slot)});
    SlotConserved(n, s, r, rx.slot);
  }

  lemma HeldWithout(held: seq<Holding>, i: nat, d: nat)
    requires i < |held|
    ensures multiset(HeldDescs(held))[d]
         == multiset(HeldDescs(Without(held, i)))[d] + if held[i].desc == d then 1 else 0
  {
    var h := HeldDescs(held);
    assert h == h[..i] + [h[i]] + h[i + 1..];
    assert HeldDescs(Without(held, i)) == h[..i] + h[i + 1..];
  }

  lemma HeldAdd(held: seq<Holding>, x: Holding, d: nat)
    ensures multiset(HeldDescs(held + [x]))[d] == multiset(HeldDescs(held))[d] + if x.desc == d then 1 else 0
  {
    assert HeldDescs(held + [x]) == HeldDescs(held) + [x.desc];
  }

  lemma AsyncPostKeepsInv(n: nat, s: State, i: nat, msg: Msg, sem: nat, prio: int)
    requires Inv(n, s) && i < |s.held|
    ensures Inv(n, AsyncPost(s, i, msg, sem, prio))
  {
    var h := s.held[i];
    var u := s.(held := Without(s.held, i));
    var tx := Tx(Dummy(h.desc), msg.(source := Thread(h.thread)), sem);
    SameMailKeeps(s, u);
    SenderTokens(tx);
    forall d: nat ensures Uses(u, d) + TxTokens(tx)[Desc(d)] == if d < n then 1 else 0 {
      HeldWithout(s.held, i, d);
      assert Uses(s, d) == if d < n then 1 else 0;
    }
    PostKeepsInv(n, u, tx, h.thread, prio, false);
  }

  lemma PopCount(free: seq<nat>, d: nat)
    requires free != []
    ensures multiset(free)[d] == multiset(free[..|free| - 1])[d] + if free[|free| - 1] == d then 1 else 0
  {
    assert free == free[..|free| - 1] + [free[|free| - 1]];
  }

  lemma ClaimUses(s: State, thread: nat, prio: int, d: nat)
    ensures Uses(Claim(s, thread, prio), d) == Uses(s, d) && SameMail(s, Claim(s, thread, prio))
  {
    SameMailKeeps(s, Claim(s, thread, prio));
    if s.free != [] {
      HeldAdd(s.held, Holding(thread, s.free[|s.free| - 1]), d);
      PopCount(s.free, d);
    }
  }

  lemma ClaimKeepsInv(n: nat, s: State, thread: nat, prio: int)
    requires Inv(n, s)
    ensures Inv(n, Claim(s, thread, prio))
  {
    var r := Claim(s, thread, prio);
    forall d: nat ensures Uses(r, d) == if d < n then 1 else 0 {
      ClaimUses(s, thread, prio, d);
      assert Uses(s, d) == if d < n then 1 else 0;
    }
    SameMailKeeps(s, r);
  }

  /** A freed descriptor goes to the first thread that waits for one, or on the stack. */
  lemma ReleaseUses(s: State, d: nat, e: nat)
    ensures Uses(Release(s, d), e) == Uses(s, e) + if e == d then 1 else 0
    ensures SameMail(s, Release(s, d))
  {
    SameMailKeeps(s, Release(s, d));
    if s.poolWaiters != [] {
      HeldAdd(s.held, Holding(s.poolWaiters[0].thread, d), e);
    }
  }

  /** All but one descriptor accounted for: that one is out of the pool and not with a message. */
  ghost predicate InvBut(n: nat, s: State, missing: Sender) {
    && NoneMissed(s) && Balanced(s) && Single(s)
    && (forall e: nat :: Uses(s, e) + (if missing == Dummy(e) then 1 else 0) == if e < n then 1 else 0)
    && (s.poolWaiters != [] ==> s.free == [])
  }

  lemma ReleaseKeepsInv(n: nat, s: State, d: nat)
    requires InvBut(n, s, Dummy(d))
    ensures Inv(n, Release(s, d))
  {
    var r := Release(s, d);
    forall e: nat ensures Uses(r, e) == if e < n then 1 else 0 {
      ReleaseUses(s, d, e);
      assert Uses(s, e) + (if Dummy(d) == Dummy(e) then 1 else 0) == if e < n then 1 else 0;
    }
    ReleaseUses(s, d, d);
    SameMailKeeps(s, r);
  }

  lemma RemovedTakesOut(s: State, i: nat)
    requires i < |s.matched|
    ensures TakenOut(s, Removed(s, i), PairTokens(s.matched[i]))
  {
    forall t ensures InFlight(s, t) == InFlight(Removed(s, i), t) + PairTokens(s.matched[i])[t] {
      MatchedWithout(s.matched, i, t);
    }
  }

  lemma PairDescs(p: Pair, e: nat)
    ensures PairTokens(p)[Desc(e)] == if p.tx.sender == Dummy(e) then 1 else 0
  {
  }

  lemma RemovedKeeps(n: nat, s: State, i: nat)
    requires Inv(n, s) && i < |s.matched|
    ensures InvBut(n, Removed(s, i), s.matched[i].tx.sender)
  {
    var u, p := Removed(s, i), s.matched[i];
    RemovedTakesOut(s, i);
    TakenOutBalanced(s, u, PairTokens(p));
    TakenOutSingle(s, u, PairTokens(p));
    forall e: nat ensures Uses(u, e) + (if p.tx.sender == Dummy(e) then 1 else 0) == if e < n then 1 else 0 {
      assert InFlight(s, Desc(e)) == InFlight(u, Desc(e)) + PairTokens(p)[Desc(e)];
      PairDescs(p, e);
      assert Uses(s, e) == if e < n then 1 else 0;
    }
  }

  lemma DisposeKeepsInv(n: nat, s: State, slot: nat)
    requires Inv(n, s)
    ensures Inv(n, Dispose(s, slot))
  {
    var i := FindSlot(s.matched, slot);
    if i < |s.matched| {
      RemovedKeeps(n, s, i);
      var sender := s.matched[i].tx.sender;
      if sender.Dummy? {
        ReleaseKeepsInv(n, Removed(s, i), sender.desc);
      } else {
        forall e: nat ensures Uses(Removed(s, i), e) == if e < n then 1 else 0 {
          assert Uses(Removed(s, i), e) + (if sender == Dummy(e) then 1 else 0) == if e < n then 1 else 0;
        }
      }
    }
  }

  lemma TakenOutConserved(n: nat, s: State, r: State, x: multiset<Token>)
    requires Conserved(n, s) && TakenOut(s, r, x) && r.free == s.free && r.held == s.held
    requires forall d :: x[Desc(d)] == 0
    ensures Conserved(n, r)
  {
    forall d: nat ensures Uses(r, d) == if d < n then 1 else 0 {
      assert InFlight(s, Desc(d)) == InFlight(r, Desc(d)) + x[Desc(d)];
      assert Uses(s, d) == if d < n then 1 else 0;
    }
  }

  lemma BlockTokens(p: Pair, t: Token)
    ensures PairTokens(p)[t]
         == PairTokens(WithoutBlock(p))[t] + NonNull(p.rx.msg.block, Block(p.rx.msg.block))[t]
  {
  }

  lemma EmptiedTakesOut(s: State, i: nat)
    requires i < |s.matched|
    ensures TakenOut(s, Emptied(s, i), NonNull(s.matched[i].rx.msg.block, Block(s.matched[i].rx.msg.block)))
  {
    var m, p := s.matched, s.matched[i];
    forall t ensures InFlight(s, t) == InFlight(Emptied(s, i), t) + NonNull(p.rx.msg.block, Block(p.rx.msg.block))[t] {
      MatchedWithout(m, i, t);
      MatchedWithout(m[i := WithoutBlock(p)], i, t);
      assert Without(m[i := WithoutBlock(p)], i) == Without(m, i);
      BlockTokens(p, t);
    }
  }

  lemma EmptiedKeepsInv(n: nat, s: State, i: nat)
    requires Inv(n, s) && i < |s.matched|
    ensures Inv(n, Emptied(s, i))
  {
    var u := Emptied(s, i);
    var x := NonNull(s.matched[i].rx.msg.block, Block(s.matched[i].rx.msg.block));
    EmptiedTakesOut(s, i);
    TakenOutBalanced(s, u, x);
    TakenOutSingle(s, u, x);
    TakenOutConserved(n, s, u, x);
  }

  lemma TakeBlockKeepsInv(n: nat, s: State, slot: nat)
    requires Inv(n, s)
    ensures Inv(n, TakeBlock(s, slot))
  {
    var i := FindSlot(s.matched, slot);
    if i < |s.matched| && s.matched[i].rx.msg.block != 0 {
      EmptiedKeepsInv(n, s, i);
      DisposeKeepsInv(n, Emptied(s, i), slot);
    }
  }

  lemma ResizedTakesNone(s: State, i: nat)
    requires i < |s.matched|
    ensures TakenOut(s, Resized(s, i), multiset{})
  {
    var m, p := s.matched, s.matched[i];
    forall t ensures InFlight(s, t) == InFlight(Resized(s, i), t) {
      MatchedWithout(m, i, t);
      MatchedWithout(m[i := NoSize(p)], i, t);
      assert Without(m[i := NoSize(p)], i) == Without(m, i);
      assert PairTokens(NoSize(p)) == PairTokens(p);
    }
  }

  lemma ResizedKeepsInv(n: nat, s: State, i: nat)
    requires Inv(n, s) && i < |s.matched|
    ensures Inv(n, Resized(s, i))
  {
    var u := Resized(s, i);
    ResizedTakesNone(s, i);
    TakenOutBalanced(s, u, multiset{});
    TakenOutSingle(s, u, multiset{});
    TakenOutConserved(n, s, u, multiset{});
  }

  lemma DiscardKeepsInv(n: nat, s: State, slot: nat)
    requires Inv(n, s)
    ensures Inv(n, Discard(s, slot))
  {
    var i := FindSlot(s.matched, slot);
    if i < |s.matched| {
      ResizedKeepsInv(n, s, i);
      DisposeKeepsInv(n, Resized(s, i), slot);
    }
  }

  lemma SendTakesOut(s: State, i: nat)
    requires i < |s.tx|
    ensures TakenOut(s, SendTimedOut(s, i), TxTokens(s.tx[i].data))
  {
    forall t ensures InFlight(s, t) == InFlight(SendTimedOut(s, i), t) + TxTokens(s.tx[i].data)[t] {
      QueuedWithout(s.tx, i, t);
    }
  }

  lemma SendTimedOutKeepsInv(n: nat, s: State, i: nat)
    requires Inv(n, s) && i < |s.tx| && s.tx[i].data.sender.Real?
    ensures Inv(n, SendTimedOut(s, i))
  {
    var r, x := SendTimedOut(s, i), TxTokens(s.tx[i].data);
    SendTakesOut(s, i);
    FewerFit(s.tx, s.rx, i);
    TakenOutBalanced(s, r, x);
    TakenOutSingle(s, r, x);
    SenderTokens(s.tx[i].data);
    TakenOutConserved(n, s, r, x);
  }

  lemma ReceiveTakesOut(s: State, i: nat)
    requires i < |s.rx|
    ensures TakenOut(s, ReceiveTimedOut(s, i), multiset{Slot(s.rx[i].data.slot)})
  {
    forall t ensures InFlight(s, t) == InFlight(ReceiveTimedOut(s, i), t) + multiset{Slot(s.rx[i].data.slot)}[t] {
      WaitingWithout(s.rx, i, t);
    }
  }

  lemma ReceiveTimedOutKeepsInv(n: nat, s: State, i: nat)
    requires Inv(n, s) && i < |s.rx|
    ensures Inv(n, ReceiveTimedOut(s, i))
  {
    var r, x := ReceiveTimedOut(s, i), multiset{Slot(s.rx[i].data.slot)};
    ReceiveTakesOut(s, i);
    FewerFit(s.tx, s.rx, i);
    TakenOutBalanced(s, r, x);
    TakenOutSingle(s, r, x);
    TakenOutConserved(n, s, r, x);
  }

  lemma NextKeepsInv(n: nat, s: State, a: Action)
    requires Inv(n, s) && Enabled(s, a)
    ensures Inv(n, Next(s, a))
  {
    match a
    case SyncPut(t, prio, msg, noWait) =>
      var tx := Tx(Real(t), msg.(source := Thread(t)), 0);
      if Sends(s, tx, noWait) {
        SenderTokens(tx);
        PostKeepsInv(n, s, tx, t, prio, noWait);
      }
    case Alloc(t, prio) => ClaimKeepsInv(n, s, t, prio);
    case AsyncPut(i, msg, sem, prio) => AsyncPostKeepsInv(n, s, i, msg, sem, prio);
    case Get(t, rx, prio, noWait) =>
      var rx' := rx.(msg := rx.msg.(target := Thread(t)));
      if Receives(s, rx', noWait) { FetchKeepsInv(n, s, rx', t, prio, noWait); }
    case Finish(slot) => DisposeKeepsInv(n, s, slot);
    case Drop(slot) => DiscardKeepsInv(n, s, slot);
    case KeepBlock(slot) => TakeBlockKeepsInv(n, s, slot);
    case PutTimeout(i) => SendTimedOutKeepsInv(n, s, i);
    case GetTimeout(i) => ReceiveTimedOutKeepsInv(n, s, i);
  }

  // ---- runs

  lemma {:induction false} RangeCount(n: nat, e: nat)
    ensures multiset(Range(n))[e] == if e < n then 1 else 0
  {
    if n > 0 {
      RangeCount(n - 1, e);
      assert Range(n) == Range(n - 1) + [n - 1];
    }
  }

  lemma StartInv(n: nat)
    ensures Inv(n, Start(n))
  {
    forall d: nat ensures Uses(Start(n), d) == if d < n then 1 else 0 {
      RangeCount(n, d);
      assert HeldDescs([]) == [];
    }
  }

  datatype Outcome = Stuck | At(state: State)

  function Run(n: nat, actions: seq<Action>): (r: Outcome)
    decreases |actions|
  {
    if actions == [] then At(Start(n))
    else
      var k := |actions| - 1;
      match Run(n, actions[..k])
      case Stuck => Stuck
      case At(s) => if Enabled(s, actions[k]) then At(Next(s, actions[k])) else Stuck
  }

  /** In every run: no waiting message fits a waiting receiver; what went in has come out or is on its
      way; every asynchronous descriptor is on the free stack, with a sender, queued or matched, and
      in one of these only; and nobody waits for a descriptor while one is free. */
  lemma {:induction false} EveryRunKeepsInv(n: nat, actions: seq<Action>)
    requires Run(n, actions).At?
    ensures Inv(n, Run(n, actions).state)
    decreases |actions|
  {
    if actions == [] {
      StartInv(n);
    } else {
      var k := |actions| - 1;
      EveryRunKeepsInv(n, actions[..k]);
      NextKeepsInv(n, Run(n, actions[..k]).state, actions[k]);
    }
  }

  // ---- consequences

  /** The free stack never holds more than there are descriptors, so a push always has room. */
  lemma StackFits(n: nat, s: State, missing: Sender)
    requires InvBut(n, s, missing) && (missing.Dummy? ==> missing.desc < n)
    ensures |s.free| + (if missing.Dummy? then 1 else 0) <= n
  {
    var all := s.free + if missing.Dummy? then [missing.desc] else [];
    forall e: nat ensures multiset(all)[e] <= multiset(Range(n))[e] {
      RangeCount(n, e);
      assert Uses(s, e) + (if missing == Dummy(e) then 1 else 0) == if e < n then 1 else 0;
    }
    var rest := multiset(Range(n)) - multiset(all);
    assert multiset(Range(n)) == multiset(all) + rest;
    assert |multiset(Range(n))| == |multiset(all)| + |rest|;
  }

  /** A descriptor freed while nobody waits is the next one claimed, and nothing else changes. */
  lemma ReleaseThenClaim(s: State, d: nat, thread: nat, prio: int)
    requires s.poolWaiters == []
    ensures Claim(Release(s, d), thread, prio) == s.(held := s.held + [Holding(thread, d)])
  {
    assert (s.free + [d])[..|s.free|] == s.free;
  }

  lemma {:induction false} SlotSeen(m: seq<Pair>, j: nat, t: Token)
    requires j < |m| && t == Slot(m[j].rx.slot)
    ensures Matched(m, t) >= 1
  {
    if j == 0 {
      PairSlot(m[0]);
    } else {
      SlotSeen(m[1..], j - 1, t);
    }
  }

  lemma PairSlot(p: Pair)
    ensures PairTokens(p)[Slot(p.rx.slot)] == 1
  {
  }

  /** A receive descriptor in use once belongs to one matched message. */
  lemma {:induction false} SlotOnce(m: seq<Pair>, i: nat, j: nat)
    requires i < |m| && j < |m| && j != i && Matched(m, Slot(m[i].rx.slot)) <= 1
    ensures m[j].rx.slot != m[i].rx.slot
  {
    var t := Slot(m[i].rx.slot);
    MatchedWithout(m, i, t);
    PairSlot(m[i]);
    var k := if j < i then j else j - 1;
    assert Without(m, i)[k] == m[j];
    if m[j].rx.slot == m[i].rx.slot { SlotSeen(Without(m, i), k, t); }
  }

  lemma MatchedOnce(n: nat, s: State, slot: nat)
    requires Inv(n, s)
    ensures Matched(s.matched, Slot(slot)) <= 1
  {
    assert InFlight(s, Slot(slot)) <= 1;
  }

  lemma {:induction false} FindSlotIs(m: seq<Pair>, slot: nat, i: nat)
    requires i <= |m| && (i < |m| ==> m[i].rx.slot == slot) && forall j | 0 <= j < i :: m[j].rx.slot != slot
    ensures FindSlot(m, slot) == i
  {
  }

  lemma WithoutAt<T>(s: seq<T>, i: nat, j: nat)
    requires i < |s| && j < |s| && j != i
    ensures Without(s, i)[if j < i then j else j - 1] == s[j]
  {
  }

  lemma {:induction false} SlotGone(m: seq<Pair>, i: nat)
    requires i < |m| && Matched(m, Slot(m[i].rx.slot)) <= 1
    ensures FindSlot(Without(m, i), m[i].rx.slot) == |m| - 1
  {
    var slot, f := m[i].rx.slot, FindSlot(Without(m, i), m[i].rx.slot);
    if f < |m| - 1 {
      var k := if f < i then f else f + 1;
      assert m[k] == Without(m, i)[f] by { WithoutAt(m, i, k); }
      SlotOnce(m, i, k);
    }
  }

  lemma DisposedMatched(s: State, slot: nat)
    ensures var i := FindSlot(s.matched, slot);
      Dispose(s, slot).matched == if i < |s.matched| then Without(s.matched, i) else s.matched
  {
  }

  lemma {:induction false} DisposedIsGone(n: nat, s: State, slot: nat)
    requires Inv(n, s)
    ensures FindSlot(Dispose(s, slot).matched, slot) == |Dispose(s, slot).matched|
  {
    var i := FindSlot(s.matched, slot);
    DisposedMatched(s, slot);
    if i < |s.matched| {
      MatchedOnce(n, s, slot);
      SlotGone(s.matched, i);
    }
  }

  /** Disposing a second time does nothing. */
  lemma DisposeTwice(n: nat, s: State, slot: nat)
    requires Inv(n, s)
    ensures Dispose(Dispose(s, slot), slot) == Dispose(s, slot)
  {
    DisposedIsGone(n, s, slot);
  }

  lemma FoundByItsSlot(n: nat, s: State, i: nat)
    requires Inv(n, s) && i < |s.matched|
    ensures FindSlot(s.matched, s.matched[i].rx.slot) == i
  {
    var slot := s.matched[i].rx.slot;
    MatchedOnce(n, s, slot);
    forall j | 0 <= j < i ensures s.matched[j].rx.slot != slot {
      SlotOnce(s.matched, i, j);
    }
    FindSlotIs(s.matched, slot, i);
  }

  lemma PairSem(p: Pair)
    requires p.tx.sender.Dummy? && p.tx.sem != 0
    ensures PairTokens(p)[Sem(p.tx.sem)] == 1 && PairTokens(p)[Desc(p.tx.sender.desc)] == 1
  {
  }

  /** Disposing of an asynchronous message gives its semaphore once and frees its descriptor once. */
  lemma DisposeGivesOnce(n: nat, s: State, i: nat)
    requires Inv(n, s) && i < |s.matched| && s.matched[i].tx.sender.Dummy? && s.matched[i].tx.sem != 0
    ensures var p := s.matched[i];
      var r := Dispose(s, p.rx.slot);
      && r.spent[Sem(p.tx.sem)] == s.spent[Sem(p.tx.sem)] + 1
      && r.spent[Desc(p.tx.sender.desc)] == s.spent[Desc(p.tx.sender.desc)] + 1
  {
    FoundByItsSlot(n, s, i);
    PairSem(s.matched[i]);
  }

  lemma DisposedSizes(s: State, i: nat)
    requires i < |s.matched| && FindSlot(s.matched, s.matched[i].rx.slot) == i
    ensures Dispose(s, s.matched[i].rx.slot).sizes == s.sizes[s.matched[i].tx.sender := s.matched[i].rx.msg.size]
  {
  }

  lemma DiscardedSizes(s: State, i: nat)
    requires i < |s.matched| && FindSlot(s.matched, s.matched[i].rx.slot) == i
    ensures Discard(s, s.matched[i].rx.slot).sizes == s.sizes[s.matched[i].tx.sender := 0]
  {
    FindSlotIs(Resized(s, i).matched, s.matched[i].rx.slot, i);
    DisposedSizes(Resized(s, i), i);
  }

  lemma TakenSizes(s: State, i: nat)
    requires i < |s.matched| && FindSlot(s.matched, s.matched[i].rx.slot) == i
    ensures s.matched[i].rx.msg.block != 0 ==>
      TakeBlock(s, s.matched[i].rx.slot).sizes == s.sizes[s.matched[i].tx.sender := s.matched[i].rx.msg.size]
  {
    FindSlotIs(Emptied(s, i).matched, s.matched[i].rx.slot, i);
    DisposedSizes(Emptied(s, i), i);
  }

  /** However a message ends, its sender finds the received size, and 0 if the data was dropped. */
  lemma SenderIsToldSize(n: nat, s: State, i: nat)
    requires Inv(n, s) && i < |s.matched|
    ensures var p := s.matched[i];
      && Dispose(s, p.rx.slot).sizes == s.sizes[p.tx.sender := p.rx.msg.size]
      && Discard(s, p.rx.slot).sizes == s.sizes[p.tx.sender := 0]
      && (p.rx.msg.block != 0 ==> TakeBlock(s, p.rx.slot).sizes == s.sizes[p.tx.sender := p.rx.msg.size])
  {
    FoundByItsSlot(n, s, i);
    DisposedSizes(s, i);
    DiscardedSizes(s, i);
    TakenSizes(s, i);
  }

  /** The stack has room for the descriptor of a message that is being disposed of. */
  lemma RoomForDesc(n: nat, s: State, i: nat)
    requires Inv(n, s) && i < |s.matched| && s.matched[i].tx.sender.Dummy?
    ensures |s.free| < n
  {
    var sender := s.matched[i].tx.sender;
    RemovedKeeps(n, s, i);
    DescInRange(n, Removed(s, i), sender.desc);
    StackFits(n, Removed(s, i), sender);
  }

  lemma DescInRange(n: nat, s: State, d: nat)
    requires InvBut(n, s, Dummy(d))
    ensures d < n
  {
    assert Uses(s, d) + (if Dummy(d) == Dummy(d) then 1 else 0) == if d < n then 1 else 0;
  }
}
