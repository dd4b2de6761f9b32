/** Any number of threads allocating from and freeing to one pool, interleaved at the boundaries of
    the sections that run with interrupts locked. */
module MemPoolRuns {
  import opened MemPoolTiles
  import opened MemPoolStore
  import opened MemPoolComplete
  import opened MemPoolBits
  import opened Bits
  import opened Common

  /** What a thread inside a pool operation holds: a block it is splitting down to `target`, or a
      block it is still putting back. */
  datatype Task = Allocating(block: Block, target: nat) | Freeing(block: Block)

  datatype State = State(store: Store, bits: seq<seq<Word>>, handedOut: set<Block>, tasks: map<nat, Task>)

  datatype Action =
    | TakeBlock(thread: nat, level: nat, target: nat)
    | SplitBlock(thread: nat)
    | Deliver(thread: nat)
    | BeginFree(thread: nat, block: Block)
    | ReleaseBlock(thread: nat)

  predicate Enabled(g: Shape, s: State, a: Action) {
    |s.store.free| == g.nLevels &&
    match a
    case TakeBlock(t, level, target) =>
      && t !in s.tasks && level <= target < g.nLevels
      && (s.store.free[level] != [] ==> HasBit(s.bits, Block(level, s.store.free[level][0])))
    case SplitBlock(t) =>
      && t in s.tasks && s.tasks[t].Allocating? && s.tasks[t].block.level < s.tasks[t].target < g.nLevels
      && HasBit(s.bits, Child(s.tasks[t].block, 3))
    case Deliver(t) => t in s.tasks && s.tasks[t].Allocating? && s.tasks[t].block.level == s.tasks[t].target
    case BeginFree(t, b) => t !in s.tasks && b in s.handedOut
    case ReleaseBlock(t) =>
      && t in s.tasks && s.tasks[t].Freeing? && s.tasks[t].block.level < g.nLevels
      && HasBit(s.bits, s.tasks[t].block)
  }

  function Start(g: Shape): (s: State)
    requires g.nLevels > 0 && 0 < g.nMax <= 32
  {
    State(Initial(g), InitialBits(g), {}, map[])
  }

  function Next(g: Shape, s: State, a: Action): (r: State)
    requires Enabled(g, s, a)
  {
    match a
    case TakeBlock(t, level, target) =>
      // A list that a competing allocator emptied gives -EAGAIN and no change.
      if s.store.free[level] == [] then s
      else s.(store := Take(s.store, level), bits := TakenBits(s.bits, Block(level, s.store.free[level][0])),
              tasks := s.tasks[t := Allocating(Block(level, s.store.free[level][0]), target)])
    case SplitBlock(t) =>
      var b := s.tasks[t].block;
      s.(store := Break(s.store, b), bits := SplitBits(s.bits, b),
         tasks := s.tasks[t := Allocating(Child(b, 0), s.tasks[t].target)])
    case Deliver(t) =>
      s.(handedOut := s.handedOut + {s.tasks[t].block}, tasks := s.tasks - {t})
    case BeginFree(t, b) =>
      s.(handedOut := s.handedOut - {b}, tasks := s.tasks[t := Freeing(b)])
    case ReleaseBlock(t) =>
      var b := s.tasks[t].block;
      // Whether to merge is decided on the bits.
      var merges := Merges(s.bits[b.level], b);
      s.(store := if merges then Merged(s.store, b) else Listed(s.store, b),
         bits := ReleasedBits(s.bits, b),
         tasks := if merges then s.tasks[t := Freeing(Parent(b))] else s.tasks - {t})
  }

  function InFlight(tasks: map<nat, Task>): (r: set<Block>)
    ensures forall b :: b in r <==> exists t :: t in tasks && tasks[t].block == b
  {
    set t | t in tasks :: tasks[t].block
  }

  ghost predicate Distinct(tasks: map<nat, Task>) {
    forall t, u | t in tasks && u in tasks && t != u :: tasks[t].block != tasks[u].block
  }

  /** The store invariant, bits in step with the lists, and every held block in exactly one pair of hands. */
  ghost predicate StateInv(g: Shape, s: State) {
    && Inv(g, s.store)
    && InStep(g, s.bits, s.store.free)
    && InHands(g, s.store.used, s.handedOut, s.tasks)
  }

  ghost predicate InHands(g: Shape, used: set<Block>, handedOut: set<Block>, tasks: map<nat, Task>) {
    && used == handedOut + InFlight(tasks)
    && handedOut !! InFlight(tasks)
    && Distinct(tasks)
    && (forall t | t in tasks && tasks[t].Allocating? :: tasks[t].block.level <= tasks[t].target < g.nLevels)
  }

  lemma StartInv(g: Shape)
    requires Usable(g)
    ensures StateInv(g, Start(g))
  {
    InitialInv(g);
    InitialMatches(g);
  }

  lemma NextInv(g: Shape, s: State, a: Action)
    requires StateInv(g, s) && Enabled(g, s, a)
    ensures StateInv(g, Next(g, s, a))
  {
    match a
    case TakeBlock(_, _, _) => TakeBlockInv(g, s, a);
    case SplitBlock(_) => SplitBlockInv(g, s, a);
    case Deliver(t) => DropTask(s.tasks, t);
    case BeginFree(t, b) => AddTask(s.tasks, t, Freeing(b));
    case ReleaseBlock(_) => ReleaseBlockInv(g, s, a);
  }

  lemma TakeBlockInv(g: Shape, s: State, a: Action)
    requires StateInv(g, s) && a.TakeBlock? && Enabled(g, s, a)
    ensures StateInv(g, Next(g, s, a))
  {
    if s.store.free[a.level] != [] {
      TakeInv(g, s.store, a.level);
      var b := Block(a.level, s.store.free[a.level][0]);
      assert b in FreeBlocks(s.store.free) && b in Leaves(s.store) && InShape(g, b);
      TakeKeepsBits(g, s.store, s.bits, a.level);
      TakenInHand(g, s.store.used, s.handedOut, s.tasks, a.thread, Allocating(b, a.target));
    }
  }

  lemma TakenInHand(g: Shape, used: set<Block>, handedOut: set<Block>, tasks: map<nat, Task>, t: nat, task: Task)
    requires InHands(g, used, handedOut, tasks) && t !in tasks && task.block !in used
    requires task.Allocating? ==> task.block.level <= task.target < g.nLevels
    ensures InHands(g, used + {task.block}, handedOut, tasks[t := task])
  {
    AddTask(tasks, t, task);
  }

  /** A thread goes on with another block, which nobody holds. */
  lemma ExchangedInHand(g: Shape, used: set<Block>, handedOut: set<Block>, tasks: map<nat, Task>, t: nat, task: Task)
    requires InHands(g, used, handedOut, tasks) && t in tasks && task.block !in used
    requires task.Allocating? ==> task.block.level <= task.target < g.nLevels
    ensures InHands(g, used - {tasks[t].block} + {task.block}, handedOut, tasks[t := task])
  {
    assert tasks[t].block in InFlight(tasks);
    ReplaceTask(tasks, t, task);
  }

  lemma DroppedFromHand(g: Shape, used: set<Block>, handedOut: set<Block>, tasks: map<nat, Task>, t: nat)
    requires InHands(g, used, handedOut, tasks) && t in tasks
    ensures InHands(g, used - {tasks[t].block}, handedOut, tasks - {t})
  {
    assert tasks[t].block in InFlight(tasks);
    DropTask(tasks, t);
  }

  /** What a thread in an operation holds. */
  lemma TaskBlock(g: Shape, s: State, t: nat)
    requires StateInv(g, s) && t in s.tasks
    ensures var b := s.tasks[t].block; b in s.store.used && InShape(g, b) && b !in FreeBlocks(s.store.free)
  {
    var b := s.tasks[t].block;
    assert b in InFlight(s.tasks);
    assert b in Leaves(s.store);
  }

  lemma SplitBlockInv(g: Shape, s: State, a: Action)
    requires StateInv(g, s) && a.SplitBlock? && Enabled(g, s, a)
    ensures StateInv(g, Next(g, s, a))
  {
    var b := s.tasks[a.thread].block;
    TaskBlock(g, s, a.thread);
    BreakInv(g, s.store, b);
    SplitKeepsBits(g, s.store, s.bits, b);
    ChildNotHeld(g, s.store, b);
    ExchangedInHand(g, s.store.used, s.handedOut, s.tasks, a.thread, Allocating(Child(b, 0), s.tasks[a.thread].target));
  }

  lemma ChildNotHeld(g: Shape, s: Store, b: Block)
    requires Inv(g, s) && b in s.used && b.level + 1 < g.nLevels
    ensures Child(b, 0) !in s.used
  {
    assert b in Leaves(s);
    ChildNotLeaf(g, s, b, 0);
  }

  lemma ReleaseBlockInv(g: Shape, s: State, a: Action)
    requires StateInv(g, s) && a.ReleaseBlock? && Enabled(g, s, a)
    ensures StateInv(g, Next(g, s, a))
  {
    var b := s.tasks[a.thread].block;
    TaskBlock(g, s, a.thread);
    ReleaseInv(g, s.store, b);
    ReleaseKeepsBits(g, s.store, s.bits, b);
    if Completes(s.store, b) {
      ParentNotHeld(g, s.store, b);
      ExchangedInHand(g, s.store.used, s.handedOut, s.tasks, a.thread, Freeing(Parent(b)));
    } else {
      DroppedFromHand(g, s.store.used, s.handedOut, s.tasks, a.thread);
    }
  }

  lemma ParentNotHeld(g: Shape, s: Store, b: Block)
    requires Inv(g, s) && b in s.used && b.level > 0
    ensures Parent(b) !in s.used
  {
    if Parent(b) in s.used {
      assert b == Child(Parent(b), b.num % 4) && b in Leaves(s);
      ChildNotLeaf(g, s, Parent(b), b.num % 4);
    }
  }

  lemma AddTask(tasks: map<nat, Task>, t: nat, task: Task)
    requires t !in tasks && Distinct(tasks) && task.block !in InFlight(tasks)
    ensures InFlight(tasks[t := task]) == InFlight(tasks) + {task.block} && Distinct(tasks[t := task])
  {
    var r := tasks[t := task];
    assert r[t].block == task.block;
    forall b | b in InFlight(tasks) ensures b in InFlight(r) {
      var u :| u in tasks && tasks[u].block == b;
      assert r[u].block == b;
    }
  }

  lemma DropTask(tasks: map<nat, Task>, t: nat)
    requires t in tasks && Distinct(tasks)
    ensures InFlight(tasks - {t}) == InFlight(tasks) - {tasks[t].block} && Distinct(tasks - {t})
  {
    var r := tasks - {t};
    forall b | b in InFlight(tasks) && b != tasks[t].block ensures b in InFlight(r) {
      var u :| u in tasks && tasks[u].block == b;
      assert r[u].block == b;
    }
  }

  lemma ReplaceTask(tasks: map<nat, Task>, t: nat, task: Task)
    requires t in tasks && Distinct(tasks) && task.block !in InFlight(tasks)
    ensures InFlight(tasks[t := task]) == InFlight(tasks) - {tasks[t].block} + {task.block}
    ensures Distinct(tasks[t := task])
  {
    DropTask(tasks, t);
    AddTask(tasks - {t}, t, task);
    assert tasks[t := task] == (tasks - {t})[t := task];
  }

  // ---- runs

  /** `s` is reached from the freshly initialised pool by the actions in `trace`, oldest first. */
  ghost predicate Reaches(g: Shape, trace: seq<Action>, s: State)
    requires Usable(g)
  {
    if trace == [] then s == Start(g)
    else
      var last := |trace| - 1;
      exists p :: Reaches(g, trace[..last], p) && Enabled(g, p, trace[last]) && s == Next(g, p, trace[last])
  }

  /** The pool invariant holds after every interleaving. */
  lemma {:induction false} EveryRunKeepsInv(g: Shape, trace: seq<Action>, s: State)
    requires Usable(g) && Reaches(g, trace, s)
    ensures StateInv(g, s)
  {
    if trace == [] {
      StartInv(g);
    } else {
      var last := |trace| - 1;
      var p :| Reaches(g, trace[..last], p) && Enabled(g, p, trace[last]) && s == Next(g, p, trace[last]);
      EveryRunKeepsInv(g, trace[..last], p);
      NextInv(g, p, trace[last]);
    }
  }

  /** After any interleaving a free bit is set exactly when its block is on the list of its level. */
  lemma {:induction false} RunKeepsBitsInStep(g: Shape, trace: seq<Action>, s: State, b: Block)
    requires Usable(g) && Reaches(g, trace, s) && InShape(g, b)
    ensures HasBit(s.bits, b) && (Test(s.bits[b.level], b.num) <==> IsFree(s.store, b))
  {
    EveryRunKeepsInv(g, trace, s);
    assert LevelMatches(g, b.level, s.bits[b.level], s.store.free[b.level]);
  }

  /** Partition: after any interleaving, the blocks on the free lists, handed out, and in transit
      tile the buffer; each is in one place only, and two threads never hold overlapping blocks. */
  lemma {:induction false} RunPartitionsBuffer(g: Shape, trace: seq<Action>, s: State)
    requires Usable(g) && Reaches(g, trace, s)
    ensures Tiles(g, FreeBlocks(s.store.free) + s.handedOut + InFlight(s.tasks))
    ensures FreeBlocks(s.store.free) !! s.handedOut !! InFlight(s.tasks)
    ensures forall l | 0 <= l < |s.store.free| :: NoDuplicates(s.store.free[l])
    ensures forall t, u | t in s.tasks && u in s.tasks && t != u ::
      !Overlap(g, s.tasks[t].block, s.tasks[u].block)
  {
    EveryRunKeepsInv(g, trace, s);
    assert Leaves(s.store) == FreeBlocks(s.store.free) + s.handedOut + InFlight(s.tasks);
    forall t, u | t in s.tasks && u in s.tasks && t != u
      ensures !Overlap(g, s.tasks[t].block, s.tasks[u].block)
    {
      assert s.tasks[t].block in InFlight(s.tasks) && s.tasks[u].block in InFlight(s.tasks);
    }
  }

  /** Coalescing: when everything handed out has been freed and no operation is under way, the pool
      is whole again, whatever the run was. */
  lemma {:induction false} RunReturnsToWhole(g: Shape, trace: seq<Action>, s: State)
    requires Usable(g) && Reaches(g, trace, s) && s.handedOut == {} && s.tasks == map[]
    ensures forall n: nat :: n in s.store.free[0] <==> n < g.nMax
    ensures forall l | 0 < l < g.nLevels :: s.store.free[l] == []
  {
    EveryRunKeepsInv(g, trace, s);
    assert s.store.used == {};
    NothingHeldMeansWhole(g, s.store);
  }

  /** An operation under way can always take its next step, and a thread that is not in one can always
      start one. */
  lemma {:induction false} RunNeverStuck(g: Shape, trace: seq<Action>, s: State, t: nat)
    requires Usable(g) && Reaches(g, trace, s)
    ensures t in s.tasks ==> Enabled(g, s, SplitBlock(t)) || Enabled(g, s, Deliver(t)) || Enabled(g, s, ReleaseBlock(t))
    ensures t !in s.tasks ==>
      && (forall level: nat, target: nat | level <= target < g.nLevels :: Enabled(g, s, TakeBlock(t, level, target)))
      && (forall b | b in s.handedOut :: Enabled(g, s, BeginFree(t, b)))
  {
    EveryRunKeepsInv(g, trace, s);
    if t in s.tasks {
      TaskCanGoOn(g, s, t);
    } else {
      forall level: nat, target: nat | level <= target < g.nLevels ensures Enabled(g, s, TakeBlock(t, level, target)) {
        if s.store.free[level] != [] {
          var b := Block(level, s.store.free[level][0]);
          assert b in FreeBlocks(s.store.free) && b in Leaves(s.store) && InShape(g, b);
          assert LevelMatches(g, level, s.bits[level], s.store.free[level]);
        }
      }
    }
  }

  lemma TaskCanGoOn(g: Shape, s: State, t: nat)
    requires StateInv(g, s) && t in s.tasks
    ensures Enabled(g, s, SplitBlock(t)) || Enabled(g, s, Deliver(t)) || Enabled(g, s, ReleaseBlock(t))
  {
    var b := s.tasks[t].block;
    TaskBlock(g, s, t);
    if s.tasks[t].Freeing? {
      assert LevelMatches(g, b.level, s.bits[b.level], s.store.free[b.level]);
    } else if b.level < s.tasks[t].target {
      SplitKeepsBits(g, s.store, s.bits, b);
    }
  }
}
