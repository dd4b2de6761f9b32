/** A memory slab: its free blocks are chained through their own first words. */
module MemSlabSpec {
  import opened WaitQueue
  import opened Common

  /** `mem` gives the first word of a block, `head` is `free_list`, and 0 is the null pointer. `held`
      are the blocks that threads have. */
  datatype Slab = Slab(mem: map<nat, nat>, head: nat, used: nat, waiters: seq<Waiter<()>>, held: set<nat>)

  /** The pointer at the start of a list of blocks. */
  function First(free: seq<nat>): (p: nat) {
    if free == [] then 0 else free[0]
  }

  /** Following the words of memory from `head` visits `free` and ends at null. */
  ghost predicate Chain(mem: map<nat, nat>, head: nat, free: seq<nat>)
    decreases |free|
  {
    && head == First(free)
    && (free != [] ==> free[0] in mem && Chain(mem, mem[free[0]], free[1..]))
  }

  function Members(s: seq<nat>): (r: set<nat>)
    ensures forall x :: x in r <==> x in s
  {
    set x | x in s
  }

  /** The free list is a chain without repetition of the blocks nobody holds; it and the use count
      agree; and a thread waits only when no block is free. */
  ghost predicate InvWith(blocks: set<nat>, s: Slab, free: seq<nat>) {
    && Chain(s.mem, s.head, free)
    && NoDuplicates(free)
    && Members(free) !! s.held && Members(free) + s.held == blocks
    && |free| + s.used == |blocks|
    && 0 !in blocks
    && (s.waiters != [] ==> free == [])
  }

  ghost predicate Inv(blocks: set<nat>, s: Slab) {
    exists free :: InvWith(blocks, s, free)
  }

  // ---- the steps

  datatype Reply = Given(block: nat) | NoMemory | Pended

  datatype Outcome = Outcome(slab: Slab, reply: Reply)

  /** `k_mem_slab_alloc`. */
  function Alloc(s: Slab, thread: nat, prio: int, noWait: bool): (r: Outcome)
    requires s.head != 0 ==> s.head in s.mem
  {
    if s.head != 0 then
      Outcome(s.(head := s.mem[s.head], used := s.used + 1, held := s.held + {s.head}), Given(s.head))
    else if noWait then Outcome(s, NoMemory)
    else Outcome(s.(waiters := Insert(s.waiters, Waiter(thread, prio, ()))), Pended)
  }

  /** `k_mem_slab_free`, for a block that is held. */
  function Free(s: Slab, block: nat): (r: Slab)
    requires s.waiters == [] ==> s.used > 0
  {
    if s.waiters != [] then s.(waiters := s.waiters[1..])
    else s.(mem := s.mem[block := s.head], head := block, used := s.used - 1, held := s.held - {block})
  }

  /** Whoever holds a block may write to it. */
  function Write(s: Slab, block: nat, word: nat): (r: Slab) {
    s.(mem := s.mem[block := word])
  }

  function Timeout(s: Slab, i: nat): (r: Slab)
    requires i < |s.waiters|
  {
    s.(waiters := Without(s.waiters, i))
  }

  // ---- what they keep

  /** Words outside the list do not matter to it. */
  lemma {:induction false} ChainIgnores(mem: map<nat, nat>, head: nat, free: seq<nat>, block: nat, word: nat)
    requires Chain(mem, head, free) && block !in free
    ensures Chain(mem[block := word], head, free)
    decreases |free|
  {
    if free != [] { ChainIgnores(mem, mem[free[0]], free[1..], block, word); }
  }

  lemma {:induction false} MembersCount(s: seq<nat>)
    requires NoDuplicates(s)
    ensures |Members(s)| == |s|
  {
    if s == [] {
      assert Members(s) == {};
    } else {
      MembersCount(s[1..]);
      assert s == [s[0]] + s[1..];
      assert s[0] !in s[1..];
      assert Members(s) == {s[0]} + Members(s[1..]);
    }
  }

  /** The use count is the number of blocks held. */
  lemma UsedIsHeld(blocks: set<nat>, s: Slab, free: seq<nat>)
    requires InvWith(blocks, s, free)
    ensures |s.held| == s.used
  {
    MembersCount(free);
    assert s.held == blocks - Members(free);
    assert |blocks| == |Members(free)| + |s.held|;
  }

  /** The list without its first block. */
  lemma {:induction false} Popped(mem: map<nat, nat>, head: nat, free: seq<nat>)
    requires Chain(mem, head, free) && NoDuplicates(free) && free != []
    ensures head == free[0] && head in mem && Chain(mem, mem[head], free[1..]) && NoDuplicates(free[1..])
    ensures Members(free) == {head} + Members(free[1..]) && head !in Members(free[1..])
  {
    assert free == [free[0]] + free[1..];
  }

  lemma Handed(free: set<nat>, rest: set<nat>, held: set<nat>, blocks: set<nat>, block: nat)
    requires free !! held && free + held == blocks && free == {block} + rest && block !in rest
    ensures rest !! (held + {block}) && rest + (held + {block}) == blocks && block in blocks && block !in held
  {
  }

  lemma AllocKeeps(blocks: set<nat>, s: Slab, free: seq<nat>, thread: nat, prio: int, noWait: bool)
    requires InvWith(blocks, s, free)
    ensures s.head != 0 ==> s.head in s.mem
    ensures var r := Alloc(s, thread, prio, noWait);
      && InvWith(blocks, r.slab, if free == [] then [] else free[1..])
      && (r.reply.Given? <==> free != [])
      && (r.reply.Given? ==> r.reply.block in blocks && r.reply.block !in s.held && r.slab.held == s.held + {r.reply.block})
  {
    if free != [] {
      Popped(s.mem, s.head, free);
      Handed(Members(free), Members(free[1..]), s.held, blocks, s.head);
    }
  }

  /** A block in front of the list. */
  lemma Pushed(mem: map<nat, nat>, head: nat, free: seq<nat>, block: nat)
    requires Chain(mem, head, free) && NoDuplicates(free) && block !in free
    ensures Chain(mem[block := head], block, [block] + free) && NoDuplicates([block] + free)
    ensures Members([block] + free) == {block} + Members(free)
  {
    ChainIgnores(mem, head, free, block, head);
    assert ([block] + free)[1..] == free;
  }

  lemma GivenBack(free: set<nat>, held: set<nat>, blocks: set<nat>, block: nat)
    requires free !! held && free + held == blocks && block in held
    ensures ({block} + free) !! (held - {block}) && ({block} + free) + (held - {block}) == blocks && block !in free
  {
  }

  lemma FreeKeeps(blocks: set<nat>, s: Slab, free: seq<nat>, block: nat)
    requires InvWith(blocks, s, free) && block in s.held
    ensures s.used > 0
    ensures InvWith(blocks, Free(s, block), if s.waiters != [] then free else [block] + free)
  {
    assert s.used > 0 by {
      UsedIsHeld(blocks, s, free);
      assert s.held != {};
    }
    if s.waiters == [] {
      GivenBack(Members(free), s.held, blocks, block);
      Pushed(s.mem, s.head, free, block);
    }
  }

  /** A block freed while nobody waits is the next one given out, and the slab is as before. */
  lemma FreeThenAlloc(blocks: set<nat>, s: Slab, free: seq<nat>, block: nat, thread: nat, prio: int, noWait: bool)
    requires InvWith(blocks, s, free) && block in s.held && s.waiters == []
    ensures s.used > 0 && block != 0
    ensures var r := Alloc(Free(s, block), thread, prio, noWait);
      r.reply == Given(block) && r.slab == s.(mem := s.mem[block := s.head])
  {
    assert s.used > 0 && block != 0 by { FreeKeeps(blocks, s, free, block); }
    assert (s.held - {block}) + {block} == s.held;
  }

  lemma WriteKeeps(blocks: set<nat>, s: Slab, free: seq<nat>, block: nat, word: nat)
    requires InvWith(blocks, s, free) && block in s.held
    ensures InvWith(blocks, Write(s, block, word), free)
  {
    assert block !in Members(free);
    ChainIgnores(s.mem, s.head, free, block, word);
  }

  // ---- runs

  datatype Action =
    | DoAlloc(thread: nat, prio: int, noWait: bool)
    | DoFree(block: nat)
    | DoWrite(block: nat, word: nat)
    | DoTimeout(at: nat)

  ghost predicate Next(s: Slab, a: Action, s': Slab) {
    match a
    case DoAlloc(t, prio, noWait) => (s.head != 0 ==> s.head in s.mem) && s' == Alloc(s, t, prio, noWait).slab
    case DoFree(b) => b in s.held && (s.waiters == [] ==> s.used > 0) && s' == Free(s, b)
    case DoWrite(b, word) => b in s.held && s' == Write(s, b, word)
    case DoTimeout(i) => i < |s.waiters| && s' == Timeout(s, i)
  }

  ghost predicate Reaches(start: Slab, actions: seq<Action>, s: Slab)
    decreases |actions|
  {
    if actions == [] then s == start
    else
      var n := |actions| - 1;
      exists before :: Reaches(start, actions[..n], before) && Next(before, actions[n], s)
  }

  lemma NextKeepsInv(blocks: set<nat>, s: Slab, a: Action, s': Slab)
    requires Inv(blocks, s) && Next(s, a, s')
    ensures Inv(blocks, s')
  {
    var free :| InvWith(blocks, s, free);
    match a
    case DoAlloc(t, prio, noWait) => AllocKeeps(blocks, s, free, t, prio, noWait);
    case DoFree(b) => FreeKeeps(blocks, s, free, b);
    case DoWrite(b, word) => WriteKeeps(blocks, s, free, b, word);
    case DoTimeout(i) => assert InvWith(blocks, s', free);
  }

  /** Whatever threads do with the blocks they hold, in every run the free list stays a finite chain of
      exactly the blocks nobody holds, and no block is given to two threads. */
  lemma {:induction false} EveryRunKeepsInv(blocks: set<nat>, start: Slab, actions: seq<Action>, s: Slab)
    requires Inv(blocks, start) && Reaches(start, actions, s)
    ensures Inv(blocks, s) && |s.held| == s.used
    decreases |actions|
  {
    if actions != [] {
      var n := |actions| - 1;
      var before :| Reaches(start, actions[..n], before) && Next(before, actions[n], s);
      EveryRunKeepsInv(blocks, start, actions[..n], before);
      NextKeepsInv(blocks, before, actions[n], s);
    }
    var free :| InvWith(blocks, s, free);
    UsedIsHeld(blocks, s, free);
  }
}
