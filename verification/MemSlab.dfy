/** The memory slab object. */
module MemSlab {
  import opened WaitQueue
  import opened MemSlabSpec
  import opened Common

  /** The addresses of `n` blocks of `size` bytes from `buffer` on, the last one first. */
  function Descending(buffer: nat, size: nat, n: nat): (r: seq<nat>)
    ensures |r| == n
  {
    if n == 0 then [] else [buffer + (n - 1) * size] + Descending(buffer, size, n - 1)
  }

  /** Every address is that of one whole block inside the buffer. */
  lemma {:induction false} DescendingAt(buffer: nat, size: nat, n: nat, i: nat)
    requires i < n
    ensures Descending(buffer, size, n)[i] == buffer + (n - 1 - i) * size
  {
    if i > 0 { DescendingAt(buffer, size, n - 1, i - 1); }
  }

  /** The bytes of a pointer. */
  const WORD := 4

  function BlockAt(buffer: nat, size: nat, k: nat): (a: nat) { buffer + k * size }

  /** Words at the two addresses share no byte. */
  predicate WordsApart(a: nat, b: nat) { a + WORD <= b || b + WORD <= a }

  /** The links, which are in the first words of the blocks, do not touch each other exactly when blocks
      are not smaller than a word; otherwise each is written over the one before it. */
  lemma LinksApartIff(buffer: nat, size: nat, n: nat)
    requires n >= 2
    ensures (forall j: nat, k: nat | j < k < n :: WordsApart(BlockAt(buffer, size, j), BlockAt(buffer, size, k)))
       <==> size >= WORD
  {
    if size >= WORD {
      forall j: nat, k: nat | j < k < n ensures WordsApart(BlockAt(buffer, size, j), BlockAt(buffer, size, k)) {
        Scaled(j + 1, k, size);
        Stepped(j, size);
      }
    } else {
      assert !WordsApart(BlockAt(buffer, size, 0), BlockAt(buffer, size, 1));
    }
  }

  /** Block `k` starts inside the buffer at a multiple of the block size and ends inside it, its first
      word included; earlier blocks end before it. */
  lemma BlockInside(buffer: nat, size: nat, n: nat, k: nat)
    requires k < n && size >= WORD
    ensures k * size + WORD <= k * size + size <= n * size
    ensures forall j: nat | j < k :: buffer + j * size + size <= buffer + k * size
  {
    assert (k + 1) * size <= n * size by { Scaled(k + 1, n, size); }
    forall j: nat | j < k ensures buffer + j * size + size <= buffer + k * size {
      Scaled(j + 1, k, size);
    }
  }

  lemma {:induction false} Scaled(a: nat, b: nat, size: nat)
    requires a <= b
    ensures a * size <= b * size
  {
    if a < b { Scaled(a, b - 1, size); }
  }

  lemma {:induction false} NewBlock(buffer: nat, size: nat, n: nat)
    requires size > 0
    ensures buffer + n * size !in Descending(buffer, size, n)
  {
    forall i: nat | i < n ensures Descending(buffer, size, n)[i] != buffer + n * size {
      DescendingAt(buffer, size, n, i);
      Scaled(n - 1 - i + 1, n, size);
    }
  }

  /** `create_free_list`: chain the blocks through their first words, the last block first. */
  method CreateFreeList(buffer: nat, blockSize: nat, numBlocks: nat) returns (words: map<nat, nat>, list: nat)
    requires buffer > 0 && blockSize >= WORD
    ensures var chain := Descending(buffer, blockSize, numBlocks);
      Chain(words, list, chain) && NoDuplicates(chain) && 0 !in Members(chain)
  {
    words, list := map[], 0;
    var p := buffer;
    ghost var chain := Descending(buffer, blockSize, 0);
    for j := 0 to numBlocks
      invariant chain == Descending(buffer, blockSize, j) && p == buffer + j * blockSize
      invariant Chain(words, list, chain) && NoDuplicates(chain) && 0 !in Members(chain)
    {
      NewBlock(buffer, blockSize, j);
      Pushed(words, list, chain, p);
      words := words[p := list];
      list := p;
      chain := [p] + chain;
      Stepped(j, blockSize);
      p := p + blockSize;
    }
  }

  class KMemSlab {
    const buffer: nat
    const blockSize: nat
    const numBlocks: nat
    var mem: map<nat, nat>
    var freeList: nat
    var numUsed: nat
    var waitQ: seq<Waiter<()>>
    ghost var held: set<nat>
    ghost var free: seq<nat>

    ghost function Abs(): (s: Slab)
      reads this
    {
      Slab(mem, freeList, numUsed, waitQ, held)
    }

    ghost function Blocks(): (s: set<nat>) {
      Members(Descending(buffer, blockSize, numBlocks))
    }

    ghost predicate Valid()
      reads this
    {
      InvWith(Blocks(), Abs(), free)
    }

    /** `k_mem_slab_init` with `create_free_list`. */
    constructor (buffer: nat, blockSize: nat, numBlocks: nat)
      requires buffer > 0 && blockSize >= WORD
      ensures Valid() && held == {} && numUsed == 0 && waitQ == []
      ensures free == Descending(buffer, blockSize, numBlocks)
      ensures this.buffer == buffer && this.blockSize == blockSize && this.numBlocks == numBlocks
    {
      this.buffer, this.blockSize, this.numBlocks := buffer, blockSize, numBlocks;
      numUsed, waitQ, held := 0, [], {};
      var words, list := CreateFreeList(buffer, blockSize, numBlocks);
      mem, freeList := words, list;
      free := Descending(buffer, blockSize, numBlocks);
      MembersCount(Descending(buffer, blockSize, numBlocks));
    }

    /** The body of `k_mem_slab_alloc`. */
    method TakeBlock(thread: nat, prio: int, noWait: bool) returns (reply: Reply)
      requires freeList != 0 ==> freeList in mem
      modifies this`freeList, this`numUsed, this`waitQ, this`held
      ensures Outcome(Abs(), reply) == MemSlabSpec.Alloc(old(Abs()), thread, prio, noWait)
    {
      if freeList != 0 {
        reply := Given(freeList);
        held := held + {freeList};
        freeList := mem[freeList];
        numUsed := numUsed + 1;
        return;
      }
      if noWait {
        return NoMemory;
      }
      waitQ := Pend(waitQ, Waiter(thread, prio, ()));
      return Pended;
    }

    /** `k_mem_slab_alloc`: a block nobody holds, unless all are held. */
    method Alloc(thread: nat, prio: int, noWait: bool) returns (reply: Reply)
      requires Valid()
      modifies this
      ensures Valid()
      ensures old(freeList) != 0 ==> old(freeList) in old(mem)
      ensures Outcome(Abs(), reply) == MemSlabSpec.Alloc(old(Abs()), thread, prio, noWait)
      ensures reply.Given? ==> reply.block in Blocks() && reply.block !in old(held) && held == old(held) + {reply.block}
      ensures !reply.Given? ==> old(held) == Blocks()
    {
      AllocKeeps(Blocks(), Abs(), free, thread, prio, noWait);
      AllHeld(Blocks(), Abs(), free);
      ghost var list := if free == [] then [] else free[1..];
      reply := TakeBlock(thread, prio, noWait);
      assert InvWith(Blocks(), Abs(), list);
      free := list;
    }

    /** The body of `k_mem_slab_free`: a waiting thread gets the block, else it heads the list. */
    method GiveBlock(block: nat) returns (thread: nat)
      requires waitQ == [] ==> numUsed > 0
      modifies this`mem, this`freeList, this`numUsed, this`waitQ, this`held
      ensures Abs() == MemSlabSpec.Free(old(Abs()), block)
      ensures old(waitQ) != [] ==> thread == old(waitQ)[0].thread
    {
      if waitQ != [] {
        thread := waitQ[0].thread;
        waitQ := waitQ[1..];
      } else {
        thread := 0;
        mem := mem[block := freeList];
        freeList := block;
        numUsed := numUsed - 1;
        held := held - {block};
      }
    }

    /** `k_mem_slab_free`. */
    method Free(block: nat) returns (thread: nat)
      requires Valid() && block in held
      modifies this
      ensures Valid()
      ensures old(waitQ) == [] ==> old(numUsed) > 0
      ensures Abs() == MemSlabSpec.Free(old(Abs()), block)
      ensures old(waitQ) != [] ==> thread == old(waitQ)[0].thread
    {
      FreeKeeps(Blocks(), Abs(), free, block);
      ghost var list := if waitQ != [] then free else [block] + free;
      thread := GiveBlock(block);
      free := list;
    }
  }

  lemma AllHeld(blocks: set<nat>, s: Slab, free: seq<nat>)
    requires InvWith(blocks, s, free)
    ensures free == [] ==> s.held == blocks
  {
  }

  lemma Stepped(j: nat, size: nat)
    ensures (j + 1) * size == j * size + size
  {
  }
}
