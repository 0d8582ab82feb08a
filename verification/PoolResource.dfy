/** The pool as an object: an intrusive free list threaded through the free blocks
    themselves, chunks taken from the global allocator, and requests of any other
    size passed on to it. */
module PoolResourceImpl {
  import opened Bits
  import opened Pool

  datatype Request = Request(bytes: nat, align: nat) {
    /** What callers pass: a power-of-two alignment and a size that rounds up without overflow. */
    predicate Ok() {
      0 < align <= WORD && Alignment(align) && AtLeastWord(bytes) + align - 1 < WORD
    }

    function Size(): nat
      requires Ok()
    {
      BlockSize(bytes, align)
    }

    /** How far a block from the global allocator reaches. */
    function Extent(): nat {
      if bytes == 0 then 1 else bytes
    }
  }

  /** Free list and live blocks together are all slots, each exactly once. */
  predicate Partition(chunks: seq<nat>, block: nat, list: seq<nat>, live: set<nat>) {
    && NoRepeats(list)
    && (forall a :: a in list ==> a !in live && IsSlot(chunks, block, a))
    && (forall a :: a in live ==> IsSlot(chunks, block, a))
    && (forall c :: 0 <= c < |chunks| ==> forall a :: a in Stacked(chunks[c], block, BLOCKS) ==> a in list || a in live)
    && |list| + |live| == BLOCKS * |chunks|
  }

  /** The `extent` bytes from `a` meet no chunk. */
  predicate Outside(chunks: seq<nat>, size: nat, a: nat, extent: nat) {
    forall c :: 0 <= c < |chunks| ==> a + extent <= chunks[c] || chunks[c] + size <= a
  }

  lemma {:induction false} PartitionPop(chunks: seq<nat>, block: nat, list: seq<nat>, live: set<nat>)
    requires Partition(chunks, block, list, live) && list != []
    ensures Partition(chunks, block, list[1..], live + {list[0]})
  {
    hide IsSlot, Stacked;
    var rest, live1 := list[1..], live + {list[0]};
    forall a | a in rest
      ensures a !in live1 && IsSlot(chunks, block, a)
    {
      var k :| 0 <= k < |rest| && rest[k] == a;
      assert list[k + 1] == a && list[0] != list[k + 1];
    }
    forall c, a | 0 <= c < |chunks| && a in Stacked(chunks[c], block, BLOCKS)
      ensures a in rest || a in live1
    {
      if a !in live1 {
        var k :| 0 <= k < |list| && list[k] == a;
        assert rest[k - 1] == a;
      }
    }
  }

  lemma {:induction false} PartitionPush(chunks: seq<nat>, block: nat, list: seq<nat>, live: set<nat>, a: nat)
    requires Partition(chunks, block, list, live) && a in live
    ensures Partition(chunks, block, [a] + list, live - {a})
  {
    hide IsSlot, Stacked;
    var more, live1 := [a] + list, live - {a};
    assert |live| == |live1| + 1;
    forall b | b in more
      ensures b !in live1 && IsSlot(chunks, block, b)
    {
    }
    forall c, b | 0 <= c < |chunks| && b in Stacked(chunks[c], block, BLOCKS)
      ensures b in more || b in live1
    {
    }
  }

  lemma {:induction false} PartitionGrow(chunks: seq<nat>, block: nat, align: nat, live: set<nat>, chunk: nat)
    requires block > 0 && align > 0 && Partition(chunks, block, [], live)
    requires Laid(chunks + [chunk], block, align)
    ensures Partition(chunks + [chunk], block, Stacked(chunk, block, BLOCKS), live)
  {
    hide Stacked;
    var all, list := chunks + [chunk], Stacked(chunk, block, BLOCKS);
    StackedDistinct(chunk, block, BLOCKS);
    forall a | a in list
      ensures a !in live && IsSlot(all, block, a)
    {
      assert all[|chunks|] == chunk;
      if a in live {
        var c :| 0 <= c < |chunks| && a in Stacked(chunks[c], block, BLOCKS);
        assert all[c] == chunks[c];
        var i := SlotIn(chunks[c], block, BLOCKS, a);
        var j := SlotIn(chunk, block, BLOCKS, a);
      }
    }
    forall a | a in live
      ensures IsSlot(all, block, a)
    {
      var c :| 0 <= c < |chunks| && a in Stacked(chunks[c], block, BLOCKS);
      assert all[c] == chunks[c];
    }
    forall c, a | 0 <= c < |all| && a in Stacked(all[c], block, BLOCKS)
      ensures a in list || a in live
    {
      if c < |chunks| {
        assert all[c] == chunks[c];
      }
    }
  }

  class PoolResource {
    var block: nat
    var align: nat
    var free: nat
    var chunks: seq<nat>
    /** Memory, byte by byte. */
    var mem: Memory
    /** The free list, the blocks the pool has handed out, the blocks it passed on
        to the global allocator, and what was asked for each. */
    ghost var list: seq<nat>
    ghost var live: set<nat>
    ghost var passed: set<nat>
    ghost var asked: map<nat, Request>

    ghost predicate Serves(r: Request)
      requires r.Ok()
      reads this
    {
      block != 0 && r.Size() == block && r.align == align
    }

    ghost predicate Booked()
      reads this
    {
      && asked.Keys == live + passed && live !! passed
      && (forall p :: p in asked ==> asked[p].Ok())
      && (forall p :: p in live ==> Serves(asked[p]))
      && (forall p :: p in passed ==> !Serves(asked[p]) && Outside(chunks, BLOCKS * block, p, asked[p].Extent()))
    }

    ghost predicate Valid()
      reads this
    {
      && 0 < align <= WORD && Alignment(align) && block % align == 0
      && (block == 0 ==> chunks == [] && asked == map[]) && (block != 0 ==> block >= WORD_SIZE)
      && Laid(chunks, block, align)
      && Chain(list, free, mem)
      && Partition(chunks, block, list, live)
      && Booked()
    }

    constructor ()
      ensures Valid() && asked == map[] && block == 0 && align == 16
    {
      hide Pow2;
      block, align, free, chunks, mem := 0, 16, 0, [], map[];
      list, live, passed, asked := [], {}, {}, map[];
      SixteenIsPowerOfTwo();
    }

    static lemma {:induction false} SixteenIsPowerOfTwo()
      ensures Alignment(16)
    {
      assert Pow2(2) == 4;
      assert Pow2(4) == 16;
    }

    /** What the global allocator must return where it is called: `size` bytes,
        aligned, away from everything the pool has in use. */
    ghost predicate Offered(a: nat, size: nat, alignment: nat)
      requires alignment > 0
      reads this
    {
      && a > 0 && a % alignment == 0 && a !in asked
      && (forall c :: 0 <= c < |chunks| ==> a + size <= chunks[c] || chunks[c] + BLOCKS * block <= a)
      && (forall p :: p in passed && p in asked ==> p + asked[p].Extent() <= a || a + size <= p)
    }

    /** Threads the slots of a new chunk onto the empty free list. */
    method Grow(chunk: nat)
      requires Valid() && block > 0 && list == [] && Offered(chunk, BLOCKS * block, align)
      modifies this`free, this`chunks, this`mem, this`list
      ensures Valid()
      ensures chunks == old(chunks) + [chunk] && list == Stacked(chunk, block, 1024)
    {
      hide Stacked, Chain, Partition, Alignment, IsSlot;
      assert Laid(chunks + [chunk], block, align);
      PartitionGrow(chunks, block, align, live, chunk);
      chunks := chunks + [chunk];
      EmptyStack(chunk);
      var i := 0;
      while i < BLOCKS
        invariant i <= BLOCKS
        invariant Chain(Stacked(chunk, block, i), free, mem)
        invariant chunks == old(chunks) + [chunk]
      {
        var slot := chunk + i * block;
        StackStep(chunk, block, i);
        ChainPush(Stacked(chunk, block, i), free, mem, slot);
        mem := StoreLink(mem, slot, free);
        free := slot;
        i := i + 1;
      }
      list := Stacked(chunk, block, BLOCKS);
    }

    lemma {:induction false} EmptyStack(chunk: nat)
      requires list == [] && Chain(list, free, mem)
      ensures Chain(Stacked(chunk, block, 0), free, mem)
    {
    }

    static lemma {:induction false} StackStep(chunk: nat, block: nat, i: nat)
      requires block >= WORD_SIZE
      ensures Stacked(chunk, block, i + 1) == [chunk + i * block] + Stacked(chunk, block, i)
      ensures Clear(Stacked(chunk, block, i), chunk + i * block)
    {
      var slots := Stacked(chunk, block, i);
      forall k | 0 <= k < |slots|
        ensures Apart(slots[k], chunk + i * block, WORD_SIZE)
      {
        assert slots[k] in slots;
        var j := SlotIn(chunk, block, i, slots[k]);
      }
    }

    /** The block at the head of the free list leaves it. */
    method Take(ghost r: Request) returns (p: nat)
      requires Valid() && list != [] && r.Ok() && Serves(r)
      modifies this`free, this`list, this`live, this`asked
      ensures Valid()
      ensures p == old(list[0]) && list == old(list)[1..] && live == old(live) + {p} && p !in old(asked)
      ensures asked == old(asked)[p := r] && p > 0 && p % align == 0
    {
      hide Stacked, Partition, Alignment, IsSlot;
      HeadIsFree();
      PartitionPop(chunks, block, list, live);
      p := free;
      free := LoadLink(mem, free);
      list, live, asked := list[1..], live + {p}, asked[p := r];
    }

    lemma {:induction false} HeadIsFree()
      requires Valid() && list != []
      ensures free == list[0] && free > 0 && free % align == 0 && free !in asked
    {
      hide Stacked, Alignment, Chain, IsSlot, Outside, Serves;
      FreeExactly();
      assert list[0] in list && IsSlot(chunks, block, list[0]);
      SlotAligned(chunks, block, align, list[0]);
      FreeInside(0);
    }

    /** `given` is what the global allocator would return if it were called. */
    method Allocate(bytes: nat, alignment: nat, given: nat) returns (p: nat)
      requires Valid() && Request(bytes, alignment).Ok()
      requires var need := Request(bytes, alignment).Size();
               if block == 0 then Offered(given, BLOCKS * need, alignment)
               else if need == block && alignment == align then list == [] ==> Offered(given, BLOCKS * block, align)
               else Offered(given, Request(bytes, alignment).Extent(), alignment)
      modifies this
      ensures Valid()
      ensures p > 0 && p % alignment == 0 && p !in old(asked) && asked == old(asked)[p := Request(bytes, alignment)]
      ensures p in live <==> Serves(Request(bytes, alignment))
      ensures if old(block) == 0 then block == Request(bytes, alignment).Size() && align == alignment
              else block == old(block) && align == old(align)
      ensures p in passed ==> p == given && chunks == old(chunks) && list == old(list)
      ensures p in live && old(list) != [] ==> p == old(list)[0] && chunks == old(chunks)
      ensures p in live && old(list) != [] ==> list == old(list)[1..]
      ensures p in live && old(list) == [] ==> chunks == old(chunks) + [given] && p == given + 1023 * block
    {
      hide Stacked, Partition, Alignment, IsSlot, Chain, BlockSize;
      ghost var r := Request(bytes, alignment);
      var need := BlockSize(bytes, alignment);
      BlockSizeIsLeast(bytes, alignment);
      if block == 0 {
        Nothing();
        block, align := need, alignment;
      } else if need != block || alignment != align {
        passed, asked := passed + {given}, asked[given := r];
        return given;
      }
      FreeExactly();
      if free == 0 {
        Grow(given);
        StackedAt(given, block, 1024, 0);
      }
      p := Take(r);
    }

    /** Nothing allocated yet, so any block size will do. */
    lemma {:induction false} Nothing()
      requires Valid() && block == 0
      ensures list == [] && live == {} && passed == {} && forall b: nat :: Partition(chunks, b, list, live)
    {
    }

    lemma {:induction false} FreeExactly()
      requires Chain(list, free, mem)
      ensures (free == 0 <==> list == []) && (list != [] ==> free == list[0])
    {
    }

    /** The block goes back where it came from. */
    method Deallocate(p: nat, bytes: nat, alignment: nat)
      requires Valid() && p in asked && asked[p] == Request(bytes, alignment)
      modifies this
      ensures Valid()
      ensures asked == old(asked) - {p} && chunks == old(chunks) && block == old(block) && align == old(align)
      ensures live == old(live) - {p} && passed == old(passed) - {p}
      ensures list == if p in old(live) then [p] + old(list) else old(list)
    {
      hide Stacked, Partition, Alignment, IsSlot, Chain, BlockSize, Laid, Outside;
      if block == 0 || BlockSize(bytes, alignment) != block || alignment != align {
        passed, asked := passed - {p}, asked - {p};
        return;
      }
      LiveIsClear(p);
      ChainPush(list, free, mem, p);
      PartitionPush(chunks, block, list, live, p);
      mem := StoreLink(mem, p, free);
      free := p;
      list, live, asked := [p] + list, live - {p}, asked - {p};
    }

    /** A live block overlaps nothing on the free list. */
    lemma {:induction false} LiveApart(p: nat, i: nat)
      requires Valid() && p in live && i < |list|
      ensures Apart(list[i], p, block) && block >= WORD_SIZE
    {
      hide Stacked, Alignment, IsSlot, Chain, BlockSize;
      assert list[i] in list;
      SlotsApart(chunks, block, align, list[i], p);
    }

    lemma {:induction false} LiveIsClear(p: nat)
      requires Valid() && p in live
      ensures p > 0 && Clear(list, p)
    {
      hide Stacked, Alignment, Chain, BlockSize;
      SlotAligned(chunks, block, align, p);
      forall i | 0 <= i < |list|
        ensures Apart(list[i], p, WORD_SIZE)
      {
        LiveApart(p, i);
      }
    }

    /** The owner of a block, from the pool or passed on, may write any byte of it. */
    method Write(p: nat, a: nat, v: nat)
      requires Valid() && p in asked && p <= a < p + asked[p].bytes
      modifies this`mem
      ensures Valid() && mem == old(mem)[a := Data(v)]
    {
      hide Stacked, Partition, Alignment, IsSlot, Chain, BlockSize, Spares;
      OwnByteSpares(p, a, v);
      ChainFrame(list, free, mem, mem[a := Data(v)]);
      mem := mem[a := Data(v)];
    }

    /** A byte of a block in use is no byte of a link. */
    lemma {:induction false} OwnByteSpares(p: nat, a: nat, v: nat)
      requires Valid() && p in asked && p <= a < p + asked[p].bytes
      ensures Spares(list, mem, mem[a := Data(v)])
    {
      hide Stacked, Alignment, IsSlot, Chain, BlockSize, Partition;
      forall i | 0 <= i < |list|
        ensures a < list[i] || list[i] + WORD_SIZE <= a
      {
        if p in live {
          BlockSizeIsLeast(asked[p].bytes, asked[p].align);
          LiveApart(p, i);
        } else {
          FreeInside(i);
        }
      }
    }

    /** A free slot lies inside a chunk, away from blocks that were passed on. */
    lemma {:induction false} FreeInside(i: nat)
      requires Valid() && i < |list|
      ensures block >= WORD_SIZE
      ensures forall p :: p in passed ==> p + asked[p].Extent() <= list[i] || list[i] + block <= p
    {
      hide Stacked, Alignment, Chain, BlockSize;
      assert list[i] in list && IsSlot(chunks, block, list[i]);
      var c :| 0 <= c < |chunks| && list[i] in Stacked(chunks[c], block, BLOCKS);
      var k := SlotIn(chunks[c], block, BLOCKS, list[i]);
    }

    /** 1024 blocks come with each chunk, and every one of them is free or in use. */
    lemma {:induction false} BlocksCounted()
      requires Valid()
      ensures |list| + |live| == 1024 * |chunks|
      ensures forall c, i :: 0 <= c < |chunks| && 0 <= i < 1024 ==> Slot(c, i) in list || Slot(c, i) in live
    {
      hide Stacked, Alignment, Chain, Laid, Booked;
      forall c, i | 0 <= c < |chunks| && 0 <= i < 1024
        ensures Slot(c, i) in list || Slot(c, i) in live
      {
        StackedAt(chunks[c], block, BLOCKS, 1023 - i);
        assert Slot(c, i) in Stacked(chunks[c], block, BLOCKS);
      }
    }

    /** Block `i` of chunk `c`. */
    function Slot(c: nat, i: nat): nat
      requires c < |chunks|
      reads this
    {
      chunks[c] + i * block
    }

    /** Two live blocks of the pool never overlap, and each holds what was asked. */
    lemma {:induction false} LiveDisjoint(p: nat, q: nat)
      requires Valid() && p in live && q in live && p != q
      ensures Apart(p, q, block) && p % align == 0 && asked[p].bytes <= block && asked[p].align == align
    {
      hide Stacked, IsSlot, BlockSize, Alignment;
      SlotsApart(chunks, block, align, p, q);
      SlotAligned(chunks, block, align, p);
      BlockSizeIsLeast(asked[p].bytes, asked[p].align);
    }
  }
}
