/** The free-list pool (include/object_pool.hpp).  Memory is a map from addresses to
    bytes, and a link is eight of them; the addresses that the global allocator
    returns are parameters. */
module Pool {
  import opened Bits

  const WORD_SIZE := 8
  const BLOCKS := 1024

  // ---------------------------------------------------------------- block size

  predicate Alignment(align: nat) {
    exists j: nat :: j <= 63 && align == Pow2(j)
  }

  function AtLeastWord(bytes: nat): nat {
    if bytes < WORD_SIZE then WORD_SIZE else bytes
  }

  /** `(b + align - 1) & ~(align - 1)` on 64 bits */
  function BlockSize(bytes: nat, align: nat): nat
    requires 0 < align <= WORD
  {
    And(Wrap(AtLeastWord(bytes) + align - 1), WORD - align)
  }

  lemma {:induction false} AlignmentBound(align: nat)
    requires Alignment(align)
    ensures 0 < align <= 0x8000_0000_0000_0000
  {
    hide Pow2;
    var j: nat :| j <= 63 && align == Pow2(j);
    Pow2Word();
    Pow2Monotone(j, 63);
  }

  lemma {:induction false} BlockSizeRounds(bytes: nat, align: nat)
    requires 0 < align <= WORD && Alignment(align)
    ensures var x := Wrap(AtLeastWord(bytes) + align - 1);
            BlockSize(bytes, align) == x - x % align
  {
    hide Pow2, And, Wrap;
    var j: nat :| j <= 63 && align == Pow2(j);
    Pow2Word();
    ClearLowBits(Wrap(AtLeastWord(bytes) + align - 1), j, 64);
  }

  lemma {:induction false} MultiplesApart(m: nat, n: nat, d: nat)
    requires d > 0 && m % d == 0 && n % d == 0 && m < n
    ensures m + d <= n
  {
    var k := n / d - m / d;
    assert d * k == n - m by {
      assert d * k == d * (n / d) - d * (m / d);
    }
    if n - m < d {
      SmallMultiple(d, k);
    }
  }

  lemma {:induction false} RoundedDown(x: nat, d: nat)
    requires d > 0
    ensures (x - x % d) % d == 0
  {
    assert x - x % d == d * (x / d) + 0;
    Remainder(x - x % d, d, x / d, 0);
  }

  /** The block is the least multiple of the alignment that holds the request and a
      pointer — exactly when rounding up does not overflow. */
  lemma {:induction false} BlockSizeIsLeast(bytes: nat, align: nat)
    requires bytes < WORD && 0 < align <= WORD && Alignment(align)
    ensures var b, need := if bytes < 8 then 8 else bytes, BlockSize(bytes, align);
            && need % align == 0
            && (b <= need <==> b + align - 1 < WORD)
            && (b <= need ==> forall m: nat :: m >= b && m % align == 0 ==> need <= m)
  {
    hide BlockSize, Pow2, Alignment;
    var b := AtLeastWord(bytes);
    AlignmentBound(align);
    BlockSizeRounds(bytes, align);
    RoundsUp(b, align, Wrap(b + align - 1), BlockSize(bytes, align));
  }

  lemma {:induction false} RoundsUp(b: nat, align: nat, x: nat, need: nat)
    requires 0 < b < WORD && 0 < align <= 0x8000_0000_0000_0000
    requires x == Wrap(b + align - 1) && need == x - x % align
    ensures need % align == 0
    ensures b <= need <==> b + align - 1 < WORD
    ensures b <= need ==> forall m: nat :: m >= b && m % align == 0 ==> need <= m
  {
    RoundedDown(x, align);
    assert x == if b + align - 1 < WORD then b + align - 1 else b + align - 1 - WORD;
    if b + align - 1 < WORD {
      forall m: nat | m >= b && m % align == 0
        ensures need <= m
      {
        if m < need {
          MultiplesApart(m, need, align);
        }
      }
    }
  }

  // ---------------------------------------------------------------- slots

  /** The slots of a chunk in the order `grow` pushes them, latest first. */
  function Stacked(chunk: nat, block: nat, n: nat): (s: seq<nat>)
    ensures |s| == n
    decreases n, block
  {
    if n == 0 then [] else [chunk + (n - 1) * block] + Stacked(chunk, block, n - 1)
  }

  lemma {:induction false} StackedAt(chunk: nat, block: nat, n: nat, k: nat)
    requires k < n
    ensures Stacked(chunk, block, n)[k] == chunk + (n - 1 - k) * block
    decreases n
  {
    if k > 0 {
      StackedAt(chunk, block, n - 1, k - 1);
    }
  }

  predicate IsSlot(chunks: seq<nat>, block: nat, a: nat) {
    exists c :: 0 <= c < |chunks| && a in Stacked(chunks[c], block, BLOCKS)
  }

  /** Chunks lie apart, aligned, and not at address zero. */
  predicate Laid(chunks: seq<nat>, block: nat, align: nat)
    requires align > 0
  {
    && (forall c :: 0 <= c < |chunks| ==> chunks[c] > 0 && chunks[c] % align == 0)
    && (forall c, d :: 0 <= c < |chunks| && 0 <= d < |chunks| && c != d ==> Apart(chunks[c], chunks[d], BLOCKS * block))
  }

  predicate Apart(a: nat, b: nat, size: nat) {
    a + size <= b || b + size <= a
  }

  lemma {:induction false} SlotIn(chunk: nat, block: nat, n: nat, a: nat) returns (i: nat)
    requires a in Stacked(chunk, block, n)
    ensures i < n && a == chunk + i * block && chunk <= a && a + block <= chunk + n * block
  {
    hide Stacked;
    var k :| 0 <= k < n && Stacked(chunk, block, n)[k] == a;
    StackedAt(chunk, block, n, k);
    i := n - 1 - k;
    assert i * block + block == (i + 1) * block;
    Scale(i + 1, n, block);
  }

  lemma {:induction false} Scale(i: nat, j: nat, block: nat)
    requires i <= j
    ensures i * block <= j * block
  {
    assert j * block == i * block + (j - i) * block && (j - i) * block >= 0;
  }

  /** Two different slots never overlap. */
  lemma {:induction false} SlotsApart(chunks: seq<nat>, block: nat, align: nat, a: nat, b: nat)
    requires align > 0 && Laid(chunks, block, align) && IsSlot(chunks, block, a) && IsSlot(chunks, block, b) && a != b
    ensures Apart(a, b, block)
  {
    hide Stacked;
    var c :| 0 <= c < |chunks| && a in Stacked(chunks[c], block, BLOCKS);
    var d :| 0 <= d < |chunks| && b in Stacked(chunks[d], block, BLOCKS);
    var i := SlotIn(chunks[c], block, BLOCKS, a);
    var j := SlotIn(chunks[d], block, BLOCKS, b);
    if c == d {
      if i < j {
        Scale(i + 1, j, block);
        assert (i + 1) * block == i * block + block;
      } else {
        Scale(j + 1, i, block);
        assert (j + 1) * block == j * block + block;
      }
    } else {
      assert Apart(chunks[c], chunks[d], BLOCKS * block);
    }
  }

  /** Slots are aligned and never null. */
  lemma {:induction false} SlotAligned(chunks: seq<nat>, block: nat, align: nat, a: nat)
    requires align > 0 && block % align == 0 && Laid(chunks, block, align) && IsSlot(chunks, block, a)
    ensures a > 0 && a % align == 0
  {
    hide Stacked;
    var c :| 0 <= c < |chunks| && a in Stacked(chunks[c], block, BLOCKS);
    var i := SlotIn(chunks[c], block, BLOCKS, a);
    AlignedSum(chunks[c], i, block, align);
  }

  lemma {:induction false} AlignedSum(chunk: nat, i: nat, block: nat, align: nat)
    requires align > 0 && block % align == 0 && chunk % align == 0
    ensures (chunk + i * block) % align == 0
  {
    var p, q := chunk / align, block / align;
    assert chunk == align * p && block == align * q;
    assert i * block == align * (i * q);
    assert chunk + i * block == align * (p + i * q) + 0;
    Remainder(chunk + i * block, align, p + i * q, 0);
  }

  // ---------------------------------------------------------------- the intrusive list

  /** What one byte of memory holds: a piece of a stored link, or anything else. */
  datatype Cell = Piece(link: nat, k: nat) | Data(value: nat)

  type Memory = map<nat, Cell>

  function PieceAt(a: nat, link: nat, i: nat): Cell
    requires a <= i
  {
    Piece(link, i - a)
  }

  /** Stores a link over the eight bytes from `a`. */
  function StoreLink(mem: Memory, a: nat, link: nat): Memory {
    mem + map i: nat | a <= i < a + WORD_SIZE :: PieceAt(a, link, i)
  }

  /** The eight bytes from `a` are an undamaged link. */
  predicate HoldsLink(mem: Memory, a: nat, link: nat) {
    forall b :: a <= b < a + WORD_SIZE ==> b in mem && mem[b] == Piece(link, b - a)
  }

  /** Loads the link at `a`. */
  function LoadLink(mem: Memory, a: nat): nat {
    if a in mem && mem[a].Piece? then mem[a].link else 0
  }

  /** Following the links from `head` visits exactly `list` and ends at null. */
  predicate Chain(list: seq<nat>, head: nat, mem: Memory) {
    if list == [] then head == 0
    else
      && head > 0 && head == list[0] && HoldsLink(mem, head, LoadLink(mem, head))
      && Chain(list[1..], LoadLink(mem, head), mem)
  }

  /** `mem1` differs from `mem` only away from the links of `list`. */
  ghost predicate Spares(list: seq<nat>, mem: Memory, mem1: Memory) {
    forall i, a :: 0 <= i < |list| && list[i] <= a < list[i] + WORD_SIZE && a in mem ==> a in mem1 && mem1[a] == mem[a]
  }

  lemma {:induction false} LinkFrame(mem: Memory, mem1: Memory, a: nat, link: nat)
    requires HoldsLink(mem, a, link)
    requires forall b :: a <= b < a + WORD_SIZE && b in mem ==> b in mem1 && mem1[b] == mem[b]
    ensures HoldsLink(mem1, a, link) && LoadLink(mem1, a) == LoadLink(mem, a) == link
  {
    assert a in mem && mem[a] == Piece(link, 0);
  }

  /** A write elsewhere does not disturb the list. */
  lemma {:induction false} ChainFrame(list: seq<nat>, head: nat, mem: Memory, mem1: Memory)
    requires Chain(list, head, mem) && Spares(list, mem, mem1)
    ensures Chain(list, head, mem1)
    decreases |list|
  {
    hide HoldsLink, LoadLink;
    if list != [] {
      LinkFrame(mem, mem1, head, LoadLink(mem, head));
      assert forall i :: 0 <= i < |list[1..]| ==> list[1..][i] == list[i + 1];
      ChainFrame(list[1..], LoadLink(mem, head), mem, mem1);
    }
  }

  /** The link at `a` overlaps no link of the list. */
  predicate Clear(list: seq<nat>, a: nat) {
    forall i :: 0 <= i < |list| ==> Apart(list[i], a, WORD_SIZE)
  }

  lemma {:induction false} StoreLinkHolds(mem: Memory, a: nat, link: nat)
    ensures HoldsLink(StoreLink(mem, a, link), a, link) && LoadLink(StoreLink(mem, a, link), a) == link
  {
  }

  lemma {:induction false} StoreLinkSpares(list: seq<nat>, mem: Memory, a: nat, link: nat)
    requires Clear(list, a)
    ensures Spares(list, mem, StoreLink(mem, a, link))
  {
    forall i, b | 0 <= i < |list| && list[i] <= b < list[i] + WORD_SIZE && b in mem
      ensures b in StoreLink(mem, a, link) && StoreLink(mem, a, link)[b] == mem[b]
    {
      assert Apart(list[i], a, WORD_SIZE);
    }
  }

  lemma {:induction false} ChainPush(list: seq<nat>, head: nat, mem: Memory, a: nat)
    requires Chain(list, head, mem) && a > 0 && Clear(list, a)
    ensures Chain([a] + list, a, StoreLink(mem, a, head))
  {
    hide HoldsLink, LoadLink, StoreLink, Spares;
    StoreLinkSpares(list, mem, a, head);
    ChainFrame(list, head, mem, StoreLink(mem, a, head));
    StoreLinkHolds(mem, a, head);
    assert ([a] + list)[1..] == list;
  }

  predicate NoRepeats(list: seq<nat>) {
    forall i, j :: 0 <= i < j < |list| ==> list[i] != list[j]
  }

  lemma {:induction false} StackedDistinct(chunk: nat, block: nat, n: nat)
    requires block > 0
    ensures NoRepeats(Stacked(chunk, block, n))
  {
    hide Stacked;
    forall i, j | 0 <= i < j < n
      ensures Stacked(chunk, block, n)[i] != Stacked(chunk, block, n)[j]
    {
      StackedAt(chunk, block, n, i);
      StackedAt(chunk, block, n, j);
      Scale(n - 1 - j + 1, n - 1 - i, block);
      assert (n - 1 - j + 1) * block == (n - 1 - j) * block + block;
    }
  }
}
