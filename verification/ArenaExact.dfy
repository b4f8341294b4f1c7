/** What malloc, free and realloc do in plain numbers: how much is handed out, mapped, kept and given back. */
module ArenaExact {
  import opened Arithmetic
  import opened Options
  import opened ArenaModel
  import opened ArenaRuns

  // ---------------------------------------------------------------- free

  /** Where the free memory around block `i` starts and ends once the block is free. */
  ghost function SpanStart(bs: seq<Block>, i: nat): int
    requires i < |bs|
  {
    if i > 0 && !bs[i - 1].used && bs[i - 1].addr + bs[i - 1].size == bs[i].addr then bs[i - 1].addr else bs[i].addr
  }

  ghost function SpanEnd(bs: seq<Block>, i: nat): int
    requires i < |bs|
  {
    var end := bs[i].addr + bs[i].size;
    if i + 1 < |bs| && !bs[i + 1].used && end == bs[i + 1].addr then end + bs[i + 1].size else end
  }

  lemma MergedSpan(s: Arena, ptr: int)
    requires Inv(s) && IsLive(s, ptr)
    ensures var i := LiveIndex(s, ptr);
      Merged(s, ptr).addr == SpanStart(s.blocks, i) && Merged(s, ptr).End() == SpanEnd(s.blocks, i)
  {
    hide Settle, Absorb, Sized, Ordered, FreesExact, CoalescedBut;
    var i := LiveIndex(s, ptr);
    SettleShaped(s, i);
    SettledBlock(s.blocks, s.frees, i);
    AbsorbedBlock(Settle(s, i), SettledIndex(s.blocks, i));
  }

  lemma SettledBlock(bs: seq<Block>, frees: seq<int>, i: nat)
    requires i < |bs|
    ensures var t, j := Settle(Arena(bs, frees), i).blocks, SettledIndex(bs, i);
      && j < |t| && t[j].addr == SpanStart(bs, i) && t[j].End() == bs[i].End() && |t| - j == |bs| - i
      && (i + 1 < |bs| ==> t[j + 1] == bs[i + 1])
  {
  }

  lemma AbsorbedBlock(t: Arena, j: nat)
    requires j < |t.blocks| && FreesExact(t)
    ensures var bs := t.blocks; j < |Absorb(t, j).blocks| && Absorb(t, j).blocks[j].addr == bs[j].addr
    ensures Absorb(t, j).blocks[j].End() == SpanEnd(t.blocks, j)
  {
  }

  /** What stays mapped at an end that lies `x` bytes off a page boundary: nothing shorter than 64 bytes. */
  function Kept(x: int, page: int): int { if 0 < x < 64 then x + page else x }

  /** free gives back the pages in the middle of the coalesced block, exactly if they are at least 65536 bytes: that
      many bytes leave the heap, and no block is left there. */
  lemma FreeReturns(s: Arena, ptr: int, page: int)
    requires Inv(s) && PageOk(page) && IsLive(s, ptr)
    ensures var i := LiveIndex(s, ptr); var lo, hi := SpanStart(s.blocks, i), SpanEnd(s.blocks, i);
      var from, to := lo + Kept((-lo) % page, page), hi - Kept(hi % page, page);
      var t := Free(s, ptr, page);
      && Total(s.blocks) - Total(t.blocks) == (if to - from >= 65536 then to - from else 0)
      && (to - from >= 65536 ==> forall b :: b in t.blocks ==> b.End() <= from || to <= b.addr)
      && (to - from < 65536 ==> exists b :: b in t.blocks && !b.used && b.addr == lo && b.End() == hi)
  {
    var i, b := LiveIndex(s, ptr), Merged(s, ptr);
    FreeTally(s, ptr, page);
    MergedSpan(s, ptr);
    TrimmedAway(s, ptr, page);
  }

  lemma TrimmedAway(s: Arena, ptr: int, page: int)
    requires Inv(s) && PageOk(page) && IsLive(s, ptr)
    ensures var b, t := Merged(s, ptr), Free(s, ptr, page); var h, e := HeadPortion(b, page), TailPortion(b, page);
      && (b.size >= h + e + CHUNK ==> forall c :: c in t.blocks ==> c.End() <= b.addr + h || b.End() - e <= c.addr)
      && (b.size < h + e + CHUNK ==> b in t.blocks && !b.used)
  {
    var i := LiveIndex(s, ptr);
    FreeBlockIndex(s, i);
    var f, j := FreeBlock(s, i), SettledIndex(s.blocks, i);
    var b := f.blocks[j];
    ReturnedRange(b, page);
    hide HeadPortion, TailPortion, FreeBlock;
    var h, e := HeadPortion(b, page), TailPortion(b, page);
    if b.size >= h + e + CHUNK {
      CutOut(f.blocks, j, h, e);
    }
  }

  lemma CutOut(bs: seq<Block>, j: nat, h: int, e: int)
    requires Solid(bs) && j < |bs| && h >= 0 && e >= 0 && bs[j].size >= h + e
    ensures var b := bs[j];
      forall c :: c in bs[..j] + Remnant(b, h, e) + bs[j + 1..] ==> c.End() <= b.addr + h || b.End() - e <= c.addr
  {
    var b := bs[j];
    forall c | c in bs[..j] + Remnant(b, h, e) + bs[j + 1..] ensures c.End() <= b.addr + h || b.End() - e <= c.addr {
      if c in bs[..j] {
        var k :| 0 <= k < j && bs[k] == c;
        assert bs[k].End() <= bs[j].addr;
      } else if c in bs[j + 1..] {
        var k :| 0 <= k < |bs| - j - 1 && bs[j + 1..][k] == c;
        assert bs[j].End() <= bs[j + 1 + k].addr;
      }
    }
  }

  // ---------------------------------------------------------------- malloc

  /** `need` is the request with its header, rounded up to 32 bytes. */
  predicate Rounded(size: nat, need: int) { need % 32 == 0 && size + 32 <= need < size + 64 }

  lemma RoundedIs(size: nat, need: int)
    requires Rounded(size, need)
    ensures need == Needed(size)
  {
    NeededFacts(size);
  }

  /** The block at place `k` of the free chain. */
  ghost predicate ListedBlock(s: Arena, k: nat, b: Block) {
    k < |s.frees| && b in s.blocks && b.addr == s.frees[k] && !b.used
  }

  /** malloc from the free chain: the first block of the chain that is large enough, whole or, if 64 bytes are left
      over, its first `need` bytes; nothing is mapped. */
  lemma MallocFromChain(s: Arena, size: nat, need: int, page: int, answer: Option<int>, k: nat, b: Block)
    requires Inv(s) && PageOk(page) && size > 0 && Rounded(size, need)
    requires answer.Some? ==> KernelGives(s, page, answer.value, ChunkFor(Needed(size)))
    requires ListedBlock(s, k, b) && b.size >= need
    requires forall j: nat, c :: j < k && ListedBlock(s, j, c) ==> c.size < need
    ensures var (t, r) := Malloc(s, size, page, answer);
      && r == Some(b.addr + 32) && Total(t.blocks) == Total(s.blocks)
      && Used(t.blocks) == Used(s.blocks) + {Block(b.addr, if b.size >= need + 64 then need else b.size, true)}
  {
    hide Carve, FirstFit, ListedBlock, Used, Total;
    RoundedIs(size, need);
    FitAt(s, need, k, b);
    CarveTally(s, BlockOf(s, k), k, need);
  }

  lemma FitAt(s: Arena, need: int, k: nat, b: Block)
    requires Inv(s) && ListedBlock(s, k, b) && b.size >= need
    requires forall j: nat, c :: j < k && ListedBlock(s, j, c) ==> c.size < need
    ensures FirstFit(s, need, 0) == Some(k) && s.blocks[BlockOf(s, k)] == b && b.addr == s.frees[k]
  {
    hide FirstFit;
    ChainAt(s, k, b);
    assert SizeOf(s, k) >= need;
    forall j: nat | j < k ensures SizeOf(s, j) < need {
      assert ListedBlock(s, j, s.blocks[BlockOf(s, j)]);
    }
  }

  lemma ChainAt(s: Arena, k: nat, b: Block)
    requires Inv(s) && ListedBlock(s, k, b)
    ensures s.blocks[BlockOf(s, k)] == b
  {
    var i :| 0 <= i < |s.blocks| && s.blocks[i] == b;
    var j := BlockOf(s, k);
    assert s.blocks[j].addr == b.addr;
  }

  /** malloc with nothing large enough in the chain: the least multiple of 65536 bytes that holds the block is asked of
      the kernel and added to the heap, or there is no block. */
  lemma MallocFromKernel(s: Arena, size: nat, need: int, page: int, answer: Option<int>)
    requires Inv(s) && PageOk(page) && size > 0 && Rounded(size, need)
    requires answer.Some? ==> KernelGives(s, page, answer.value, ChunkFor(Needed(size)))
    requires forall j: nat, c :: ListedBlock(s, j, c) ==> c.size < need
    ensures var (t, r) := Malloc(s, size, page, answer);
      && (r.None? <==> answer.None?)
      && (answer.Some? ==>
            var more := Total(t.blocks) - Total(s.blocks); more % 65536 == 0 && need <= more < need + 65536)
  {
    RoundedIs(size, need);
    forall j: nat | j < |s.frees| ensures SizeOf(s, j) < need {
      assert ListedBlock(s, j, s.blocks[BlockOf(s, j)]);
    }
    hide Malloc, Total;
    var n := MallocTally(s, size, page, answer);
    ChunkFacts(need);
  }

  // ---------------------------------------------------------------- free, then malloc

  /** A block that does not join a free block in front of it, and of which nothing is given back, is handed out again by
      the next malloc that it is large enough for, whatever else is free (the invariant required holds, by FreeInv). */
  lemma Reused(s: Arena, ptr: int, page: int, size: nat, need: int, answer: Option<int>)
    requires Inv(s) && PageOk(page) && IsLive(s, ptr) && size > 0 && Rounded(size, need)
    requires var t := Free(s, ptr, page); Inv(t) && Total(t.blocks) == Total(s.blocks)
    requires answer.Some? ==> KernelGives(Free(s, ptr, page), page, answer.value, ChunkFor(Needed(size)))
    requires var i := LiveIndex(s, ptr); SpanStart(s.blocks, i) == ptr - 32 && need <= SpanEnd(s.blocks, i) - (ptr - 32)
    ensures Malloc(Free(s, ptr, page), size, page, answer).1 == Some(ptr)
  {
    hide Free, Malloc, Total, FreesExact, Sized, Ordered, CoalescedBut;
    var i, t := LiveIndex(s, ptr), Free(s, ptr, page);
    FreeReturns(s, ptr, page);
    InFront(s, ptr, page);
    var b :| b in t.blocks && !b.used && b.addr == ptr - 32 && b.End() == SpanEnd(s.blocks, i);
    assert ListedBlock(t, 0, b);
    MallocFromChain(t, size, need, page, answer, 0, b);
  }

  lemma InFront(s: Arena, ptr: int, page: int)
    requires Inv(s) && PageOk(page) && IsLive(s, ptr) && Total(Free(s, ptr, page).blocks) == Total(s.blocks)
    requires SpanStart(s.blocks, LiveIndex(s, ptr)) == ptr - 32
    ensures var t := Free(s, ptr, page); t.frees != [] && t.frees[0] == ptr - 32
  {
    hide Total;
    var i := LiveIndex(s, ptr);
    FreeTally(s, ptr, page);
    SettledInFront(s, i);
  }

  lemma SettledInFront(s: Arena, i: nat)
    requires Shaped(s) && i < |s.blocks| && s.blocks[i].used && SpanStart(s.blocks, i) == s.blocks[i].addr
    ensures var f := FreeBlock(s, i); f.frees != [] && f.frees[0] == s.blocks[i].addr
  {
    SettleShaped(s, i);
  }

  // ---------------------------------------------------------------- realloc

  /** realloc returns the pointer it was given exactly if the block is large enough and at most four times too large. */
  lemma ResizeStays(r: Run, ptr: int, size: nat, need: int, answer: Option<int>, page: int)
    requires PageOk(page) && RunInv(r, page) && Legal(r, Resize(ptr, size, answer), page) && Rounded(size, need)
    ensures var have := r.arena.blocks[LiveIndex(r.arena, ptr)].size;
      Answer(r, Resize(ptr, size, answer), page) == Some(ptr) <==> need <= have && have / 4 <= need
  {
    hide Malloc, Inv;
    RoundedIs(size, need);
    if !Stays(r.arena, ptr, size) {
      MoveKeeps(r, ptr, size, answer, page);
    }
  }
}
