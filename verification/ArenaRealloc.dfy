/** realloc_impl_orig over the arena of ArenaHeap. */
module ArenaRealloc {
  import opened Collections
  import opened Options
  import opened ArenaModel
  import opened ArenaMemory
  import opened ArenaRefinement
  import opened ArenaRuns
  import opened ArenaHeap

  /** realloc returns a pointer or NULL, or faults by copying to NULL. */
  datatype Outcome = Done(ptr: Option<int>) | Fault

  /** What realloc asks of malloc. */
  function Request(ptr: Option<int>, size: nat): nat {
    if ptr.None? then size else Needed(size)
  }

  // ---------------------------------------------------------------- writing into a payload

  /** The memories differ only inside the payload of block `b`. */
  ghost predicate OnlyPayload(m: Memory, m': Memory, b: Block) {
    m'.Keys == m.Keys && forall x :: x in m && !Payload(b, x) ==> m'[x] == m[x]
  }

  lemma PayloadWritten(m: Memory, m': Memory, head: int, s: Arena, b: Block)
    requires Good(m, head, s) && b in Used(s.blocks) && OnlyPayload(m, m', b)
    ensures Good(m', head, s)
    ensures PayloadSame(m, m', Used(s.blocks) - {b})
  {
    var i :| 0 <= i < |s.blocks| && s.blocks[i] == b;
    NodesSpread(head, s.blocks);
    FreesAreNodes(head, s);
    NodesMapped(m, head, s.blocks);
    UsedNotFree(s, b);
    UsedNotHead(s, head, b);
    HeadersUntouched(m, m', head, s, b);
    LinksUntouched(m, m', head, s, b);
    forall y | y in Addrs(s.blocks) ensures y in Elements(Addrs(s.blocks)) {}
    RingSame(Blocks, m, m', head, Addrs(s.blocks));
    forall y | y in s.frees ensures y in Elements(s.frees) {}
    RingSame(Frees, m, m', head, s.frees);
    ClaimsAreNodes(head, s.blocks, Members(s.blocks));
    MapsSame(m, m', head, s.blocks, s.blocks);
    OtherPayloads(m, m', head, s, b);
  }

  lemma HeadersUntouched(m: Memory, m': Memory, head: int, s: Arena, b: Block)
    requires Solid(s.blocks) && Clear(s.blocks, head, 2 * HEADER) && Maps(m, head, s.blocks) && b in s.blocks
    requires OnlyPayload(m, m', b)
    requires b.addr != head
    ensures forall a :: a in NodeSet(head, s.blocks) ==> At(m', a) == At(m, a)
  {
    NodesMapped(m, head, s.blocks);
    forall a | a in NodeSet(head, s.blocks) ensures At(m', a) == At(m, a) {
      if Payload(b, a) {
        PayloadApart(head, s.blocks, b, a, {});
      }
      assert a in m && a in m'.Keys && m'[a] == m[a];
    }
  }

  lemma LinksUntouched(m: Memory, m': Memory, head: int, s: Arena, b: Block)
    requires Solid(s.blocks) && Clear(s.blocks, head, 2 * HEADER) && Maps(m, head, s.blocks) && b in s.blocks
    requires OnlyPayload(m, m', b)
    requires b.addr != head && b.addr !in Elements(s.frees) && Elements(s.frees) <= NodeSet(head, s.blocks)
    ensures forall y :: y in {head} + Elements(s.frees) ==> At(m', y + HEADER) == At(m, y + HEADER)
  {
    NodesMapped(m, head, s.blocks);
    forall y | y in {head} + Elements(s.frees) ensures At(m', y + HEADER) == At(m, y + HEADER) {
      if Payload(b, y + HEADER) {
        PayloadApart(head, s.blocks, b, y + HEADER, {head} + Elements(s.frees));
      }
      assert y in NodeSet(head, s.blocks);
      assert y + HEADER in m && y + HEADER in m'.Keys && m'[y + HEADER] == m[y + HEADER];
    }
  }

  lemma OtherPayloads(m: Memory, m': Memory, head: int, s: Arena, b: Block)
    requires Good(m, head, s) && b in s.blocks && OnlyPayload(m, m', b)
    ensures PayloadSame(m, m', Used(s.blocks) - {b})
  {
    NothingWritten(m, head, s);
    forall c, x | c in Used(s.blocks) - {b} && Payload(c, x) ensures x in m && x in m' && m'[x] == m[x] {
      var i :| 0 <= i < |s.blocks| && s.blocks[i] == b;
      var j :| 0 <= j < |s.blocks| && s.blocks[j] == c;
      assert i < j ==> s.blocks[i].End() <= s.blocks[j].addr;
      assert j < i ==> s.blocks[j].End() <= s.blocks[i].addr;
      assert x in m && x in m'.Keys;
    }
  }

  // ---------------------------------------------------------------- realloc.c

  /** The cells of a range of `n` bytes at `p`. */
  ghost predicate Ranges(p: int, n: int, m: Memory) {
    forall c :: 0 <= c < n && Aligned(c) ==> p + c in m
  }

  ghost predicate CopiedTo(m: Memory, m': Memory, src: int, dst: int, n: int) {
    Ranges(src, n, m) && Ranges(dst, n, m') && forall c :: 0 <= c < n && Aligned(c) ==> m'[dst + c] == m[src + c]
  }

  /** memcpy, cell by cell, into the payload of block `b`. */
  method CopyCells(h: Heap, dst: int, src: int, n: int, ghost b: Block)
    requires n >= 0 && Aligned(n) && Ranges(src, n, h.mem) && Ranges(dst, n, h.mem)
    requires forall c :: 0 <= c < n && Aligned(c) ==> Payload(b, dst + c)
    requires dst + n <= src || src + n <= dst
    modifies h`mem
    ensures OnlyPayload(old(h.mem), h.mem, b) && CopiedTo(old(h.mem), h.mem, src, dst, n)
  {
    var i := 0;
    NothingCopied(h.mem, src, dst);
    hide CopiedTo, Aligned;
    while i < n
      invariant 0 <= i <= n && Aligned(i)
      invariant OnlyPayload(old(h.mem), h.mem, b) && CopiedTo(old(h.mem), h.mem, src, dst, i)
      invariant forall c :: 0 <= c < n && Aligned(c) ==> src + c in h.mem && h.mem[src + c] == old(h.mem)[src + c]
    {
      ghost var m := h.mem;
      AlignedBelow(i, n);
      h.mem := h.mem[dst + i := h.mem[src + i]];
      CellCopied(old(h.mem), m, h.mem, src, dst, i);
      i := i + 32;
    }
  }

  lemma NothingCopied(m: Memory, src: int, dst: int)
    ensures CopiedTo(m, m, src, dst, 0) && Aligned(0)
  {
  }

  lemma AlignedBelow(i: int, n: int)
    requires Aligned(i) && Aligned(n) && i < n
    ensures i + 32 <= n
  {
  }

  /** One more cell. */
  lemma CellCopied(m0: Memory, m: Memory, m': Memory, src: int, dst: int, i: int)
    requires 0 <= i && Aligned(i) && CopiedTo(m0, m, src, dst, i) && src + i in m0 && m' == m[dst + i := m0[src + i]]
    ensures Aligned(i + 32) && CopiedTo(m0, m', src, dst, i + 32)
  {
    AlignedArithmetic(i, 32);
    forall c | 0 <= c < i + 32 && Aligned(c) ensures src + c in m0 && dst + c in m' && m'[dst + c] == m0[src + c] {
      if c >= i {
        NextAligned(i, c);
      }
    }
  }

  lemma NextAligned(i: int, c: int)
    requires Aligned(i) && Aligned(c) && i <= c < i + 32
    ensures c == i
  {
  }

  lemma PayloadRange(m: Memory, head: int, s: Arena, b: Block, n: int)
    requires Maps(m, head, s.blocks) && Sized(s.blocks) && b in s.blocks && n <= b.size - HEADER
    ensures Ranges(b.addr + HEADER, n, m)
    ensures forall c :: 0 <= c < n && Aligned(c) ==> Payload(b, b.addr + HEADER + c)
  {
    var i :| 0 <= i < |s.blocks| && s.blocks[i] == b;
    assert Aligned(s.blocks[i].addr);
    AlignedArithmetic(b.addr, 32);
    forall c | 0 <= c < n && Aligned(c) ensures b.addr + HEADER + c in m && Payload(b, b.addr + HEADER + c) {
      AlignedArithmetic(b.addr + 32, c);
      OwnsByOne(s.blocks, |s.blocks|, b.addr + HEADER + c);
      assert Within(s.blocks[i], b.addr + HEADER + c);
    }
  }

  /** Two live blocks of an arena do not overlap. */
  lemma LiveApart(s: Arena, b: Block, c: Block)
    requires Solid(s.blocks) && b in s.blocks && c in s.blocks && b.addr != c.addr
    ensures b.End() <= c.addr || c.End() <= b.addr
  {
    var i :| 0 <= i < |s.blocks| && s.blocks[i] == b;
    var j :| 0 <= j < |s.blocks| && s.blocks[j] == c;
    assert i < j ==> s.blocks[i].End() <= s.blocks[j].addr;
    assert j < i ==> s.blocks[j].End() <= s.blocks[i].addr;
  }

  function Min(a: int, b: int): int { if a < b then a else b }

  lemma UsedAt(s: Arena, ptr: int, b: Block)
    requires Solid(s.blocks)
    ensures b in Used(s.blocks) && b.addr == ptr - HEADER ==> IsLive(s, ptr) && s.blocks[LiveIndex(s, ptr)] == b
    ensures IsLive(s, ptr) && s.blocks[LiveIndex(s, ptr)] == b ==> b in Used(s.blocks)
  {
    if b in Used(s.blocks) && b.addr == ptr - HEADER {
      var i :| 0 <= i < |s.blocks| && s.blocks[i] == b;
      assert IsLive(s, ptr);
      OneBlockPerAddress(s.blocks, b);
      assert s.blocks[LiveIndex(s, ptr)] in Used(s.blocks);
    }
  }

  /** The ranges that memcpy reads and writes are mapped, disjoint, and inside the two payloads. */
  lemma CopyReady(m: Memory, head: int, t: Arena, b: Block, q: Block, ptr: int, newptr: int, n: int)
    requires Good(m, head, t) && b in Used(t.blocks) && q in Used(t.blocks) && b.addr != q.addr
    requires ptr == b.addr + HEADER && newptr == q.addr + HEADER && 0 <= n <= b.size - HEADER && n <= q.size - HEADER
    ensures Ranges(ptr, n, m) && Ranges(newptr, n, m) && (ptr + n <= newptr || newptr + n <= ptr)
    ensures forall c :: 0 <= c < n && Aligned(c) ==> Payload(q, newptr + c)
  {
    PayloadRange(m, head, t, b, n);
    PayloadRange(m, head, t, q, n);
    LiveApart(t, b, q);
  }

  /** What was copied is still there when another block changed. */
  lemma CopyKept(m1: Memory, m2: Memory, m3: Memory, q: Block, src: int, dst: int, n: int, bs: set<Block>)
    requires CopiedTo(m1, m2, src, dst, n) && PayloadSame(m2, m3, bs) && q in bs
    requires forall c :: 0 <= c < n && Aligned(c) ==> Payload(q, dst + c)
    ensures CopiedTo(m1, m3, src, dst, n)
  {
    forall c | 0 <= c < n && Aligned(c) ensures dst + c in m3 && m3[dst + c] == m1[src + c] {
      assert Payload(q, dst + c);
    }
  }

  /** Copying from a payload that had not changed since is copying from the older memory. */
  lemma CopyFromKept(m0: Memory, m1: Memory, m3: Memory, b: Block, src: int, dst: int, n: int, bs: set<Block>)
    requires CopiedTo(m1, m3, src, dst, n) && PayloadSame(m0, m1, bs) && b in bs
    requires forall c :: 0 <= c < n && Aligned(c) ==> Payload(b, src + c)
    ensures CopiedTo(m0, m3, src, dst, n)
  {
    forall c | 0 <= c < n && Aligned(c) ensures src + c in m0 && m1[src + c] == m0[src + c] {
      assert Payload(b, src + c);
    }
  }

  /** Line 46. */
  method Fill(h: Heap, ptr: int, newptr: int, n: int, ghost b: Block, ghost q: Block)
    requires h.Valid() && b in Used(h.arena.blocks) && q in Used(h.arena.blocks) && b.addr != q.addr
    requires ptr == b.addr + HEADER && newptr == q.addr + HEADER && Aligned(n) && 0 <= n <= b.size - HEADER
    requires n <= q.size - HEADER
    modifies h`mem
    ensures h.Valid() && CopiedTo(old(h.mem), h.mem, ptr, newptr, n)
    ensures forall c :: 0 <= c < n && Aligned(c) ==> Payload(q, newptr + c)
    ensures PayloadSame(old(h.mem), h.mem, Used(h.arena.blocks) - {q})
  {
    ghost var m1 := h.mem;
    CopyReady(m1, h.head, h.arena, b, q, ptr, newptr, n);
    CopyCells(h, newptr, ptr, n, q);
    PayloadWritten(m1, h.mem, h.head, h.arena, q);
  }

  /** Lines 46-47: the contents go to the new block and the old block is freed. */
  method CopyAndFree(h: Heap, ptr: int, newptr: int, n: int, ghost b: Block, ghost q: Block)
    requires h.Valid() && b in Used(h.arena.blocks) && q in Used(h.arena.blocks) && b.addr != q.addr
    requires ptr == b.addr + HEADER && newptr == q.addr + HEADER && Aligned(n) && 0 <= n <= b.size - HEADER
    requires n <= q.size - HEADER
    modifies h
    ensures h.Valid() && Used(h.arena.blocks) == Used(old(h.arena).blocks) - {b}
    ensures IsLive(old(h.arena), ptr) && h.arena == ArenaModel.Free(old(h.arena), ptr, h.page)
    ensures CopiedTo(old(h.mem), h.mem, ptr, newptr, n)
    ensures PayloadSame(old(h.mem), h.mem, Used(old(h.arena).blocks) - {b, q})
  {
    ghost var m1, t := h.mem, h.arena;
    Fill(h, ptr, newptr, n, b, q);
    ghost var m2 := h.mem;
    UsedAt(t, ptr, b);
    h.Free(Some(ptr));
    FreeTally(t, ptr, h.page);
    CopyKept(m1, m2, h.mem, q, ptr, newptr, n, Used(t.blocks) - {b});
    PayloadTrans(m1, m2, h.mem, Used(t.blocks) - {q}, Used(t.blocks) - {b}, Used(t.blocks) - {b, q});
  }

  lemma MinAligned(a: int, b: int)
    requires Aligned(a) && Aligned(b)
    ensures Aligned(Min(a, b))
  {
  }

  lemma OldSizeAligned(s: Arena, b: Block)
    requires Sized(s.blocks) && b in s.blocks
    ensures Aligned(b.size - HEADER) && b.size >= 2 * HEADER
  {
    var i :| 0 <= i < |s.blocks| && s.blocks[i] == b;
    assert Aligned(s.blocks[i].size);
    AlignedArithmetic(b.size, 32);
  }

  /** Lines 43-49: a new block, the old contents, and the old block freed. */
  method Move(h: Heap, ptr: int, need: nat, answer: Option<int>, ghost b: Block) returns (r: Outcome)
    requires h.Valid() && b in Used(h.arena.blocks) && ptr == b.addr + HEADER && need > 0 && Aligned(need)
    requires answer.Some? ==> KernelGives(h.arena, h.page, answer.value, ChunkFor(Needed(need)))
    requires answer.Some? ==> Clear([Block(answer.value, ChunkFor(Needed(need)), true)], h.head, 2 * HEADER)
    modifies h
    ensures h.Valid()
    ensures r.Fault? <==> FirstFit(old(h.arena), Needed(need), 0).None? && answer.None?
    ensures r.Fault? ==> h.arena == old(h.arena)
    ensures r.Done? ==> var (t, p) := ArenaModel.Malloc(old(h.arena), need, h.page, answer);
      p == r.ptr && Inv(t) && IsLive(t, ptr) && h.arena == ArenaModel.Free(t, ptr, h.page)
    ensures r.Done? ==> r.ptr.Some? && IsLive(h.arena, r.ptr.value)
    ensures r.Done? ==> h.arena.blocks[LiveIndex(h.arena, r.ptr.value)].size >= need + HEADER
    ensures r.Done? ==> CopiedTo(old(h.mem), h.mem, ptr, r.ptr.value, Min(need, b.size - HEADER))
    ensures r.Done? ==> PayloadSame(old(h.mem), h.mem, Used(old(h.arena).blocks) - {b})
  {
    hide Good, Malloc, Free, PayloadSame, CopiedTo, FirstFit;
    ghost var m0, s := h.mem, h.arena;
    MoveReady(m0, h.head, s, ptr, need, b);
    var oldsize := LoadSize(h.mem, ptr - HEADER) - HEADER;
    var newptr, q := NewBlock(h, need, answer, b);
    if newptr.None? {
      return Fault;
    }
    ghost var m1, t := h.mem, h.arena;
    CopyAndFree(h, ptr, newptr.value, Min(need, oldsize), b, q);
    MoveDone(m0, m1, h.mem, s, t, h.arena, b, q, ptr, newptr.value, Min(need, oldsize));
    return Done(newptr);
  }

  /** Line 45. */
  method NewBlock(h: Heap, need: nat, answer: Option<int>, ghost b: Block) returns (newptr: Option<int>, ghost q: Block)
    requires h.Valid() && b in Used(h.arena.blocks) && need > 0
    requires answer.Some? ==> KernelGives(h.arena, h.page, answer.value, ChunkFor(Needed(need)))
    requires answer.Some? ==> Clear([Block(answer.value, ChunkFor(Needed(need)), true)], h.head, 2 * HEADER)
    modifies h
    ensures h.Valid() && PayloadSame(old(h.mem), h.mem, Used(old(h.arena).blocks))
    ensures (h.arena, newptr) == ArenaModel.Malloc(old(h.arena), need, h.page, answer)
    ensures newptr.None? <==> FirstFit(old(h.arena), Needed(need), 0).None? && answer.None?
    ensures newptr.None? ==> h.arena == old(h.arena)
    ensures newptr.Some? ==> newptr.value == q.addr + HEADER && q.size >= need + HEADER && q.addr != b.addr
    ensures newptr.Some? ==>
      q !in Used(old(h.arena).blocks) && q.used && Used(h.arena.blocks) == Used(old(h.arena).blocks) + {q}
  {
    ghost var n := MallocTally(h.arena, need, h.page, answer);
    newptr := h.Malloc(need, answer);
    q := if newptr.Some? then Block(newptr.value - HEADER, n, true) else b;
  }

  lemma HeaderMapped(m: Memory, head: int, s: Arena, i: nat)
    requires Good(m, head, s) && i < |s.blocks|
    ensures s.blocks[i].addr in m
  {
    SplitOne(s.blocks, i);
    BlockFacts(m, head, s, Members(s.blocks), s.blocks[..i], s.blocks[i], s.blocks[i + 1..]);
  }

  lemma MoveReady(m: Memory, head: int, s: Arena, ptr: int, need: int, b: Block)
    requires Good(m, head, s) && b in Used(s.blocks) && ptr == b.addr + HEADER && need > 0 && Aligned(need)
    ensures ptr - HEADER in m && Size(m, ptr - HEADER) == b.size && Aligned(Min(need, b.size - HEADER))
    ensures Min(need, b.size - HEADER) >= 0
    ensures forall c :: 0 <= c < Min(need, b.size - HEADER) && Aligned(c) ==> Payload(b, ptr + c)
  {
    UsedAt(s, ptr, b);
    HeaderFacts(m, head, s, LiveIndex(s, ptr));
    HeaderMapped(m, head, s, LiveIndex(s, ptr));
    OldSizeAligned(s, b);
    PayloadRange(m, head, s, b, Min(need, b.size - HEADER));
    MinAligned(need, b.size - HEADER);
  }

  lemma MoveDone(m0: Memory, m1: Memory, m3: Memory, s: Arena, t: Arena, f: Arena, b: Block, q: Block, ptr: int,
                 newptr: int, n: int)
    requires b in Used(s.blocks) && q.used && q.addr != b.addr && newptr == q.addr + HEADER
    requires Used(t.blocks) == Used(s.blocks) + {q} && Used(f.blocks) == Used(t.blocks) - {b} && Solid(f.blocks)
    requires PayloadSame(m0, m1, Used(s.blocks)) && CopiedTo(m1, m3, ptr, newptr, n)
    requires PayloadSame(m1, m3, Used(t.blocks) - {b, q})
    requires forall c :: c in Used(s.blocks) ==> c != q
    requires forall c :: 0 <= c < n && Aligned(c) ==> Payload(b, ptr + c)
    ensures IsLive(f, newptr) && f.blocks[LiveIndex(f, newptr)] == q
    ensures CopiedTo(m0, m3, ptr, newptr, n) && PayloadSame(m0, m3, Used(s.blocks) - {b})
  {
    UsedAt(f, newptr, q);
    CopyFromKept(m0, m1, m3, b, ptr, newptr, n, Used(s.blocks));
    PayloadTrans(m0, m1, m3, Used(s.blocks), Used(t.blocks) - {b, q}, Used(s.blocks) - {b});
  }

  /** A block that stays holds what it held. */
  lemma Unmoved(m: Memory, head: int, s: Arena, ptr: int, need: int)
    requires Good(m, head, s) && IsLive(s, ptr) && PayloadSame(m, m, Used(s.blocks))
    ensures var b := s.blocks[LiveIndex(s, ptr)]; CopiedTo(m, m, ptr, ptr, Min(need, b.size - HEADER))
    ensures PayloadSame(m, m, Used(s.blocks) - FreedBy(s, Some(ptr)))
  {
    var b := s.blocks[LiveIndex(s, ptr)];
    assert b in s.blocks;
    PayloadRange(m, head, s, b, Min(need, b.size - HEADER));
  }

  /** Lines 29-49: a size and a pointer that are not null. */
  method Resize(h: Heap, ptr: int, size: nat, answer: Option<int>) returns (r: Outcome)
    requires h.Valid() && IsLive(h.arena, ptr) && size > 0
    requires answer.Some? ==> KernelGives(h.arena, h.page, answer.value, ChunkFor(Needed(Needed(size))))
    requires answer.Some? ==> Clear([Block(answer.value, ChunkFor(Needed(Needed(size))), true)], h.head, 2 * HEADER)
    modifies h
    ensures h.Valid()
    ensures var b := old(h.arena.blocks[LiveIndex(h.arena, ptr)]);
      && (r.Fault? <==>
          !GoodSize(b.size, Needed(size)) && FirstFit(old(h.arena), Needed(Needed(size)), 0).None? && answer.None?)
      && (r.Fault? ==> h.arena == old(h.arena))
      && (GoodSize(b.size, Needed(size)) ==> r == Done(Some(ptr)) && h.arena == old(h.arena) && h.mem == old(h.mem))
      && (r.Done? && !GoodSize(b.size, Needed(size)) ==>
          var (t, p) := ArenaModel.Malloc(old(h.arena), Needed(size), h.page, answer);
          p == r.ptr && Inv(t) && IsLive(t, ptr) && h.arena == ArenaModel.Free(t, ptr, h.page))
      && (r.Done? ==> r.ptr.Some? && IsLive(h.arena, r.ptr.value))
      && (r.Done? ==> h.arena.blocks[LiveIndex(h.arena, r.ptr.value)].size >= size + HEADER)
      && (r.Done? ==> CopiedTo(old(h.mem), h.mem, ptr, r.ptr.value, Min(Needed(size), b.size - HEADER)))
    ensures r.Done? ==> PayloadSame(old(h.mem), h.mem, Used(old(h.arena).blocks) - FreedBy(old(h.arena), Some(ptr)))
  {
    hide Malloc, Free, PayloadSame, FirstFit, CopiedTo, KernelGives, Clear, ChunkFor;
    NeededFacts(size);
    var need := Needed(size);
    ghost var b := h.arena.blocks[LiveIndex(h.arena, ptr)];
    HeaderFacts(h.mem, h.head, h.arena, LiveIndex(h.arena, ptr));
    HeaderMapped(h.mem, h.head, h.arena, LiveIndex(h.arena, ptr));
    hide Good;
    var have := LoadSize(h.mem, ptr - HEADER);
    if GoodSize(have, need) {
      NothingWritten(h.mem, h.head, h.arena);
      Unmoved(h.mem, h.head, h.arena, ptr, need);
      return Done(Some(ptr));
    }
    UsedAt(h.arena, ptr, b);
    r := Move(h, ptr, need, answer, b);
  }

  /** realloc_impl_orig, lines 15-51. */
  method Realloc(h: Heap, ptr: Option<int>, size: nat, answer: Option<int>) returns (r: Outcome)
    requires h.Valid() && (ptr.Some? ==> IsLive(h.arena, ptr.value))
    requires answer.Some? ==> KernelGives(h.arena, h.page, answer.value, ChunkFor(Needed(Request(ptr, size))))
    requires answer.Some? ==>
      Clear([Block(answer.value, ChunkFor(Needed(Request(ptr, size))), true)], h.head, 2 * HEADER)
    modifies h
    ensures h.Valid()
    ensures ptr.None? ==>
      var (t, p) := ArenaModel.Malloc(old(h.arena), size, h.page, answer); h.arena == t && r == Done(p)
    ensures ptr.Some? && size == 0 ==> h.arena == ArenaModel.Free(old(h.arena), ptr.value, h.page) && r == Done(None)
    ensures ptr.Some? && size > 0 ==> var b := old(h.arena.blocks[LiveIndex(h.arena, ptr.value)]);
      && (r.Fault? <==>
          !GoodSize(b.size, Needed(size)) && FirstFit(old(h.arena), Needed(Needed(size)), 0).None? && answer.None?)
      && (r.Fault? ==> h.arena == old(h.arena))
      && (GoodSize(b.size, Needed(size)) ==> r == Done(ptr) && h.arena == old(h.arena) && h.mem == old(h.mem))
      && (r.Done? && !GoodSize(b.size, Needed(size)) ==>
          var (t, p) := ArenaModel.Malloc(old(h.arena), Needed(size), h.page, answer);
          p == r.ptr && Inv(t) && IsLive(t, ptr.value) && h.arena == ArenaModel.Free(t, ptr.value, h.page))
      && (r.Done? ==> r.ptr.Some? && IsLive(h.arena, r.ptr.value))
      && (r.Done? ==> h.arena.blocks[LiveIndex(h.arena, r.ptr.value)].size >= size + HEADER)
      && (r.Done? ==> CopiedTo(old(h.mem), h.mem, ptr.value, r.ptr.value, Min(Needed(size), b.size - HEADER)))
    ensures r.Done? ==> PayloadSame(old(h.mem), h.mem, Used(old(h.arena).blocks) - FreedBy(old(h.arena), ptr))
  {
    hide Good, Inv, Malloc, Free, PayloadSame, FirstFit, CopiedTo, KernelGives, Clear, ChunkFor, GoodSize;
    if ptr.None? {
      ghost var bs := Used(h.arena.blocks);
      assert bs - {} == bs;
      var p := h.Malloc(size, answer);
      return Done(p);
    }
    if size == 0 {
      h.Free(ptr);
      return Done(None);
    }
    r := Resize(h, ptr.value, size, answer);
  }

  // ---------------------------------------------------------------- the fault is reached

  lemma {:induction false} SizeWithin(bs: seq<Block>, n: nat, i: nat)
    requires Sized(bs) && i < n <= |bs|
    ensures bs[i].size <= Sum(bs, n)
    decreases n
  {
    SumPositive(bs, n - 1);
    if i < n - 1 {
      SizeWithin(bs, n - 1, i);
      assert bs[n - 1].size >= 0;
    }
  }

  lemma {:induction false} SumPositive(bs: seq<Block>, n: nat)
    requires Sized(bs) && n <= |bs|
    ensures Sum(bs, n) >= 0
  {
    if n > 0 {
      SumPositive(bs, n - 1);
      assert bs[n - 1].size >= 0;
    }
  }

  /** After malloc(1) in a chunk of its own, a realloc to a million bytes finds neither the block nor any other large
      enough. */
  lemma TooLarge(page: int, p: int)
    requires PageOk(page) && KernelGives(Arena([], []), page, p, ChunkFor(Needed(1)))
    ensures var (s, r) := ArenaModel.Malloc(Arena([], []), 1, page, Some(p));
      && Inv(s) && r.Some? && IsLive(s, r.value)
      && !GoodSize(s.blocks[LiveIndex(s, r.value)].size, Needed(1000000))
      && FirstFit(s, Needed(Needed(1000000)), 0).None?
  {
    hide Malloc;
    var e := Arena([], []);
    MallocInv(e, 1, page, Some(p));
    var n := MallocTally(e, 1, page, Some(p));
    var (s, r) := ArenaModel.Malloc(e, 1, page, Some(p));
    var b := Block(r.value - HEADER, n, true);
    assert b in Used(s.blocks);
    UsedAt(s, r.value, b);
    SizeWithin(s.blocks, |s.blocks|, LiveIndex(s, r.value));
    var fit := FirstFit(s, Needed(Needed(1000000)), 0);
    if fit.Some? {
      SizeWithin(s.blocks, |s.blocks|, BlockOf(s, fit.value));
    }
  }

  /** A client of two calls: malloc(1), then realloc to a million bytes when the system has no more memory. */
  method FaultReached(head: int, page: int, p: int) returns (r: Outcome)
    requires PageOk(page) && KernelGives(Arena([], []), page, p, ChunkFor(Needed(1)))
    requires Clear([Block(p, ChunkFor(Needed(1)), true)], head, 2 * HEADER)
    ensures r == Fault
  {
    hide Malloc, Free, IsLive;
    var h := new Heap(head, page);
    TooLarge(page, p);
    var ptr := h.Malloc(1, Some(p));
    r := Realloc(h, ptr, 1000000, None);
  }
}
