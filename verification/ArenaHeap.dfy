/** malloc.c itself: the heap as an object whose methods perform the loads and stores of the C
    code, one by one.  Each method is proved against ArenaModel: memory represents the arena
    that the model computes, and no live payload has changed.  The lemmas after the class are
    the steps of those proofs: what a method relies on before its first store (Ready), what it
    still sees in between (LinksSeen), and what holds after its last store (Done). */
module ArenaHeap {
  import opened Collections
  import opened Options
  import opened ArenaModel
  import opened ArenaMemory
  import opened ArenaRefinement
  import opened ArenaRuns

  // ---------------------------------------------------------------- the stores

  lemma LinkWrites(c: Chain, m: Memory, a: int, v: int, b: int, w: int)
    ensures LinksOnly(c, m, SetPrev(c, SetNext(c, m, a, v), b, w), {LinkCell(c, a), LinkCell(c, b)})
  {
  }

  lemma LinksOnlyTrans(c: Chain, m: Memory, m1: Memory, m2: Memory, xs: set<int>, ys: set<int>, zs: set<int>)
    requires LinksOnly(c, m, m1, xs) && LinksOnly(c, m1, m2, ys) && zs == xs + ys
    ensures LinksOnly(c, m, m2, zs)
  {
  }

  /** The four stores that put `x` between `p` and `n`. */
  lemma LinkedIn(c: Chain, m: Memory, p: int, x: int, n: int)
    requires x != p && x != n
    ensures Linking(c, m, SetPrev(c, SetNext(c, SetPrev(c, SetNext(c, m, x, n), x, p), p, x), n, x), p, x, n)
  {
    hide LinksOnly;
    var m1 := SetPrev(c, SetNext(c, m, x, n), x, p);
    var m2 := SetPrev(c, SetNext(c, m1, p, x), n, x);
    LinkWrites(c, m, x, n, x, p);
    LinkWrites(c, m1, p, x, n, x);
    LinksOnlyTrans(c, m, m1, m2, {LinkCell(c, x)}, {LinkCell(c, p), LinkCell(c, n)},
                   {LinkCell(c, p), LinkCell(c, x), LinkCell(c, n)});
    LinksStored(c, m, x, n, x, p);
    LinksStored(c, m1, p, x, n, x);
    hide SetNext, SetPrev, Next, Prev, LinkCell;
  }

  /** A store into `a`'s successor and one into `b`'s predecessor. */
  lemma LinksStored(c: Chain, m: Memory, a: int, v: int, b: int, w: int)
    ensures var m' := SetPrev(c, SetNext(c, m, a, v), b, w);
      && Next(c, m', a) == v && Prev(c, m', b) == w
      && (forall y :: y != a ==> Next(c, m', y) == Next(c, m, y))
      && (forall y :: y != b ==> Prev(c, m', y) == Prev(c, m, y))
  {
  }

  // ---------------------------------------------------------------- payloads

  predicate Payload(b: Block, x: int) { b.addr + HEADER <= x < b.End() && Aligned(x) }

  /** The payloads of these blocks are mapped and hold what they held. */
  ghost predicate PayloadSame(m: Memory, m': Memory, bs: set<Block>) {
    forall b, x :: b in bs && Payload(b, x) ==> x in m && x in m' && m'[x] == m[x]
  }

  lemma PayloadTrans(m0: Memory, m1: Memory, m2: Memory, xs: set<Block>, ys: set<Block>, zs: set<Block>)
    requires PayloadSame(m0, m1, xs) && PayloadSame(m1, m2, ys) && zs <= xs && zs <= ys
    ensures PayloadSame(m0, m2, zs)
  {
  }

  /** A payload cell is no header, and no link cell of a free block. */
  lemma PayloadApart(head: int, u: seq<Block>, b: Block, x: int, freeNodes: set<int>)
    requires Solid(u) && Clear(u, head, 2 * HEADER) && b in u && Payload(b, x)
    requires freeNodes <= NodeSet(head, u) && b.addr !in freeNodes
    ensures x !in NodeSet(head, u) && x - HEADER !in freeNodes
  {
    var i :| 0 <= i < |u| && u[i] == b;
    assert Clear(u, head, 2 * HEADER) && (u[i].End() <= head || head + 2 * HEADER <= u[i].addr);
    forall y | y in NodeSet(head, u) ensures y <= b.addr || b.End() <= y {
      if y != head {
        var j := IndexOf(Addrs(u), y);
        assert u[j].addr == y;
        assert j < i ==> u[j].End() <= u[i].addr;
        assert i < j ==> u[i].End() <= u[j].addr;
      }
    }
    assert x - HEADER != b.addr ==> x - HEADER !in NodeSet(head, u);
  }

  lemma KeptPayloads(m: Memory, m': Memory, head: int, u: seq<Block>, freeNodes: set<int>, bs: set<Block>)
    requires Solid(u) && Clear(u, head, 2 * HEADER) && Maps(m, head, u)
    requires freeNodes <= NodeSet(head, u) && Kept(m, m', NodeSet(head, u), freeNodes)
    requires forall b :: b in bs ==> b in u && b.addr !in freeNodes
    ensures PayloadSame(m, m', bs)
  {
    forall b, x | b in bs && Payload(b, x) ensures x in m && x in m' && m'[x] == m[x] {
      PayloadApart(head, u, b, x, freeNodes);
      var i :| 0 <= i < |u| && u[i] == b;
      OwnsByOne(u, |u|, x);
      assert Within(u[i], x);
      assert x in m'.Keys;
      assert m'[x] == m[x];
    }
  }

  lemma UsedNotFree(s: Arena, b: Block)
    requires Shaped(s) && b in Used(s.blocks)
    ensures b.addr !in Elements(s.frees)
  {
    var i :| 0 <= i < |s.blocks| && s.blocks[i] == b;
    InFreeAddrs(s.blocks, |s.blocks|, b.addr);
    forall j | 0 <= j < |s.blocks| && j != i ensures s.blocks[j].addr != b.addr {
      assert j < i ==> s.blocks[j].End() <= s.blocks[i].addr;
      assert i < j ==> s.blocks[i].End() <= s.blocks[j].addr;
    }
  }

  lemma UsedNotHead(s: Arena, head: int, b: Block)
    requires Shaped(s) && Clear(s.blocks, head, 2 * HEADER) && b in Used(s.blocks)
    ensures b.addr != head
  {
    var i :| 0 <= i < |s.blocks| && s.blocks[i] == b;
  }

  lemma OpPayloads(m: Memory, m': Memory, head: int, u: Arena, s: Arena, t: Arena, freeNodes: set<int>, bs: set<Block>)
    requires Shaped(u) && Shaped(s) && Shaped(t) && Clear(u.blocks, head, 2 * HEADER) && Maps(m, head, u.blocks)
    requires freeNodes == {head} + Elements(s.frees) + Elements(t.frees) && freeNodes <= NodeSet(head, u.blocks)
    requires Kept(m, m', NodeSet(head, u.blocks), freeNodes)
    requires bs <= Used(u.blocks) && bs <= Used(s.blocks) && bs <= Used(t.blocks)
    ensures PayloadSame(m, m', bs)
  {
    forall b | b in bs ensures b in u.blocks && b.addr !in freeNodes {
      UsedNotFree(s, b);
      UsedNotFree(t, b);
      UsedNotHead(u, head, b);
    }
    KeptPayloads(m, m', head, u.blocks, freeNodes, bs);
  }

  // ---------------------------------------------------------------- what a node's neighbourhood looks like

  /** Nodes of the chains, and so the ends of any stretch of them, are mapped. */
  lemma EndsMapped(m: Memory, head: int, s: Arena, ds: seq<int>)
    requires Shaped(s) && Clear(s.blocks, head, 2 * HEADER) && Maps(m, head, s.blocks)
    requires Elements(ds) <= NodeSet(head, s.blocks)
    ensures Last(head, ds) in m && Last(head, ds) + HEADER in m && First(ds, head) in m && First(ds, head) + HEADER in m
  {
    NodesMapped(m, head, s.blocks);
    NodeIn(ds, head, NodeSet(head, s.blocks));
  }

  lemma BlockFacts(m: Memory, head: int, s: Arena, claims: set<Block>, pre: seq<Block>, b: Block, post: seq<Block>)
    requires GoodBut(m, head, s, claims) && s.blocks == pre + [b] + post
    ensures b.addr in m && b.addr + HEADER in m && b.addr != head
    ensures Prev(Blocks, m, b.addr) == Last(head, Addrs(pre)) && Prev(Blocks, m, b.addr) in m
    ensures Next(Blocks, m, b.addr) == First(Addrs(post), head) && Next(Blocks, m, b.addr) in m
  {
    AddrIn(head, pre, b, post, s.blocks);
    NodesMapped(m, head, s.blocks);
    NodesSpread(head, s.blocks);
    assert Addrs(s.blocks)[|pre|] == b.addr;
    RingAt(Blocks, m, head, Addrs(pre), b.addr, Addrs(post));
    ElementsThree(Addrs(pre), b.addr, Addrs(post));
    EndsMapped(m, head, s, Addrs(pre));
    EndsMapped(m, head, s, Addrs(post));
  }

  lemma FreeFacts(m: Memory, head: int, s: Arena, claims: set<Block>, k: nat)
    requires GoodBut(m, head, s, claims) && k < |s.frees|
    ensures s.frees[k] in m && s.frees[k] + HEADER in m && s.frees[k] != head
    ensures Prev(Frees, m, s.frees[k]) == Last(head, s.frees[..k]) && Prev(Frees, m, s.frees[k]) + HEADER in m
    ensures Next(Frees, m, s.frees[k]) == First(s.frees[k + 1..], head)
    ensures Next(Frees, m, s.frees[k]) in m && Next(Frees, m, s.frees[k]) + HEADER in m
  {
    var xs, a, ys := s.frees[..k], s.frees[k], s.frees[k + 1..];
    assert s.frees == xs + [a] + ys;
    NodesSpread(head, s.blocks);
    FreesAreNodes(head, s);
    NodesMapped(m, head, s.blocks);
    RingAt(Frees, m, head, xs, a, ys);
    ElementsThree(xs, a, ys);
    EndsMapped(m, head, s, xs);
    EndsMapped(m, head, s, ys);
  }

  lemma HeaderFacts(m: Memory, head: int, s: Arena, i: nat)
    requires Good(m, head, s) && i < |s.blocks|
    ensures HeaderAt(m, s.blocks[i])
  {
    assert s.blocks[i] in Members(s.blocks);
  }

  // ---------------------------------------------------------------- malloc.c

  /** Loads, of mapped cells only. */
  function LoadTag(m: Memory, a: int): int
    requires a in m
  {
    Tag(m, a)
  }

  function LoadSize(m: Memory, a: int): int
    requires a in m
  {
    Size(m, a)
  }

  function LoadNext(c: Chain, m: Memory, a: int): int
    requires LinkCell(c, a) in m
  {
    Next(c, m, a)
  }

  function LoadPrev(c: Chain, m: Memory, a: int): int
    requires LinkCell(c, a) in m
  {
    Prev(c, m, a)
  }

  class Heap {
    /** Where the static head node lies, and the system's page size. */
    const head: int
    const page: int
    var mem: Memory
    /** The arena that memory represents. */
    ghost var arena: Arena

    ghost predicate Valid()
      reads this
    {
      PageOk(page) && Good(mem, head, arena) && Inv(arena)
    }

    /** Lines 19-28. */
    constructor (head: int, page: int)
      requires PageOk(page)
      ensures Valid() && this.head == head && this.page == page && arena == Arena([], [])
    {
      this.head := head;
      this.page := page;
      mem := map[head := Cell(HEAD, 0, head, head), head + HEADER := Cell(head, head, 0, 0)];
      arena := Arena([], []);
      new;
      assert Addrs([]) == [];
      assert FreeAddrs([]) == {};
    }

    /** A header's type and size words. */
    method WriteHeader(a: int, tag: int, size: int)
      requires a in mem
      modifies this`mem
      ensures Heading(old(mem), mem, a, tag, size)
    {
      mem := SetTag(mem, a, tag);
      mem := SetSize(mem, a, size);
    }

    /** One of the two words. */
    method WriteTag(a: int, tag: int)
      requires a in mem
      modifies this`mem
      ensures Heading(old(mem), mem, a, tag, Size(old(mem), a))
    {
      mem := SetTag(mem, a, tag);
    }

    method WriteSize(a: int, size: int)
      requires a in mem
      modifies this`mem
      ensures Heading(old(mem), mem, a, Tag(old(mem), a), size)
    {
      mem := SetSize(mem, a, size);
    }

    /** The four stores that put node `x` between `p` and `n` (lines 85-88, 91-94, 123-126, 196-199, 305-312). */
    method LinkIn(c: Chain, p: int, x: int, n: int)
      requires x != p && x != n && LinkCell(c, p) in mem && LinkCell(c, x) in mem && LinkCell(c, n) in mem
      modifies this`mem
      ensures Linking(c, old(mem), mem, p, x, n)
    {
      LinkedIn(c, mem, p, x, n);
      mem := SetNext(c, mem, x, n);
      mem := SetPrev(c, mem, x, p);
      mem := SetNext(c, mem, p, x);
      mem := SetPrev(c, mem, n, x);
    }

    /** remove_from_main_chain and remove_from_free_chain, lines 37-57. */
    method Unlink(c: Chain, x: int)
      requires LinkCell(c, x) in mem && LinkCell(c, Prev(c, mem, x)) in mem && LinkCell(c, Next(c, mem, x)) in mem
      modifies this`mem
      ensures Unlinking(c, old(mem), mem, Prev(c, old(mem), x), Next(c, old(mem), x))
    {
      var ap, an := LoadPrev(c, mem, x), LoadNext(c, mem, x);
      LinkWrites(c, mem, ap, an, an, ap);
      mem := SetNext(c, mem, ap, an);
      mem := SetPrev(c, mem, an, ap);
    }

    /** Lines 74-94: a block larger than required is split. */
    method SplitBlock(fp: int, size: int, ghost i: nat, ghost k: nat)
      requires Good(mem, head, arena) && i < |arena.blocks| && k < |arena.frees|
      requires fp == arena.blocks[i].addr == arena.frees[k] && !arena.blocks[i].used
      requires Aligned(size) && 2 * HEADER <= size <= arena.blocks[i].size - 2 * HEADER
      modifies this
      ensures arena == Carve(old(arena), i, k, size) && Good(mem, head, arena)
      ensures PayloadSame(old(mem), mem, Used(old(arena).blocks))
    {
      hide Good, Carve, PayloadSame, Used, Linking, Heading;
      ghost var m0, s := mem, arena;
      SplitReady(m0, head, s, i, k, size);
      var fsize := LoadSize(mem, fp);
      var nfp, na := fp + size, LoadNext(Blocks, mem, fp);
      WriteHeader(nfp, FREE, fsize - size);
      ghost var m1 := mem;
      WriteHeader(fp, USED, size);
      ghost var m2 := mem;
      LinkIn(Blocks, fp, nfp, na);
      ghost var m3 := mem;
      SplitLinksSeen(m0, m1, m2, m3, fp, nfp, size);
      var fpn, fpp := LoadNext(Frees, mem, fp), LoadPrev(Frees, mem, fp);
      LinkIn(Frees, fpp, nfp, fpn);
      SplitDone(m0, m1, m2, m3, mem, head, s, i, k, size);
      arena := Carve(s, i, k, size);
    }

    /** Lines 95-98: the whole block is handed out. */
    method TakeBlock(fp: int, ghost i: nat, ghost k: nat)
      requires Good(mem, head, arena) && i < |arena.blocks| && k < |arena.frees|
      requires fp == arena.blocks[i].addr == arena.frees[k] && !arena.blocks[i].used
      modifies this
      ensures Good(mem, head, arena) && PayloadSame(old(mem), mem, Used(old(arena).blocks))
      ensures arena == Arena(old(arena).blocks[i := old(arena).blocks[i].(used := true)], Removed(old(arena).frees, k))
    {
      ghost var m0, s := mem, arena;
      TakeReady(m0, head, s, i, k);
      WriteTag(fp, USED);
      ghost var m1 := mem;
      TakeLinksSeen(m0, m1, fp, Size(m0, fp));
      Unlink(Frees, fp);
      TakeDone(m0, m1, mem, head, s, i, k);
      arena := Arena(s.blocks[i := s.blocks[i].(used := true)], Removed(s.frees, k));
    }

    /** __malloc_from_block, lines 65-101. */
    method MallocFromBlock(fp: int, size: int, ghost i: nat, ghost k: nat) returns (ptr: int)
      requires Good(mem, head, arena) && i < |arena.blocks| && k < |arena.frees|
      requires fp == arena.blocks[i].addr == arena.frees[k] && !arena.blocks[i].used
      requires Aligned(size) && 2 * HEADER <= size <= arena.blocks[i].size
      modifies this
      ensures arena == Carve(old(arena), i, k, size) && Good(mem, head, arena)
      ensures PayloadSame(old(mem), mem, Used(old(arena).blocks))
      ensures ptr == fp + HEADER
    {
      TakeReady(mem, head, arena, i, k);
      var fsize := LoadSize(mem, fp);
      if fsize >= size + 2 * HEADER {
        SplitBlock(fp, size, i, k);
      } else {
        TakeBlock(fp, i, k);
      }
      ptr := fp + HEADER;
    }

    /** Lines 109-118: the block goes to its free left neighbour `pah`. */
    method GiveLeft(pah: int, ah: int, nah: int, ghost i: nat)
      requires 0 < i < |arena.blocks| && arena.blocks[i].used && MergesLeft(arena.blocks, i)
      requires GoodBut(mem, head, arena, Members(Others(arena.blocks, i))) && Size(mem, ah) == arena.blocks[i].size
      requires pah == arena.blocks[i - 1].addr && ah == arena.blocks[i].addr && nah == Next(Blocks, mem, ah)
      modifies this
      ensures arena == Settle(old(arena), i) && Good(mem, head, arena)
      ensures PayloadSame(old(mem), mem, Used(old(arena).blocks) - {old(arena).blocks[i]})
    {
      ghost var m0, s := mem, arena;
      LeftReady(m0, head, s, i);
      WriteSize(pah, LoadSize(mem, pah) + LoadSize(mem, ah));
      ghost var m1 := mem;
      LeftLinksSeen(m0, m1, pah, ah, Size(m0, pah) + Size(m0, ah));
      Unlink(Blocks, ah);
      LeftDone(m0, m1, mem, head, s, i);
      arena := Settle(s, i);
    }

    /** Lines 120-126: the block enters the free chain at its front. */
    method MarkFree(ah: int, ghost i: nat)
      requires i < |arena.blocks| && arena.blocks[i].used && !MergesLeft(arena.blocks, i)
      requires GoodBut(mem, head, arena, Members(Others(arena.blocks, i))) && Size(mem, ah) == arena.blocks[i].size
      requires ah == arena.blocks[i].addr
      modifies this
      ensures arena == Settle(old(arena), i) && Good(mem, head, arena)
      ensures PayloadSame(old(mem), mem, Used(old(arena).blocks) - {old(arena).blocks[i]})
    {
      ghost var m0, s := mem, arena;
      MarkReady(m0, head, s, i);
      WriteTag(ah, FREE);
      ghost var m1 := mem;
      MarkLinksSeen(m0, m1, head, ah, Size(m0, ah));
      LinkIn(Frees, head, ah, LoadNext(Frees, mem, head));
      MarkDone(m0, m1, mem, head, s, i);
      arena := Settle(s, i);
    }

    /** Lines 131-137: the block swallows its free right neighbour, if there is one. */
    method SwallowRight(ah: int, nah: int, ghost j: nat)
      requires Good(mem, head, arena) && j < |arena.blocks| && !arena.blocks[j].used
      requires ah == arena.blocks[j].addr && nah == Next(Blocks, mem, ah)
      modifies this
      ensures arena == Absorb(old(arena), j) && Good(mem, head, arena)
      ensures PayloadSame(old(mem), mem, Used(old(arena).blocks))
    {
      ghost var m0, s := mem, arena;
      RightSeen(m0, head, s, j);
      if LoadTag(mem, nah) == FREE && ah + LoadSize(mem, ah) == nah {
        RightReady(m0, head, s, j);
        WriteSize(ah, LoadSize(mem, ah) + LoadSize(mem, nah));
        ghost var m1 := mem;
        RightLinksSeen(m0, m1, ah, nah, Size(m0, ah) + Size(m0, nah));
        Unlink(Frees, nah);
        ghost var m2 := mem;
        Unlink(Blocks, nah);
        RightDone(m0, m1, m2, mem, head, s, j);
      } else {
        NothingWritten(mem, head, s);
      }
      arena := Absorb(s, j);
    }

    /** __free_block, lines 103-141: returns the block that contains the released one. */
    method ReleaseBlock(ah: int, ghost i: nat) returns (r: int)
      requires i < |arena.blocks| && arena.blocks[i].used && ah == arena.blocks[i].addr
      requires GoodBut(mem, head, arena, Members(Others(arena.blocks, i))) && Size(mem, ah) == arena.blocks[i].size
      modifies this
      ensures arena == FreeBlock(old(arena), i) && Good(mem, head, arena)
      ensures SettledIndex(old(arena).blocks, i) < |arena.blocks|
      ensures r == arena.blocks[SettledIndex(old(arena).blocks, i)].addr
      ensures PayloadSame(old(mem), mem, Used(old(arena).blocks) - {old(arena).blocks[i]})
    {
      ghost var m0, s := mem, arena;
      LeftSeen(m0, head, s, i);
      var pah, nah := LoadPrev(Blocks, mem, ah), LoadNext(Blocks, mem, ah);
      if LoadTag(mem, pah) == FREE && pah + LoadSize(mem, pah) == ah {
        GiveLeft(pah, ah, nah, i);
        r := pah;
      } else {
        MarkFree(ah, i);
        r := ah;
      }
      ghost var m1, t, j := mem, arena, SettledIndex(s.blocks, i);
      Settled(m0, m1, head, s, t, i);
      SwallowRight(r, nah, j);
      FreeBlockIndex(s, i);
      AbsorbedAddr(t, j);
      PayloadTrans(m0, m1, mem, Used(s.blocks) - {s.blocks[i]}, Used(t.blocks), Used(s.blocks) - {s.blocks[i]});
    }

    /** Lines 155-161: the first block of the free chain that is large enough. */
    method FindFit(need: int) returns (r: Option<int>)
      requires Valid()
      ensures var k := FirstFit(arena, need, 0);
        r == if k.Some? then Some(arena.frees[k.value]) else None
    {
      FrontFacts(mem, head, arena);
      var fp := LoadNext(Frees, mem, head);
      ghost var k := 0;
      assert arena.frees[0..] == arena.frees;
      while LoadTag(mem, fp) != HEAD
        invariant k <= |arena.frees| && fp == First(arena.frees[k..], head) && fp in mem && fp + HEADER in mem
        invariant FirstFit(arena, need, 0) == FirstFit(arena, need, k)
        decreases |arena.frees| - k
      {
        FitFacts(mem, head, arena, k);
        if LoadSize(mem, fp) >= need {
          return Some(fp);
        }
        fp := LoadNext(Frees, mem, fp);
        k := k + 1;
      }
      FitEnd(mem, head, arena, k);
      r := None;
    }

    /** Lines 188-192: searching backwards for the node after which address `fp` belongs. */
    method FindPlace(fp: int, ghost d: Desc, ghost bs: seq<Block>) returns (pah: int)
      requires Describes(mem, d) && d.head == head && d.bs == Addrs(bs) && Members(bs) <= d.claims
      ensures pah == Last(head, Addrs(bs[..InsertionPoint(bs, fp)]))
    {
      hide Describes, Members, Addrs;
      PlaceStart(mem, d, bs);
      pah := LoadPrev(Blocks, mem, head);
      ghost var i := |bs|;
      assert bs[..|bs|] == bs;
      while LoadTag(mem, pah) != HEAD
        invariant 0 <= i <= |bs| && pah == Last(head, Addrs(bs[..i])) && pah in mem
        invariant forall j :: i <= j < |bs| ==> bs[j].addr >= fp
        decreases i
      {
        PlaceFacts(mem, d, bs, i);
        if pah < fp {
          break;
        }
        pah := LoadPrev(Blocks, mem, pah);
        i := i - 1;
      }
      PlaceEnd(mem, d, bs, i);
    }

    /** The kernel maps zeroed cells (line 170). */
    method MapChunk(p: int, size: int)
      requires forall x :: x in mem ==> !InRange(x, p, size)
      modifies this`mem
      ensures Mapping(old(mem), mem, p, size)
    {
      mem := mem + map x | p <= x < p + size && Aligned(x) :: Cell(0, 0, 0, 0);
    }

    /** The kernel takes whole pages back (line 320). */
    method UnmapRange(p: int, size: int)
      requires page > 0 && p % page == 0 && size % page == 0
      modifies this`mem
      ensures Unmapping(old(mem), mem, p, size)
    {
      mem := map x | x in mem && !InRange(x, p, size) :: mem[x];
    }

    /** Lines 178-199: a new chunk is linked into the block list at its place. */
    method Grow(p: int, size: int)
      requires Good(mem, head, arena) && Inv(arena) && Aligned(p) && Aligned(size) && size >= 2 * HEADER
      requires Clear(arena.blocks, p, size) && Clear([Block(p, size, true)], head, 2 * HEADER)
      modifies this
      ensures arena == Grown(old(arena), p, size) && Inv(arena)
      ensures InsertionPoint(old(arena).blocks, p) < |arena.blocks|
      ensures arena.blocks[InsertionPoint(old(arena).blocks, p)] == Block(p, size, true)
      ensures GoodBut(mem, head, arena, Members(Others(arena.blocks, InsertionPoint(old(arena).blocks, p))))
      ensures Size(mem, p) == size
      ensures PayloadSame(old(mem), mem, Used(old(arena).blocks))
    {
      ghost var m0, s, i := mem, arena, InsertionPoint(arena.blocks, p);
      GrowReady(m0, head, s, p, size);
      MapChunk(p, size);
      ghost var m1 := mem;
      ghost var d1 := GrowMapped(m0, m1, head, s, p, size);
      WriteHeader(p, FREE, size);
      ghost var m2 := mem;
      ghost var d2 := GrowHeaded(m1, m2, head, s, d1, p, size);
      var pah := FindPlace(p, d2, s.blocks);
      GrowLinksReady(m2, head, s, d2, p, size);
      LinkIn(Blocks, pah, p, LoadNext(Blocks, mem, pah));
      GrowDone(m0, m1, m2, mem, head, s, p, size);
      arena := Grown(s, p, size);
    }

    /** malloc_impl_orig, lines 143-206; `answer` is what mmap returns if it is asked. */
    method Malloc(size: nat, answer: Option<int>) returns (r: Option<int>)
      requires Valid()
      requires answer.Some? ==> KernelGives(arena, page, answer.value, ChunkFor(Needed(size)))
      requires answer.Some? ==> Clear([Block(answer.value, ChunkFor(Needed(size)), true)], head, 2 * HEADER)
      modifies this
      ensures Valid() && (arena, r) == ArenaModel.Malloc(old(arena), size, page, answer)
      ensures PayloadSame(old(mem), mem, Used(old(arena).blocks))
    {
      hide Good, Carve, Refilled, RefillIndex, PayloadSame, Used, KernelGives, Clear, FirstFit, BlockOf;
      ghost var s := arena;
      if size == 0 {
        NothingWritten(mem, head, s);
        return None;
      }
      var need := Needed(size);
      var fit := FindFit(need);
      if fit.Some? {
        NeededFacts(size);
        ghost var k := FirstFit(s, need, 0).value;
        var ptr := MallocFromBlock(fit.value, need, BlockOf(s, k), k);
        r := Some(ptr);
      } else if answer.None? {
        NothingWritten(mem, head, s);
        r := None;
      } else {
        var ptr := MallocFromNewChunk(answer.value, ChunkFor(need), need, size);
        r := Some(ptr);
      }
      MallocInv(s, size, page, answer);
    }

    /** Lines 178-205. */
    method MallocFromNewChunk(p: int, fsize: int, need: int, ghost size: nat) returns (ptr: int)
      requires Valid() && size > 0 && need == Needed(size) && fsize == ChunkFor(need)
      requires KernelGives(arena, page, p, fsize) && Clear([Block(p, fsize, true)], head, 2 * HEADER)
      modifies this
      ensures Aligned(p) && Aligned(fsize) && fsize >= 2 * HEADER && Good(mem, head, arena)
      ensures var f, j := Refilled(old(arena), p, fsize), RefillIndex(old(arena), p, fsize);
        && j < |f.blocks| && f.blocks[j].addr in f.frees && ptr == f.blocks[j].addr + HEADER
        && arena == Carve(f, j, IndexOf(f.frees, f.blocks[j].addr), need)
      ensures PayloadSame(old(mem), mem, Used(old(arena).blocks))
    {
      ghost var m0, s := mem, arena;
      NeededFacts(size);
      RefilledInv(s, size, page, p);
      Grow(p, fsize);
      ghost var m1, g, i := mem, arena, InsertionPoint(s.blocks, p);
      GrownTally(s, p, fsize);
      NotAmongClear(s.blocks, p, fsize);
      var fp := ReleaseBlock(p, i);
      ghost var m2, f, j := mem, arena, SettledIndex(g.blocks, i);
      FreeBlockTally(g, i);
      PayloadTrans(m0, m1, m2, Used(s.blocks), Used(g.blocks) - {g.blocks[i]}, Used(s.blocks));
      ptr := MallocFromBlock(fp, need, j, IndexOf(f.frees, f.blocks[j].addr));
      PayloadTrans(m0, m2, mem, Used(s.blocks), Used(f.blocks), Used(s.blocks));
    }

    /** Lines 298-313: the tail that stays becomes a free block of its own. */
    method CutTail(ah: int, t: int, ghost j: nat, ghost k: nat)
      requires Good(mem, head, arena) && j < |arena.blocks| && k < |arena.frees|
      requires ah == arena.blocks[j].addr == arena.frees[k] && !arena.blocks[j].used
      requires Aligned(t) && 2 * HEADER <= t <= arena.blocks[j].size - 2 * HEADER
      modifies this
      ensures arena == Tailed(old(arena), j, k, t) && j < |arena.blocks|
      ensures GoodBut(mem, head, arena, Members(Others(arena.blocks, j))) && Tag(mem, ah) == FREE
      ensures PayloadSame(old(mem), mem, Used(old(arena).blocks))
    {
      ghost var m0, s := mem, arena;
      TailReady(m0, head, s, j, k, t);
      var tah := ah + LoadSize(mem, ah) - t;
      WriteHeader(tah, FREE, t);
      ghost var m1 := mem;
      TailLinksSeen(m0, m1, ah, tah, t);
      LinkIn(Blocks, ah, tah, LoadNext(Blocks, mem, ah));
      ghost var m2 := mem;
      LinkIn(Frees, LoadPrev(Frees, mem, ah), tah, ah);
      TailDone(m0, m1, m2, mem, head, s, j, k, t);
      TailTagKept(m0, m1, m2, mem, ah, tah, t);
      arena := Tailed(s, j, k, t);
    }

    /** Lines 315-320 with a head portion: the block keeps its first `h` bytes. */
    method ShrinkTo(ah: int, h: int, adj: int, ghost j: nat)
      requires j < |arena.blocks| && !arena.blocks[j].used && ah == arena.blocks[j].addr
      requires GoodBut(mem, head, arena, Members(Others(arena.blocks, j))) && Tag(mem, ah) == FREE
      requires Aligned(h) && 2 * HEADER <= h && h + adj == arena.blocks[j].size && adj >= 0
      requires page > 0 && (ah + h) % page == 0 && adj % page == 0
      modifies this
      ensures arena == Arena(old(arena).blocks[j := Block(ah, h, false)], old(arena).frees) && Good(mem, head, arena)
      ensures PayloadSame(old(mem), mem, Used(old(arena).blocks))
    {
      ghost var m0, s := mem, arena;
      PickOut(s, j);
      BlockFacts(m0, head, s, Members(Others(s.blocks, j)), s.blocks[..j], s.blocks[j], s.blocks[j + 1..]);
      WriteSize(ah, h);
      ghost var m1 := mem;
      UnmapRange(ah + h, adj);
      ShrinkDone(m0, m1, mem, head, s, j, h);
      arena := Arena(s.blocks[j := Block(ah, h, false)], s.frees);
    }

    /** Lines 317-320 without a head portion: the block leaves both chains and is unmapped. */
    method DropBlock(ah: int, adj: int, ghost j: nat, ghost k: nat)
      requires j < |arena.blocks| && !arena.blocks[j].used && k < |arena.frees|
      requires ah == arena.blocks[j].addr == arena.frees[k] && adj == arena.blocks[j].size
      requires GoodBut(mem, head, arena, Members(Others(arena.blocks, j))) && page > 0 && ah % page == 0
      requires adj % page == 0
      modifies this
      ensures arena == Arena(Others(old(arena).blocks, j), Removed(old(arena).frees, k)) && Good(mem, head, arena)
      ensures PayloadSame(old(mem), mem, Used(old(arena).blocks))
    {
      ghost var m0, s := mem, arena;
      PickOut(s, j);
      BlockFacts(m0, head, s, Members(Others(s.blocks, j)), s.blocks[..j], s.blocks[j], s.blocks[j + 1..]);
      FreeFacts(m0, head, s, Members(Others(s.blocks, j)), k);
      Unlink(Frees, ah);
      ghost var m1 := mem;
      assert Prev(Blocks, m1, ah) == Prev(Blocks, m0, ah) && Next(Blocks, m1, ah) == Next(Blocks, m0, ah);
      Unlink(Blocks, ah);
      ghost var m2 := mem;
      UnmapRange(ah, adj);
      DropDone(m0, m1, m2, mem, head, s, j, k);
      arena := Arena(Others(s.blocks, j), Removed(s.frees, k));
    }

    /** Lines 270-322: whole pages in the middle of the free block go back to the system. */
    method ReturnPages(ah: int, ghost j: nat, ghost k: nat)
      requires PageOk(page) && Good(mem, head, arena) && j < |arena.blocks| && k < |arena.frees|
      requires ah == arena.blocks[j].addr == arena.frees[k] && !arena.blocks[j].used
      modifies this
      ensures Good(mem, head, arena) && PayloadSame(old(mem), mem, Used(old(arena).blocks))
      ensures arena
        == Trim(old(arena), j, k, HeadPortion(old(arena).blocks[j], page), TailPortion(old(arena).blocks[j], page))
    {
      NothingWritten(mem, head, arena);
      PickOut(arena, j);
      HeaderFacts(mem, head, arena, j);
      ReturnedRange(arena.blocks[j], page);
      var size := LoadSize(mem, ah);
      var h, t := KeptPortion((-ah) % page, page), KeptPortion((ah + size) % page, page);
      if size >= h + t + CHUNK {
        CutMiddle(ah, h, t, size - h - t, j, k);
      }
    }

    /** Lines 298-320. */
    method CutMiddle(ah: int, h: int, t: int, adj: int, ghost j: nat, ghost k: nat)
      requires Good(mem, head, arena) && j < |arena.blocks| && k < |arena.frees|
      requires ah == arena.blocks[j].addr == arena.frees[k] && !arena.blocks[j].used
      requires Portions(h, t) && adj == arena.blocks[j].size - h - t && adj >= CHUNK
      requires page > 0 && (ah + h) % page == 0 && adj % page == 0
      modifies this
      ensures Good(mem, head, arena) && PayloadSame(old(mem), mem, Used(old(arena).blocks))
      ensures arena == Trim(old(arena), j, k, h, t)
    {
      ghost var m0, s, k' := mem, arena, k;
      NothingWritten(m0, head, s);
      OthersGood(m0, head, s, j);
      HeaderFacts(m0, head, s, j);
      TrimForm(s, j, k, h, t);
      if t > 0 {
        CutTail(ah, t, j, k);
        k' := k + 1;
      }
      ghost var m1, u := mem, arena;
      if h > 0 {
        ShrinkTo(ah, h, adj, j);
      } else {
        DropBlock(ah, adj, j, k');
      }
      PayloadTrans(m0, m1, mem, Used(s.blocks), Used(u.blocks), Used(s.blocks));
    }

    /** free_impl_orig, lines 245-323. */
    method Free(ptr: Option<int>)
      requires Valid() && (ptr.Some? ==> IsLive(arena, ptr.value))
      modifies this
      ensures Valid()
      ensures arena == if ptr.Some? then ArenaModel.Free(old(arena), ptr.value, page) else old(arena)
      ensures PayloadSame(old(mem), mem, Used(old(arena).blocks) - FreedBy(old(arena), ptr))
    {
      ghost var m0, s := mem, arena;
      if ptr.None? {
        NothingWritten(mem, head, s);
        return;
      }
      ghost var i := LiveIndex(s, ptr.value);
      var ah := ptr.value - HEADER;
      HeaderFacts(mem, head, s, i);
      OthersGood(mem, head, s, i);
      FreeBlockIndex(s, i);
      FreeBlockTally(s, i);
      FreeInv(s, ptr.value, page);
      var r := ReleaseBlock(ah, i);
      ghost var m1, f, j := mem, arena, SettledIndex(s.blocks, i);
      ReturnPages(r, j, IndexOf(f.frees, r));
      PayloadTrans(m0, m1, mem, Used(s.blocks) - {s.blocks[i]}, Used(f.blocks), Used(s.blocks) - {s.blocks[i]});
    }
  }

  ghost function FreedBy(s: Arena, ptr: Option<int>): set<Block>
    requires ptr.Some? ==> IsLive(s, ptr.value)
  {
    if ptr.Some? then {s.blocks[LiveIndex(s, ptr.value)]} else {}
  }

  lemma OthersGood(m: Memory, head: int, s: Arena, i: nat)
    requires Good(m, head, s) && i < |s.blocks|
    ensures GoodBut(m, head, s, Members(Others(s.blocks, i)))
  {
  }

  lemma TrimForm(s: Arena, j: nat, k: nat, h: int, t: int)
    requires j < |s.blocks| && k < |s.frees| && h >= 0 && t >= 0 && WorthReturning(s.blocks[j], h, t)
    requires s.frees[k] == s.blocks[j].addr && !s.blocks[j].used
    ensures var u := if t > 0 then Tailed(s, j, k, t) else s; var k' := if t > 0 then k + 1 else k;
      && j < |u.blocks| && k' < |u.frees| && u.frees[k'] == s.frees[k]
      && u.blocks[j] == Block(s.blocks[j].addr, s.blocks[j].size - t, false)
      && Used(s.blocks) <= Used(u.blocks)
      && Trim(s, j, k, h, t) == if h > 0 then Arena(u.blocks[j := Block(s.blocks[j].addr, h, false)], u.frees)
                                else Arena(Others(u.blocks, j), Removed(u.frees, k'))
  {
    if t > 0 {
      hide Trim, Tailed, Used, Others, Removed;
      TailTrimBlocks(s, j, k, h, t);
      TailTrimChain(s, j, k, h, t);
      TailUsed(s, j, k, t);
      ArenaParts(Trim(s, j, k, h, t));
    } else {
      NoTailTrim(s, j, k, h);
    }
  }

  lemma ArenaParts(s: Arena)
    ensures s == Arena(s.blocks, s.frees)
  {
  }

  lemma TailUsed(s: Arena, j: nat, k: nat, t: int)
    requires j < |s.blocks| && k < |s.frees| && !s.blocks[j].used
    ensures Used(s.blocks) == Used(Tailed(s, j, k, t).blocks)
  {
    SplitOne(s.blocks, j);
    TailTally(s.blocks[..j], s.blocks[j], s.blocks[j + 1..], t, s.blocks, Tailed(s, j, k, t).blocks);
  }

  lemma NoTailTrim(s: Arena, j: nat, k: nat, h: int)
    requires j < |s.blocks| && k < |s.frees| && h >= 0 && WorthReturning(s.blocks[j], h, 0)
    requires s.frees[k] == s.blocks[j].addr
    ensures Trim(s, j, k, h, 0) == if h > 0 then Arena(s.blocks[j := Block(s.blocks[j].addr, h, false)], s.frees)
                                   else Arena(Others(s.blocks, j), Removed(s.frees, k))
  {
    assert RemnantChain(s.blocks[j], h, 0) == if h > 0 then [s.blocks[j].addr] else [];
    assert Remnant(s.blocks[j], h, 0) == if h > 0 then [Block(s.blocks[j].addr, h, false)] else [];
  }

  lemma TailTrimBlocks(s: Arena, j: nat, k: nat, h: int, t: int)
    requires j < |s.blocks| && k < |s.frees| && h >= 0 && t > 0 && WorthReturning(s.blocks[j], h, t)
    ensures var bs := Tailed(s, j, k, t).blocks;
      && s.blocks == s.blocks[..j] + [s.blocks[j]] + s.blocks[j + 1..]
      && j < |bs| && bs[j] == Block(s.blocks[j].addr, s.blocks[j].size - t, false)
      && Trim(s, j, k, h, t).blocks == if h > 0 then bs[j := Block(s.blocks[j].addr, h, false)] else Others(bs, j)
  {
  }

  lemma TailTrimChain(s: Arena, j: nat, k: nat, h: int, t: int)
    requires j < |s.blocks| && k < |s.frees| && h >= 0 && t > 0 && WorthReturning(s.blocks[j], h, t)
    requires s.frees[k] == s.blocks[j].addr
    ensures var fr := Tailed(s, j, k, t).frees;
      k + 1 < |fr| && fr[k + 1] == s.frees[k] && Trim(s, j, k, h, t).frees == if h > 0 then fr else Removed(fr, k + 1)
  {
  }

  // ---------------------------------------------------------------- returning pages

  ghost function Tailed(s: Arena, j: nat, k: nat, t: int): Arena
    requires j < |s.blocks| && k < |s.frees|
  {
    TailedArena(s, s.blocks[..j], s.blocks[j], s.blocks[j + 1..], k, t)
  }

  lemma TailReady(m: Memory, head: int, s: Arena, j: nat, k: nat, t: int)
    requires Good(m, head, s) && j < |s.blocks| && k < |s.frees| && s.frees[k] == s.blocks[j].addr && !s.blocks[j].used
    requires Aligned(t) && 2 * HEADER <= t <= s.blocks[j].size - 2 * HEADER
    ensures var ah, tah := s.blocks[j].addr, s.blocks[j].End() - t;
      && Size(m, ah) == s.blocks[j].size && ah in m && ah + HEADER in m && tah in m && tah + HEADER in m
      && Next(Blocks, m, ah) in m && Prev(Frees, m, ah) + HEADER in m && tah != ah + HEADER
      && tah != ah && tah != Next(Blocks, m, ah) && tah != Prev(Frees, m, ah)
      && Tag(m, ah) == FREE && ah != Prev(Frees, m, ah) + HEADER && ah != tah + HEADER
  {
    PrevApart(m, head, s, k);
    HeaderFacts(m, head, s, j);
    PickOut(s, j);
    BlockFacts(m, head, s, Members(s.blocks), s.blocks[..j], s.blocks[j], s.blocks[j + 1..]);
    FreeFacts(m, head, s, Members(s.blocks), k);
    TailPointMapped(m, head, s, j, t);
    TailEnds(head, s, s.blocks[..j], s.blocks[j], s.blocks[j + 1..], k, t);
  }

  lemma TailPointMapped(m: Memory, head: int, s: Arena, j: nat, t: int)
    requires Maps(m, head, s.blocks) && Sized(s.blocks) && j < |s.blocks| && Aligned(t)
    requires 2 * HEADER <= t <= s.blocks[j].size
    ensures s.blocks[j].End() - t in m && s.blocks[j].End() - t + HEADER in m
  {
    assert Aligned(s.blocks[j].size);
    AlignedArithmetic(s.blocks[j].size, t);
    SplitPointMapped(m, head, s, j, s.blocks[j].size - t);
  }

  lemma TailEnds(head: int, s: Arena, pre: seq<Block>, b: Block, post: seq<Block>, k: nat, t: int)
    requires Shaped(s) && Clear(s.blocks, head, 2 * HEADER) && s.blocks == pre + [b] + post && Sized([b])
    requires k < |s.frees| && s.frees[k] == b.addr && !b.used && Aligned(t) && 2 * HEADER <= t <= b.size - 2 * HEADER
    ensures b.End() - t != First(Addrs(post), head) && b.End() - t != Last(head, s.frees[..k])
  {
    hide Shaped, Clear;
    var u, xs, ys := TailedArena(s, pre, b, post, k, t), s.frees[..k], s.frees[k..];
    TailShape(head, s, pre, b, post, k, t);
    TailNodes(head, u, pre, b, post, k, t);
    AroundNode(head, Addrs(pre) + [b.addr], b.End() - t, Addrs(post));
    AroundNode(head, xs, b.End() - t, ys);
  }

  /** No header lies where a free node keeps its links. */
  lemma PrevApart(m: Memory, head: int, s: Arena, k: nat)
    requires Good(m, head, s) && k < |s.frees|
    ensures s.frees[k] != Prev(Frees, m, s.frees[k]) + HEADER
  {
    FreeFacts(m, head, s, Members(s.blocks), k);
    NodesSpread(head, s.blocks);
    FreesAreNodes(head, s);
    assert s.frees[k] in Elements(s.frees) && head in NodeSet(head, s.blocks);
    if k > 0 {
      assert s.frees[..k][k - 1] == s.frees[k - 1];
      assert s.frees[k - 1] in Elements(s.frees);
    }
  }

  lemma TailTagKept(m0: Memory, m1: Memory, m2: Memory, m3: Memory, ah: int, tah: int, t: int)
    requires Heading(m0, m1, tah, FREE, t) && Linking(Blocks, m1, m2, ah, tah, Next(Blocks, m1, ah))
    requires Linking(Frees, m2, m3, Prev(Frees, m2, ah), tah, ah) && tah != ah && ah != tah + HEADER
    requires tah != ah + HEADER
    requires ah != Prev(Frees, m0, ah) + HEADER
    ensures Tag(m3, ah) == Tag(m0, ah)
  {
    TailLinksSeen(m0, m1, ah, tah, t);
    assert Prev(Frees, m2, ah) == Prev(Frees, m1, ah);
    assert Tag(m2, ah) == Tag(m1, ah);
  }

  lemma TailLinksSeen(m0: Memory, m1: Memory, ah: int, tah: int, t: int)
    requires Heading(m0, m1, tah, FREE, t) && tah != ah + HEADER && tah != ah
    ensures Next(Blocks, m1, ah) == Next(Blocks, m0, ah) && Prev(Frees, m1, ah) == Prev(Frees, m0, ah)
  {
    assert At(m1, ah) == At(m0, ah) && At(m1, ah + HEADER) == At(m0, ah + HEADER);
  }

  lemma TailDone(m0: Memory, m1: Memory, m2: Memory, m3: Memory, head: int, s: Arena, j: nat, k: nat, t: int)
    requires Good(m0, head, s) && j < |s.blocks| && k < |s.frees| && s.frees[k] == s.blocks[j].addr && !s.blocks[j].used
    requires Aligned(t) && 2 * HEADER <= t <= s.blocks[j].size - 2 * HEADER
    requires var ah, tah := s.blocks[j].addr, s.blocks[j].End() - t;
      && Heading(m0, m1, tah, FREE, t) && Linking(Blocks, m1, m2, ah, tah, Next(Blocks, m1, ah))
      && Linking(Frees, m2, m3, Prev(Frees, m2, ah), tah, ah)
    ensures j < |Tailed(s, j, k, t).blocks|
    ensures GoodBut(m3, head, Tailed(s, j, k, t), Members(Others(Tailed(s, j, k, t).blocks, j)))
    ensures PayloadSame(m0, m3, Used(s.blocks))
  {
    hide Heading, Linking, PayloadSame, Used;
    var pre, b, post, u := s.blocks[..j], s.blocks[j], s.blocks[j + 1..], Tailed(s, j, k, t);
    PickOut(s, j);
    TailOthers(s, j, k, t);
    TailRefines(m0, m1, m2, m3, head, s, pre, b, post, k, t);
    TailPayloads(m0, m3, head, s, u, pre, b, post, k, t);
  }

  lemma TailPayloads(m: Memory, m': Memory, head: int, s: Arena, u: Arena, pre: seq<Block>, b: Block, post: seq<Block>,
                     k: nat, t: int)
    requires Maps(m, head, s.blocks) && s.blocks == pre + [b] + post && !b.used && k < |s.frees| && 0 < t < b.size
    requires u == TailedArena(s, pre, b, post, k, t) && Shaped(u) && Clear(u.blocks, head, 2 * HEADER)
    requires Kept(m, m', NodeSet(head, u.blocks), {head} + Elements(u.frees))
    ensures PayloadSame(m, m', Used(s.blocks))
  {
    TailMaps(m, head, s, pre, b, post, k, t);
    TailTally(pre, b, post, t, s.blocks, u.blocks);
    NodesSpread(head, u.blocks);
    FreesAreNodes(head, u);
    OpPayloads(m, m', head, u, u, u, {head} + Elements(u.frees), Used(s.blocks));
  }

  lemma TailOthers(s: Arena, j: nat, k: nat, t: int)
    requires j < |s.blocks| && k < |s.frees|
    ensures j < |Tailed(s, j, k, t).blocks|
    ensures Others(Tailed(s, j, k, t).blocks, j)
      == s.blocks[..j] + [Block(s.blocks[j].End() - t, t, false)] + s.blocks[j + 1..]
    ensures Tailed(s, j, k, t).blocks[j] == Block(s.blocks[j].addr, s.blocks[j].size - t, false)
  {
  }

  lemma TailTally(pre: seq<Block>, b: Block, post: seq<Block>, t: int, bs: seq<Block>, bs': seq<Block>)
    requires bs == pre + [b] + post && !b.used
    requires bs' == pre + [Block(b.addr, b.size - t, false), Block(b.End() - t, t, false)] + post
    ensures Used(bs') == Used(bs)
  {
    var x, y := Block(b.addr, b.size - t, false), Block(b.End() - t, t, false);
    TallyThree(pre, [b], post);
    TallyThree(pre, [x, y], post);
    TallyTwo(x, y);
    TallyOne(b);
    TallyOne(x);
    TallyOne(y);
  }

  lemma UnmapPayloads(m: Memory, m': Memory, head: int, t: Arena, p: int, size: int, bs: set<Block>)
    requires Shaped(t) && Maps(m', head, t.blocks) && Unmapping(m, m', p, size) && bs <= Used(t.blocks)
    ensures PayloadSame(m, m', bs)
  {
    forall b, x | b in bs && Payload(b, x) ensures x in m && x in m' && m'[x] == m[x] {
      var i :| 0 <= i < |t.blocks| && t.blocks[i] == b;
      OwnsByOne(t.blocks, |t.blocks|, x);
      assert Within(t.blocks[i], x);
    }
  }

  lemma ShrinkDone(m0: Memory, m1: Memory, m2: Memory, head: int, s: Arena, j: nat, h: int)
    requires j < |s.blocks| && !s.blocks[j].used && GoodBut(m0, head, s, Members(Others(s.blocks, j)))
    requires Aligned(h) && 2 * HEADER <= h <= s.blocks[j].size
    requires Heading(m0, m1, s.blocks[j].addr, FREE, h) && Unmapping(m1, m2, s.blocks[j].addr + h, s.blocks[j].size - h)
    ensures Good(m2, head, Arena(s.blocks[j := Block(s.blocks[j].addr, h, false)], s.frees))
    ensures PayloadSame(m0, m2, Used(s.blocks))
  {
    var pre, b, post, x := s.blocks[..j], s.blocks[j], s.blocks[j + 1..], Block(s.blocks[j].addr, h, false);
    PickOut(s, j);
    ShrinkRefines(m0, m1, m2, head, s, pre, b, post, h);
    var t := ShrunkArena(s, pre, b, post, h);
    RetagTally(pre, b, x, post, s.blocks, t.blocks);
    NodesSpread(head, s.blocks);
    FreesAreNodes(head, s);
    OpPayloads(m0, m1, head, s, s, s, {head} + Elements(s.frees), Used(s.blocks));
    UnmapPayloads(m1, m2, head, t, b.addr + h, b.size - h, Used(s.blocks));
    PayloadTrans(m0, m1, m2, Used(s.blocks), Used(s.blocks), Used(s.blocks));
  }

  lemma RetagTally(pre: seq<Block>, b: Block, c: Block, post: seq<Block>, bs: seq<Block>, bs': seq<Block>)
    requires bs == pre + [b] + post && bs' == pre + [c] + post && !b.used && !c.used
    ensures Used(bs') == Used(bs)
  {
    TallyThree(pre, [b], post);
    TallyThree(pre, [c], post);
    TallyOne(b);
    TallyOne(c);
  }

  lemma DropDone(m0: Memory, m1: Memory, m2: Memory, m3: Memory, head: int, s: Arena, j: nat, k: nat)
    requires j < |s.blocks| && !s.blocks[j].used && k < |s.frees| && s.frees[k] == s.blocks[j].addr
    requires GoodBut(m0, head, s, Members(Others(s.blocks, j)))
    requires var ah := s.blocks[j].addr;
      && Unlinking(Frees, m0, m1, Prev(Frees, m0, ah), Next(Frees, m0, ah))
      && Unlinking(Blocks, m1, m2, Prev(Blocks, m1, ah), Next(Blocks, m1, ah))
      && Unmapping(m2, m3, ah, s.blocks[j].size)
    ensures Good(m3, head, Arena(Others(s.blocks, j), Removed(s.frees, k)))
    ensures PayloadSame(m0, m3, Used(s.blocks))
  {
    var pre, b, post := s.blocks[..j], s.blocks[j], s.blocks[j + 1..];
    PickOut(s, j);
    DropRefines(m0, m1, m2, m3, head, s, pre, b, post, k);
    var t := DroppedArena(s, pre, post, k);
    DropTally(pre, b, post, s.blocks, t.blocks);
    NodesSpread(head, s.blocks);
    FreesAreNodes(head, s);
    OpPayloads(m0, m2, head, s, s, s, {head} + Elements(s.frees), Used(s.blocks));
    UnmapPayloads(m2, m3, head, t, b.addr, b.size, Used(s.blocks));
    PayloadTrans(m0, m2, m3, Used(s.blocks), Used(s.blocks), Used(s.blocks));
  }

  lemma DropTally(pre: seq<Block>, b: Block, post: seq<Block>, bs: seq<Block>, bs': seq<Block>)
    requires bs == pre + [b] + post && bs' == pre + post && !b.used
    ensures Used(bs') == Used(bs)
  {
    TallyThree(pre, [b], post);
    TallyConcat(pre, post);
    TallyOne(b);
  }

  // ---------------------------------------------------------------- growing

  lemma GrownForm(head: int, s: Arena, p: int, size: int)
    requires Inv(s) && Aligned(p) && Aligned(size) && size >= 2 * HEADER
    requires Clear(s.blocks, p, size) && Clear(s.blocks, head, 2 * HEADER)
    requires Clear([Block(p, size, true)], head, 2 * HEADER)
    ensures var i, t := InsertionPoint(s.blocks, p), Grown(s, p, size);
      && s.blocks == s.blocks[..i] + s.blocks[i..]
      && t == Arena(s.blocks[..i] + [Block(p, size, true)] + s.blocks[i..], s.frees)
      && i < |t.blocks| && t.blocks[i] == Block(p, size, true) && Others(t.blocks, i) == s.blocks
      && Inv(t) && Clear(t.blocks, head, 2 * HEADER)
  {
    GrownInv(s, p, size);
    GrownSeqs(s, p, size);
    GrownClear(head, s, p, size);
  }

  lemma GrownSeqs(s: Arena, p: int, size: int)
    ensures var i, t := InsertionPoint(s.blocks, p), Grown(s, p, size);
      && s.blocks == s.blocks[..i] + s.blocks[i..]
      && t == Arena(s.blocks[..i] + [Block(p, size, true)] + s.blocks[i..], s.frees)
      && i < |t.blocks| && t.blocks[i] == Block(p, size, true) && Others(t.blocks, i) == s.blocks
  {
  }

  lemma GrownClear(head: int, s: Arena, p: int, size: int)
    requires Clear(s.blocks, head, 2 * HEADER) && Clear([Block(p, size, true)], head, 2 * HEADER)
    ensures Clear(Grown(s, p, size).blocks, head, 2 * HEADER)
  {
    var i, b := InsertionPoint(s.blocks, p), Block(p, size, true);
    GrownSeqs(s, p, size);
    ClearConcat(s.blocks[..i], s.blocks[i..], head, 2 * HEADER);
    ClearThree(s.blocks[..i], [b], s.blocks[i..], head, 2 * HEADER);
  }

  /** The new chunk's address is no node yet. */
  lemma GrownFresh(head: int, s: Arena, p: int, size: int)
    requires Inv(s) && Aligned(p) && Aligned(size) && size >= 2 * HEADER
    requires Clear(s.blocks, p, size) && Clear(s.blocks, head, 2 * HEADER)
    requires Clear([Block(p, size, true)], head, 2 * HEADER)
    ensures p in NodeSet(head, Grown(s, p, size).blocks) && p != head
    ensures forall c :: c in Members(s.blocks) ==> c.addr != p
  {
    var i, t := InsertionPoint(s.blocks, p), Grown(s, p, size);
    GrownForm(head, s, p, size);
    GrownNodes(head, s.blocks[..i], Block(p, size, true), s.blocks[i..], s.blocks, t.blocks);
    NodesSpread(head, t.blocks);
    AroundNode(head, Addrs(s.blocks[..i]), p, Addrs(s.blocks[i..]));
  }

  lemma GrowReady(m: Memory, head: int, s: Arena, p: int, size: int)
    requires Maps(m, head, s.blocks) && Clear(s.blocks, p, size) && Clear([Block(p, size, true)], head, 2 * HEADER)
    requires size > 0
    ensures forall x :: x in m ==> !InRange(x, p, size)
  {
    forall x | x in m ensures !InRange(x, p, size) {
      assert [Block(p, size, true)][0].End() <= head || head + 2 * HEADER <= [Block(p, size, true)][0].addr;
      OwnsByOne(s.blocks, |s.blocks|, x);
    }
  }

  lemma GrowMapped(m0: Memory, m1: Memory, head: int, s: Arena, p: int, size: int) returns (d1: Desc)
    requires Good(m0, head, s) && Inv(s) && Aligned(p) && Aligned(size) && size >= 2 * HEADER
    requires Clear(s.blocks, p, size) && Clear([Block(p, size, true)], head, 2 * HEADER) && Mapping(m0, m1, p, size)
    ensures Describes(m1, d1) && p in m1
    ensures d1
      == Desc(head, NodeSet(head, Grown(s, p, size).blocks), {head} + Elements(s.frees), Addrs(s.blocks), s.frees,
              Members(s.blocks))
  {
    var i, t := InsertionPoint(s.blocks, p), Grown(s, p, size);
    GrownForm(head, s, p, size);
    GrownMaps(m0, m1, head, s.blocks[..i], Block(p, size, true), s.blocks[i..], s.blocks, t.blocks);
    d1 := GrowEnter(m0, m1, head, s, t, s.blocks[..i], Block(p, size, true), s.blocks[i..]);
    assert InRange(p, p, size);
  }

  lemma GrowHeaded(m1: Memory, m2: Memory, head: int, s: Arena, d1: Desc, p: int, size: int) returns (d2: Desc)
    requires Inv(s) && Aligned(p) && Aligned(size) && size >= 2 * HEADER
    requires Clear(s.blocks, p, size) && Clear(s.blocks, head, 2 * HEADER)
    requires Clear([Block(p, size, true)], head, 2 * HEADER)
    requires Describes(m1, d1) && Heading(m1, m2, p, FREE, size)
    requires d1
      == Desc(head, NodeSet(head, Grown(s, p, size).blocks), {head} + Elements(s.frees), Addrs(s.blocks), s.frees,
              Members(s.blocks))
    ensures Describes(m2, d2) && d2 == d1.(claims := Members(s.blocks) + {Block(p, size, false)})
  {
    GrownFresh(head, s, p, size);
    d2 := d1.(claims := Members(s.blocks) + {Block(p, size, false)});
    HeadingStep(m1, m2, d1, Block(p, size, false), d2.claims);
  }

  lemma GrowLinksReady(m2: Memory, head: int, s: Arena, d2: Desc, p: int, size: int)
    requires Inv(s) && Aligned(p) && Aligned(size) && size >= 2 * HEADER
    requires Clear(s.blocks, p, size) && Clear(s.blocks, head, 2 * HEADER)
    requires Clear([Block(p, size, true)], head, 2 * HEADER)
    requires Describes(m2, d2) && d2.head == head && d2.bs == Addrs(s.blocks) && p in d2.nodes
    ensures var pah := Last(head, Addrs(s.blocks[..InsertionPoint(s.blocks, p)]));
      pah != p && pah in m2 && Next(Blocks, m2, pah) != p && Next(Blocks, m2, pah) in m2 && p in m2
  {
    var i, t := InsertionPoint(s.blocks, p), Grown(s, p, size);
    var ps, qs := Addrs(s.blocks[..i]), Addrs(s.blocks[i..]);
    GrownForm(head, s, p, size);
    GrownNodes(head, s.blocks[..i], Block(p, size, true), s.blocks[i..], s.blocks, t.blocks);
    NodesSpread(head, t.blocks);
    AroundNode(head, ps, p, qs);
    SplitRing(Blocks, m2, head, ps, qs);
    ElementsThree(ps, p, qs);
    NodeIn(ps, head, d2.nodes);
    NodeIn(qs, head, d2.nodes);
  }

  lemma GrowDone(m0: Memory, m1: Memory, m2: Memory, m3: Memory, head: int, s: Arena, p: int, size: int)
    requires Good(m0, head, s) && Inv(s) && Aligned(p) && Aligned(size) && size >= 2 * HEADER
    requires Clear(s.blocks, p, size) && Clear([Block(p, size, true)], head, 2 * HEADER)
    requires Mapping(m0, m1, p, size) && Heading(m1, m2, p, FREE, size)
    requires var pah := Last(head, Addrs(s.blocks[..InsertionPoint(s.blocks, p)]));
      Linking(Blocks, m2, m3, pah, p, Next(Blocks, m2, pah))
    ensures var i, t := InsertionPoint(s.blocks, p), Grown(s, p, size);
      && Inv(t) && i < |t.blocks| && t.blocks[i] == Block(p, size, true)
      && GoodBut(m3, head, t, Members(Others(t.blocks, i))) && Size(m3, p) == size
    ensures PayloadSame(m0, m3, Used(s.blocks))
  {
    var i, t := InsertionPoint(s.blocks, p), Grown(s, p, size);
    GrownForm(head, s, p, size);
    GrowRefines(m0, m1, m2, m3, head, s, t, s.blocks[..i], Block(p, size, true), s.blocks[i..]);
    GrownMaps(m0, m1, head, s.blocks[..i], Block(p, size, true), s.blocks[i..], s.blocks, t.blocks);
    GrowPayloads(m0, m1, m3, head, s, t, p, size);
  }

  lemma GrowPayloads(m0: Memory, m1: Memory, m3: Memory, head: int, s: Arena, t: Arena, p: int, size: int)
    requires Good(m0, head, s) && t == Grown(s, p, size) && Shaped(t) && Clear(t.blocks, head, 2 * HEADER)
    requires Mapping(m0, m1, p, size) && Maps(m1, head, t.blocks)
    requires Kept(m1, m3, NodeSet(head, t.blocks), {head} + Elements(s.frees))
    ensures PayloadSame(m0, m3, Used(s.blocks))
  {
    GrownTally(s, p, size);
    NodesSpread(head, t.blocks);
    FreesAreNodes(head, t);
    OpPayloads(m1, m3, head, t, t, t, {head} + Elements(s.frees), Used(s.blocks));
    NothingWritten(m0, head, s);
    forall b, x | b in Used(s.blocks) && Payload(b, x) ensures x in m0 && x in m1 && m1[x] == m0[x] {
      assert x in m0;
    }
    PayloadTrans(m0, m1, m3, Used(s.blocks), Used(s.blocks), Used(s.blocks));
  }

  // ---------------------------------------------------------------- walking the chains

  lemma FitFacts(m: Memory, head: int, s: Arena, k: nat)
    requires Good(m, head, s) && k <= |s.frees| && Tag(m, First(s.frees[k..], head)) != HEAD
    ensures k < |s.frees| && First(s.frees[k..], head) == s.frees[k]
    ensures Size(m, s.frees[k]) == SizeOf(s, k)
    ensures Next(Frees, m, s.frees[k]) == First(s.frees[k + 1..], head)
    ensures Next(Frees, m, s.frees[k]) in m && Next(Frees, m, s.frees[k]) + HEADER in m
  {
    FreeFacts(m, head, s, Members(s.blocks), k);
    HeaderFacts(m, head, s, BlockOf(s, k));
  }

  lemma FitEnd(m: Memory, head: int, s: Arena, k: nat)
    requires Good(m, head, s) && k <= |s.frees| && Tag(m, First(s.frees[k..], head)) == HEAD
    ensures k == |s.frees|
  {
    if k < |s.frees| {
      HeaderFacts(m, head, s, BlockOf(s, k));
    }
  }

  lemma LastIn(head: int, xs: seq<int>, nodes: set<int>)
    requires head in nodes && forall i :: 0 <= i < |xs| ==> xs[i] in nodes
    ensures Last(head, xs) in nodes
  {
  }

  lemma PlaceStart(m: Memory, d: Desc, bs: seq<Block>)
    requires Describes(m, d) && d.bs == Addrs(bs)
    ensures d.head in m && Prev(Blocks, m, d.head) == Last(d.head, Addrs(bs)) && Prev(Blocks, m, d.head) in m
  {
    LastIn(d.head, d.bs, d.nodes);
    assert d.bs == d.bs + [];
    SplitRing(Blocks, m, d.head, d.bs, []);
  }

  lemma PlaceFacts(m: Memory, d: Desc, bs: seq<Block>, i: nat)
    requires Describes(m, d) && d.bs == Addrs(bs) && i <= |bs| && Tag(m, Last(d.head, Addrs(bs[..i]))) != HEAD
    ensures i > 0 && Last(d.head, Addrs(bs[..i])) == bs[i - 1].addr
    ensures Prev(Blocks, m, bs[i - 1].addr) == Last(d.head, Addrs(bs[..i - 1])) && Prev(Blocks, m, bs[i - 1].addr) in m
  {
    assert bs == bs[..i - 1] + [bs[i - 1]] + bs[i..];
    AddrsThree(bs[..i - 1], [bs[i - 1]], bs[i..]);
    var xs := Addrs(bs[..i - 1]);
    forall j | 0 <= j < |xs| ensures xs[j] in d.nodes {
      assert xs[j] == d.bs[j] && d.bs[j] in Elements(d.bs);
    }
    LastIn(d.head, xs, d.nodes);
    assert Addrs([bs[i - 1]]) == [bs[i - 1].addr];
    RingAt(Blocks, m, d.head, Addrs(bs[..i - 1]), bs[i - 1].addr, Addrs(bs[i..]));
  }

  lemma PlaceEnd(m: Memory, d: Desc, bs: seq<Block>, i: nat)
    requires Describes(m, d) && Members(bs) <= d.claims && i <= |bs|
    ensures Tag(m, Last(d.head, Addrs(bs[..i]))) == HEAD ==> i == 0
    ensures i > 0 ==> Last(d.head, Addrs(bs[..i])) == bs[i - 1].addr
  {
    if i > 0 {
      assert bs[i - 1] in Members(bs);
      assert HeaderAt(m, bs[i - 1]);
    }
  }

  // ---------------------------------------------------------------- the neighbours as the code sees them

  lemma LeftSeen(m: Memory, head: int, s: Arena, i: nat)
    requires i < |s.blocks| && GoodBut(m, head, s, Members(Others(s.blocks, i)))
    ensures var ah := s.blocks[i].addr; var pah := Prev(Blocks, m, ah);
      && ah in m && pah in m && Next(Blocks, m, ah) == First(Addrs(s.blocks[i + 1..]), head)
      && ((Tag(m, pah) == FREE && pah + Size(m, pah) == ah) <==> MergesLeft(s.blocks, i))
      && (MergesLeft(s.blocks, i) ==> pah == s.blocks[i - 1].addr)
  {
    PickOut(s, i);
    BlockFacts(m, head, s, Members(Others(s.blocks, i)), s.blocks[..i], s.blocks[i], s.blocks[i + 1..]);
    if i > 0 {
      LeftReady(m, head, s, i);
    }
  }

  lemma RightSeen(m: Memory, head: int, s: Arena, j: nat)
    requires Good(m, head, s) && j < |s.blocks|
    ensures var ah := s.blocks[j].addr; var nah := Next(Blocks, m, ah);
      && ah in m && nah in m && HeaderAt(m, s.blocks[j])
      && ((Tag(m, nah) == FREE && ah + Size(m, ah) == nah) <==> MergesRight(s.blocks, j))
      && (j + 1 < |s.blocks| ==> nah == s.blocks[j + 1].addr)
  {
    PickOut(s, j);
    BlockFacts(m, head, s, Members(s.blocks), s.blocks[..j], s.blocks[j], s.blocks[j + 1..]);
    HeaderFacts(m, head, s, j);
    if j + 1 < |s.blocks| {
      HeaderFacts(m, head, s, j + 1);
      assert Addrs(s.blocks[j + 1..])[0] == s.blocks[j + 1].addr;
    }
  }

  lemma RightReady(m: Memory, head: int, s: Arena, j: nat)
    requires Good(m, head, s) && j < |s.blocks| && !s.blocks[j].used && MergesRight(s.blocks, j)
    ensures s.blocks[j + 1].addr in s.frees && HeaderAt(m, s.blocks[j]) && HeaderAt(m, s.blocks[j + 1])
    ensures var ah, nah := s.blocks[j].addr, s.blocks[j + 1].addr;
      && nah in m && nah + HEADER in m && Prev(Frees, m, nah) + HEADER in m && Next(Frees, m, nah) + HEADER in m
      && Prev(Blocks, m, nah) in m && Next(Blocks, m, nah) in m && ah != nah + HEADER
  {
    FreeIsListed(s, j + 1);
    HeaderFacts(m, head, s, j);
    HeaderFacts(m, head, s, j + 1);
    FreeFacts(m, head, s, Members(s.blocks), IndexOf(s.frees, s.blocks[j + 1].addr));
    PickOut(s, j + 1);
    BlockFacts(m, head, s, Members(s.blocks), s.blocks[..j + 1], s.blocks[j + 1], s.blocks[j + 2..]);
  }

  lemma RightLinksSeen(m0: Memory, m1: Memory, ah: int, nah: int, size: int)
    requires Heading(m0, m1, ah, FREE, size) && ah != nah + HEADER
    ensures Next(Blocks, m1, nah) == Next(Blocks, m0, nah) && Prev(Blocks, m1, nah) == Prev(Blocks, m0, nah)
    ensures Next(Frees, m1, nah) == Next(Frees, m0, nah) && Prev(Frees, m1, nah) == Prev(Frees, m0, nah)
  {
    assert At(m1, nah + HEADER) == At(m0, nah + HEADER);
  }

  lemma RightForm(s: Arena, j: nat)
    requires FreesExact(s) && Sized(s.blocks) && j < |s.blocks| && MergesRight(s.blocks, j)
    ensures s.blocks[j + 1].addr in s.frees
    ensures var pre, b, n, post := s.blocks[..j], s.blocks[j], s.blocks[j + 1], s.blocks[j + 2..];
      && s.blocks == pre + [b, n] + post && Sized([b, n])
      && Absorb(s, j) == JoinedArena(pre, b, n, post, Removed(s.frees, IndexOf(s.frees, n.addr)))
  {
    FreeIsListed(s, j + 1);
  }

  lemma RightDone(m0: Memory, m1: Memory, m2: Memory, m3: Memory, head: int, s: Arena, j: nat)
    requires Good(m0, head, s) && j < |s.blocks| && !s.blocks[j].used && MergesRight(s.blocks, j)
    requires var ah, nah := s.blocks[j].addr, s.blocks[j + 1].addr;
      && Heading(m0, m1, ah, FREE, s.blocks[j].size + s.blocks[j + 1].size)
      && Unlinking(Frees, m1, m2, Prev(Frees, m1, nah), Next(Frees, m1, nah))
      && Unlinking(Blocks, m2, m3, Prev(Blocks, m2, nah), Next(Blocks, m2, nah))
    ensures Good(m3, head, Absorb(s, j))
    ensures PayloadSame(m0, m3, Used(s.blocks))
  {
    RightForm(s, j);
    var k := IndexOf(s.frees, s.blocks[j + 1].addr);
    AbsorbRefines(m0, m1, m2, m3, head, s, s.blocks[..j], s.blocks[j], s.blocks[j + 1], s.blocks[j + 2..], k);
    NodesSpread(head, s.blocks);
    FreesAreNodes(head, s);
    OpPayloads(m0, m3, head, s, s, s, {head} + Elements(s.frees), Used(s.blocks));
  }

  lemma NothingWritten(m: Memory, head: int, s: Arena)
    requires Good(m, head, s)
    ensures PayloadSame(m, m, Used(s.blocks))
  {
    NodesSpread(head, s.blocks);
    FreesAreNodes(head, s);
    OpPayloads(m, m, head, s, s, s, {head} + Elements(s.frees), Used(s.blocks));
  }

  /** After the left side is settled the right neighbour is still the old one. */
  lemma Settled(m0: Memory, m1: Memory, head: int, s: Arena, t: Arena, i: nat)
    requires i < |s.blocks| && s.blocks[i].used && GoodBut(m0, head, s, Members(Others(s.blocks, i)))
    requires t == Settle(s, i) && Good(m1, head, t)
    ensures SettledIndex(s.blocks, i) < |t.blocks| && !t.blocks[SettledIndex(s.blocks, i)].used
    ensures t.blocks[SettledIndex(s.blocks, i)].addr == if MergesLeft(s.blocks, i) then s.blocks[i - 1].addr
      else s.blocks[i].addr
    ensures Next(Blocks, m1, t.blocks[SettledIndex(s.blocks, i)].addr) == Next(Blocks, m0, s.blocks[i].addr)
    ensures Used(t.blocks) == Used(s.blocks) - {s.blocks[i]}
  {
    var j := SettledIndex(s.blocks, i);
    SettleShaped(s, i);
    SettleTally(s, i);
    PickOut(s, i);
    PickOut(t, j);
    assert t.blocks[j + 1..] == s.blocks[i + 1..];
    BlockFacts(m0, head, s, Members(Others(s.blocks, i)), s.blocks[..i], s.blocks[i], s.blocks[i + 1..]);
    BlockFacts(m1, head, t, Members(t.blocks), t.blocks[..j], t.blocks[j], t.blocks[j + 1..]);
  }

  lemma AbsorbedAddr(t: Arena, j: nat)
    requires FreesExact(t) && j < |t.blocks|
    ensures j < |Absorb(t, j).blocks| && Absorb(t, j).blocks[j].addr == t.blocks[j].addr
  {
  }

  ghost function Others(bs: seq<Block>, i: nat): seq<Block>
    requires i < |bs|
  {
    bs[..i] + bs[i + 1..]
  }

  // ---------------------------------------------------------------- handing out a whole block

  lemma PickOut(s: Arena, i: nat)
    requires Sized(s.blocks) && i < |s.blocks|
    ensures s.blocks == s.blocks[..i] + [s.blocks[i]] + s.blocks[i + 1..] && Sized([s.blocks[i]])
    ensures forall b: Block :: s.blocks[i := b] == s.blocks[..i] + [b] + s.blocks[i + 1..]
  {
  }

  lemma TakeReady(m: Memory, head: int, s: Arena, i: nat, k: nat)
    requires Good(m, head, s) && i < |s.blocks| && k < |s.frees| && s.frees[k] == s.blocks[i].addr
    ensures var fp := s.blocks[i].addr;
      && Size(m, fp) == s.blocks[i].size && fp in m && fp + HEADER in m
      && Next(Frees, m, fp) + HEADER in m && Prev(Frees, m, fp) + HEADER in m
  {
    HeaderFacts(m, head, s, i);
    FreeFacts(m, head, s, Members(s.blocks), k);
  }

  lemma TakeLinksSeen(m0: Memory, m1: Memory, fp: int, size: int)
    requires Heading(m0, m1, fp, USED, size)
    ensures Next(Frees, m1, fp) == Next(Frees, m0, fp) && Prev(Frees, m1, fp) == Prev(Frees, m0, fp)
  {
    assert At(m1, fp + HEADER) == At(m0, fp + HEADER);
  }

  lemma TakeDone(m0: Memory, m1: Memory, m2: Memory, head: int, s: Arena, i: nat, k: nat)
    requires Good(m0, head, s) && i < |s.blocks| && k < |s.frees| && s.frees[k] == s.blocks[i].addr && !s.blocks[i].used
    requires var fp := s.blocks[i].addr;
      && Heading(m0, m1, fp, USED, s.blocks[i].size)
      && Unlinking(Frees, m1, m2, Prev(Frees, m0, fp), Next(Frees, m0, fp))
    ensures Good(m2, head, Arena(s.blocks[i := s.blocks[i].(used := true)], Removed(s.frees, k)))
    ensures PayloadSame(m0, m2, Used(s.blocks))
  {
    PickOut(s, i);
    WholeRefines(m0, m1, m2, head, s, s.blocks[..i], s.blocks[i], s.blocks[i + 1..], k);
    NodesSpread(head, s.blocks);
    FreesAreNodes(head, s);
    OpPayloads(m0, m2, head, s, s, s, {head} + Elements(s.frees), Used(s.blocks));
  }

  // ---------------------------------------------------------------- merging to the left

  lemma LeftReady(m: Memory, head: int, s: Arena, i: nat)
    requires 0 < i < |s.blocks| && GoodBut(m, head, s, Members(Others(s.blocks, i)))
    ensures HeaderAt(m, s.blocks[i - 1]) && s.blocks[i - 1].addr in m && s.blocks[i].addr in m
    ensures Prev(Blocks, m, s.blocks[i].addr) == s.blocks[i - 1].addr && Next(Blocks, m, s.blocks[i].addr) in m
    ensures s.blocks[i - 1].addr != s.blocks[i].addr
  {
    PickOut(s, i);
    BlockFacts(m, head, s, Members(Others(s.blocks, i)), s.blocks[..i], s.blocks[i], s.blocks[i + 1..]);
    assert Others(s.blocks, i)[i - 1] == s.blocks[i - 1];
    assert s.blocks[i - 1] in Members(Others(s.blocks, i));
    assert Addrs(s.blocks[..i])[i - 1] == s.blocks[i - 1].addr;
    assert s.blocks[i - 1].End() <= s.blocks[i].addr;
  }

  lemma LeftLinksSeen(m0: Memory, m1: Memory, pah: int, ah: int, size: int)
    requires Heading(m0, m1, pah, FREE, size)
    ensures Next(Blocks, m1, ah) == Next(Blocks, m0, ah) && Prev(Blocks, m1, ah) == Prev(Blocks, m0, ah)
  {
  }

  lemma LeftForm(s: Arena, i: nat)
    requires Sized(s.blocks) && 0 < i < |s.blocks| && MergesLeft(s.blocks, i)
    ensures var pre, l, b, post := s.blocks[..i - 1], s.blocks[i - 1], s.blocks[i], s.blocks[i + 1..];
      && s.blocks == pre + [l, b] + post && Sized([l, b]) && Others(s.blocks, i) == pre + [l] + post
      && Settle(s, i) == JoinedArena(pre, l, b, post, s.frees)
  {
  }

  lemma LeftDone(m0: Memory, m1: Memory, m2: Memory, head: int, s: Arena, i: nat)
    requires 0 < i < |s.blocks| && s.blocks[i].used && MergesLeft(s.blocks, i)
    requires GoodBut(m0, head, s, Members(Others(s.blocks, i)))
    requires var pah, ah := s.blocks[i - 1].addr, s.blocks[i].addr;
      && Heading(m0, m1, pah, FREE, s.blocks[i - 1].size + s.blocks[i].size)
      && Unlinking(Blocks, m1, m2, pah, Next(Blocks, m0, ah))
    ensures Good(m2, head, Settle(s, i))
    ensures PayloadSame(m0, m2, Used(s.blocks) - {s.blocks[i]})
  {
    LeftForm(s, i);
    JoinLeftRefines(m0, m1, m2, head, s, s.blocks[..i - 1], s.blocks[i - 1], s.blocks[i], s.blocks[i + 1..]);
    NodesSpread(head, s.blocks);
    FreesAreNodes(head, s);
    OpPayloads(m0, m2, head, s, s, s, {head} + Elements(s.frees), Used(s.blocks) - {s.blocks[i]});
  }

  // ---------------------------------------------------------------- entering the free chain

  lemma MarkReady(m: Memory, head: int, s: Arena, i: nat)
    requires i < |s.blocks| && s.blocks[i].used && GoodBut(m, head, s, Members(Others(s.blocks, i)))
    ensures var ah := s.blocks[i].addr;
      && ah in m && ah + HEADER in m && ah != head && head + HEADER in m && Next(Frees, m, head) + HEADER in m
      && Next(Frees, m, head) != ah && ah != head + HEADER
  {
    PickOut(s, i);
    BlockFacts(m, head, s, Members(Others(s.blocks, i)), s.blocks[..i], s.blocks[i], s.blocks[i + 1..]);
    FrontFacts(m, head, s);
    assert s.blocks[i] in Used(s.blocks);
    UsedNotFree(s, s.blocks[i]);
    assert s.blocks[i].addr != head + HEADER;
  }

  /** The front of the free chain as the head node sees it. */
  lemma FrontFacts(m: Memory, head: int, s: Arena)
    requires Shaped(s) && Clear(s.blocks, head, 2 * HEADER) && Rings(m, head, Addrs(s.blocks), s.frees)
    requires Maps(m, head, s.blocks)
    ensures head in m && head + HEADER in m && Next(Frees, m, head) == First(s.frees, head)
    ensures Next(Frees, m, head) in m && Next(Frees, m, head) + HEADER in m
    ensures (Next(Frees, m, head) == head || Next(Frees, m, head) in Elements(s.frees))
  {
    NodesSpread(head, s.blocks);
    FreesAreNodes(head, s);
    EndsMapped(m, head, s, s.frees);
    assert s.frees == [] + s.frees;
    SplitRing(Frees, m, head, [], s.frees);
    Ends(head, s.frees);
  }

  lemma Ends(head: int, ds: seq<int>)
    ensures First(ds, head) == head || First(ds, head) in Elements(ds)
  {
  }

  lemma MarkLinksSeen(m0: Memory, m1: Memory, head: int, ah: int, size: int)
    requires Heading(m0, m1, ah, FREE, size) && ah != head + HEADER
    ensures Next(Frees, m1, head) == Next(Frees, m0, head)
  {
    assert At(m1, head + HEADER) == At(m0, head + HEADER);
  }

  lemma MarkDone(m0: Memory, m1: Memory, m2: Memory, head: int, s: Arena, i: nat)
    requires i < |s.blocks| && s.blocks[i].used && !MergesLeft(s.blocks, i)
    requires GoodBut(m0, head, s, Members(Others(s.blocks, i)))
    requires Heading(m0, m1, s.blocks[i].addr, FREE, s.blocks[i].size)
    requires Linking(Frees, m1, m2, head, s.blocks[i].addr, Next(Frees, m0, head))
    ensures Good(m2, head, Settle(s, i))
    ensures PayloadSame(m0, m2, Used(s.blocks) - {s.blocks[i]})
  {
    var pre, b, post := s.blocks[..i], s.blocks[i], s.blocks[i + 1..];
    PickOut(s, i);
    MarkRefines(m0, m1, m2, head, s, pre, b, post);
    SettleTally(s, i);
    var t := Settle(s, i);
    assert Elements(t.frees) == {b.addr} + Elements(s.frees);
    MarkNodes(head, s, i);
    OpPayloads(m0, m2, head, s, s, t, {head} + Elements(s.frees) + {b.addr}, Used(s.blocks) - {b});
  }

  lemma MarkNodes(head: int, s: Arena, i: nat)
    requires Shaped(s) && Clear(s.blocks, head, 2 * HEADER) && i < |s.blocks|
    ensures {head} + Elements(s.frees) + {s.blocks[i].addr} <= NodeSet(head, s.blocks)
  {
    PickOut(s, i);
    NodesSpread(head, s.blocks);
    FreesAreNodes(head, s);
    AddrIn(head, s.blocks[..i], s.blocks[i], s.blocks[i + 1..], s.blocks);
  }

  // ---------------------------------------------------------------- splitting

  lemma SplitForm(s: Arena, i: nat, k: nat, need: int)
    requires Sized(s.blocks) && i < |s.blocks| && k < |s.frees| && need <= s.blocks[i].size - 2 * HEADER
    ensures s.blocks == s.blocks[..i] + [s.blocks[i]] + s.blocks[i + 1..] && Sized([s.blocks[i]])
    ensures Carve(s, i, k, need) == SplitArena(s, s.blocks[..i], s.blocks[i], s.blocks[i + 1..], k, need)
  {
  }

  lemma SplitDone(m0: Memory, m1: Memory, m2: Memory, m3: Memory, m4: Memory, head: int, s: Arena, i: nat, k: nat,
                  need: int)
    requires Good(m0, head, s) && i < |s.blocks| && k < |s.frees| && s.frees[k] == s.blocks[i].addr && !s.blocks[i].used
    requires Aligned(need) && 2 * HEADER <= need <= s.blocks[i].size - 2 * HEADER
    requires var fp := s.blocks[i].addr;
      && Heading(m0, m1, fp + need, FREE, s.blocks[i].size - need) && Heading(m1, m2, fp, USED, need)
      && Linking(Blocks, m2, m3, fp, fp + need, Next(Blocks, m0, fp))
      && Linking(Frees, m3, m4, Prev(Frees, m0, fp), fp + need, Next(Frees, m0, fp))
    ensures Good(m4, head, Carve(s, i, k, need))
    ensures PayloadSame(m0, m4, Used(s.blocks))
  {
    var pre, b, post := s.blocks[..i], s.blocks[i], s.blocks[i + 1..];
    SplitForm(s, i, k, need);
    SplitRefines(m0, m1, m2, m3, m4, head, s, pre, b, post, k, need);
    CarveTally(s, i, k, need);
    SplitPayloads(m0, m4, head, s, SplitArena(s, pre, b, post, k, need), pre, b, post, k, need);
  }

  /** What the split relies on before its first store. */
  lemma SplitReady(m: Memory, head: int, s: Arena, i: nat, k: nat, need: int)
    requires Good(m, head, s) && i < |s.blocks| && k < |s.frees| && s.frees[k] == s.blocks[i].addr && !s.blocks[i].used
    requires Aligned(need) && 2 * HEADER <= need <= s.blocks[i].size - 2 * HEADER
    ensures var fp, nfp := s.blocks[i].addr, s.blocks[i].addr + need;
      && s.blocks == s.blocks[..i] + [s.blocks[i]] + s.blocks[i + 1..] && Sized([s.blocks[i]])
      && Size(m, fp) == s.blocks[i].size && fp in m && nfp in m && nfp + HEADER in m && fp + HEADER in m
      && Next(Blocks, m, fp) in m && Next(Frees, m, fp) + HEADER in m && Prev(Frees, m, fp) + HEADER in m
      && nfp != Next(Blocks, m, fp) && nfp != Next(Frees, m, fp) && nfp != Prev(Frees, m, fp)
  {
    var pre, b, post := s.blocks[..i], s.blocks[i], s.blocks[i + 1..];
    SplitForm(s, i, k, need);
    HeaderFacts(m, head, s, i);
    BlockFacts(m, head, s, Members(s.blocks), pre, b, post);
    FreeFacts(m, head, s, Members(s.blocks), k);
    SplitPointMapped(m, head, s, i, need);
    SplitPointFresh(m, head, s, i, k, need);
  }

  lemma SplitPointMapped(m: Memory, head: int, s: Arena, i: nat, need: int)
    requires Maps(m, head, s.blocks) && Sized(s.blocks) && i < |s.blocks| && Aligned(need)
    requires 0 <= need <= s.blocks[i].size - 2 * HEADER
    ensures s.blocks[i].addr + need in m && s.blocks[i].addr + need + HEADER in m
  {
    var a := s.blocks[i].addr + need;
    assert Aligned(s.blocks[i].addr);
    AlignedArithmetic(s.blocks[i].addr, need);
    AlignedArithmetic(a, 32);
    assert Within(s.blocks[i], a) && Within(s.blocks[i], a + HEADER);
    OwnsByOne(s.blocks, |s.blocks|, a);
    OwnsByOne(s.blocks, |s.blocks|, a + HEADER);
  }

  /** The split point is no node of the present chains. */
  lemma SplitPointFresh(m: Memory, head: int, s: Arena, i: nat, k: nat, need: int)
    requires Good(m, head, s) && i < |s.blocks| && k < |s.frees| && s.frees[k] == s.blocks[i].addr && !s.blocks[i].used
    requires Aligned(need) && 2 * HEADER <= need <= s.blocks[i].size - 2 * HEADER
    ensures var fp, nfp := s.blocks[i].addr, s.blocks[i].addr + need;
      nfp != Next(Blocks, m, fp) && nfp != Next(Frees, m, fp) && nfp != Prev(Frees, m, fp)
  {
    var pre, b, post := s.blocks[..i], s.blocks[i], s.blocks[i + 1..];
    SplitForm(s, i, k, need);
    SplitEnds(head, s, pre, b, post, k, need);
    BlockFacts(m, head, s, Members(s.blocks), pre, b, post);
    FreeFacts(m, head, s, Members(s.blocks), k);
  }

  lemma SplitEnds(head: int, s: Arena, pre: seq<Block>, b: Block, post: seq<Block>, k: nat, need: int)
    requires Shaped(s) && Clear(s.blocks, head, 2 * HEADER) && s.blocks == pre + [b] + post
    requires k < |s.frees| && s.frees[k] == b.addr && !b.used && Sized([b])
    requires Aligned(need) && 2 * HEADER <= need <= b.size - 2 * HEADER
    ensures b.addr + need != First(Addrs(post), head)
    ensures b.addr + need != Last(head, s.frees[..k]) && b.addr + need != First(s.frees[k + 1..], head)
  {
    hide Shaped, Clear, Sized;
    var t, xs, ys := SplitArena(s, pre, b, post, k, need), s.frees[..k], s.frees[k + 1..];
    SplitShape(head, s, pre, b, post, k, need);
    SplitNodes(head, t, |pre|, k);
    AroundNode(head, Addrs(pre) + [b.addr], b.addr + need, Addrs(post));
    assert t.frees == xs + [b.addr + need] + ys;
    AroundNode(head, xs, b.addr + need, ys);
  }

  lemma SplitLinksSeen(m0: Memory, m1: Memory, m2: Memory, m3: Memory, fp: int, nfp: int, size: int)
    requires nfp == fp + size && size >= 2 * HEADER
    requires Heading(m0, m1, nfp, FREE, Size(m0, fp) - size) && Heading(m1, m2, fp, USED, size)
    requires Linking(Blocks, m2, m3, fp, nfp, Next(Blocks, m0, fp))
    ensures Next(Frees, m3, fp) == Next(Frees, m0, fp) && Prev(Frees, m3, fp) == Prev(Frees, m0, fp)
    ensures m0.Keys <= m3.Keys
  {
    assert At(m1, fp + HEADER) == At(m0, fp + HEADER) && At(m2, fp + HEADER) == At(m1, fp + HEADER);
  }

  lemma SplitPayloads(m: Memory, m': Memory, head: int, s: Arena, t: Arena, pre: seq<Block>, b: Block, post: seq<Block>,
                      k: nat, need: int)
    requires Shaped(s) && Clear(s.blocks, head, 2 * HEADER) && Maps(m, head, s.blocks) && s.blocks == pre + [b] + post
    requires k < |s.frees| && t == SplitArena(s, pre, b, post, k, need) && 0 < need < b.size
    requires Shaped(t) && Clear(t.blocks, head, 2 * HEADER) && Used(s.blocks) <= Used(t.blocks)
    requires Kept(m, m', NodeSet(head, t.blocks), {head} + Elements(s.frees) + Elements(t.frees))
    ensures PayloadSame(m, m', Used(s.blocks))
  {
    SplitMaps(m, m, head, s, pre, b, post, k, need);
    NodesSpread(head, s.blocks);
    NodesSpread(head, t.blocks);
    FreesAreNodes(head, t);
    SplitSubsets(head, s, t, pre, b, post, k, need);
    OpPayloads(m, m', head, t, s, t, {head} + Elements(s.frees) + Elements(t.frees), Used(s.blocks));
  }

  lemma SplitSubsets(head: int, s: Arena, t: Arena, pre: seq<Block>, b: Block, post: seq<Block>, k: nat, need: int)
    requires s.blocks == pre + [b] + post && k < |s.frees| && t == SplitArena(s, pre, b, post, k, need)
    requires FreesExact(s) && Nodes(head, Addrs(s.blocks))
    ensures Elements(s.frees) <= NodeSet(head, t.blocks)
  {
    FreesAreNodes(head, s);
    AddrIn(head, pre, b, post, s.blocks);
    PairIn(pre, Block(b.addr, need, true), Block(b.addr + need, b.size - need, false), post, t.blocks);
  }
}
