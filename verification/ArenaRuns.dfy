/** Whole runs of malloc and free: what a client holds, what the kernel gave and got back. */
module ArenaRuns {
  import opened Options
  import opened ArenaModel

  // ---------------------------------------------------------------- tallies over the block list

  ghost function Used(bs: seq<Block>): set<Block> {
    set b | b in bs && b.used
  }

  ghost function Sum(bs: seq<Block>, n: nat): int
    requires n <= |bs|
  {
    if n == 0 then 0 else Sum(bs, n - 1) + bs[n - 1].size
  }

  ghost function Total(bs: seq<Block>): int {
    Sum(bs, |bs|)
  }

  lemma {:induction false} SumConcat(xs: seq<Block>, ys: seq<Block>, n: nat)
    requires n <= |xs| + |ys|
    ensures Sum(xs + ys, n) == if n <= |xs| then Sum(xs, n) else Total(xs) + Sum(ys, n - |xs|)
  {
    if n > 0 {
      SumConcat(xs, ys, n - 1);
    }
  }

  lemma TallyConcat(xs: seq<Block>, ys: seq<Block>)
    ensures Used(xs + ys) == Used(xs) + Used(ys)
    ensures Total(xs + ys) == Total(xs) + Total(ys)
  {
    SumConcat(xs, ys, |xs| + |ys|);
  }

  lemma TallyThree(pre: seq<Block>, mid: seq<Block>, post: seq<Block>)
    ensures Used(pre + mid + post) == Used(pre) + Used(mid) + Used(post)
    ensures Total(pre + mid + post) == Total(pre) + Total(mid) + Total(post)
  {
    TallyConcat(pre, mid);
    TallyConcat(pre + mid, post);
  }

  lemma TallyOne(b: Block)
    ensures Used([b]) == if b.used then {b} else {}
    ensures Total([b]) == b.size
  {
    assert b in [b];
    assert Sum([b], 1) == Sum([b], 0) + b.size;
  }

  lemma TallyTwo(a: Block, b: Block)
    ensures Used([a, b]) == Used([a]) + Used([b]) && Total([a, b]) == a.size + b.size
  {
    assert [a, b] == [a] + [b];
    TallyConcat([a], [b]);
    TallyOne(a);
    TallyOne(b);
  }

  lemma UsedDisjoint(pre: seq<Block>, b: Block, post: seq<Block>)
    requires Solid(pre + [b] + post)
    ensures b !in Used(pre) && b !in Used(post)
  {
    SolidConcat(pre + [b], post);
    SolidConcat(pre, [b]);
    assert [b][0] == b && (pre + [b])[|pre|] == b;
  }

  // ---------------------------------------------------------------- each step's effect on the tallies

  lemma SplitTally(pre: seq<Block>, b: Block, post: seq<Block>, need: int)
    requires !b.used
    ensures var mid := [Block(b.addr, need, true), Block(b.addr + need, b.size - need, false)];
      && Used(pre + mid + post) == Used(pre + [b] + post) + {mid[0]}
      && Total(pre + mid + post) == Total(pre + [b] + post)
  {
    var x, y := Block(b.addr, need, true), Block(b.addr + need, b.size - need, false);
    TallyThree(pre, [b], post);
    TallyThree(pre, [x, y], post);
    TallyTwo(x, y);
    TallyOne(b);
    TallyOne(x);
    TallyOne(y);
  }

  lemma CarveTally(s: Arena, i: nat, k: nat, need: int)
    requires i < |s.blocks| && k < |s.frees| && !s.blocks[i].used
    ensures Used(Carve(s, i, k, need).blocks)
      == Used(s.blocks) + {Block(s.blocks[i].addr, CarvedSize(s.blocks[i], need), true)}
    ensures Total(Carve(s, i, k, need).blocks) == Total(s.blocks)
  {
    var b, pre, post := s.blocks[i], s.blocks[..i], s.blocks[i + 1..];
    assert s.blocks == pre + [b] + post;
    if b.size >= need + 2 * HEADER {
      SplitTally(pre, b, post, need);
    } else {
      var w := b.(used := true);
      TallyOne(b);
      TallyOne(w);
      TallyThree(pre, [b], post);
      TallyThree(pre, [w], post);
      assert s.blocks[i := w] == pre + [w] + post;
    }
  }

  lemma UsedElsewhere(bs: seq<Block>, i: nat)
    requires Solid(bs) && i < |bs| && !bs[i].used
    ensures forall c :: c in Used(bs) ==> c.addr != bs[i].addr
  {
    forall c | c in Used(bs) ensures c.addr != bs[i].addr {
      var m :| 0 <= m < |bs| && bs[m] == c;
      assert m != i;
    }
  }

  lemma JoinTally(pre: seq<Block>, l: Block, b: Block, post: seq<Block>)
    requires !l.used
    ensures var m := Block(l.addr, l.size + b.size, false);
      && Used(pre + [l, b] + post) == Used(pre + [m] + post) + Used([b])
      && Total(pre + [m] + post) == Total(pre + [l, b] + post)
      && Used(pre + [m] + post) == Used(pre) + Used(post)
  {
    var m := Block(l.addr, l.size + b.size, false);
    TallyThree(pre, [l, b], post);
    TallyThree(pre, [m], post);
    TallyTwo(l, b);
    TallyOne(l);
    TallyOne(m);
  }

  lemma SettleTally(s: Arena, i: nat)
    requires Shaped(s) && i < |s.blocks| && s.blocks[i].used
    ensures Used(Settle(s, i).blocks) == Used(s.blocks) - {s.blocks[i]}
    ensures Total(Settle(s, i).blocks) == Total(s.blocks)
  {
    if MergesLeft(s.blocks, i) {
      SettleLeftTally(s, i);
    } else {
      SettleMarkTally(s, i);
    }
  }

  lemma SettleMarkTally(s: Arena, i: nat)
    requires Shaped(s) && i < |s.blocks| && s.blocks[i].used && !MergesLeft(s.blocks, i)
    ensures Used(Settle(s, i).blocks) == Used(s.blocks) - {s.blocks[i]}
    ensures Total(Settle(s, i).blocks) == Total(s.blocks)
  {
    var pre, b, post := s.blocks[..i], s.blocks[i], s.blocks[i + 1..];
    assert s.blocks == pre + [b] + post;
    UsedDisjoint(pre, b, post);
    MarkTally(pre, b, post);
    assert s.blocks[i := b.(used := false)] == pre + [b.(used := false)] + post;
  }

  lemma MarkTally(pre: seq<Block>, b: Block, post: seq<Block>)
    requires b.used && b !in Used(pre) && b !in Used(post)
    ensures Used(pre + [b.(used := false)] + post) == Used(pre + [b] + post) - {b}
    ensures Total(pre + [b.(used := false)] + post) == Total(pre + [b] + post)
  {
    TallyOne(b);
    TallyOne(b.(used := false));
    TallyThree(pre, [b], post);
    TallyThree(pre, [b.(used := false)], post);
  }

  lemma SettleLeftTally(s: Arena, i: nat)
    requires Shaped(s) && 0 < i < |s.blocks| && s.blocks[i].used && MergesLeft(s.blocks, i)
    ensures Used(Settle(s, i).blocks) == Used(s.blocks) - {s.blocks[i]}
    ensures Total(Settle(s, i).blocks) == Total(s.blocks)
  {
    var pre, l, b, post := s.blocks[..i - 1], s.blocks[i - 1], s.blocks[i], s.blocks[i + 1..];
    TallyOne(b);
    assert s.blocks == pre + [l, b] + post;
    assert s.blocks == pre + [l] + [b] + post;
    UsedDisjoint(pre + [l], b, post);
    TallyConcat(pre, [l]);
    JoinTally(pre, l, b, post);
  }

  lemma AbsorbTally(s: Arena, j: nat)
    requires FreesExact(s) && j < |s.blocks| && !s.blocks[j].used
    ensures Used(Absorb(s, j).blocks) == Used(s.blocks)
    ensures Total(Absorb(s, j).blocks) == Total(s.blocks)
  {
    if MergesRight(s.blocks, j) {
      var pre, b, n, post := s.blocks[..j], s.blocks[j], s.blocks[j + 1], s.blocks[j + 2..];
      assert s.blocks == pre + [b, n] + post;
      TallyOne(n);
      JoinTally(pre, b, n, post);
    }
  }

  lemma FreeBlockTally(s: Arena, i: nat)
    requires Shaped(s) && i < |s.blocks| && s.blocks[i].used
    ensures Used(FreeBlock(s, i).blocks) == Used(s.blocks) - {s.blocks[i]}
    ensures Total(FreeBlock(s, i).blocks) == Total(s.blocks)
  {
    SettleShaped(s, i);
    SettleTally(s, i);
    AbsorbTally(Settle(s, i), SettledIndex(s.blocks, i));
  }

  lemma TrimTally(s: Arena, j: nat, k: nat, h: int, t: int)
    requires h >= 0 && t >= 0 && j < |s.blocks| && k < |s.frees| && !s.blocks[j].used
    ensures Used(Trim(s, j, k, h, t).blocks) == Used(s.blocks)
    ensures Total(Trim(s, j, k, h, t).blocks) == Total(s.blocks) - Returned(s.blocks[j], h, t)
  {
    var b := s.blocks[j];
    if WorthReturning(b, h, t) {
      assert s.blocks == s.blocks[..j] + [b] + s.blocks[j + 1..];
      TrimPartsTally(s.blocks[..j], b, s.blocks[j + 1..], h, t);
    }
  }

  lemma TrimPartsTally(pre: seq<Block>, b: Block, post: seq<Block>, h: int, t: int)
    requires h >= 0 && t >= 0 && !b.used
    ensures Used(pre + Remnant(b, h, t) + post) == Used(pre + [b] + post)
    ensures Total(pre + Remnant(b, h, t) + post) == Total(pre + [b] + post) - b.size + h + t
  {
    TallyThree(pre, [b], post);
    TallyThree(pre, Remnant(b, h, t), post);
    TallyOne(b);
    RemnantTally(b, h, t);
  }

  /** The bytes handed to munmap when block `b` has just been released. */
  function Returned(b: Block, h: int, t: int): int {
    if WorthReturning(b, h, t) then b.size - h - t else 0
  }

  lemma RemnantTally(b: Block, h: int, t: int)
    requires h >= 0 && t >= 0
    ensures Used(Remnant(b, h, t)) == {} && Total(Remnant(b, h, t)) == h + t
  {
    var x, y := Block(b.addr, h, false), Block(b.End() - t, t, false);
    TallyOne(x);
    TallyOne(y);
    TallyConcat(if h > 0 then [x] else [], if t > 0 then [y] else []);
  }

  lemma GrownTally(s: Arena, p: int, size: int)
    ensures Used(Grown(s, p, size).blocks) == Used(s.blocks) + {Block(p, size, true)}
    ensures Total(Grown(s, p, size).blocks) == Total(s.blocks) + size
  {
    var i := InsertionPoint(s.blocks, p);
    assert s.blocks == s.blocks[..i] + s.blocks[i..];
    InsertTally(s.blocks[..i], Block(p, size, true), s.blocks[i..]);
  }

  lemma InsertTally(pre: seq<Block>, b: Block, post: seq<Block>)
    requires b.used
    ensures Used(pre + [b] + post) == Used(pre + post) + {b}
    ensures Total(pre + [b] + post) == Total(pre + post) + b.size
  {
    TallyConcat(pre, post);
    TallyThree(pre, [b], post);
    TallyOne(b);
  }

  // ---------------------------------------------------------------- malloc and free

  /** The bytes malloc maps. */
  ghost function MappedBy(s: Arena, size: nat, answer: Option<int>): int
    requires Inv(s)
  {
    if size > 0 && FirstFit(s, Needed(size), 0).None? && answer.Some? then ChunkFor(Needed(size)) else 0
  }

  ghost predicate Gains(bs: seq<Block>, bs': seq<Block>, ptr: int, n: int) {
    && Used(bs') == Used(bs) + {Block(ptr - HEADER, n, true)}
    && forall c :: c in Used(bs) ==> c.addr != ptr - HEADER
  }

  /** malloc adds at most one live block, large enough for a header and the request but not much larger, and touches
      no other; what the block list gains in bytes is what was mapped. */
  lemma MallocTally(s: Arena, size: nat, page: int, answer: Option<int>) returns (n: int)
    requires Inv(s) && PageOk(page)
    requires answer.Some? ==> KernelGives(s, page, answer.value, ChunkFor(Needed(size)))
    ensures var (t, r) := Malloc(s, size, page, answer);
      && Total(t.blocks) == Total(s.blocks) + MappedBy(s, size, answer)
      && (r.None? ==> t == s)
      && (r.Some? ==> size + HEADER <= n < size + 4 * HEADER && Gains(s.blocks, t.blocks, r.value, n))
      && (r.None? <==> size == 0 || (FirstFit(s, Needed(size), 0).None? && answer.None?))
  {
    n := 0;
    if size > 0 {
      var need := Needed(size);
      NeededFacts(size);
      var fit := FirstFit(s, need, 0);
      if fit.Some? {
        var i := BlockOf(s, fit.value);
        CarveTally(s, i, fit.value, need);
        UsedElsewhere(s.blocks, i);
        n := CarvedSize(s.blocks[i], need);
      } else if answer.Some? {
        RefilledInv(s, size, page, answer.value);
        var c := ChunkFor(need);
        var f, j := Refilled(s, answer.value, c), RefillIndex(s, answer.value, c);
        RefilledTally(s, answer.value, c);
        CarveTally(f, j, IndexOf(f.frees, f.blocks[j].addr), need);
        UsedElsewhere(f.blocks, j);
        n := CarvedSize(f.blocks[j], need);
      }
    }
  }

  lemma RefilledTally(s: Arena, p: int, c: int)
    requires Inv(s) && Aligned(p) && Aligned(c) && c >= 2 * HEADER && Clear(s.blocks, p, c)
    ensures Used(Refilled(s, p, c).blocks) == Used(s.blocks)
    ensures Total(Refilled(s, p, c).blocks) == Total(s.blocks) + c
  {
    GrownInv(s, p, c);
    GrownTally(s, p, c);
    FreeBlockTally(Grown(s, p, c), InsertionPoint(s.blocks, p));
    NotAmongClear(s.blocks, p, c);
  }

  lemma NotAmongClear(bs: seq<Block>, p: int, c: int)
    requires Clear(bs, p, c) && Sized(bs) && c > 0
    ensures Block(p, c, true) !in Used(bs)
  {
  }

  /** The block that a release leaves, before pages are returned. */
  ghost function Merged(s: Arena, ptr: int): (b: Block)
    requires Inv(s) && IsLive(s, ptr)
    ensures Sized([b])
  {
    var i := LiveIndex(s, ptr);
    FreeBlockIndex(s, i);
    FreeBlock(s, i).blocks[SettledIndex(s.blocks, i)]
  }

  ghost function ReturnedBy(s: Arena, ptr: int, page: int): int
    requires Inv(s) && PageOk(page) && IsLive(s, ptr)
  {
    Returned(Merged(s, ptr), HeadPortion(Merged(s, ptr), page), TailPortion(Merged(s, ptr), page))
  }

  /** free drops exactly the freed block from the live ones; the bytes the list loses are returned. */
  lemma FreeTally(s: Arena, ptr: int, page: int)
    requires Inv(s) && PageOk(page) && IsLive(s, ptr)
    ensures Used(Free(s, ptr, page).blocks) == Used(s.blocks) - {s.blocks[LiveIndex(s, ptr)]}
    ensures Total(Free(s, ptr, page).blocks) == Total(s.blocks) - ReturnedBy(s, ptr, page)
  {
    var i, b := LiveIndex(s, ptr), Merged(s, ptr);
    FreeBlockIndex(s, i);
    FreeBlockTally(s, i);
    var f, j := FreeBlock(s, i), SettledIndex(s.blocks, i);
    ReturnedRange(b, page);
    TrimTally(f, j, IndexOf(f.frees, b.addr), HeadPortion(b, page), TailPortion(b, page));
  }

  /** Lines 273-320: what goes back to the system is nothing, or at least a chunk of whole pages. */
  lemma ReturnedPages(s: Arena, ptr: int, page: int)
    requires Inv(s) && PageOk(page) && IsLive(s, ptr)
    ensures ReturnedBy(s, ptr, page) == 0 || ReturnedBy(s, ptr, page) >= CHUNK
    ensures ReturnedBy(s, ptr, page) % page == 0
  {
    ReturnedOf(Merged(s, ptr), page);
  }

  lemma ReturnedOf(b: Block, page: int)
    requires PageOk(page) && Sized([b])
    ensures var r := Returned(b, HeadPortion(b, page), TailPortion(b, page));
      (r == 0 || r >= CHUNK) && r % page == 0
  {
    hide HeadPortion, TailPortion, Portions;
    var h, t := HeadPortion(b, page), TailPortion(b, page);
    ReturnedRange(b, page);
    if WorthReturning(b, h, t) {
      assert Returned(b, h, t) == b.size - h - t;
    } else {
      assert Returned(b, h, t) == 0;
    }
  }

  // ---------------------------------------------------------------- runs

  /** A call of malloc, of free, or of realloc with a pointer and a size that are not null. */
  datatype Op =
    | Alloc(size: nat, answer: Option<int>)
    | Release(ptr: int)
    | Resize(ptr: int, size: nat, answer: Option<int>)

  /** The arena, the requests the client has not freed (pointer to size), and the running totals. */
  datatype Run = Run(arena: Arena, live: map<int, nat>, mapped: int, returned: int)

  const Start: Run := Run(Arena([], []), map[], 0, 0)

  /** Realloc, lines 35-37: the block is neither too small nor more than four times too large. */
  predicate GoodSize(have: int, need: int) {
    have >= need && need >= have / 4
  }

  /** Whether realloc leaves the block where it is. */
  ghost predicate Stays(s: Arena, ptr: int, size: nat)
    requires IsLive(s, ptr)
  {
    GoodSize(s.blocks[LiveIndex(s, ptr)].size, Needed(size))
  }

  /** What the C standard asks of a client and the system of mmap: free and resize only what was handed
      out, and map memory that is not in use.  A run ends before a realloc that faults. */
  ghost predicate Legal(r: Run, op: Op, page: int)
    requires page > 0
  {
    match op
    case Alloc(size, answer) =>
      answer.Some? ==> KernelGives(r.arena, page, answer.value, ChunkFor(Needed(size)))
    case Release(ptr) => ptr in r.live
    case Resize(ptr, size, answer) =>
      && ptr in r.live && IsLive(r.arena, ptr) && size > 0 && Inv(r.arena)
      && (answer.Some? ==> KernelGives(r.arena, page, answer.value, ChunkFor(Needed(Needed(size)))))
      && (Stays(r.arena, ptr, size) || FirstFit(r.arena, Needed(Needed(size)), 0).Some? || answer.Some?)
  }

  ghost function Pointers(bs: set<Block>): set<int> {
    set b | b in bs :: b.addr + HEADER
  }

  /** The client's requests and the live blocks correspond, and every block is large enough. */
  ghost predicate Backed(bs: set<Block>, live: map<int, nat>) {
    && live.Keys == Pointers(bs)
    && forall b :: b in bs && b.addr + HEADER in live ==> b.size >= live[b.addr + HEADER] + HEADER
  }

  ghost predicate RunInv(r: Run, page: int)
    requires page > 0
  {
    && Inv(r.arena)
    && Backed(Used(r.arena.blocks), r.live)
    && Total(r.arena.blocks) == r.mapped - r.returned
    && WholePages(r.returned, page)
  }

  predicate WholePages(x: int, page: int)
    requires page > 0
  {
    x % page == 0
  }

  lemma LiveIsUsed(s: Arena, p: int)
    requires p in Pointers(Used(s.blocks))
    ensures IsLive(s, p)
  {
    var b :| b in Used(s.blocks) && b.addr + HEADER == p;
    var i :| 0 <= i < |s.blocks| && s.blocks[i] == b;
  }

  ghost function Allocated(r: Run, size: nat, answer: Option<int>, page: int): Run
    requires PageOk(page) && RunInv(r, page) && Legal(r, Alloc(size, answer), page)
  {
    var (t, p) := Malloc(r.arena, size, page, answer);
    Run(t, if p.Some? then r.live[p.value := size] else r.live, r.mapped + MappedBy(r.arena, size, answer), r.returned)
  }

  ghost function Released(r: Run, ptr: int, page: int): Run
    requires PageOk(page) && RunInv(r, page) && Legal(r, Release(ptr), page)
  {
    LiveIsUsed(r.arena, ptr);
    Run(Free(r.arena, ptr, page), r.live - {ptr}, r.mapped, r.returned + ReturnedBy(r.arena, ptr, page))
  }

  /** A block for the request as rounded, which the client holds for the request, and the old block gone. */
  ghost function Moved(r: Run, ptr: int, size: nat, answer: Option<int>, page: int): Run
    requires PageOk(page) && RunInv(r, page) && Legal(r, Resize(ptr, size, answer), page) && !Stays(r.arena, ptr, size)
  {
    var q := Allocated(r, Needed(size), answer, page);
    MoveKeeps(r, ptr, size, answer, page);
    Released(q, ptr, page).(live := q.live[Malloc(r.arena, Needed(size), page, answer).1.value := size] - {ptr})
  }

  ghost function Step(r: Run, op: Op, page: int): Run
    requires PageOk(page) && RunInv(r, page) && Legal(r, op, page)
  {
    match op
    case Alloc(size, answer) => Allocated(r, size, answer, page)
    case Release(ptr) => Released(r, ptr, page)
    case Resize(ptr, size, answer) =>
      if Stays(r.arena, ptr, size) then r.(live := r.live[ptr := size]) else Moved(r, ptr, size, answer, page)
  }

  /** What a call returns; free, nothing. */
  ghost function Answer(r: Run, op: Op, page: int): Option<int>
    requires PageOk(page) && RunInv(r, page) && Legal(r, op, page)
  {
    match op
    case Alloc(size, answer) => Malloc(r.arena, size, page, answer).1
    case Release(_) => None
    case Resize(ptr, size, answer) =>
      if Stays(r.arena, ptr, size) then Some(ptr) else Malloc(r.arena, Needed(size), page, answer).1
  }

  /** The client holds what it was handed, and no longer what it gave up. */
  lemma AnswerHeld(r: Run, op: Op, page: int)
    requires PageOk(page) && RunInv(r, page) && Legal(r, op, page)
    ensures var p, live := Answer(r, op, page), Step(r, op, page).live;
      match op
      case Alloc(size, _) => live == if p.Some? then r.live[p.value := size] else r.live
      case Release(ptr) => live == r.live - {ptr}
      case Resize(ptr, size, _) => p.Some? && live == (r.live - {ptr})[p.value := size]
  {
    hide Malloc, Free, Inv, Backed, FirstFit;
    if op.Resize? && !Stays(r.arena, op.ptr, op.size) {
      MoveKeeps(r, op.ptr, op.size, op.answer, page);
    }
  }

  /** What lets the old block be freed: the new one is another. */
  lemma MoveKeeps(r: Run, ptr: int, size: nat, answer: Option<int>, page: int)
    requires PageOk(page) && RunInv(r, page) && Legal(r, Resize(ptr, size, answer), page) && !Stays(r.arena, ptr, size)
    ensures var q, p := Allocated(r, Needed(size), answer, page), Malloc(r.arena, Needed(size), page, answer).1;
      RunInv(q, page) && p.Some? && p.value != ptr && ptr in q.live && Legal(q, Release(ptr), page)
  {
    hide Malloc, FirstFit, Inv, Backed, Total, WholePages;
    NeededFacts(size);
    AllocKeeps(r, Needed(size), answer, page);
    var n := MallocTally(r.arena, Needed(size), page, answer);
    var b := r.arena.blocks[LiveIndex(r.arena, ptr)];
    assert b in Used(r.arena.blocks);
  }

  lemma BackedGains(bs: set<Block>, live: map<int, nat>, b: Block, size: nat)
    requires Backed(bs, live) && b.size >= size + HEADER && forall c :: c in bs ==> c.addr != b.addr
    ensures Backed(bs + {b}, live[b.addr + HEADER := size])
  {
    assert Pointers(bs + {b}) == Pointers(bs) + {b.addr + HEADER};
  }

  lemma BackedLoses(bs: set<Block>, live: map<int, nat>, b: Block)
    requires Backed(bs, live) && b in bs && forall c :: c in bs && c.addr == b.addr ==> c == b
    ensures Backed(bs - {b}, live - {b.addr + HEADER})
  {
    forall p | p in Pointers(bs) && p != b.addr + HEADER ensures p in Pointers(bs - {b}) {
      var c :| c in bs && c.addr + HEADER == p;
      assert c in bs - {b};
    }
    assert Pointers(bs - {b}) == Pointers(bs) - {b.addr + HEADER};
  }

  lemma OneBlockPerAddress(bs: seq<Block>, b: Block)
    requires Solid(bs) && b in bs
    ensures forall c :: c in Used(bs) && c.addr == b.addr ==> c == b
  {
  }

  lemma AllocKeeps(r: Run, size: nat, answer: Option<int>, page: int)
    requires PageOk(page) && RunInv(r, page) && Legal(r, Alloc(size, answer), page)
    ensures RunInv(Allocated(r, size, answer, page), page)
  {
    hide Backed, Pointers, WholePages, Inv, Malloc;
    MallocInv(r.arena, size, page, answer);
    var n := MallocTally(r.arena, size, page, answer);
    var (t, p) := Malloc(r.arena, size, page, answer);
    if p.Some? {
      BackedGains(Used(r.arena.blocks), r.live, Block(p.value - HEADER, n, true), size);
    }
  }

  lemma ReleaseBacked(s: Arena, live: map<int, nat>, ptr: int, page: int)
    requires PageOk(page) && Inv(s) && Backed(Used(s.blocks), live) && IsLive(s, ptr)
    ensures Backed(Used(Free(s, ptr, page).blocks), live - {ptr})
  {
    FreeTally(s, ptr, page);
    var b := s.blocks[LiveIndex(s, ptr)];
    OneBlockPerAddress(s.blocks, b);
    BackedLoses(Used(s.blocks), live, b);
  }

  lemma ReleaseLedger(s: Arena, ptr: int, returned: int, page: int)
    requires PageOk(page) && Inv(s) && IsLive(s, ptr) && WholePages(returned, page)
    ensures WholePages(returned + ReturnedBy(s, ptr, page), page)
  {
    ReturnedPages(s, ptr, page);
    SumOfMultiples(returned, ReturnedBy(s, ptr, page), page);
  }

  lemma HeldIsLive(r: Run, ptr: int, page: int)
    requires page > 0 && RunInv(r, page) && ptr in r.live
    ensures IsLive(r.arena, ptr)
  {
    LiveIsUsed(r.arena, ptr);
  }

  lemma ReleaseKeeps(r: Run, ptr: int, page: int)
    requires PageOk(page) && RunInv(r, page) && Legal(r, Release(ptr), page)
    ensures RunInv(Released(r, ptr, page), page)
  {
    hide Inv, Backed, Pointers, IsLive, Used, Free, WholePages, ReturnedBy;
    HeldIsLive(r, ptr, page);
    FreeInv(r.arena, ptr, page);
    FreeTally(r.arena, ptr, page);
    ReleaseLedger(r.arena, ptr, r.returned, page);
    ReleaseBacked(r.arena, r.live, ptr, page);
  }

  /** A smaller request is backed by the same block. */
  lemma BackedLess(bs: set<Block>, live: map<int, nat>, p: int, size: nat)
    requires Backed(bs, live) && p in live && forall b :: b in bs && b.addr + HEADER == p ==> b.size >= size + HEADER
    ensures Backed(bs, live[p := size])
  {
  }

  lemma StayKeeps(r: Run, ptr: int, size: nat, page: int)
    requires page > 0 && RunInv(r, page) && ptr in r.live && IsLive(r.arena, ptr) && Stays(r.arena, ptr, size)
    ensures RunInv(r.(live := r.live[ptr := size]), page)
  {
    NeededFacts(size);
    OneBlockPerAddress(r.arena.blocks, r.arena.blocks[LiveIndex(r.arena, ptr)]);
    BackedLess(Used(r.arena.blocks), r.live, ptr, size);
    hide Backed;
  }

  lemma MovedKeeps(r: Run, ptr: int, size: nat, answer: Option<int>, page: int)
    requires PageOk(page) && RunInv(r, page) && Legal(r, Resize(ptr, size, answer), page) && !Stays(r.arena, ptr, size)
    ensures RunInv(Moved(r, ptr, size, answer, page), page)
  {
    hide Malloc, Free, Legal, Inv, Allocated, FirstFit, ReturnedBy, WholePages, Stays, Used, IsLive;
    LegalMove(r, ptr, size, answer, page);
    var q, p := Allocated(r, Needed(size), answer, page), Malloc(r.arena, Needed(size), page, answer).1;
    MoveKeeps(r, ptr, size, answer, page);
    ReleaseKeeps(q, ptr, page);
    NeededFacts(size);
    AllocatedHolds(r, Needed(size), answer, page);
    var t := Released(q, ptr, page);
    assert q.live[p.value := size] - {ptr} == t.live[p.value := size];
    BackedLess(Used(t.arena.blocks), t.live, p.value, size);
    hide Backed;
  }

  lemma LegalMove(r: Run, ptr: int, size: nat, answer: Option<int>, page: int)
    requires page > 0 && Legal(r, Resize(ptr, size, answer), page)
    ensures Needed(size) >= 0 && Legal(r, Alloc(Needed(size), answer), page)
    ensures answer.Some? ==> KernelGives(r.arena, page, answer.value, ChunkFor(Needed(Needed(size))))
  {
  }

  lemma AllocatedHolds(r: Run, size: nat, answer: Option<int>, page: int)
    requires PageOk(page) && RunInv(r, page) && Legal(r, Alloc(size, answer), page)
    requires Malloc(r.arena, size, page, answer).1.Some?
    ensures var q, p := Allocated(r, size, answer, page), Malloc(r.arena, size, page, answer).1;
      p.value in q.live && q.live[p.value] == size
  {
  }

  /** One call of a run keeps everything that a run promises. */
  lemma StepKeeps(r: Run, op: Op, page: int)
    requires PageOk(page) && RunInv(r, page) && Legal(r, op, page)
    ensures RunInv(Step(r, op, page), page)
  {
    match op
    case Alloc(size, answer) => AllocKeeps(r, size, answer, page);
    case Release(ptr) => ReleaseKeeps(r, ptr, page);
    case Resize(ptr, size, answer) =>
      if Stays(r.arena, ptr, size) {
        StayKeeps(r, ptr, size, page);
      } else {
        MovedKeeps(r, ptr, size, answer, page);
      }
  }

  ghost predicate LegalRun(ops: seq<Op>, page: int)
    requires PageOk(page)
    decreases |ops|, 0
  {
    ops == [] || (LegalRun(ops[..|ops| - 1], page) && Legal(After(ops[..|ops| - 1], page), ops[|ops| - 1], page))
  }

  /** Every run keeps both chains exact, sorted, disjoint and coalesced, backs every live request
      with a block that is large enough, and balances mapped against returned bytes. */
  ghost function After(ops: seq<Op>, page: int): (r: Run)
    requires PageOk(page) && LegalRun(ops, page)
    ensures RunInv(r, page)
    decreases |ops|, 1
  {
    if ops == [] then Start else
    var q, op := After(ops[..|ops| - 1], page), ops[|ops| - 1];
    StepKeeps(q, op, page);
    Step(q, op, page)
  }

  /** In every run, what the client holds never overlaps: the bytes of one live request end below the
      header of the next. */
  lemma LivePayloadsDisjoint(ops: seq<Op>, page: int, p: int, q: int)
    requires PageOk(page) && LegalRun(ops, page)
    requires p in After(ops, page).live && q in After(ops, page).live && p < q
    ensures p + After(ops, page).live[p] <= q - HEADER
  {
    var s := After(ops, page).arena;
    LiveIsUsed(s, p);
    LiveIsUsed(s, q);
    var i, j := LiveIndex(s, p), LiveIndex(s, q);
    assert i < j;
    assert s.blocks[i] in Used(s.blocks);
  }
}
