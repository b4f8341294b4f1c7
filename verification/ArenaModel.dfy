/** The klibc arena as a mathematical value, what malloc and free do to it, and what every call keeps. */
module ArenaModel {
  // An arena is the address-ordered list of blocks and the free list in chain order.  Sizes and addresses
  // are in bytes.

  import opened Arithmetic
  import opened Collections
  import opened Options

  /** sizeof(struct arena_header) on a 64-bit target: four words. */
  const HEADER: int := 32
  /** _KLIBC_MALLOC_CHUNK_SIZE. */
  const CHUNK: int := 65536

  datatype Block = Block(addr: int, size: int, used: bool) {
    function End(): int { addr + size }
  }

  datatype Arena = Arena(blocks: seq<Block>, frees: seq<int>)

  // ---------------------------------------------------------------- invariants

  predicate Aligned(x: int) { x % 32 == 0 }

  ghost predicate Sized(bs: seq<Block>) {
    && (forall i :: 0 <= i < |bs| ==> bs[i].size >= 2 * HEADER)
    && (forall i {:trigger Aligned(bs[i].addr)} :: 0 <= i < |bs| ==> Aligned(bs[i].addr))
    && (forall i {:trigger Aligned(bs[i].size)} :: 0 <= i < |bs| ==> Aligned(bs[i].size))
  }

  ghost predicate Ordered(bs: seq<Block>) {
    forall i, j :: 0 <= i < j < |bs| ==> bs[i].End() <= bs[j].addr
  }

  /** No two free blocks touch, except possibly block `hole` and the one after it. */
  ghost predicate CoalescedBut(bs: seq<Block>, hole: int) {
    forall i, j :: 0 <= i < j < |bs| && !bs[i].used && !bs[j].used && i != hole ==> bs[i].End() < bs[j].addr
  }

  /** The addresses of the free blocks among the first `n`. */
  ghost function FreeAddrsTo(bs: seq<Block>, n: nat): set<int>
    requires n <= |bs|
  {
    if n == 0 then {}
    else if bs[n - 1].used then FreeAddrsTo(bs, n - 1)
    else FreeAddrsTo(bs, n - 1) + {bs[n - 1].addr}
  }

  ghost function FreeAddrs(bs: seq<Block>): set<int> {
    FreeAddrsTo(bs, |bs|)
  }

  /** The free chain holds each free block once and nothing else. */
  ghost predicate FreesExact(s: Arena) {
    Distinct(s.frees) && Elements(s.frees) == FreeAddrs(s.blocks)
  }

  ghost predicate Shaped(s: Arena) {
    Sized(s.blocks) && Ordered(s.blocks) && FreesExact(s)
  }

  ghost predicate Inv(s: Arena) {
    Shaped(s) && CoalescedBut(s.blocks, -1)
  }

  // ---------------------------------------------------------------- lookups

  ghost function IndexOf(xs: seq<int>, a: int): (k: nat)
    requires a in xs
    ensures k < |xs| && xs[k] == a
  {
    var k :| 0 <= k < |xs| && xs[k] == a;
    k
  }

  lemma SplitOne<T>(xs: seq<T>, i: nat)
    requires i < |xs|
    ensures xs == xs[..i] + [xs[i]] + xs[i + 1..]
  {
  }

  lemma UpdateOne<T>(xs: seq<T>, i: nat, x: T)
    requires i < |xs|
    ensures xs[i := x] == xs[..i] + [x] + xs[i + 1..]
  {
  }

  lemma CutAt<T>(xs: seq<T>, i: nat)
    requires i <= |xs|
    ensures xs == xs[..i] + xs[i..]
  {
  }

  lemma SplitTwo<T>(xs: seq<T>, i: nat)
    requires i + 1 < |xs|
    ensures xs == xs[..i] + [xs[i], xs[i + 1]] + xs[i + 2..]
  {
  }

  lemma SizedAt(bs: seq<Block>, i: nat)
    requires i < |bs| && Sized(bs)
    ensures Sized([bs[i]]) && (i + 1 < |bs| ==> Sized([bs[i], bs[i + 1]]))
  {
    assert Aligned(bs[i].addr) && Aligned(bs[i].size);
    assert i + 1 < |bs| ==> Aligned(bs[i + 1].addr) && Aligned(bs[i + 1].size);
  }

  // ---------------------------------------------------------------- allocation out of a block

  /** Lines 65-101: cut `need` bytes off the front of free block `i`, whose place in the free
      chain is `k`, or hand out the whole block when the rest could not hold a free header. */
  ghost function Carve(s: Arena, i: nat, k: nat, need: int): Arena
    requires i < |s.blocks| && k < |s.frees|
  {
    var b := s.blocks[i];
    if b.size >= need + 2 * HEADER then
      Arena(s.blocks[..i] + [Block(b.addr, need, true), Block(b.addr + need, b.size - need, false)] + s.blocks[i + 1..],
            s.frees[k := b.addr + need])
    else
      Arena(s.blocks[i := b.(used := true)], Removed(s.frees, k))
  }

  ghost function CarvedSize(b: Block, need: int): int {
    if b.size >= need + 2 * HEADER then need else b.size
  }

  // ---------------------------------------------------------------- releasing a block

  ghost predicate MergesLeft(bs: seq<Block>, i: nat)
    requires i < |bs|
  {
    i > 0 && !bs[i - 1].used && bs[i - 1].End() == bs[i].addr
  }

  ghost predicate MergesRight(bs: seq<Block>, j: nat)
    requires j < |bs|
  {
    j + 1 < |bs| && !bs[j + 1].used && bs[j].End() == bs[j + 1].addr
  }

  ghost function SettledIndex(bs: seq<Block>, i: nat): nat
    requires i < |bs|
  {
    if MergesLeft(bs, i) then i - 1 else i
  }

  /** Lines 107-127: give block `i` to a free left neighbour, or put it in front of the free chain. */
  ghost function Settle(s: Arena, i: nat): Arena
    requires i < |s.blocks|
  {
    var b := s.blocks[i];
    if MergesLeft(s.blocks, i) then
      Arena(s.blocks[..i - 1] + [Block(s.blocks[i - 1].addr, s.blocks[i - 1].size + b.size, false)] + s.blocks[i + 1..],
            s.frees)
    else
      Arena(s.blocks[i := b.(used := false)], [b.addr] + s.frees)
  }

  /** Lines 131-137: swallow a free right neighbour. */
  ghost function Absorb(s: Arena, j: nat): Arena
    requires j < |s.blocks| && FreesExact(s)
  {
    if MergesRight(s.blocks, j) then
      FreeIsListed(s, j + 1);
      var b, n := s.blocks[j], s.blocks[j + 1];
      Arena(s.blocks[..j] + [Block(b.addr, b.size + n.size, false)] + s.blocks[j + 2..],
            Removed(s.frees, IndexOf(s.frees, n.addr)))
    else s
  }

  ghost function FreeBlock(s: Arena, i: nat): Arena
    requires i < |s.blocks| && s.blocks[i].used && Shaped(s)
  {
    SettleShaped(s, i);
    Absorb(Settle(s, i), SettledIndex(s.blocks, i))
  }

  // ---------------------------------------------------------------- returning pages

  /** Lines 273-288: the bytes kept at either end, stretched by a page when too small for a block. */
  function KeptPortion(portion: int, page: int): int {
    if portion != 0 && portion < 2 * HEADER then portion + page else portion
  }

  function HeadPortion(b: Block, page: int): int
    requires page > 0
  {
    KeptPortion((-b.addr) % page, page)
  }

  function TailPortion(b: Block, page: int): int
    requires page > 0
  {
    KeptPortion(b.End() % page, page)
  }

  /** Line 294: keep `h` bytes at the head and `t` at the tail only if a chunk is left between. */
  predicate WorthReturning(b: Block, h: int, t: int) {
    b.size >= h + t + CHUNK
  }

  /** Lines 290-320: free block `j`, at place `k` of the free chain, loses all but `h` bytes at its
      head and `t` at its tail. */
  ghost function Trim(s: Arena, j: nat, k: nat, h: int, t: int): Arena
    requires j < |s.blocks| && k < |s.frees|
  {
    var b := s.blocks[j];
    if WorthReturning(b, h, t) then
      Arena(s.blocks[..j] + Remnant(b, h, t) + s.blocks[j + 1..],
            s.frees[..k] + RemnantChain(b, h, t) + s.frees[k + 1..])
    else s
  }

  /** The parts of a block that stay when its middle goes back to the system. */
  ghost function Remnant(b: Block, h: int, t: int): seq<Block> {
    (if h > 0 then [Block(b.addr, h, false)] else []) + (if t > 0 then [Block(b.End() - t, t, false)] else [])
  }

  ghost function RemnantChain(b: Block, h: int, t: int): seq<int> {
    (if t > 0 then [b.End() - t] else []) + (if h > 0 then [b.addr] else [])
  }

  /** What is kept at either end is nothing or a block. */
  ghost predicate Portions(h: int, t: int) {
    h >= 0 && t >= 0 && Aligned(h) && Aligned(t) && (h == 0 || h >= 2 * HEADER) && (t == 0 || t >= 2 * HEADER)
  }

  // ---------------------------------------------------------------- lists taken apart

  ghost predicate Before(xs: seq<Block>, ys: seq<Block>) {
    forall i, j :: 0 <= i < |xs| && 0 <= j < |ys| ==> xs[i].End() <= ys[j].addr
  }

  ghost predicate Solid(bs: seq<Block>) {
    Sized(bs) && Ordered(bs)
  }

  lemma SolidConcat(xs: seq<Block>, ys: seq<Block>)
    ensures Solid(xs + ys) <==> Solid(xs) && Solid(ys) && Before(xs, ys)
  {
    var zs := xs + ys;
    assert forall i :: 0 <= i < |xs| ==> zs[i] == xs[i];
    assert forall j :: 0 <= j < |ys| ==> zs[|xs| + j] == ys[j];
  }

  lemma {:induction false} FreeAddrsToConcat(xs: seq<Block>, ys: seq<Block>, n: nat)
    requires n <= |xs| + |ys|
    ensures FreeAddrsTo(xs + ys, n) == if n <= |xs| then FreeAddrsTo(xs, n)
      else FreeAddrs(xs) + FreeAddrsTo(ys, n - |xs|)
  {
    if n > 0 {
      FreeAddrsToConcat(xs, ys, n - 1);
    }
  }

  lemma FreeAddrsConcat(xs: seq<Block>, ys: seq<Block>)
    ensures FreeAddrs(xs + ys) == FreeAddrs(xs) + FreeAddrs(ys)
  {
    FreeAddrsToConcat(xs, ys, |xs| + |ys|);
  }

  lemma {:induction false} InFreeAddrs(bs: seq<Block>, n: nat, a: int)
    requires n <= |bs|
    ensures a in FreeAddrsTo(bs, n) <==> exists i :: 0 <= i < n && bs[i].addr == a && !bs[i].used
  {
    if n > 0 {
      InFreeAddrs(bs, n - 1, a);
    }
  }

  lemma {:induction false} RemovedElements(xs: seq<int>, k: nat)
    requires k < |xs| && Distinct(xs)
    ensures Distinct(Removed(xs, k)) && Elements(Removed(xs, k)) == Elements(xs) - {xs[k]}
  {
    var ys := Removed(xs, k);
    forall a | a in Elements(xs) - {xs[k]} ensures a in ys {
      var q := IndexOf(xs, a);
      assert ys[if q < k then q else q - 1] == a;
    }
  }

  /** Replacing the segment `seg` of a solid list by blocks inside its span keeps it solid. */
  lemma Splice(pre: seq<Block>, seg: seq<Block>, post: seq<Block>, mid: seq<Block>)
    requires Solid(pre + seg + post) && |seg| > 0 && Solid(mid)
    requires forall k :: 0 <= k < |mid| ==> seg[0].addr <= mid[k].addr && mid[k].End() <= seg[|seg| - 1].End()
    ensures Solid(pre + mid + post)
    ensures FreeAddrs(pre + mid + post) == FreeAddrs(pre) + FreeAddrs(mid) + FreeAddrs(post)
    ensures FreeAddrs(pre + seg + post) == FreeAddrs(pre) + FreeAddrs(seg) + FreeAddrs(post)
    ensures forall x :: seg[0].addr <= x < seg[|seg| - 1].End() ==> x !in FreeAddrs(pre) && x !in FreeAddrs(post)
    ensures FreeAddrs(seg) !! FreeAddrs(pre) && FreeAddrs(seg) !! FreeAddrs(post)
  {
    SolidConcat(pre + seg, post);
    SolidConcat(pre, seg);
    SolidConcat(pre, mid);
    assert Before(pre, post) && Before(pre, seg) && Before(seg, post) by {
      assert forall i :: 0 <= i < |pre| ==> (pre + seg)[i] == pre[i];
      assert forall i :: 0 <= i < |seg| ==> (pre + seg)[|pre| + i] == seg[i];
    }
    SolidConcat(pre + mid, post);
    FreeAddrsConcat(pre, mid);
    FreeAddrsConcat(pre + mid, post);
    FreeAddrsConcat(pre, seg);
    FreeAddrsConcat(pre + seg, post);
    OutsideSpan(pre, seg, post);
  }

  lemma OutsideSpan(pre: seq<Block>, seg: seq<Block>, post: seq<Block>)
    requires Before(pre, seg) && Before(seg, post) && Solid(pre) && Solid(seg) && Solid(post) && |seg| > 0
    ensures forall x :: seg[0].addr <= x < seg[|seg| - 1].End() ==> x !in FreeAddrs(pre) && x !in FreeAddrs(post)
    ensures FreeAddrs(seg) !! FreeAddrs(pre) && FreeAddrs(seg) !! FreeAddrs(post)
  {
    forall x | seg[0].addr <= x < seg[|seg| - 1].End() ensures x !in FreeAddrs(pre) && x !in FreeAddrs(post) {
      InFreeAddrs(pre, |pre|, x);
      InFreeAddrs(post, |post|, x);
    }
    forall x | x in FreeAddrs(seg) ensures seg[0].addr <= x < seg[|seg| - 1].End() {
      InFreeAddrs(seg, |seg|, x);
    }
  }

  /** Replacing `seg` by `mid` in the block list, and the free addresses of `seg` by those of
      `mid` in the free chain, keeps the shape. */
  lemma Reshape(pre: seq<Block>, seg: seq<Block>, post: seq<Block>, mid: seq<Block>, fr: seq<int>, fr': seq<int>)
    requires Shaped(Arena(pre + seg + post, fr)) && |seg| > 0 && Solid(mid)
    requires forall k :: 0 <= k < |mid| ==> seg[0].addr <= mid[k].addr && mid[k].End() <= seg[|seg| - 1].End()
    requires Distinct(fr') && Elements(fr') == Elements(fr) - FreeAddrs(seg) + FreeAddrs(mid)
    ensures Shaped(Arena(pre + mid + post, fr'))
  {
    Splice(pre, seg, post, mid);
  }

  lemma Singleton(b: Block)
    ensures FreeAddrs([b]) == if b.used then {} else {b.addr}
  {
    assert FreeAddrsTo([b], 0) == {};
  }

  lemma Pair(a: Block, b: Block)
    ensures FreeAddrs([a, b]) == FreeAddrs([a]) + FreeAddrs([b])
  {
    assert [a, b] == [a] + [b];
    FreeAddrsConcat([a], [b]);
  }

  /** A free address strictly inside a block's span belongs to that block alone. */
  lemma Inside(pre: seq<Block>, seg: seq<Block>, post: seq<Block>, fr: seq<int>, x: int)
    requires Shaped(Arena(pre + seg + post, fr)) && |seg| > 0
    requires seg[0].addr <= x < seg[|seg| - 1].End() && x !in FreeAddrs(seg)
    ensures x !in fr
  {
    SolidConcat(pre + seg, post);
    SolidConcat(pre, seg);
    Splice(pre, seg, post, seg);
    assert x !in Elements(fr);
  }

  // ---------------------------------------------------------------- carving keeps the invariant

  lemma AlignedArithmetic(x: int, y: int)
    requires Aligned(x) && Aligned(y)
    ensures Aligned(x + y) && Aligned(x - y)
  {
  }

  lemma SplitSolid(b: Block, need: int)
    requires Sized([b]) && Aligned(need) && 2 * HEADER <= need <= b.size - 2 * HEADER
    ensures Solid([Block(b.addr, need, true), Block(b.addr + need, b.size - need, false)])
  {
    assert Aligned([b][0].addr) && Aligned([b][0].size);
    AlignedArithmetic(b.addr, need);
    AlignedArithmetic(b.size, need);
  }

  lemma CarveSplitShaped(s: Arena, pre: seq<Block>, b: Block, post: seq<Block>, k: nat, need: int)
    requires Shaped(s) && s.blocks == pre + [b] + post
    requires k < |s.frees| && s.frees[k] == b.addr && !b.used && Sized([b])
    requires Aligned(need) && 2 * HEADER <= need <= b.size - 2 * HEADER
    ensures Shaped(Arena(pre + [Block(b.addr, need, true), Block(b.addr + need, b.size - need, false)] + post,
                         s.frees[k := b.addr + need]))
  {
    var x, y := Block(b.addr, need, true), Block(b.addr + need, b.size - need, false);
    Singleton(b);
    Singleton(x);
    Singleton(y);
    Pair(x, y);
    Inside(pre, [b], post, s.frees, y.addr);
    Replaced(s.frees, k, y.addr);
    SplitSolid(b, need);
    Reshape(pre, [b], post, [x, y], s.frees, s.frees[k := y.addr]);
  }

  lemma CarveWholeShaped(s: Arena, pre: seq<Block>, b: Block, post: seq<Block>, k: nat)
    requires Shaped(s) && s.blocks == pre + [b] + post
    requires k < |s.frees| && s.frees[k] == b.addr && !b.used && Sized([b])
    ensures Shaped(Arena(pre + [b.(used := true)] + post, Removed(s.frees, k)))
  {
    var x := b.(used := true);
    Singleton(b);
    Singleton(x);
    RemovedElements(s.frees, k);
    assert Solid([x]) by { assert Aligned([b][0].addr); }
    Reshape(pre, [b], post, [x], s.frees, Removed(s.frees, k));
  }

  lemma CarveShaped(s: Arena, i: nat, k: nat, need: int)
    requires Shaped(s) && i < |s.blocks| && k < |s.frees| && s.frees[k] == s.blocks[i].addr && !s.blocks[i].used
    requires Aligned(need) && 2 * HEADER <= need <= s.blocks[i].size
    ensures Shaped(Carve(s, i, k, need))
  {
    var b := s.blocks[i];
    var pre, post := s.blocks[..i], s.blocks[i + 1..];
    SplitOne(s.blocks, i);
    SizedAt(s.blocks, i);
    hide Sized, Ordered, FreesExact;
    if b.size >= need + 2 * HEADER {
      CarveSplitShaped(s, pre, b, post, k, need);
    } else {
      CarveWholeShaped(s, pre, b, post, k);
      UpdateOne(s.blocks, i, b.(used := true));
    }
  }

  lemma Replaced(xs: seq<int>, k: nat, a: int)
    requires k < |xs| && Distinct(xs) && a !in xs
    ensures Distinct(xs[k := a]) && Elements(xs[k := a]) == Elements(xs) - {xs[k]} + {a}
  {
    var ys := xs[k := a];
    assert ys[k] == a;
    forall x | x in Elements(xs) - {xs[k]} ensures x in ys {
      assert ys[IndexOf(xs, x)] == x;
    }
  }

  lemma CarveCoalesced(s: Arena, i: nat, k: nat, need: int)
    requires Inv(s) && i < |s.blocks| && k < |s.frees| && !s.blocks[i].used
    requires 2 * HEADER <= need <= s.blocks[i].size
    ensures CoalescedBut(Carve(s, i, k, need).blocks, -1)
  {
  }

  // ---------------------------------------------------------------- releasing keeps the invariant

  lemma JoinShaped(s: Arena, pre: seq<Block>, l: Block, b: Block, post: seq<Block>, fr: seq<int>)
    requires Shaped(s) && s.blocks == pre + [l, b] + post && Sized([l, b])
    requires !l.used && l.End() == b.addr
    requires Distinct(fr) && Elements(fr) == Elements(s.frees) - FreeAddrs([b])
    ensures Shaped(Arena(pre + [Block(l.addr, l.size + b.size, false)] + post, fr))
  {
    var m := Block(l.addr, l.size + b.size, false);
    assert Solid([m]) by {
      assert Aligned([l, b][0].size) && Aligned([l, b][1].size);
      AlignedArithmetic(l.size, b.size);
    }
    Singleton(l);
    Singleton(b);
    Singleton(m);
    Pair(l, b);
    assert s.blocks[|pre|] == l;
    FreeIsListed(s, |pre|);
    Reshape(pre, [l, b], post, [m], s.frees, fr);
  }

  lemma MarkShaped(s: Arena, pre: seq<Block>, b: Block, post: seq<Block>)
    requires Shaped(s) && s.blocks == pre + [b] + post && b.used && Sized([b])
    ensures Shaped(Arena(pre + [b.(used := false)] + post, [b.addr] + s.frees))
  {
    var m := b.(used := false);
    Singleton(b);
    Singleton(m);
    Inside(pre, [b], post, s.frees, b.addr);
    assert Elements([b.addr] + s.frees) == {b.addr} + Elements(s.frees);
    assert Solid([m]) by { assert Aligned([b][0].addr); }
    Reshape(pre, [b], post, [m], s.frees, [b.addr] + s.frees);
  }

  lemma SizedPair(bs: seq<Block>, i: nat)
    requires Sized(bs) && 0 < i < |bs|
    ensures Sized([bs[i - 1], bs[i]])
  {
  }

  lemma SettleLeftShaped(s: Arena, i: nat)
    requires 0 < i < |s.blocks| && s.blocks[i].used && Shaped(s) && MergesLeft(s.blocks, i)
    ensures Shaped(Settle(s, i))
  {
    var pre, l, b, post := s.blocks[..i - 1], s.blocks[i - 1], s.blocks[i], s.blocks[i + 1..];
    assert s.blocks == pre + [l, b] + post;
    SizedPair(s.blocks, i);
    Singleton(b);
    hide Sized, Ordered, FreesExact;
    JoinShaped(s, pre, l, b, post, s.frees);
  }

  lemma SettleMarkShaped(s: Arena, i: nat)
    requires i < |s.blocks| && s.blocks[i].used && Shaped(s) && !MergesLeft(s.blocks, i)
    ensures Shaped(Settle(s, i))
  {
    var pre, b, post := s.blocks[..i], s.blocks[i], s.blocks[i + 1..];
    assert s.blocks == pre + [b] + post;
    assert Sized([b]);
    MarkShaped(s, pre, b, post);
    assert s.blocks[i := b.(used := false)] == pre + [b.(used := false)] + post;
  }

  lemma SettleShaped(s: Arena, i: nat)
    requires i < |s.blocks| && s.blocks[i].used && Shaped(s)
    ensures SettledIndex(s.blocks, i) < |Settle(s, i).blocks| && Shaped(Settle(s, i))
    ensures !Settle(s, i).blocks[SettledIndex(s.blocks, i)].used
  {
    if MergesLeft(s.blocks, i) {
      SettleLeftShaped(s, i);
    } else {
      SettleMarkShaped(s, i);
    }
  }

  lemma FreeIsListed(s: Arena, j: nat)
    requires FreesExact(s) && j < |s.blocks| && !s.blocks[j].used
    ensures s.blocks[j].addr in s.frees
  {
    InFreeAddrs(s.blocks, |s.blocks|, s.blocks[j].addr);
    assert s.blocks[j].addr in Elements(s.frees);
  }

  lemma SettleCoalesced(s: Arena, i: nat)
    requires i < |s.blocks| && s.blocks[i].used && Inv(s)
    ensures CoalescedBut(Settle(s, i).blocks, SettledIndex(s.blocks, i))
  {
  }

  lemma AbsorbShaped(s: Arena, j: nat)
    requires j < |s.blocks| && !s.blocks[j].used && Shaped(s)
    ensures Shaped(Absorb(s, j))
  {
    if MergesRight(s.blocks, j) {
      var pre, b, n, post := s.blocks[..j], s.blocks[j], s.blocks[j + 1], s.blocks[j + 2..];
      SplitTwo(s.blocks, j);
      SizedAt(s.blocks, j);
      FreeIsListed(s, j + 1);
      Singleton(n);
      hide Sized, Ordered, Distinct, Elements, FreeAddrs;
      RemovedElements(s.frees, IndexOf(s.frees, n.addr));
      JoinShaped(s, pre, b, n, post, Removed(s.frees, IndexOf(s.frees, n.addr)));
    }
  }

  lemma AbsorbCoalesced(s: Arena, j: nat)
    requires j < |s.blocks| && !s.blocks[j].used && Shaped(s) && CoalescedBut(s.blocks, j)
    ensures CoalescedBut(Absorb(s, j).blocks, -1)
  {
    var bs := s.blocks;
    if !MergesRight(bs, j) && j + 1 < |bs| {
      assert bs[j].End() <= bs[j + 1].addr;
    }
  }

  /** Releasing a block, with coalescing on both sides, keeps the invariant. */
  lemma FreeBlockInv(s: Arena, i: nat)
    requires i < |s.blocks| && s.blocks[i].used && Inv(s)
    ensures Inv(FreeBlock(s, i))
  {
    SettleShaped(s, i);
    SettleCoalesced(s, i);
    var t, j := Settle(s, i), SettledIndex(s.blocks, i);
    AbsorbShaped(t, j);
    AbsorbCoalesced(t, j);
  }

  // ---------------------------------------------------------------- returning pages keeps the invariant

  predicate PageOk(page: int) {
    page > 0 && Aligned(page) && CHUNK % page == 0
  }

  /** Lines 277-288: what is kept at an end is nothing or a whole block, and it reaches a page boundary. */
  lemma KeptPortionIsBlock(x: int, page: int)
    requires PageOk(page) && Aligned(x) && 0 <= x < page
    ensures Aligned(KeptPortion(x, page)) && (KeptPortion(x, page) == 0 || KeptPortion(x, page) >= 2 * HEADER)
    ensures (KeptPortion(x, page) - x) % page == 0
  {
    if x != 0 && x < 2 * HEADER {
      AlignedArithmetic(x, page);
      MultipleMod(1, page);
    }
  }

  lemma {:induction false} AlignedRemainder(x: int, page: int)
    requires page > 0 && Aligned(page) && Aligned(x)
    ensures Aligned(x % page)
  {
    var q := x / page;
    assert x == q * page + x % page;
    var c := page / 32;
    assert page == 32 * c;
    assert q * page == 32 * (q * c);
    AlignedMultiple(q * c);
    AlignedArithmetic(x, q * page);
  }

  lemma AlignedMultiple(c: int)
    ensures Aligned(32 * c)
  {
  }

  lemma SumOfMultiples(x: int, y: int, page: int)
    requires page > 0 && x % page == 0 && y % page == 0
    ensures (x + y) % page == 0 && (x - y) % page == 0
  {
    var a, b := x / page, y / page;
    assert x == a * page && y == b * page;
    assert x + y == (a + b) * page && x - y == (a - b) * page;
    MultipleMod(a + b, page);
    MultipleMod(a - b, page);
  }

  lemma MultipleMod(a: int, page: int)
    requires page > 0
    ensures (a * page) % page == 0
  {
    Division(a * page, page, a, 0);
  }

  /** Lines 273-294: the range given to munmap is page-aligned, a whole number of pages, at least a
      chunk, inside the block, and each end that stays is a block of its own. */
  lemma ReturnedRange(b: Block, page: int)
    requires PageOk(page) && Sized([b])
    ensures var h, t := HeadPortion(b, page), TailPortion(b, page);
      && Portions(h, t)
      && (b.addr + h) % page == 0 && (b.End() - t) % page == 0 && (b.size - h - t) % page == 0
      && (WorthReturning(b, h, t) ==> b.addr <= b.addr + h && b.End() - t <= b.End() && b.size - h - t >= CHUNK)
  {
    assert Aligned([b][0].addr) && Aligned([b][0].size);
    hide KeptPortion, Aligned;
    AlignedArithmetic(b.addr, b.size);
    HeadKept(b.addr, page);
    TailKept(b.End(), page);
    var h, t := HeadPortion(b, page), TailPortion(b, page);
    SumOfMultiples(b.End() - t, b.addr + h, page);
  }

  lemma HeadKept(a: int, page: int)
    requires PageOk(page) && Aligned(a)
    ensures var h := KeptPortion((-a) % page, page); Aligned(h) && (h == 0 || h >= 2 * HEADER) && (a + h) % page == 0
  {
    var x := (-a) % page;
    AlignedArithmetic(0, a);
    AlignedRemainder(-a, page);
    KeptPortionIsBlock(x, page);
    RemainderGap(-a, page);
    SumOfMultiples(KeptPortion(x, page) - x, -(-a - x), page);
  }

  lemma TailKept(e: int, page: int)
    requires PageOk(page) && Aligned(e)
    ensures var t := KeptPortion(e % page, page); Aligned(t) && (t == 0 || t >= 2 * HEADER) && (e - t) % page == 0
  {
    var y := e % page;
    AlignedRemainder(e, page);
    KeptPortionIsBlock(y, page);
    RemainderGap(e, page);
    SumOfMultiples(e - y, KeptPortion(y, page) - y, page);
  }

  lemma RemainderGap(x: int, page: int)
    requires page > 0
    ensures (x - x % page) % page == 0 && (-(x - x % page)) % page == 0
  {
    var q := x / page;
    assert x - x % page == q * page;
    MultipleMod(q, page);
    assert -(q * page) == (-q) * page;
    MultipleMod(-q, page);
  }

  lemma RemnantSolid(b: Block, h: int, t: int)
    requires Portions(h, t) && Sized([b]) && WorthReturning(b, h, t)
    ensures Solid(Remnant(b, h, t)) && CoalescedBut(Remnant(b, h, t), -1)
    ensures forall k :: 0 <= k < |Remnant(b, h, t)| ==>
      b.addr <= Remnant(b, h, t)[k].addr && Remnant(b, h, t)[k].End() <= b.End() && !Remnant(b, h, t)[k].used
  {
    assert Aligned([b][0].addr) && Aligned([b][0].size);
    AlignedArithmetic(b.addr, b.size);
    AlignedArithmetic(b.End(), t);
  }

  lemma RemnantFrees(b: Block, h: int, t: int)
    requires Portions(h, t) && WorthReturning(b, h, t)
    ensures Elements(RemnantChain(b, h, t)) == FreeAddrs(Remnant(b, h, t)) && Distinct(RemnantChain(b, h, t))
    ensures forall x :: x in RemnantChain(b, h, t) ==> b.addr <= x < b.End()
  {
    var x, y := Block(b.addr, h, false), Block(b.End() - t, t, false);
    Singleton(x);
    Singleton(y);
    FreeAddrsConcat(if h > 0 then [x] else [], if t > 0 then [y] else []);
  }

  lemma DistinctConcat(xs: seq<int>, ys: seq<int>)
    ensures Distinct(xs + ys) <==> Distinct(xs) && Distinct(ys) && Elements(xs) !! Elements(ys)
    ensures Elements(xs + ys) == Elements(xs) + Elements(ys)
  {
    var zs := xs + ys;
    assert forall i :: 0 <= i < |xs| ==> zs[i] == xs[i];
    assert forall j :: 0 <= j < |ys| ==> zs[|xs| + j] == ys[j];
    if Distinct(zs) {
      forall i, j | 0 <= i < |xs| && 0 <= j < |ys| ensures xs[i] != ys[j] {
        assert zs[i] != zs[|xs| + j];
      }
    }
    if Distinct(xs) && Distinct(ys) && Elements(xs) !! Elements(ys) {
      forall i, j | 0 <= i < |xs| && 0 <= j < |ys| ensures xs[i] != ys[j] {
        assert xs[i] in Elements(xs) && ys[j] in Elements(ys);
      }
    }
  }

  lemma ChainSplice(xs: seq<int>, k: nat, mid: seq<int>)
    requires k < |xs| && Distinct(xs) && Distinct(mid)
    requires forall x :: x in mid && x != xs[k] ==> x !in xs
    ensures Distinct(xs[..k] + mid + xs[k + 1..])
    ensures Elements(xs[..k] + mid + xs[k + 1..]) == Elements(xs) - {xs[k]} + Elements(mid)
  {
    var pre, post := xs[..k], xs[k + 1..];
    RemovedElements(xs, k);
    DistinctConcat(pre, post);
    DistinctConcat(pre, mid);
    DistinctConcat(pre + mid, post);
  }

  lemma TrimShaped(s: Arena, j: nat, k: nat, h: int, t: int)
    requires Portions(h, t) && Shaped(s) && j < |s.blocks| && k < |s.frees|
    requires !s.blocks[j].used && s.frees[k] == s.blocks[j].addr
    ensures Shaped(Trim(s, j, k, h, t))
  {
    var b := s.blocks[j];
    if WorthReturning(b, h, t) {
      assert Sized([b]);
      assert s.blocks == s.blocks[..j] + [b] + s.blocks[j + 1..];
      TrimPartsShaped(s, s.blocks[..j], b, s.blocks[j + 1..], k, h, t);
    }
  }

  lemma TrimPartsShaped(s: Arena, pre: seq<Block>, b: Block, post: seq<Block>, k: nat, h: int, t: int)
    requires Portions(h, t) && Shaped(s) && s.blocks == pre + [b] + post && k < |s.frees|
    requires !b.used && s.frees[k] == b.addr && Sized([b]) && WorthReturning(b, h, t)
    ensures Shaped(Arena(pre + Remnant(b, h, t) + post, s.frees[..k] + RemnantChain(b, h, t) + s.frees[k + 1..]))
  {
    RemnantSolid(b, h, t);
    RemnantFrees(b, h, t);
    Singleton(b);
    forall x | x in RemnantChain(b, h, t) && x != s.frees[k] ensures x !in s.frees {
      Inside(pre, [b], post, s.frees, x);
    }
    ChainSplice(s.frees, k, RemnantChain(b, h, t));
    Reshape(pre, [b], post, Remnant(b, h, t), s.frees, s.frees[..k] + RemnantChain(b, h, t) + s.frees[k + 1..]);
  }

  lemma TrimCoalesced(s: Arena, j: nat, k: nat, h: int, t: int)
    requires Portions(h, t) && Inv(s) && j < |s.blocks| && k < |s.frees| && !s.blocks[j].used
    ensures CoalescedBut(Trim(s, j, k, h, t).blocks, -1)
  {
    var b := s.blocks[j];
    if WorthReturning(b, h, t) {
      assert Sized([b]);
      RemnantSolid(b, h, t);
      assert s.blocks == s.blocks[..j] + [b] + s.blocks[j + 1..];
      CoalescedSplice(s.blocks[..j], b, s.blocks[j + 1..], Remnant(b, h, t));
    }
  }

  ghost predicate Apart(xs: seq<Block>, ys: seq<Block>) {
    forall i, j :: 0 <= i < |xs| && 0 <= j < |ys| && !xs[i].used && !ys[j].used ==> xs[i].End() < ys[j].addr
  }

  lemma CoalescedConcat(xs: seq<Block>, ys: seq<Block>)
    ensures CoalescedBut(xs + ys, -1) <==> CoalescedBut(xs, -1) && CoalescedBut(ys, -1) && Apart(xs, ys)
  {
    var zs := xs + ys;
    assert forall i :: 0 <= i < |xs| ==> zs[i] == xs[i];
    assert forall j :: 0 <= j < |ys| ==> zs[|xs| + j] == ys[j];
  }

  lemma ApartConcat(xs: seq<Block>, ys: seq<Block>, zs: seq<Block>)
    ensures Apart(xs + ys, zs) <==> Apart(xs, zs) && Apart(ys, zs)
  {
    var ws := xs + ys;
    assert forall i :: 0 <= i < |xs| ==> ws[i] == xs[i];
    assert forall j :: 0 <= j < |ys| ==> ws[|xs| + j] == ys[j];
  }

  lemma CoalescedSplice(pre: seq<Block>, b: Block, post: seq<Block>, mid: seq<Block>)
    requires CoalescedBut(pre + [b] + post, -1) && !b.used && CoalescedBut(mid, -1)
    requires forall k :: 0 <= k < |mid| ==> b.addr <= mid[k].addr && mid[k].End() <= b.End()
    ensures CoalescedBut(pre + mid + post, -1)
  {
    CoalescedConcat(pre + [b], post);
    CoalescedConcat(pre, [b]);
    ApartConcat(pre, [b], post);
    assert Apart(pre, mid) && Apart(mid, post) by { assert [b][0] == b; }
    CoalescedConcat(pre, mid);
    ApartConcat(pre, mid, post);
    CoalescedConcat(pre + mid, post);
  }

  // ---------------------------------------------------------------- malloc and free as a whole

  /** Line 153: the request plus a header, rounded up to a multiple of the header size. */
  function Needed(size: nat): int {
    (size + 2 * HEADER - 1) / HEADER * HEADER
  }

  /** Line 164: what is asked of the kernel, a whole number of chunks. */
  function ChunkFor(need: int): int {
    (need + CHUNK - 1) / CHUNK * CHUNK
  }

  /** Lines 155-161: the place in the free chain of the first block that is large enough. */
  ghost function FirstFit(s: Arena, need: int, from: nat): (r: Option<nat>)
    requires FreesExact(s) && from <= |s.frees|
    ensures r.Some? ==> from <= r.value < |s.frees| && SizeOf(s, r.value) >= need
    ensures forall k :: from <= k < (if r.Some? then r.value else |s.frees|) ==> SizeOf(s, k) < need
    decreases |s.frees| - from
  {
    if from == |s.frees| then None
    else if SizeOf(s, from) >= need then Some(from)
    else FirstFit(s, need, from + 1)
  }

  ghost function BlockOf(s: Arena, k: nat): (i: nat)
    requires FreesExact(s) && k < |s.frees|
    ensures i < |s.blocks| && s.blocks[i].addr == s.frees[k] && !s.blocks[i].used
  {
    ListedIsFree(s, k);
    var i :| 0 <= i < |s.blocks| && s.blocks[i].addr == s.frees[k] && !s.blocks[i].used;
    i
  }

  lemma ListedIsFree(s: Arena, k: nat)
    requires FreesExact(s) && k < |s.frees|
    ensures exists i :: 0 <= i < |s.blocks| && s.blocks[i].addr == s.frees[k] && !s.blocks[i].used
  {
    assert s.frees[k] in Elements(s.frees);
    InFreeAddrs(s.blocks, |s.blocks|, s.frees[k]);
  }

  ghost function SizeOf(s: Arena, k: nat): int
    requires FreesExact(s) && k < |s.frees|
  {
    s.blocks[BlockOf(s, k)].size
  }

  /** Lines 184-199: the place in the block list found by the backward search for address `p`. */
  function InsertionPoint(bs: seq<Block>, p: int): (i: nat)
    ensures i <= |bs|
    ensures i > 0 ==> bs[i - 1].addr < p
    ensures forall j :: i <= j < |bs| ==> bs[j].addr >= p
  {
    if bs == [] then 0
    else if bs[|bs| - 1].addr < p then |bs|
    else InsertionPoint(bs[..|bs| - 1], p)
  }

  /** A new chunk in the block list, not yet in the free chain. */
  ghost function Grown(s: Arena, p: int, size: int): Arena {
    var i := InsertionPoint(s.blocks, p);
    Arena(s.blocks[..i] + [Block(p, size, true)] + s.blocks[i..], s.frees)
  }

  /** The kernel answers with page-aligned memory that is in no block. */
  ghost predicate KernelGives(s: Arena, page: int, p: int, size: int)
    requires page > 0
  {
    p % page == 0 && Clear(s.blocks, p, size)
  }

  ghost predicate Clear(bs: seq<Block>, p: int, size: int) {
    forall i :: 0 <= i < |bs| ==> bs[i].End() <= p || p + size <= bs[i].addr
  }

  lemma InsertionBefore(bs: seq<Block>, p: int, size: int)
    requires Solid(bs) && Clear(bs, p, size) && size > 0
    ensures Before(bs[..InsertionPoint(bs, p)], [Block(p, size, true)])
    ensures Before([Block(p, size, true)], bs[InsertionPoint(bs, p)..])
  {
    var i := InsertionPoint(bs, p);
    forall k | 0 <= k < i ensures bs[k].End() <= p {
      assert bs[i - 1].End() <= p;
      if k < i - 1 {
        assert bs[k].End() <= bs[i - 1].addr;
      }
    }
  }

  lemma InsertSolid(pre: seq<Block>, b: Block, post: seq<Block>)
    requires Solid(pre + post) && CoalescedBut(pre + post, -1) && Sized([b]) && b.used
    requires Before(pre, [b]) && Before([b], post)
    ensures Solid(pre + [b] + post) && CoalescedBut(pre + [b] + post, -1)
    ensures FreeAddrs(pre + [b] + post) == FreeAddrs(pre + post)
  {
    SolidConcat(pre, post);
    SolidConcat(pre, [b]);
    assert Before(pre + [b], post);
    SolidConcat(pre + [b], post);
    CoalescedConcat(pre, post);
    CoalescedConcat(pre, [b]);
    ApartConcat(pre, [b], post);
    CoalescedConcat(pre + [b], post);
    Singleton(b);
    FreeAddrsConcat(pre, post);
    FreeAddrsConcat(pre, [b]);
    FreeAddrsConcat(pre + [b], post);
  }

  /** A new chunk in its place keeps the invariant. */
  lemma GrownInv(s: Arena, p: int, size: int)
    requires Inv(s) && Aligned(p) && Aligned(size) && size >= 2 * HEADER && Clear(s.blocks, p, size)
    ensures Inv(Grown(s, p, size))
  {
    assert Sized([Block(p, size, true)]);
    hide Sized, Ordered, CoalescedBut, Clear, Distinct, Elements, FreeAddrs;
    var i := InsertionPoint(s.blocks, p);
    CutAt(s.blocks, i);
    InsertionBefore(s.blocks, p, size);
    InsertSolid(s.blocks[..i], Block(p, size, true), s.blocks[i..]);
  }

  /** Where the block released at `i` ends up: a free block that contains it. */
  lemma FreeBlockIndex(s: Arena, i: nat)
    requires i < |s.blocks| && s.blocks[i].used && Shaped(s)
    ensures var f, j := FreeBlock(s, i), SettledIndex(s.blocks, i);
      && j < |f.blocks| && !f.blocks[j].used
      && f.blocks[j].addr <= s.blocks[i].addr && s.blocks[i].End() <= f.blocks[j].End()
      && Shaped(f) && f.blocks[j].addr in f.frees
  {
    SettleShaped(s, i);
    var t, j := Settle(s, i), SettledIndex(s.blocks, i);
    AbsorbShaped(t, j);
    var f := Absorb(t, j);
    FreeIsListed(f, j);
  }

  /** Malloc, lines 143-206; `answer` is what mmap would return. */
  ghost function Malloc(s: Arena, size: nat, page: int, answer: Option<int>): (Arena, Option<int>)
    requires Inv(s) && PageOk(page)
    requires answer.Some? ==> KernelGives(s, page, answer.value, ChunkFor(Needed(size)))
  {
    if size == 0 then (s, None) else
    var need := Needed(size);
    var fit := FirstFit(s, need, 0);
    if fit.Some? then
      (Carve(s, BlockOf(s, fit.value), fit.value, need), Some(s.frees[fit.value] + HEADER))
    else if answer.None? then (s, None) else
    RefilledInv(s, size, page, answer.value);
    var f, j := Refilled(s, answer.value, ChunkFor(need)), RefillIndex(s, answer.value, ChunkFor(need));
    (Carve(f, j, IndexOf(f.frees, f.blocks[j].addr), need), Some(f.blocks[j].addr + HEADER))
  }

  /** Lines 178-202: the arena once a new chunk is linked in and merged with its neighbours. */
  ghost function Refilled(s: Arena, p: int, size: int): Arena
    requires Inv(s) && Aligned(p) && Aligned(size) && size >= 2 * HEADER && Clear(s.blocks, p, size)
  {
    GrownInv(s, p, size);
    FreeBlock(Grown(s, p, size), InsertionPoint(s.blocks, p))
  }

  ghost function RefillIndex(s: Arena, p: int, size: int): nat {
    SettledIndex(Grown(s, p, size).blocks, InsertionPoint(s.blocks, p))
  }

  lemma NeededFacts(size: nat)
    ensures Aligned(Needed(size)) && size + HEADER <= Needed(size) < size + 2 * HEADER
    ensures size > 0 ==> Needed(size) >= 2 * HEADER
  {
    assert Needed(size) == 32 * ((size + 63) / 32);
    AlignedMultiple((size + 63) / 32);
  }

  lemma ChunkFacts(need: int)
    requires need > 0
    ensures ChunkFor(need) % CHUNK == 0 && need <= ChunkFor(need) < need + CHUNK && Aligned(ChunkFor(need))
  {
    var q := (need + 65535) / 65536;
    assert ChunkFor(need) == 65536 * q == 32 * (2048 * q);
    AlignedMultiple(2048 * q);
  }

  lemma PageAligned(p: int, page: int)
    requires PageOk(page) && p % page == 0
    ensures Aligned(p)
  {
    var q, c := p / page, page / 32;
    assert p == q * page && page == 32 * c;
    assert p == 32 * (q * c);
    AlignedMultiple(q * c);
  }

  lemma RefilledInv(s: Arena, size: nat, page: int, p: int)
    requires Inv(s) && PageOk(page) && size > 0 && KernelGives(s, page, p, ChunkFor(Needed(size)))
    ensures Aligned(p) && Aligned(ChunkFor(Needed(size))) && ChunkFor(Needed(size)) >= 2 * HEADER
    ensures var f, j := Refilled(s, p, ChunkFor(Needed(size))), RefillIndex(s, p, ChunkFor(Needed(size)));
      && Inv(f) && j < |f.blocks| && !f.blocks[j].used && f.blocks[j].size >= Needed(size)
      && f.blocks[j].addr in f.frees
  {
    NeededFacts(size);
    ChunkFacts(Needed(size));
    PageAligned(p, page);
    var c := ChunkFor(Needed(size));
    GrownInv(s, p, c);
    var g, i := Grown(s, p, c), InsertionPoint(s.blocks, p);
    assert g.blocks[i] == Block(p, c, true);
    FreeBlockIndex(g, i);
    FreeBlockInv(g, i);
  }

  ghost predicate IsLive(s: Arena, ptr: int) {
    exists i :: 0 <= i < |s.blocks| && s.blocks[i].addr == ptr - HEADER && s.blocks[i].used
  }

  ghost function LiveIndex(s: Arena, ptr: int): (i: nat)
    requires IsLive(s, ptr)
    ensures i < |s.blocks| && s.blocks[i].addr == ptr - HEADER && s.blocks[i].used
  {
    var i :| 0 <= i < |s.blocks| && s.blocks[i].addr == ptr - HEADER && s.blocks[i].used;
    i
  }

  /** Free, lines 245-323, for a pointer that is not NULL. */
  ghost function Free(s: Arena, ptr: int, page: int): Arena
    requires Inv(s) && PageOk(page) && IsLive(s, ptr)
  {
    var i := LiveIndex(s, ptr);
    FreeBlockIndex(s, i);
    var f, j := FreeBlock(s, i), SettledIndex(s.blocks, i);
    Trim(f, j, IndexOf(f.frees, f.blocks[j].addr), HeadPortion(f.blocks[j], page), TailPortion(f.blocks[j], page))
  }

  /** Every malloc keeps the invariant, whatever the kernel answers. */
  lemma MallocInv(s: Arena, size: nat, page: int, answer: Option<int>)
    requires Inv(s) && PageOk(page)
    requires answer.Some? ==> KernelGives(s, page, answer.value, ChunkFor(Needed(size)))
    ensures Inv(Malloc(s, size, page, answer).0)
  {
    if size > 0 {
      var need := Needed(size);
      NeededFacts(size);
      var fit := FirstFit(s, need, 0);
      if fit.Some? {
        CarveInv(s, BlockOf(s, fit.value), fit.value, need);
      } else if answer.Some? {
        RefilledInv(s, size, page, answer.value);
        var f, j := Refilled(s, answer.value, ChunkFor(need)), RefillIndex(s, answer.value, ChunkFor(need));
        CarveInv(f, j, IndexOf(f.frees, f.blocks[j].addr), need);
      }
    }
  }

  /** Handing out a block, split or whole, keeps the invariant. */
  lemma CarveInv(s: Arena, i: nat, k: nat, need: int)
    requires Inv(s) && i < |s.blocks| && k < |s.frees| && s.frees[k] == s.blocks[i].addr && !s.blocks[i].used
    requires Aligned(need) && 2 * HEADER <= need <= s.blocks[i].size
    ensures Inv(Carve(s, i, k, need))
  {
    CarveShaped(s, i, k, need);
    CarveCoalesced(s, i, k, need);
  }

  /** Every free of a live block keeps the invariant. */
  lemma FreeInv(s: Arena, ptr: int, page: int)
    requires Inv(s) && PageOk(page) && IsLive(s, ptr)
    ensures Inv(Free(s, ptr, page))
  {
    var i := LiveIndex(s, ptr);
    FreeBlockIndex(s, i);
    FreeBlockInv(s, i);
    var f, j := FreeBlock(s, i), SettledIndex(s.blocks, i);
    assert Sized([f.blocks[j]]);
    ReturnedRange(f.blocks[j], page);
    TrimInv(f, j, IndexOf(f.frees, f.blocks[j].addr), HeadPortion(f.blocks[j], page), TailPortion(f.blocks[j], page));
  }

  /** Cutting a returned range out of a free block keeps the invariant. */
  lemma TrimInv(s: Arena, j: nat, k: nat, h: int, t: int)
    requires Portions(h, t) && Inv(s) && j < |s.blocks| && k < |s.frees|
    requires !s.blocks[j].used && s.frees[k] == s.blocks[j].addr
    ensures Inv(Trim(s, j, k, h, t))
  {
    TrimShaped(s, j, k, h, t);
    TrimCoalesced(s, j, k, h, t);
  }
}
