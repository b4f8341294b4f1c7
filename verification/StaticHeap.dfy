/** The static allocator: malloc_impl_static, realloc_impl_static and the memcpy it depends on. */
module StaticHeap {
  // Pointers are offsets into the static array.

  import opened Arithmetic
  import opened Bytes
  import opened Options

  /** KLIBC_MALLOC_STATIC_SIZE. */
  const STATIC_SIZE: nat := 64 * 1024 * 1024

  /** Where a request was placed and how many bytes it asked for. */
  datatype Block = Block(ptr: nat, size: nat) {
    function End(): nat { ptr + size }
  }

  // ---------------------------------------------------------------- forward copying

  /** `now` is `was` after bytes were copied one by one, upwards, from `src` to `dst`, `n` of them.  When the
      areas overlap with the destination above, the bytes between the two repeat. */
  ghost predicate Copied(now: seq<Byte>, was: seq<Byte>, dst: nat, src: nat, n: nat) {
    && |now| == |was| && dst + n <= |was| && src + n <= |was|
    && (forall k {:trigger now[k]} :: dst <= k < dst + n ==> now[k] == was[src + Source(k - dst, dst, src)])
    && (forall k {:trigger now[k]} :: 0 <= k < |now| && !(dst <= k < dst + n) ==> now[k] == was[k])
  }

  function Source(k: nat, dst: nat, src: nat): (r: nat)
    ensures r <= k
  {
    if src < dst then Repeat(k, dst - src) else k
  }

  /** Which byte of the source ends up at index `k` of the destination, `d` bytes further on. */
  function Repeat(k: nat, d: nat): (r: nat)
    ensures r <= k && (k < d ==> r == k) && (d > 0 ==> r < d)
    decreases k
  {
    if d == 0 || k < d then k else Repeat(k - d, d)
  }

  /** It is the remainder. */
  lemma {:induction false} RepeatIsRemainder(k: nat, d: nat)
    requires d > 0
    ensures Repeat(k, d) == k % d
    decreases k
  {
    if k < d {
      SmallRemainder(k, d);
    } else {
      RepeatIsRemainder(k - d, d);
      RemainderStep(k, d);
    }
  }

  lemma SmallRemainder(k: nat, d: nat)
    requires k < d
    ensures k % d == k
  {
  }

  lemma RemainderStep(k: nat, d: nat)
    requires 0 < d <= k
    ensures k % d == (k - d) % d
  {
    var q, r := (k - d) / d, (k - d) % d;
    assert k == (q + 1) * d + r;
    Division(k, d, q + 1, r);
  }

  /** memcpy, lines 26-28. */
  method Memcpy(mem: array<Byte>, dst: nat, src: nat, n: nat)
    requires dst + n <= mem.Length && src + n <= mem.Length
    modifies mem
    ensures Copied(mem[..], old(mem[..]), dst, src, n)
  {
    var p, q, left := src, dst, n;
    while left > 0
      invariant 0 <= left <= n && p == src + (n - left) && q == dst + (n - left)
      invariant Copied(mem[..], old(mem[..]), dst, src, n - left)
    {
      CopyNext(mem[..], old(mem[..]), dst, src, n - left);
      hide Source;
      mem[q] := mem[p];
      p, q, left := p + 1, q + 1, left - 1;
    }
  }

  /** The next byte to be read is already the right one. */
  lemma CopyNext(now: seq<Byte>, was: seq<Byte>, dst: nat, src: nat, i: nat)
    requires Copied(now, was, dst, src, i) && dst + i < |was| && src + i < |was|
    ensures now[src + i] == was[src + Source(i, dst, src)]
  {
    var d := dst - src;
    if d > 0 && i >= d {
      assert now[src + i] == was[src + Repeat(i - d, d)];
    }
  }

  // ---------------------------------------------------------------- the allocator

  class Heap {
    const heap: array<Byte>
    var heapcnt: nat
    /** Every request served so far, in order. */
    ghost var blocks: seq<Block>

    ghost predicate Valid()
      reads this, heap
    {
      heap.Length == STATIC_SIZE && heapcnt <= STATIC_SIZE && Laid(blocks, heapcnt) && heapcnt == Space(blocks)
    }

    constructor ()
      ensures Valid() && blocks == [] && heapcnt == 0 && fresh(heap)
    {
      heap := new Byte[STATIC_SIZE](_ => 0);
      heapcnt := 0;
      blocks := [];
    }

    /** malloc_impl_static, lines 208-222 of malloc.c.  It fails exactly when the request does not fit behind the
        earlier ones, each rounded up to 16 bytes; otherwise the new block is right behind them. */
    method Malloc(size: nat) returns (r: Option<nat>)
      requires Valid()
      modifies this
      ensures Valid() && (r.None? <==> size + Space(old(blocks)) >= 64 * 1024 * 1024)
      ensures r.None? ==> blocks == old(blocks) && heapcnt == old(heapcnt)
      ensures r.Some? ==>
        && r.value == Space(old(blocks)) && r.value % 16 == 0 && r.value + size <= heapcnt < r.value + size + 16
        && blocks == old(blocks) + [Block(r.value, size)]
    {
      hide Laid, RoundUp, Space;
      SpaceWhole(blocks);
      if size + heapcnt >= STATIC_SIZE {
        return None;
      }
      var ptr := heapcnt;
      LaidNext(blocks, ptr, size);
      SpaceNext(blocks, Block(ptr, size));
      Bumped(ptr, size);
      heapcnt := heapcnt + size;
      if heapcnt % 16 != 0 {
        heapcnt := heapcnt + (16 - heapcnt % 16);
      }
      blocks := blocks + [Block(ptr, size)];
      r := Some(ptr);
    }

    /** realloc_impl_static, lines 53-61 of realloc.c.  It copies `size` bytes whatever the old size was: the old
        contents arrive, nothing below the new block changes, and no read or write leaves the array. */
    method Realloc(ptr: Option<nat>, size: nat, ghost i: nat) returns (r: Option<nat>)
      requires Valid() && (ptr.Some? ==> i < |blocks| && blocks[i].ptr == ptr.value)
      modifies this, heap
      ensures Valid() && (r.None? <==> size + Space(old(blocks)) >= 64 * 1024 * 1024)
      ensures r.None? ==> blocks == old(blocks) && heap[..] == old(heap[..])
      ensures r.Some? ==>
        blocks == old(blocks) + [Block(r.value, size)] && Untouched(heap[..], old(heap[..]), r.value, size)
      ensures r.Some? && ptr.Some? ==>
        && Copied(heap[..], old(heap[..]), r.value, ptr.value, size)
        && Arrived(heap[..], old(heap[..]), r.value, old(blocks[i]), size)
    {
      r := Malloc(size);
      if ptr.None? || r.None? {
        return;
      }
      LaidBelow(old(blocks), i, r.value);
      Memcpy(heap, r.value, ptr.value, size);
      OldArrives(heap[..], old(heap[..]), r.value, old(blocks[i]), size);
    }
  }

  /** The bytes that the requests take, each rounded up to a multiple of 16. */
  function Space(bs: seq<Block>): nat { if bs == [] then 0 else Space(bs[..|bs| - 1]) + RoundUp(bs[|bs| - 1].size) }

  function RoundUp(n: nat): (m: nat)
    ensures m % 16 == 0 && n <= m < n + 16
  {
    (n + 15) / 16 * 16
  }

  lemma {:induction false} SpaceWhole(bs: seq<Block>)
    ensures Space(bs) % 16 == 0
  {
    if bs != [] {
      SpaceWhole(bs[..|bs| - 1]);
    }
  }

  lemma SpaceNext(bs: seq<Block>, b: Block)
    ensures Space(bs + [b]) == Space(bs) + RoundUp(b.size)
  {
    assert (bs + [b])[..|bs|] == bs;
  }

  /** Lines 215-216. */
  lemma Bumped(c: nat, size: nat)
    requires c % 16 == 0
    ensures var x := c + size; (if x % 16 != 0 then x + (16 - x % 16) else x) == c + RoundUp(size)
    ensures c < STATIC_SIZE && c + size < STATIC_SIZE ==> c + RoundUp(size) <= STATIC_SIZE
  {
    var q := c / 16;
    assert c == 16 * q;
  }

  /** Blocks in address order, none overlapping, all below `end`. */
  ghost predicate Laid(bs: seq<Block>, end: nat) {
    && (forall i :: 0 <= i < |bs| ==> bs[i].End() <= end && bs[i].ptr % 16 == 0)
    && (forall i, j :: 0 <= i < j < |bs| ==> bs[i].End() <= bs[j].ptr)
  }

  lemma LaidNext(bs: seq<Block>, ptr: nat, size: nat)
    requires Laid(bs, ptr) && ptr % 16 == 0
    ensures forall end: nat :: end >= ptr + size ==> Laid(bs + [Block(ptr, size)], end)
  {
  }

  lemma LaidBelow(bs: seq<Block>, i: nat, end: nat)
    requires Laid(bs, end) && i < |bs|
    ensures bs[i].End() <= end
  {
  }

  /** Only the new block's own bytes may have changed. */
  ghost predicate Untouched(now: seq<Byte>, was: seq<Byte>, ptr: nat, size: nat) {
    |now| == |was| && forall k {:trigger now[k]} :: 0 <= k < |now| && !(ptr <= k < ptr + size) ==> now[k] == was[k]
  }

  /** The first bytes of the new block, as many as both blocks have, are those of the old one. */
  ghost predicate Arrived(now: seq<Byte>, was: seq<Byte>, ptr: nat, b: Block, size: nat) {
    |now| == |was| && forall k {:trigger was[b.ptr + k]} ::
      0 <= k < b.size && k < size && b.ptr + k < |was| && ptr + k < |now| ==> now[ptr + k] == was[b.ptr + k]
  }

  lemma OldArrives(now: seq<Byte>, was: seq<Byte>, ptr: nat, b: Block, size: nat)
    requires Copied(now, was, ptr, b.ptr, size) && b.End() <= ptr
    ensures Arrived(now, was, ptr, b, size)
  {
    forall k {:trigger was[b.ptr + k]} | 0 <= k < b.size && k < size && b.ptr + k < |was| && ptr + k < |now|
      ensures now[ptr + k] == was[b.ptr + k]
    {
      assert Source(k, ptr, b.ptr) == k;
    }
  }
}
