/** qsort.c on memory: elements of `size` bytes, compared and exchanged through their bytes. */
module CombSort {
  import opened Bytes
  import opened SortModel

  type Compare = (seq<Byte>, seq<Byte>) -> int

  // ---------------------------------------------------------------- elements in memory

  function Slice(mem: seq<Byte>, off: int, size: nat): seq<Byte> {
    if 0 <= off && off + size <= |mem| then mem[off..off + size] else []
  }

  /** The array the client sees. */
  function Elems(mem: seq<Byte>, n: nat, size: nat): (es: seq<seq<Byte>>)
    ensures |es| == n
  {
    seq(n, k requires 0 <= k < n => Slice(mem, k * size, size))
  }

  lemma Inside(k: nat, n: nat, size: nat)
    requires k < n
    ensures 0 <= k * size && k * size + size <= n * size
  {
    var d := n - k - 1;
    assert n * size == k * size + size + d * size;
  }

  /** Two areas of memory, apart or the same. */
  predicate SwapReady(length: nat, p: nat, q: nat, n: nat) {
    p + n <= length && q + n <= length && (p + n <= q || q + n <= p || p == q)
  }

  /** The bytes of the areas at `p` and `q` have changed places. */
  ghost predicate Exchanged(now: seq<Byte>, was: seq<Byte>, p: nat, q: nat, n: nat) {
    && |now| == |was| && SwapReady(|was|, p, q, n)
    && (forall k {:trigger now[k]} :: p <= k < p + n ==> now[k] == was[q + (k - p)])
    && (forall k {:trigger now[k]} :: q <= k < q + n ==> now[k] == was[p + (k - q)])
    && (forall k {:trigger now[k]} :: 0 <= k < |now| && !(p <= k < p + n) && !(q <= k < q + n) ==> now[k] == was[k])
  }

  lemma SlicesExchanged(now: seq<Byte>, was: seq<Byte>, p: nat, q: nat, size: nat)
    requires Exchanged(now, was, p, q, size)
    ensures Slice(now, p, size) == Slice(was, q, size) && Slice(now, q, size) == Slice(was, p, size)
  {
  }

  lemma SliceKept(now: seq<Byte>, was: seq<Byte>, p: nat, q: nat, size: nat, o: nat)
    requires Exchanged(now, was, p, q, size) && o + size <= |was|
    requires (o + size <= p || p + size <= o) && (o + size <= q || q + size <= o)
    ensures Slice(now, o, size) == Slice(was, o, size)
  {
  }

  /** Exchanging the bytes of two elements swaps the elements and leaves the others alone. */
  lemma ElemsExchanged(now: seq<Byte>, was: seq<Byte>, n: nat, size: nat, i: nat, j: nat)
    requires i < j < n && n * size <= |was| && Exchanged(now, was, i * size, j * size, size)
    ensures Elems(now, n, size) == Swapped(Elems(was, n, size), i, j)
  {
    var es, fs := Elems(was, n, size), Elems(now, n, size);
    SlicesExchanged(now, was, i * size, j * size, size);
    forall k | 0 <= k < n && k != i && k != j ensures fs[k] == es[k] {
      Inside(k, n, size);
      if k < i { Inside(k, i, size); } else { Inside(i, k, size); }
      if k < j { Inside(k, j, size); } else { Inside(j, k, size); }
      SliceKept(now, was, i * size, j * size, size, k * size);
    }
    assert fs[i] == es[j] && fs[j] == es[i];
  }

  // ---------------------------------------------------------------- memswap

  /** memswap.c, lines 10-24. */
  method Memswap(mem: array<Byte>, m1: nat, m2: nat, n: nat)
    requires SwapReady(mem.Length, m1, m2, n)
    modifies mem
    ensures Exchanged(mem[..], old(mem[..]), m1, m2, n)
  {
    var p, q, left := m1, m2, n;
    while left > 0
      invariant 0 <= left <= n && p == m1 + (n - left) && q == m2 + (n - left)
      invariant Exchanged(mem[..], old(mem[..]), m1, m2, n - left)
    {
      var tmp := mem[p];
      mem[p] := mem[q];
      mem[q] := tmp;
      p, q, left := p + 1, q + 1, left - 1;
    }
  }

  // ---------------------------------------------------------------- qsort

  /** Nothing but the array is touched. */
  ghost predicate Beyond(now: seq<Byte>, was: seq<Byte>, from: int) {
    |now| == |was| && forall k {:trigger now[k]} :: 0 <= k < |now| && k >= from ==> now[k] == was[k]
  }

  /** What one pass, lines 36-44, does to the elements: a permutation; if it swapped nothing they are the same
      and ordered across the gap; and with gap one every swap removes an inversion. */
  ghost predicate Passed(fs: seq<seq<Byte>>, es: seq<seq<Byte>>, gap: nat, upto: int, swapped: bool, cmp: Compare) {
    && |fs| == |es| && multiset(fs) == multiset(es)
    && (!swapped ==> fs == es && forall i {:trigger es[i]} :: 0 <= i < upto && i + gap < |es| ==>
        cmp(es[i], es[i + gap]) <= 0)
    && (gap == 1 ==> Inversions(fs, cmp) <= Inversions(es, cmp))
    && (gap == 1 && swapped ==> Inversions(fs, cmp) < Inversions(es, cmp))
  }

  lemma PassSwaps(fs: seq<seq<Byte>>, es: seq<seq<Byte>>, gap: nat, i: nat, swapped: bool, cmp: Compare)
    requires TotalPreorder(cmp) && gap >= 1 && i + gap < |fs| && Passed(fs, es, gap, i, swapped, cmp)
    requires cmp(fs[i], fs[i + gap]) > 0
    ensures Passed(Swapped(fs, i, i + gap), es, gap, i + 1, true, cmp)
  {
    if gap == 1 {
      InversionRemoved(fs, i, cmp);
    }
  }

  /** Lines 39-43: elements `i` and `j` are compared and, if they are in the wrong order, exchanged. */
  method CompareSwap(mem: array<Byte>, nmemb: nat, size: nat, i: nat, j: nat, p1: nat, cmp: Compare)
    returns (swap: bool)
    requires i < j < nmemb && nmemb * size <= mem.Length && p1 == i * size
    modifies mem
    ensures var es := old(Elems(mem[..], nmemb, size));
      swap == (cmp(es[i], es[j]) > 0) && Elems(mem[..], nmemb, size) == if swap then Swapped(es, i, j) else es
    ensures Beyond(mem[..], old(mem[..]), nmemb * size)
  {
    var p2 := j * size;
    Inside(i, nmemb, size);
    Inside(j, nmemb, size);
    Inside(i, j, size);
    swap := false;
    if cmp(mem[p1..p1 + size], mem[p2..p2 + size]) > 0 {
      Memswap(mem, p1, p2, size);
      swap := true;
      ElemsExchanged(mem[..], old(mem[..]), nmemb, size, i, j);
    }
  }

  /** Lines 36-44. */
  method Pass(mem: array<Byte>, nmemb: nat, size: nat, gap: nat, cmp: Compare) returns (swapped: bool)
    requires TotalPreorder(cmp) && 1 <= gap <= nmemb && nmemb * size <= mem.Length
    modifies mem
    ensures Passed(Elems(mem[..], nmemb, size), old(Elems(mem[..], nmemb, size)), gap, nmemb - gap, swapped, cmp)
    ensures Beyond(mem[..], old(mem[..]), nmemb * size)
  {
    hide TotalPreorder, Passed, Elems, Beyond, Swapped;
    ghost var was, es := mem[..], Elems(mem[..], nmemb, size);
    swapped := false;
    var i: nat, p1: nat := 0, 0;
    PassStarts(es, gap, cmp);
    BeyondSelf(was, nmemb * size);
    while i < nmemb - gap
      invariant 0 <= i <= nmemb - gap && p1 == i * size
      invariant Passed(Elems(mem[..], nmemb, size), es, gap, i, swapped, cmp) && Beyond(mem[..], was, nmemb * size)
    {
      ghost var mid, fs := mem[..], Elems(mem[..], nmemb, size);
      var swap := CompareSwap(mem, nmemb, size, i, i + gap, p1, cmp);
      if swap {
        PassSwaps(fs, es, gap, i, swapped, cmp);
        swapped := true;
      } else {
        PassKeeps(fs, es, gap, i, swapped, cmp);
      }
      BeyondTrans(mem[..], mid, was, nmemb * size);
      p1 := NextOffset(i, size, p1);
      i := i + 1;
    }
  }

  /** Line 38: from one element to the next. */
  method NextOffset(ghost i: nat, size: nat, p1: nat) returns (p: nat)
    requires p1 == i * size
    ensures p == (i + 1) * size
  {
    p := p1 + size;
  }

  lemma PassStarts(es: seq<seq<Byte>>, gap: nat, cmp: Compare)
    ensures Passed(es, es, gap, 0, false, cmp)
  {
  }

  lemma BeyondSelf(mem: seq<Byte>, from: int)
    ensures Beyond(mem, mem, from)
  {
  }

  lemma BeyondTrans(a: seq<Byte>, b: seq<Byte>, c: seq<Byte>, from: int)
    requires Beyond(a, b, from) && Beyond(b, c, from)
    ensures Beyond(a, c, from)
  {
  }

  lemma PassKeeps(fs: seq<seq<Byte>>, es: seq<seq<Byte>>, gap: nat, i: nat, swapped: bool, cmp: Compare)
    requires i + gap < |fs| && Passed(fs, es, gap, i, swapped, cmp) && cmp(fs[i], fs[i + gap]) <= 0
    ensures Passed(fs, es, gap, i + 1, swapped, cmp)
  {
  }

  /** qsort, lines 23-46: a sorted permutation of the elements, nothing else touched.  The loop ends because the
      gap shrinks to one and then every pass that swaps removes an inversion. */
  method Qsort(mem: array<Byte>, nmemb: nat, size: nat, cmp: Compare)
    requires TotalPreorder(cmp) && nmemb * size <= mem.Length
    modifies mem
    ensures Sorted(Elems(mem[..], nmemb, size), cmp)
    ensures multiset(Elems(mem[..], nmemb, size)) == multiset(old(Elems(mem[..], nmemb, size)))
    ensures Beyond(mem[..], old(mem[..]), nmemb * size)
  {
    if nmemb == 0 {
      return;
    }
    hide TotalPreorder, Passed, Elems, Beyond, Sorted, Inversions;
    ghost var was, es := mem[..], Elems(mem[..], nmemb, size);
    var gap: nat, again := nmemb, true;
    BeyondSelf(was, nmemb * size);
    while again
      invariant 1 <= gap <= nmemb && multiset(Elems(mem[..], nmemb, size)) == multiset(es)
      invariant Beyond(mem[..], was, nmemb * size)
      invariant !again ==> Sorted(Elems(mem[..], nmemb, size), cmp)
      decreases gap, Inversions(Elems(mem[..], nmemb, size), cmp), again
    {
      ghost var mid, fs := mem[..], Elems(mem[..], nmemb, size);
      gap := NewGap(gap);
      var swapped := Pass(mem, nmemb, size, gap, cmp);
      again := gap > 1 || swapped;
      BeyondTrans(mem[..], mid, was, nmemb * size);
      PassDone(Elems(mem[..], nmemb, size), fs, gap, swapped, cmp);
    }
  }

  lemma PassDone(fs: seq<seq<Byte>>, es: seq<seq<Byte>>, gap: nat, swapped: bool, cmp: Compare)
    requires TotalPreorder(cmp) && Passed(fs, es, gap, |es| - gap, swapped, cmp)
    ensures multiset(fs) == multiset(es)
    ensures gap == 1 && swapped ==> Inversions(fs, cmp) < Inversions(es, cmp)
    ensures gap == 1 && !swapped ==> fs == es && Sorted(fs, cmp)
  {
    if gap == 1 && !swapped {
      assert GapSorted(es, 1, cmp);
      NothingToSwap(es, cmp);
    }
  }
}
