/** Comb sort on values: gaps, inversions and swaps of a sequence under a comparison function. */
module SortModel {
  // ---------------------------------------------------------------- gaps

  /** newgap, lines 12-21 of qsort.c. */
  function NewGap(gap: nat): (g: nat)
    ensures g >= 1 && (gap >= 2 ==> g < gap) && (gap == 1 ==> g == 1)
    ensures g != 9 && g != 10 && (2 <= gap && g != 11 ==> 13 * g <= 10 * gap < 13 * (g + 1))
    ensures g == 11 <==> 12 <= gap <= 15
  {
    var g := gap * 10 / 13;
    var h := if g == 9 || g == 10 then 11 else g;
    if h < 1 then 1 else h
  }

  // ---------------------------------------------------------------- comparison

  /** What the C standard asks of the comparison function: a total preorder. */
  ghost predicate TotalPreorder<T(!new)>(cmp: (T, T) -> int) {
    && (forall a, b :: cmp(a, b) > 0 ==> cmp(b, a) <= 0)
    && (forall a, b, c :: cmp(a, b) <= 0 && cmp(b, c) <= 0 ==> cmp(a, c) <= 0)
  }

  predicate Sorted<T>(s: seq<T>, cmp: (T, T) -> int) {
    forall i, j :: 0 <= i < j < |s| ==> cmp(s[i], s[j]) <= 0
  }

  predicate GapSorted<T>(s: seq<T>, gap: nat, cmp: (T, T) -> int) {
    forall i {:trigger s[i]} :: 0 <= i && i + gap < |s| ==> cmp(s[i], s[i + gap]) <= 0
  }

  lemma {:induction false} AdjacentSorted<T(!new)>(s: seq<T>, cmp: (T, T) -> int, i: nat, j: nat)
    requires TotalPreorder(cmp) && GapSorted(s, 1, cmp) && i < j < |s|
    ensures cmp(s[i], s[j]) <= 0
    decreases j
  {
    if i + 1 < j {
      AdjacentSorted(s, cmp, i, j - 1);
      assert cmp(s[j - 1], s[j - 1 + 1]) <= 0;
    }
  }

  /** A pass with gap one that swaps nothing has found the sequence sorted. */
  lemma NothingToSwap<T(!new)>(s: seq<T>, cmp: (T, T) -> int)
    requires TotalPreorder(cmp) && GapSorted(s, 1, cmp)
    ensures Sorted(s, cmp)
  {
    forall i, j | 0 <= i < j < |s| ensures cmp(s[i], s[j]) <= 0 {
      AdjacentSorted(s, cmp, i, j);
    }
  }

  // ---------------------------------------------------------------- swapping

  function Swapped<T>(s: seq<T>, i: nat, j: nat): (r: seq<T>)
    requires i < |s| && j < |s|
    ensures |r| == |s| && multiset(r) == multiset(s)
  {
    s[i := s[j]][j := s[i]]
  }

  /** How many elements of `t` are greater than `x`. */
  function Above<T>(t: seq<T>, x: T, cmp: (T, T) -> int): nat {
    if t == [] then 0 else Above(t[..|t| - 1], x, cmp) + if cmp(t[|t| - 1], x) > 0 then 1 else 0
  }

  /** How many pairs are in the wrong order. */
  function Inversions<T>(s: seq<T>, cmp: (T, T) -> int): nat {
    if s == [] then 0 else Inversions(s[..|s| - 1], cmp) + Above(s[..|s| - 1], s[|s| - 1], cmp)
  }

  lemma {:induction false} AboveSwapped<T>(t: seq<T>, i: nat, x: T, cmp: (T, T) -> int)
    requires i + 1 < |t|
    ensures Above(Swapped(t, i, i + 1), x, cmp) == Above(t, x, cmp)
  {
    var n, r := |t| - 1, Swapped(t, i, i + 1);
    if i + 1 < n {
      AboveSwapped(t[..n], i, x, cmp);
      assert r[..n] == Swapped(t[..n], i, i + 1);
    } else {
      assert t[..n][..i] == t[..i] && r[..n][..i] == t[..i];
      assert Above(t[..n], x, cmp) == Above(t[..i], x, cmp) + if cmp(t[i], x) > 0 then 1 else 0;
      assert Above(r[..n], x, cmp) == Above(t[..i], x, cmp) + if cmp(r[i], x) > 0 then 1 else 0;
    }
  }

  /** Swapping two neighbours that are in the wrong order removes exactly one inversion. */
  lemma {:induction false} InversionRemoved<T(!new)>(s: seq<T>, i: nat, cmp: (T, T) -> int)
    requires i + 1 < |s| && cmp(s[i], s[i + 1]) > 0 && cmp(s[i + 1], s[i]) <= 0
    ensures Inversions(Swapped(s, i, i + 1), cmp) == Inversions(s, cmp) - 1
  {
    var n, r := |s| - 1, Swapped(s, i, i + 1);
    if i + 1 < n {
      InversionRemoved(s[..n], i, cmp);
      AboveSwapped(s[..n], i, s[n], cmp);
      assert r[..n] == Swapped(s[..n], i, i + 1);
    } else {
      var t, x, y := s[..i], s[i], s[i + 1];
      LastTwo(s, t, x, y, cmp);
      LastTwo(r, t, y, x, cmp);
    }
  }

  lemma LastTwo<T>(s: seq<T>, t: seq<T>, x: T, y: T, cmp: (T, T) -> int)
    requires s == t + [x, y]
    ensures Inversions(s, cmp) == Inversions(t, cmp) + Above(t, x, cmp) + Above(t, y, cmp) + if cmp(x, y) > 0 then 1
      else 0
  {
    var n := |t|;
    assert s[..n + 1] == t + [x] && (t + [x])[..n] == t;
    assert Above(t + [x], y, cmp) == Above(t, y, cmp) + if cmp(x, y) > 0 then 1 else 0;
  }
}
