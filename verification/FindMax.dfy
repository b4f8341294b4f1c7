/** The selection sort of benchmarks/basic/findmax.c, end to end. */
module FindMax {
  // findmaxidx negates what it picks, so that it is not picked again, and the picked indices go through the
  // queue.

  import BoundedQueue
  import opened Collections

  // ---------------------------------------------------------------- picking

  /** The first index of a largest value among the first `k`, lines 74-79. */
  function MaxTo(s: seq<int>, k: nat): (m: nat)
    requires 1 <= k <= |s|
    ensures m < k
    ensures forall i :: 0 <= i < k ==> s[i] <= s[m]
    ensures forall i :: 0 <= i < m ==> s[i] < s[m]
  {
    if k == 1 then 0 else
    var m := MaxTo(s, k - 1);
    if s[k - 1] > s[m] then k - 1 else m
  }

  function Pick(s: seq<int>): (m: nat)
    requires |s| >= 1
    ensures m < |s|
  {
    MaxTo(s, |s|)
  }

  /** Line 81. */
  function Marked(s: seq<int>): (r: seq<int>)
    requires |s| >= 1
    ensures |r| == |s|
  {
    s[Pick(s) := -s[Pick(s)]]
  }

  /** findmaxidx, lines 72-83. */
  method FindMaxIdx(t: array<int>, count: nat) returns (mx: nat)
    requires 1 <= count <= t.Length
    modifies t
    ensures mx == Pick(old(t[..count])) && t[..count] == Marked(old(t[..count])) && t[count..] == old(t[count..])
  {
    mx := 0;
    ghost var s := t[..count];
    var i := 1;
    while i < count
      invariant 1 <= i <= count && mx == MaxTo(s, i)
    {
      if t[i] > t[mx] {
        mx := i;
      }
      i := i + 1;
    }
    t[mx] := -t[mx];
  }

  /** The array after `n` rounds of the producer, and the indices it has picked. */
  function After(s: seq<int>, n: nat): (r: seq<int>)
    requires |s| >= 1
    ensures |r| == |s|
  {
    if n == 0 then s else Marked(After(s, n - 1))
  }

  function Picks(s: seq<int>, n: nat): (p: seq<int>)
    requires |s| >= 1
    ensures |p| == n && forall k :: 0 <= k < n ==> 0 <= p[k] < |s|
  {
    if n == 0 then [] else Picks(s, n - 1) + [Pick(After(s, n - 1))]
  }

  lemma Rounds(s: seq<int>, n: nat)
    requires |s| >= 1
    ensures After(s, 0) == s && Picks(s, 0) == []
    ensures After(s, n + 1) == Marked(After(s, n)) && Picks(s, n + 1) == Picks(s, n) + [Pick(After(s, n))]
  {
  }

  /** The producer's loop, lines 92-96, without the queue. */
  method Produce(source: array<int>) returns (picks: seq<int>)
    requires source.Length >= 1
    modifies source
    ensures picks == Picks(old(source[..]), source.Length) && source[..] == After(old(source[..]), source.Length)
  {
    hide After, Picks, Marked, Pick;
    ghost var s := source[..];
    picks := [];
    Rounds(s, 0);
    for i := 0 to source.Length
      invariant source[..] == After(s, i) && picks == Picks(s, i)
    {
      assert source[..source.Length] == source[..];
      var idx := FindMaxIdx(source, source.Length);
      assert source[..source.Length] == source[..];
      picks := picks + [idx];
      Rounds(s, i);
    }
  }

  // ---------------------------------------------------------------- what is picked

  predicate NonNegative(s: seq<int>) { forall i :: 0 <= i < |s| ==> s[i] >= 0 }

  /** After `n` rounds a value is negated exactly if it was picked, and what was not picked is no larger
      than the last pick. */
  ghost predicate Tracked(s: seq<int>, n: nat)
    requires |s| >= 1
  {
    && (forall i :: 0 <= i < |s| ==> After(s, n)[i] == if i in Picks(s, n) then -s[i] else s[i])
    && (n > 0 ==> forall i :: 0 <= i < |s| && i !in Picks(s, n) ==> s[i] <= s[Picks(s, n)[n - 1]])
  }

  lemma {:induction false} FewElements(p: seq<int>)
    ensures |Elements(p)| <= |p|
  {
    if p != [] {
      var q, x := p[..|p| - 1], p[|p| - 1];
      FewElements(q);
      assert Elements(p) == Elements(q) + {x};
    }
  }

  ghost function Indices(n: nat): (r: set<int>)
    ensures |r| == n && forall i :: i in r <==> 0 <= i < n
  {
    if n == 0 then {} else Indices(n - 1) + {n - 1}
  }

  /** Fewer picks than indices leave one out. */
  lemma SomeLeft(p: seq<int>, n: nat) returns (i: nat)
    requires |p| < n
    ensures i < n && i !in p
  {
    FewElements(p);
    if Indices(n) <= Elements(p) {
      SubsetCount(Indices(n), Elements(p));
      assert false;
    }
    i :| i in Indices(n) && i !in Elements(p);
  }

  /** In a round before the last, the pick is new, or it is a zero picked before. */
  lemma NextPick(s: seq<int>, n: nat) returns (i: nat)
    requires n < |s| && NonNegative(s) && Tracked(s, n)
    ensures var m := Pick(After(s, n));
      && i < |s| && i !in Picks(s, n) && s[i] <= After(s, n)[m]
      && (m in Picks(s, n) ==> s[m] == 0 && s[i] == 0)
  {
    i := SomeLeft(Picks(s, n), |s|);
  }

  lemma {:induction false} AlwaysTracked(s: seq<int>, n: nat)
    requires |s| >= 1 && n <= |s| && NonNegative(s)
    ensures Tracked(s, n)
  {
    if n > 0 {
      AlwaysTracked(s, n - 1);
      var i := NextPick(s, n - 1);
      TrackedStep(s, n - 1);
    }
  }

  lemma TrackedStep(s: seq<int>, n: nat)
    requires n < |s| && NonNegative(s) && Tracked(s, n)
    requires Pick(After(s, n)) in Picks(s, n) ==> s[Pick(After(s, n))] == 0
    ensures Tracked(s, n + 1)
  {
    var m, p, a := Pick(After(s, n)), Picks(s, n), After(s, n);
    forall i | 0 <= i < |s| ensures After(s, n + 1)[i] == if i in Picks(s, n + 1) then -s[i] else s[i] {
      assert i in Picks(s, n + 1) <==> i in p || i == m;
    }
    forall i | 0 <= i < |s| && i !in Picks(s, n + 1) ensures s[i] <= s[Picks(s, n + 1)[n]] {
      assert i !in p && a[i] <= a[m];
    }
  }

  predicate NonIncreasing(v: seq<int>) { forall a, b :: 0 <= a < b < |v| ==> v[a] >= v[b] }

  function Values(s: seq<int>, p: seq<int>): (v: seq<int>)
    requires forall k :: 0 <= k < |p| ==> 0 <= p[k] < |s|
    ensures |v| == |p| && forall k :: 0 <= k < |p| ==> v[k] == s[p[k]]
  {
    seq(|p|, k requires 0 <= k < |p| => s[p[k]])
  }

  /** The picks list the original values in nonincreasing order, zeros or not. */
  lemma {:induction false} PicksDescend(s: seq<int>, n: nat)
    requires 1 <= n <= |s| && NonNegative(s)
    ensures NonIncreasing(Values(s, Picks(s, n)))
  {
    if n > 1 {
      PicksDescend(s, n - 1);
      AlwaysTracked(s, n - 1);
      var i := NextPick(s, n - 1);
      var v, w, m := Values(s, Picks(s, n)), Values(s, Picks(s, n - 1)), Pick(After(s, n - 1));
      assert s[m] <= w[n - 2];
      forall a, b | 0 <= a < b < n ensures v[a] >= v[b] {
        assert w[a] >= w[n - 2];
        if b < n - 1 {
          assert v[a] == w[a] && v[b] == w[b];
        }
      }
    }
  }

  predicate AtMostOneZero(s: seq<int>) { forall i, j :: 0 <= i < j < |s| && s[i] == 0 ==> s[j] != 0 }

  /** Every index, exactly once. */
  ghost predicate Permutation(p: seq<int>, n: nat) {
    |p| == n && Distinct(p) && forall i :: 0 <= i < n ==> i in p
  }

  lemma {:induction false} PicksDistinct(s: seq<int>, n: nat)
    requires |s| >= 1 && n <= |s| && NonNegative(s) && AtMostOneZero(s)
    ensures Distinct(Picks(s, n))
  {
    if n > 0 {
      PicksDistinct(s, n - 1);
      AlwaysTracked(s, n - 1);
      var i := NextPick(s, n - 1);
    }
  }

  lemma {:induction false} DistinctCount(p: seq<int>)
    requires Distinct(p)
    ensures |Elements(p)| == |p|
  {
    if p != [] {
      var q, x := p[..|p| - 1], p[|p| - 1];
      DistinctCount(q);
      assert Elements(p) == Elements(q) + {x} && x !in q;
    }
  }

  lemma DistinctCovers(p: seq<int>, n: nat)
    requires |p| == n && Distinct(p) && forall k :: 0 <= k < n ==> 0 <= p[k] < n
    ensures Permutation(p, n)
  {
    DistinctCount(p);
    if i :| 0 <= i < n && i !in p {
      SubsetCount(Elements(p), Indices(n) - {i});
      assert false;
    }
  }

  /** Of two zeros, the second is never picked. */
  lemma {:induction false} SecondZero(s: seq<int>, n: nat, i: nat, j: nat)
    requires n <= |s| && NonNegative(s) && i < j < |s| && s[i] == s[j] == 0
    ensures j !in Picks(s, n)
  {
    if n > 0 {
      SecondZero(s, n - 1, i, j);
      AlwaysTracked(s, n - 1);
      var a := After(s, n - 1);
      assert a[i] == 0 && a[j] == 0;
    }
  }

  /** For sources without negative values, the picks are a permutation of the indices exactly when at most one
      value is zero. */
  lemma PermutationIff(s: seq<int>)
    requires |s| >= 1 && NonNegative(s)
    ensures Permutation(Picks(s, |s|), |s|) <==> AtMostOneZero(s)
  {
    if AtMostOneZero(s) {
      PicksDistinct(s, |s|);
      DistinctCovers(Picks(s, |s|), |s|);
    } else {
      var i, j :| 0 <= i < j < |s| && s[i] == 0 && s[j] == 0;
      SecondZero(s, |s|, i, j);
    }
  }

  /** Two zeros break it: the first is picked twice and the second never. */
  lemma TwoZeros()
    ensures Picks([0, 0], 2) == [0, 0] && !Permutation(Picks([0, 0], 2), 2)
  {
    var s := [0, 0];
    assert MaxTo(s, 1) == 0 && MaxTo(s, 2) == 0;
    assert Marked(s) == s;
    assert Picks(s, 0) == [] && Picks(s, 1) == [0] && After(s, 1) == s && Picks(s, 2) == [0, 0];
    assert 1 !in [0, 0];
  }

  // ---------------------------------------------------------------- end to end

  /** In every interleaving, when the consumer has finished, what it stored lists the original values in
      nonincreasing order, and it is a permutation of the indices exactly when at most one value is zero. */
  lemma Sorts(cap: nat, s: seq<int>, schedule: seq<bool>)
    requires |s| >= 1 && NonNegative(s)
    requires BoundedQueue.Run(cap, Picks(s, |s|), schedule).cons.at == BoundedQueue.CDone
    ensures var sorted := BoundedQueue.Run(cap, Picks(s, |s|), schedule).cons.sorted;
      && |sorted| == |s| && (forall k :: 0 <= k < |sorted| ==> 0 <= sorted[k] < |s|)
      && NonIncreasing(Values(s, sorted))
      && (Permutation(sorted, |s|) <==> AtMostOneZero(s))
  {
    BoundedQueue.AllDelivered(cap, Picks(s, |s|), schedule);
    PicksDescend(s, |s|);
    PermutationIff(s);
  }
}
