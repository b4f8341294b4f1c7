/** memmem.c and memcmp.c: the "Not So Naive" search finds what a naive search finds. */
module Memmem {
  import opened Bytes
  import opened Options

  ghost predicate MatchAt(y: seq<Byte>, x: seq<Byte>, j: nat) {
    j + |x| <= |y| && y[j..j + |x|] == x
  }

  /** No occurrence starts before `j`. */
  ghost predicate NoneBefore(y: seq<Byte>, x: seq<Byte>, j: nat) {
    forall i: nat :: i < j ==> !MatchAt(y, x, i)
  }

  /** memcmp, lines 7-19: zero exactly when the first `n` bytes agree, otherwise the first difference. */
  method Memcmp(a: seq<Byte>, b: seq<Byte>, n: nat) returns (d: int)
    requires n <= |a| && n <= |b|
    ensures d == 0 <==> a[..n] == b[..n]
    ensures d != 0 ==> exists i: nat :: i < n && a[..i] == b[..i] && a[i] != b[i] && d == a[i] as int - b[i] as int
  {
    d := 0;
    var i := 0;
    while i < n
      invariant 0 <= i <= n && a[..i] == b[..i]
    {
      d := a[i] as int - b[i] as int;
      if d != 0 {
        assert a[..n][i] != b[..n][i];
        return;
      }
      i := i + 1;
    }
  }

  /** A match at `j` puts the needle's byte `i` at `j + i`. */
  lemma MatchByte(y: seq<Byte>, x: seq<Byte>, j: nat, i: nat)
    requires MatchAt(y, x, j) && i < |x|
    ensures y[j + i] == x[i]
  {
    assert y[j..j + |x|][i] == x[i];
  }

  /** The skips set up in lines 25-31: after a look at `y[j + 1]`, one position or two can be ruled out. */
  lemma SkipSafe(y: seq<Byte>, x: seq<Byte>, j: nat)
    requires |x| >= 2 && j + 1 < |y|
    ensures x[1] != y[j + 1] ==> !MatchAt(y, x, j)
    ensures x[0] == x[1] != y[j + 1] ==> !MatchAt(y, x, j + 1)
    ensures x[0] != x[1] == y[j + 1] ==> !MatchAt(y, x, j + 1)
  {
    if MatchAt(y, x, j) {
      MatchByte(y, x, j, 1);
    }
    if MatchAt(y, x, j + 1) {
      MatchByte(y, x, j + 1, 0);
    }
  }

  lemma MatchParts(y: seq<Byte>, x: seq<Byte>, j: nat)
    requires |x| >= 2 && j + |x| <= |y| && x[1] == y[j + 1]
    ensures MatchAt(y, x, j) <==> x[2..] == y[j + 2..][..|x| - 2] && x[0] == y[j]
  {
    var w := y[j..j + |x|];
    assert y[j + 2..][..|x| - 2] == w[2..];
    assert w == [w[0], w[1]] + w[2..] && x == [x[0], x[1]] + x[2..];
  }

  /** Lines 33-43, a needle of at least two bytes. */
  method SearchLong(y: seq<Byte>, x: seq<Byte>) returns (r: Option<nat>)
    requires 2 <= |x| <= |y|
    ensures r.Some? ==> MatchAt(y, x, r.value) && NoneBefore(y, x, r.value)
    ensures r.None? ==> NoneBefore(y, x, |y| + 1)
  {
    var n, m := |y|, |x|;
    var k, l := if x[0] == x[1] then 2 else 1, if x[0] == x[1] then 1 else 2;
    var j: nat := 0;
    while j <= n - m
      invariant NoneBefore(y, x, j)
      decreases n - j
    {
      SkipSafe(y, x, j);
      if x[1] != y[j + 1] {
        Ruled(y, x, j, k);
        j := j + k;
      } else {
        MatchParts(y, x, j);
        var d := Memcmp(x[2..], y[j + 2..], m - 2);
        if d == 0 && x[0] == y[j] {
          assert x[2..][..m - 2] == x[2..];
          return Some(j);
        }
        assert x[2..][..m - 2] == x[2..];
        Ruled(y, x, j, l);
        j := j + l;
      }
    }
    return None;
  }

  lemma Ruled(y: seq<Byte>, x: seq<Byte>, j: nat, step: nat)
    requires NoneBefore(y, x, j) && !MatchAt(y, x, j) && (step == 1 || (step == 2 && !MatchAt(y, x, j + 1)))
    ensures NoneBefore(y, x, j + step)
  {
  }

  lemma MatchOne(y: seq<Byte>, x: seq<Byte>, p: nat)
    requires |x| == 1 && p < |y|
    ensures MatchAt(y, x, p) <==> y[p] == x[0]
  {
    assert y[p..p + 1] == [y[p]] && x == [x[0]];
  }

  /** Lines 44-49, a needle of one byte. */
  method SearchByte(y: seq<Byte>, x: seq<Byte>) returns (r: Option<nat>)
    requires |x| == 1 && |y| >= 1
    ensures r.Some? ==> MatchAt(y, x, r.value) && NoneBefore(y, x, r.value)
    ensures r.None? ==> NoneBefore(y, x, |y| + 1)
  {
    var p := 0;
    while p < |y|
      invariant 0 <= p <= |y| && NoneBefore(y, x, p)
    {
      MatchOne(y, x, p);
      if y[p] == x[0] {
        return Some(p);
      }
      Ruled(y, x, p, 1);
      p := p + 1;
    }
    return None;
  }

  /** memmem, lines 14-52: the leftmost occurrence of a nonempty needle, or nothing exactly when there is none;
      an empty needle is never found. */
  method Search(y: seq<Byte>, x: seq<Byte>) returns (r: Option<nat>)
    ensures x == [] ==> r.None?
    ensures r.Some? ==> MatchAt(y, x, r.value) && NoneBefore(y, x, r.value)
    ensures r.None? && x != [] ==> forall j: nat :: !MatchAt(y, x, j)
  {
    if |x| > |y| || |x| == 0 || |y| == 0 {
      return None;
    }
    if |x| != 1 {
      r := SearchLong(y, x);
    } else {
      r := SearchByte(y, x);
    }
  }
}
