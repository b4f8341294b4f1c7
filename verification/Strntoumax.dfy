/** strntoumax.c: the scanning loops, proved against what the text means. */
module Strntoumax {
  import opened NumberText

  /** Lines 31-34. */
  method SkipSpace(s: string) returns (p: nat)
    ensures p == SpaceCount(s)
  {
    p := 0;
    while p < |s| && IsSpace(s[p])
      invariant p <= |s| && SpaceCount(s) == p + SpaceCount(s[p..])
    {
      assert s[p..][1..] == s[p + 1..];
      p := p + 1;
    }
  }

  /** Lines 46-65: from `p` on, the base in use and where the digits start. */
  method ReadBase(s: string, p: nat, base: int) returns (b: int, p': nat)
    requires p <= |s|
    ensures (b, p' - p) == BaseOf(s[p..], base) && p <= p' <= |s|
  {
    b, p' := base, p;
    if base == 0 {
      if |s| - p >= 2 && s[p] == '0' && (s[p + 1] == 'x' || s[p + 1] == 'X') {
        b, p' := 16, p + 2;
      } else if |s| - p >= 1 && s[p] == '0' {
        b, p' := 8, p + 1;
      } else {
        b := 10;
      }
    } else if base == 16 {
      if |s| - p >= 2 && s[p] == '0' && (s[p + 1] == 'x' || s[p + 1] == 'X') {
        p' := p + 2;
      }
    }
  }

  /** Lines 67-71, with the 64-bit wrap-around of the product and the sum. */
  method ReadDigits(s: string, p: nat, base: int) returns (v: nat, p': nat)
    requires p <= |s|
    ensures p <= p' <= |s| && (v, p' - p) == Accumulate(s[p..], base, 0) && v < MODULUS
  {
    hide Shifted, DigitValue;
    v, p' := 0, p;
    while p' < |s| && 0 <= DigitValue(s[p']) < base
      invariant p <= p' <= |s| && v < MODULUS
      invariant Accumulate(s[p..], base, 0).0 == Accumulate(s[p'..], base, v).0
      invariant Accumulate(s[p..], base, 0).1 == p' - p + Accumulate(s[p'..], base, v).1
    {
      assert s[p'..][1..] == s[p' + 1..] && s[p'..][0] == s[p'];
      v := Shifted(v, base, DigitValue(s[p']));
      p' := p' + 1;
    }
  }

  /** Lines 46-71. */
  method ReadUnsigned(s: string, p: nat, base: int) returns (v: nat, p': nat)
    requires p <= |s|
    ensures p <= p' <= |s| && (v, p' - p) == ParseUnsigned(s[p..], base) && v < MODULUS
  {
    hide BaseOf, Accumulate, Shifted;
    var b, start := ReadBase(s, p, base);
    assert s[p..][start - p..] == s[start..];
    v, p' := ReadDigits(s, start, b);
  }

  /** strntoumax, lines 25-77: the value, and the index at which `*endptr` points. */
  method Strntoumax(s: string, base: int) returns (v: nat, end: nat)
    ensures (v, end) == Parse(s, base) && v < MODULUS && end <= |s|
  {
    hide SpaceCount, BaseOf, Accumulate, ParseUnsigned, Shifted;
    var p := SkipSpace(s);
    var minus := false;
    if p < |s| && (s[p] == '-' || s[p] == '+') {
      minus := s[p] == '-';
      p := p + 1;
    }
    v, end := ReadUnsigned(s, p, base);
    if minus {
      v := (MODULUS - v) % MODULUS;
    }
  }
}
