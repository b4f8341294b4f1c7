/** Reading back what was printed. */
module RoundTrip {
  import opened NumberText

  /** The accumulator after a run of digits. */
  function Fold(s: string, base: nat, v: nat): nat {
    if s == "" then v else Shifted(Fold(s[..|s| - 1], base, v), base, DigitValue(s[|s| - 1]))
  }

  predicate AllDigits(s: string, base: int) { forall i :: 0 <= i < |s| ==> IsDigit(s[i], base) }

  lemma {:induction false} FoldCons(s: string, base: nat, v: nat)
    requires s != ""
    ensures Fold(s, base, v) == Fold(s[1..], base, Shifted(v, base, DigitValue(s[0])))
  {
    if |s| > 1 {
      var t := s[..|s| - 1];
      FoldCons(t, base, v);
      assert t[1..] == s[1..][..|s| - 2];
    } else {
      assert s[..0] == "" && s[1..] == "";
    }
  }

  /** Digits are consumed one by one, up to the first character that is none. */
  lemma {:induction false} AccumulateRun(s: string, rest: string, base: nat, v: nat)
    requires AllDigits(s, base) && (rest == "" || !IsDigit(rest[0], base))
    ensures Accumulate(s + rest, base, v) == (Fold(s, base, v), |s|)
    decreases |s|
  {
    if s == "" {
      assert s + rest == rest;
    } else {
      var w := Shifted(v, base, DigitValue(s[0]));
      FoldCons(s, base, v);
      AccumulateRun(s[1..], rest, base, w);
      assert (s + rest)[1..] == s[1..] + rest;
    }
  }

  lemma DigitIsDigit(d: nat, base: nat, upper: bool)
    requires d < base <= 16
    ensures DigitValue(Digit(d, upper)) == d && IsDigit(Digit(d, upper), base)
    ensures !IsSpace(Digit(d, upper)) && !IsSign(Digit(d, upper)) && Digit(d, upper) != 'x' && Digit(d, upper) != 'X'
  {
  }

  predicate Plain(c: char, base: int) { IsDigit(c, base) && !IsSpace(c) && !IsSign(c) && c != 'x' && c != 'X' }

  predicate AllPlain(s: string, base: int) { forall i :: 0 <= i < |s| ==> Plain(s[i], base) }

  lemma {:induction false} DigitsPlain(v: nat, base: nat, n: nat, upper: bool)
    requires 2 <= base <= 16
    ensures AllPlain(Digits(v, base, n, upper), base)
  {
    if n > 0 {
      DigitsPlain(v / base, base, n - 1, upper);
      DigitIsDigit(v % base, base, upper);
      PlainAppend(Digits(v / base, base, n - 1, upper), Digit(v % base, upper), base);
    }
  }

  lemma PlainAppend(s: string, c: char, base: int)
    requires AllPlain(s, base) && Plain(c, base)
    ensures AllPlain(s + [c], base)
  {
  }

  lemma {:induction false} CountShrinks(v: nat, base: nat, n: nat)
    requires base >= 2 && DigitCount(v, base) <= n
    ensures n > 0 ==> DigitCount(v / base, base) <= n - 1
    ensures n == 0 ==> v == 0
  {
  }

  lemma QuotientSmaller(v: nat, base: nat)
    requires base >= 2
    ensures 0 <= v / base <= v
  {
  }

  /** After `z` zeros, the digits of `v` fold to `v` itself. */
  lemma {:induction false} FoldDigits(z: nat, v: nat, base: nat, n: nat, upper: bool)
    requires 2 <= base <= 16 && v < MODULUS && DigitCount(v, base) <= n
    ensures Fold(Fill('0', z) + Digits(v, base, n, upper), base, 0) == v
  {
    var zs, s := Fill('0', z), Digits(v, base, n, upper);
    CountShrinks(v, base, n);
    if n == 0 {
      FoldZeros(z, base);
      assert zs + s == zs;
    } else {
      QuotientSmaller(v, base);
      FoldDigits(z, v / base, base, n - 1, upper);
      DigitIsDigit(v % base, base, upper);
      FoldLast(zs, Digits(v / base, base, n - 1, upper), Digit(v % base, upper), base, v);
    }
  }

  lemma FoldLast(zs: string, s: string, c: char, base: nat, v: nat)
    requires 2 <= base && v < MODULUS && Fold(zs + s, base, 0) == v / base && DigitValue(c) == v % base
    ensures Fold(zs + (s + [c]), base, 0) == v
  {
    hide Fold, DigitValue, Shifted;
    FoldAppend(zs, s, c, base);
    Recompose(v, base, Fold(zs + s, base, 0), DigitValue(c));
  }

  lemma Recompose(v: nat, base: nat, q: nat, r: int)
    requires v < MODULUS && 2 <= base && q == v / base && r == v % base
    ensures Shifted(q, base, r) == v
  {
  }

  lemma FoldAppend(zs: string, s: string, c: char, base: nat)
    ensures Fold(zs + (s + [c]), base, 0) == Shifted(Fold(zs + s, base, 0), base, DigitValue(c))
  {
    var t := zs + (s + [c]);
    assert t[..|t| - 1] == zs + s && t[|t| - 1] == c;
  }

  lemma {:induction false} FoldZeros(z: nat, base: nat)
    ensures Fold(Fill('0', z), base, 0) == 0
  {
    if z > 0 {
      FoldZeros(z - 1, base);
      assert Fill('0', z)[..z - 1] == Fill('0', z - 1);
    }
  }

  /** Padding zeros and digits: all plain, not empty, and worth `v`. */
  lemma CoreFacts(z: nat, v: nat, base: nat, n: nat, upper: bool)
    requires 2 <= base <= 16 && v < MODULUS && DigitCount(v, base) <= n && n >= 1
    ensures var core := Fill('0', z) + Digits(v, base, n, upper);
      AllPlain(core, base) && AllDigits(core, base) && |core| == z + n && Fold(core, base, 0) == v
  {
    DigitsPlain(v, base, n, upper);
    FoldDigits(z, v, base, n, upper);
    assert Plain('0', base);
  }

  /** A possibly prefixed run of digits, followed by a space, a tick or nothing. */
  lemma ParseCore(prefix: string, core: string, trail: string, base: nat, v: nat)
    requires base == 8 || base == 10 || base == 16
    requires AllPlain(core, base) && AllDigits(core, base) && |core| >= 1 && Fold(core, base, 0) == v
    requires trail == "" || trail[0] == ' ' || trail[0] == '_'
    requires prefix == "" || (base == 16 && (prefix == "0x" || prefix == "0X"))
    ensures ParseUnsigned(prefix + core + trail, base) == (v, |prefix| + |core|)
  {
    var s := prefix + core + trail;
    assert s[|prefix|..] == core + trail;
    AccumulateRun(core, trail, base, 0);
    if prefix == "" {
      assert s == core + trail;
      assert !HexPrefixed(s) by {
        if |s| >= 2 {
          assert s[1] == (if |core| > 1 then core[1] else trail[0]);
        }
      }
    } else {
      assert s[0] == prefix[0] && s[1] == prefix[1];
    }
  }

  lemma {:induction false} SkipSpaces(sp: string, rest: string)
    requires forall i :: 0 <= i < |sp| ==> IsSpace(sp[i])
    requires rest == "" || !IsSpace(rest[0])
    ensures SpaceCount(sp + rest) == |sp|
    decreases |sp|
  {
    if sp == "" {
      assert sp + rest == rest;
    } else {
      SkipSpaces(sp[1..], rest);
      assert (sp + rest)[1..] == sp[1..] + rest;
    }
  }

  /** Leading spaces and a sign in front of the rest. */
  lemma ParseSigned(lead: string, sign: string, u: string, base: int, v: nat, k: nat)
    requires forall i :: 0 <= i < |lead| ==> lead[i] == ' '
    requires sign == "" || sign == "-" || sign == "+" || sign == " "
    requires |u| >= 1 && !IsSpace(u[0]) && !IsSign(u[0]) && ParseUnsigned(u, base) == (v, k)
    ensures Parse(lead + sign + u, base) == (if sign == "-" then (MODULUS - v) % MODULUS else v, |lead| + |sign| + k)
  {
    hide ParseUnsigned;
    if sign == "-" || sign == "+" {
      ParseAfterSign(lead, sign[0], u, base, v, k);
      assert lead + sign + u == lead + [sign[0]] + u;
    } else {
      SkipSpaces(lead + sign, u);
      assert (lead + sign + u)[|lead + sign|..] == u;
    }
  }

  lemma ParseAfterSign(lead: string, c: char, u: string, base: int, v: nat, k: nat)
    requires IsSign(c) && ParseUnsigned(u, base) == (v, k) && forall i :: 0 <= i < |lead| ==> lead[i] == ' '
    ensures Parse(lead + [c] + u, base) == (if c == '-' then (MODULUS - v) % MODULUS else v, |lead| + 1 + k)
  {
    var s := lead + [c] + u;
    assert s == lead + ([c] + u);
    SkipSpaces(lead, [c] + u);
    assert s[|lead|] == c && s[|lead| + 1..] == u;
  }

  /** Printing any 64-bit value in base 8, 10 or 16, with any width, precision and flags but the
      tick, and reading it back with the same base gives the value, and the reader stops right after
      the last digit. */
  lemma PrintThenParse(val: nat, flags: Flags, base: nat, width: int, prec: int)
    requires val < MODULUS && (base == 8 || base == 10 || base == 16) && !flags.tick
    ensures var text := Formatted(val, flags, base, width, prec);
      var pad := width - CharsShown(val, flags, base, prec);
      Parse(text, base) == (val, |text| - |Trail(flags, pad)|)
  {
    hide ParseUnsigned, Parse, Digits, Fold, Formatted, AllPlain, AllDigits;
    var pad, v := width - CharsShown(val, flags, base, prec), Magnitude(val, flags);
    var n, z := DigitsShown(v, base, flags.hash, prec), |Zeros(flags, pad)|;
    var lead, sign, prefix, trail := Lead(flags, pad), Sign(val, flags), Prefix(base, flags), Trail(flags, pad);
    var core := Fill('0', z) + Digits(v, base, n, flags.upper);
    CoreFacts(z, v, base, n, flags.upper);
    ParseCore(prefix, core, trail, base, v);
    FirstOf(prefix, core, trail, base);
    ParseSigned(lead, sign, prefix + core + trail, base, v, |prefix| + |core|);
    FormattedParts(val, flags, base, width, prec);
    SignUndone(val, flags);
  }

  lemma FirstOf(prefix: string, core: string, trail: string, base: int)
    requires AllPlain(core, base) && |core| >= 1 && (prefix == "" || prefix == "0x" || prefix == "0X")
    ensures var u := prefix + core + trail;
      |u| >= 1 && !IsSpace(u[0]) && !IsSign(u[0])
  {
    assert Plain(core[0], base);
    assert (prefix + core + trail)[0] == if prefix == "" then core[0] else prefix[0];
  }

  lemma SignUndone(val: nat, flags: Flags)
    requires val < MODULUS
    ensures (if Sign(val, flags) == "-" then (MODULUS - Magnitude(val, flags)) % MODULUS else Magnitude(val, flags))
      == val
  {
  }

  lemma FormattedParts(val: nat, flags: Flags, base: nat, width: int, prec: int)
    requires val < MODULUS && 2 <= base <= 16 && !flags.tick
    ensures var pad, v := width - CharsShown(val, flags, base, prec), Magnitude(val, flags);
      var core := Fill('0', |Zeros(flags, pad)|) + Digits(v, base, DigitsShown(v, base, flags.hash, prec), flags.upper);
      Formatted(val, flags, base, width, prec)
        == Lead(flags, pad) + Sign(val, flags) + (Prefix(base, flags) + core + Trail(flags, pad))
  {
    var pad, v := width - CharsShown(val, flags, base, prec), Magnitude(val, flags);
    ZerosAreFill(flags, pad);
    var ds := Digits(v, base, DigitsShown(v, base, flags.hash, prec), flags.upper);
    Reassociate(Lead(flags, pad), Sign(val, flags), Prefix(base, flags), Zeros(flags, pad), ds, Trail(flags, pad));
  }

  lemma ZerosAreFill(flags: Flags, pad: int)
    ensures Zeros(flags, pad) == Fill('0', |Zeros(flags, pad)|)
  {
  }

  lemma Reassociate(a: string, b: string, c: string, d: string, e: string, f: string)
    ensures a + b + c + d + e + f == a + b + (c + (d + e) + f)
  {
  }
}
