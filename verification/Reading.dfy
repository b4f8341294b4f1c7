/** What strntoumax reads: white space, a sign, the prefix of a base and digits. */
module Reading {
  import opened Arithmetic
  import opened NumberText
  import opened RoundTrip

  const LOWER: string := "0123456789abcdefghijklmnopqrstuvwxyz"
  const UPPER: string := "0123456789ABCDEFGHIJKLMNOPQRSTUVWXYZ"

  /** `ds` are the digits `vs` of base `b`, in either case. */
  ghost predicate Denote(ds: string, vs: seq<nat>, b: nat) {
    && |ds| == |vs|
    && forall i :: 0 <= i < |vs| ==>
         vs[i] < b && vs[i] < 36 && (ds[i] == LOWER[vs[i]] || ds[i] == UPPER[vs[i]])
  }

  /** The number that the digits make. */
  function Worth(vs: seq<nat>, b: nat): nat { if vs == [] then 0 else Worth(vs[..|vs| - 1], b) * b + vs[|vs| - 1] }

  /** No digit of base `b`. */
  ghost predicate NoDigit(c: char, b: nat) { forall v: nat :: v < b && v < 36 ==> c != LOWER[v] && c != UPPER[v] }

  /** Which base a number is read in, given the base asked for and what the number starts with: 0 leaves it to
      the prefix. */
  predicate ReadIn(base: nat, prefix: string, ds: string, rest: string, b: nat) {
    var x := rest != "" && (rest[0] == 'x' || rest[0] == 'X');
    if prefix == "0x" || prefix == "0X" then (base == 0 || base == 16) && b == 16
    else if prefix == "0" then base == 0 && b == 8 && !(ds == "" && x)
    else
      && prefix == ""
      && if base == 0 then b == 10 && (ds != "" ==> ds[0] != '0')
         else 2 <= base <= 36 && b == base && !(base == 16 && ds == "0" && x)
  }

  /** White space of this library's table. */
  predicate Space(c: char) { c as int in [8, 9, 10, 11, 12, 13, 32, 160] }

  // ---------------------------------------------------------------- digits

  lemma DigitWorth(c: char, v: nat)
    requires v < 36 && (c == LOWER[v] || c == UPPER[v])
    ensures DigitValue(c) == v
  {
    if v < 10 {
      DecimalAt(v);
    } else {
      LowerAt(v);
      UpperAt(v);
    }
  }

  lemma DecimalAt(v: nat)
    requires v < 10
    ensures LOWER[v] == UPPER[v] && '0' <= LOWER[v] <= '9' && LOWER[v] as int == '0' as int + v
  {
  }

  lemma LowerAt(v: nat)
    requires 10 <= v < 36
    ensures 'a' <= LOWER[v] <= 'z' && LOWER[v] as int == 'a' as int + v - 10
  {
  }

  lemma UpperAt(v: nat)
    requires 10 <= v < 36
    ensures 'A' <= UPPER[v] <= 'Z' && UPPER[v] as int == 'A' as int + v - 10
  {
  }

  lemma WorthDigit(c: char)
    ensures var v := DigitValue(c); v < 36 && (v >= 0 ==> c == LOWER[v] || c == UPPER[v])
  {
  }

  lemma NoDigitWorth(c: char, b: nat)
    requires b <= 36 && NoDigit(c, b)
    ensures !IsDigit(c, b)
  {
    WorthDigit(c);
  }

  lemma ModTimes(w: nat, b: nat, d: nat)
    ensures ((w % MODULUS) * b + d) % MODULUS == (w * b + d) % MODULUS
  {
    var q, r := w / MODULUS, w % MODULUS;
    var x := r * b + d;
    var k := x / MODULUS;
    assert w * b + d == (q * b + k) * MODULUS + x % MODULUS by {
      assert w == q * MODULUS + r;
      assert w * b == q * b * MODULUS + r * b;
    }
    Division(w * b + d, MODULUS, q * b + k, x % MODULUS);
  }

  lemma {:induction false} FoldWorth(ds: string, vs: seq<nat>, b: nat)
    requires Denote(ds, vs, b)
    ensures Fold(ds, b, 0) == Worth(vs, b) % MODULUS && AllDigits(ds, b)
    decreases |ds|
  {
    hide DigitValue, Shifted;
    DenoteDigits(ds, vs, b);
    if ds != "" {
      var n := |ds| - 1;
      FoldWorth(ds[..n], vs[..n], b);
      DigitWorth(ds[n], vs[n]);
      FoldStep(Fold(ds[..n], b, 0), Worth(vs[..n], b), b, vs[n]);
    }
  }

  lemma DenoteDigits(ds: string, vs: seq<nat>, b: nat)
    requires Denote(ds, vs, b)
    ensures AllDigits(ds, b)
  {
    forall i | 0 <= i < |ds| ensures IsDigit(ds[i], b) {
      DigitWorth(ds[i], vs[i]);
    }
  }

  lemma FoldStep(f: nat, w: nat, b: nat, d: nat)
    requires f == w % MODULUS
    ensures Shifted(f, b, d) == (w * b + d) % MODULUS
  {
    ModTimes(w, b, d);
  }

  // ---------------------------------------------------------------- numbers

  lemma UnsignedRead(prefix: string, ds: string, vs: seq<nat>, rest: string, base: nat, b: nat)
    requires ReadIn(base, prefix, ds, rest, b) && Denote(ds, vs, b) && (rest != "" ==> NoDigit(rest[0], b))
    ensures ParseUnsigned(prefix + ds + rest, base) == (Worth(vs, b) % MODULUS, |prefix| + |ds|)
  {
    hide ReadIn, Denote, NoDigit, Worth, BaseOf, ParseUnsigned, Fold, AllDigits, IsDigit;
    FoldWorth(ds, vs, b);
    PrefixRead(prefix, ds, vs, rest, base, b);
    ReadBase(base, prefix, ds, rest, b);
    RestRead(rest, b);
    DigitsRead(prefix, ds, rest, base, b);
  }

  lemma DigitsRead(prefix: string, ds: string, rest: string, base: nat, b: nat)
    requires BaseOf(prefix + ds + rest, base) == (b, |prefix|)
    requires AllDigits(ds, b) && (rest == "" || !IsDigit(rest[0], b))
    ensures ParseUnsigned(prefix + ds + rest, base) == (Fold(ds, b, 0), |prefix| + |ds|)
  {
    hide BaseOf, Accumulate, Fold, AllDigits, IsDigit;
    AccumulateRun(ds, rest, b, 0);
    assert (prefix + ds + rest)[|prefix|..] == ds + rest;
  }

  lemma ReadBase(base: nat, prefix: string, ds: string, rest: string, b: nat)
    requires ReadIn(base, prefix, ds, rest, b)
    ensures 2 <= b <= 36
  {
  }

  lemma RestRead(rest: string, b: nat)
    requires rest != "" ==> NoDigit(rest[0], b)
    ensures b <= 36 && rest != "" ==> !IsDigit(rest[0], b)
  {
    if b <= 36 && rest != "" {
      NoDigitWorth(rest[0], b);
    }
  }

  lemma PrefixRead(prefix: string, ds: string, vs: seq<nat>, rest: string, base: nat, b: nat)
    requires ReadIn(base, prefix, ds, rest, b) && Denote(ds, vs, b) && (rest != "" ==> NoDigit(rest[0], b))
    ensures BaseOf(prefix + ds + rest, base) == (b, |prefix|)
  {
    var s := prefix + ds + rest;
    if |ds| > 0 {
      DigitWorth(ds[0], vs[0]);
    }
    if |ds| > 1 {
      DigitWorth(ds[1], vs[1]);
    }
    RestZero(rest, b);
    hide Denote, NoDigit;
    if prefix == "" {
      assert s == ds + rest;
      assert ds != "" && |s| >= 2 ==> s[1] == if |ds| > 1 then ds[1] else rest[0];
    } else if prefix == "0" {
      assert |s| >= 2 ==> s[1] == if |ds| > 0 then ds[0] else rest[0];
    } else {
      assert s[0] == prefix[0] && s[1] == prefix[1];
    }
  }

  lemma RestZero(rest: string, b: nat)
    requires rest != "" ==> NoDigit(rest[0], b)
    ensures b >= 1 && rest != "" ==> rest[0] != '0'
  {
    assert LOWER[0] == '0';
  }

  /** strntoumax reads white space, a sign, the prefix and the digits, up to the first character that is no digit of the
      base; the value is that of the digits modulo 2^64, negated after a minus sign. */
  lemma NumberRead(sp: string, sign: string, prefix: string, ds: string, vs: seq<nat>, rest: string, base: nat, b: nat)
    requires (forall i :: 0 <= i < |sp| ==> Space(sp[i])) && (sign == "" || sign == "+" || sign == "-")
    requires ReadIn(base, prefix, ds, rest, b) && Denote(ds, vs, b) && (rest != "" ==> NoDigit(rest[0], b))
    requires sign == "" && prefix + ds == "" && rest != "" ==> !Space(rest[0]) && rest[0] != '+' && rest[0] != '-'
    ensures var v := Worth(vs, b) % MODULUS;
      Parse(sp + sign + (prefix + ds + rest), base)
      == (if sign == "-" then (MODULUS - v) % MODULUS else v, |sp| + |sign| + |prefix| + |ds|)
  {
    hide ParseUnsigned, Worth, ReadIn, Denote, NoDigit, Parse;
    UnsignedRead(prefix, ds, vs, rest, base, b);
    NumberStarts(prefix, ds, vs, rest, base, b);
    AfterSpace(sp, sign, prefix + ds + rest, base);
  }

  /** White space and a sign in front of `u`. */
  lemma AfterSpace(sp: string, sign: string, u: string, base: nat)
    requires (forall i :: 0 <= i < |sp| ==> Space(sp[i])) && (sign == "" || sign == "+" || sign == "-")
    requires sign == "" && u != "" ==> !IsSpace(u[0]) && !IsSign(u[0])
    ensures var (v, k) := ParseUnsigned(u, base);
      Parse(sp + sign + u, base) == (if sign == "-" then (MODULUS - v) % MODULUS else v, |sp| + |sign| + k)
  {
    hide ParseUnsigned;
    var s := sp + sign + u;
    if sign == "" {
      assert s == sp + u;
      SkipSpaces(sp, u);
      assert s[|sp|..] == u;
    } else {
      assert s == sp + (sign + u);
      SkipSpaces(sp, sign + u);
      assert s[|sp|] == sign[0] && s[|sp| + 1..] == u;
    }
  }

  lemma NumberStarts(prefix: string, ds: string, vs: seq<nat>, rest: string, base: nat, b: nat)
    requires ReadIn(base, prefix, ds, rest, b) && Denote(ds, vs, b)
    ensures var u := prefix + ds + rest; prefix + ds != "" ==> !IsSpace(u[0]) && !IsSign(u[0])
    ensures prefix + ds == "" ==> prefix + ds + rest == rest
  {
    if prefix == "" && ds != "" {
      DigitWorth(ds[0], vs[0]);
    }
  }
}
