/** The tick flag: what it adds can be taken away again, and widths come out as asked. */
module TickText {
  import opened NumberText
  import opened FormatMachine
  import opened RoundTrip

  /** A text without its ticks. */
  function Erased(s: string): string {
    if s == "" then "" else Erased(s[..|s| - 1]) + if s[|s| - 1] == '_' then "" else [s[|s| - 1]]
  }

  predicate NoTicks(s: string) { forall i :: 0 <= i < |s| ==> s[i] != '_' }

  lemma {:induction false} ErasedNone(s: string)
    requires NoTicks(s)
    ensures Erased(s) == s
  {
    if s != "" {
      ErasedNone(s[..|s| - 1]);
    }
  }

  lemma {:induction false} ErasedConcat(s: string, t: string)
    ensures Erased(s + t) == Erased(s) + Erased(t)
    decreases |t|
  {
    if t == "" {
      assert s + t == s;
    } else {
      var u, c := t[..|t| - 1], t[|t| - 1];
      ErasedConcat(s, u);
      assert (s + t)[..|s + t| - 1] == s + u;
      assert (s + t)[|s + t| - 1] == c;
      Regrouped(Erased(s), Erased(u), if c == '_' then "" else [c]);
    }
  }

  lemma Regrouped(a: string, b: string, c: string)
    ensures a + b + c == a + (b + c)
  {
  }

  /** Taking the ticks away gives back the digits. */
  lemma {:induction false} ErasedGrouped(s: string, skip: nat)
    requires skip > 0 && NoTicks(s)
    ensures Erased(Grouped(s, skip)) == s
    decreases |s|
  {
    if |s| <= skip {
      ErasedNone(s);
    } else {
      var a, b := s[..|s| - skip], s[|s| - skip..];
      ErasedGrouped(a, skip);
      ErasedNone(b);
      ErasedConcat(Grouped(a, skip) + "_", b);
      ErasedConcat(Grouped(a, skip), "_");
      TickAlone();
      Halves(s, |s| - skip);
      hide Erased;
    }
  }

  lemma TickAlone()
    ensures Erased("_") == ""
  {
  }

  lemma Halves(s: string, k: nat)
    requires k <= |s|
    ensures s == s[..k] + s[k..] && s[..k] + "" == s[..k]
  {
  }

  lemma {:induction false} DigitsNoTicks(v: nat, base: nat, n: nat, upper: bool)
    requires 2 <= base <= 16
    ensures NoTicks(Digits(v, base, n, upper))
  {
    if n > 0 {
      DigitsNoTicks(v / base, base, n - 1, upper);
    }
  }

  function Plainly(flags: Flags): Flags { flags.(tick := false) }

  /** How many ticks the number gets. */
  function TickCount(val: nat, flags: Flags, base: nat, prec: int): int
    requires val < MODULUS && 2 <= base <= 16
  {
    |Body(val, flags, base, prec)| - |Body(val, Plainly(flags), base, prec)|
  }

  lemma ErasedBody(val: nat, flags: Flags, base: nat, prec: int)
    requires val < MODULUS && 2 <= base <= 16
    ensures Erased(Body(val, flags, base, prec)) == Body(val, Plainly(flags), base, prec)
  {
    var v := Magnitude(val, flags);
    var n := DigitsShown(v, base, flags.hash, prec);
    DigitsNoTicks(v, base, n, flags.upper);
    ErasedNone(Digits(v, base, n, flags.upper));
    ErasedGrouped(Digits(v, base, n, flags.upper), TickSkip(base));
  }

  /** A ticked number without its ticks is the plain number, in a field narrower by as many. */
  lemma ErasedFormatted(val: nat, flags: Flags, base: nat, width: int, prec: int)
    requires val < MODULUS && 2 <= base <= 16
    ensures Erased(Formatted(val, flags, base, width, prec))
         == Formatted(val, Plainly(flags), base, width - TickCount(val, flags, base, prec), prec)
  {
    hide Erased, Body, Lead, Zeros, Trail, Sign, Prefix, CharsShown, Formatted, TickCount, Plainly;
    var pad, g, w := width - CharsShown(val, flags, base, prec), Plainly(flags),
      width - TickCount(val, flags, base, prec);
    SamePadding(val, flags, base, width, prec);
    FormattedIs(val, flags, base, width, prec, pad);
    FormattedIs(val, g, base, w, prec, pad);
    ErasedParts(val, flags, base, pad, prec);
  }

  lemma ErasedParts(val: nat, flags: Flags, base: nat, pad: int, prec: int)
    requires val < MODULUS && 2 <= base <= 16
    ensures var g := Plainly(flags);
      Erased(Lead(flags, pad) + Sign(val, flags) + Prefix(base, flags) + Zeros(flags, pad)
             + Body(val, flags, base, prec) + Trail(flags, pad))
      == Lead(g, pad) + Sign(val, g) + Prefix(base, g) + Zeros(g, pad) + Body(val, g, base, prec) + Trail(g, pad)
  {
    hide Erased, Body, Lead, Zeros, Trail, Sign, Prefix;
    ErasedBody(val, flags, base, prec);
    Untouched(val, flags, base, pad);
    ErasedSix(Lead(flags, pad), Sign(val, flags), Prefix(base, flags), Zeros(flags, pad), Body(val, flags, base, prec),
              Trail(flags, pad));
  }

  lemma FormattedIs(val: nat, flags: Flags, base: nat, width: int, prec: int, pad: int)
    requires val < MODULUS && 2 <= base <= 16 && pad == width - CharsShown(val, flags, base, prec)
    ensures Formatted(val, flags, base, width, prec)
      == Lead(flags, pad) + Sign(val, flags) + Prefix(base, flags) + Zeros(flags, pad) + Body(val, flags, base, prec)
        + Trail(flags, pad)
  {
  }

  lemma SamePadding(val: nat, flags: Flags, base: nat, width: int, prec: int)
    requires val < MODULUS && 2 <= base <= 16
    ensures width - TickCount(val, flags, base, prec) - CharsShown(val, Plainly(flags), base, prec)
         == width - CharsShown(val, flags, base, prec)
  {
    hide Body;
  }

  /** Everything but the digits is free of ticks and does not depend on the flag. */
  lemma Untouched(val: nat, flags: Flags, base: nat, pad: int)
    ensures var g := Plainly(flags);
      && Erased(Lead(flags, pad)) == Lead(g, pad) && Erased(Sign(val, flags)) == Sign(val, g)
      && Erased(Prefix(base, flags)) == Prefix(base, g) && Erased(Zeros(flags, pad)) == Zeros(g, pad)
      && Erased(Trail(flags, pad)) == Trail(g, pad)
  {
    PaddingUntouched(flags, pad);
    hide Lead, Zeros, Trail;
    SignUntouched(val, flags, base);
  }

  lemma PaddingUntouched(flags: Flags, pad: int)
    ensures var g := Plainly(flags);
      Erased(Lead(flags, pad)) == Lead(g, pad) && Erased(Zeros(flags, pad)) == Zeros(g, pad) &&
        Erased(Trail(flags, pad)) == Trail(g, pad)
  {
    ErasedNone(Lead(flags, pad));
    ErasedNone(Zeros(flags, pad));
    ErasedNone(Trail(flags, pad));
    hide Erased;
  }

  lemma SignUntouched(val: nat, flags: Flags, base: nat)
    ensures Erased(Sign(val, flags)) == Sign(val, Plainly(flags))
    ensures Erased(Prefix(base, flags)) == Prefix(base, Plainly(flags))
  {
    ErasedNone(Sign(val, flags));
    ErasedNone(Prefix(base, flags));
    hide Erased;
  }

  lemma ErasedSix(a: string, b: string, c: string, d: string, e: string, f: string)
    ensures Erased(a + b + c + d + e + f) == Erased(a) + Erased(b) + Erased(c) + Erased(d) + Erased(e) + Erased(f)
  {
    hide Erased;
    ErasedConcat(a, b);
    ErasedConcat(a + b, c);
    ErasedConcat(a + b + c, d);
    ErasedConcat(a + b + c + d, e);
    ErasedConcat(a + b + c + d + e, f);
  }

  /** With the tick flag the round trip holds once the ticks are taken away, stop position included. */
  lemma TickedReadsBack(val: nat, flags: Flags, base: nat, width: int, prec: int)
    requires val < MODULUS && (base == 8 || base == 10 || base == 16)
    ensures var text := Erased(Formatted(val, flags, base, width, prec));
      var pad := width - CharsShown(val, flags, base, prec);
      Parse(text, base) == (val, |text| - |Trail(flags, pad)|)
  {
    hide Formatted, Parse, Erased, CharsShown, TickCount;
    ErasedFormatted(val, flags, base, width, prec);
    SamePadding(val, flags, base, width, prec);
    PrintThenParse(val, Plainly(flags), base, width - TickCount(val, flags, base, prec), prec);
  }

  // ---------------------------------------------------------------- reading ticked numbers as they are

  /** How many digits come before the first tick. */
  function FirstGroup(n: nat, skip: nat): (g: nat)
    requires skip > 0
    ensures g <= n && g <= skip && (n > 0 ==> g > 0) && (n > skip ==> g < n)
  {
    if n <= skip then n else FirstGroup(n - skip, skip)
  }

  lemma {:induction false} GroupedFirst(s: string, skip: nat) returns (rest: string)
    requires skip > 0 && |s| > skip
    ensures Grouped(s, skip) == s[..FirstGroup(|s|, skip)] + "_" + rest
    decreases |s|
  {
    var k := |s| - skip;
    var a, b := s[..k], s[k..];
    if k <= skip {
      rest := b;
    } else {
      var r := GroupedFirst(a, skip);
      rest := r + "_" + b;
      var g := FirstGroup(k, skip);
      assert a[..g] == s[..g];
      Joined(s[..g], r, b);
    }
  }

  lemma Joined(a: string, r: string, b: string)
    ensures a + "_" + r + "_" + b == a + "_" + (r + "_" + b)
  {
  }

  /** `v` without its last `k` digits. */
  function Dropped(v: nat, base: nat, k: nat): (w: nat)
    requires base >= 2
    ensures w <= v && (v > 0 && k > 0 ==> w < v)
  {
    if k == 0 then v else
    QuotientSmaller(v, base);
    Dropped(v / base, base, k - 1)
  }

  lemma {:induction false} FrontDigits(v: nat, base: nat, n: nat, k: nat, upper: bool)
    requires 2 <= base <= 16 && k <= n && DigitCount(v, base) <= n
    ensures Digits(v, base, n, upper)[..n - k] == Digits(Dropped(v, base, k), base, n - k, upper)
    ensures DigitCount(Dropped(v, base, k), base) <= n - k
    decreases k
  {
    var s := Digits(v, base, n, upper);
    if k == 0 {
      assert s[..n] == s;
    } else {
      QuotientSmaller(v, base);
      CountShrinks(v, base, n);
      FrontDigits(v / base, base, n - 1, k - 1, upper);
      assert s[..n - k] == Digits(v / base, base, n - 1, upper)[..n - k];
    }
  }

  function DigitsOf(val: nat, flags: Flags, base: nat, prec: int): nat
    requires val < MODULUS && 2 <= base <= 16
  {
    DigitsShown(Magnitude(val, flags), base, flags.hash, prec)
  }

  /** Whether there is a tick in the number. */
  predicate Ticked(val: nat, flags: Flags, base: nat, prec: int)
    requires val < MODULUS && 2 <= base <= 16
  {
    flags.tick && DigitsOf(val, flags, base, prec) > TickSkip(base)
  }

  /** What strntoumax reads of a number that has a tick. */
  function BeforeTick(val: nat, flags: Flags, base: nat, prec: int): nat
    requires val < MODULUS && 2 <= base <= 16
  {
    var n := DigitsOf(val, flags, base, prec);
    Dropped(Magnitude(val, flags), base, n - FirstGroup(n, TickSkip(base)))
  }

  /** The printed number up to its first tick, and behind it. */
  lemma TickedParts(val: nat, flags: Flags, base: nat, width: int, prec: int) returns (rest: string)
    requires val < MODULUS && 2 <= base <= 16 && Ticked(val, flags, base, prec)
    ensures var pad, g := width - CharsShown(val, flags, base, prec),
      FirstGroup(DigitsOf(val, flags, base, prec), TickSkip(base));
      var core := Fill('0', |Zeros(flags, pad)|) + Digits(BeforeTick(val, flags, base, prec), base, g, flags.upper);
      && Formatted(val, flags, base, width, prec)
         == Lead(flags, pad) + Sign(val, flags) + (Prefix(base, flags) + core + ("_" + rest + Trail(flags, pad)))
      && g >= 1 && DigitCount(BeforeTick(val, flags, base, prec), base) <= g
  {
    var pad, v, n := width - CharsShown(val, flags, base, prec), Magnitude(val, flags),
      DigitsOf(val, flags, base, prec);
    var g := FirstGroup(n, TickSkip(base));
    var ds := Digits(v, base, n, flags.upper);
    rest := GroupedFirst(ds, TickSkip(base));
    FrontDigits(v, base, n, n - g, flags.upper);
    FormattedIs(val, flags, base, width, prec, pad);
    ZerosAreFill(flags, pad);
    assert Body(val, flags, base, prec) == Grouped(ds, TickSkip(base));
    hide Formatted, Body, Lead, Zeros, Trail, Sign, Prefix, CharsShown, Digits, Grouped, DigitsShown, Dropped;
    TickedReassociate(Lead(flags, pad), Sign(val, flags), Prefix(base, flags), Zeros(flags, pad), ds[..g], rest,
                      Trail(flags, pad));
  }

  lemma TickedReassociate(a: string, b: string, c: string, d: string, e: string, r: string, f: string)
    ensures a + b + c + d + (e + "_" + r) + f == a + b + (c + (d + e) + ("_" + r + f))
  {
  }

  /** Of a number with a tick, strntoumax reads the digits before the first tick and stops there. */
  lemma ReadsToTick(val: nat, flags: Flags, base: nat, width: int, prec: int)
    requires val < MODULUS && (base == 8 || base == 10 || base == 16) && Ticked(val, flags, base, prec)
    ensures var text := Formatted(val, flags, base, width, prec);
      var pad, w := width - CharsShown(val, flags, base, prec), BeforeTick(val, flags, base, prec);
      && Parse(text, base).0 == (if Negative(val, flags) then (MODULUS - w) % MODULUS else w)
      && Parse(text, base).1 < |text| - |Trail(flags, pad)| && text[Parse(text, base).1] == '_'
  {
    hide ParseUnsigned, Parse, Digits, Fold, Formatted, AllPlain, AllDigits, CharsShown, DigitsOf, BeforeTick;
    var pad, w := width - CharsShown(val, flags, base, prec), BeforeTick(val, flags, base, prec);
    var g, z := FirstGroup(DigitsOf(val, flags, base, prec), TickSkip(base)), |Zeros(flags, pad)|;
    var rest := TickedParts(val, flags, base, width, prec);
    var lead, sign, prefix, trail := Lead(flags,
                                          pad), Sign(val, flags), Prefix(base, flags), "_" + rest + Trail(flags, pad);
    var core := Fill('0', z) + Digits(w, base, g, flags.upper);
    SmallerStill(val, flags, base, prec);
    CoreFacts(z, w, base, g, flags.upper);
    ParseCore(prefix, core, trail, base, w);
    FirstOf(prefix, core, trail, base);
    ParseSigned(lead, sign, prefix + core + trail, base, w, |prefix| + |core|);
    TickAt(lead + sign, prefix + core, rest, Trail(flags, pad));
  }

  lemma TickAt(a: string, b: string, rest: string, f: string)
    ensures var t := a + (b + ("_" + rest + f)); t[|a| + |b|] == '_' && |a| + |b| < |t| - |f|
  {
  }

  lemma SmallerStill(val: nat, flags: Flags, base: nat, prec: int)
    requires val < MODULUS && 2 <= base <= 16 && Ticked(val, flags, base, prec)
    ensures var v, w := Magnitude(val, flags), BeforeTick(val, flags, base, prec); w <= v < MODULUS && (v > 0 ==> w < v)
  {
  }

  /** A number without a tick in it is printed as without the flag. */
  lemma NoTickPrinted(val: nat, flags: Flags, base: nat, width: int, prec: int)
    requires val < MODULUS && 2 <= base <= 16 && !Ticked(val, flags, base, prec)
    ensures Formatted(val, flags, base, width, prec) == Formatted(val, Plainly(flags), base, width, prec)
    ensures CharsShown(val, flags, base, prec) == CharsShown(val, Plainly(flags), base, prec)
  {
    hide Formatted, Body, Lead, Zeros, Trail, Sign, Prefix, DigitsOf;
    SameBody(val, flags, base, prec);
    var pad := width - CharsShown(val, flags, base, prec);
    SameAround(val, flags, base, pad);
    FormattedIs(val, flags, base, width, prec, pad);
    FormattedIs(val, Plainly(flags), base, width, prec, pad);
  }

  lemma SameBody(val: nat, flags: Flags, base: nat, prec: int)
    requires val < MODULUS && 2 <= base <= 16 && !Ticked(val, flags, base, prec)
    ensures Body(val, flags, base, prec) == Body(val, Plainly(flags), base, prec)
  {
    hide Digits, DigitsShown;
  }

  lemma SameAround(val: nat, flags: Flags, base: nat, pad: int)
    ensures var g := Plainly(flags);
      && Lead(flags, pad) == Lead(g, pad) && Sign(val, flags) == Sign(val, g) && Prefix(base, flags) == Prefix(base, g)
      && Zeros(flags, pad) == Zeros(g, pad) && Trail(flags, pad) == Trail(g, pad)
  {
    hide Fill;
  }

  /** A printed number reads back, right up to its end, if and only if it has no tick in it; its value alone reads back
      also when it is zero. */
  lemma ReadsBackExactly(val: nat, flags: Flags, base: nat, width: int, prec: int)
    requires val < MODULUS && (base == 8 || base == 10 || base == 16)
    ensures var text := Formatted(val, flags, base, width, prec);
      var pad := width - CharsShown(val, flags, base, prec);
      && (Parse(text, base) == (val, |text| - |Trail(flags, pad)|) <==>
          !flags.tick || DigitsShown(Magnitude(val, flags), base, flags.hash, prec) <= TickSkip(base))
      && (Parse(text, base).0 == val <==>
          !flags.tick || DigitsShown(Magnitude(val, flags), base, flags.hash, prec) <= TickSkip(base) || val == 0)
  {
    hide Formatted, Parse, CharsShown, DigitsShown, Magnitude, Trail, TickSkip;
    if Ticked(val, flags, base, prec) {
      TickedMisread(val, flags, base, width, prec);
    } else {
      UntickedRead(val, flags, base, width, prec);
    }
  }

  lemma TickedMisread(val: nat, flags: Flags, base: nat, width: int, prec: int)
    requires val < MODULUS && (base == 8 || base == 10 || base == 16) && Ticked(val, flags, base, prec)
    ensures var text, pad := Formatted(val, flags, base, width, prec), width - CharsShown(val, flags, base, prec);
      Parse(text, base).1 < |text| - |Trail(flags, pad)| && (Parse(text, base).0 == val <==> val == 0)
  {
    hide Formatted, Parse, CharsShown, BeforeTick, DigitsOf, Magnitude, Trail, Negative;
    ReadsToTick(val, flags, base, width, prec);
    SmallerStill(val, flags, base, prec);
    LessRead(val, flags, BeforeTick(val, flags, base, prec));
  }

  lemma UntickedRead(val: nat, flags: Flags, base: nat, width: int, prec: int)
    requires val < MODULUS && (base == 8 || base == 10 || base == 16) && !Ticked(val, flags, base, prec)
    ensures var text, pad := Formatted(val, flags, base, width, prec), width - CharsShown(val, flags, base, prec);
      Parse(text, base) == (val, |text| - |Trail(flags, pad)|)
  {
    hide Formatted, Parse, CharsShown, DigitsOf, Trail;
    NoTickPrinted(val, flags, base, width, prec);
    SameAround(val, flags, base, width - CharsShown(val, flags, base, prec));
    PrintThenParse(val, Plainly(flags), base, width, prec);
  }

  /** Less than the magnitude is another value. */
  lemma LessRead(val: nat, flags: Flags, w: nat)
    requires val < MODULUS && w <= Magnitude(val, flags) && (Magnitude(val, flags) > 0 ==> w < Magnitude(val, flags))
    ensures (if Negative(val, flags) then (MODULUS - w) % MODULUS else w) == val <==> val == 0
  {
  }

  /** 1234 is printed as 1_234 and reads back as 1. */
  lemma TickStopsReading()
    ensures var f := NO_FLAGS.(tick := true);
      Formatted(1234, f, 10, 0, -1) == "1_234" && Parse(Formatted(1234, f, 10, 0, -1), 10) == (1, 1)
  {
    var f := NO_FLAGS.(tick := true);
    assert Body(1234, f, 10, -1) == "1_234" by {
      FourDigits();
      hide Digits, DigitCount;
      ThreeAndOne();
    }
    ReadsOne();
    hide Parse, Body;
    assert "" + "" + "" + "" + "1_234" + "" == "1_234";
  }

  lemma FourDigits()
    ensures DigitCount(1234, 10) == 4 && Digits(1234, 10, 4, false) == "1234"
  {
    assert DigitCount(123, 10) == 3 && DigitCount(12, 10) == 2 && DigitCount(1, 10) == 1;
    assert Digits(1, 10, 1, false) == "1" && Digits(12, 10, 2, false) == "12" && Digits(123, 10, 3, false) == "123";
  }

  lemma ThreeAndOne()
    ensures Grouped("1234", 3) == "1_234"
  {
    assert "1234"[..1] == "1" && "1234"[1..] == "234";
    assert Grouped("1", 3) == "1";
  }

  lemma ReadsOne()
    ensures Parse("1_234", 10) == (1, 1)
  {
    var s := "1_234";
    assert s[0..] == s && s[1..][0] == '_';
    assert Accumulate(s[1..], 10, 1) == (1, 0);
    assert Accumulate(s, 10, 0) == (1, 1);
  }

  /** The output is as wide as asked, or as wide as it needs. */
  lemma FormattedWidth(val: nat, flags: Flags, base: nat, width: int, prec: int)
    requires val < MODULUS && 2 <= base <= 16
    ensures var w := |Formatted(val, flags, base, width, prec)|;
      w >= width && (w > width ==> w == CharsShown(val, flags, base, prec)) && w >= CharsShown(val, flags, base, prec)
  {
  }

  /** A copy that ends prints a prefix of the string, padded. */
  lemma FieldWidth(s: string, flags: Flags, width: int, prec: int)
    requires SignedLength(s, prec) >= 0
    ensures var f, t := Field(s, flags, width, prec), s[..SignedLength(s, prec)];
      && |f| >= width && (|f| > width ==> f == t)
      && |t| == (if 0 <= prec < |s| then prec else |s|)
      && (if flags.minus then t <= f else |f| >= |t| && f[|f| - |t|..] == t)
  {
    var f, t := Field(s, flags, width, prec), s[..SignedLength(s, prec)];
    if flags.minus {
      assert "" + t == t;
    } else {
      assert f[|f| - |t|..] == t;
      assert |f| > width ==> f == t;
    }
  }
}
