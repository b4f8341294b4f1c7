/** What the conversions of vsnprintf print, in the terms of the C standard: bases, ranks, signs, prefixes, padding. */
module Conversions {
  import opened Arithmetic
  import opened Options
  import opened NumberText
  import opened Printf
  import opened FormatMachine
  import opened FormatMeaning
  import RoundTrip
  import TickText

  // ---------------------------------------------------------------- what a directive asks for

  /** Which base a conversion prints in. */
  predicate Radix(ch: char, base: nat) {
    if ch == 'd' || ch == 'i' || ch == 'u' then base == 10
    else if ch == 'o' then base == 8
    else (ch == 'x' || ch == 'X' || ch == 'p' || ch == 'P') && base == 16
  }

  /** How many values the argument has: a char, a short, an int, or a long; a pointer is a long. */
  predicate Values(ch: char, mods: string, modulus: int) {
    if ch == 'p' || ch == 'P' then modulus == 0x1_0000_0000_0000_0000
    else if mods == "hh" then modulus == 0x100
    else if mods == "h" then modulus == 0x1_0000
    else if mods == "" then modulus == 0x1_0000_0000
    else mods in ["l", "ll", "j", "z", "t", "L", "q"] && modulus == 0x1_0000_0000_0000_0000
  }

  /** `x` is the argument as a value of that type, signed for d and i. */
  predicate Converted(ch: char, modulus: int, word: int, x: int)
    requires modulus > 0
  {
    && (x - word) % modulus == 0
    && if ch == 'd' || ch == 'i' then -modulus <= 2 * x < modulus else 0 <= x < modulus
  }

  function SignShown(x: int, flags: string): string {
    if x < 0 then "-" else if '+' in flags then "+" else if ' ' in flags then " " else ""
  }

  function PrefixShown(ch: char, flags: string): string {
    if ch == 'p' || (ch == 'x' && '#' in flags) then "0x"
    else if ch == 'P' || (ch == 'X' && '#' in flags) then "0X"
    else ""
  }

  /** `ds` is `v` in base `base`, after any zeros. */
  predicate Spells(ds: string, base: nat, upper: bool, v: nat)
    requires 2 <= base <= 16
  {
    if ds == "" then v == 0 else
    && ds[|ds| - 1] == (if upper then "0123456789ABCDEF" else "0123456789abcdef")[v % base]
    && Spells(ds[..|ds| - 1], base, upper, v / base)
  }

  /** At least one digit and at least `prec`; no zero in front beyond that, but one in octal with the flag #. */
  predicate AsLong(ds: string, prec: int, zeroFirst: bool) {
    && |ds| >= 1 && |ds| >= prec
    && (zeroFirst ==> ds[0] == '0' && (|ds| > 1 && |ds| > prec ==> ds[1] != '0'))
    && (!zeroFirst && |ds| > 1 && |ds| > prec ==> ds[0] != '0')
  }

  /** A field of the given width. */
  function Justified(left: bool, zero: bool, width: int, front: string, body: string): string {
    var pad := width - |front| - |body|;
    if left then front + body + Fill(' ', pad) else if zero then front + Fill('0', pad) + body
      else Fill(' ', pad) + front + body
  }

  /** Left-justified by the flag or by a negative width. */
  predicate ToTheLeft(r: Raw, ap: nat, args: Args) { '-' in r.flags || SomeNegative(r.width, ap, args) }

  function WidthAsked(r: Raw, ap: nat, args: Args): int { WidthOf(r.width, ap, args) }

  function PrecAsked(r: Raw, ap: nat, args: Args): int {
    if r.prec.Some? then PrecOf(r.prec.value, ap + Stars(r.width), args) else -1
  }

  // ---------------------------------------------------------------- digits

  lemma {:induction false} DigitsSpell(v: nat, base: nat, n: nat, upper: bool)
    requires 2 <= base <= 16 && DigitCount(v, base) <= n
    ensures Spells(Digits(v, base, n, upper), base, upper, v)
    decreases n
  {
    RoundTrip.CountShrinks(v, base, n);
    if n > 0 {
      DigitsSpell(v / base, base, n - 1, upper);
      DigitsLast(v, base, n, upper);
      hide Digits, DigitCount;
    }
  }

  lemma DigitsLast(v: nat, base: nat, n: nat, upper: bool)
    requires 2 <= base <= 16 && n > 0
    ensures var s := Digits(v, base, n, upper);
      && s[..n - 1] == Digits(v / base, base, n - 1, upper)
      && s[n - 1] == (if upper then "0123456789ABCDEF" else "0123456789abcdef")[v % base]
  {
  }

  /** The first digit is zero exactly if there are more digits than the number needs. */
  lemma {:induction false} FirstZero(v: nat, base: nat, n: nat, upper: bool)
    requires 2 <= base <= 16 && n >= 1 && DigitCount(v, base) <= n
    ensures Digits(v, base, n, upper)[0] == '0' <==> DigitCount(v, base) < n
    decreases n
  {
    if n == 1 {
      SmallNumber(v, base);
      OneDigit(v, base, upper);
    } else {
      CountFewer(v, base, n);
      FirstZero(v / base, base, n - 1, upper);
      DigitsFront(v, base, n, upper);
      hide Digits, DigitCount;
    }
  }

  lemma OneDigit(v: nat, base: nat, upper: bool)
    requires 2 <= base <= 16 && v < base && v % base == v
    ensures Digits(v, base, 1, upper)[0] == '0' <==> v == 0
  {
    hide DigitCount;
  }

  lemma DigitsFront(v: nat, base: nat, n: nat, upper: bool)
    requires 2 <= base <= 16 && n >= 2
    ensures Digits(v, base, n, upper)[0] == Digits(v / base, base, n - 1, upper)[0]
  {
  }

  lemma CountFewer(v: nat, base: nat, n: nat)
    requires base >= 2 && n >= 2 && DigitCount(v, base) <= n
    ensures DigitCount(v / base, base) <= n - 1 && (DigitCount(v, base) < n <==> DigitCount(v / base, base) < n - 1)
  {
    if v == 0 {
      assert v / base == 0;
    }
  }

  lemma SmallNumber(v: nat, base: nat)
    requires base >= 2 && DigitCount(v, base) <= 1
    ensures v < base && v % base == v && (DigitCount(v, base) == 0 <==> v == 0)
  {
    if v > 0 {
      assert v / base == 0;
    }
  }

  lemma {:induction false} LastDigits(v: nat, base: nat, n: nat, upper: bool)
    requires 2 <= base <= 16 && n >= 1
    ensures Digits(v, base, n, upper)[1..] == Digits(v, base, n - 1, upper)
    decreases n
  {
    if n > 1 {
      LastDigits(v / base, base, n - 1, upper);
    }
  }

  lemma DigitsAsLong(v: nat, base: nat, hash: bool, prec: int, upper: bool)
    requires 2 <= base <= 16
    ensures var ds := Digits(v, base, DigitsShown(v, base, hash, prec), upper);
      Spells(ds, base, upper, v) && AsLong(ds, prec, hash && base == 8)
  {
    hide Digits, Spells, DigitCount, DigitsShown, AsLong;
    var n := DigitsShown(v, base, hash, prec);
    DigitsSpell(v, base, n, upper);
    if hash && base == 8 {
      ZeroInFront(v, prec, upper);
    } else {
      NoneInFront(v, base, hash, prec, upper);
    }
  }

  lemma NoneInFront(v: nat, base: nat, hash: bool, prec: int, upper: bool)
    requires 2 <= base <= 16 && !(hash && base == 8)
    ensures AsLong(Digits(v, base, DigitsShown(v, base, hash, prec), upper), prec, false)
  {
    hide Digits;
    CountZero(v, base);
    FirstZero(v, base, DigitsShown(v, base, hash, prec), upper);
    hide DigitCount;
  }

  lemma ZeroInFront(v: nat, prec: int, upper: bool)
    ensures AsLong(Digits(v, 8, DigitsShown(v, 8, true, prec), upper), prec, true)
  {
    hide Digits;
    CountZero(v, 8);
    var n := DigitsShown(v, 8, true, prec);
    var ds := Digits(v, 8, n, upper);
    FirstZero(v, 8, n, upper);
    hide DigitCount;
    if n > 1 {
      LastDigits(v, 8, n, upper);
      FirstZero(v, 8, n - 1, upper);
      assert ds[1] == ds[1..][0];
    }
  }

  lemma CountZero(v: nat, base: nat)
    requires base >= 2
    ensures DigitCount(v, base) == 0 <==> v == 0
  {
  }

  // ---------------------------------------------------------------- widths and precisions

  lemma {:induction false} NumberSpelled(ds: string, w: nat)
    requires Spells(ds, 10, false, w)
    ensures Stars(ds) == 0 && Value(ds) == w
  {
    if ds != "" {
      NumberSpelled(ds[..|ds| - 1], w / 10);
    }
  }

  /** A width or a precision in decimal is that number and takes no argument. */
  lemma WidthSpelled(ds: string, w: nat, ap: nat, args: Args)
    requires Spells(ds, 10, false, w)
    ensures Stars(ds) == 0 && WidthOf(ds, ap, args) == w && PrecOf(ds, ap, args) == w && !SomeNegative(ds, ap, args)
  {
    NumberSpelled(ds, w);
  }

  /** A star takes one argument: a width left-justified if it is negative, and a precision that counts as none then. */
  lemma StarSpelled(ap: nat, args: Args)
    ensures var x := args(ap).word;
      && Stars("*") == 1
      && WidthOf("*", ap, args) == (if x < 0 then -x else x) && (SomeNegative("*", ap, args) <==> x < 0)
      && PrecOf("*", ap, args) == (if x < 0 then -1 else x)
  {
    assert Stars("*") == 1 && AfterStars("*") == "";
    assert StarWord(0, ap, args) == args(ap).word;
  }

  // ---------------------------------------------------------------- the value fetched

  /** The argument as it is handed to format_int: `x` modulo 2^64. */
  lemma FetchedIs(ch: char, mods: string, rank: int, modulus: int, word: int, x: int)
    requires AllModifiers(mods) && rank == ClampRank(RankOf(mods)) && Values(ch, mods, modulus)
    requires Converted(ch, modulus, word, x)
    requires IsInteger(ch)
    ensures ValueFor(ch, rank, word) == if x < 0 then MODULUS + x else x
    ensures x + HALF >= 0 && x < MODULUS && (IsSigned(ch) ==> x < HALF) && (!IsSigned(ch) ==> x >= 0)
  {
    RankIs(ch, mods, rank, modulus);
    Congruent(word, modulus, x);
    hide RankOf, Span;
  }

  lemma RankIs(ch: char, mods: string, rank: int, modulus: int)
    requires AllModifiers(mods) && rank == ClampRank(RankOf(mods)) && Values(ch, mods, modulus)
    ensures Span(if IsPointer(ch) then MAX_RANK else rank) == modulus
  {
    RankSpelled();
  }

  lemma RankSpelled()
    ensures RankOf("hh") == -2 && RankOf("h") == -1 && RankOf("") == 0 && RankOf("l") == 1 && RankOf("ll") == 2
    ensures RankOf("j") == 2 && RankOf("z") == 1 && RankOf("t") == 1 && RankOf("L") == 2 && RankOf("q") == 2
  {
    assert "hh"[..1] == "h" && "ll"[..1] == "l" && "h"[..0] == "" && "l"[..0] == "" && "j"[..0] == "";
    assert "z"[..0] == "" && "t"[..0] == "" && "L"[..0] == "" && "q"[..0] == "";
    assert RankOf("h") == -1 && RankOf("l") == 1;
  }

  lemma Congruent(word: int, modulus: int, x: int)
    requires modulus > 0 && (x - word) % modulus == 0 && -modulus <= 2 * x && x < modulus
    ensures word % modulus == if x < 0 then modulus + x else x
  {
    var q := (x - word) / modulus;
    assert x - word == q * modulus;
    assert word == (-q) * modulus + x;
    if x < 0 {
      assert word == (-q - 1) * modulus + (modulus + x);
      Division(word, modulus, -q - 1, modulus + x);
    } else {
      Division(word, modulus, -q, x);
    }
  }

  // ---------------------------------------------------------------- integers

  /** Every integer directive prints its argument: as a value of its type, in its base, with its sign, prefix, digits
      and padding, and in groups if the tick flag is given. */
  lemma IntegerPrinted(m: Machine, r: Raw, ch: char, args: Args, base: nat, modulus: int, x: int) returns (ds: string)
    requires m.state == Normal && Readable(r) && Radix(ch, base) && Values(ch, r.mods, modulus)
    requires Converted(ch, modulus, args(m.ap + Taken(r)).word, x)
    ensures var upper, prec := ch == 'X' || ch == 'P', if ch == 'p' || ch == 'P' then 16 else PrecAsked(r, m.ap, args);
      && Spells(ds, base, upper, if x < 0 then -x else x) && AsLong(ds, prec, ch == 'o' && '#' in r.flags)
    ensures var body := if '\'' in r.flags then Grouped(ds, if base == 16 then 4 else 3) else ds;
      var n := Run(m, Spelled(r, ch), args);
      && n.state == Normal && n.ap == m.ap + Taken(r) + 1 && n.stores == m.stores
      && n.out == m.out + Justified(ToTheLeft(r, m.ap, args), '0' in r.flags, WidthAsked(r, m.ap, args),
                                    SignShown(x, r.flags) + PrefixShown(ch, r.flags), body)
  {
    hide Run, Spelled, RankOf, WidthOf, PrecOf, SomeNegative, Stars, Grouped, Spells, AsLong, IntText, Converted;
    hide Values;
    hide ValueFor, Justified, SignShown, PrefixShown, Readable;
    IntegerChars(ch, base);
    var d, word := Meaning(r, m.ap, args), args(m.ap + Taken(r)).word;
    var rank := ClampRank(d.rank);
    ReadableMods(r);
    FetchedIs(ch, r.mods, rank, modulus, word, x);
    SpelledMeans(m, r, ch, args);
    ds := IntegerText(ch, d.(rank := rank), r.flags, base, x, word);
  }

  lemma IntegerChars(ch: char, base: nat)
    requires Radix(ch, base)
    ensures IsInteger(ch) && forall at: State :: Ends(at, ch)
  {
  }

  lemma ReadableMods(r: Raw)
    requires Readable(r)
    ensures AllModifiers(r.mods)
  {
  }

  lemma IntegerText(ch: char, d: Directive, flags: string, base: nat, x: int, word: int) returns (ds: string)
    requires Radix(ch, base) && d.flags == FlagsOf(flags).(minus := d.flags.minus)
    requires ValueFor(ch, d.rank, word) == (if x < 0 then MODULUS + x else x)
    requires x + HALF >= 0 && x < MODULUS && (IsSigned(ch) ==> x < HALF) && (!IsSigned(ch) ==> x >= 0)
    ensures var upper, prec := ch == 'X' || ch == 'P', if ch == 'p' || ch == 'P' then 16 else d.prec;
      && Spells(ds, base, upper, if x < 0 then -x else x) && AsLong(ds, prec, ch == 'o' && '#' in flags)
    ensures var body := if '\'' in flags then Grouped(ds, if base == 16 then 4 else 3) else ds;
      IntText(ch, d, word)
      == Justified(d.flags.minus, '0' in flags, d.width, SignShown(x, flags) + PrefixShown(ch, flags), body)
  {
    hide Digits, Spells, AsLong, DigitsShown, Grouped, FlagsFor, ValueFor, Magnitude, Negative, Justified, SignShown;
    hide PrefixShown, Formatted, Body, Sign, Prefix, FlagsOf;
    var f, val, prec := FlagsFor(ch, d.flags), ValueFor(ch, d.rank, word), PrecFor(ch, d.prec);
    FlagsAre(ch, d.flags, flags, base);
    MagnitudeIs(val, f, x);
    ds := BodyIs(val, f, base, prec);
    FrontIs(val, f, ch, flags, base, x);
    JustifiedIs(val, f, base, d.width, prec);
  }

  lemma BodyIs(val: nat, f: Flags, base: nat, prec: int) returns (ds: string)
    requires val < MODULUS && 2 <= base <= 16
    ensures Spells(ds, base, f.upper, Magnitude(val, f)) && AsLong(ds, prec, f.hash && base == 8)
    ensures Body(val, f, base, prec) == if f.tick then Grouped(ds, if base == 16 then 4 else 3) else ds
  {
    hide Digits, Spells, AsLong, DigitsShown, Grouped, Magnitude;
    var v := Magnitude(val, f);
    ds := Digits(v, base, DigitsShown(v, base, f.hash, prec), f.upper);
    DigitsAsLong(v, base, f.hash, prec, f.upper);
  }

  lemma FlagsAre(ch: char, g: Flags, flags: string, base: nat)
    requires Radix(ch, base) && g == FlagsOf(flags).(minus := g.minus)
    ensures var f := FlagsFor(ch, g);
      && f.minus == g.minus && f.zero == ('0' in flags) && f.plus == ('+' in flags) && f.space == (' ' in flags)
      && f.tick == ('\'' in flags) && f.signed == (ch == 'd' || ch == 'i') && f.upper == (ch == 'X' || ch == 'P')
      && f.hash == ('#' in flags || ch == 'p' || ch == 'P')
    ensures BaseFor(ch) == base
  {
  }

  lemma MagnitudeIs(val: nat, f: Flags, x: int)
    requires val == (if x < 0 then MODULUS + x else x) && x + HALF >= 0 && x < MODULUS
    requires (f.signed ==> x < HALF) && (!f.signed ==> x >= 0)
    ensures val < MODULUS && Magnitude(val, f) == (if x < 0 then -x else x) && (Negative(val, f) <==> x < 0)
  {
  }

  lemma FrontIs(val: nat, f: Flags, ch: char, flags: string, base: nat, x: int)
    requires Radix(ch, base) && (Negative(val, f) <==> x < 0)
    requires f.plus == ('+' in flags) && f.space == (' ' in flags) && f.upper == (ch == 'X' || ch == 'P')
    requires f.hash == ('#' in flags || ch == 'p' || ch == 'P')
    ensures Sign(val, f) == SignShown(x, flags) && Prefix(base, f) == PrefixShown(ch, flags)
  {
    hide Negative;
  }

  /** Padding, sign, prefix and digits in the order in which they are printed. */
  lemma JustifiedIs(val: nat, f: Flags, base: nat, width: int, prec: int)
    requires val < MODULUS && 2 <= base <= 16
    ensures Formatted(val, f, base, width, prec)
      == Justified(f.minus, f.zero, width, Sign(val, f) + Prefix(base, f), Body(val, f, base, prec))
  {
    var pad := width - CharsShown(val, f, base, prec);
    TickText.FormattedIs(val, f, base, width, prec, pad);
    hide Formatted, Sign, Prefix, Body;
    Assembled(Lead(f, pad), Sign(val, f), Prefix(base, f), Zeros(f, pad), Body(val, f, base, prec), Trail(f, pad));
  }

  lemma Assembled(a: string, b: string, c: string, z: string, body: string, t: string)
    ensures a == "" && z == "" ==> a + b + c + z + body + t == b + c + body + t
    ensures a == "" && t == "" ==> a + b + c + z + body + t == b + c + z + body
    ensures z == "" && t == "" ==> a + b + c + z + body + t == a + (b + c) + body
  {
  }

  /** What is printed in base 10, 8 or 16 reads back in that base, unless it has a tick in it. */
  lemma IntegerReadsBack(r: Raw, ch: char, args: Args, base: nat, modulus: int, x: int)
    requires Readable(r) && Radix(ch, base) && Values(ch, r.mods, modulus) && '\'' !in r.flags
    requires Converted(ch, modulus, args(Taken(r)).word, x)
    ensures Parse(Run(INITIAL, Spelled(r, ch), args).out, base).0 == if x < 0 then 0x1_0000_0000_0000_0000 + x else x
  {
    hide Run, Spelled, RankOf, WidthOf, PrecOf, SomeNegative, Stars, Parse, ValueFor, Readable, Converted, Values;
    hide CharsShown, DigitsShown, Magnitude, Trail;
    var d := Meaning(r, 0, args);
    IntegerChars(ch, base);
    ReadableMods(r);
    FetchedIs(ch, r.mods, ClampRank(d.rank), modulus, args(Taken(r)).word, x);
    FlagsAre(ch, d.flags, r.flags, base);
    PrintedReadsBack(r, ch, args);
  }

  /** format_int2 prints the value in the base, with a minus sign and no other, and no zeros in front. */
  lemma UnpaddedIs(val: nat, base: nat, sgn: bool) returns (ds: string)
    requires val < MODULUS && 2 <= base <= 16
    ensures var negative := sgn && val >= 0x8000_0000_0000_0000;
      && Unpadded(val, base, sgn) == (if negative then "-" else "") + ds
      && Spells(ds, base, false, if negative then 0x1_0000_0000_0000_0000 - val else val)
      && ds != "" && (|ds| > 1 ==> ds[0] != '0')
  {
    hide Formatted, Body, Spells;
    var f := Flags(!sgn, false, false, false, false, false, sgn, false);
    ds := BodyIs(val, f, base, -1);
    JustifiedIs(val, f, base, 0, -1);
    NotPadded(Sign(val, f) + Prefix(base, f), ds, f.zero);
    assert Sign(val, f) + "" == Sign(val, f);
  }

  lemma NotPadded(front: string, body: string, zero: bool)
    ensures Justified(false, zero, 0, front, body) == front + body
  {
    assert front + "" + body == front + body && "" + front + body == front + body;
  }

  // ---------------------------------------------------------------- groups

  /** Ticks stand after every `skip` digits, counted from the right, and nowhere else. */
  lemma {:induction false} GroupedAt(s: string, skip: nat, j: nat)
    requires skip > 0 && '_' !in s && j < |Grouped(s, skip)|
    ensures var t := Grouped(s, skip); t[|t| - 1 - j] == '_' <==> j % (skip + 1) == skip
    decreases |s|
  {
    if |s| <= skip {
      SmallRest(j, skip + 1);
    } else {
      var a, b := s[..|s| - skip], s[|s| - skip..];
      var g := Grouped(a, skip);
      var t := g + "_" + b;
      if j < skip {
        SmallRest(j, skip + 1);
        assert t[|t| - 1 - j] == b[skip - 1 - j];
      } else if j == skip {
        SmallRest(j, skip + 1);
      } else {
        GroupedAt(a, skip, j - (skip + 1));
        assert t[|t| - 1 - j] == g[|g| - 1 - (j - (skip + 1))];
        RestAgain(j, skip + 1);
      }
    }
  }

  lemma SmallRest(j: nat, k: nat)
    requires j < k
    ensures j % k == j
  {
    Division(j, k, 0, j);
  }

  lemma RestAgain(j: nat, k: nat)
    requires 0 < k <= j
    ensures j % k == (j - k) % k
  {
    var q, r := (j - k) / k, (j - k) % k;
    assert j == (q + 1) * k + r;
    Division(j, k, q + 1, r);
  }

  // ---------------------------------------------------------------- strings and the rest

  /** What %s, %c and %f print: the string, or (null), cut to the precision; the character; or (float), as it is. */
  function TextShown(ch: char, arg: Arg): string {
    if ch == 'f' then "(float)"
    else if ch == 'c' then [(arg.word % 256) as char]
    else if arg.text.Some? then arg.text.value else "(null)"
  }

  /** Every string directive whose precision is not below -1 prints its text, cut and padded. */
  lemma TextPrinted(m: Machine, r: Raw, ch: char, args: Args)
    requires m.state == Normal && Readable(r) && (ch == 's' || ch == 'c') && PrecAsked(r, m.ap, args) >= -1
    ensures var text, prec := TextShown(ch, args(m.ap + Taken(r))), PrecAsked(r, m.ap, args);
      var n := Run(m, Spelled(r, ch), args);
      && n.state == Normal && n.ap == m.ap + Taken(r) + 1 && n.stores == m.stores
      && n.out == m.out + Justified(ToTheLeft(r, m.ap, args), '0' in r.flags, WidthAsked(r, m.ap, args), "",
                                    if 0 <= prec < |text| then text[..prec] else text)
  {
    hide Run, Spelled, RankOf, WidthOf, PrecOf, SomeNegative, Stars, Justified, Readable, Terminal, TextShown;
    SpelledMeans(m, r, ch, args);
    TextTerminal(Read(m, r, args), ch, args);
  }

  lemma TextTerminal(m: Machine, ch: char, args: Args)
    requires (ch == 's' || ch == 'c') && m.dir.prec >= -1
    ensures var n, text, prec, f := Terminal(m, ch, args), TextShown(ch, args(m.ap)), m.dir.prec, m.dir.flags;
      && n.state == Normal && n.ap == m.ap + 1 && n.stores == m.stores
      && n.out == m.out + Justified(f.minus, f.zero, m.dir.width, "", if 0 <= prec < |text| then text[..prec] else text)
  {
    hide Justified, Field;
    FieldIs(TextShown(ch, args(m.ap)), m.dir.flags, m.dir.width, m.dir.prec);
  }

  lemma FieldIs(s: string, f: Flags, width: int, prec: int)
    requires prec >= -1
    ensures Field(s, f, width, prec) == Justified(f.minus, f.zero, width, "", if 0 <= prec < |s| then s[..prec] else s)
  {
    var slen := SignedLength(s, prec);
    var t := s[..slen];
    assert t == if 0 <= prec < |s| then s[..prec] else s;
    hide Fill, SignedLength;
    NothingAround(t, Fill(' ', width - |t|));
    NothingAround(t, Fill('0', width - |t|));
  }

  lemma NothingAround(t: string, pad: string)
    ensures "" + t + pad == t + pad && pad + t + "" == pad + t && pad + "" + t == pad + t && "" + pad + t == pad + t
  {
  }

  /** %f prints (float) whatever the directive says. */
  lemma FloatPrinted(m: Machine, r: Raw, args: Args)
    requires m.state == Normal && Readable(r)
    ensures var n := Run(m, Spelled(r, 'f'), args);
      n.state == Normal && n.ap == m.ap + Taken(r) + 1 && n.stores == m.stores && n.out == m.out + "(float)"
  {
    SpelledMeans(m, r, 'f', args);
    var d := Meaning(r, m.ap, args);
    hide Run, Spelled, RankOf, WidthOf, PrecOf, SomeNegative, Stars, Readable;
    FieldIs("(float)", d.flags, 0, -1);
    assert "(float)" + Fill(' ', -7) == "(float)" && Fill('0', -7) + "(float)" == "(float)";
  }

  /** %n stores how many characters were printed so far, in an integer of the given type. */
  lemma CountStored(m: Machine, r: Raw, args: Args, rank: int)
    requires m.state == Normal && Readable(r) && Named(r.mods, rank)
    ensures var n := Run(m, Spelled(r, 'n'), args);
      && n.state == Normal && n.ap == m.ap + Taken(r) + 1 && n.out == m.out
      && n.stores == m.stores + [Store(m.ap + Taken(r), rank, |m.out|)]
  {
    hide Run, Spelled, RankOf, WidthOf, PrecOf, SomeNegative, Stars, Readable, Named;
    SpelledMeans(m, r, 'n', args);
    ReadableMods(r);
    NamedRank(r.mods, rank);
  }

  /** A char, a short, an int, a long or a long long. */
  predicate Named(mods: string, rank: int) {
    || (mods == "hh" && rank == -2) || (mods == "h" && rank == -1) || (mods == "" && rank == 0)
    || (mods in ["l", "z", "t"] && rank == 1) || (mods in ["ll", "j", "L", "q"] && rank == 2)
  }

  lemma NamedRank(mods: string, rank: int)
    requires AllModifiers(mods) && Named(mods, rank)
    ensures ClampRank(RankOf(mods)) == rank
  {
    RankSpelled();
  }

  /** Any other character that ends a directive prints itself and takes no argument; so %% prints a percent sign. */
  lemma OtherPrinted(m: Machine, r: Raw, ch: char, args: Args)
    requires m.state == Normal && Readable(r) && Ends(Where(r), ch)
    requires ch !in ['d', 'i', 'o', 'u', 'x', 'X', 'p', 'P', 's', 'c', 'f', 'n']
    ensures var n := Run(m, Spelled(r, ch), args);
      n.state == Normal && n.ap == m.ap + Taken(r) && n.stores == m.stores && n.out == m.out + [ch]
  {
    SpelledMeans(m, r, ch, args);
    hide Run, Spelled, RankOf, WidthOf, PrecOf, SomeNegative, Stars, Readable;
  }
}
