/** What printf's integer conversions print, and what strntoumax reads, as functions on values. */
module NumberText {
  /** One more than the largest uintmax_t. */
  const MODULUS: nat := 0x1_0000_0000_0000_0000
  const HALF: nat := 0x8000_0000_0000_0000

  datatype Flags = Flags(zero: bool, minus: bool, plus: bool, tick: bool, space: bool, hash: bool, signed: bool,
                         upper: bool)

  // ---------------------------------------------------------------- digits

  /** Lines 51-52 and 60. */
  function Digit(d: nat, upper: bool): (c: char)
    requires d < 16
    ensures c as int == if d < 10 then '0' as int + d else (if upper then 'A' as int else 'a' as int) + (d - 10)
  {
    if upper then "0123456789ABCDEF"[d] else "0123456789abcdef"[d]
  }

  /** The number of digits of `v`, none for zero (lines 69-73). */
  function DigitCount(v: nat, base: nat): nat
    requires base >= 2
  {
    if v == 0 then 0 else 1 + DigitCount(v / base, base)
  }

  /** The last `n` digits of `v`, leading zeros included. */
  function Digits(v: nat, base: nat, n: nat, upper: bool): (s: string)
    requires 2 <= base <= 16
    ensures |s| == n
  {
    if n == 0 then "" else Digits(v / base, base, n - 1, upper) + [Digit(v % base, upper)]
  }

  /** A tick after every `skip` characters, counted from the right. */
  function Grouped(s: string, skip: nat): string
    requires skip > 0
  {
    if |s| <= skip then s else Grouped(s[..|s| - skip], skip) + "_" + s[|s| - skip..]
  }

  function Fill(c: char, n: int): (s: string)
    ensures |s| == if n > 0 then n else 0
    ensures forall i :: 0 <= i < |s| ==> s[i] == c
  {
    if n <= 0 then "" else seq(n, _ => c)
  }

  // ---------------------------------------------------------------- the parts of a formatted integer

  predicate Negative(val: nat, flags: Flags) { flags.signed && val >= HALF }

  /** Lines 62-66. */
  function Magnitude(val: nat, flags: Flags): nat
    requires val < MODULUS
  {
    if Negative(val, flags) then MODULUS - val else val
  }

  /** Lines 75-86: how many digits are printed. */
  function DigitsShown(v: nat, base: nat, hash: bool, prec: int): (n: nat)
    requires base >= 2
    ensures n >= 1 && n >= DigitCount(v, base)
  {
    var nd := DigitCount(v, base);
    var p := if hash && base == 8 && prec < nd + 1 then nd + 1 else prec;
    if nd < p then p else if v == 0 then 1 else nd
  }

  /** Lines 88-96. */
  function TickSkip(base: nat): nat { if base == 16 then 4 else 3 }

  function Number(v: nat, base: nat, n: nat, flags: Flags): string
    requires 2 <= base <= 16
  {
    var ds := Digits(v, base, n, flags.upper);
    if flags.tick then Grouped(ds, TickSkip(base)) else ds
  }

  /** Lines 116-121. */
  function Sign(val: nat, flags: Flags): string {
    if Negative(val, flags) then "-" else if flags.plus then "+" else if flags.space then " " else ""
  }

  /** Lines 123-126. */
  function Prefix(base: nat, flags: Flags): string {
    if flags.hash && base == 16 then (if flags.upper then "0X" else "0x") else ""
  }

  function Body(val: nat, flags: Flags, base: nat, prec: int): string
    requires val < MODULUS && 2 <= base <= 16
  {
    Number(Magnitude(val, flags), base, DigitsShown(Magnitude(val, flags), base, flags.hash, prec), flags)
  }

  /** Lines 98-105: how many characters there are besides padding. */
  function CharsShown(val: nat, flags: Flags, base: nat, prec: int): nat
    requires val < MODULUS && 2 <= base <= 16
  {
    |Sign(val, flags)| + |Prefix(base, flags)| + |Body(val, flags, base, prec)|
  }

  function Lead(flags: Flags, pad: int): string { if flags.minus || flags.zero then "" else Fill(' ', pad) }
  function Zeros(flags: Flags, pad: int): string { if !flags.minus && flags.zero then Fill('0', pad) else "" }
  function Trail(flags: Flags, pad: int): string { if flags.minus then Fill(' ', pad) else "" }

  /** All of format_int's output, lines 107-164. */
  function Formatted(val: nat, flags: Flags, base: nat, width: int, prec: int): string
    requires val < MODULUS && 2 <= base <= 16
  {
    var pad := width - CharsShown(val, flags, base, prec);
    Lead(flags, pad) + Sign(val, flags) + Prefix(base, flags) + Zeros(flags, pad) + Body(val, flags, base, prec)
      + Trail(flags, pad)
  }

  // ---------------------------------------------------------------- strntoumax

  /** isspace of this library's table: BS to CR, space and no-break space. */
  predicate IsSpace(c: char) { 8 as char <= c <= 13 as char || c == ' ' || c == 160 as char }

  /** digitval, lines 12-23 of strntoumax.c. */
  function DigitValue(c: char): int {
    if '0' <= c <= '9' then c as int - '0' as int
    else if 'A' <= c <= 'Z' then c as int - 'A' as int + 10
    else if 'a' <= c <= 'z' then c as int - 'a' as int + 10
    else -1
  }

  function SpaceCount(s: string): (n: nat)
    ensures n <= |s|
  {
    if s != "" && IsSpace(s[0]) then 1 + SpaceCount(s[1..]) else 0
  }

  predicate IsSign(c: char) { c == '-' || c == '+' }

  predicate HexPrefixed(s: string) { |s| >= 2 && s[0] == '0' && (s[1] == 'x' || s[1] == 'X') }

  /** Lines 46-65: the base to use and how many characters its prefix takes. */
  function BaseOf(s: string, base: int): (r: (int, nat))
    ensures r.1 <= |s|
  {
    if base == 0 then
      if HexPrefixed(s) then (16, 2) else if s != "" && s[0] == '0' then (8, 1) else (10, 0)
    else if base == 16 && HexPrefixed(s) then (16, 2)
    else (base, 0)
  }

  predicate IsDigit(c: char, base: int) { 0 <= DigitValue(c) < base }

  /** Line 68, with the 64-bit wrap-around. */
  function Shifted(v: nat, base: int, d: int): (r: nat)
    ensures r < MODULUS
  {
    (v * base + d) % MODULUS
  }

  /** Lines 67-71: the value accumulated over the leading digits, and how many there are. */
  function Accumulate(s: string, base: int, v: nat): (r: (nat, nat))
    ensures r.1 <= |s|
  {
    if s != "" && IsDigit(s[0], base) then
      var (w, k) := Accumulate(s[1..], base, Shifted(v, base, DigitValue(s[0])));
      (w, k + 1)
    else (v, 0)
  }

  /** Everything after the white space and the sign. */
  function ParseUnsigned(s: string, base: int): (r: (nat, nat))
    ensures r.1 <= |s|
  {
    var (b, skip) := BaseOf(s, base);
    var (v, k) := Accumulate(s[skip..], b, 0);
    (v, skip + k)
  }

  /** strntoumax on the `n` characters `s`: the value and where it stops. */
  function Parse(s: string, base: int): (r: (nat, nat))
    ensures r.1 <= |s|
  {
    var i := SpaceCount(s);
    if i < |s| && IsSign(s[i]) then
      var (v, k) := ParseUnsigned(s[i + 1..], base);
      (if s[i] == '-' then (MODULUS - v) % MODULUS else v, i + 1 + k)
    else
      var (v, k) := ParseUnsigned(s[i..], base);
      (v, i + k)
  }
}
