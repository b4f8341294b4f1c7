/** format_int of vsnprintf.c: the truncating emitter, the padding loops and the right-to-left digit
    loop, writing into a buffer.  Pointers are indices into the buffer. */
module Printf {
  import opened Arithmetic
  import opened NumberText

  // ---------------------------------------------------------------- what a truncated output looks like

  ghost predicate Fits(length: int, start: int, n: nat) {
    n > 0 ==> 0 <= start && start + n <= length
  }

  /** Of `out`, exactly the characters that fit in the `n` cells from `start` are there, and every
      other cell is as it was. */
  ghost predicate Shows(now: string, was: string, start: int, n: nat, out: string) {
    ShowsBut(now, was, start, n, out, |out|, |out|)
  }

  /** The same while the characters `lo` to `hi` of `out` are still to be written. */
  ghost predicate ShowsBut(now: string, was: string, start: int, n: nat, out: string, lo: int, hi: int) {
    && |now| == |was|
    && forall i {:trigger now[i]} :: 0 <= i < |now| ==>
         now[i] == if start <= i < start + n && i - start < |out| &&
           !(lo <= i - start < hi) then out[i - start] else was[i]
  }

  /** The emitter has put out `out`; `q` is the next cell unless the output is already too long. */
  ghost predicate Emitted(now: string, was: string, start: int, n: nat, out: string, q: int, o: nat) {
    Shows(now, was, start, n, out) && o == |out| && Placed(q, o, start, n)
  }

  ghost predicate Placed(q: int, o: nat, start: int, n: nat) { o <= n ==> q == start + o }

  // ---------------------------------------------------------------- EMIT and the padding loops

  /** EMIT, line 42. */
  method Emit(buf: array<char>, q: int, o: nat, n: nat, x: char, ghost was: string, ghost start: int, ghost out: string)
    returns (q': int, o': nat)
    requires Fits(buf.Length, start, n) && Emitted(buf[..], was, start, n, out, q, o)
    modifies buf
    ensures Emitted(buf[..], was, start, n, out + [x], q', o')
  {
    q', o' := q, o;
    if o' < n {
      buf[q'] := x;
      q' := q' + 1;
    }
    o' := o' + 1;
  }

  /** The padding loops of lines 108-113, 130-133 and 161-164. */
  method Pad(buf: array<char>, q: int, o: nat, n: nat, c: char, width: int, nchars: int,
             ghost was: string, ghost start: int, ghost out: string) returns (q': int, o': nat, width': int)
    requires Fits(buf.Length, start, n) && Emitted(buf[..], was, start, n, out, q, o)
    modifies buf
    ensures Emitted(buf[..], was, start, n, out + Fill(c, width - nchars), q', o')
    ensures width' == if width > nchars then nchars else width
  {
    hide Emitted;
    q', o', width' := q, o, width;
    ghost var sofar := out;
    NothingPadded(out, c);
    while width' > nchars
      invariant width' <= width && (width' < width ==> width' >= nchars)
      invariant sofar == out + Fill(c, width - width') && Emitted(buf[..], was, start, n, sofar, q', o')
    {
      q', o' := Emit(buf, q', o', n, c, was, start, sofar);
      OneMorePadded(out, c, width - width');
      sofar := sofar + [c];
      width' := width' - 1;
    }
    FillNothing(c, width - nchars, width - width');
  }

  lemma NothingPadded(out: string, c: char)
    ensures out + Fill(c, 0) == out
  {
  }

  lemma OneMorePadded(out: string, c: char, k: nat)
    ensures out + Fill(c, k) + [c] == out + Fill(c, k + 1)
  {
  }

  lemma FillNothing(c: char, k: int, l: int)
    requires k == l || (k <= 0 && l == 0)
    ensures Fill(c, k) == Fill(c, l)
  {
  }

  // ---------------------------------------------------------------- the right-to-left digit loop

  /** Lines 156-157: the digit to write and what is left of the value. */
  function LastDigit(v: nat, base: nat, upper: bool): char
    requires 2 <= base <= 16
  {
    Digit(v % base, upper)
  }

  function Rest(v: nat, base: nat): nat
    requires base >= 2
  {
    v / base
  }

  /** What the loop of lines 142-158 still has to write: `n` characters, the next tick after `b4` digits. */
  function LoopText(v: nat, base: nat, n: nat, b4: nat, skip: nat, upper: bool): (s: string)
    requires 2 <= base <= 16 && skip >= 1
    ensures |s| == n
  {
    if n == 0 then ""
    else if b4 == 0 then LoopText(v, base, n - 1, skip, skip, upper) + "_"
    else LoopText(Rest(v, base), base, n - 1, b4 - 1, skip, upper) + [LastDigit(v, base, upper)]
  }

  /** How many ticks go between `d` digits when the first comes after `b4` of them. */
  function Ticks(d: nat, b4: nat, skip: nat): nat
    requires skip >= 1
    decreases d, if b4 == 0 then 1 else 0
  {
    if d <= b4 then 0 else 1 + Ticks(d - b4, skip, skip)
  }

  /** Lines 95-96. */
  lemma {:induction false} TicksCount(d: nat, skip: nat)
    requires skip >= 1 && d >= 1
    ensures Ticks(d, skip, skip) == (d - 1) / skip
    decreases d
  {
    if d <= skip {
      QuotientZero(d - 1, skip);
    } else {
      TicksCount(d - skip, skip);
      QuotientStep(d - 1, skip);
    }
  }

  lemma QuotientZero(a: nat, b: nat)
    requires a < b
    ensures a / b == 0
  {
  }

  lemma QuotientStep(a: nat, b: nat)
    requires 0 < b <= a
    ensures a / b == 1 + (a - b) / b
  {
    var q, r := (a - b) / b, (a - b) % b;
    Division(a, b, q + 1, r);
  }

  /** The digits from the right with ticks, the first after `b4` digits. */
  function GroupedAfter(s: string, b4: nat, skip: nat): string
    requires skip >= 1
  {
    if |s| <= b4 then s else Grouped(s[..|s| - b4], skip) + "_" + s[|s| - b4..]
  }

  lemma GroupedIsAfter(s: string, skip: nat)
    requires skip >= 1
    ensures Grouped(s, skip) == GroupedAfter(s, skip, skip)
  {
  }

  lemma GroupedAppend(s: string, c: char, b4: nat, skip: nat)
    requires skip >= 1 && b4 >= 1
    ensures GroupedAfter(s + [c], b4, skip) == GroupedAfter(s, b4 - 1, skip) + [c]
  {
    if |s| + 1 > b4 {
      var t, k := s + [c], |s| + 1 - b4;
      assert t[..k] == s[..k] && t[k..] == s[k..] + [c];
      Reassociated(Grouped(s[..k], skip), "_", s[k..], [c]);
    }
  }

  lemma Reassociated(a: string, b: string, c: string, d: string)
    ensures a + b + (c + d) == a + b + c + d
  {
  }

  /** The loop that interleaves digits and ticks writes the digits in groups. */
  lemma {:induction false} LoopIsGrouped(v: nat, base: nat, d: nat, b4: nat, skip: nat, upper: bool)
    requires 2 <= base <= 16 && skip >= 1
    ensures LoopText(v, base, d + Ticks(d, b4, skip), b4, skip, upper)
      == GroupedAfter(Digits(v, base, d, upper), b4, skip)
    decreases d, if b4 == 0 then 1 else 0
  {
    hide Grouped, GroupedAfter, Digits, LoopText, Ticks;
    Unrolled(v, base, d, b4, skip, upper);
    if d == 0 {
      GroupedNothing(b4, skip);
    } else if b4 == 0 {
      LoopIsGrouped(v, base, d, skip, skip, upper);
      GroupedNow(Digits(v, base, d, upper), skip);
    } else {
      TicksShift(d, b4, skip);
      LoopIsGrouped(v / base, base, d - 1, b4 - 1, skip, upper);
      GroupedAppend(Digits(v / base, base, d - 1, upper), Digit(v % base, upper), b4, skip);
    }
  }

  lemma Unrolled(v: nat, base: nat, d: nat, b4: nat, skip: nat, upper: bool)
    requires 2 <= base <= 16 && skip >= 1
    ensures d > 0 ==> Digits(v, base, d, upper) == Digits(v / base, base, d - 1, upper) + [Digit(v % base, upper)]
    ensures d == 0 ==>
      Digits(v, base, d, upper) == "" && Ticks(d, b4, skip) == 0 && LoopText(v, base, 0, b4, skip, upper) == ""
    ensures d > 0 && b4 == 0 ==> Ticks(d, b4, skip) == 1 + Ticks(d, skip, skip)
    ensures var n := d + Ticks(d, b4, skip);
      && (d > 0 && b4 == 0 ==>
            LoopText(v, base, n, b4, skip, upper) == LoopText(v, base, n - 1, skip, skip, upper) + "_")
      && (d > 0 && b4 > 0 ==>
            LoopText(v, base, n, b4, skip, upper)
              == LoopText(v / base, base, n - 1, b4 - 1, skip, upper) + [Digit(v % base, upper)])
  {
  }

  lemma GroupedNothing(b4: nat, skip: nat)
    requires skip >= 1
    ensures GroupedAfter("", b4, skip) == "" && Ticks(0, b4, skip) == 0
  {
  }

  lemma GroupedNow(s: string, skip: nat)
    requires skip >= 1 && s != ""
    ensures GroupedAfter(s, 0, skip) == GroupedAfter(s, skip, skip) + "_"
  {
    GroupedIsAfter(s, skip);
    NothingAfter(s, Grouped(s, skip) + "_");
  }

  lemma NothingAfter(s: string, t: string)
    ensures s[..|s|] == s && t + s[|s|..] == t
  {
  }

  lemma TicksShift(d: nat, b4: nat, skip: nat)
    requires skip >= 1 && d >= 1 && b4 >= 1
    ensures Ticks(d, b4, skip) == Ticks(d - 1, b4 - 1, skip)
  {
  }

  /** Lines 88-96 and 142-158: the number is printed as Number says. */
  lemma NumberIsLoop(v: nat, base: nat, d: nat, flags: Flags)
    requires 2 <= base <= 16 && d >= 1
    ensures var skip := if flags.tick then TickSkip(base) else d;
      Number(v, base, d, flags) == LoopText(v, base, d + (d - 1) / skip, skip, skip, flags.upper)
  {
    var skip := if flags.tick then TickSkip(base) else d;
    TicksCount(d, skip);
    LoopIsGrouped(v, base, d, skip, skip, flags.upper);
    GroupedIsAfter(Digits(v, base, d, flags.upper), skip);
  }

  /** One store of the loop, lines 148-149 and 155-156. */
  method PutBack(buf: array<char>, qq: int, oo: nat, n: nat, x: char, ghost was: string, ghost start: int,
                 ghost text: string, ghost lo: int)
    requires Fits(buf.Length, start, n) && lo <= oo < |text| && text[oo] == x && (oo < n ==> qq == start + oo)
    requires ShowsBut(buf[..], was, start, n, text, lo, oo + 1)
    modifies buf
    ensures ShowsBut(buf[..], was, start, n, text, lo, oo)
  {
    if oo < n {
      buf[qq] := x;
    }
  }

  /** The state of the loop: of `text`, the characters from `lo` to `oo` are still to come, and they are
      what the loop would write from here with `d` digits left. */
  ghost predicate Writing(now: string, was: string, start: int, n: nat, text: string, lo: nat, qq: int, oo: int,
                          left: nat, v: nat, base: nat, d: nat, b4: nat, skip: nat, upper: bool)
    requires 2 <= base <= 16 && skip >= 1
  {
    && left == d + Ticks(d, b4, skip) && oo == lo + left && (lo <= n ==> qq == start + oo)
    && Waiting(text, lo, oo, LoopText(v, base, left, b4, skip, upper))
    && ShowsBut(now, was, start, n, text, lo, oo)
  }

  /** Lines 144-151. */
  method PutTick(buf: array<char>, qq: int, oo: nat, n: nat, ghost left: nat, ghost was: string, ghost start: int,
                 ghost text: string, ghost lo: nat, ghost v: nat, ghost base: nat, ghost d: nat, ghost skip: nat,
                 ghost upper: bool)
    requires Fits(buf.Length, start, n) && 2 <= base <= 16 && skip >= 1 && left > 0
    requires Writing(buf[..], was, start, n, text, lo, qq + 1, oo + 1, left, v, base, d, 0, skip, upper)
    modifies buf
    ensures d > 0 && Writing(buf[..], was, start, n, text, lo, qq, oo, left - 1, v, base, d, skip, skip, upper)
  {
    hide ShowsBut, Waiting, LoopText;
    TickStep(text, lo, oo + 1, v, base, d, skip, upper);
    PutBack(buf, qq, oo, n, '_', was, start, text, lo);
  }

  /** Lines 152-157. */
  method PutDigit(buf: array<char>, qq: int, oo: nat, n: nat, v: nat, base: nat, upper: bool, ghost left: nat,
                  ghost was: string, ghost start: int, ghost text: string, ghost lo: nat, ghost d: nat, ghost b4: nat,
                  ghost skip: nat)
    requires Fits(buf.Length, start, n) && 2 <= base <= 16 && skip >= 1 && left > 0 && b4 > 0
    requires Writing(buf[..], was, start, n, text, lo, qq + 1, oo + 1, left, v, base, d, b4, skip, upper)
    modifies buf
    ensures d > 0
    ensures Writing(buf[..], was, start, n, text, lo, qq, oo, left - 1, Rest(v, base), base, d - 1, b4 - 1, skip, upper)
  {
    hide ShowsBut, Waiting, LoopText, LastDigit, Rest;
    DigitStep(text, lo, oo + 1, v, base, d, b4, skip, upper);
    PutBack(buf, qq, oo, n, LastDigit(v, base, upper), was, start, text, lo);
  }

  /** Lines 144-157: a digit, and before it a tick if it is time for one. */
  method WriteNext(buf: array<char>, qq: int, oo: nat, n: nat, v: nat, base: nat, left: nat, b4tick: nat,
                   tickskip: nat, upper: bool,
                   ghost d: nat, ghost was: string, ghost start: int, ghost text: string, ghost o: nat)
    returns (qq': int, oo': nat, left': nat, b4tick': nat)
    requires Fits(buf.Length, start, n) && 2 <= base <= 16 && tickskip >= 1 && left > 0 && b4tick <= tickskip
    requires oo == o + left
    requires Writing(buf[..], was, start, n, text, o, qq, oo, left, v, base, d, b4tick, tickskip, upper)
    modifies buf
    ensures left' < left && b4tick' <= tickskip && oo' == o + left' && d > 0
    ensures Writing(buf[..], was, start, n, text, o, qq', oo', left', Rest(v, base), base, d - 1, b4tick', tickskip,
                    upper)
  {
    hide Writing, Rest;
    qq', oo', left', b4tick' := qq, oo, left, b4tick;
    if b4tick' == 0 {
      qq', oo' := qq' - 1, oo' - 1;
      PutTick(buf, qq', oo', n, left', was, start, text, o, v, base, d, tickskip, upper);
      left', b4tick' := left' - 1, tickskip;
      StillLeft(buf[..], was, start, n, text, o, qq', oo', left', v, base, d, b4tick', tickskip, upper);
    }
    qq', oo' := qq' - 1, oo' - 1;
    PutDigit(buf, qq', oo', n, v, base, upper, left', was, start, text, o, d, b4tick', tickskip);
    left', b4tick' := left' - 1, b4tick' - 1;
  }

  /** Lines 136-158: `d` digits and their ticks, from right to left. */
  method WriteNumber(buf: array<char>, q: int, o: nat, n: nat, val: nat, base: nat, ndigits: nat, tickskip: nat,
                     upper: bool, ghost d: nat, ghost was: string, ghost start: int, ghost out: string)
    returns (q': int, o': nat)
    requires Fits(buf.Length, start, n) && Emitted(buf[..], was, start, n, out, q, o)
    requires 2 <= base <= 16 && tickskip >= 1 && ndigits == d + Ticks(d, tickskip, tickskip)
    modifies buf
    ensures Emitted(buf[..], was, start, n, out + LoopText(val, base, ndigits, tickskip, tickskip, upper), q', o')
  {
    q', o' := q + ndigits, o + ndigits;
    var qq: int, oo: nat, v: nat, left: nat, b4tick: nat := q', o', val, ndigits, tickskip;
    ghost var text: string, dl: nat := out + LoopText(val, base, ndigits, tickskip, tickskip, upper), d;
    WritingStarts(buf[..], was, start, n, out, q, o, ndigits, val, base, d, tickskip, upper);
    hide Writing, LoopText, Ticks, Emitted;
    while left > 0
      invariant b4tick <= tickskip && oo == o + left
      invariant Writing(buf[..], was, start, n, text, o, qq, oo, left, v, base, dl, b4tick, tickskip, upper)
    {
      qq, oo, left, b4tick :=
        WriteNext(buf, qq, oo, n, v, base, left, b4tick, tickskip, upper, dl, was, start, text, o);
      v, dl := Rest(v, base), dl - 1;
    }
    WritingEnds(buf[..], was, start, n, out, text, q, o, ndigits, qq, v, base, dl, b4tick, tickskip, upper);
  }

  lemma WritingStarts(now: string, was: string, start: int, n: nat, out: string, q: int, o: nat, left: nat,
                      v: nat, base: nat, d: nat, skip: nat, upper: bool)
    requires 2 <= base <= 16 && skip >= 1 && left == d + Ticks(d, skip, skip) && Emitted(now, was, start, n, out, q, o)
    ensures o == |out| && (o <= n ==> q == start + o)
    ensures Writing(now, was, start, n, out + LoopText(v, base, left, skip, skip, upper), |out|, q + left, o + left,
                    left,
                    v, base, d, skip, skip, upper)
  {
    ShowsEarly(now, was, start, n, out, out + LoopText(v, base, left, skip, skip, upper));
    AllWaiting(out, LoopText(v, base, left, skip, skip, upper));
  }

  lemma WritingEnds(now: string, was: string, start: int, n: nat, out: string, text: string, q: int, o: nat,
                    ndigits: nat, qq: int, v: nat, base: nat, d: nat, b4: nat, skip: nat, upper: bool)
    requires 2 <= base <= 16 && skip >= 1 && o == |out| && |text| == o + ndigits && (o <= n ==> q == start + o)
    requires Writing(now, was, start, n, text, o, qq, o, 0, v, base, d, b4, skip, upper)
    ensures Emitted(now, was, start, n, text, q + ndigits, o + ndigits)
  {
    ShowsAll(now, was, start, n, text, |out|);
  }

  /** The characters `lo` to `hi` of `text` are `rest`. */
  ghost predicate Waiting(text: string, lo: int, hi: int, rest: string) {
    0 <= lo <= hi <= |text| && text[lo..hi] == rest
  }

  lemma AllWaiting(out: string, rest: string)
    ensures Waiting(out + rest, |out|, |out| + |rest|, rest)
  {
  }

  lemma LastWaiting(text: string, lo: int, hi: int, rest: string, x: char)
    requires Waiting(text, lo, hi + 1, rest + [x])
    ensures lo <= hi < |text| && Waiting(text, lo, hi, rest) && text[hi] == x
  {
    var w := text[lo..hi + 1];
    assert |w| == |rest| + 1 && w[|rest|] == x && w[..|rest|] == rest;
    assert text[lo..hi] == w[..|rest|];
  }

  lemma SomeDigits(d: nat, b4: nat, skip: nat)
    requires skip >= 1 && d + Ticks(d, b4, skip) > 0
    ensures d > 0
  {
  }

  /** A tick is never the leftmost character. */
  lemma StillLeft(now: string, was: string, start: int, n: nat, text: string, lo: nat, qq: int, oo: int, left: nat,
                  v: nat, base: nat, d: nat, b4: nat, skip: nat, upper: bool)
    requires 2 <= base <= 16 && skip >= 1 && d > 0
    requires Writing(now, was, start, n, text, lo, qq, oo, left, v, base, d, b4, skip, upper)
    ensures left > 0
  {
  }

  /** The loop's next store is a tick. */
  lemma TickStep(text: string, lo: int, oo: int, v: nat, base: nat, d: nat, skip: nat, upper: bool)
    requires 2 <= base <= 16 && skip >= 1 && d + Ticks(d, 0, skip) > 0
    requires Waiting(text, lo, oo, LoopText(v, base, d + Ticks(d, 0, skip), 0, skip, upper))
    ensures Ticks(d, 0, skip) == 1 + Ticks(d, skip, skip) && d > 0 && lo < oo <= |text| && text[oo - 1] == '_'
    ensures Waiting(text, lo, oo - 1, LoopText(v, base, d + Ticks(d, skip, skip), skip, skip, upper))
  {
    SomeDigits(d, 0, skip);
    Unrolled(v, base, d, 0, skip, upper);
    LastWaiting(text, lo, oo - 1, LoopText(v, base, d + Ticks(d, skip, skip), skip, skip, upper), '_');
  }

  /** The loop's next store is a digit. */
  lemma DigitStep(text: string, lo: int, oo: int, v: nat, base: nat, d: nat, b4: nat, skip: nat, upper: bool)
    requires 2 <= base <= 16 && skip >= 1 && d + Ticks(d, b4, skip) > 0 && b4 > 0
    requires Waiting(text, lo, oo, LoopText(v, base, d + Ticks(d, b4, skip), b4, skip, upper))
    ensures d > 0 && Ticks(d, b4, skip) == Ticks(d - 1, b4 - 1, skip)
    ensures lo < oo <= |text| && text[oo - 1] == LastDigit(v, base, upper)
    ensures Waiting(text, lo, oo - 1,
                    LoopText(Rest(v, base), base, d - 1 + Ticks(d - 1, b4 - 1, skip), b4 - 1, skip, upper))
  {
    SomeDigits(d, b4, skip);
    TicksShift(d, b4, skip);
    UnrolledDigit(v, base, d, b4, skip, upper);
    hide LoopText, Waiting, LastDigit, Ticks;
    LastWaiting(text, lo, oo - 1, LoopText(Rest(v, base), base, d - 1 + Ticks(d, b4, skip), b4 - 1, skip, upper),
                LastDigit(v, base, upper));
  }

  lemma UnrolledDigit(v: nat, base: nat, d: nat, b4: nat, skip: nat, upper: bool)
    requires 2 <= base <= 16 && skip >= 1 && d > 0 && b4 > 0
    ensures LoopText(v, base, d + Ticks(d, b4, skip), b4, skip, upper)
         == LoopText(Rest(v, base), base, d - 1 + Ticks(d, b4, skip), b4 - 1, skip, upper) + [LastDigit(v, base, upper)]
  {
  }

  lemma QuotientNat(v: nat, base: nat)
    requires base > 0
    ensures v / base >= 0
  {
  }

  lemma ShowsEarly(now: string, was: string, start: int, n: nat, out: string, text: string)
    requires Shows(now, was, start, n, out) && out <= text
    ensures ShowsBut(now, was, start, n, text, |out|, |text|)
  {
  }

  lemma ShowsAll(now: string, was: string, start: int, n: nat, text: string, lo: int)
    requires ShowsBut(now, was, start, n, text, lo, lo)
    ensures Shows(now, was, start, n, text)
  {
  }

  // ---------------------------------------------------------------- format_int

  /** Lines 68-73. */
  method CountDigits(val: nat, base: nat) returns (ndigits: nat)
    requires base >= 2
    ensures ndigits == DigitCount(val, base)
  {
    var tmpval: nat := val;
    ndigits := 0;
    while tmpval != 0
      invariant ndigits + DigitCount(tmpval, base) == DigitCount(val, base)
    {
      Smaller(tmpval, base);
      tmpval := tmpval / base;
      ndigits := ndigits + 1;
    }
  }

  lemma Smaller(v: nat, base: nat)
    requires base >= 2 && v > 0
    ensures 0 <= v / base < v
  {
  }

  /** Lines 115-126. */
  method EmitSign(buf: array<char>, q: int, o: nat, n: nat, minus: bool, flags: Flags, base: nat, ghost val: nat,
                  ghost was: string, ghost start: int, ghost out: string) returns (q': int, o': nat)
    requires Fits(buf.Length, start, n) && Emitted(buf[..], was, start, n, out, q, o) && minus == Negative(val, flags)
    modifies buf
    ensures Emitted(buf[..], was, start, n, out + Sign(val, flags) + Prefix(base, flags), q', o')
  {
    hide Emitted, Negative;
    q', o' := q, o;
    EmptyTail(out);
    if minus {
      q', o' := Emit(buf, q', o', n, '-', was, start, out);
    } else if flags.plus {
      q', o' := Emit(buf, q', o', n, '+', was, start, out);
    } else if flags.space {
      q', o' := Emit(buf, q', o', n, ' ', was, start, out);
    }
    ghost var signed := out + Sign(val, flags);
    EmptyTail(signed);
    if flags.hash && base == 16 {
      q', o' := Emit(buf, q', o', n, '0', was, start, signed);
      q', o' := Emit(buf, q', o', n, if flags.upper then 'X' else 'x', was, start, signed + ['0']);
      TwoTail(signed, '0', if flags.upper then 'X' else 'x');
    }
  }

  lemma EmptyTail(s: string)
    ensures s + "" == s
  {
  }

  lemma EmptyHead(s: string)
    ensures "" + s == s
  {
  }

  lemma TwoTail(s: string, a: char, b: char)
    ensures s + [a] + [b] == s + [a, b]
  {
  }

  /** format_int, lines 45-167: the result is the length of the whole text, and the buffer shows what
      fits of it. */
  method FormatInt(buf: array<char>, q0: int, n: nat, val0: nat, flags: Flags, base: nat, width0: int, prec0: int)
    returns (o: nat)
    requires val0 < MODULUS && 2 <= base <= 16 && Fits(buf.Length, q0, n)
    modifies buf
    ensures o == |Formatted(val0, flags, base, width0, prec0)|
    ensures Shows(buf[..], old(buf[..]), q0, n, Formatted(val0, flags, base, width0, prec0))
  {
    var minus := Negative(val0, flags);
    var val := if minus then MODULUS - val0 else val0;
    var nd := CountDigits(val, base);
    var prec := if flags.hash && base == 8 && prec0 < nd + 1 then nd + 1 else prec0;
    if nd < prec {
      nd := prec;
    } else if val == 0 {
      nd := 1;
    }
    var tickskip := if flags.tick then (if base == 16 then 4 else 3) else nd;
    var ndigits := WithTicks(nd, tickskip);
    SizesAgree(val0, flags, base, prec0, nd, tickskip);
    hide Body, LoopText, Ticks, DigitCount, WithTicks, Negative, Formatted, Shows;
    var nchars := ndigits;
    if minus || flags.plus || flags.space {
      nchars := nchars + 1;
    }
    if flags.hash && base == 16 {
      nchars := nchars + 2;
    }
    assert nchars == CharsShown(val0, flags, base, prec0);
    o := Layout(buf, q0, n, val0, minus, val, flags, base, width0, prec0, nd, ndigits, tickskip, nchars);
  }

  /** Line 96. */
  function WithTicks(nd: nat, tickskip: nat): (n: nat)
    requires nd >= 1 && tickskip >= 1
    ensures n >= nd
  {
    QuotientNat(nd - 1, tickskip);
    nd + (nd - 1) / tickskip
  }

  lemma SizesAgree(val: nat, flags: Flags, base: nat, prec: int, nd: nat, skip: nat)
    requires val < MODULUS && 2 <= base <= 16 && nd == DigitsShown(Magnitude(val, flags), base, flags.hash, prec)
    requires skip == if flags.tick then TickSkip(base) else nd
    ensures WithTicks(nd, skip) == nd + Ticks(nd, skip, skip)
    ensures LoopText(Magnitude(val, flags), base, WithTicks(nd, skip), skip, skip, flags.upper)
      == Body(val, flags, base, prec)
  {
    NumberIsLoop(Magnitude(val, flags), base, nd, flags);
    TicksCount(nd, skip);
  }

  /** Lines 107-166, once the sizes are known. */
  method Layout(buf: array<char>, q0: int, n: nat, ghost val0: nat, minus: bool, val: nat, flags: Flags, base: nat,
                width0: int, ghost prec: int, ghost nd: nat, ndigits: nat, tickskip: nat, nchars: nat) returns (o: nat)
    requires val0 < MODULUS && 2 <= base <= 16 && Fits(buf.Length, q0, n) && tickskip >= 1
    requires minus == Negative(val0, flags) && nchars == CharsShown(val0, flags, base, prec) >= ndigits
    requires ndigits == nd + Ticks(nd, tickskip, tickskip)
    requires LoopText(val, base, ndigits, tickskip, tickskip, flags.upper) == Body(val0, flags, base, prec)
    modifies buf
    ensures o == |Formatted(val0, flags, base, width0, prec)|
    ensures Shows(buf[..], old(buf[..]), q0, n, Formatted(val0, flags, base, width0, prec))
  {
    hide Shows, Negative, Body, CharsShown, LoopText, Ticks;
    ghost var was, out, pad := buf[..], "", width0 - nchars;
    var q, width := q0, width0;
    o := 0;
    NothingShown(buf[..], q0, n);
    if !flags.minus && !flags.zero {
      q, o, width := Pad(buf, q, o, n, ' ', width, nchars, was, q0, out);
    }
    EmptyHead(Lead(flags, pad));
    out := Grows(out, Lead(flags, pad));
    q, o := EmitSign(buf, q, o, n, minus, flags, base, val0, was, q0, out);
    out := out + Sign(val0, flags) + Prefix(base, flags);
    if !flags.minus && flags.zero && width > ndigits {
      q, o, width := Pad(buf, q, o, n, '0', width, nchars, was, q0, out);
    }
    out := Grows(out, Zeros(flags, pad));
    q, o := WriteNumber(buf, q, o, n, val, base, ndigits, tickskip, flags.upper, nd, was, q0, out);
    out := out + Body(val0, flags, base, prec);
    if flags.minus {
      q, o, width := Pad(buf, q, o, n, ' ', width, nchars, was, q0, out);
    }
    out := Grows(out, Trail(flags, pad));
  }

  ghost function Grows(s: string, t: string): (r: string)
    ensures r == s + t && (t == "" ==> r == s)
  {
    s + t
  }

  lemma NothingShown(now: string, start: int, n: nat)
    ensures Emitted(now, now, start, n, "", start, 0)
  {
  }

  /** The text format_int2 asks for: no padding, and a sign only when it is told to. */
  function Unpadded(val: nat, base: nat, sgn: bool): string
    requires val < MODULUS && 2 <= base <= 16
  {
    Formatted(val, Flags(!sgn, false, false, false, false, false, sgn, false), base, 0, -1)
  }

  /** format_int2, lines 501-509.  The terminator goes right after the whole text, wherever `n` cut it, so
      the caller must own that cell too. */
  method FormatInt2(buf: array<char>, n: nat, val: nat, base: nat, sgn: bool)
    requires val < MODULUS && 2 <= base <= 16 && n <= buf.Length && |Unpadded(val, base, sgn)| < buf.Length
    modifies buf
    ensures var text := Unpadded(val, base, sgn);
      && buf[|text|] == '\0'
      && (forall i :: 0 <= i < |text| && i < n ==> buf[i] == text[i])
      && (forall i :: 0 <= i < buf.Length && i != |text| && (i >= n || i > |text|) ==> buf[i] == old(buf[i]))
  {
    var s := FormatInt(buf, 0, n, val, Flags(!sgn, false, false, false, false, false, sgn, false), base, 0, -1);
    assert forall i :: 0 <= i < buf.Length ==> buf[..][i] == buf[i] && old(buf[..])[i] == old(buf[i]);
    buf[s] := '\0';
  }
}
