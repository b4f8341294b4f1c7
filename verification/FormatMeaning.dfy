/** Every format, taken apart into literal text and directives, and what each directive asks for. */
module FormatMeaning {
  import opened Options
  import opened NumberText
  import opened FormatMachine
  import TickText

  // ---------------------------------------------------------------- directives as they are written

  /** What stands between the percent sign and the character that ends a directive. */
  datatype Raw = Raw(flags: string, width: string, prec: Option<string>, mods: string)

  predicate IsFlag(ch: char) { SetFlag(NO_FLAGS, ch).Some? }
  predicate IsCount(ch: char) { IsDecimal(ch) || ch == '*' }
  predicate IsModifier(ch: char) { SetRank(0, ch).Some? }

  predicate AllFlags(s: string) { forall i :: 0 <= i < |s| ==> IsFlag(s[i]) }
  predicate AllCounts(s: string) { forall i :: 0 <= i < |s| ==> IsCount(s[i]) }
  predicate AllModifiers(s: string) { forall i :: 0 <= i < |s| ==> IsModifier(s[i]) }
  predicate AllDecimal(s: string) { forall i :: 0 <= i < |s| ==> IsDecimal(s[i]) }

  predicate Readable(r: Raw) {
    && AllFlags(r.flags) && AllCounts(r.width) && AllModifiers(r.mods)
    && (r.prec.Some? ==> AllCounts(r.prec.value)) && (r.width != "" ==> !IsFlag(r.width[0]))
  }

  function PrecText(prec: Option<string>): string { if prec.Some? then "." + prec.value else "" }

  function RawText(r: Raw): string { r.flags + r.width + PrecText(r.prec) + r.mods }

  /** The state in which all of `r` is read. */
  function Where(r: Raw): State {
    if r.mods != "" then InModifiers else if r.prec.Some? then InPrec else if r.width != "" then InWidth else InFlags
  }

  /** The characters that end a directive there. */
  predicate Ends(at: State, ch: char) {
    && ch != '\0' && !IsModifier(ch)
    && (at != InModifiers ==> !IsCount(ch)) && (at == InFlags || at == InWidth ==> ch != '.')
    && (at == InFlags ==> !IsFlag(ch))
  }

  // ---------------------------------------------------------------- what they mean

  function Power(k: nat): (p: nat)
    ensures p >= 1
  {
    if k == 0 then 1 else 10 * Power(k - 1)
  }

  function Value(ds: string): int {
    if ds == "" then 0 else Value(ds[..|ds| - 1]) * 10 + Decimal(ds[|ds| - 1])
  }

  /** The decimal digits `ds` written after the number `v`. */
  function Appended(v: int, ds: string): int { v * Power(|ds|) + Value(ds) }

  function Stars(s: string): nat {
    if s == "" then 0 else Stars(s[..|s| - 1]) + if s[|s| - 1] == '*' then 1 else 0
  }

  /** What follows the last star, or all if there is none. */
  function AfterStars(s: string): string {
    if s == "" || s[|s| - 1] == '*' then "" else AfterStars(s[..|s| - 1]) + [s[|s| - 1]]
  }

  /** The argument of the last of the stars in `s`, of which the first takes argument `ap`. */
  function LastWord(s: string, ap: nat, args: Args): int
    requires Stars(s) > 0
  {
    args(ap + Stars(s) - 1).word
  }

  function Abs(x: int): nat { if x < 0 then -x else x }

  function WidthOf(s: string, ap: nat, args: Args): int {
    if Stars(s) > 0 then Appended(Abs(LastWord(s, ap, args)), AfterStars(s)) else Value(s)
  }

  function PrecOf(s: string, ap: nat, args: Args): int {
    if Stars(s) > 0 then Appended(StarPrec(LastWord(s, ap, args)), AfterStars(s)) else Value(s)
  }

  /** Some star takes a negative argument. */
  predicate SomeNegative(s: string, ap: nat, args: Args) { exists i: nat :: i < Stars(s) && StarWord(i, ap, args) < 0 }

  function StarWord(i: nat, ap: nat, args: Args): int { args(ap + i).word }

  function FlagsOf(s: string): Flags {
    Flags('0' in s, '-' in s, '+' in s, '\'' in s, ' ' in s, '#' in s, false, false)
  }

  function RankOf(s: string): int
    requires AllModifiers(s)
  {
    if s == "" then 0 else SetRank(RankOf(s[..|s| - 1]), s[|s| - 1]).value
  }

  /** How many arguments the stars take. */
  function Taken(r: Raw): nat { Stars(r.width) + if r.prec.Some? then Stars(r.prec.value) else 0 }

  /** Flags in any order and number, the width, the precision and the rank. */
  function Meaning(r: Raw, ap: nat, args: Args): Directive
    requires Readable(r)
  {
    var f := FlagsOf(r.flags);
    Directive(f.(minus := f.minus || SomeNegative(r.width, ap, args)), RankOf(r.mods), WidthOf(r.width, ap, args),
              if r.prec.Some? then PrecOf(r.prec.value, ap + Stars(r.width), args) else -1)
  }

  /** The machine once it has read `r`. */
  function Read(m: Machine, r: Raw, args: Args): Machine
    requires Readable(r)
  {
    m.(state := Where(r), dir := Meaning(r, m.ap, args), ap := m.ap + Taken(r))
  }

  // ---------------------------------------------------------------- running piece by piece

  predicate NoNul(s: string) { forall i :: 0 <= i < |s| ==> s[i] != '\0' }

  lemma {:induction false} RunConcat(m: Machine, s: string, t: string, args: Args)
    requires NoNul(s)
    ensures Run(m, s + t, args) == Run(Run(m, s, args), t, args)
    decreases |s|
  {
    if s == "" {
      assert s + t == t;
    } else {
      assert (s + t)[1..] == s[1..] + t;
      RunConcat(Step(m, s[0], args), s[1..], t, args);
    }
  }

  lemma RunOne(m: Machine, c: char, args: Args)
    requires c != '\0'
    ensures Run(m, [c], args) == Step(m, c, args)
  {
    assert [c][1..] == "";
  }

  /** The last character of `s`. */
  lemma RunLast(m: Machine, s: string, args: Args)
    requires s != "" && NoNul(s)
    ensures NoNul(s[..|s| - 1]) && Run(m, s, args) == Step(Run(m, s[..|s| - 1], args), s[|s| - 1], args)
  {
    var a, c := s[..|s| - 1], s[|s| - 1];
    assert s == a + [c];
    RunConcat(m, a, [c], args);
    RunOne(Run(m, a, args), c, args);
  }

  lemma LastIn(s: string, x: char)
    requires s != ""
    ensures x in s <==> x in s[..|s| - 1] || x == s[|s| - 1]
  {
    assert s == s[..|s| - 1] + [s[|s| - 1]];
  }

  lemma FlagSet(s: string)
    requires s != "" && AllFlags(s)
    ensures SetFlag(FlagsOf(s[..|s| - 1]), s[|s| - 1]) == Some(FlagsOf(s))
  {
    var a, c := s[..|s| - 1], s[|s| - 1];
    assert IsFlag(c);
    LastIn(s, '0');
    LastIn(s, '-');
    LastIn(s, '+');
    LastIn(s, '\'');
    LastIn(s, ' ');
    LastIn(s, '#');
  }

  lemma {:induction false} RunFlags(m: Machine, s: string, args: Args)
    requires m.state == InFlags && m.dir.flags == NO_FLAGS && AllFlags(s)
    ensures NoNul(s) && Run(m, s, args) == m.(dir := m.dir.(flags := FlagsOf(s)))
    decreases |s|
  {
    assert NoNul(s) by {
      assert forall i :: 0 <= i < |s| ==> IsFlag(s[i]);
    }
    if s != "" {
      RunLast(m, s, args);
      RunFlags(m, s[..|s| - 1], args);
      FlagSet(s);
      hide Run;
    }
  }

  // ---------------------------------------------------------------- widths and precisions

  lemma AppendedOne(v: int, ds: string, c: char)
    ensures Appended(v, ds + [c]) == Appended(v, ds) * 10 + Decimal(c)
  {
    assert (ds + [c])[..|ds|] == ds;
    var p, x := Power(|ds|), Value(ds);
    assert Power(|ds| + 1) == 10 * p;
    assert v * (10 * p) == v * p * 10;
  }

  lemma AppendedNothing(v: int)
    ensures Appended(v, "") == v
  {
  }

  /** How the last character of a width or a precision changes its meaning. */
  lemma CountStep(s: string)
    requires s != "" && AllCounts(s)
    ensures var a, c := s[..|s| - 1], s[|s| - 1];
      && AllCounts(a) && IsCount(c) && Stars(s) == Stars(a) + (if c == '*' then 1 else 0)
      && AfterStars(s) == if c == '*' then "" else AfterStars(a) + [c]
  {
  }

  lemma WidthStep(s: string, ap: nat, args: Args)
    requires s != "" && AllCounts(s)
    ensures var a, c := s[..|s| - 1], s[|s| - 1];
      WidthOf(s, ap, args) == if c == '*' then Abs(args(ap + Stars(a)).word) else WidthOf(a, ap, args) * 10 + Decimal(c)
  {
    hide Appended;
    var a, c := s[..|s| - 1], s[|s| - 1];
    CountStep(s);
    if c == '*' {
      AppendedNothing(Abs(args(ap + Stars(a)).word));
    } else if Stars(s) > 0 {
      AppendedOne(Abs(LastWord(a, ap, args)), AfterStars(a), c);
    }
  }

  lemma PrecStep(s: string, ap: nat, args: Args)
    requires s != "" && AllCounts(s)
    ensures var a, c := s[..|s| - 1], s[|s| - 1];
      PrecOf(s, ap, args) == if c == '*' then StarPrec(args(ap + Stars(a)).word)
        else PrecOf(a, ap, args) * 10 + Decimal(c)
  {
    hide Appended;
    var a, c := s[..|s| - 1], s[|s| - 1];
    CountStep(s);
    if c == '*' {
      AppendedNothing(StarPrec(args(ap + Stars(a)).word));
    } else if Stars(s) > 0 {
      AppendedOne(StarPrec(LastWord(a, ap, args)), AfterStars(a), c);
    }
  }

  lemma NegativeStep(s: string, ap: nat, args: Args)
    requires s != "" && AllCounts(s)
    ensures var a, c := s[..|s| - 1], s[|s| - 1];
      SomeNegative(s, ap, args) <==> SomeNegative(a, ap, args) || (c == '*' && args(ap + Stars(a)).word < 0)
  {
    var a, c := s[..|s| - 1], s[|s| - 1];
    if c == '*' && args(ap + Stars(a)).word < 0 {
      assert Stars(a) < Stars(s) && StarWord(Stars(a), ap, args) < 0;
    }
  }

  /** The width of `d` and what it does to the flags. */
  function Widened(d: Directive, s: string, ap: nat, args: Args): Directive {
    d.(width := WidthOf(s, ap, args), flags := d.flags.(minus := d.flags.minus || SomeNegative(s, ap, args)))
  }

  lemma CountsClean(s: string)
    requires AllCounts(s)
    ensures NoNul(s)
  {
    assert forall i :: 0 <= i < |s| ==> IsCount(s[i]);
  }

  lemma {:induction false} RunWidth(m: Machine, s: string, args: Args)
    requires m.state == InWidth && m.dir.width == 0 && AllCounts(s)
    ensures NoNul(s) && Run(m, s, args) == m.(dir := Widened(m.dir, s, m.ap, args), ap := m.ap + Stars(s))
    decreases |s|
  {
    CountsClean(s);
    if s != "" {
      RunLast(m, s, args);
      RunWidth(m, s[..|s| - 1], args);
      CountStep(s);
      WidthStep(s, m.ap, args);
      NegativeStep(s, m.ap, args);
      hide Run, WidthOf, SomeNegative, Stars, AfterStars;
    }
  }

  lemma {:induction false} RunPrec(m: Machine, s: string, args: Args)
    requires m.state == InPrec && m.dir.prec == 0 && AllCounts(s)
    ensures NoNul(s) && Run(m, s, args) == m.(dir := m.dir.(prec := PrecOf(s, m.ap, args)), ap := m.ap + Stars(s))
    decreases |s|
  {
    CountsClean(s);
    if s != "" {
      RunLast(m, s, args);
      RunPrec(m, s[..|s| - 1], args);
      CountStep(s);
      PrecStep(s, m.ap, args);
      hide Run, PrecOf, Stars, AfterStars;
    }
  }

  // ---------------------------------------------------------------- each part, from where the one before ends

  lemma FlagNone(f: Flags, ch: char)
    ensures SetFlag(f, ch).None? <==> !IsFlag(ch)
  {
  }

  lemma WidthRead(m: Machine, s: string, args: Args)
    requires m.state == InFlags && m.dir.width == 0 && AllCounts(s) && (s != "" ==> !IsFlag(s[0]))
    ensures NoNul(s)
    ensures Run(m, s, args)
      == m.(state := if s == "" then InFlags else InWidth, dir := Widened(m.dir, s, m.ap, args), ap := m.ap + Stars(s))
  {
    CountsClean(s);
    if s != "" {
      FlagNone(m.dir.flags, s[0]);
      assert Step(m, s[0], args) == Step(m.(state := InWidth), s[0], args);
      RunWidth(m.(state := InWidth), s, args);
    }
  }

  lemma PrecRead(m: Machine, prec: Option<string>, args: Args)
    requires (m.state == InFlags || m.state == InWidth) && m.dir.prec == -1 && (prec.Some? ==> AllCounts(prec.value))
    ensures NoNul(PrecText(prec))
    ensures Run(m, PrecText(prec), args) ==
      if prec.None? then m
      else m.(state := InPrec, dir := m.dir.(prec := PrecOf(prec.value, m.ap, args)), ap := m.ap + Stars(prec.value))
  {
    if prec.Some? {
      RunOne(m, '.', args);
      RunConcat(m, ".", prec.value, args);
      RunPrec(m.(state := InPrec, dir := m.dir.(prec := 0)), prec.value, args);
    }
  }

  lemma RankNone(rank: int, ch: char)
    ensures SetRank(rank, ch).Some? <==> IsModifier(ch)
    ensures IsModifier(ch) ==> ch != '\0' && !IsFlag(ch) && !IsCount(ch) && ch != '.'
  {
  }

  /** A character that only a later state knows is passed on to it. */
  lemma StepModifier(m: Machine, ch: char, args: Args)
    requires m.state != Normal && m.state != Overrun && IsModifier(ch)
    ensures Step(m, ch, args) == m.(state := InModifiers, dir := m.dir.(rank := SetRank(m.dir.rank, ch).value))
  {
    RankNone(m.dir.rank, ch);
    FlagNone(m.dir.flags, ch);
  }

  lemma ModifiersClean(s: string)
    requires AllModifiers(s)
    ensures NoNul(s)
  {
    assert forall i :: 0 <= i < |s| ==> IsModifier(s[i]);
  }

  lemma {:induction false} RankRead(m: Machine, s: string, args: Args)
    requires m.state != Normal && m.state != Overrun && m.dir.rank == 0 && AllModifiers(s)
    ensures NoNul(s)
    ensures Run(m, s, args) == m.(state := if s == "" then m.state else InModifiers, dir := m.dir.(rank := RankOf(s)))
    decreases |s|
  {
    ModifiersClean(s);
    if s != "" {
      var a, c := s[..|s| - 1], s[|s| - 1];
      RunLast(m, s, args);
      RankRead(m, a, args);
      assert IsModifier(c);
      StepModifier(Run(m, a, args), c, args);
      hide Run, SetRank;
    }
  }

  /** All of a directive but its end. */
  lemma RawRead(m: Machine, r: Raw, args: Args)
    requires m.state == Normal && Readable(r)
    ensures NoNul("%" + RawText(r)) && Run(m, "%" + RawText(r), args) == Read(m, r, args)
  {
    hide Run, Readable, RawText, PrecText, NoNul;
    RawText4(r);
    RawRuns(m, r, args);
    ChainText(r.flags, r.width, PrecText(r.prec), r.mods);
  }

  lemma RawText4(r: Raw)
    ensures RawText(r) == r.flags + r.width + PrecText(r.prec) + r.mods
  {
  }

  lemma RawRuns(m: Machine, r: Raw, args: Args)
    requires m.state == Normal && Readable(r)
    ensures Run(m, "%" + r.flags + r.width + PrecText(r.prec) + r.mods, args) == Read(m, r, args)
    ensures NoNul(r.flags) && NoNul(r.width) && NoNul(PrecText(r.prec)) && NoNul(r.mods)
  {
    hide Run, RankOf, PrecText, NoNul, AllFlags, AllCounts, AllModifiers, IsFlag, AfterFlags, AfterWidth, AfterPrec;
    hide Meaning, Taken;
    var m0 := m.(state := InFlags, dir := FRESH);
    var m1 := AfterFlags(m, r);
    var m2 := AfterWidth(m, r, args);
    var m3 := AfterPrec(m, r, args);
    PartsRead(m, r, args);
    AfterAll(m, r, args);
    RankRead(m3, r.mods, args);
    Chain(m, m0, m1, m2, m3, r.flags, r.width, PrecText(r.prec), r.mods, args);
  }

  /** The machine after each part of a directive. */
  function AfterFlags(m: Machine, r: Raw): Machine { m.(state := InFlags, dir := FRESH.(flags := FlagsOf(r.flags))) }

  function AfterWidth(m: Machine, r: Raw, args: Args): Machine {
    var n := AfterFlags(m, r);
    n.(state := if r.width == "" then InFlags else InWidth, dir := Widened(n.dir, r.width, m.ap, args),
       ap := m.ap + Stars(r.width))
  }

  function AfterPrec(m: Machine, r: Raw, args: Args): Machine {
    var n := AfterWidth(m, r, args);
    if r.prec.None? then n
    else n.(state := InPrec, dir := n.dir.(prec := PrecOf(r.prec.value, n.ap, args)), ap := n.ap + Stars(r.prec.value))
  }

  lemma PartsRead(m: Machine, r: Raw, args: Args)
    requires m.state == Normal && Readable(r)
    ensures NoNul(r.flags) && NoNul(r.width) && NoNul(PrecText(r.prec))
    ensures var m0, m1, m2, m3 := m.(state := InFlags, dir := FRESH), AfterFlags(m, r), AfterWidth(m, r, args),
      AfterPrec(m, r, args);
      && Run(m, "%", args) == m0 && Run(m0, r.flags, args) == m1 && Run(m1, r.width, args) == m2
      && Run(m2, PrecText(r.prec), args) == m3
  {
    hide Run, WidthOf, PrecOf, Stars, SomeNegative, FlagsOf, PrecText, NoNul, AllFlags, AllCounts, AllModifiers, IsFlag;
    StepPercent(m, args);
    RunFlags(m.(state := InFlags, dir := FRESH), r.flags, args);
    WidthRead(AfterFlags(m, r), r.width, args);
    PrecRead(AfterWidth(m, r, args), r.prec, args);
  }

  lemma AfterAll(m: Machine, r: Raw, args: Args)
    requires Readable(r)
    ensures var n := AfterPrec(m, r, args);
      && n.state != Normal && n.state != Overrun && n.dir.rank == 0
      && n.(state := if r.mods == "" then n.state else InModifiers, dir := n.dir.(rank := RankOf(r.mods)))
        == Read(m, r, args)
  {
    hide WidthOf, PrecOf, RankOf, Stars, SomeNegative, FlagsOf, AllFlags, AllCounts, AllModifiers, IsFlag;
  }

  lemma StepPercent(m: Machine, args: Args)
    requires m.state == Normal
    ensures Run(m, "%", args) == m.(state := InFlags, dir := FRESH)
  {
    RunOne(m, '%', args);
  }

  lemma ChainText(f: string, w: string, p: string, h: string)
    requires NoNul(f) && NoNul(w) && NoNul(p) && NoNul(h)
    ensures "%" + f + w + p + h == "%" + (f + w + p + h) && NoNul("%" + (f + w + p + h))
  {
  }

  lemma Chain(m: Machine, m0: Machine, m1: Machine, m2: Machine, m3: Machine, f: string, w: string, p: string,
              h: string, args: Args)
    requires NoNul(f) && NoNul(w) && NoNul(p) && NoNul(h)
    requires Run(m, "%", args) == m0 && Run(m0, f, args) == m1 && Run(m1, w, args) == m2 && Run(m2, p, args) == m3
    ensures Run(m, "%" + f + w + p + h, args) == Run(m3, h, args)
  {
    hide Run;
    RunConcat(m, "%", f, args);
    RunConcat(m, "%" + f, w, args);
    RunConcat(m, "%" + f + w, p, args);
    RunConcat(m, "%" + f + w + p, h, args);
  }

  lemma EndRead(m: Machine, ch: char, args: Args)
    requires m.state != Normal && m.state != Overrun && Ends(m.state, ch)
    ensures Step(m, ch, args) == Terminal(m, ch, args)
  {
    FlagNone(m.dir.flags, ch);
    RankNone(m.dir.rank, ch);
    TerminalState(m, m.(state := InModifiers), ch, args);
    hide Terminal;
  }

  lemma TerminalState(m: Machine, m': Machine, ch: char, args: Args)
    requires m' == m.(state := m'.state)
    ensures Terminal(m, ch, args) == Terminal(m', ch, args)
  {
  }

  function Spelled(r: Raw, ch: char): string { "%" + RawText(r) + [ch] }

  /** Every directive performs the conversion it spells. */
  lemma SpelledMeans(m: Machine, r: Raw, ch: char, args: Args)
    requires m.state == Normal && Readable(r) && Ends(Where(r), ch)
    ensures NoNul(Spelled(r, ch)) && Run(m, Spelled(r, ch), args) == Terminal(Read(m, r, args), ch, args)
  {
    hide Run, RawText, Meaning, Taken, Terminal;
    RawRead(m, r, args);
    RunConcat(m, "%" + RawText(r), [ch], args);
    RunOne(Read(m, r, args), ch, args);
    EndRead(Read(m, r, args), ch, args);
  }

  // ---------------------------------------------------------------- whole formats

  /** A format is literal text and directives, the last of which may lack its end. */
  datatype Piece = Literal(text: string) | Conversion(raw: Raw, ch: char) | Unfinished(raw: Raw)

  predicate Writable(p: Piece) {
    match p
    case Literal(text) => NoNul(text) && '%' !in text
    case Conversion(raw, ch) => Readable(raw) && Ends(Where(raw), ch)
    case Unfinished(raw) => Readable(raw)
  }

  predicate AllWritable(ps: seq<Piece>) {
    forall i :: 0 <= i < |ps| ==> Writable(ps[i]) && (ps[i].Unfinished? ==> i == |ps| - 1)
  }

  function Piecewise(p: Piece): string {
    match p
    case Literal(text) => text
    case Conversion(raw, ch) => Spelled(raw, ch)
    case Unfinished(raw) => "%" + RawText(raw)
  }

  function Written(ps: seq<Piece>): string { if ps == [] then "" else Piecewise(ps[0]) + Written(ps[1..]) }

  /** What a piece does, with the arguments it finds next. */
  function Perform(m: Machine, p: Piece, args: Args): Machine
    requires Writable(p)
  {
    match p
    case Literal(text) => m.(out := m.out + text)
    case Conversion(raw, ch) => Terminal(Read(m, raw, args), ch, args)
    case Unfinished(raw) => Read(m, raw, args)
  }

  /** The pieces one after the other, until one of them runs over. */
  function Printed(m: Machine, ps: seq<Piece>, args: Args): Machine
    requires AllWritable(ps)
    decreases |ps|
  {
    if ps == [] || m.state == Overrun then m else Printed(Perform(m, ps[0], args), ps[1..], args)
  }

  lemma {:induction false} RunLiteral(m: Machine, text: string, args: Args)
    requires m.state == Normal && NoNul(text) && '%' !in text
    ensures Run(m, text, args) == m.(out := m.out + text)
    decreases |text|
  {
    if text == "" {
      assert m.out + "" == m.out;
    } else {
      RunLiteral(m.(out := m.out + [text[0]]), text[1..], args);
      assert m.out + [text[0]] + text[1..] == m.out + text;
    }
  }

  lemma PieceRuns(m: Machine, p: Piece, args: Args)
    requires m.state == Normal && Writable(p)
    ensures NoNul(Piecewise(p)) && Run(m, Piecewise(p), args) == Perform(m, p, args)
    ensures var s := Perform(m, p, args).state; s == Normal || s == Overrun || p.Unfinished?
  {
    hide Run, Spelled, RawText, Readable, Meaning, IntText, TextText;
    match p
    case Literal(text) => RunLiteral(m, text, args);
    case Conversion(raw, ch) => SpelledMeans(m, raw, ch, args);
    case Unfinished(raw) => RawRead(m, raw, args);
  }

  /** A whole format prints its pieces: literal text as it is, and every directive as spelled. */
  lemma {:induction false} FormatPrints(m: Machine, ps: seq<Piece>, args: Args)
    requires m.state == Normal && AllWritable(ps)
    ensures Run(m, Written(ps), args) == Printed(m, ps, args)
    decreases |ps|
  {
    if ps != [] {
      hide Run, Perform, Piecewise, Writable;
      var m', rest := Perform(m, ps[0], args), Written(ps[1..]);
      PieceRuns(m, ps[0], args);
      RunConcat(m, Piecewise(ps[0]), rest, args);
      if m'.state == Normal {
        FormatPrints(m', ps[1..], args);
      } else if m'.state == Overrun {
        RunOver(m', rest, args);
      } else {
        assert ps[1..] == [];
        RunNothing(m', args);
      }
    }
  }

  lemma RunNothing(m: Machine, args: Args)
    ensures Run(m, "", args) == m
  {
  }

  // ---------------------------------------------------------------- any string is a format

  /** Where the characters that satisfy `p` end, from `i` on. */
  function EndOf(s: string, i: nat, p: char -> bool): (j: nat)
    requires i <= |s|
    ensures i <= j <= |s| && (forall k :: i <= k < j ==> p(s[k])) && (j < |s| ==> !p(s[j]))
    decreases |s| - i
  {
    if i == |s| || !p(s[i]) then i else EndOf(s, i + 1, p)
  }

  /** Where the parts of a directive lie. */
  datatype Cuts = Cuts(a: nat, b: nat, c: nat, d: nat, e: nat, dotted: bool)

  /** Flags, width, precision and modifiers from the start of `s`, each as long as it can be. */
  function CutsOf(s: string): (x: Cuts)
    ensures CutAt(s, x)
  {
    var a := EndOf(s, 0, IsFlag);
    var b := EndOf(s, a, IsCount);
    var dotted := b < |s| && s[b] == '.';
    var c := if dotted then b + 1 else b;
    var d := if dotted then EndOf(s, c, IsCount) else c;
    Cuts(a, b, c, d, EndOf(s, d, IsModifier), dotted)
  }

  predicate CutAt(s: string, x: Cuts) {
    && x.a <= x.b <= x.c <= x.d <= x.e <= |s|
    && (if x.dotted then x.c == x.b + 1 && s[x.b] == '.' else x.b == x.c == x.d)
    && (forall k :: 0 <= k < x.a ==> IsFlag(s[k]))
    && (forall k :: x.a <= k < x.b ==> IsCount(s[k])) && (forall k :: x.c <= k < x.d ==> IsCount(s[k]))
    && (forall k :: x.d <= k < x.e ==> IsModifier(s[k]))
    && (x.a < |s| ==> !IsFlag(s[x.a])) && (x.b < |s| ==> !IsCount(s[x.b]) && (x.dotted <==> s[x.b] == '.'))
    && (x.dotted && x.d < |s| ==> !IsCount(s[x.d])) && (x.e < |s| ==> !IsModifier(s[x.e]))
  }

  function RawCut(s: string, x: Cuts): Raw
    requires CutAt(s, x)
  {
    Raw(s[..x.a], s[x.a..x.b], if x.dotted then Some(s[x.c..x.d]) else None, s[x.d..x.e])
  }

  function RawAt(s: string): Raw { RawCut(s, CutsOf(s)) }

  lemma RawAtReads(s: string)
    ensures var r := RawAt(s); Readable(r) && RawText(r) <= s
    ensures var r := RawAt(s); var k := |RawText(r)|; k < |s| && s[k] != '\0' ==> Ends(Where(r), s[k])
  {
    hide CutsOf, CutAt, RawCut, RawText, Readable, Ends, Where;
    RawSlices(s, CutsOf(s));
    RawReadable(s, CutsOf(s));
  }

  lemma RawReadable(s: string, x: Cuts)
    requires CutAt(s, x)
    ensures var r := RawCut(s, x); Readable(r) && (x.e < |s| && s[x.e] != '\0' ==> Ends(Where(r), s[x.e]))
  {
    hide IsFlag, IsCount, IsModifier;
  }

  lemma RawSlices(s: string, x: Cuts)
    requires CutAt(s, x)
    ensures RawText(RawCut(s, x)) == s[..x.e] && x.e <= |s|
  {
    hide IsFlag, IsCount, IsModifier;
    assert s[..x.a] + s[x.a..x.b] == s[..x.b];
    assert x.dotted ==> s[..x.b] + ("." + s[x.c..x.d]) == s[..x.d];
    assert s[..x.b] + "" == s[..x.b];
    assert s[..x.d] + s[x.d..x.e] == s[..x.e];
  }

  /** The format up to its terminator. */
  function UpToNul(format: string): (s: string)
    ensures NoNul(s)
  {
    if format == "" || format[0] == '\0' then "" else [format[0]] + UpToNul(format[1..])
  }

  lemma {:induction false} RunUpToNul(m: Machine, format: string, args: Args)
    ensures Run(m, format, args) == Run(m, UpToNul(format), args)
    decreases |format|
  {
    if format != "" && format[0] != '\0' {
      RunUpToNul(Step(m, format[0], args), format[1..], args);
      assert UpToNul(format)[1..] == UpToNul(format[1..]);
    }
  }

  /** The pieces of any string: single characters, and directives as far as they go. */
  function Pieces(s: string): seq<Piece>
    decreases |s|
  {
    if s == "" then [] else if s[0] != '%' then [Literal([s[0]])] + Pieces(s[1..]) else
    var r := RawAt(s[1..]);
    var k := 1 + |RawText(r)|;
    if k >= |s| then [Unfinished(r)] else [Conversion(r, s[k])] + Pieces(s[k + 1..])
  }

  lemma InFront(p: Piece, ps: seq<Piece>)
    requires Writable(p) && !p.Unfinished? && AllWritable(ps)
    ensures AllWritable([p] + ps) && Written([p] + ps) == Piecewise(p) + Written(ps)
  {
    assert ([p] + ps)[1..] == ps;
    hide Writable, Piecewise;
  }

  lemma TailClean(s: string, k: nat)
    requires NoNul(s) && k <= |s|
    ensures NoNul(s[k..])
  {
  }

  /** Taking a format apart and writing it down again gives the format. */
  lemma {:induction false} PiecesWrite(s: string)
    requires NoNul(s)
    ensures AllWritable(Pieces(s)) && Written(Pieces(s)) == s
    decreases |s|
  {
    if s == "" {
    } else if s[0] != '%' {
      TailClean(s, 1);
      PiecesWrite(s[1..]);
      hide Written, AllWritable;
      InFront(Literal([s[0]]), Pieces(s[1..]));
      assert s == [s[0]] + s[1..];
    } else {
      hide RawAt, RawText, Written, AllWritable, Writable, Piecewise;
      var r := RawAt(s[1..]);
      var k := 1 + |RawText(r)|;
      DirectiveFirst(s, r);
      if k < |s| {
        TailClean(s, k + 1);
        PiecesWrite(s[k + 1..]);
        InFront(Conversion(r, s[k]), Pieces(s[k + 1..]));
      }
    }
  }

  lemma DirectiveFirst(s: string, r: Raw)
    requires NoNul(s) && s != "" && s[0] == '%' && r == RawAt(s[1..])
    ensures var k := 1 + |RawText(r)|;
      && k <= |s| && (k == |s| ==> AllWritable([Unfinished(r)]) && Written([Unfinished(r)]) == s)
      && (k < |s| ==> Writable(Conversion(r, s[k])) && s == Piecewise(Conversion(r, s[k])) + s[k + 1..])
  {
    hide RawAt, Readable, Ends, RawText, Where;
    RawAtReads(s[1..]);
    Percent(s, RawText(r));
    assert Written([Unfinished(r)]) == "%" + RawText(r) + "";
  }

  lemma Percent(s: string, t: string)
    requires s != "" && s[0] == '%' && t <= s[1..]
    ensures var k := 1 + |t|;
      && k <= |s| && (k == |s| ==> s == "%" + t)
      && (k < |s| ==> s == "%" + t + [s[k]] + s[k + 1..] && s[1..][k - 1] == s[k])
  {
    var k := 1 + |t|;
    assert s[..k] == "%" + t;
    assert k < |s| ==> s == s[..k] + [s[k]] + s[k + 1..];
    assert k == |s| ==> s == s[..k];
  }

  function Scan(format: string): seq<Piece> { Pieces(UpToNul(format)) }

  /** For every format and any arguments: the machine does what the pieces of the format say. */
  lemma EveryFormat(format: string, args: Args)
    ensures AllWritable(Scan(format)) && Written(Scan(format)) == UpToNul(format)
    ensures Run(INITIAL, format, args) == Printed(INITIAL, Scan(format), args)
  {
    hide Run, Pieces, Printed, Written, AllWritable;
    PiecesWrite(UpToNul(format));
    RunUpToNul(INITIAL, format, args);
    FormatPrints(INITIAL, Scan(format), args);
  }

  // ---------------------------------------------------------------- any conversion can be asked for

  function DecimalChars(v: nat): string { Digits(v, 10, DigitCount(v, 10), false) }

  function When(b: bool, c: char): string { if b then [c] else "" }

  function FlagChars(f: Flags): string {
    When(f.minus, '-') + When(f.plus, '+') + When(f.tick, '\'') + When(f.space, ' ') + When(f.hash, '#')
      + When(f.zero, '0')
  }

  function RankChars(rank: int): string {
    if rank <= -2 then "hh" else if rank == -1 then "h" else if rank == 0 then "" else if rank == 1 then "l" else "ll"
  }

  predicate Spellable(d: Directive) {
    !d.flags.signed && !d.flags.upper && MIN_RANK <= d.rank <= MAX_RANK && d.width >= 0 && d.prec >= -1
  }

  function Canonical(d: Directive): Raw
    requires Spellable(d)
  {
    Raw(FlagChars(d.flags), DecimalChars(d.width), if d.prec < 0 then None else Some(DecimalChars(d.prec)),
        RankChars(d.rank))
  }

  lemma DecimalDigit(d: nat)
    requires d < 10
    ensures IsDecimal(Digit(d, false)) && Decimal(Digit(d, false)) == d && (d > 0 ==> !IsFlag(Digit(d, false)))
  {
  }

  lemma {:induction false} DigitsValue(v: nat, n: nat)
    requires DigitCount(v, 10) <= n
    ensures var s := Digits(v, 10, n, false); AllDecimal(s) && Stars(s) == 0 && Value(s) == v
    decreases n
  {
    if n > 0 {
      DigitsValue(v / 10, n - 1);
      DecimalDigit(v % 10);
      var s := Digits(v, 10, n, false);
      assert s[..n - 1] == Digits(v / 10, 10, n - 1, false) && s[n - 1] == Digit(v % 10, false);
    }
  }

  /** A number is spelled without leading zeros. */
  lemma {:induction false} FirstDigit(v: nat)
    requires v > 0
    ensures DecimalChars(v) != "" && !IsFlag(DecimalChars(v)[0])
  {
    if v < 10 {
      assert DigitCount(v / 10, 10) == 0;
      DecimalDigit(v);
    } else {
      FirstDigit(v / 10);
    }
  }

  lemma NumberMeans(v: nat, ap: nat, args: Args)
    ensures var s := DecimalChars(v);
      && AllCounts(s) && Stars(s) == 0 && WidthOf(s, ap, args) == v && PrecOf(s, ap, args) == v
      && !SomeNegative(s, ap, args)
      && (s != "" ==> !IsFlag(s[0]))
  {
    DigitsValue(v, DigitCount(v, 10));
    if v > 0 {
      FirstDigit(v);
    }
  }

  lemma FlagCharsMean(f: Flags)
    requires !f.signed && !f.upper
    ensures AllFlags(FlagChars(f)) && FlagsOf(FlagChars(f)) == f
  {
    hide FlagChars;
    var s := FlagChars(f);
    forall i | 0 <= i < |s| ensures IsFlag(s[i]) {
      InSix(f, s[i]);
    }
    InSix(f, '-');
    InSix(f, '+');
    InSix(f, '\'');
    InSix(f, ' ');
    InSix(f, '#');
    InSix(f, '0');
  }

  predicate Chosen(f: Flags, c: char) {
    || (f.minus && c == '-') || (f.plus && c == '+') || (f.tick && c == '\'')
    || (f.space && c == ' ') || (f.hash && c == '#') || (f.zero && c == '0')
  }

  lemma InSix(f: Flags, c: char)
    ensures c in FlagChars(f) <==> Chosen(f, c)
  {
  }

  lemma RankCharsMean(rank: int)
    requires MIN_RANK <= rank <= MAX_RANK
    ensures AllModifiers(RankChars(rank)) && RankOf(RankChars(rank)) == rank
  {
    assert "hh"[..1] == "h" && "ll"[..1] == "l" && "h"[..0] == "" && "l"[..0] == "";
    assert RankOf("h") == -1 && RankOf("l") == 1;
  }

  /** Every set of flags, width, precision and rank is the meaning of some directive. */
  lemma CanonicalMeans(d: Directive, ap: nat, args: Args)
    requires Spellable(d)
    ensures Readable(Canonical(d)) && Meaning(Canonical(d), ap, args) == d && Taken(Canonical(d)) == 0
  {
    hide DecimalChars, FlagChars, RankChars, FlagsOf, RankOf, Stars, WidthOf, PrecOf, SomeNegative;
    FlagCharsMean(d.flags);
    NumberMeans(d.width, ap, args);
    RankCharsMean(d.rank);
    if d.prec >= 0 {
      NumberMeans(d.prec, ap, args);
    }
  }

  /** Printing an argument with any integer directive and reading the output back with strntoumax gives what the
      directive fetches of the argument and stops right behind the number, if and only if the number has no tick in
      it. */
  lemma PrintedReadsBack(r: Raw, ch: char, args: Args)
    requires Readable(r) && IsInteger(ch)
    ensures var d, word := Meaning(r, 0, args), args(Taken(r)).word;
      var val, flags, base := ValueFor(ch, ClampRank(d.rank), word), FlagsFor(ch, d.flags), BaseFor(ch);
      var text, prec := Run(INITIAL, Spelled(r, ch), args).out, PrecFor(ch, d.prec);
      var pad := d.width - CharsShown(val, flags, base, prec);
      Parse(text, base) == (val, |text| - |Trail(flags, pad)|) <==>
      '\'' !in r.flags || DigitsShown(Magnitude(val, flags), base, flags.hash, prec) <= TickSkip(base)
  {
    hide Formatted, Parse, Run, Spelled, Readable, WidthOf, PrecOf, RankOf, CharsShown, DigitsShown, Magnitude, Trail;
    SpelledMeans(INITIAL, r, ch, args);
    var d, word := Meaning(r, 0, args), args(Taken(r)).word;
    var val, flags, base := ValueFor(ch, ClampRank(d.rank), word), FlagsFor(ch, d.flags), BaseFor(ch);
    TickText.ReadsBackExactly(val, flags, base, d.width, PrecFor(ch, d.prec));
    NothingBefore(IntText(ch, d.(rank := ClampRank(d.rank)), word));
  }

  lemma NothingBefore(s: string)
    ensures "" + s == s
  {
  }
}
