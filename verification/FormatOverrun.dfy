/** When vsnprintf copies past the end of a string, read off the format and the arguments. */
module FormatOverrun {
  import opened FormatMachine
  import opened FormatMeaning

  predicate SomeNotNine(ds: string) { exists k :: 0 <= k < |ds| && ds[k] != '9' }

  /** What is wrong with a precision: its last star takes a negative argument, and the digits that follow are not all
      nines. */
  predicate Sinks(s: string, ap: nat, args: Args) {
    Stars(s) > 0 && LastWord(s, ap, args) < 0 && SomeNotNine(AfterStars(s))
  }

  /** A %s or %c with such a precision; `ap` is the first argument the piece takes. */
  predicate RunsOff(p: Piece, ap: nat, args: Args) {
    p.Conversion? && (p.ch == 's' || p.ch == 'c') && p.raw.prec.Some? &&
      Sinks(p.raw.prec.value, ap + Stars(p.raw.width), args)
  }

  /** How many arguments a piece takes. */
  function Takes(p: Piece): nat {
    match p
    case Literal(_) => 0
    case Conversion(raw, ch) => Taken(raw) + if IsInteger(ch) || IsText(ch) || ch == 'n' then 1 else 0
    case Unfinished(raw) => Taken(raw)
  }

  function ArgsBefore(ps: seq<Piece>, i: nat): nat
    requires i <= |ps|
  {
    if i == 0 then 0 else Takes(ps[0]) + ArgsBefore(ps[1..], i - 1)
  }

  // ---------------------------------------------------------------- precisions below -1

  lemma {:induction false} ValueBound(ds: string)
    requires AllDecimal(ds)
    ensures 0 <= Value(ds) <= Power(|ds|) - 1 && (Value(ds) < Power(|ds|) - 1 <==> SomeNotNine(ds))
    decreases |ds|
  {
    if ds != "" {
      var a, c := ds[..|ds| - 1], ds[|ds| - 1];
      ValueBound(a);
      assert IsDecimal(c);
      NotNineLast(ds);
      hide SomeNotNine;
    }
  }

  lemma NotNineLast(ds: string)
    requires ds != ""
    ensures SomeNotNine(ds) <==> SomeNotNine(ds[..|ds| - 1]) || ds[|ds| - 1] != '9'
  {
    var a := ds[..|ds| - 1];
    if SomeNotNine(a) {
      var k :| 0 <= k < |a| && a[k] != '9';
      assert ds[k] != '9';
    }
  }

  lemma {:induction false} AfterDecimal(s: string)
    requires AllCounts(s)
    ensures AllDecimal(AfterStars(s)) && (Stars(s) == 0 ==> AfterStars(s) == s)
    decreases |s|
  {
    if s != "" {
      AfterDecimal(s[..|s| - 1]);
      assert IsCount(s[|s| - 1]);
    }
  }

  /** A number above -1 stays there, whatever digits follow. */
  lemma AppendedUp(v: int, ds: string)
    requires v >= 0 && AllDecimal(ds)
    ensures Appended(v, ds) >= 0
  {
    ValueBound(ds);
    assert v * Power(|ds|) >= 0;
  }

  lemma SinksExactly(s: string, ap: nat, args: Args)
    requires AllCounts(s)
    ensures PrecOf(s, ap, args) < -1 <==> Sinks(s, ap, args)
  {
    AfterDecimal(s);
    var ds := AfterStars(s);
    ValueBound(ds);
    hide SomeNotNine, AllDecimal;
    if Stars(s) > 0 {
      var w := LastWord(s, ap, args);
      if w < 0 {
        assert Appended(-1, ds) == Value(ds) - Power(|ds|);
      } else {
        AppendedUp(w, ds);
      }
    }
  }

  // ---------------------------------------------------------------- whole formats

  lemma PieceOver(m: Machine, p: Piece, args: Args)
    requires m.state != Overrun && Writable(p)
    ensures Perform(m, p, args).state == Overrun <==> RunsOff(p, m.ap, args)
    ensures Perform(m, p, args).ap == m.ap + Takes(p)
  {
    hide PrecOf, WidthOf, RankOf, Stars, FlagsOf, SomeNegative, AfterStars, IntText, TextText;
    if p.Conversion? && p.raw.prec.Some? {
      SinksExactly(p.raw.prec.value, m.ap + Stars(p.raw.width), args);
    }
    hide Sinks;
  }

  /** The pieces run over exactly if one of them does. */
  lemma {:induction false} PiecesOver(m: Machine, ps: seq<Piece>, args: Args)
    requires m.state != Overrun && AllWritable(ps)
    ensures Printed(m, ps, args).state == Overrun <==>
      exists i :: 0 <= i < |ps| && RunsOff(ps[i], m.ap + ArgsBefore(ps, i), args)
    decreases |ps|
  {
    hide RunsOff, Takes, Perform;
    if ps != [] {
      var m', rest := Perform(m, ps[0], args), ps[1..];
      PieceOver(m, ps[0], args);
      assert m.ap + ArgsBefore(ps, 0) == m.ap;
      if m'.state != Overrun {
        PiecesOver(m', rest, args);
        forall i | 0 <= i < |rest| ensures rest[i] == ps[i + 1] &&
          m'.ap + ArgsBefore(rest, i) == m.ap + ArgsBefore(ps, i + 1) {
        }
        if i :| 0 <= i < |rest| && RunsOff(rest[i], m'.ap + ArgsBefore(rest, i), args) {
          assert RunsOff(ps[i + 1], m.ap + ArgsBefore(ps, i + 1), args);
        }
        if i :| 0 <= i < |ps| && RunsOff(ps[i], m.ap + ArgsBefore(ps, i), args) {
          assert i > 0 && RunsOff(rest[i - 1], m'.ap + ArgsBefore(rest, i - 1), args);
        }
      }
    }
  }

  /** vsnprintf copies past the end of a string if and only if the format has a %s or %c whose last precision star takes
      a negative argument and is followed by digits other than nines. */
  lemma OverrunExactly(format: string, args: Args)
    ensures Run(INITIAL, format, args).state == Overrun
       <==> exists i :: 0 <= i < |Scan(format)| && RunsOff(Scan(format)[i], ArgsBefore(Scan(format), i), args)
  {
    EveryFormat(format, args);
    PiecesOver(INITIAL, Scan(format), args);
    hide Run, Scan, RunsOff, Printed, AllWritable;
    forall i | 0 <= i < |Scan(format)| ensures INITIAL.ap + ArgsBefore(Scan(format), i) == ArgsBefore(Scan(format), i) {
    }
  }

  /** It does: a negative argument for the precision of "%.*5s". */
  lemma DigitAfterStar(args: Args)
    requires args(0).word < 0
    ensures Run(INITIAL, "%.*5s", args).state == Overrun
  {
    hide Run;
    var m := RunStar(args, '5');
    assert "%.*" + ['5'] + "s" == "%.*5s";
  }

  /** And does not with nines, which make the precision -1 again. */
  lemma NineAfterStar(args: Args)
    requires args(0).word < 0
    ensures Run(INITIAL, "%.*9s", args).state == Normal && Run(INITIAL, "%.*9s", args).out == TextFor('s', args(1))
  {
    hide Run;
    var m := RunStar(args, '9');
    assert "%.*" + ['9'] + "s" == "%.*9s";
    var t := TextFor('s', args(1));
    assert "" + t[..|t|] + "" == t && "" + t == t;
  }

  /** The machine before the last character of "%.*ds", for a digit `d`. */
  lemma RunStar(args: Args, d: char) returns (m: Machine)
    requires args(0).word < 0 && IsDecimal(d)
    ensures m == Machine(InPrec, FRESH.(prec := -10 + Decimal(d)), 1, "", [])
    ensures Run(INITIAL, "%.*" + [d] + "s", args) == Step(m, 's', args)
  {
    m := Machine(InPrec, FRESH.(prec := -10 + Decimal(d)), 1, "", []);
    var m1 := Step(INITIAL, '%', args);
    var m2 := Step(m1, '.', args);
    var m3 := Step(m2, '*', args);
    assert Step(m3, d, args) == m;
    var f := "%.*" + [d] + "s";
    RunStep(INITIAL, f, 0, args);
    RunStep(m1, f, 1, args);
    RunStep(m2, f, 2, args);
    RunStep(m3, f, 3, args);
    RunStep(m, f, 4, args);
    assert f[0..] == f;
  }

  predicate StarsEnd(format: string) {
    forall i :: 0 <= i && i + 1 < |format| && format[i] == '*' ==> !IsDecimal(format[i + 1])
  }

  lemma {:induction false} StarsEndDefined(m: Machine, format: string, args: Args)
    requires StarsEnd(format) && m.dir.prec >= -1 && m.state != Overrun
    requires m.state == InPrec && m.dir.prec < 0 ==> format == "" || !IsDecimal(format[0])
    ensures Run(m, format, args).state != Overrun
    decreases |format|
  {
    if format != "" && format[0] != '\0' {
      var rest := format[1..];
      forall i | 0 <= i && i + 1 < |rest| && rest[i] == '*' ensures !IsDecimal(rest[i + 1]) {
        assert format[i + 1] == '*';
      }
      assert format[0] == '*' && rest != "" ==> !IsDecimal(format[0 + 1]);
      StarsEndDefined(Step(m, format[0], args), rest, args);
    }
  }

  /** A format in which no star is followed by a digit is safe with any arguments. */
  lemma FormatDefined(format: string, args: Args)
    requires StarsEnd(format)
    ensures Run(INITIAL, format, args).state != Overrun
  {
    StarsEndDefined(INITIAL, format, args);
  }
}
