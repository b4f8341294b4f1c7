/** vsnprintf, writing into a buffer of `n` characters. */
module Vsnprintf {
  import opened NumberText
  import opened Printf
  import opened FormatMachine

  /** The buffer after printing `out` with bound `n`: the first n - 1 characters of `out` or all of it,
      a terminator, and nothing else touched; with n == 0, nothing touched at all. */
  ghost predicate Truncated(now: string, was: string, n: nat, out: string) {
    var k := if n == 0 then -1 else if |out| < n then |out| else n - 1;
    && |now| == |was|
    && forall i {:trigger now[i]} :: 0 <= i < |now| ==>
         now[i] == if i < k then out[i] else if i == k then '\0' else was[i]
  }

  /** Lines 433-436. */
  method EmitText(buf: array<char>, q: int, o: nat, n: nat, s: string, slen: nat, ghost was: string, ghost out: string)
    returns (q': int, o': nat)
    requires Fits(buf.Length, 0, n) && Emitted(buf[..], was, 0, n, out, q, o) && slen <= |s|
    modifies buf
    ensures Emitted(buf[..], was, 0, n, out + s[..slen], q', o')
  {
    hide Emitted;
    q', o' := q, o;
    var i: nat := slen;
    EmptyTail(out);
    while i > 0
      invariant i <= slen && Emitted(buf[..], was, 0, n, out + s[..slen - i], q', o')
    {
      var sch := s[slen - i];
      q', o' := Emit(buf, q', o', n, sch, was, 0, out + s[..slen - i]);
      OneMore(out, s, slen - i);
      i := i - 1;
    }
  }

  lemma OneMore(out: string, s: string, k: nat)
    requires k < |s|
    ensures out + s[..k] + [s[k]] == out + s[..k + 1]
  {
  }

  /** Lines 415-444; `over` when the loop of line 433 would not stop at the end of `s`. */
  method EmitField(buf: array<char>, q: int, o: nat, n: nat, s: string, flags: Flags, width0: int, prec: int,
                   ghost was: string, ghost out: string) returns (q': int, o': nat, over: bool)
    requires Fits(buf.Length, 0, n) && Emitted(buf[..], was, 0, n, out, q, o)
    modifies buf
    ensures Emitted(buf[..], was, 0, n, out + Field(s, flags, width0, prec), q', o')
    ensures over == (SignedLength(s, prec) < 0)
  {
    hide Emitted;
    q', o', over := q, o, false;
    var slen, width := |s| as int, width0;
    if prec != -1 && slen > prec {
      slen := prec;
    }
    ghost var lead := Before(flags, width, slen);
    EmptyTail(out);
    if width > slen && !flags.minus {
      q', o', width := Pad(buf, q', o', n, if flags.zero then '0' else ' ', width, slen, was, 0, out);
    }
    if slen < 0 {
      over := true;
      return;
    }
    ghost var t := s[..slen];
    q', o' := EmitText(buf, q', o', n, s, slen, was, out + lead);
    EmptyTail(out + lead + t);
    if width > slen && flags.minus {
      q', o', width := Pad(buf, q', o', n, ' ', width, slen, was, 0, out + lead + t);
    }
    FieldParts(out, lead, t, Behind(flags, width0, slen));
  }

  lemma FieldParts(out: string, a: string, b: string, c: string)
    ensures out + a + b + c == out + (a + b + c)
  {
  }

  /** Lines 388-394. */
  method EmitInteger(buf: array<char>, q: int, o: nat, n: nat, ch: char, dir: Directive, word: int, ghost was: string,
                     ghost out: string)
    returns (q': int, o': nat)
    requires Fits(buf.Length, 0, n) && Emitted(buf[..], was, 0, n, out, q, o)
    modifies buf
    ensures Emitted(buf[..], was, 0, n, out + IntText(ch, dir, word), q', o')
  {
    ghost var mid := buf[..];
    var sz := FormatInt(buf, q, if o < n then n - o else 0, ValueFor(ch, dir.rank, word), FlagsFor(ch, dir.flags),
                        BaseFor(ch),
                        dir.width, PrecFor(ch, dir.prec));
    q', o' := q + sz, o + sz;
    ShowsMore(mid, buf[..], was, n, out, IntText(ch, dir, word), q);
  }

  lemma ShowsMore(mid: string, now: string, was: string, n: nat, out: string, more: string, q: int)
    requires Shows(mid, was, 0, n, out) && Placed(q, |out|, 0, n)
    requires Shows(now, mid, q, if |out| < n then n - |out| else 0, more)
    ensures Shows(now, was, 0, n, out + more) && Placed(q + |more|, |out + more|, 0, n)
  {
  }

  /** Lines 287-485. */
  method EndDirective(buf: array<char>, q: int, o: nat, n: nat, ch: char, dir: Directive, ap: nat, stores: seq<Store>,
                      args: Args, ghost was: string,
                        ghost m: Machine) returns (q': int, o': nat, ap': nat, stores': seq<Store>, over: bool)
    requires Fits(buf.Length, 0, n) && Emitted(buf[..], was, 0, n, m.out, q, o)
    requires m.ap == ap && m.stores == stores && dir == m.dir.(rank := ClampRank(m.dir.rank))
    modifies buf
    ensures var t := Terminal(m, ch, args);
      Emitted(buf[..], was, 0, n, t.out, q', o') &&
        t == Machine(if over then Overrun else Normal, dir, ap', t.out, stores')
  {
    assert o == |m.out|;
    hide Emitted, Field, IntText;
    q', o', ap', stores', over := q, o, ap, stores, false;
    if IsInteger(ch) {
      q', o' := EmitInteger(buf, q, o, n, ch, dir, args(ap).word, was, m.out);
      ap' := ap + 1;
    } else if IsText(ch) {
      q', o', over := EmitField(buf, q, o, n, TextFor(ch, args(ap)), dir.flags, if ch == 'f' then 0 else dir.width,
                                TextPrec(ch, dir), was, m.out);
      ap' := ap + 1;
    } else if ch == 'n' {
      stores', ap' := stores + [Store(ap, dir.rank, o)], ap + 1;
    } else {
      q', o' := Emit(buf, q, o, n, ch, was, 0, m.out);
    }
  }

  /** Lines 490-494. */
  method Terminate(buf: array<char>, q: int, o: nat, n: nat, ghost was: string, ghost out: string)
    requires n <= buf.Length && Emitted(buf[..], was, 0, n, out, q, o)
    modifies buf
    ensures o == |out| && Truncated(buf[..], was, n, out)
  {
    if o < n {
      buf[q] := '\0';
    } else if n > 0 {
      buf[n - 1] := '\0';
    }
  }

  lemma RunStop(m: Machine, format: string, p: nat, args: Args)
    requires p == |format| || (p < |format| && format[p] == '\0')
    ensures Run(m, format[p..], args) == m
  {
  }

  function Pending(state: State): nat {
    match state
    case InFlags => 2
    case InWidth => 1
    case InPrec => 1
    case _ => 0
  }

  /** Lines 207-286: a character inside a directive; `again` when it is to be looked at again. */
  method ScanDirective(ch: char, state: State, dir: Directive, ap: nat, args: Args, ghost m: Machine)
    returns (state': State, dir': Directive, ap': nat, again: bool)
    requires m.state == state && state != Normal && state != Overrun && m.dir == dir && m.ap == ap
    requires state == InModifiers ==> SetRank(dir.rank, ch).Some?
    ensures var m' := m.(state := state', dir := dir', ap := ap');
      if again then Step(m', ch, args) == Step(m, ch, args) && Pending(state') < Pending(state) && state' != Overrun
      else m' == Step(m, ch, args) && state' != Overrun
  {
    hide Terminal;
    state', dir', ap', again := state, dir, ap, false;
    match state {
      case Normal =>
      case Overrun =>
      case InFlags =>
        var f := SetFlag(dir.flags, ch);
        if f.Some? {
          dir' := dir.(flags := f.value);
        } else {
          state', again := InWidth, true;
        }
      case InWidth =>
        if IsDecimal(ch) {
          dir' := dir.(width := dir.width * 10 + Decimal(ch));
        } else if ch == '*' {
          dir', ap' := StarWidth(dir, args(ap).word), ap + 1;
        } else if ch == '.' {
          dir', state' := dir.(prec := 0), InPrec;
        } else {
          state', again := InModifiers, true;
        }
      case InPrec =>
        if IsDecimal(ch) {
          dir' := dir.(prec := dir.prec * 10 + Decimal(ch));
        } else if ch == '*' {
          dir', ap' := dir.(prec := StarPrec(args(ap).word)), ap + 1;
        } else {
          state', again := InModifiers, true;
        }
      case InModifiers =>
        dir' := dir.(rank := SetRank(dir.rank, ch).value);
    }
  }

  lemma StepCases(m: Machine, ch: char, args: Args)
    ensures m.state == Normal && ch == '%' ==> Step(m, ch, args) == m.(state := InFlags, dir := FRESH)
    ensures m.state == Normal && ch != '%' ==> Step(m, ch, args) == m.(out := m.out + [ch])
    ensures m.state == InModifiers && SetRank(m.dir.rank, ch).None? ==> Step(m, ch, args) == Terminal(m, ch, args)
  {
  }

  /** What a call comes to: the result and the stores of %n, or a copy that runs past the end of its string. */
  datatype Outcome = Done(ret: nat, stores: seq<Store>) | RanOver

  /** vsnprintf, lines 169-497.  Neither the result nor what %n stores depends on the bound; the buffer holds the
      truncated output and its terminator.  Nor does the bound decide whether a copy runs past the end of a string; up
      to there, the buffer shows what fits of the output. */
  method Vsnprintf(buf: array<char>, n: nat, format: string, args: Args) returns (r: Outcome)
    requires n <= buf.Length
    modifies buf
    ensures var m := Run(INITIAL, format, args);
      if m.state == Overrun then r == RanOver && Shows(buf[..], old(buf[..]), 0, n, m.out)
      else r == Done(|m.out|, m.stores) && Truncated(buf[..], old(buf[..]), n, m.out)
  {
    ghost var was, out := buf[..], "";
    var p: nat, q: int, o: nat, ap: nat, state, dir, stores := 0, 0, 0, 0, Normal, FRESH, [];
    NothingShown(was, 0, n);
    assert format[0..] == format;
    hide Emitted, Run, Step, Terminal, SetRank, Truncated, Shows;
    while p < |format| && format[p] != '\0'
      invariant p <= |format| && state != Overrun
      invariant Emitted(buf[..], was, 0, n, out, q, o)
      invariant Run(Machine(state, dir, ap, out, stores), format[p..], args) == Run(INITIAL, format, args)
      decreases |format| - p, Pending(state)
    {
      var ch := format[p];
      ghost var m := Machine(state, dir, ap, out, stores);
      RunStep(m, format, p, args);
      StepCases(m, ch, args);
      if state == Normal {
        if ch == '%' {
          state, dir := InFlags, FRESH;
        } else {
          q, o := Emit(buf, q, o, n, ch, was, 0, out);
          out := out + [ch];
        }
        p := p + 1;
      } else if state == InModifiers && SetRank(dir.rank, ch).None? {
        state, dir := Normal, dir.(rank := ClampRank(dir.rank));
        var over;
        q, o, ap, stores, over := EndDirective(buf, q, o, n, ch, dir, ap, stores, args, was, m);
        out := Terminal(m, ch, args).out;
        if over {
          RunOver(Terminal(m, ch, args), format[p + 1..], args);
          EmittedShows(buf[..], was, n, out, q, o);
          return RanOver;
        }
        p := p + 1;
      } else {
        var again;
        state, dir, ap, again := ScanDirective(ch, state, dir, ap, args, m);
        if again {
          RunStep(Machine(state, dir, ap, out, stores), format, p, args);
        } else {
          p := p + 1;
        }
      }
    }
    Terminate(buf, q, o, n, was, out);
    assert Run(Machine(state, dir, ap, out, stores), format[p..], args) == Machine(state, dir, ap, out, stores) by {
      RunStop(Machine(state, dir, ap, out, stores), format, p, args);
    }
    r := Done(o, stores);
  }

  lemma EmittedShows(now: string, was: string, n: nat, out: string, q: int, o: nat)
    requires Emitted(now, was, 0, n, out, q, o)
    ensures Shows(now, was, 0, n, out)
  {
  }
}
