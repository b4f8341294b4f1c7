/** What a format string and its arguments ask for: the state machine of vsnprintf on values. */
module FormatMachine {
  // The output has unlimited length here.

  import opened Options
  import opened NumberText

  /** One variadic argument: what it is when fetched as an integer or a pointer, and the characters up
      to the terminator when fetched as a string (none for a null pointer). */
  datatype Arg = Arg(word: int, text: Option<string>)

  type Args = nat -> Arg

  /** Where the code is in a format; `Overrun` once the copy of a string has run past its end. */
  datatype State = Normal | InFlags | InWidth | InPrec | InModifiers | Overrun

  datatype Directive = Directive(flags: Flags, rank: int, width: int, prec: int)

  /** `%n` stored `count` through argument `arg`, as an integer of rank `rank`. */
  datatype Store = Store(arg: nat, rank: int, count: nat)

  datatype Machine = Machine(state: State, dir: Directive, ap: nat, out: string, stores: seq<Store>)

  const NO_FLAGS: Flags := Flags(false, false, false, false, false, false, false, false)
  /** Lines 197-201. */
  const FRESH: Directive := Directive(NO_FLAGS, 0, 0, -1)
  const INITIAL: Machine := Machine(Normal, FRESH, 0, "", [])

  const MIN_RANK: int := -2
  const MAX_RANK: int := 2
  /** Hexadecimal digits of a pointer, line 305. */
  const ADDRESS_DIGITS: int := 16

  // ---------------------------------------------------------------- single characters

  /** Lines 208-231. */
  function SetFlag(f: Flags, ch: char): Option<Flags> {
    match ch
    case '-' => Some(f.(minus := true))
    case '+' => Some(f.(plus := true))
    case '\'' => Some(f.(tick := true))
    case ' ' => Some(f.(space := true))
    case '#' => Some(f.(hash := true))
    case '0' => Some(f.(zero := true))
    case _ => None
  }

  /** Lines 266-286. */
  function SetRank(rank: int, ch: char): Option<int> {
    match ch
    case 'h' => Some(rank - 1)
    case 'l' => Some(rank + 1)
    case 'j' => Some(2)
    case 'z' => Some(1)
    case 't' => Some(1)
    case 'L' => Some(rank + 2)
    case 'q' => Some(rank + 2)
    case _ => None
  }

  /** Lines 293-297. */
  function ClampRank(rank: int): int {
    if rank < MIN_RANK then MIN_RANK else if rank > MAX_RANK then MAX_RANK else rank
  }

  predicate IsDecimal(ch: char) { '0' <= ch <= '9' }

  function Decimal(ch: char): int { ch as int - '0' as int }

  // ---------------------------------------------------------------- integer conversions

  /** How many values an integer of rank `rank` has: 8, 16, 32, 64 and 64 bits. */
  function Span(rank: int): (n: nat)
    ensures 1 <= n <= MODULUS
  {
    if rank <= -2 then 0x100 else if rank == -1 then 0x1_0000 else if rank == 0 then 0x1_0000_0000 else MODULUS
  }

  /** Lines 311-341 and 356-385: the argument cut to its rank, then widened to uintmax_t. */
  function Fetched(word: int, rank: int, signed: bool): (v: nat)
    ensures v < MODULUS
  {
    var u := word % Span(rank);
    if signed && u >= Span(rank) / 2 then MODULUS - (Span(rank) - u) else u
  }

  predicate IsPointer(ch: char) { ch == 'p' || ch == 'P' }

  predicate IsInteger(ch: char) {
    IsPointer(ch) || ch == 'd' || ch == 'i' || ch == 'o' || ch == 'u' || ch == 'x' || ch == 'X'
  }

  predicate IsSigned(ch: char) { ch == 'd' || ch == 'i' }

  function BaseFor(ch: char): (b: nat)
    ensures b == 8 || b == 10 || b == 16
  {
    if ch == 'o' then 8 else if ch == 'd' || ch == 'i' || ch == 'u' then 10 else 16
  }

  function FlagsFor(ch: char, f: Flags): Flags {
    f.(signed := f.signed || IsSigned(ch), upper := f.upper || ch == 'P' || ch == 'X', hash := f.hash || IsPointer(ch))
  }

  function PrecFor(ch: char, prec: int): int { if IsPointer(ch) then ADDRESS_DIGITS else prec }

  function ValueFor(ch: char, rank: int, word: int): (v: nat)
    ensures v < MODULUS
  {
    Fetched(word, if IsPointer(ch) then MAX_RANK else rank, IsSigned(ch))
  }

  function IntText(ch: char, dir: Directive, word: int): string {
    Formatted(ValueFor(ch, dir.rank, word), FlagsFor(ch, dir.flags), BaseFor(ch), dir.width, PrecFor(ch, dir.prec))
  }

  // ---------------------------------------------------------------- string conversions

  /** Line 420: how many characters of `s` line 433 counts off.  It stops at zero, so below zero it copies on past
      the end of `s`. */
  function SignedLength(s: string, prec: int): (n: int)
    ensures n <= |s| && (n < 0 <==> prec < -1)
  {
    if prec != -1 && |s| > prec then prec else |s|
  }

  /** Lines 423-432 and 437-443. */
  function Before(flags: Flags, width: int, slen: int): string {
    if flags.minus then "" else Fill(if flags.zero then '0' else ' ', width - slen)
  }

  function Behind(flags: Flags, width: int, slen: int): string { if flags.minus then Fill(' ', width - slen) else "" }

  /** Lines 415-444; of a copy that runs past the end, only what comes before it. */
  function Field(s: string, flags: Flags, width: int, prec: int): string {
    var slen := SignedLength(s, prec);
    if slen < 0 then Before(flags, width, slen) else Before(flags, width, slen) + s[..slen] + Behind(flags, width, slen)
  }

  predicate IsText(ch: char) { ch == 'f' || ch == 'c' || ch == 's' }

  /** Lines 396-412: what to print, and the directive it is printed with. */
  function TextFor(ch: char, arg: Arg): string {
    if ch == 'f' then "(float)"
    else if ch == 'c' then [(arg.word % 256) as char]
    else if arg.text.Some? then arg.text.value else "(null)"
  }

  function TextPrec(ch: char, dir: Directive): int { if ch == 'f' then -1 else dir.prec }

  function TextText(ch: char, dir: Directive, arg: Arg): string {
    Field(TextFor(ch, arg), dir.flags, if ch == 'f' then 0 else dir.width, TextPrec(ch, dir))
  }

  /** Whether the copy ends. */
  function TextState(ch: char, dir: Directive, arg: Arg): State {
    if SignedLength(TextFor(ch, arg), TextPrec(ch, dir)) < 0 then Overrun else Normal
  }

  // ---------------------------------------------------------------- the machine

  /** Lines 287-485: the character that ends a directive. */
  function Terminal(m: Machine, ch: char, args: Args): Machine {
    var dir := m.dir.(rank := ClampRank(m.dir.rank));
    var m := m.(state := Normal, dir := dir);
    if IsInteger(ch) then m.(ap := m.ap + 1, out := m.out + IntText(ch, dir, args(m.ap).word))
    else if IsText(ch)
      then m.(state := TextState(ch, dir, args(m.ap)), ap := m.ap + 1, out := m.out + TextText(ch, dir, args(m.ap)))
    else if ch == 'n' then m.(ap := m.ap + 1, stores := m.stores + [Store(m.ap, dir.rank, |m.out|)])
    else m.(out := m.out + [ch])
  }

  function Modifier(m: Machine, ch: char, args: Args): Machine {
    var r := SetRank(m.dir.rank, ch);
    if r.Some? then m.(dir := m.dir.(rank := r.value)) else Terminal(m, ch, args)
  }

  /** Lines 252-263. */
  function Precision(m: Machine, ch: char, args: Args): Machine {
    if IsDecimal(ch) then m.(dir := m.dir.(prec := m.dir.prec * 10 + Decimal(ch)))
    else if ch == '*' then m.(dir := m.dir.(prec := StarPrec(args(m.ap).word)), ap := m.ap + 1)
    else Modifier(m.(state := InModifiers), ch, args)
  }

  function StarPrec(word: int): int { if word < 0 then -1 else word }

  /** Lines 234-250. */
  function Width(m: Machine, ch: char, args: Args): Machine {
    if IsDecimal(ch) then m.(dir := m.dir.(width := m.dir.width * 10 + Decimal(ch)))
    else if ch == '*' then m.(dir := StarWidth(m.dir, args(m.ap).word), ap := m.ap + 1)
    else if ch == '.' then m.(dir := m.dir.(prec := 0), state := InPrec)
    else Modifier(m.(state := InModifiers), ch, args)
  }

  function StarWidth(dir: Directive, word: int): Directive {
    if word < 0 then dir.(width := -word, flags := dir.flags.(minus := true)) else dir.(width := word)
  }

  function Flag(m: Machine, ch: char, args: Args): Machine {
    var f := SetFlag(m.dir.flags, ch);
    if f.Some? then m.(dir := m.dir.(flags := f.value)) else Width(m.(state := InWidth), ch, args)
  }

  /** One character of the format; a character that ends one state is looked at again in the next. */
  function Step(m: Machine, ch: char, args: Args): Machine {
    match m.state
    case Normal => if ch == '%' then m.(state := InFlags, dir := FRESH) else m.(out := m.out + [ch])
    case InFlags => Flag(m, ch, args)
    case InWidth => Width(m, ch, args)
    case InPrec => Precision(m, ch, args)
    case InModifiers => Modifier(m, ch, args)
    case Overrun => m
  }

  /** All of the format, up to its terminator. */
  function Run(m: Machine, format: string, args: Args): Machine
    decreases |format|
  {
    if format == "" || format[0] == '\0' then m else Run(Step(m, format[0], args), format[1..], args)
  }

  lemma RunStep(m: Machine, format: string, p: nat, args: Args)
    requires p < |format| && format[p] != '\0'
    ensures Run(m, format[p..], args) == Run(Step(m, format[p], args), format[p + 1..], args)
  {
    assert format[p..][1..] == format[p + 1..];
  }

  /** Nothing comes after an overrun. */
  lemma {:induction false} RunOver(m: Machine, format: string, args: Args)
    requires m.state == Overrun
    ensures Run(m, format, args) == m
    decreases |format|
  {
    if format != "" && format[0] != '\0' {
      RunOver(m, format[1..], args);
    }
  }
}
