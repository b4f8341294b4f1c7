/** Lamport's fast mutual exclusion for two threads (benchmarks/concur15/poet/lamport.c). */
module Lamport {
  // One shared access per step, under every interleaving.

  datatype Thread = One | Two

  /** Where a thread is; line numbers of the first thread. */
  datatype Place =
    | RaiseFlag | WriteX | ReadY            // 17-19
    | LowerFlag | SpinY                     // 20-21
    | WriteY | ReadX                        // 24-25
    | LowerFlag2 | AwaitOther | ReadY2      // 26-28
    | SpinY2                                // 29
    | WriteMark | CheckMark           // 37-38
    | ClearY | ClearFlag | Done | Failed    // 42-44 and 39

  datatype Local = Local(at: Place, flag: bool)

  /** x, y, the mark X of the critical section, and per thread its place and its flag b. */
  datatype State = State(x: int, y: int, mark: int, one: Local, two: Local)

  const START: State := State(0, 0, 0, Local(RaiseFlag, false), Local(RaiseFlag, false))

  function Other(t: Thread): Thread { if t == One then Two else One }
  function Name(t: Thread): int { if t == One then 1 else 2 }
  function Of(s: State, t: Thread): Local { if t == One then s.one else s.two }
  function With(s: State, t: Thread, l: Local): State { if t == One then s.(one := l) else s.(two := l) }

  /** Where the next step of thread `t` takes it. */
  function Goes(s: State, t: Thread): Place {
    match Of(s, t).at
    case RaiseFlag => WriteX
    case WriteX => ReadY
    case ReadY => if s.y != 0 then LowerFlag else WriteY
    case LowerFlag => SpinY
    case SpinY => if s.y != 0 then SpinY else RaiseFlag
    case WriteY => ReadX
    case ReadX => if s.x != Name(t) then LowerFlag2 else WriteMark
    case LowerFlag2 => AwaitOther
    case AwaitOther => if Of(s, Other(t)).flag then AwaitOther else ReadY2
    case ReadY2 => if s.y != Name(t) then SpinY2 else WriteMark
    case SpinY2 => if s.y != 0 then SpinY2 else RaiseFlag
    case WriteMark => CheckMark
    case CheckMark => if s.mark != Name(t) - 1 then Failed else ClearY
    case ClearY => ClearFlag
    case ClearFlag => Done
    case Done => Done
    case Failed => Failed
  }

  /** Its flag afterwards. */
  function Raised(l: Local): bool {
    match l.at
    case RaiseFlag => true
    case LowerFlag | LowerFlag2 | ClearFlag => false
    case _ => l.flag
  }

  /** What the step stores in the shared variables. */
  function Stored(s: State, t: Thread): State {
    match Of(s, t).at
    case WriteX => s.(x := Name(t))
    case WriteY => s.(y := Name(t))
    case WriteMark => s.(mark := Name(t) - 1)
    case ClearY => s.(y := 0)
    case _ => s
  }

  /** What thread `t` does next. */
  function Next(s: State, t: Thread): State { With(Stored(s, t), t, Local(Goes(s, t), Raised(Of(s, t)))) }

  lemma NextGoes(s: State, t: Thread)
    ensures Goes(s, t) == Of(s, t).at ==> Next(s, t) == s
  {
  }

  /** Any schedule, from the start. */
  function Run(schedule: seq<Thread>): State {
    if schedule == [] then START else Next(Run(schedule[..|schedule| - 1]), schedule[|schedule| - 1])
  }

  predicate Critical(p: Place) { p == WriteMark || p == CheckMark || p == ClearY }

  // ---------------------------------------------------------------- the invariant

  /** The flag is up from RaiseFlag to LowerFlag, and in a critical section entered by the fast path. */
  predicate FlagRight(l: Local) {
    && (l.at.WriteX? || l.at.ReadY? || l.at.LowerFlag? || l.at.WriteY? || l.at.ReadX? || l.at.LowerFlag2? ==> l.flag)
    && (l.at.RaiseFlag? || l.at.SpinY? || l.at.AwaitOther? || l.at.ReadY2? || l.at.SpinY2? || l.at.Done? ==> !l.flag)
    && !l.at.Failed?
  }

  /** `t` has written x last and is on the fast path. */
  predicate Fast(s: State, t: Thread) {
    var l := Of(s, t);
    (s.x == Name(t) && (l.at.WriteY? || l.at.ReadX?)) || (l.flag && Critical(l.at))
  }

  /** `t` was the last to write y, and the slow path lets it in. */
  predicate Slow(s: State, t: Thread) {
    var l := Of(s, t);
    (s.y == Name(t) && l.at.ReadY2?) || (!l.flag && Critical(l.at))
  }

  predicate FastRight(s: State, t: Thread) {
    var l, o := Of(s, t), Of(s, Other(t));
    Fast(s, t) ==>
      && !Critical(o.at)
      && (o.at.ReadY2? ==> s.y != Name(Other(t)))
      && (!l.at.WriteY? ==> s.y != 0)
      && (o.at.WriteY? || o.at.ReadX? ==> s.x == Name(t))
  }

  predicate SlowRight(s: State, t: Thread) {
    var o := Of(s, Other(t));
    Slow(s, t) ==> s.y == Name(t) && !Critical(o.at) && !o.at.WriteY? && !o.at.ReadX?
  }

  /** Whoever's name is in y is between writing it and leaving. */
  predicate Owned(s: State, t: Thread) {
    var p := Of(s, t).at;
    s.y == Name(t) ==> p.ReadX? || p.LowerFlag2? || p.AwaitOther? || p.ReadY2? || Critical(p)
  }

  predicate MarkRight(s: State, t: Thread) { Of(s, t).at.CheckMark? ==> s.mark == Name(t) - 1 }

  predicate Good(s: State, t: Thread) {
    FlagRight(Of(s, t)) && FastRight(s, t) && SlowRight(s, t) && Owned(s, t) && MarkRight(s, t)
  }

  predicate Inv(s: State) {
    Good(s, One) && Good(s, Two) && 0 <= s.y <= 2
  }

  lemma OwnPathKept(s: State, t: Thread)
    requires Inv(s)
    ensures FastRight(Next(s, t), t)
  {
  }

  lemma OwnSlowKept(s: State, t: Thread)
    requires Inv(s)
    ensures SlowRight(Next(s, t), t)
  {
  }

  lemma OwnFlagKept(s: State, t: Thread)
    requires Inv(s)
    ensures FlagRight(Of(Next(s, t), t))
  {
  }

  lemma OwnMarkKept(s: State, t: Thread)
    requires Inv(s)
    ensures MarkRight(Next(s, t), t)
  {
  }

  lemma OwnedKept(s: State, t: Thread)
    requires Inv(s)
    ensures Owned(Next(s, t), t)
  {
  }

  lemma OwnKept(s: State, t: Thread)
    requires Inv(s)
    ensures Good(Next(s, t), t)
  {
    hide FastRight, SlowRight, FlagRight, Owned, MarkRight, Next, Inv;
    OwnPathKept(s, t);
    OwnSlowKept(s, t);
    OwnFlagKept(s, t);
    OwnMarkKept(s, t);
    OwnedKept(s, t);
  }

  lemma OtherPathKept(s: State, t: Thread)
    requires Inv(s)
    ensures FastRight(Next(s, t), Other(t))
  {
  }

  lemma OtherSlowKept(s: State, t: Thread)
    requires Inv(s)
    ensures SlowRight(Next(s, t), Other(t))
  {
  }

  lemma OtherOwnedKept(s: State, t: Thread)
    requires Inv(s)
    ensures Owned(Next(s, t), Other(t))
  {
  }

  lemma OtherMarkKept(s: State, t: Thread)
    requires Inv(s)
    ensures MarkRight(Next(s, t), Other(t)) && 0 <= Next(s, t).y <= 2
  {
  }

  lemma OtherKept(s: State, t: Thread)
    requires Inv(s)
    ensures Good(Next(s, t), Other(t)) && 0 <= Next(s, t).y <= 2
  {
    OtherFlag(s, t);
    hide FastRight, SlowRight, FlagRight, Owned, MarkRight, Next, Inv;
    NextGoes(s, t);
    OtherPathKept(s, t);
    OtherSlowKept(s, t);
    OtherOwnedKept(s, t);
    OtherMarkKept(s, t);
  }

  lemma OtherFlag(s: State, t: Thread)
    requires Inv(s)
    ensures FlagRight(Of(s, Other(t)))
  {
  }

  /** Any step of either thread keeps the invariant. */
  lemma Preserved(s: State, t: Thread)
    requires Inv(s)
    ensures Inv(Next(s, t))
  {
    hide Good, Next;
    OwnKept(s, t);
    OtherKept(s, t);
  }

  lemma {:induction false} Always(schedule: seq<Thread>)
    ensures Inv(Run(schedule))
  {
    if schedule != [] {
      Always(schedule[..|schedule| - 1]);
      Preserved(Run(schedule[..|schedule| - 1]), schedule[|schedule| - 1]);
    }
  }

  // ---------------------------------------------------------------- what it gives

  /** In every run the threads are never both in the critical section, each finds there the mark that it has left, and
      neither assertion fails. */
  lemma MutualExclusion(schedule: seq<Thread>)
    ensures var s := Run(schedule);
      && !(Critical(s.one.at) && Critical(s.two.at))
      && (s.one.at == CheckMark ==> s.mark == 0) && (s.two.at == CheckMark ==> s.mark == 1)
      && s.one.at != Failed && s.two.at != Failed
  {
    Always(schedule);
    var s := Run(schedule);
    assert Fast(s, One) || Slow(s, One) || !Critical(s.one.at);
  }

  /** A thread that is done has been in its critical section. */
  lemma {:induction false} Served(schedule: seq<Thread>, t: Thread) returns (k: nat)
    requires var p := Of(Run(schedule), t).at; p == ClearY || p == ClearFlag || p == Done
    ensures k < |schedule| && Of(Run(schedule[..k]), t).at == CheckMark
  {
    var before := schedule[..|schedule| - 1];
    if Of(Run(before), t).at == CheckMark {
      k := |before|;
    } else {
      k := Served(before, t);
      assert before[..k] == schedule[..k];
    }
  }

  /** When both are done, y is free again and both flags are down. */
  lemma Finished(schedule: seq<Thread>)
    requires Run(schedule).one.at == Done && Run(schedule).two.at == Done
    ensures var s := Run(schedule); s.y == 0 && !s.one.flag && !s.two.flag
  {
    Always(schedule);
  }

  predicate Blocked(s: State, t: Thread) { Next(s, t) == s }

  /** In every run that is not over, some thread has a step that is not another round of its spin loop. */
  lemma NoDeadlock(schedule: seq<Thread>)
    ensures var s := Run(schedule);
      (s.one.at == Done && s.two.at == Done) || !Blocked(s, One) || !Blocked(s, Two)
  {
    Always(schedule);
  }

  // ---------------------------------------------------------------- every run ends

  /** The thread has given y back. */
  predicate Past(p: Place) { p == ClearFlag || p == Done }

  /** A thread that was turned away waits for the other to give y back, and nobody else takes its claim on y away. */
  predicate Waits(s: State, t: Thread) {
    var p, past := Of(s, t).at, Past(Of(s, Other(t)).at);
    && (p.LowerFlag? || p.SpinY? || p.SpinY2? ==> s.y == Name(Other(t)) || past)
    && (p.ReadX? || p.LowerFlag2? || p.AwaitOther? || p.ReadY2? ==> s.y != 0 || past)
  }

  lemma WaitsKept(s: State, t: Thread, u: Thread)
    requires Inv(s) && Waits(s, u)
    ensures Waits(Next(s, t), u)
  {
  }

  /** The most steps a thread takes before it leaves or is turned away, while the other has not given y back. */
  function Ahead(p: Place): int {
    match p
    case RaiseFlag => 12
    case WriteX => 11
    case ReadY => 10
    case WriteY => 9
    case ReadX => 8
    case LowerFlag2 => 7
    case AwaitOther => 6
    case ReadY2 => 5
    case LowerFlag => 5
    case SpinY => 4
    case SpinY2 => 4
    case WriteMark => 4
    case CheckMark => 3
    case ClearY => 2
    case ClearFlag => 1
    case Done => 0
    case Failed => 0
  }

  /** The same once the other has: it may still have to start again, but only once. */
  function Alone(s: State, t: Thread): int {
    var p, late := Of(s, t).at, if s.x == Name(t) then 0 else 10;
    match p
    case RaiseFlag => 11
    case WriteX => 10
    case ReadY => 9 + late
    case WriteY => 8 + late
    case ReadX => 7 + late
    case LowerFlag2 => 16
    case AwaitOther => 15
    case ReadY2 => 14
    case LowerFlag => 13
    case SpinY => 12
    case SpinY2 => 12
    case _ => Ahead(p)
  }

  function Left(s: State, t: Thread): int {
    if Past(Of(s, Other(t)).at) then Alone(s, t) else 20 + Ahead(Of(s, t).at)
  }

  lemma OwnShrinks(s: State, t: Thread)
    requires Inv(s) && Waits(s, t) && Next(s, t) != s
    ensures Left(Next(s, t), t) < Left(s, t)
  {
    if Past(Of(s, Other(t)).at) {
      AloneShrinks(s, t);
    } else {
      AheadShrinks(s, t);
    }
    hide Alone, Ahead, Inv, Waits;
  }

  lemma AheadShrinks(s: State, t: Thread)
    requires Inv(s) && Waits(s, t) && Next(s, t) != s && !Past(Of(s, Other(t)).at)
    ensures Ahead(Of(Next(s, t), t).at) < Ahead(Of(s, t).at) && Of(Next(s, t), Other(t)) == Of(s, Other(t))
  {
    NextGoes(s, t);
    hide Inv;
  }

  lemma AloneShrinks(s: State, t: Thread)
    requires Inv(s) && Waits(s, t) && Next(s, t) != s && Past(Of(s, Other(t)).at)
    ensures Alone(Next(s, t), t) < Alone(s, t) && Of(Next(s, t), Other(t)) == Of(s, Other(t))
  {
    NextGoes(s, t);
    hide FastRight, SlowRight, FlagRight, MarkRight;
  }

  lemma OtherNoLonger(s: State, t: Thread)
    requires Inv(s)
    ensures Left(Next(s, t), Other(t)) <= Left(s, Other(t))
  {
  }

  /** How many steps of a schedule were not another round of a spin loop, and not of a thread that is done. */
  function Effective(schedule: seq<Thread>): nat {
    if schedule == [] then 0 else
    var before, t := schedule[..|schedule| - 1], schedule[|schedule| - 1];
    Effective(before) + if Blocked(Run(before), t) then 0 else 1
  }

  lemma {:induction false} Spent(schedule: seq<Thread>)
    ensures var s := Run(schedule);
      Waits(s, One) && Waits(s, Two) && Effective(schedule) + Left(s, One) + Left(s, Two) <= 64
  {
    if schedule != [] {
      var before, t := schedule[..|schedule| - 1], schedule[|schedule| - 1];
      Spent(before);
      Always(before);
      var s := Run(before);
      hide Inv, Waits, Left, Next;
      WaitsKept(s, t, One);
      WaitsKept(s, t, Two);
      OtherNoLonger(s, t);
      if !Blocked(s, t) {
        OwnShrinks(s, t);
      }
    }
  }

  /** No run, however the spin loops and restarts interleave, has more than 64 steps that are not spinning; so with
      NoDeadlock every run in which no thread is forgotten ends with both threads done. */
  lemma EveryRunEnds(schedule: seq<Thread>)
    ensures Effective(schedule) <= 64
  {
    Spent(schedule);
  }
}
