/** Two threads racing to add the shared i and j (benchmarks/tacas16/fib-safe.c). */
module RacingFib {
  // One shared access per step, for any number of rounds and every interleaving.

  datatype Thread = First | Second

  /** A round: read j, read i, store the sum; the first thread stores into i, the second into j. */
  datatype Place = ReadJ | ReadI | Store | Done

  datatype Local = Local(at: Place, round: nat, t: int, s: int)

  /** `updates` counts the stores so far. */
  datatype State = State(i: int, j: int, updates: nat, one: Local, two: Local)

  function Fib(n: nat): (f: nat)
    ensures n >= 1 ==> f >= 1
  {
    if n < 2 then n else Fib(n - 1) + Fib(n - 2)
  }

  function Idle(rounds: nat): Local { Local(if rounds == 0 then Done else ReadJ, 0, 0, 0) }

  function Start(rounds: nat): State { State(1, 1, 0, Idle(rounds), Idle(rounds)) }

  function Of(s: State, t: Thread): Local { if t == First then s.one else s.two }
  function With(s: State, t: Thread, l: Local): State { if t == First then s.(one := l) else s.(two := l) }

  function Stored(s: State, t: Thread, v: int): State {
    if t == First then s.(i := v, updates := s.updates + 1) else s.(j := v, updates := s.updates + 1)
  }

  function Next(s: State, t: Thread, rounds: nat): State {
    var l := Of(s, t);
    match l.at
    case ReadJ => With(s, t, l.(at := ReadI, t := s.j))
    case ReadI => With(s, t, l.(at := Store, s := s.i + l.t))
    case Store => With(Stored(s, t, l.s), t,
                       l.(at := if l.round + 1 < rounds then ReadJ else Done, round := l.round + 1))
    case Done => s
  }

  function Run(rounds: nat, schedule: seq<Thread>): State {
    if schedule == [] then Start(rounds)
    else Next(Run(rounds, schedule[..|schedule| - 1]), schedule[|schedule| - 1], rounds)
  }

  // ---------------------------------------------------------------- the bound

  predicate CopiesBelow(s: State, l: Local) {
    && (l.at == ReadI ==> 0 <= l.t <= s.j)
    && (l.at == Store ==> 0 <= l.s <= s.i + s.j)
  }

  /** The first thread alone writes i, the second alone writes j, so shared values only grow. */
  predicate Growing(s: State) {
    && (s.one.at == Store ==> s.i <= s.one.s)
    && (s.two.at == ReadI ==> s.two.t == s.j)
    && (s.two.at == Store ==> s.j <= s.two.s)
  }

  predicate Inv(s: State, rounds: nat) {
    && CopiesBelow(s, s.one) && CopiesBelow(s, s.two) && Growing(s)
    && s.updates == s.one.round + s.two.round && s.one.round <= rounds && s.two.round <= rounds
    && (s.one.at != Done ==> s.one.round < rounds) && (s.two.at != Done ==> s.two.round < rounds)
    && 0 < s.i <= Fib(s.updates + 2) && 0 < s.j <= Fib(s.updates + 2) && s.i + s.j <= Fib(s.updates + 3)
  }

  lemma Preserved(s: State, t: Thread, rounds: nat)
    requires Inv(s, rounds)
    ensures Inv(Next(s, t, rounds), rounds)
  {
    FibSteps(s.updates);
    hide Fib;
  }

  lemma FibSteps(n: nat)
    ensures Fib(n + 4) == Fib(n + 3) + Fib(n + 2) && Fib(n + 3) >= Fib(n + 2)
  {
  }

  lemma {:induction false} Always(rounds: nat, schedule: seq<Thread>)
    ensures Inv(Run(rounds, schedule), rounds)
  {
    if schedule != [] {
      Always(rounds, schedule[..|schedule| - 1]);
      Preserved(Run(rounds, schedule[..|schedule| - 1]), schedule[|schedule| - 1], rounds);
    } else {
      assert Fib(2) == 1 && Fib(3) == 2;
    }
  }

  lemma {:induction false} FibMonotone(m: nat, n: nat)
    requires m <= n
    ensures Fib(m) <= Fib(n)
    decreases n
  {
    if m < n {
      FibMonotone(m, n - 1);
    }
  }

  /** After n stores neither value exceeds Fib(n + 2); so at no point of any run, stale copies or not,
      does either exceed Fib(2 * rounds + 2). */
  lemma Bounded(rounds: nat, schedule: seq<Thread>)
    ensures var s := Run(rounds, schedule);
      && s.i <= Fib(s.updates + 2) && s.j <= Fib(s.updates + 2) && s.updates <= 2 * rounds
      && s.i <= Fib(2 * rounds + 2) && s.j <= Fib(2 * rounds + 2)
  {
    hide Fib, Run;
    Always(rounds, schedule);
    FibMonotone(Run(rounds, schedule).updates + 2, 2 * rounds + 2);
  }

  // ---------------------------------------------------------------- the bound is attained

  const ROUND: seq<Thread> := [First, First, First, Second, Second, Second]

  /** The threads take whole rounds in turn. */
  function Alternating(n: nat): seq<Thread> {
    if n == 0 then [] else Alternating(n - 1) + ROUND
  }

  lemma RunAppend(rounds: nat, schedule: seq<Thread>, t: Thread)
    ensures Run(rounds, schedule + [t]) == Next(Run(rounds, schedule), t, rounds)
  {
    assert (schedule + [t])[..|schedule|] == schedule;
  }

  lemma RunRound(rounds: nat, s: seq<Thread>)
    ensures Run(rounds, s + ROUND) == AfterRound(Run(rounds, s), rounds)
  {
    hide Run, Next;
    RoundSpelled(s);
    RunAppend(rounds, s, First);
    RunAppend(rounds, s + [First], First);
    RunAppend(rounds, s + [First] + [First], First);
    RunAppend(rounds, s + [First] + [First] + [First], Second);
    RunAppend(rounds, s + [First] + [First] + [First] + [Second], Second);
    RunAppend(rounds, s + [First] + [First] + [First] + [Second] + [Second], Second);
  }

  lemma RoundSpelled(s: seq<Thread>)
    ensures s + ROUND == s + [First] + [First] + [First] + [Second] + [Second] + [Second]
  {
  }

  function AfterRound(s: State, rounds: nat): State {
    var s1 := Next(Next(Next(s, First, rounds), First, rounds), First, rounds);
    Next(Next(Next(s1, Second, rounds), Second, rounds), Second, rounds)
  }

  lemma {:induction false} Attained(rounds: nat, n: nat)
    requires n <= rounds
    ensures var s := Run(rounds, Alternating(n));
      && s.i == Fib(2 * n + 1) && s.j == Fib(2 * n + 2)
      && s.one.round == n && s.two.round == n
      && s.one.at == s.two.at == if n < rounds then ReadJ else Done
  {
    if n == 0 {
      assert Fib(1) == 1 && Fib(2) == 1;
    } else {
      Attained(rounds, n - 1);
      RunRound(rounds, Alternating(n - 1));
      var f := 2 * n;
      assert Fib(f + 1) == Fib(f) + Fib(f - 1) && Fib(f + 2) == Fib(f + 1) + Fib(f);
      hide Fib;
    }
  }

  /** The strictly alternating run finishes both threads with j exactly at the bound. */
  lemma BoundIsTight(rounds: nat)
    ensures var s := Run(rounds, Alternating(rounds));
      s.one.at == Done && s.two.at == Done && s.j == Fib(2 * rounds + 2)
  {
    Attained(rounds, rounds);
  }

  /** The benchmark's constants: five rounds never exceed 144 (so fib-safe is safe), and some run reaches
      144 (so fib-unsafe is not). */
  lemma FiveRounds(schedule: seq<Thread>)
    ensures Run(5, schedule).i <= 144 && Run(5, schedule).j <= 144
    ensures Run(5, Alternating(5)).j == 144 && Run(5, Alternating(5)).one.at == Run(5, Alternating(5)).two.at == Done
  {
    Bounded(5, schedule);
    BoundIsTight(5);
    assert Fib(2) == 1 && Fib(3) == 2 && Fib(4) == 3 && Fib(5) == 5 && Fib(6) == 8 && Fib(7) == 13;
    assert Fib(8) == 21 && Fib(9) == 34 && Fib(10) == 55 && Fib(11) == 89 && Fib(12) == 144;
  }
}
