/** The two-thread subtractive greatest common divisor, for all positive inputs and all interleavings. */
module ParallelGcd {
  // benchmarks/tacas16/svcomp16/gcd_true-unreach-call_true-termination.c, one shared access per step.

  import opened Arithmetic

  datatype Side = A | B

  /** Where a thread is; line numbers of dec_a. */
  datatype Place =
    | Load       // 101 and 110: read its own variable
    | TestEqual  // 102: read the other's variable
    | TestAbove  // 105: read the other's variable
    | LoadOther  // 107: read the other's variable
    | Store      // 108: write its own variable
    | Done

  /** `mine` is the copy of the thread's own variable, `theirs` of the other's. */
  datatype Local = Local(at: Place, mine: int, theirs: int)

  /** The two shared variables, the two threads, and how many stores there have been. */
  datatype State = State(a: int, b: int, left: Local, right: Local, writes: nat)

  function Own(s: State, t: Side): int { if t == A then s.a else s.b }
  function Foreign(s: State, t: Side): int { if t == A then s.b else s.a }
  function Of(s: State, t: Side): Local { if t == A then s.left else s.right }
  function With(s: State, t: Side, l: Local): State { if t == A then s.(left := l) else s.(right := l) }
  function Go(s: State, t: Side, p: Place): State { With(s, t, Of(s, t).(at := p)) }

  function Written(s: State, t: Side, v: int): State {
    if t == A then s.(a := v, writes := s.writes + 1) else s.(b := v, writes := s.writes + 1)
  }

  function Next(s: State, t: Side): State {
    var l := Of(s, t);
    match l.at
    case Load => With(s, t, l.(at := TestEqual, mine := Own(s, t)))
    case TestEqual => Go(s, t, if l.mine != Foreign(s, t) then TestAbove else Done)
    case TestAbove => Go(s, t, if l.mine > Foreign(s, t) then LoadOther else Load)
    case LoadOther => With(s, t, l.(at := Store, theirs := Foreign(s, t)))
    case Store => Go(Written(s, t, l.mine - l.theirs), t, Load)
    case Done => s
  }

  function Start(a: int, b: int): State { State(a, b, Local(Load, 0, 0), Local(Load, 0, 0), 0) }

  function Run(a: int, b: int, schedule: seq<Side>): State {
    if schedule == [] then Start(a, b) else Next(Run(a, b, schedule[..|schedule| - 1]), schedule[|schedule| - 1])
  }

  // ---------------------------------------------------------------- divisors

  predicate Divides(d: int, n: int)
    requires d > 0
  {
    n % d == 0
  }

  ghost predicate SameDivisors(a: int, b: int, a': int, b': int) {
    forall d {:trigger Common(d, a, b)} {:trigger Common(d, a', b')} :: d > 0 ==>
      (Common(d, a, b) <==> Common(d, a', b'))
  }

  predicate Common(d: int, a: int, b: int)
    requires d > 0
  {
    Divides(d, a) && Divides(d, b)
  }

  /** `g` divides both numbers and every common divisor divides `g`. */
  ghost predicate IsGcd(g: int, a: int, b: int) {
    g > 0 && Common(g, a, b) && forall d {:trigger Common(d, a, b)} :: d > 0 && Common(d, a, b) ==> Divides(d, g)
  }

  lemma Subtracted(a: int, b: int, d: int)
    requires d > 0 && Divides(d, b)
    ensures Divides(d, a) <==> Divides(d, a - b)
  {
    var k := b / d;
    assert b == k * d;
    Shifted(a, k, d);
  }

  lemma Shifted(a: int, k: int, d: int)
    requires d > 0
    ensures a % d == (a - k * d) % d
  {
    var q, r := a / d, a % d;
    assert a - k * d == (q - k) * d + r;
    Division(a - k * d, d, q - k, r);
  }

  lemma SubtractKeeps(a: int, b: int)
    ensures SameDivisors(a, b, a - b, b) && SameDivisors(b, a, b, a - b)
  {
    forall d | d > 0 ensures (Common(d, a, b) <==> Common(d, a - b, b)) && (Common(d, b, a) <==> Common(d, b, a - b)) {
      if Divides(d, b) {
        Subtracted(a, b, d);
      }
    }
  }

  // ---------------------------------------------------------------- the invariant

  predicate Past(p: Place) { p == LoadOther || p == Store }

  /** What holds of thread `t`: its copies are good, and past the comparison its number is the larger. */
  predicate Right(s: State, t: Side) {
    var l := Of(s, t);
    && (l.at != Load && l.at != Done ==> l.mine == Own(s, t))
    && (Past(l.at) ==> Own(s, t) > Foreign(s, t))
    && (l.at == Store ==> l.theirs == Foreign(s, t))
    && (l.at == Done ==> s.a == s.b)
  }

  ghost predicate Inv(a: int, b: int, s: State) {
    && Right(s, A) && Right(s, B)
    && s.a > 0 && s.b > 0 && s.a + s.b + s.writes <= a + b
    && SameDivisors(a, b, s.a, s.b)
  }

  lemma RightKept(s: State, t: Side)
    requires Right(s, A) && Right(s, B) && s.a > 0 && s.b > 0
    ensures Right(Next(s, t), A) && Right(Next(s, t), B)
    ensures Next(s, t).a > 0 && Next(s, t).b > 0
    ensures Next(s, t).a + Next(s, t).b + Next(s, t).writes <= s.a + s.b + s.writes
  {
  }

  lemma DivisorsKept(s: State, t: Side)
    requires Right(s, A) && Right(s, B)
    ensures SameDivisors(s.a, s.b, Next(s, t).a, Next(s, t).b)
  {
    SubtractKeeps(s.a, s.b);
    SubtractKeeps(s.b, s.a);
  }

  lemma {:induction false} Always(a: int, b: int, schedule: seq<Side>)
    requires a > 0 && b > 0
    ensures Inv(a, b, Run(a, b, schedule))
  {
    if schedule != [] {
      var s, t := Run(a, b, schedule[..|schedule| - 1]), schedule[|schedule| - 1];
      Always(a, b, schedule[..|schedule| - 1]);
      RightKept(s, t);
      DivisorsKept(s, t);
    }
  }

  // ---------------------------------------------------------------- what it gives

  /** In every run the threads are never both past their comparison, both numbers stay positive, and
      there are at most a + b - 2 stores. */
  lemma Safe(a: int, b: int, schedule: seq<Side>)
    requires a > 0 && b > 0
    ensures var s := Run(a, b, schedule);
      && !(Past(s.left.at) && Past(s.right.at))
      && s.a > 0 && s.b > 0 && s.writes <= a + b - 2
      && SameDivisors(a, b, s.a, s.b)
  {
    Always(a, b, schedule);
  }

  /** When both threads have left, both numbers are the greatest common divisor. */
  lemma FinallyGcd(a: int, b: int, schedule: seq<Side>)
    requires a > 0 && b > 0
    requires Run(a, b, schedule).left.at == Done && Run(a, b, schedule).right.at == Done
    ensures var s := Run(a, b, schedule); s.a == s.b && IsGcd(s.a, a, b)
  {
    Always(a, b, schedule);
    var g := Run(a, b, schedule).a;
    assert Common(g, g, g);
    forall d | d > 0 && Common(d, a, b) ensures Divides(d, g) {
      assert Common(d, g, g);
    }
  }

  /** The benchmark's own assertion: 12 and 30 end as 6. */
  lemma TwelveAndThirty(schedule: seq<Side>)
    requires Run(12, 30, schedule).left.at == Done && Run(12, 30, schedule).right.at == Done
    ensures Run(12, 30, schedule).a == 6 && Run(12, 30, schedule).b == 6
  {
    FinallyGcd(12, 30, schedule);
    var g := Run(12, 30, schedule).a;
    assert Common(6, 12, 30);
    assert g % 6 == 0 && 12 % g == 0 && 30 % g == 0;
    Small(g);
  }

  lemma Small(g: int)
    requires g > 0 && g % 6 == 0 && 12 % g == 0 && 30 % g == 0
    ensures g == 6
  {
    assert g <= 12;
  }

  // ---------------------------------------------------------------- fair runs end

  /** Steps from any state. */
  function Exec(s: State, r: seq<Side>): State {
    if r == [] then s else Next(Exec(s, r[..|r| - 1]), r[|r| - 1])
  }

  function Turns(r: seq<Side>, t: Side): nat {
    if r == [] then 0 else Turns(r[..|r| - 1], t) + if r[|r| - 1] == t then 1 else 0
  }

  predicate Sound(s: State) { Right(s, A) && Right(s, B) && s.a > 0 && s.b > 0 }

  predicate Over(s: State) { s.left.at == Done && s.right.at == Done }

  lemma {:induction false} ExecSound(s: State, r: seq<Side>)
    requires Sound(s)
    ensures Sound(Exec(s, r)) && Exec(s, r).writes >= s.writes
  {
    if r != [] {
      ExecSound(s, r[..|r| - 1]);
      RightKept(Exec(s, r[..|r| - 1]), r[|r| - 1]);
    }
  }

  /** How many of its own steps a thread is from its store, if its number is the larger. */
  function ToStore(p: Place): int {
    match p
    case Load => 5
    case TestEqual => 4
    case TestAbove => 3
    case LoadOther => 2
    case Store => 1
    case Done => 0
  }

  /** How many it is from leaving, if the numbers are equal. */
  function ToDone(p: Place): int {
    match p
    case TestAbove => 3
    case Load => 2
    case TestEqual => 1
    case _ => 0
  }

  /** While the numbers differ and nothing is stored, the thread with the larger one comes closer to storing. */
  lemma {:induction false} Approaches(s: State, r: seq<Side>, t: Side)
    requires Sound(s) && Own(s, t) > Foreign(s, t)
    ensures var e := Exec(s, r);
      e.writes > s.writes || (e.a == s.a && e.b == s.b && ToStore(Of(e, t).at) + Turns(r, t) <= ToStore(Of(s, t).at))
  {
    if r != [] {
      var front := r[..|r| - 1];
      Approaches(s, front, t);
      ExecSound(s, front);
      ApproachStep(Exec(s, front), r[|r| - 1], t);
    }
  }

  lemma ApproachStep(e: State, u: Side, t: Side)
    requires Sound(e)
    ensures var n := Next(e, u);
      n.writes > e.writes || (n.writes == e.writes && n.a == e.a && n.b == e.b
        && (Own(e, t) > Foreign(e, t) ==> ToStore(Of(n, t).at) <= ToStore(Of(e, t).at) - if u == t then 1 else 0))
  {
  }

  /** Once the numbers are equal nothing changes but the threads leaving. */
  lemma {:induction false} Leaves(s: State, r: seq<Side>, t: Side)
    requires Sound(s) && s.a == s.b
    ensures var e := Exec(s, r);
      && e.a == e.b
      && ToDone(Of(e, t).at) <= (if Turns(r, t) >= ToDone(Of(s, t).at) then 0 else ToDone(Of(s, t).at) - Turns(r, t))
  {
    if r != [] {
      var front := r[..|r| - 1];
      Leaves(s, front, t);
      ExecSound(s, front);
    }
  }

  /** A round in which each thread has five turns stores something, or both threads have left. */
  lemma RoundCounts(s: State, r: seq<Side>)
    requires Sound(s) && Turns(r, A) >= 5 && Turns(r, B) >= 5
    ensures Exec(s, r).writes > s.writes || Over(Exec(s, r))
  {
    ExecSound(s, r);
    if s.a == s.b {
      Leaves(s, r, A);
      Leaves(s, r, B);
    } else {
      var t := if s.a > s.b then A else B;
      Approaches(s, r, t);
    }
  }

  predicate Fair(rounds: seq<seq<Side>>) {
    forall i :: 0 <= i < |rounds| ==> Turns(rounds[i], A) >= 5 && Turns(rounds[i], B) >= 5
  }

  function Flat(rounds: seq<seq<Side>>): seq<Side> {
    if rounds == [] then [] else Flat(rounds[..|rounds| - 1]) + rounds[|rounds| - 1]
  }

  lemma {:induction false} ExecConcat(s: State, q: seq<Side>, r: seq<Side>)
    ensures Exec(s, q + r) == Exec(Exec(s, q), r)
    decreases |r|
  {
    if r == [] {
      assert q + r == q;
    } else {
      ExecConcat(s, q, r[..|r| - 1]);
      assert (q + r)[..|q + r| - 1] == q + r[..|r| - 1];
    }
  }

  lemma {:induction false} OverStays(s: State, r: seq<Side>)
    requires Over(s)
    ensures Over(Exec(s, r))
  {
    if r != [] {
      OverStays(s, r[..|r| - 1]);
    }
  }

  lemma {:induction false} RoundsCount(s: State, rounds: seq<seq<Side>>)
    requires Sound(s) && Fair(rounds)
    ensures Exec(s, Flat(rounds)).writes >= s.writes + |rounds| || Over(Exec(s, Flat(rounds)))
    decreases |rounds|
  {
    if rounds != [] {
      var front, r := rounds[..|rounds| - 1], rounds[|rounds| - 1];
      RoundsCount(s, front);
      ExecSound(s, Flat(front));
      ExecConcat(s, Flat(front), r);
      RoundCounts(Exec(s, Flat(front)), r);
      if Over(Exec(s, Flat(front))) {
        OverStays(Exec(s, Flat(front)), r);
      }
    }
  }

  lemma {:induction false} RunIsExec(a: int, b: int, r: seq<Side>)
    ensures Run(a, b, r) == Exec(Start(a, b), r)
  {
    if r != [] {
      RunIsExec(a, b, r[..|r| - 1]);
    }
  }

  /** Termination: a run of a + b - 1 rounds, each giving every thread five turns in any order, has ended, with the
      greatest common divisor in both numbers. */
  lemma FairRunsEnd(a: int, b: int, rounds: seq<seq<Side>>)
    requires a > 0 && b > 0 && Fair(rounds) && |rounds| >= a + b - 1
    ensures var s := Run(a, b, Flat(rounds)); Over(s) && s.a == s.b && IsGcd(s.a, a, b)
  {
    var r := Flat(rounds);
    hide Next, Exec, Flat, Fair;
    Safe(a, b, r);
    RunIsExec(a, b, r);
    RoundsCount(Start(a, b), rounds);
    FinallyGcd(a, b, r);
  }
}
