/** The bounded queue of benchmarks/basic/findmax.c between a producer and a consumer. */
module BoundedQueue {
  // For any capacity, any items and every interleaving.  A statement on the shared data, which the mutex
  // protects, is one step.

  datatype Who = Nobody | Producer | Consumer

  /** queue_insert, lines 27-39. */
  datatype PPlace = PLock | PTest | PCell | PSize | PUnlock | PDone

  /** queue_extract, lines 47-61, and the store of line 105. */
  datatype CPlace = CLock | CTest | CHead | CSize | CShift | CUnlock | CSave | CDone

  /** `sent` counts the items inserted; `done` is the variable of line 24. */
  datatype PLocal = PLocal(at: PPlace, sent: nat, done: bool)

  /** `sorted` is what has been stored; `done`, `x` and `i` are the variables of lines 44-45. */
  datatype CLocal = CLocal(at: CPlace, done: bool, x: int, i: nat, sorted: seq<int>)

  datatype State = State(q: seq<int>, qsiz: int, mutex: Who, prod: PLocal, cons: CLocal)

  predicate Shaped(cap: nat, items: seq<int>, s: State) {
    && |s.q| == cap && 0 <= s.qsiz <= cap && s.prod.sent <= |items| && |s.cons.sorted| <= |items|
    && (s.prod.at != PDone ==> s.prod.sent < |items|)
    && (s.prod.at == PCell || s.prod.at == PSize ==> s.qsiz < cap)
    && (s.cons.at == CHead || s.cons.at == CSize ==> s.qsiz > 0)
    && (s.cons.at == CShift ==> s.cons.i <= s.qsiz < cap)
  }

  function Start(cap: nat, items: seq<int>): State {
    State(seq(cap, _ => 0), 0, Nobody, PLocal(if items == [] then PDone else PLock, 0, false),
          CLocal(if items == [] then CDone else CLock, false, 0, 0, []))
  }

  function NextP(cap: nat, items: seq<int>, s: State): State
    requires Shaped(cap, items, s)
  {
    var p := s.prod;
    match p.at
    case PLock => if s.mutex != Nobody then s else s.(mutex := Producer, prod := p.(at := PTest, done := false))
    case PTest => s.(prod := p.(at := if s.qsiz < cap then PCell else PUnlock))
    case PCell => s.(q := s.q[s.qsiz := items[p.sent]], prod := p.(at := PSize, done := true))
    case PSize => s.(qsiz := s.qsiz + 1, prod := p.(at := PUnlock))
    case PUnlock =>
      if !p.done then s.(mutex := Nobody, prod := p.(at := PLock))
      else s.(mutex := Nobody, prod := PLocal(if p.sent + 1 < |items| then PLock else PDone, p.sent + 1, false))
    case PDone => s
  }

  function NextC(cap: nat, items: seq<int>, s: State): State
    requires Shaped(cap, items, s)
  {
    var c := s.cons;
    match c.at
    case CLock => if s.mutex != Nobody then s else s.(mutex := Consumer, cons := c.(at := CTest, done := false))
    case CTest => s.(cons := c.(at := if s.qsiz > 0 then CHead else CUnlock))
    case CHead => s.(cons := c.(at := CSize, done := true, x := s.q[0]))
    case CSize => s.(qsiz := s.qsiz - 1, cons := c.(at := CShift, i := 0))
    case CShift =>
      if c.i < s.qsiz then s.(q := s.q[c.i := s.q[c.i + 1]], cons := c.(i := c.i + 1))
      else s.(cons := c.(at := CUnlock))
    case CUnlock => s.(mutex := Nobody, cons := c.(at := if c.done then CSave else CLock))
    case CSave => s.(cons :=
                     c.(at := if |c.sorted| + 1 < |items| then CLock else CDone, done := false,
                        sorted := c.sorted + [c.x]))
    case CDone => s
  }

  // ---------------------------------------------------------------- the invariant

  predicate ProducerInside(p: PPlace) { p == PTest || p == PCell || p == PSize || p == PUnlock }
  predicate ConsumerInside(p: CPlace) { p == CTest || p == CHead || p == CSize || p == CShift || p == CUnlock }

  predicate Exclusive(s: State) {
    && (s.mutex == Producer <==> ProducerInside(s.prod.at))
    && (s.mutex == Consumer <==> ConsumerInside(s.cons.at))
  }

  /** What the consumer has taken out so far. */
  function Taken(s: State): seq<int> { if s.cons.done then s.cons.sorted + [s.cons.x] else s.cons.sorted }

  /** The first `n + 1` cells but cell `i`. */
  function Without(q: seq<int>, i: nat, n: nat): seq<int>
    requires i <= n < |q|
  {
    q[..i] + q[i + 1..n + 1]
  }

  /** What is in the queue, whatever the consumer is in the middle of. */
  function Contents(s: State): seq<int>
    requires 0 <= s.qsiz <= |s.q| && (s.cons.at == CShift ==> s.cons.i <= s.qsiz < |s.q|)
    requires (s.cons.at == CSize ==> s.qsiz > 0)
  {
    if s.cons.at == CSize then Without(s.q, 0, s.qsiz - 1)
    else if s.cons.at == CShift then Without(s.q, s.cons.i, s.qsiz)
    else s.q[..s.qsiz]
  }

  /** What has been put in. */
  function Inserted(items: seq<int>, s: State): seq<int>
    requires s.prod.sent <= |items| && (s.prod.at != PDone ==> s.prod.sent < |items|)
  {
    if s.prod.at == PUnlock && s.prod.done then items[..s.prod.sent + 1] else items[..s.prod.sent]
  }

  predicate Steady(items: seq<int>, s: State)
    requires s.prod.sent <= |items| && (s.prod.at != PDone ==> s.prod.sent < |items|) && |s.q| >= s.qsiz >= 0
  {
    && (s.cons.done <==>
        s.cons.at == CSize || s.cons.at == CShift || s.cons.at == CSave || (s.cons.at == CUnlock && s.cons.done))
    && (s.prod.done ==> s.prod.at == PSize || s.prod.at == PUnlock)
    && (s.prod.at == PSize ==> s.prod.done && s.qsiz < |s.q| && s.q[s.qsiz] == items[s.prod.sent])
    && (s.cons.at == CDone <==> |s.cons.sorted| == |items|)
    && (s.prod.at == PDone <==> s.prod.sent == |items|)
  }

  predicate Inv(cap: nat, items: seq<int>, s: State) {
    && Shaped(cap, items, s) && Exclusive(s) && Steady(items, s)
    && Taken(s) + Contents(s) == Inserted(items, s)
  }

  /** What a step of the producer does to the queue and to what was put in: nothing, or one item more in both. */
  lemma ProducerMoves(cap: nat, items: seq<int>, s: State)
    requires Inv(cap, items, s)
    ensures var n := NextP(cap, items, s);
      && Shaped(cap, items, n) && Taken(n) == Taken(s)
      && if s.prod.at == PSize
         then Contents(n) == Contents(s) + [items[s.prod.sent]] &&
           Inserted(items, n) == Inserted(items, s) + [items[s.prod.sent]]
         else Contents(n) == Contents(s) && Inserted(items, n) == Inserted(items, s)
  {
    hide Without;
    assert s.prod.at == PCell || s.prod.at == PSize ==> !ConsumerInside(s.cons.at);
    if s.prod.at == PCell {
      CellStored(s.q, s.qsiz, items[s.prod.sent]);
    } else if s.prod.at == PSize {
      OneLonger(s.q, s.qsiz);
      OneLonger(items, s.prod.sent);
    }
  }

  lemma CellStored(q: seq<int>, n: nat, x: int)
    requires n < |q|
    ensures q[n := x][..n] == q[..n]
  {
  }

  lemma OneLonger(q: seq<int>, n: nat)
    requires n < |q|
    ensures q[..n + 1] == q[..n] + [q[n]]
  {
  }

  lemma ProducerSteady(cap: nat, items: seq<int>, s: State)
    requires Inv(cap, items, s)
    ensures var n := NextP(cap, items, s); Shaped(cap, items, n) && Exclusive(n) && Steady(items, n)
  {
    hide Taken, Contents, Inserted;
  }

  lemma ProducerKeeps(cap: nat, items: seq<int>, s: State)
    requires Inv(cap, items, s)
    ensures Inv(cap, items, NextP(cap, items, s))
  {
    ProducerMoves(cap, items, s);
    ProducerSteady(cap, items, s);
    hide NextP, Taken, Contents, Inserted, Exclusive, Steady;
    if s.prod.at == PSize {
      assert Taken(s) + (Contents(s) + [items[s.prod.sent]]) == Taken(s) + Contents(s) + [items[s.prod.sent]];
    }
  }

  lemma HeadTaken(t: seq<int>, q: seq<int>, n: nat)
    requires 0 < n <= |q|
    ensures t + q[..n] == t + [q[0]] + Without(q, 0, n - 1)
  {
  }

  lemma ShiftStep(q: seq<int>, i: nat, n: nat)
    requires i < n < |q|
    ensures Without(q[i := q[i + 1]], i + 1, n) == Without(q, i, n)
  {
  }

  lemma ShiftEnds(q: seq<int>, n: nat)
    requires n < |q|
    ensures Without(q, n, n) == q[..n]
  {
  }

  lemma ConsumerShaped(cap: nat, items: seq<int>, s: State)
    requires Inv(cap, items, s)
    ensures Shaped(cap, items, NextC(cap, items, s))
  {
    TakenFits(cap, items, s);
    hide Taken, Contents, Inserted;
  }

  lemma HeadMoves(cap: nat, items: seq<int>, s: State)
    requires Shaped(cap, items, s) && s.cons.at == CHead && !s.cons.done
    ensures var n := NextC(cap, items, s); Taken(n) + Contents(n) == Taken(s) + Contents(s)
  {
    hide Without;
    HeadTaken(s.cons.sorted, s.q, s.qsiz);
  }

  lemma ShiftMoves(cap: nat, items: seq<int>, s: State)
    requires Shaped(cap, items, s) && (s.cons.at == CSize || s.cons.at == CShift)
    requires Shaped(cap, items, NextC(cap, items, s))
    ensures Contents(NextC(cap, items, s)) == Contents(s)
  {
    hide Without;
    if s.cons.at == CShift {
      if s.cons.i < s.qsiz {
        ShiftStep(s.q, s.cons.i, s.qsiz);
      } else {
        ShiftEnds(s.q, s.qsiz);
      }
    }
  }

  /** Taking an item out, whatever the step, moves it from the queue to what was taken and changes nothing else. */
  lemma ConsumerMoves(cap: nat, items: seq<int>, s: State)
    requires Inv(cap, items, s)
    ensures var n := NextC(cap, items, s);
      Shaped(cap, items, n) && Taken(n) + Contents(n) == Taken(s) + Contents(s)
  {
    ConsumerShaped(cap, items, s);
    if s.cons.at == CHead {
      HeadMoves(cap, items, s);
    } else if s.cons.at == CSize || s.cons.at == CShift {
      ShiftMoves(cap, items, s);
    } else {
      hide Inserted;
      assert Taken(NextC(cap, items, s)) == Taken(s);
    }
  }

  lemma ConsumerKeeps(cap: nat, items: seq<int>, s: State)
    requires Inv(cap, items, s)
    ensures Inv(cap, items, NextC(cap, items, s))
  {
    ConsumerMoves(cap, items, s);
    hide Taken, Contents;
    TakenFits(cap, items, s);
  }

  lemma TakenFits(cap: nat, items: seq<int>, s: State)
    requires Inv(cap, items, s)
    ensures s.cons.done ==> |s.cons.sorted| < |items|
  {
    assert |Taken(s) + Contents(s)| <= |items|;
  }

  // ---------------------------------------------------------------- every run

  function Next(cap: nat, items: seq<int>, s: State, who: bool): State
    requires Shaped(cap, items, s)
  {
    if who then NextP(cap, items, s) else NextC(cap, items, s)
  }

  /** A run under a schedule: true for a step of the producer. */
  function Run(cap: nat, items: seq<int>, schedule: seq<bool>): (s: State)
    ensures Inv(cap, items, s)
  {
    if schedule == [] then StartRight(cap, items); Start(cap, items)
    else
      var s := Run(cap, items, schedule[..|schedule| - 1]);
      ProducerKeeps(cap, items, s);
      ConsumerKeeps(cap, items, s);
      Next(cap, items, s, schedule[|schedule| - 1])
  }

  lemma StartRight(cap: nat, items: seq<int>)
    ensures Inv(cap, items, Start(cap, items))
  {
  }

  /** In every run, whenever nobody has the mutex, what was taken out followed by what is in the queue is
      what was put in, in order; and the queue is never over- or underfull. */
  lemma InOrder(cap: nat, items: seq<int>, schedule: seq<bool>)
    ensures var s := Run(cap, items, schedule);
      && 0 <= s.qsiz <= cap && |s.q| == cap && s.prod.sent <= |items|
      && (s.mutex == Nobody ==> Taken(s) + s.q[..s.qsiz] == items[..s.prod.sent])
      && s.cons.sorted <= items
  {
    var s := Run(cap, items, schedule);
    assert s.cons.sorted <= Taken(s) + Contents(s);
  }

  /** When the consumer has finished, it has stored exactly the items. */
  lemma AllDelivered(cap: nat, items: seq<int>, schedule: seq<bool>)
    requires Run(cap, items, schedule).cons.at == CDone
    ensures Run(cap, items, schedule).cons.sorted == items
  {
    InOrder(cap, items, schedule);
  }

  // ---------------------------------------------------------------- no run gets stuck

  /** How far the producer is from putting its item in, or from giving the mutex back. */
  function ProducerLeft(cap: nat, s: State): int {
    match s.prod.at
    case PLock => 4
    case PTest => if s.qsiz < cap then 3 else 6
    case PCell => 2
    case PSize => 1
    case PUnlock => 5
    case PDone => 0
  }

  /** How far the consumer is from taking an item out, or from storing it. */
  function ConsumerLeft(s: State): int {
    match s.cons.at
    case CLock => 4
    case CTest => if s.qsiz > 0 then 3 else 7
    case CHead => 2
    case CSize => 8 + s.qsiz
    case CShift => 7 + s.qsiz - s.cons.i
    case CUnlock => 6
    case CSave => 5
    case CDone => 0
  }

  function ToInsert(items: seq<int>, s: State): int
    requires s.prod.sent <= |items| && (s.prod.at != PDone ==> s.prod.sent < |items|)
  {
    |items| - |Inserted(items, s)|
  }

  function ToTake(items: seq<int>, s: State): int { |items| - |Taken(s)| }

  function Left(cap: nat, items: seq<int>, s: State): int
    requires Inv(cap, items, s)
  {
    6 * ToInsert(items, s) + ProducerLeft(cap, s) + (cap + 7) * ToTake(items, s) + ConsumerLeft(s)
  }

  /** Whose turn brings the end nearer: whoever has the mutex, and otherwise the one who finds something to do. */
  function Turn(s: State): bool {
    if s.mutex == Nobody then s.cons.at != CSave && s.qsiz == 0 else s.mutex == Producer
  }

  lemma SomethingLeft(cap: nat, items: seq<int>, s: State)
    requires Inv(cap, items, s)
    ensures ToInsert(items, s) >= 0 && ToTake(items, s) >= 0 && ProducerLeft(cap, s) >= 0 && ConsumerLeft(s) >= 0
  {
    assert |Taken(s) + Contents(s)| <= |items|;
  }

  lemma Product(a: int, b: int)
    requires a >= 0 && b >= 0
    ensures a * b >= 0
  {
  }

  lemma LeftPositive(cap: nat, items: seq<int>, s: State)
    requires Inv(cap, items, s)
    ensures Left(cap, items, s) >= 0
  {
    hide Inv, ToInsert, ToTake, ProducerLeft, ConsumerLeft;
    SomethingLeft(cap, items, s);
    Product(cap + 7, ToTake(items, s));
  }

  /** With an empty queue and a free mutex, the producer has something left to send. */
  lemma ProducerHasMore(cap: nat, items: seq<int>, s: State)
    requires Inv(cap, items, s) && s.cons.at != CDone && Turn(s)
    ensures s.prod.at != PDone
  {
    if s.mutex == Nobody {
      assert |Taken(s) + Contents(s)| == |s.cons.sorted|;
    }
  }

  lemma ProducerNears(cap: nat, items: seq<int>, s: State)
    requires Inv(cap, items, s) && Inv(cap, items, NextP(cap, items, s)) && s.prod.at != PDone && Turn(s) && cap > 0
    ensures Left(cap, items, NextP(cap, items, s)) < Left(cap, items, s)
  {
    ProducerPuts(cap, items, s);
    hide Inv, NextP, ToInsert, ToTake, ProducerLeft, ConsumerLeft, Turn;
  }

  lemma ProducerPuts(cap: nat, items: seq<int>, s: State)
    requires Inv(cap, items, s) && Inv(cap, items, NextP(cap, items, s)) && s.prod.at != PDone && Turn(s) && cap > 0
    ensures var s' := NextP(cap, items, s);
      && ToTake(items, s') == ToTake(items, s) && ConsumerLeft(s') == ConsumerLeft(s)
      && if s.prod.at == PSize
         then ToInsert(items, s') == ToInsert(items, s) - 1 && ProducerLeft(cap, s') <= ProducerLeft(cap, s) + 4
         else ToInsert(items, s') == ToInsert(items, s) && ProducerLeft(cap, s') < ProducerLeft(cap, s)
  {
    ProducerMoves(cap, items, s);
  }

  lemma ConsumerNears(cap: nat, items: seq<int>, s: State)
    requires Inv(cap, items, s) && Inv(cap, items, NextC(cap, items, s)) && s.cons.at != CDone && !Turn(s)
    ensures Left(cap, items, NextC(cap, items, s)) < Left(cap, items, s)
  {
    ConsumerTakes(cap, items, s);
    hide Inv, NextC, ToInsert, ToTake, ProducerLeft, ConsumerLeft, Turn;
    var s' := NextC(cap, items, s);
    if s.cons.at == CHead {
      assert (cap + 7) * ToTake(items, s) == (cap + 7) * ToTake(items, s') + (cap + 7);
    }
  }

  lemma ConsumerTakes(cap: nat, items: seq<int>, s: State)
    requires Inv(cap, items, s) && Inv(cap, items, NextC(cap, items, s)) && s.cons.at != CDone && !Turn(s)
    ensures var s' := NextC(cap, items, s);
      && ToInsert(items, s') == ToInsert(items, s) && ProducerLeft(cap, s') <= ProducerLeft(cap, s)
      && if s.cons.at == CHead
         then ToTake(items, s') == ToTake(items, s) - 1 && ConsumerLeft(s') <= ConsumerLeft(s) + cap + 6
         else ToTake(items, s') == ToTake(items, s) && ConsumerLeft(s') < ConsumerLeft(s)
  {
  }

  lemma TurnTaken(cap: nat, items: seq<int>, s: State)
    requires Inv(cap, items, s) && s.cons.at != CDone && cap > 0
    ensures var s' := Next(cap, items, s, Turn(s));
      Inv(cap, items, s') && 0 <= Left(cap, items, s) && Left(cap, items, s') < Left(cap, items, s)
  {
    hide Inv, Left, NextP, NextC;
    ProducerKeeps(cap, items, s);
    ConsumerKeeps(cap, items, s);
    LeftPositive(cap, items, s);
    if Turn(s) {
      ProducerHasMore(cap, items, s);
      ProducerNears(cap, items, s);
    } else {
      ConsumerNears(cap, items, s);
    }
  }

  lemma RunLonger(cap: nat, items: seq<int>, schedule: seq<bool>, who: bool)
    ensures Run(cap, items, schedule + [who]) == Next(cap, items, Run(cap, items, schedule), who)
  {
    hide Inv, Next;
    assert (schedule + [who])[..|schedule|] == schedule;
  }

  /** With any room at all, whatever has happened so far, there is a way to go on that delivers everything. */
  lemma {:induction false} CanFinish(cap: nat, items: seq<int>, schedule: seq<bool>) returns (more: seq<bool>)
    requires cap > 0
    ensures Run(cap, items, schedule + more).cons.sorted == items
    decreases Left(cap, items, Run(cap, items, schedule))
  {
    hide Inv, Run, Next, Left, Turn;
    var s := Run(cap, items, schedule);
    if s.cons.at == CDone {
      more := [];
      assert schedule + more == schedule;
      AllDelivered(cap, items, schedule);
    } else {
      TurnTaken(cap, items, s);
      RunLonger(cap, items, schedule, Turn(s));
      var rest := CanFinish(cap, items, schedule + [Turn(s)]);
      more := [Turn(s)] + rest;
      assert schedule + more == schedule + [Turn(s)] + rest;
    }
  }

  /** Without room nothing is ever delivered. */
  lemma {:induction false} NoRoom(items: seq<int>, schedule: seq<bool>)
    ensures var s := Run(0, items, schedule); s.prod.sent == 0 && !s.prod.done && s.cons.sorted == []
  {
    if schedule != [] {
      NoRoom(items, schedule[..|schedule| - 1]);
    }
    var s := Run(0, items, schedule);
    assert Taken(s) + Contents(s) == [];
  }
}
