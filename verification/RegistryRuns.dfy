/** Whole runs of the registry, for any answers of the system and any nondecreasing clock. */
module RegistryRuns {
  import opened Options
  import opened RegistryModel
  import BurstLimiter

  /** One call, with the clock readings it makes. */
  datatype Op =
    | FindUser(uid: int, now: int, memory: bool)
    | FindProcess(uid: int, pid: int, starttime: int, memory: bool)
    | FindThread(uid: int, process: Process, pid: int, starttime: int, memory: bool)
    | Verify(uid: int, now: int, stamp: int)
    | Collect(relevant: Relevance, clock: Clock, until: int)

  datatype Grant = Grant(uid: int, at: int)

  /** The registry, the last reading of the clock, and every request granted so far. */
  datatype System = System(book: Book, clock: int, grants: seq<Grant>)

  function Start(clock: int): System { System(Book([], 0, 0, 0), clock, []) }

  /** The clock does not go backwards. */
  ghost predicate Legal(s: System, op: Op) {
    match op
    case FindUser(_, now, _) => s.clock <= now
    case Verify(_, now, stamp) => s.clock <= now <= stamp
    case Collect(_, clock, until) => forall uid :: s.clock <= clock(uid) <= until
    case _ => true
  }

  /** The place of a user or of a process; the length of the list if there is none. */
  function UserAt(us: seq<User>, uid: int): (k: nat)
    ensures k <= |us| && (k < |us| ==> us[k].uid == uid)
  {
    if us == [] || us[0].uid == uid then 0 else 1 + UserAt(us[1..], uid)
  }

  function ProcessAt(ps: seq<Process>, pid: int, starttime: int): (j: nat)
    ensures j <= |ps| && (j < |ps| ==> ps[j].pid == pid && ps[j].starttime == starttime)
  {
    if ps == [] || (ps[0].pid == pid && ps[0].starttime == starttime) then 0 else 1 + ProcessAt(ps[1..], pid, starttime)
  }

  function BookAfter(l: Limits, b: Book, op: Op): Book {
    match op
    case FindUser(uid, now, memory) =>
      if UserAt(b.users, uid) == |b.users| && b.nUsers < l.users && memory then AddUser(b, uid, now) else b
    case FindProcess(uid, pid, starttime, memory) =>
      var k := UserAt(b.users, uid);
      if k < |b.users| && ProcessAt(b.users[k].processes, pid, starttime) == |b.users[k].processes| &&
        b.users[k].nProcesses < l.processes && memory
      then AddProcess(b, k, pid, starttime) else b
    case FindThread(uid, p, pid, starttime, memory) =>
      var k := UserAt(b.users, uid);
      if k == |b.users| then b else
      var j := ProcessAt(b.users[k].processes, p.pid, p.starttime);
      if j < |b.users[k].processes| && Thread(pid, starttime) !in b.users[k].processes[j].threads &&
        b.users[k].nThreads < l.threads && memory
      then AddThread(b, k, j, pid, starttime) else b
    case Verify(uid, now, stamp) =>
      var k := UserAt(b.users, uid);
      if k == |b.users| then b
        else WithBurst(b, k, BurstLimiter.Asked(Burst(b.users[k]), now, stamp, l.burstSec, l.burstMax))
    case Collect(relevant, clock, _) => Collected(b, relevant, clock, l.burstSec)
  }

  function GrantsAfter(l: Limits, s: System, op: Op): seq<Grant> {
    if !op.Verify? then s.grants else
    var k := UserAt(s.book.users, op.uid);
    if k < |s.book.users| && BurstLimiter.Allows(Burst(s.book.users[k]), op.now, l.burstSec, l.burstMax)
    then s.grants + [Grant(op.uid, BurstLimiter.GrantTime(Burst(s.book.users[k]), op.now, op.stamp, l.burstSec))]
    else s.grants
  }

  function ClockAfter(s: System, op: Op): int {
    match op
    case FindUser(_, now, _) => now
    case Verify(_, _, stamp) => stamp
    case Collect(_, _, until) => until
    case _ => s.clock
  }

  function Step(l: Limits, s: System, op: Op): System {
    System(BookAfter(l, s.book, op), ClockAfter(s, op), GrantsAfter(l, s, op))
  }

  function Run(l: Limits, clock: int, ops: seq<Op>): System {
    if |ops| == 0 then Start(clock) else Step(l, Run(l, clock, ops[..|ops| - 1]), ops[|ops| - 1])
  }

  ghost predicate LegalRun(l: Limits, clock: int, ops: seq<Op>) {
    |ops| == 0 || (LegalRun(l, clock, ops[..|ops| - 1]) && Legal(Run(l, clock, ops[..|ops| - 1]), ops[|ops| - 1]))
  }

  // ---------------------------------------------------------------- counters, limits and keys

  lemma {:induction false} NoUserAt(us: seq<User>, uid: int)
    requires UserAt(us, uid) == |us|
    ensures !HasUser(us, uid)
    decreases |us|
  {
    if us != [] {
      NoUserAt(us[1..], uid);
      assert forall k :: 0 < k < |us| ==> us[k] == us[1..][k - 1];
    }
  }

  lemma {:induction false} NoProcessAt(ps: seq<Process>, pid: int, starttime: int)
    requires ProcessAt(ps, pid, starttime) == |ps|
    ensures !HasProcess(ps, pid, starttime)
    decreases |ps|
  {
    if ps != [] {
      NoProcessAt(ps[1..], pid, starttime);
      assert forall j :: 0 < j < |ps| ==> ps[j] == ps[1..][j - 1];
    }
  }

  /** Every call keeps the counters exact, the limits and the unique keys. */
  lemma StepOk(l: Limits, b: Book, op: Op)
    requires Ok(l, b)
    ensures Ok(l, BookAfter(l, b, op))
  {
    hide Ok, Collected, AddUser, AddProcess, AddThread, WithBurst, HasUser, HasProcess;
    match op
    case FindUser(uid, now, memory) =>
      if BookAfter(l, b, op) != b {
        NoUserAt(b.users, uid);
        AddUserOk(l, b, uid, now);
      }
    case FindProcess(uid, pid, starttime, memory) =>
      var k := UserAt(b.users, uid);
      if BookAfter(l, b, op) != b {
        NoProcessAt(b.users[k].processes, pid, starttime);
        AddProcessOk(l, b, k, pid, starttime);
      }
    case FindThread(uid, p, pid, starttime, memory) =>
      var k := UserAt(b.users, uid);
      if BookAfter(l, b, op) != b {
        AddThreadOk(l, b, k, ProcessAt(b.users[k].processes, p.pid, p.starttime), pid, starttime);
      }
    case Verify(uid, now, stamp) =>
      var k := UserAt(b.users, uid);
      if k < |b.users| {
        WithBurstOk(l, b, k, BurstLimiter.Asked(Burst(b.users[k]), now, stamp, l.burstSec, l.burstMax));
      }
    case Collect(relevant, clock, _) =>
      CollectedOk(l, b, relevant, clock);
  }

  /** After any run, whatever the system answers: counters equal list lengths and sums at every level, limits
      are respected, and keys are unique. */
  lemma {:induction false} AlwaysOk(l: Limits, clock: int, ops: seq<Op>)
    ensures Ok(l, Run(l, clock, ops).book)
    decreases |ops|
  {
    if |ops| > 0 {
      AlwaysOk(l, clock, ops[..|ops| - 1]);
      StepOk(l, Run(l, clock, ops[..|ops| - 1]).book, ops[|ops| - 1]);
    }
  }

  // ---------------------------------------------------------------- one user's bursts

  function RecordOf(us: seq<User>, uid: int): Option<BurstLimiter.Record> {
    var k := UserAt(us, uid);
    if k < |us| then Some(Burst(us[k])) else None
  }

  function GrantsOf(gs: seq<Grant>, uid: int): seq<int> {
    if gs == [] then []
    else GrantsOf(gs[..|gs| - 1], uid) + if gs[|gs| - 1].uid == uid then [gs[|gs| - 1].at] else []
  }

  /** What a run looks like from one user's side. */
  function LifeOf(s: System, uid: int): BurstLimiter.Life {
    BurstLimiter.Life(RecordOf(s.book.users, uid), GrantsOf(s.grants, uid), s.clock)
  }

  lemma RecordFront(u: User, us: seq<User>, uid: int)
    ensures RecordOf([u] + us, uid) == if u.uid == uid then Some(Burst(u)) else RecordOf(us, uid)
  {
    assert ([u] + us)[1..] == us;
  }

  lemma {:induction false} UserAtUpdated(us: seq<User>, k: nat, u: User, uid: int)
    requires k < |us| && u.uid == us[k].uid
    ensures UserAt(us[k := u], uid) == UserAt(us, uid)
    decreases |us|
  {
    if us[0].uid != uid {
      if k == 0 {
        assert us[k := u][1..] == us[1..];
      } else {
        UserAtUpdated(us[1..], k - 1, u, uid);
        assert us[k := u][1..] == us[1..][k - 1 := u];
      }
    }
  }

  lemma RecordUpdated(us: seq<User>, k: nat, u: User, uid: int)
    requires k < |us| && u.uid == us[k].uid
    ensures RecordOf(us[k := u], uid) == if UserAt(us, uid) == k then Some(Burst(u)) else RecordOf(us, uid)
  {
    UserAtUpdated(us, k, u, uid);
  }

  /** Collecting keeps a user's record as it is, or drops it outside its burst. */
  lemma {:induction false} RecordCollected(us: seq<User>, relevant: Relevance, clock: Clock, sec: nat, uid: int)
    requires UsersUnique(us)
    ensures var r, r' := RecordOf(us, uid), RecordOf(Select(us, UserKept(relevant, clock, sec)), uid);
      r' == r || (r.Some? && r'.None? && !BurstLimiter.InBurst(r.value, clock(uid), sec))
    decreases |us|
  {
    var f := UserKept(relevant, clock, sec);
    if us != [] {
      RecordCollected(us[1..], relevant, clock, sec, uid);
      hide Select, RecordOf, UsersUnique;
      SelectStep(us, f);
      SweptBurst(us[0], relevant);
      RecordFront(SweptUser(us[0], relevant), Select(us[1..], f), uid);
      RecordFront(us[0], us[1..], uid);
      FrontAgain(us);
      EmptyFront(Select(us[1..], f));
      if us[0].uid == uid {
        NoneElsewhere(us, uid);
      }
    }
  }

  lemma FrontAgain(us: seq<User>)
    requires us != []
    ensures [us[0]] + us[1..] == us
  {
  }

  lemma SweptBurst(u: User, relevant: Relevance)
    ensures SweptUser(u, relevant).uid == u.uid && Burst(SweptUser(u, relevant)) == Burst(u)
  {
  }

  lemma NoneElsewhere(us: seq<User>, uid: int)
    requires us != [] && UsersUnique(us) && us[0].uid == uid
    ensures RecordOf(us[1..], uid) == None
  {
    assert forall k {:trigger us[1..][k]} :: 0 <= k < |us[1..]| ==> us[1..][k] == us[k + 1] && us[k + 1].uid != uid;
  }

  lemma GrantsFor(gs: seq<Grant>, g: Grant, uid: int)
    ensures GrantsOf(gs + [g], uid) == GrantsOf(gs, uid) + if g.uid == uid then [g.at] else []
  {
    assert (gs + [g])[..|gs|] == gs;
  }

  /** Every call is, for every user, one of the limiter's events or none. */
  lemma StepBurst(l: Limits, s: System, op: Op, uid: int)
    requires Ok(l, s.book) && Legal(s, op) && l.burstSec >= 1
    requires BurstLimiter.Inv(LifeOf(s, uid), l.burstSec, l.burstMax)
    ensures BurstLimiter.Inv(LifeOf(Step(l, s, op), uid), l.burstSec, l.burstMax)
  {
    match op
    case FindUser(_, _, _) => FindUserBurst(l, s, op, uid);
    case FindProcess(_, _, _, _) => OtherBurst(l, s, op, uid);
    case FindThread(_, _, _, _, _) => OtherBurst(l, s, op, uid);
    case Verify(_, _, _) => VerifyBurst(l, s, op, uid);
    case Collect(_, _, _) => CollectBurst(l, s, op, uid);
  }

  lemma FindUserBurst(l: Limits, s: System, op: Op, uid: int)
    requires op.FindUser? && Legal(s, op) && l.burstSec >= 1 && BurstLimiter.Inv(LifeOf(s, uid), l.burstSec, l.burstMax)
    ensures BurstLimiter.Inv(LifeOf(Step(l, s, op), uid), l.burstSec, l.burstMax)
  {
    hide BurstLimiter.Inv;
    BurstLimiter.Waits(LifeOf(s, uid), op.now, l.burstSec, l.burstMax);
    RecordFront(User(op.uid, op.now, 0, [], 0, 0), s.book.users, uid);
    if op.uid == uid && LifeOf(s, uid).record.None? {
      BurstLimiter.Created(LifeOf(s, uid), op.now, l.burstSec, l.burstMax);
    }
  }

  lemma OtherBurst(l: Limits, s: System, op: Op, uid: int)
    requires op.FindProcess? || op.FindThread?
    ensures LifeOf(Step(l, s, op), uid) == LifeOf(s, uid)
  {
    var k := UserAt(s.book.users, op.uid);
    if BookAfter(l, s.book, op) != s.book {
      var u := BookAfter(l, s.book, op).users[k];
      RecordUpdated(s.book.users, k, u, uid);
    }
  }

  lemma VerifyBurst(l: Limits, s: System, op: Op, uid: int)
    requires op.Verify? && Legal(s, op) && l.burstSec >= 1 && BurstLimiter.Inv(LifeOf(s, uid), l.burstSec, l.burstMax)
    ensures BurstLimiter.Inv(LifeOf(Step(l, s, op), uid), l.burstSec, l.burstMax)
  {
    hide BurstLimiter.Inv;
    var us, k := s.book.users, UserAt(s.book.users, op.uid);
    BurstLimiter.Waits(LifeOf(s, uid), op.stamp, l.burstSec, l.burstMax);
    if k < |us| {
      var r := Burst(us[k]);
      var r' := BurstLimiter.Asked(r, op.now, op.stamp, l.burstSec, l.burstMax);
      RecordUpdated(us, k, us[k].(timestamp := r'.timestamp, nActions := r'.nActions), uid);
      GrantsFor(s.grants, Grant(op.uid, BurstLimiter.GrantTime(r, op.now, op.stamp, l.burstSec)), uid);
      if op.uid == uid {
        BurstLimiter.Verified(LifeOf(s, uid), op.now, op.stamp, l.burstSec, l.burstMax);
      } else {
        NothingAdded(GrantsOf(s.grants, uid));
      }
    }
  }

  lemma NothingAdded(gs: seq<int>)
    ensures gs + [] == gs
  {
  }

  lemma CollectBurst(l: Limits, s: System, op: Op, uid: int)
    requires op.Collect? && Ok(l, s.book) && Legal(s, op) && BurstLimiter.Inv(LifeOf(s, uid), l.burstSec, l.burstMax)
    ensures BurstLimiter.Inv(LifeOf(Step(l, s, op), uid), l.burstSec, l.burstMax)
  {
    hide BurstLimiter.Inv, Select;
    var v, now := LifeOf(s, uid), op.clock(uid);
    RecordCollected(s.book.users, op.relevant, op.clock, l.burstSec, uid);
    BurstLimiter.Waits(v, op.until, l.burstSec, l.burstMax);
    if v.record.Some? && !BurstLimiter.InBurst(v.record.value, now, l.burstSec) {
      BurstLimiter.Removed(v, now, l.burstSec, l.burstMax);
      BurstLimiter.Waits(BurstLimiter.Life(None, v.grants, now), op.until, l.burstSec, l.burstMax);
    }
  }

  lemma {:induction false} AlwaysLimited(l: Limits, clock: int, ops: seq<Op>, uid: int)
    requires LegalRun(l, clock, ops) && l.burstSec >= 1
    ensures BurstLimiter.Inv(LifeOf(Run(l, clock, ops), uid), l.burstSec, l.burstMax)
    decreases |ops|
  {
    if |ops| == 0 {
      BurstLimiter.NothingYet(clock, l.burstSec, l.burstMax);
    } else {
      AlwaysLimited(l, clock, ops[..|ops| - 1], uid);
      AlwaysOk(l, clock, ops[..|ops| - 1]);
      StepBurst(l, Run(l, clock, ops[..|ops| - 1]), ops[|ops| - 1], uid);
    }
  }

  /** In every run, however often its record is collected and made again, a user is granted at most
      2 * (burstMax + 1) requests in any closed interval of burstSec seconds. */
  lemma BurstBound(l: Limits, clock: int, ops: seq<Op>, uid: int, from: int)
    requires LegalRun(l, clock, ops) && l.burstSec >= 1
    ensures BurstLimiter.InWindow(GrantsOf(Run(l, clock, ops).grants, uid), from, l.burstSec) <= 2 * (l.burstMax + 1)
  {
    AlwaysLimited(l, clock, ops, uid);
    assert BurstLimiter.Windows(LifeOf(Run(l, clock, ops), uid).grants, l.burstSec, l.burstMax);
  }

  // ---------------------------------------------------------------- the condition is needed

  /** A user entered at `t` and asking `n` times at once. */
  function Flood(uid: int, t: int, n: nat): seq<Op> {
    if n == 0 then [FindUser(uid, t, true)] else Flood(uid, t, n - 1) + [Verify(uid, t, t)]
  }

  lemma {:induction false} FloodGranted(l: Limits, uid: int, t: int, n: nat)
    requires l.burstSec == 0 && l.users >= 1
    ensures LegalRun(l, t, Flood(uid, t, n))
    ensures var s := Run(l, t, Flood(uid, t, n));
      && s.clock == t && s.book.users == [User(uid, t, 0, [], 0, 0)]
      && |GrantsOf(s.grants, uid)| == n && BurstLimiter.Count(GrantsOf(s.grants, uid), t, t + 1) == n
  {
    hide Run, LegalRun, Step, BookAfter;
    if n == 0 {
      FloodEntered(l, uid, t);
    } else {
      FloodGranted(l, uid, t, n - 1);
      hide GrantsOf, BurstLimiter.Count;
      RunAppend(l, t, Flood(uid, t, n - 1), Verify(uid, t, t));
      FloodAsks(l, Run(l, t, Flood(uid, t, n - 1)), uid, t);
    }
  }

  lemma FloodEntered(l: Limits, uid: int, t: int)
    requires l.users >= 1
    ensures LegalRun(l, t, [FindUser(uid, t, true)])
    ensures var s := Run(l, t, [FindUser(uid, t, true)]);
      s.clock == t && s.book.users == [User(uid, t, 0, [], 0, 0)] && s.grants == []
  {
    hide Run, LegalRun, Step;
    RunStarts(l, t);
    RunAppend(l, t, [], FindUser(uid, t, true));
    NothingBefore(FindUser(uid, t, true));
    FloodStarts(l, uid, t);
  }

  lemma RunStarts(l: Limits, clock: int)
    ensures Run(l, clock, []) == Start(clock) && LegalRun(l, clock, [])
  {
  }

  lemma NothingBefore(op: Op)
    ensures [] + [op] == [op]
  {
  }

  lemma RunAppend(l: Limits, clock: int, ops: seq<Op>, op: Op)
    ensures Run(l, clock, ops + [op]) == Step(l, Run(l, clock, ops), op)
    ensures LegalRun(l, clock, ops + [op]) <==> LegalRun(l, clock, ops) && Legal(Run(l, clock, ops), op)
  {
    assert (ops + [op])[..|ops|] == ops;
  }

  lemma FloodStarts(l: Limits, uid: int, t: int)
    requires l.users >= 1
    ensures var s := Step(l, Start(t), FindUser(uid, t, true));
      s.clock == t && s.book.users == [User(uid, t, 0, [], 0, 0)] && s.grants == []
  {
  }

  lemma FloodAsks(l: Limits, s: System, uid: int, t: int)
    requires l.burstSec == 0 && s.clock == t && s.book.users == [User(uid, t, 0, [], 0, 0)]
    ensures var s' := Step(l, s, Verify(uid, t, t));
      && s'.clock == t && s'.book.users == s.book.users
      && GrantsOf(s'.grants, uid) == GrantsOf(s.grants, uid) + [t]
      && BurstLimiter.Count(GrantsOf(s'.grants, uid), t, t + 1)
        == BurstLimiter.Count(GrantsOf(s.grants, uid), t, t + 1) + 1
  {
    GrantsFor(s.grants, Grant(uid, t), uid);
    BurstLimiter.CountOne(GrantsOf(s.grants, uid), t, t, t + 1);
    hide GrantsOf, BurstLimiter.Count;
  }

  /** With a burst time of zero every request restarts the burst, so there is no bound at all. */
  lemma NoBoundAtZero(l: Limits, uid: int, t: int)
    requires l.burstSec == 0 && l.users >= 1
    ensures var ops := Flood(uid, t, 2 * (l.burstMax + 1) + 1);
      && LegalRun(l, t, ops)
      && BurstLimiter.InWindow(GrantsOf(Run(l, t, ops).grants, uid), t, l.burstSec) > 2 * (l.burstMax + 1)
  {
    hide Flood, Run, LegalRun, GrantsOf, BurstLimiter.Count;
    FloodGranted(l, uid, t, 2 * (l.burstMax + 1) + 1);
  }

  /** Where no user is allowed, nothing is ever granted. */
  lemma {:induction false} NobodyGranted(l: Limits, clock: int, ops: seq<Op>)
    requires l.users == 0
    ensures Run(l, clock, ops).grants == []
    decreases |ops|
  {
    if |ops| > 0 {
      var before, op := ops[..|ops| - 1], ops[|ops| - 1];
      NobodyGranted(l, clock, before);
      AlwaysOk(l, clock, before);
      NoUserNoGrant(l, Run(l, clock, before), op);
      hide GrantsAfter, BookAfter, Ok;
    }
  }

  lemma NoUserNoGrant(l: Limits, s: System, op: Op)
    requires Ok(l, s.book) && l.users == 0
    ensures GrantsAfter(l, s, op) == s.grants
  {
  }

  /** No run grants any user too much in any window. */
  ghost predicate Bounded(l: Limits) {
    forall clock: int, ops: seq<Op>, uid: int, from: int :: LegalRun(l, clock, ops) ==>
      BurstLimiter.InWindow(GrantsOf(Run(l, clock, ops).grants, uid), from, l.burstSec) <= 2 * (l.burstMax + 1)
  }

  /** The bound holds for every run if and only if the burst time is at least a second, or no user is allowed. */
  lemma BoundExactly(l: Limits)
    ensures Bounded(l) <==> l.burstSec >= 1 || l.users == 0
  {
    hide Run, LegalRun, GrantsOf, BurstLimiter.Count, Flood;
    if l.burstSec >= 1 {
      forall clock: int, ops: seq<Op>, uid: int, from: int | LegalRun(l, clock, ops)
        ensures BurstLimiter.InWindow(GrantsOf(Run(l, clock, ops).grants, uid), from,
                                      l.burstSec) <= 2 * (l.burstMax + 1)
      {
        BurstBound(l, clock, ops, uid, from);
      }
    } else if l.users == 0 {
      forall clock: int, ops: seq<Op>, uid: int, from: int | LegalRun(l, clock, ops)
        ensures BurstLimiter.InWindow(GrantsOf(Run(l, clock, ops).grants, uid), from,
                                      l.burstSec) <= 2 * (l.burstMax + 1)
      {
        NobodyGranted(l, clock, ops);
        NothingCounted(uid, from, l.burstSec);
      }
    } else {
      NoBoundAtZero(l, 0, 0);
    }
  }

  lemma NothingCounted(uid: int, from: int, sec: nat)
    ensures BurstLimiter.InWindow(GrantsOf([], uid), from, sec) == 0
  {
  }
}
