/** What the burst limiter grants: within a burst the first requests, as many as the limit allows, and no more. */
module BurstService {
  import opened Options
  import opened RegistryModel
  import opened RegistryRuns
  import BurstLimiter

  /** Whether a call is a request of user `uid`. */
  predicate Requests(op: Op, uid: int) { op.Verify? && op.uid == uid }

  /** When user `uid` asks. */
  function Asks(ops: seq<Op>, uid: int): seq<int> {
    if ops == [] then [] else
    var op := ops[|ops| - 1];
    Asks(ops[..|ops| - 1], uid) + if Requests(op, uid) then [op.now] else []
  }

  /** All requests are made before `end`. */
  predicate AsksBefore(ops: seq<Op>, uid: int, end: int) {
    forall i :: 0 <= i < |ops| && Requests(ops[i], uid) ==> ops[i].now < end
  }

  function First(xs: seq<int>, n: nat): seq<int> { if |xs| <= n then xs else xs[..n] }

  /** User `uid` starts a burst at `t`: by being entered, or by a request once the last burst is over. */
  ghost predicate Opens(l: Limits, s: System, op: Op, uid: int, t: int) {
    || (op == FindUser(uid, t, true) && !HasUser(s.book.users, uid) && s.book.nUsers < l.users)
    || (Requests(op, uid) && op.stamp == t
        && exists u :: u in s.book.users && u.uid == uid && u.timestamp + l.burstSec <= op.now)
  }

  // ---------------------------------------------------------------- one call

  ghost predicate InBurstSince(l: Limits, s: System, uid: int, t: int, n: nat) {
    s.clock < t + l.burstSec ==> RecordOf(s.book.users, uid) == Some(BurstLimiter.Record(t, n))
  }

  lemma OpenStarts(l: Limits, s: System, op: Op, uid: int, t: int)
    requires Ok(l, s.book) && Legal(s, op) && Opens(l, s, op, uid, t)
    ensures var s' := Step(l, s, op);
      && s'.clock == t && RecordOf(s'.book.users, uid) == Some(BurstLimiter.Record(t, 0))
      && GrantsOf(s'.grants, uid) == GrantsOf(s.grants, uid) + if op.Verify? then [t] else []
  {
    if op.FindUser? {
      NobodyThere(s.book.users, uid);
      RecordFront(User(uid, t, 0, [], 0, 0), s.book.users, uid);
      NothingAdded(GrantsOf(s.grants, uid));
    } else {
      var us, k := s.book.users, UserAt(s.book.users, uid);
      Somebody(l, s.book, uid, op.now);
      var r := Burst(us[k]);
      RecordUpdated(us, k, us[k].(timestamp := t, nActions := 0), uid);
      GrantsFor(s.grants, Grant(uid, t), uid);
    }
  }

  lemma NobodyThere(us: seq<User>, uid: int)
    requires !HasUser(us, uid)
    ensures UserAt(us, uid) == |us|
  {
  }

  lemma Somebody(l: Limits, b: Book, uid: int, now: int)
    requires Ok(l, b) && exists u :: u in b.users && u.uid == uid && u.timestamp + l.burstSec <= now
    ensures var k := UserAt(b.users, uid); k < |b.users| && b.users[k].timestamp + l.burstSec <= now
  {
    var u :| u in b.users && u.uid == uid && u.timestamp + l.burstSec <= now;
    var i :| 0 <= i < |b.users| && b.users[i] == u;
    var k := UserAt(b.users, uid);
    if k == |b.users| {
      NoUserAt(b.users, uid);
    }
  }

  /** A request in a burst is granted exactly if fewer than the limit were. */
  lemma RequestServed(l: Limits, s: System, op: Op, uid: int, t: int, n: nat)
    requires Ok(l, s.book) && Legal(s, op) && Requests(op, uid) && op.now < t + l.burstSec
    requires InBurstSince(l, s, uid, t, n)
    ensures var s' := Step(l, s, op);
      && RecordOf(s'.book.users, uid) == Some(BurstLimiter.Record(t, if n < l.burstMax then n + 1 else n))
      && GrantsOf(s'.grants, uid) == GrantsOf(s.grants, uid) + if n < l.burstMax then [op.now] else []
  {
    var us, k := s.book.users, UserAt(s.book.users, uid);
    var r := Burst(us[k]);
    var r' := BurstLimiter.Asked(r, op.now, op.stamp, l.burstSec, l.burstMax);
    RecordUpdated(us, k, us[k].(timestamp := r'.timestamp, nActions := r'.nActions), uid);
    GrantsFor(s.grants, Grant(uid, op.now), uid);
    NothingAdded(GrantsOf(s.grants, uid));
  }

  /** No other call changes that, as long as the burst lasts. */
  lemma OthersAside(l: Limits, s: System, op: Op, uid: int, t: int, n: nat)
    requires Ok(l, s.book) && Legal(s, op) && !Requests(op, uid) && InBurstSince(l, s, uid, t, n)
    ensures InBurstSince(l, Step(l, s, op), uid, t, n)
    ensures GrantsOf(Step(l, s, op).grants, uid) == GrantsOf(s.grants, uid)
  {
    match op
    case FindUser(_, _, _) => EnterAside(l, s, op, uid, t, n);
    case FindProcess(_, _, _, _) => OtherBurst(l, s, op, uid);
    case FindThread(_, _, _, _, _) => OtherBurst(l, s, op, uid);
    case Verify(_, _, _) => AnotherAsks(l, s, op, uid);
    case Collect(_, _, _) => CollectAside(l, s, op, uid, t, n);
    hide BookAfter, RecordOf, GrantsOf, Ok;
  }

  lemma EnterAside(l: Limits, s: System, op: Op, uid: int, t: int, n: nat)
    requires op.FindUser? && Legal(s, op) && InBurstSince(l, s, uid, t, n)
    ensures InBurstSince(l, Step(l, s, op), uid, t, n)
  {
    RecordFront(User(op.uid, op.now, 0, [], 0, 0), s.book.users, uid);
  }

  lemma CollectAside(l: Limits, s: System, op: Op, uid: int, t: int, n: nat)
    requires op.Collect? && Ok(l, s.book) && Legal(s, op) && InBurstSince(l, s, uid, t, n)
    ensures InBurstSince(l, Step(l, s, op), uid, t, n)
  {
    hide Select, RecordOf;
    RecordCollected(s.book.users, op.relevant, op.clock, l.burstSec, uid);
    assert s.clock <= op.clock(uid) <= op.until;
  }

  lemma AnotherAsks(l: Limits, s: System, op: Op, uid: int)
    requires op.Verify? && op.uid != uid
    ensures var s' := Step(l, s, op);
      RecordOf(s'.book.users, uid) == RecordOf(s.book.users, uid) && GrantsOf(s'.grants, uid) == GrantsOf(s.grants, uid)
  {
    var us, k := s.book.users, UserAt(s.book.users, op.uid);
    if k < |us| {
      var r := Burst(us[k]);
      var r' := BurstLimiter.Asked(r, op.now, op.stamp, l.burstSec, l.burstMax);
      RecordUpdated(us, k, us[k].(timestamp := r'.timestamp, nActions := r'.nActions), uid);
      GrantsFor(s.grants, Grant(op.uid, BurstLimiter.GrantTime(r, op.now, op.stamp, l.burstSec)), uid);
      NothingAdded(GrantsOf(s.grants, uid));
    }
  }

  // ---------------------------------------------------------------- whole runs

  lemma {:induction false} BurstGoesOn(l: Limits, clock: int, head: seq<Op>, rest: seq<Op>, uid: int, t: int)
    requires LegalRun(l, clock, head + rest) && AsksBefore(rest, uid, t + l.burstSec)
    requires InBurstSince(l, Run(l, clock, head), uid, t, 0)
    ensures var s, served := Run(l, clock, head + rest), First(Asks(rest, uid), l.burstMax);
      && InBurstSince(l, s, uid, t, |served|)
      && GrantsOf(s.grants, uid) == GrantsOf(Run(l, clock, head).grants, uid) + served
    decreases |rest|
  {
    hide Run, LegalRun, Asks, Step, GrantsOf, RecordOf, Ok, Legal, InBurstSince, First;
    if rest == [] {
      assert head + rest == head;
      NothingAdded(GrantsOf(Run(l, clock, head).grants, uid));
      NoneAsked(uid, l.burstMax);
    } else {
      var front, op := rest[..|rest| - 1], rest[|rest| - 1];
      assert head + rest == head + front + [op];
      RunAppend(l, clock, head + front, op);
      BurstGoesOn(l, clock, head, front, uid, t);
      AlwaysOk(l, clock, head + front);
      AskedLast(rest, uid);
      BurstStep(l, Run(l, clock, head + front), op, uid, t, GrantsOf(Run(l, clock, head).grants, uid),
                Asks(front, uid));
    }
  }

  lemma NoneAsked(uid: int, max: nat)
    ensures First(Asks([], uid), max) == []
  {
  }

  lemma AskedLast(ops: seq<Op>, uid: int)
    requires ops != []
    ensures var op := ops[|ops| - 1];
      Asks(ops, uid) == Asks(ops[..|ops| - 1], uid) + if Requests(op, uid) then [op.now] else []
  {
  }

  lemma BurstStep(l: Limits, s: System, op: Op, uid: int, t: int, before: seq<int>, asks: seq<int>)
    requires Ok(l, s.book) && Legal(s, op) && (Requests(op, uid) ==> op.now < t + l.burstSec)
    requires InBurstSince(l, s, uid, t, |First(asks, l.burstMax)|)
    requires GrantsOf(s.grants, uid) == before + First(asks, l.burstMax)
    ensures var s', served := Step(l, s, op), First(asks + if Requests(op, uid) then [op.now] else [], l.burstMax);
      InBurstSince(l, s', uid, t, |served|) && GrantsOf(s'.grants, uid) == before + served
  {
    hide Ok, Legal, Step, GrantsOf, RecordOf;
    if Requests(op, uid) {
      RequestServed(l, s, op, uid, t, |First(asks, l.burstMax)|);
      OneMoreServed(before, asks, op.now, l.burstMax);
    } else {
      OthersAside(l, s, op, uid, t, |First(asks, l.burstMax)|);
      assert asks + [] == asks;
    }
  }

  lemma OneMoreServed(before: seq<int>, asks: seq<int>, now: int, max: nat)
    ensures var n := |First(asks, max)|;
      && |First(asks + [now], max)| == (if n < max then n + 1 else n)
      && before + First(asks, max) + (if n < max then [now] else []) == before + First(asks + [now], max)
  {
  }

  /** Whatever else happens: of the requests that a user makes within a burst, the first `burstMax` are granted, each
      when it is made, and no other; and a request that starts a burst is granted too. */
  lemma BurstServed(l: Limits, clock: int, before: seq<Op>, first: Op, rest: seq<Op>, uid: int, t: int)
    requires LegalRun(l, clock, before + [first] + rest) && Opens(l, Run(l, clock, before), first, uid, t)
    requires AsksBefore(rest, uid, t + l.burstSec)
    ensures GrantsOf(Run(l, clock, before + [first] + rest).grants, uid)
      == GrantsOf(Run(l, clock, before).grants, uid) + (if first.Verify? then [t] else [])
        + First(Asks(rest, uid), l.burstMax)
  {
    hide Run, LegalRun, Opens, Asks, GrantsOf, RecordOf;
    LegalFront(l, clock, before + [first], rest);
    RunAppend(l, clock, before, first);
    AlwaysOk(l, clock, before);
    OpenStarts(l, Run(l, clock, before), first, uid, t);
    BurstGoesOn(l, clock, before + [first], rest, uid, t);
  }

  lemma {:induction false} LegalFront(l: Limits, clock: int, ops: seq<Op>, rest: seq<Op>)
    requires LegalRun(l, clock, ops + rest)
    ensures LegalRun(l, clock, ops)
    decreases |rest|
  {
    if rest == [] {
      assert ops + rest == ops;
    } else {
      assert (ops + rest)[..|ops + rest| - 1] == ops + rest[..|rest| - 1];
      LegalFront(l, clock, ops, rest[..|rest| - 1]);
    }
  }
}
