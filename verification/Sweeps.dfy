/** A list being swept in place,
    seen as a sequence,
    and what that does to the counters. */
module Sweeps {
  import opened Collections
  import opened Options
  import opened RegistryModel

  /** A list being swept in place: what was looked at is already as it will be, the rest as it was. */
  ghost predicate Sweeping<A>(original: seq<A>, f: A -> Option<A>, now: seq<A>, i: nat, pos: nat) {
    && pos <= |original| && i <= |now| && now[i..] == original[pos..]
    && Select(original, f) == now[..i] + Select(original[pos..], f)
  }

  lemma SweepStarts<A>(original: seq<A>, f: A -> Option<A>)
    ensures Sweeping(original, f, original, 0, 0)
  {
    assert original[0..] == original;
    assert original[..0] + Select(original, f) == Select(original, f);
  }

  /** Dropping the element, or replacing it by what is kept of it, moves the sweep on. */
  lemma SweepNext<A>(original: seq<A>, f: A -> Option<A>, now: seq<A>, i: nat, pos: nat)
    requires Sweeping(original, f, now, i, pos) && i < |now|
    ensures pos < |original| && now[i] == original[pos]
    ensures f(now[i]).None? ==> Sweeping(original, f, Removed(now, i), i, pos + 1)
    ensures f(now[i]).Some? ==> Sweeping(original, f, now[i := f(now[i]).value], i + 1, pos + 1)
  {
    var rest := original[pos..];
    assert now[i..][0] == now[i] && rest[0] == original[pos] && rest[1..] == original[pos + 1..];
    SelectStep(rest, f);
    RemovedRest(now, i);
    if f(now[i]).Some? {
      UpdatedRest(now, i, f(now[i]).value, Select(original[pos + 1..], f));
    } else {
      assert [] + Select(original[pos + 1..], f) == Select(original[pos + 1..], f);
    }
  }

  lemma RemovedRest<A>(now: seq<A>, i: nat)
    requires i < |now|
    ensures Removed(now, i)[..i] == now[..i] && Removed(now, i)[i..] == now[i..][1..]
  {
  }

  lemma UpdatedRest<A>(now: seq<A>, i: nat, x: A, rest: seq<A>)
    requires i < |now|
    ensures now[i := x][i + 1..] == now[i..][1..]
    ensures now[i := x][..i + 1] + rest == now[..i] + ([x] + rest)
  {
  }

  lemma UnchangedAt<A>(now: seq<A>, i: nat)
    requires i < |now|
    ensures now[i := now[i]] == now
  {
  }

  lemma SweepWithin<A>(original: seq<A>, f: A -> Option<A>, now: seq<A>, i: nat, pos: nat)
    requires Sweeping(original, f, now, i, pos)
    ensures i <= |now|
  {
  }

  lemma SweepEnds<A>(original: seq<A>, f: A -> Option<A>, now: seq<A>, i: nat, pos: nat)
    requires Sweeping(original, f, now, i, pos) && i == |now|
    ensures now == Select(original, f)
  {
    assert original[pos..] == [];
    assert now[..i] + [] == now;
  }

  /** A user's counters count. */
  predicate Counted(u: User) { u.nProcesses == |u.processes| && u.nThreads == ThreadSum(u.processes) }

  lemma SweptCounted(u: User, relevant: Relevance)
    ensures Counted(SweptUser(u, relevant)) && SweptUser(u, relevant).uid == u.uid
  {
  }

  lemma ThreadSumRemoved(ps: seq<Process>, j: nat)
    requires j < |ps|
    ensures ThreadSum(Removed(ps, j)) == ThreadSum(ps) - |ps[j].threads|
  {
    var a, b := ps[..j], ps[j + 1..];
    assert ps == a + ([ps[j]] + b) && ([ps[j]] + b)[1..] == b;
    ThreadSumConcat(a, [ps[j]] + b);
    ThreadSumConcat(a, b);
  }

  lemma TotalsAt(us: seq<User>, k: nat)
    requires k < |us|
    ensures us[k].nProcesses <= ProcessTotal(us) && us[k].nThreads <= ThreadTotal(us)
  {
    var a, b := us[..k], us[k + 1..];
    assert us == a + ([us[k]] + b) && ([us[k]] + b)[1..] == b;
    TotalsConcat(a, [us[k]] + b);
  }

  /** A user swept empty counts for nothing. */
  lemma TotalsRemoved(us: seq<User>, k: nat, v: User)
    requires k < |us| && Counted(v)
    ensures v.processes == [] ==>
      ProcessTotal(Removed(us, k)) == ProcessTotal(us[k := v]) && ThreadTotal(Removed(us, k)) == ThreadTotal(us[k := v])
  {
    var a, b := us[..k], us[k + 1..];
    assert us[k := v] == a + ([v] + b) && ([v] + b)[1..] == b;
    TotalsConcat(a, [v] + b);
    TotalsConcat(a, b);
  }

  /** The registry `b` in the middle of user_gc, as `c`. */
  ghost predicate Collecting(b: Book, c: Book, relevant: Relevance, clock: Clock, sec: nat, i: nat, pos: nat) {
    && Sweeping(b.users, UserKept(relevant, clock, sec), c.users, i, pos)
    && c.nUsers == |c.users| && c.nProcesses == ProcessTotal(c.users) && c.nThreads == ThreadTotal(c.users)
    && forall k :: 0 <= k < |b.users| ==> Counted(b.users[k])
  }

  lemma CollectingStarts(l: Limits, b: Book, relevant: Relevance, clock: Clock)
    requires Ok(l, b)
    ensures Collecting(b, b, relevant, clock, l.burstSec, 0, 0)
  {
    SweepStarts(b.users, UserKept(relevant, clock, l.burstSec));
    hide Sweeping;
  }

  lemma CollectingAt(b: Book, c: Book, relevant: Relevance, clock: Clock, sec: nat, i: nat, pos: nat)
    requires Collecting(b, c, relevant, clock, sec, i, pos) && i < |c.users|
    ensures Counted(c.users[i]) && c.users[i].nProcesses <= c.nProcesses && c.users[i].nThreads <= c.nThreads
    ensures c.nUsers >= 1
  {
    SweepNext(b.users, UserKept(relevant, clock, sec), c.users, i, pos);
    TotalsAt(c.users, i);
    hide Sweeping, ProcessTotal, ThreadTotal;
  }

  /** The sweep moves on: past the user swept, or, if nothing keeps the user, onto the next. */
  lemma CollectingNext(b: Book, c: Book, relevant: Relevance, clock: Clock, sec: nat, i: nat, pos: nat, np: nat,
                       nt: nat)
    requires Collecting(b, c, relevant, clock, sec, i, pos) && i < |c.users|
    requires var v := SweptUser(c.users[i], relevant); np == v.nProcesses && nt == v.nThreads
    ensures var us, v := c.users, SweptUser(c.users[i], relevant);
      var np', nt' := c.nProcesses - (us[i].nProcesses - np), c.nThreads - (us[i].nThreads - nt);
      && np' >= 0 && nt' >= 0 && c.nUsers >= 1
      && (Keeps(v, clock, sec) ==>
          Collecting(b, Book(us[i := v], c.nUsers, np', nt'), relevant, clock, sec, i + 1, pos + 1))
      && (!Keeps(v, clock, sec) ==>
          Collecting(b, Book(Removed(us[i := v], i), c.nUsers - 1, np', nt'), relevant, clock, sec, i, pos + 1))
  {
    hide Sweeping, SweptUser, Collecting, Keeps, Counted, Removed;
    var us, v := c.users, SweptUser(c.users[i], relevant);
    SweptCounted(us[i], relevant);
    CollectingAt(b, c, relevant, clock, sec, i, pos);
    TotalsUpdated(us, i, v);
    var np', nt' := c.nProcesses - (us[i].nProcesses - np), c.nThreads - (us[i].nThreads - nt);
    Totals(b, c, relevant, clock, sec, i, pos);
    if Keeps(v, clock, sec) {
      Folded(b, us[i := v], np', nt', relevant, clock, sec, i + 1, pos + 1);
    } else {
      TotalsRemoved(us, i, v);
      RemovedUpdated(us, i, v);
      EmptyUnless(v, clock, sec);
      Folded(b, Removed(us[i := v], i), np', nt', relevant, clock, sec, i, pos + 1);
    }
  }

  lemma EmptyUnless(v: User, clock: Clock, sec: nat)
    requires !Keeps(v, clock, sec)
    ensures v.processes == []
  {
  }

  lemma Totals(b: Book, c: Book, relevant: Relevance, clock: Clock, sec: nat, i: nat, pos: nat)
    requires Collecting(b, c, relevant, clock, sec, i, pos) && i < |c.users|
    ensures c.nUsers == |c.users| && c.nProcesses == ProcessTotal(c.users) && c.nThreads == ThreadTotal(c.users)
    ensures forall k :: 0 <= k < |b.users| ==> Counted(b.users[k])
    ensures var us, v := c.users, SweptUser(c.users[i], relevant);
      && (Keeps(v, clock, sec) ==> Sweeping(b.users, UserKept(relevant, clock, sec), us[i := v], i + 1, pos + 1))
      && (!Keeps(v, clock, sec) ==> Sweeping(b.users, UserKept(relevant, clock, sec), Removed(us, i), i, pos + 1))
  {
    hide Sweeping, SweptUser, Keeps, ProcessTotal, ThreadTotal;
    SweepNext(b.users, UserKept(relevant, clock, sec), c.users, i, pos);
  }

  lemma Folded(b: Book, us: seq<User>, np: nat, nt: nat, relevant: Relevance, clock: Clock, sec: nat, i: nat, pos: nat)
    requires Sweeping(b.users, UserKept(relevant, clock, sec), us, i, pos) && np == ProcessTotal(us)
    requires nt == ThreadTotal(us)
    requires forall k :: 0 <= k < |b.users| ==> Counted(b.users[k])
    ensures Collecting(b, Book(us, |us|, np, nt), relevant, clock, sec, i, pos)
  {
  }

  lemma RemovedUpdated<A>(s: seq<A>, i: nat, x: A)
    requires i < |s|
    ensures Removed(s[i := x], i) == Removed(s, i)
  {
  }

  lemma CollectingEnds(b: Book, c: Book, relevant: Relevance, clock: Clock, sec: nat, i: nat, pos: nat)
    requires Collecting(b, c, relevant, clock, sec, i, pos) && i >= |c.users|
    ensures c == Collected(b, relevant, clock, sec) && c.nUsers == |c.users|
  {
    SweepWithin(b.users, UserKept(relevant, clock, sec), c.users, i, pos);
    SweepEnds(b.users, UserKept(relevant, clock, sec), c.users, i, pos);
    hide Sweeping, Select;
  }
}
