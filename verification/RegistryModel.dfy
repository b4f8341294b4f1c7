/** The RealtimeKit registry (benchmarks/debian/rtkit-0.10/rtkit-daemon.c) as a value. */
module RegistryModel {
  // Users, their processes and their threads in list order, with the counters the daemon keeps beside them.

  import opened Options
  import BurstLimiter

  /** Lines 197-203. */
  datatype Thread = Thread(pid: int, starttime: int)

  /** Lines 205-212. */
  datatype Process = Process(pid: int, starttime: int, threads: seq<Thread>)

  /** Lines 214-225. */
  datatype User = User(uid: int, timestamp: int, nActions: nat, processes: seq<Process>, nProcesses: nat, nThreads: nat)

  /** Lines 227-230. */
  datatype Book = Book(users: seq<User>, nUsers: nat, nProcesses: nat, nThreads: nat)

  /** Lines 146-159. */
  datatype Limits = Limits(users: nat, processes: nat, threads: nat, burstSec: nat, burstMax: nat)

  // ---------------------------------------------------------------- counting

  function ThreadSum(ps: seq<Process>): nat {
    if ps == [] then 0 else |ps[0].threads| + ThreadSum(ps[1..])
  }

  function ProcessTotal(us: seq<User>): nat {
    if us == [] then 0 else us[0].nProcesses + ProcessTotal(us[1..])
  }

  function ThreadTotal(us: seq<User>): nat {
    if us == [] then 0 else us[0].nThreads + ThreadTotal(us[1..])
  }

  lemma {:induction false} ThreadSumConcat(ps: seq<Process>, qs: seq<Process>)
    ensures ThreadSum(ps + qs) == ThreadSum(ps) + ThreadSum(qs)
    decreases |ps|
  {
    if ps == [] {
      assert ps + qs == qs;
    } else {
      ThreadSumConcat(ps[1..], qs);
      assert (ps + qs)[1..] == ps[1..] + qs;
    }
  }

  lemma {:induction false} TotalsConcat(us: seq<User>, vs: seq<User>)
    ensures ProcessTotal(us + vs) == ProcessTotal(us) + ProcessTotal(vs)
    ensures ThreadTotal(us + vs) == ThreadTotal(us) + ThreadTotal(vs)
    decreases |us|
  {
    if us == [] {
      assert us + vs == vs;
    } else {
      TotalsConcat(us[1..], vs);
      assert (us + vs)[1..] == us[1..] + vs;
    }
  }

  lemma ThreadSumUpdated(ps: seq<Process>, j: nat, p: Process)
    requires j < |ps|
    ensures ThreadSum(ps[j := p]) == ThreadSum(ps) - |ps[j].threads| + |p.threads|
  {
    var a, b := ps[..j], ps[j + 1..];
    assert ps == a + ([ps[j]] + b) && ps[j := p] == a + ([p] + b);
    ThreadSumConcat(a, [ps[j]] + b);
    ThreadSumConcat(a, [p] + b);
    assert ([ps[j]] + b)[1..] == b && ([p] + b)[1..] == b;
  }

  lemma TotalsUpdated(us: seq<User>, k: nat, u: User)
    requires k < |us|
    ensures ProcessTotal(us[k := u]) == ProcessTotal(us) - us[k].nProcesses + u.nProcesses
    ensures ThreadTotal(us[k := u]) == ThreadTotal(us) - us[k].nThreads + u.nThreads
  {
    var a, b := us[..k], us[k + 1..];
    assert us == a + ([us[k]] + b) && us[k := u] == a + ([u] + b);
    TotalsConcat(a, [us[k]] + b);
    TotalsConcat(a, [u] + b);
    assert ([us[k]] + b)[1..] == b && ([u] + b)[1..] == b;
  }

  // ---------------------------------------------------------------- the invariant

  predicate ThreadsUnique(ts: seq<Thread>) { forall i, j :: 0 <= i < j < |ts| ==> ts[i] != ts[j] }

  predicate SameProcess(p: Process, q: Process) { p.pid == q.pid && p.starttime == q.starttime }

  predicate ProcessesUnique(ps: seq<Process>) {
    && (forall i, j :: 0 <= i < j < |ps| ==> !SameProcess(ps[i], ps[j]))
    && (forall i :: 0 <= i < |ps| ==> ThreadsUnique(ps[i].threads))
  }

  predicate UsersUnique(us: seq<User>) { forall i, j :: 0 <= i < j < |us| ==> us[i].uid != us[j].uid }

  /** A user's counters are the lengths of the lists, within the limits, and keys are unique. */
  predicate UserOk(l: Limits, u: User) {
    && u.nProcesses == |u.processes| <= l.processes
    && u.nThreads == ThreadSum(u.processes) <= l.threads
    && ProcessesUnique(u.processes)
  }

  predicate Ok(l: Limits, b: Book) {
    && b.nUsers == |b.users| <= l.users
    && b.nProcesses == ProcessTotal(b.users) && b.nThreads == ThreadTotal(b.users)
    && UsersUnique(b.users)
    && forall k :: 0 <= k < |b.users| ==> UserOk(l, b.users[k])
  }

  // ---------------------------------------------------------------- lookups add at the front

  predicate HasUser(us: seq<User>, uid: int) { exists k :: 0 <= k < |us| && us[k].uid == uid }

  predicate HasProcess(ps: seq<Process>, pid: int, starttime: int) {
    exists j :: 0 <= j < |ps| && ps[j].pid == pid && ps[j].starttime == starttime
  }

  /** Lines 385-395. */
  function AddUser(b: Book, uid: int, now: int): Book {
    b.(users := [User(uid, now, 0, [], 0, 0)] + b.users, nUsers := b.nUsers + 1)
  }

  /** Lines 416-425. */
  function AddProcess(b: Book, k: nat, pid: int, starttime: int): Book
    requires k < |b.users|
  {
    var u := b.users[k];
    b.(users := b.users[k :=
                        u.(processes := [Process(pid, starttime, [])] + u.processes, nProcesses := u.nProcesses + 1)],
       nProcesses := b.nProcesses + 1)
  }

  /** Lines 446-454. */
  function AddThread(b: Book, k: nat, j: nat, pid: int, starttime: int): Book
    requires k < |b.users| && j < |b.users[k].processes|
  {
    var u := b.users[k];
    var p := u.processes[j];
    b.(users := b.users[k := u.(processes := u.processes[j := p.(threads := [Thread(pid, starttime)] + p.threads)],
                                nThreads := u.nThreads + 1)],
       nThreads := b.nThreads + 1)
  }

  lemma AddUserOk(l: Limits, b: Book, uid: int, now: int)
    requires Ok(l, b) && !HasUser(b.users, uid) && b.nUsers < l.users
    ensures Ok(l, AddUser(b, uid, now))
  {
    var us := AddUser(b, uid, now).users;
    assert us[1..] == b.users;
    assert forall k :: 0 < k < |us| ==> us[k] == b.users[k - 1];
  }

  lemma UserReplaced(l: Limits, b: Book, k: nat, u: User, np: nat, nt: nat)
    requires Ok(l, b) && k < |b.users| && UserOk(l, u) && u.uid == b.users[k].uid
    requires np == b.nProcesses - b.users[k].nProcesses + u.nProcesses
    requires nt == b.nThreads - b.users[k].nThreads + u.nThreads
    ensures Ok(l, Book(b.users[k := u], b.nUsers, np, nt))
  {
    TotalsUpdated(b.users, k, u);
  }

  lemma AddProcessOk(l: Limits, b: Book, k: nat, pid: int, starttime: int)
    requires Ok(l, b) && k < |b.users| && !HasProcess(b.users[k].processes, pid, starttime)
    requires b.users[k].nProcesses < l.processes
    ensures Ok(l, AddProcess(b, k, pid, starttime))
  {
    var u, p := b.users[k], Process(pid, starttime, []);
    var u' := u.(processes := [p] + u.processes, nProcesses := u.nProcesses + 1);
    assert u'.processes[1..] == u.processes;
    assert UserOk(l, u') by {
      assert forall j :: 0 < j < |u'.processes| ==> u'.processes[j] == u.processes[j - 1];
    }
    UserReplaced(l, b, k, u', b.nProcesses + 1, b.nThreads);
  }

  lemma AddThreadOk(l: Limits, b: Book, k: nat, j: nat, pid: int, starttime: int)
    requires Ok(l, b) && k < |b.users| && j < |b.users[k].processes|
    requires Thread(pid, starttime) !in b.users[k].processes[j].threads && b.users[k].nThreads < l.threads
    ensures Ok(l, AddThread(b, k, j, pid, starttime))
  {
    var u, t := b.users[k], Thread(pid, starttime);
    var p := u.processes[j];
    var p' := p.(threads := [t] + p.threads);
    ThreadSumUpdated(u.processes, j, p');
    assert ThreadsUnique(p'.threads) by {
      assert ThreadsUnique(p.threads);
      assert forall i :: 0 < i < |p'.threads| ==> p'.threads[i] == p.threads[i - 1];
    }
    UserReplaced(l, b, k, u.(processes := u.processes[j := p'], nThreads := u.nThreads + 1), b.nProcesses,
                 b.nThreads + 1);
  }

  // ---------------------------------------------------------------- bursts

  function Burst(u: User): BurstLimiter.Record { BurstLimiter.Record(u.timestamp, u.nActions) }

  function WithBurst(b: Book, k: nat, r: BurstLimiter.Record): Book
    requires k < |b.users|
  {
    b.(users := b.users[k := b.users[k].(timestamp := r.timestamp, nActions := r.nActions)])
  }

  lemma WithBurstOk(l: Limits, b: Book, k: nat, r: BurstLimiter.Record)
    requires Ok(l, b) && k < |b.users|
    ensures Ok(l, WithBurst(b, k, r))
  {
    UserReplaced(l, b, k, b.users[k].(timestamp := r.timestamp, nActions := r.nActions), b.nProcesses, b.nThreads);
  }

  // ---------------------------------------------------------------- garbage collection

  /** What the system says of a thread of a process of a user, line 460. */
  type Relevance = (int, Process, Thread) -> bool

  /** The clock as read when a user is looked at, line 347. */
  type Clock = int -> int

  /** What `f` makes of the elements it keeps, in order. */
  function Select<A, B>(s: seq<A>, f: A -> Option<B>): (r: seq<B>)
    ensures |r| <= |s|
  {
    if s == [] then []
    else Kept(s[0], f) + Select(s[1..], f)
  }

  predicate Increasing(js: seq<nat>, n: nat) {
    && (forall i :: 0 <= i < |js| ==> js[i] < n)
    && (forall i, j :: 0 <= i < j < |js| ==> js[i] < js[j])
  }

  /** Selecting is an order-preserving filter: the result is `f` of the elements at the places `js`, in
      order, and those are all the places where `f` keeps something. */
  ghost predicate Filters<A, B>(s: seq<A>, f: A -> Option<B>, r: seq<B>, js: seq<nat>) {
    && |js| == |r| && Increasing(js, |s|)
    && (forall i :: 0 <= i < |js| ==> f(s[js[i]]) == Some(r[i]))
    && (forall j :: 0 <= j < |s| && f(s[j]).Some? ==> j in js)
  }

  function Kept<A, B>(x: A, f: A -> Option<B>): seq<B> { if f(x).Some? then [f(x).value] else [] }

  function Next(ks: seq<nat>): (js: seq<nat>)
    ensures |js| == |ks| && forall i :: 0 <= i < |ks| ==> js[i] == ks[i] + 1
  {
    seq(|ks|, i requires 0 <= i < |ks| => ks[i] + 1)
  }

  /** The places in a list, from those in its tail. */
  lemma Shifted<A, B>(s: seq<A>, f: A -> Option<B>, r: seq<B>, ks: seq<nat>)
    requires s != [] && Filters(s[1..], f, r, ks)
    ensures f(s[0]).None? ==> Filters(s, f, r, Next(ks))
    ensures f(s[0]).Some? ==> Filters(s, f, [f(s[0]).value] + r, [0] + Next(ks))
  {
    var js := Next(ks);
    forall j | 0 < j < |s| && f(s[j]).Some? ensures j in js {
      assert s[1..][j - 1] == s[j];
      var i :| 0 <= i < |ks| && ks[i] == j - 1;
      assert js[i] == j;
    }
    forall i | 0 <= i < |ks| ensures f(s[js[i]]) == Some(r[i]) {
      assert s[1..][ks[i]] == s[js[i]];
    }
    if f(s[0]).Some? {
      Fronted(s, f, r, js, f(s[0]).value);
    }
  }

  lemma Fronted<A, B>(s: seq<A>, f: A -> Option<B>, r: seq<B>, js: seq<nat>, x: B)
    requires s != [] && |js| == |r| && Increasing(js, |s|) && f(s[0]) == Some(x)
    requires forall i :: 0 <= i < |js| ==> js[i] > 0 && f(s[js[i]]) == Some(r[i])
    requires forall j :: 0 < j < |s| && f(s[j]).Some? ==> j in js
    ensures Filters(s, f, [x] + r, [0] + js)
  {
    var places, t := [0] + js, [x] + r;
    forall i | 0 <= i < |places| ensures f(s[places[i]]) == Some(t[i]) {
      if i > 0 {
        assert places[i] == js[i - 1] && t[i] == r[i - 1];
      }
    }
  }

  lemma {:induction false} SelectFilters<A, B>(s: seq<A>, f: A -> Option<B>) returns (js: seq<nat>)
    ensures Filters(s, f, Select(s, f), js)
    decreases |s|
  {
    if s == [] {
      js := [];
    } else {
      var ks := SelectFilters(s[1..], f);
      Shifted(s, f, Select(s[1..], f), ks);
      js := if f(s[0]).Some? then [0] + Next(ks) else Next(ks);
      SelectStep(s, f);
      EmptyFront(Select(s[1..], f));
      hide Filters, Select, Next;
    }
  }

  lemma EmptyFront<A>(s: seq<A>)
    ensures [] + s == s
  {
  }

  lemma SelectStep<A, B>(s: seq<A>, f: A -> Option<B>)
    requires s != []
    ensures Select(s, f) == Kept(s[0], f) + Select(s[1..], f)
  {
  }

  /** What becomes of a thread of the process that `key`, without its threads, identifies. */
  function ThreadKept(uid: int, key: Process, relevant: Relevance): Thread -> Option<Thread> {
    t => if relevant(uid, key, t) then Some(t) else None
  }

  /** A process without the threads that no longer matter (lines 516-541). */
  function Swept(uid: int, p: Process, relevant: Relevance): Process {
    p.(threads := Select(p.threads, ThreadKept(uid, p.(threads := []), relevant)))
  }

  function ProcessKept(uid: int, relevant: Relevance): Process -> Option<Process> {
    p => if Swept(uid, p, relevant).threads != [] then Some(Swept(uid, p, relevant)) else None
  }

  /** A user without those threads and without the processes left empty (lines 543-569). */
  function SweptUser(u: User, relevant: Relevance): User {
    var ps := Select(u.processes, ProcessKept(u.uid, relevant));
    u.(processes := ps, nProcesses := |ps|, nThreads := ThreadSum(ps))
  }

  /** Lines 346-350. */
  predicate InBurst(u: User, now: int, sec: nat) { BurstLimiter.InBurst(Burst(u), now, sec) }

  predicate Keeps(u: User, clock: Clock, sec: nat) { u.processes != [] || InBurst(u, clock(u.uid), sec) }

  function UserKept(relevant: Relevance, clock: Clock, sec: nat): User -> Option<User> {
    u => if Keeps(SweptUser(u, relevant), clock, sec) then Some(SweptUser(u, relevant)) else None
  }

  /** The registry after user_gc (lines 571-594). */
  function Collected(b: Book, relevant: Relevance, clock: Clock, sec: nat): Book {
    var us := Select(b.users, UserKept(relevant, clock, sec));
    Book(us, |us|, ProcessTotal(us), ThreadTotal(us))
  }

  lemma SweptUnique(uid: int, p: Process, relevant: Relevance)
    requires ThreadsUnique(p.threads)
    ensures ThreadsUnique(Swept(uid, p, relevant).threads)
  {
    var ts, f := Swept(uid, p, relevant).threads, ThreadKept(uid, p.(threads := []), relevant);
    var js := SelectFilters(p.threads, f);
    forall i, j | 0 <= i < j < |ts| ensures ts[i] != ts[j] {
      assert f(p.threads[js[i]]) == Some(ts[i]) && f(p.threads[js[j]]) == Some(ts[j]);
    }
  }

  lemma {:induction false} SweptFewer(uid: int, ps: seq<Process>, relevant: Relevance)
    ensures ThreadSum(Select(ps, ProcessKept(uid, relevant))) <= ThreadSum(ps)
    decreases |ps|
  {
    if ps != [] {
      var f := ProcessKept(uid, relevant);
      SweptFewer(uid, ps[1..], relevant);
      SelectStep(ps, f);
      hide Select;
      ThreadSumConcat(Kept(ps[0], f), Select(ps[1..], f));
      assert ThreadSum([Swept(uid, ps[0], relevant)]) == |Swept(uid, ps[0], relevant).threads|;
    }
  }

  lemma SweptKey(uid: int, p: Process, relevant: Relevance)
    ensures SameProcess(Swept(uid, p, relevant), p)
  {
  }

  lemma SweptUserOk(l: Limits, u: User, relevant: Relevance)
    requires UserOk(l, u)
    ensures UserOk(l, SweptUser(u, relevant))
  {
    hide Select, Swept, ThreadsUnique;
    var f := ProcessKept(u.uid, relevant);
    var js := SelectFilters(u.processes, f);
    var ps := SweptUser(u, relevant).processes;
    SweptFewer(u.uid, u.processes, relevant);
    forall i | 0 <= i < |ps| ensures ThreadsUnique(ps[i].threads) {
      assert f(u.processes[js[i]]) == Some(ps[i]);
      SweptUnique(u.uid, u.processes[js[i]], relevant);
    }
    forall i, j | 0 <= i < j < |ps| ensures !SameProcess(ps[i], ps[j]) {
      assert f(u.processes[js[i]]) == Some(ps[i]) && f(u.processes[js[j]]) == Some(ps[j]);
      SweptKey(u.uid, u.processes[js[i]], relevant);
      SweptKey(u.uid, u.processes[js[j]], relevant);
      assert !SameProcess(u.processes[js[i]], u.processes[js[j]]);
    }
  }

  /** Collecting keeps the invariant. */
  lemma CollectedOk(l: Limits, b: Book, relevant: Relevance, clock: Clock)
    requires Ok(l, b)
    ensures Ok(l, Collected(b, relevant, clock, l.burstSec))
  {
    hide Select, SweptUser, UserOk, Keeps;
    var f := UserKept(relevant, clock, l.burstSec);
    var us := Collected(b, relevant, clock, l.burstSec).users;
    var js := SelectFilters(b.users, f);
    forall i | 0 <= i < |us| ensures UserOk(l, us[i]) {
      assert f(b.users[js[i]]) == Some(us[i]);
      SweptUserOk(l, b.users[js[i]], relevant);
    }
    forall i, j | 0 <= i < j < |us| ensures us[i].uid != us[j].uid {
      assert f(b.users[js[i]]) == Some(us[i]) && f(b.users[js[j]]) == Some(us[j]);
      SweptUid(b.users[js[i]], relevant);
      SweptUid(b.users[js[j]], relevant);
    }
  }

  lemma SweptUid(u: User, relevant: Relevance)
    ensures SweptUser(u, relevant).uid == u.uid
  {
  }
}
