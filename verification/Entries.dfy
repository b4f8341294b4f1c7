/** What lookups enter into the registry: exactly what was asked for, where it was asked for, and within the limits. */
module Entries {
  import opened RegistryModel
  import opened RegistryRuns
  import opened Collection

  ghost predicate HoldsProcess(b: Book, uid: int, pid: int, starttime: int) {
    exists u :: u in b.users && u.uid == uid && UserHasProcess(u, pid, starttime)
  }

  /** The user is there, with room for one more process, or thread. */
  ghost predicate RoomForProcess(l: Limits, b: Book, uid: int) {
    exists u :: u in b.users && u.uid == uid && |u.processes| < l.processes
  }

  ghost predicate RoomForThread(l: Limits, b: Book, uid: int) {
    exists u :: u in b.users && u.uid == uid && ThreadSum(u.processes) < l.threads
  }

  // ---------------------------------------------------------------- lists of users

  /** Replacing one user of a list with unique keys. */
  lemma OneReplaced(us: seq<User>, k: nat, v: User, u: User)
    requires UsersUnique(us) && k < |us| && v.uid == us[k].uid
    ensures u in us[k := v] <==> u == v || (u in us && u.uid != v.uid)
  {
    if u in us[k := v] {
      var i :| 0 <= i < |us| && us[k := v][i] == u;
    }
    if u in us && u.uid != v.uid {
      var i :| 0 <= i < |us| && us[i] == u;
      assert us[k := v][i] == u;
    }
    assert us[k := v][k] == v;
  }

  /** What the registry with one user replaced has. */
  lemma UserReplacedHas(b: Book, b': Book, k: nat, v: User, uid: int, pid: int, starttime: int, t: Thread)
    requires UsersUnique(b.users) && k < |b.users| && v.uid == b.users[k].uid && b'.users == b.users[k := v]
    ensures HasThread(b', uid, pid, starttime, t) <==>
      if uid == v.uid then UserHasThread(v, pid, starttime, t) else HasThread(b, uid, pid, starttime, t)
    ensures HoldsProcess(b', uid, pid, starttime) <==>
      if uid == v.uid then UserHasProcess(v, pid, starttime) else HoldsProcess(b, uid, pid, starttime)
  {
    hide UserHasThread, UserHasProcess;
    forall u ensures u in b'.users <==> u == v || (u in b.users && u.uid != v.uid) {
      OneReplaced(b.users, k, v, u);
    }
  }

  /** What the registry has for a user, that user has. */
  lemma UserHas(b: Book, k: nat, pid: int, starttime: int, t: Thread)
    requires UsersUnique(b.users) && k < |b.users|
    ensures var u := b.users[k];
      && (HasThread(b, u.uid, pid, starttime, t) <==> UserHasThread(u, pid, starttime, t))
      && (HoldsProcess(b, u.uid, pid, starttime) <==> UserHasProcess(u, pid, starttime))
  {
    hide UserHasThread, UserHasProcess;
    UserReplacedHas(b, b, k, b.users[k], b.users[k].uid, pid, starttime, t);
  }

  lemma RoomIs(l: Limits, b: Book, k: nat)
    requires Ok(l, b) && k < |b.users|
    ensures var u := b.users[k];
      && (RoomForProcess(l, b, u.uid) <==> u.nProcesses < l.processes)
      && (RoomForThread(l, b, u.uid) <==> u.nThreads < l.threads)
  {
    assert UserOk(l, b.users[k]);
  }

  // ---------------------------------------------------------------- one user

  lemma ProcessInFront(u: User, p: Process, v: User, pid: int, starttime: int, t: Thread)
    requires v.processes == [p] + u.processes && p.threads == []
    ensures UserHasThread(v, pid, starttime, t) <==> UserHasThread(u, pid, starttime, t)
    ensures UserHasProcess(v, pid, starttime) <==>
      UserHasProcess(u, pid, starttime) || (pid == p.pid && starttime == p.starttime)
  {
  }

  lemma ProcessReplaced(ps: seq<Process>, j: nat, q: Process, r: Process)
    requires j < |ps|
    ensures r in ps ==> r == ps[j] || r in ps[j := q]
    ensures r in ps[j := q] ==> r == q || r in ps
    ensures q in ps[j := q]
  {
    if r in ps {
      var i :| 0 <= i < |ps| && ps[i] == r;
      assert i != j ==> ps[j := q][i] == r;
    }
    assert ps[j := q][j] == q;
  }

  lemma ThreadInFront(u: User, j: nat, x: Thread, v: User, pid: int, starttime: int, t: Thread)
    requires j < |u.processes|
    requires var p := u.processes[j]; v.processes == u.processes[j := p.(threads := [x] + p.threads)]
    ensures UserHasThread(v, pid, starttime, t) <==>
      || UserHasThread(u, pid, starttime, t)
      || (pid == u.processes[j].pid && starttime == u.processes[j].starttime && t == x)
    ensures UserHasProcess(v, pid, starttime) <==> UserHasProcess(u, pid, starttime)
  {
    var p := u.processes[j];
    var q := p.(threads := [x] + p.threads);
    forall r
      ensures r in u.processes ==> r == p || r in v.processes
      ensures r in v.processes ==> r == q || r in u.processes
      ensures q in v.processes
    {
      ProcessReplaced(u.processes, j, q, r);
    }
  }

  // ---------------------------------------------------------------- one call

  /** The process or thread that a call asks for, where it is asked for, if there is room. */
  ghost predicate EntersProcess(l: Limits, b: Book, op: Op, uid: int, pid: int, starttime: int) {
    op == FindProcess(uid, pid, starttime, true) && RoomForProcess(l, b, uid)
  }

  ghost predicate EntersThread(l: Limits, b: Book, op: Op, uid: int, pid: int, starttime: int, t: Thread) {
    && op.FindThread? && op.memory && op.uid == uid && op.process.pid == pid && op.process.starttime == starttime
    && t == Thread(op.pid, op.starttime) && HoldsProcess(b, uid, pid, starttime) && RoomForThread(l, b, uid)
  }

  /** Among the calls that do not collect, only a lookup of a user adds a user: the one asked for, if there is room. */
  lemma UserEntered(l: Limits, b: Book, op: Op, uid: int)
    requires Ok(l, b) && !op.Collect?
    ensures HasUser(BookAfter(l, b, op).users, uid) <==>
      HasUser(b.users, uid) || (op.FindUser? && op.uid == uid && op.memory && |b.users| < l.users)
  {
    var us, us' := b.users, BookAfter(l, b, op).users;
    if op.FindUser? {
      if us' != us {
        assert us' == [us'[0]] + us;
        assert forall k :: 0 <= k < |us| ==> us'[k + 1] == us[k];
      } else if UserAt(us, op.uid) < |us| {
        assert us[UserAt(us, op.uid)].uid == op.uid;
      }
    } else {
      assert |us'| == |us| && forall k :: 0 <= k < |us| ==> us'[k].uid == us[k].uid;
    }
  }

  /** Likewise for threads: exactly the thread asked for, in the process it was asked for. */
  lemma ThreadEntered(l: Limits, b: Book, op: Op, uid: int, pid: int, starttime: int, t: Thread)
    requires Ok(l, b) && !op.Collect?
    ensures HasThread(BookAfter(l, b, op), uid, pid, starttime, t) <==>
      HasThread(b, uid, pid, starttime, t) || EntersThread(l, b, op, uid, pid, starttime, t)
  {
    hide Ok;
    match op
    case FindUser(_, _, _) => FrontHas(l, b, op, uid, pid, starttime, t);
    case FindProcess(_, _, _, _) => ProcessAdded(l, b, op, uid, pid, starttime, t);
    case FindThread(_, _, _, _, _) => ThreadAdded(l, b, op, uid, pid, starttime, t);
    case Verify(_, _, _) => RecordStored(l, b, op, uid, pid, starttime, t);
    hide BookAfter, HasThread, EntersThread;
  }

  /** Likewise for processes. */
  lemma ProcessEntered(l: Limits, b: Book, op: Op, uid: int, pid: int, starttime: int)
    requires Ok(l, b) && !op.Collect?
    ensures HoldsProcess(BookAfter(l, b, op), uid, pid, starttime) <==>
      HoldsProcess(b, uid, pid, starttime) || EntersProcess(l, b, op, uid, pid, starttime)
  {
    hide Ok;
    var t := Thread(0, 0);
    match op
    case FindUser(_, _, _) => FrontHas(l, b, op, uid, pid, starttime, t);
    case FindProcess(_, _, _, _) => ProcessAdded(l, b, op, uid, pid, starttime, t);
    case FindThread(_, _, _, _, _) => ThreadAdded(l, b, op, uid, pid, starttime, t);
    case Verify(_, _, _) => RecordStored(l, b, op, uid, pid, starttime, t);
    hide BookAfter, HoldsProcess, EntersProcess;
  }

  lemma FrontHas(l: Limits, b: Book, op: Op, uid: int, pid: int, starttime: int, t: Thread)
    requires Ok(l, b) && op.FindUser?
    ensures HasThread(BookAfter(l, b, op), uid, pid, starttime, t) <==> HasThread(b, uid, pid, starttime, t)
    ensures HoldsProcess(BookAfter(l, b, op), uid, pid, starttime) <==> HoldsProcess(b, uid, pid, starttime)
  {
    var u := User(op.uid, op.now, 0, [], 0, 0);
    assert !UserHasThread(u, pid, starttime, t) && !UserHasProcess(u, pid, starttime);
    hide UserHasThread, UserHasProcess, Ok;
    var b' := BookAfter(l, b, op);
    assert b'.users == b.users || forall v :: v in b'.users <==> v == u || v in b.users;
  }

  lemma RecordStored(l: Limits, b: Book, op: Op, uid: int, pid: int, starttime: int, t: Thread)
    requires Ok(l, b) && op.Verify?
    ensures HasThread(BookAfter(l, b, op), uid, pid, starttime, t) <==> HasThread(b, uid, pid, starttime, t)
    ensures HoldsProcess(BookAfter(l, b, op), uid, pid, starttime) <==> HoldsProcess(b, uid, pid, starttime)
  {
    var b', k := BookAfter(l, b, op), UserAt(b.users, op.uid);
    if k < |b.users| {
      var u, v := b.users[k], b'.users[k];
      UserReplacedHas(b, b', k, v, uid, pid, starttime, t);
      UserHas(b, k, pid, starttime, t);
      hide HasThread, HoldsProcess, Ok;
    }
  }

  lemma ProcessAdded(l: Limits, b: Book, op: Op, uid: int, pid: int, starttime: int, t: Thread)
    requires Ok(l, b) && op.FindProcess?
    ensures HasThread(BookAfter(l, b, op), uid, pid, starttime, t) <==> HasThread(b, uid, pid, starttime, t)
    ensures HoldsProcess(BookAfter(l, b, op), uid, pid, starttime) <==>
      HoldsProcess(b, uid, pid, starttime) || EntersProcess(l, b, op, uid, pid, starttime)
  {
    var b', k := BookAfter(l, b, op), UserAt(b.users, op.uid);
    if k < |b.users| {
      var u, v := b.users[k], b'.users[k];
      UserReplacedHas(b, b', k, v, uid, pid, starttime, t);
      UserHas(b, k, pid, starttime, t);
      RoomIs(l, b, k);
      hide HasThread, HoldsProcess, Ok;
      if b' != b {
        ProcessInFront(u, Process(op.pid, op.starttime, []), v, pid, starttime, t);
      }
    } else {
      NoUserAt(b.users, op.uid);
    }
  }

  lemma ThreadAdded(l: Limits, b: Book, op: Op, uid: int, pid: int, starttime: int, t: Thread)
    requires Ok(l, b) && op.FindThread?
    ensures HasThread(BookAfter(l, b, op), uid, pid, starttime, t) <==>
      HasThread(b, uid, pid, starttime, t) || EntersThread(l, b, op, uid, pid, starttime, t)
    ensures HoldsProcess(BookAfter(l, b, op), uid, pid, starttime) <==> HoldsProcess(b, uid, pid, starttime)
  {
    var b', k := BookAfter(l, b, op), UserAt(b.users, op.uid);
    if k < |b.users| {
      var u, v := b.users[k], b'.users[k];
      UserReplacedHas(b, b', k, v, uid, pid, starttime, t);
      UserHas(b, k, pid, starttime, t);
      RoomIs(l, b, k);
      assert UserOk(l, u);
      hide HasThread, HoldsProcess, Ok;
      var j := ProcessAt(u.processes, op.process.pid, op.process.starttime);
      if b' != b {
        ThreadInFront(u, j, Thread(op.pid, op.starttime), v, pid, starttime, t);
      } else if j == |u.processes| {
        NoProcessAt(u.processes, op.process.pid, op.process.starttime);
      }
    } else {
      NoUserAt(b.users, op.uid);
    }
  }
}
