/** What a garbage collection of the registry leaves: exactly what still matters. */
module Collection {
  import opened Options
  import opened RegistryModel

  lemma {:induction false} SelectIn<A, B>(s: seq<A>, f: A -> Option<B>, x: B)
    ensures x in Select(s, f) <==> exists y :: y in s && f(y) == Some(x)
    decreases |s|
  {
    if s != [] {
      SelectIn(s[1..], f, x);
      assert s == [s[0]] + s[1..];
    }
  }

  // ---------------------------------------------------------------- who is in a registry

  ghost predicate UserHasThread(u: User, pid: int, starttime: int, t: Thread) {
    exists p :: p in u.processes && p.pid == pid && p.starttime == starttime && t in p.threads
  }

  ghost predicate HasThread(b: Book, uid: int, pid: int, starttime: int, t: Thread) {
    exists u :: u in b.users && u.uid == uid && UserHasThread(u, pid, starttime, t)
  }

  ghost predicate UserHasProcess(u: User, pid: int, starttime: int) {
    exists p :: p in u.processes && p.pid == pid && p.starttime == starttime
  }

  /** User `u` has the process, and a thread in it that still matters. */
  ghost predicate RelevantIn(u: User, pid: int, starttime: int, relevant: Relevance) {
    exists t :: UserHasThread(u, pid, starttime, t) && relevant(u.uid, Process(pid, starttime, []), t)
  }

  /** User `u` has a thread that still matters. */
  ghost predicate Active(u: User, relevant: Relevance) {
    exists pid, starttime :: RelevantIn(u, pid, starttime, relevant)
  }

  // ---------------------------------------------------------------- one user

  /** Of `ts` exactly the relevant threads are in `left`. */
  ghost predicate OnlyRelevant(ts: seq<Thread>, left: seq<Thread>, uid: int, key: Process, relevant: Relevance) {
    forall t :: t in left <==> t in ts && relevant(uid, key, t)
  }

  lemma ThreadsSelected(ts: seq<Thread>, uid: int, key: Process, relevant: Relevance)
    ensures OnlyRelevant(ts, Select(ts, ThreadKept(uid, key, relevant)), uid, key, relevant)
  {
    forall t ensures t in Select(ts, ThreadKept(uid, key, relevant)) <==> t in ts && relevant(uid, key, t) {
      SelectIn(ts, ThreadKept(uid, key, relevant), t);
    }
  }

  lemma ThreadLeft(uid: int, p: Process, relevant: Relevance, t: Thread)
    ensures t in Swept(uid, p, relevant).threads <==>
      t in p.threads && relevant(uid, Process(p.pid, p.starttime, []), t)
  {
    SelectIn(p.threads, ThreadKept(uid, p.(threads := []), relevant), t);
  }

  /** The processes left are the swept ones that have threads left. */
  lemma ProcessLeft(u: User, relevant: Relevance, q: Process)
    ensures q in SweptUser(u, relevant).processes <==>
      q.threads != [] && exists p :: p in u.processes && q == Swept(u.uid, p, relevant)
  {
    SelectIn(u.processes, ProcessKept(u.uid, relevant), q);
    hide Swept;
    if q in SweptUser(u, relevant).processes {
      var p :| p in u.processes && ProcessKept(u.uid, relevant)(p) == Some(q);
    }
    if q.threads != [] && exists p :: p in u.processes && q == Swept(u.uid, p, relevant) {
      var p :| p in u.processes && q == Swept(u.uid, p, relevant);
      assert ProcessKept(u.uid, relevant)(p) == Some(q);
    }
  }

  lemma SweptKeys(uid: int, p: Process, relevant: Relevance)
    ensures Swept(uid, p, relevant).pid == p.pid && Swept(uid, p, relevant).starttime == p.starttime
  {
  }

  lemma UserThreads(u: User, relevant: Relevance, pid: int, starttime: int, t: Thread)
    ensures UserHasThread(SweptUser(u, relevant), pid, starttime, t) <==>
      UserHasThread(u, pid, starttime, t) && relevant(u.uid, Process(pid, starttime, []), t)
  {
    var v := SweptUser(u, relevant);
    hide Swept, SweptUser;
    if UserHasThread(v, pid, starttime, t) {
      var q :| q in v.processes && q.pid == pid && q.starttime == starttime && t in q.threads;
      ProcessLeft(u, relevant, q);
      var p :| p in u.processes && q == Swept(u.uid, p, relevant);
      ThreadLeft(u.uid, p, relevant, t);
      SweptKeys(u.uid, p, relevant);
    }
    if UserHasThread(u, pid, starttime, t) && relevant(u.uid, Process(pid, starttime, []), t) {
      var p :| p in u.processes && p.pid == pid && p.starttime == starttime && t in p.threads;
      ThreadLeft(u.uid, p, relevant, t);
      SweptKeys(u.uid, p, relevant);
      ProcessLeft(u, relevant, Swept(u.uid, p, relevant));
    }
  }

  lemma UserProcesses(u: User, relevant: Relevance, pid: int, starttime: int)
    ensures UserHasProcess(SweptUser(u, relevant), pid, starttime) <==> RelevantIn(u, pid, starttime, relevant)
  {
    var v := SweptUser(u, relevant);
    hide Swept, SweptUser;
    if UserHasProcess(v, pid, starttime) {
      var q :| q in v.processes && q.pid == pid && q.starttime == starttime;
      ProcessLeft(u, relevant, q);
      var t := q.threads[0];
      assert UserHasThread(v, pid, starttime, t);
      UserThreads(u, relevant, pid, starttime, t);
    }
    if RelevantIn(u, pid, starttime, relevant) {
      var t :| UserHasThread(u, pid, starttime, t) && relevant(u.uid, Process(pid, starttime, []), t);
      UserThreads(u, relevant, pid, starttime, t);
    }
  }

  lemma UserEmptied(u: User, relevant: Relevance)
    ensures SweptUser(u, relevant).processes != [] <==> Active(u, relevant)
  {
    var v := SweptUser(u, relevant);
    hide SweptUser;
    if v.processes != [] {
      var q := v.processes[0];
      assert UserHasProcess(v, q.pid, q.starttime);
      UserProcesses(u, relevant, q.pid, q.starttime);
    }
    if Active(u, relevant) {
      var pid, starttime :| RelevantIn(u, pid, starttime, relevant);
      UserProcesses(u, relevant, pid, starttime);
    }
  }

  // ---------------------------------------------------------------- the registry

  /** The users left are those who have a thread that matters or are in a burst, with their burst records and with
      nothing else changed but their processes. */
  lemma UserLeft(b: Book, relevant: Relevance, clock: Clock, sec: nat, v: User)
    ensures v in Collected(b, relevant, clock, sec).users <==>
      exists u :: u in b.users && v == SweptUser(u, relevant)
                  && (Active(u, relevant) || clock(u.uid) < u.timestamp + sec)
  {
    hide SweptUser, Active, Select;
    var f := UserKept(relevant, clock, sec);
    SelectIn(b.users, f, v);
    if v in Collected(b, relevant, clock, sec).users {
      var u :| u in b.users && f(u) == Some(v);
      UserKeptIs(u, relevant, clock, sec);
    }
    if u :| u in b.users && v == SweptUser(u, relevant) && (Active(u, relevant) || clock(u.uid) < u.timestamp + sec) {
      UserKeptIs(u, relevant, clock, sec);
    }
  }

  lemma UserKeptIs(u: User, relevant: Relevance, clock: Clock, sec: nat)
    ensures UserKept(relevant, clock, sec)(u)
      == if Active(u, relevant) || clock(u.uid) < u.timestamp + sec then Some(SweptUser(u, relevant)) else None
  {
    UserEmptied(u, relevant);
    SweptRecord(u, relevant);
    hide SweptUser, Active;
  }

  lemma SweptRecord(u: User, relevant: Relevance)
    ensures var v := SweptUser(u, relevant); v.uid == u.uid && v.timestamp == u.timestamp && v.nActions == u.nActions
  {
  }

  /** A thread is in the registry after a collection if and only if it was there before and is relevant. */
  lemma ThreadsCollected(b: Book, relevant: Relevance, clock: Clock, sec: nat, uid: int, pid: int, starttime: int,
                         t: Thread)
    ensures HasThread(Collected(b, relevant, clock, sec), uid, pid, starttime, t) <==>
      HasThread(b, uid, pid, starttime, t) && relevant(uid, Process(pid, starttime, []), t)
  {
    var c := Collected(b, relevant, clock, sec);
    hide Collected, SweptUser, UserHasThread;
    if HasThread(c, uid, pid, starttime, t) {
      var v :| v in c.users && v.uid == uid && UserHasThread(v, pid, starttime, t);
      UserLeft(b, relevant, clock, sec, v);
      var u :| u in b.users && v == SweptUser(u, relevant);
      SweptRecord(u, relevant);
      UserThreads(u, relevant, pid, starttime, t);
    }
    if HasThread(b, uid, pid, starttime, t) && relevant(uid, Process(pid, starttime, []), t) {
      var u :| u in b.users && u.uid == uid && UserHasThread(u, pid, starttime, t);
      assert RelevantIn(u, pid, starttime, relevant);
      UserLeft(b, relevant, clock, sec, SweptUser(u, relevant));
      SweptRecord(u, relevant);
      UserThreads(u, relevant, pid, starttime, t);
    }
  }

  /** A process is in it if and only if it has a relevant thread. */
  lemma ProcessesCollected(b: Book, relevant: Relevance, clock: Clock, sec: nat, uid: int, pid: int, starttime: int)
    ensures (exists v :: v in Collected(b, relevant, clock, sec).users && v.uid == uid
                         && UserHasProcess(v, pid, starttime))
      <==> (exists u :: u in b.users && u.uid == uid && RelevantIn(u, pid, starttime, relevant))
  {
    var c := Collected(b, relevant, clock, sec);
    hide Collected, SweptUser, UserHasProcess, RelevantIn;
    if v :| v in c.users && v.uid == uid && UserHasProcess(v, pid, starttime) {
      UserLeft(b, relevant, clock, sec, v);
      var u :| u in b.users && v == SweptUser(u, relevant);
      SweptRecord(u, relevant);
      UserProcesses(u, relevant, pid, starttime);
    }
    if u :| u in b.users && u.uid == uid && RelevantIn(u, pid, starttime, relevant) {
      assert Active(u, relevant);
      UserLeft(b, relevant, clock, sec, SweptUser(u, relevant));
      SweptRecord(u, relevant);
      UserProcesses(u, relevant, pid, starttime);
    }
  }

  /** A user is in it, with the same burst record, if and only if the user has a relevant thread or is in a burst. */
  lemma UsersCollected(b: Book, relevant: Relevance, clock: Clock, sec: nat, uid: int, timestamp: int, nActions: nat)
    ensures (exists v :: v in Collected(b, relevant, clock, sec).users && v.uid == uid
                         && v.timestamp == timestamp && v.nActions == nActions)
      <==> (exists u :: u in b.users && u.uid == uid && u.timestamp == timestamp && u.nActions == nActions
                        && (Active(u, relevant) || clock(uid) < timestamp + sec))
  {
    var c := Collected(b, relevant, clock, sec);
    hide Collected, SweptUser, Active;
    if v :| v in c.users && v.uid == uid && v.timestamp == timestamp && v.nActions == nActions {
      UserLeft(b, relevant, clock, sec, v);
      var u :| u in b.users && v == SweptUser(u, relevant) && (Active(u, relevant) || clock(u.uid) < u.timestamp + sec);
      SweptRecord(u, relevant);
    }
    if u :| u in b.users && u.uid == uid && u.timestamp == timestamp && u.nActions == nActions
            && (Active(u, relevant) || clock(uid) < timestamp + sec) {
      UserLeft(b, relevant, clock, sec, SweptUser(u, relevant));
      SweptRecord(u, relevant);
    }
  }

  // ---------------------------------------------------------------- in the same order

  /** The users left, and the threads left of a process, are in the order in which they were. */
  lemma UsersInOrder(b: Book, relevant: Relevance, clock: Clock, sec: nat) returns (js: seq<nat>)
    ensures var us := Collected(b, relevant, clock, sec).users;
      |js| == |us| && Increasing(js, |b.users|) && forall i :: 0 <= i < |js| ==> us[i].uid == b.users[js[i]].uid
  {
    hide Select, SweptUser;
    var f := UserKept(relevant, clock, sec);
    js := SelectFilters(b.users, f);
    forall i | 0 <= i < |js| ensures Collected(b, relevant, clock, sec).users[i].uid == b.users[js[i]].uid {
      assert f(b.users[js[i]]) == Some(Select(b.users, f)[i]);
      SweptRecord(b.users[js[i]], relevant);
    }
  }

  lemma ThreadsInOrder(uid: int, p: Process, relevant: Relevance) returns (js: seq<nat>)
    ensures var ts := Swept(uid, p, relevant).threads;
      |js| == |ts| && Increasing(js, |p.threads|) && forall i :: 0 <= i < |js| ==> ts[i] == p.threads[js[i]]
  {
    var f := ThreadKept(uid, p.(threads := []), relevant);
    js := SelectFilters(p.threads, f);
    hide Select;
    forall i | 0 <= i < |js| ensures Swept(uid, p, relevant).threads[i] == p.threads[js[i]] {
      assert f(p.threads[js[i]]) == Some(Select(p.threads, f)[i]);
    }
  }
}
