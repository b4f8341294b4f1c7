/** What the stores of the registry's operations do to its lists:
    a thread, a process or a user is unlinked and freed,
    a user is swept,
    and everything is freed at the end. */
module RegistrySteps {
  import opened Collections
  import opened RegistryModel
  import opened NodeMemory
  import opened RegistryMemory
  import opened Sweeps
  import BurstLimiter

  predicate IsUser(m: Memory, a: int) { a in m && m[a].fields.UserFields? }
  predicate IsProcess(m: Memory, a: int) { a in m && m[a].fields.ProcessFields? }

  /** From `m` to `m'`, the threads `ts` of process `p` of user `u` became `ts'`: the others were freed, and besides
      the links between the threads only `p`'s pointer and `u`'s counter changed. */
  ghost predicate ThreadsSwept(m: Memory, m': Memory, u: int, p: int, ts: seq<ThreadTree>, ts': seq<ThreadTree>) {
    && IsUser(m, u) && IsUser(m', u) && IsProcess(m, p) && p in m'
    && m'[u] == m[u].(fields := m[u].fields.(nThreads := m'[u].fields.nThreads))
    && m'[u].fields.nThreads + |ts| == m[u].fields.nThreads + |ts'|
    && m'[p] == m[p].(fields := m[p].fields.(threads := At(ThreadNodes(ts'), 0)))
    && ThreadCells(ts') <= ThreadCells(ts) && m'.Keys == m.Keys - (ThreadCells(ts) - ThreadCells(ts'))
    && ThreadsStay(ts, ts')
    && forall a :: a in m && a != u && a != p && a !in ThreadCells(ts) ==> a in m' && m'[a] == m[a]
  }

  lemma ThreadsSweptTrans(m: Memory, m1: Memory, m2: Memory, u: int, p: int, ts: seq<ThreadTree>, ts1: seq<ThreadTree>,
                          ts2: seq<ThreadTree>)
    requires ThreadsSwept(m, m1, u, p, ts, ts1) && ThreadsSwept(m1, m2, u, p, ts1, ts2)
    ensures ThreadsSwept(m, m2, u, p, ts, ts2)
  {
  }

  lemma ThreadsSweptSelf(m: Memory, u: int, p: int, ts: seq<ThreadTree>)
    requires IsUser(m, u) && IsProcess(m, p) && m[p].fields.threads == At(ThreadNodes(ts), 0)
    ensures ThreadsSwept(m, m, u, p, ts, ts)
  {
  }

  /** What thread_relevant sees of a process. */
  function Key(f: Fields): Process
    requires f.ProcessFields?
  {
    Process(f.pid, f.starttime, [])
  }

  /** A pointer walking the threads. */
  lemma ThreadsWalk(m: Memory, ts: seq<ThreadTree>, i: nat)
    requires HoldsThreads(m, ts) && i <= |ts|
    ensures At(ThreadNodes(ts), i) != NULL <==> i < |ts|
    ensures i < |ts| ==> ts[i].at == At(ThreadNodes(ts), i) && ts[i].at in m
    ensures i < |ts| ==> m[ts[i].at] == Cell(ThreadFields(ts[i].thread), At(ThreadNodes(ts), i + 1))
  {
    ListWalk(m, At(ThreadNodes(ts), 0), ThreadNodes(ts), i);
  }

  /** Where the cursors stand after a removal. */
  lemma AfterRemoval(ts: seq<ThreadTree>, i: nat)
    requires i < |ts|
    ensures At(ThreadNodes(Removed(ts, i)), i) == At(ThreadNodes(ts), i + 1)
    ensures (i > 0 ==> Removed(ts, i)[i - 1] == ts[i - 1])
  {
  }

  lemma NotThread(m: Memory, ts: seq<ThreadTree>, a: int)
    requires HoldsThreads(m, ts) && a in m && !m[a].fields.ThreadFields?
    ensures a !in ThreadCells(ts)
  {
    forall i | 0 <= i < |ts| ensures ThreadNodes(ts)[i].at != a {
      assert ThreadNodes(ts)[i].at in m;
    }
  }

  /** The stores of lines 525-535 lead to the list without thread `i`. */
  lemma ThreadCut(m: Memory, m': Memory, u: int, p: int, ts: seq<ThreadTree>, i: nat)
    requires HoldsThreads(m, ts) && i < |ts| && IsUser(m, u) && IsProcess(m, p)
    requires m[p].fields.threads == At(ThreadNodes(ts), 0)
    requires m[u].fields.nThreads >= 1
    requires var c := Cut(m, ThreadNodes(ts), i);
      m' == (if i == 0 then c[p := m[p].(fields := m[p].fields.(threads := At(ThreadNodes(ts), 1)))] else c)
            [u := m[u].(fields := m[u].fields.(nThreads := m[u].fields.nThreads - 1))]
    ensures HoldsThreads(m', Removed(ts, i)) && ThreadsSwept(m, m', u, p, ts, Removed(ts, i))
  {
    hide List, Cut, HoldsThreads, Addrs, ThreadCells, Removed, ThreadNodes;
    var c := Cut(m, ThreadNodes(ts), i);
    NotThread(m, ts, u);
    NotThread(m, ts, p);
    ThreadListCut(m, ts, i);
    ThreadsStayBut(ts, i);
    ThreadsFrame(c, m', Removed(ts, i));
  }

  lemma ThreadListCut(m: Memory, ts: seq<ThreadTree>, i: nat)
    requires HoldsThreads(m, ts) && i < |ts|
    ensures var ns, qs := ThreadNodes(ts), Removed(ts, i);
      && Cut(m, ns, i).Keys == m.Keys - {ts[i].at} && HoldsThreads(Cut(m, ns, i), qs) && |qs| == |ts| - 1
      && (forall a :: a in m && a !in ThreadCells(ts) ==> a in Cut(m, ns, i) && Cut(m, ns, i)[a] == m[a])
      && ThreadCells(qs) == ThreadCells(ts) - {ts[i].at} && ts[i].at in ThreadCells(ts)
      && At(ThreadNodes(qs), 0) == if i == 0 then At(ns, 1) else At(ns, 0)
  {
    var ns := ThreadNodes(ts);
    ListCut(m, At(ns, 0), ns, i);
    CutFrame(m, At(ns, 0), ns, i);
    RemovedThread(ts, i);
    AddrsRemoved(ns, i);
    hide List, Cut, Addrs;
  }

  /** From `m` to `m'`, user `v` became `v'` and gave up the nodes it no longer has; nothing else changed. */
  ghost predicate UserSwept(m: Memory, m': Memory, v: UserTree, v': UserTree) {
    && v.at in m && v.at in m' && m[v.at].fields == UserCell(v) && m'[v.at] == Cell(UserCell(v'), m[v.at].next)
    && v' == v.(processes := v'.processes, nProcesses := v'.nProcesses, nThreads := v'.nThreads)
    && ProcessCells(v'.processes) <= ProcessCells(v.processes) && ProcessesStay(v.processes, v'.processes)
    && m'.Keys == m.Keys - (ProcessCells(v.processes) - ProcessCells(v'.processes))
    && forall a :: a in m && a != v.at && a !in ProcessCells(v.processes) ==> a in m' && m'[a] == m[a]
  }

  lemma UserSweptTrans(m: Memory, m1: Memory, m2: Memory, v: UserTree, v1: UserTree, v2: UserTree)
    requires UserSwept(m, m1, v, v1) && UserSwept(m1, m2, v1, v2)
    ensures UserSwept(m, m2, v, v2)
  {
    hide ProcessesStay, UserCell, ProcessCells;
    ProcessesStayTrans(v.processes, v1.processes, v2.processes);
  }

  lemma UserSweptSelf(m: Memory, v: UserTree)
    requires v.at in m && m[v.at].fields == UserCell(v)
    ensures UserSwept(m, m, v, v)
  {
    ProcessesStaySelf(v.processes);
    hide ProcessesStay;
  }

  function ThreadsReplaced(v: UserTree, i: nat, ts: seq<ThreadTree>, n: nat): UserTree
    requires i < |v.processes|
  {
    v.(processes := v.processes[i := v.processes[i].(threads := ts)], nThreads := n)
  }

  /** Sweeping the threads of process `i` of `v`. */
  lemma AfterThreads(m: Memory, m': Memory, v: UserTree, i: nat, ts: seq<ThreadTree>)
    requires HoldsProcesses(m, v.processes) && i < |v.processes| && v.at in m && m[v.at].fields == UserCell(v)
    requires ThreadsSwept(m, m', v.at, v.processes[i].at, v.processes[i].threads, ts) && HoldsThreads(m', ts)
    ensures var v' := ThreadsReplaced(v, i, ts, m'[v.at].fields.nThreads);
      HoldsProcesses(m', v'.processes) && UserSwept(m, m', v, v')
  {
    hide HoldsProcesses, HoldsThreads, ThreadsSwept, UserSwept, ProcessNodes, ThreadNodes;
    SweptHere(m, m', v.at, v.processes[i].at, v.processes[i].threads, ts);
    ProcessesAfterThreads(m, m', v.processes, v.at, i, ts);
    UserAfterThreads(m, m', v, i, ts);
  }

  /** What of process `i` and of the others a sweep of its threads reaches. */
  lemma ThreadsReach(m: Memory, m': Memory, ps: seq<ProcessTree>, u: int, i: nat, ts: seq<ThreadTree>)
    requires HoldsProcesses(m, ps) && i < |ps| && IsUser(m, u) && ThreadsSwept(m, m', u, ps[i].at, ps[i].threads, ts)
    ensures var q := ps[i].(threads := ts); ProcessOwns(q) <= ProcessOwns(ps[i]) <= ProcessCells(ps)
    ensures u !in ProcessCells(ps) && Same(m, m', ProcessCells(ps) - ProcessOwns(ps[i]))
  {
    hide HoldsProcesses, Union, ProcessNodes, ThreadNodes, Addrs;
    NotBelow(m, ps, u);
    OwnThreads(m, ps, i, ps[i].(threads := ts));
  }

  lemma ProcessesAfterThreads(m: Memory, m': Memory, ps: seq<ProcessTree>, u: int, i: nat, ts: seq<ThreadTree>)
    requires HoldsProcesses(m, ps) && i < |ps| && IsUser(m, u)
    requires ThreadsSwept(m, m', u, ps[i].at, ps[i].threads, ts) && HoldsThreads(m', ts)
    ensures var q := ps[i].(threads := ts);
      HoldsProcesses(m', ps[i := q]) &&
        ProcessCells(ps[i := q]) == ProcessCells(ps) - ProcessOwns(ps[i]) + ProcessOwns(q)
  {
    var q := ps[i].(threads := ts);
    ThreadsReach(m, m', ps, u, i, ts);
    ProcessNodeSwept(m, m', ps, u, i, ts);
    hide HoldsProcesses, HoldsThreads, ThreadsSwept, ProcessOwns, ProcessCells, Apart, ProcessNodes, ThreadNodes;
    ProcessesStandApart(m, ps);
    ProcessRewritten(m, m', ps, i, q);
    ProcessCellsReplaced(ps, i, q);
  }

  lemma ProcessNodeSwept(m: Memory, m': Memory, ps: seq<ProcessTree>, u: int, i: nat, ts: seq<ThreadTree>)
    requires HoldsProcesses(m, ps) && i < |ps| && ThreadsSwept(m, m', u, ps[i].at, ps[i].threads, ts)
    ensures var p := ps[i].at; p in m && p in m' && m'[p] == Cell(ProcessCell(ps[i].(threads := ts)), m[p].next)
  {
    hide Union, Apart, HoldsThreads, Addrs;
    assert ProcessNodes(ps)[i].at in m;
  }

  lemma UserAfterThreads(m: Memory, m': Memory, v: UserTree, i: nat, ts: seq<ThreadTree>)
    requires HoldsProcesses(m, v.processes) && i < |v.processes| && v.at in m && m[v.at].fields == UserCell(v)
    requires ThreadsSwept(m, m', v.at, v.processes[i].at, v.processes[i].threads, ts)
    requires var ps, q := v.processes, v.processes[i].(threads := ts);
      ProcessCells(ps[i := q]) == ProcessCells(ps) - ProcessOwns(ps[i]) + ProcessOwns(q)
    ensures UserSwept(m, m', v, ThreadsReplaced(v, i, ts, m'[v.at].fields.nThreads))
  {
    var ps, q := v.processes, v.processes[i].(threads := ts);
    hide HoldsProcesses, ProcessCells, ProcessOwns, ProcessesStay, ThreadsStay, ThreadCells, UserCell, ThreadsSwept;
    UserNodeSwept(m, m', v, i, ts);
    ThreadsKeepOthers(m, m', ps, v.at, i, ts);
  }

  lemma UserNodeSwept(m: Memory, m': Memory, v: UserTree, i: nat, ts: seq<ThreadTree>)
    requires i < |v.processes| && v.at in m && m[v.at].fields == UserCell(v)
    requires ThreadsSwept(m, m', v.at, v.processes[i].at, v.processes[i].threads, ts)
    ensures IsUser(m', v.at)
    ensures m'[v.at] == Cell(UserCell(ThreadsReplaced(v, i, ts, m'[v.at].fields.nThreads)), m[v.at].next)
    ensures ProcessesStay(v.processes, v.processes[i := v.processes[i].(threads := ts)])
  {
    hide ProcessesStay, ThreadsStay, ThreadCells, ProcessNodes;
    FirstKept(v.processes, i, v.processes[i].(threads := ts));
    ProcessesStayReplaced(v.processes, i, ts);
  }

  /** Which cells are freed, and which are as they were. */
  lemma ThreadsKeepOthers(m: Memory, m': Memory, ps: seq<ProcessTree>, u: int, i: nat, ts: seq<ThreadTree>)
    requires HoldsProcesses(m, ps) && i < |ps| && IsUser(m, u) && ThreadsSwept(m, m', u, ps[i].at, ps[i].threads, ts)
    requires var q := ps[i].(threads := ts);
      ProcessCells(ps[i := q]) == ProcessCells(ps) - ProcessOwns(ps[i]) + ProcessOwns(q)
    ensures var qs := ps[i := ps[i].(threads := ts)];
      && ProcessCells(qs) <= ProcessCells(ps) && m'.Keys == m.Keys - (ProcessCells(ps) - ProcessCells(qs))
      && forall a :: a in m && a != u && a !in ProcessCells(ps) ==> a in m' && m'[a] == m[a]
  {
    hide HoldsProcesses, ProcessCells, ProcessNodes, ThreadNodes, Addrs, ThreadsStay, ThreadCells, Same;
    ThreadsReach(m, m', ps, u, i, ts);
    OwnThreads(m, ps, i, ps[i].(threads := ts));
  }

  lemma FirstKept(ps: seq<ProcessTree>, i: nat, q: ProcessTree)
    requires i < |ps| && q.at == ps[i].at
    ensures At(ProcessNodes(ps[i := q]), 0) == At(ProcessNodes(ps), 0)
  {
  }

  lemma NotBelow(m: Memory, ps: seq<ProcessTree>, u: int)
    requires HoldsProcesses(m, ps) && IsUser(m, u)
    ensures u !in ProcessCells(ps)
  {
    if u in ProcessCells(ps) {
      BelowIsNoUser(m, ps, u);
    }
  }

  lemma OwnThreads(m: Memory, ps: seq<ProcessTree>, i: nat, q: ProcessTree)
    requires HoldsProcesses(m, ps) && i < |ps| && q.at == ps[i].at
    requires ThreadCells(q.threads) <= ThreadCells(ps[i].threads)
    ensures ProcessOwns(q) <= ProcessOwns(ps[i]) <= ProcessCells(ps) && ps[i].at !in ThreadCells(ps[i].threads)
  {
    ProcessIn(ps, i);
    assert ProcessNodes(ps)[i].at in m && HoldsThreads(m, ps[i].threads);
    NotThread(m, ps[i].threads, ps[i].at);
  }

  /** The stores of lines 553-563 lead to the user without its empty process `i`. */
  lemma ProcessCut(m: Memory, m': Memory, v: UserTree, i: nat)
    requires HoldsProcesses(m, v.processes) && i < |v.processes| && v.processes[i].threads == [] && v.nProcesses >= 1
    requires v.at in m && m[v.at].fields == UserCell(v)
    requires var c, f := Cut(m, ProcessNodes(v.processes), i), m[v.at].fields;
      m' == c[v.at :=
              m[v.at].(fields := f.(processes := if i == 0 then At(ProcessNodes(v.processes), 1) else f.processes,
                                            nProcesses := f.nProcesses - 1))]
    ensures var v' := v.(processes := Removed(v.processes, i), nProcesses := v.nProcesses - 1);
      HoldsProcesses(m', v'.processes) && UserSwept(m, m', v, v')
  {
    hide List, Cut, HoldsProcesses, HoldsThreads, Addrs, ProcessCells, ProcessOwns, Removed, ProcessNodes;
    hide ProcessesStay;
    var ps := v.processes;
    ProcessesStayBut(ps, i);
    NotBelow(m, ps, v.at);
    ProcessListCut(m, ps, i);
    ProcessDropped(m, m', ps, i);
  }

  lemma ProcessListCut(m: Memory, ps: seq<ProcessTree>, i: nat)
    requires HoldsProcesses(m, ps) && i < |ps| && ps[i].threads == []
    ensures var ns, qs := ProcessNodes(ps), Removed(ps, i);
      && Cut(m, ns, i).Keys == m.Keys - {ps[i].at} && ProcessOwns(ps[i]) == {ps[i].at}
      && (forall a :: a in m && a !in ProcessCells(ps) ==> a in Cut(m, ns, i) && Cut(m, ns, i)[a] == m[a])
      && ProcessCells(qs) == ProcessCells(ps) - {ps[i].at} && ps[i].at in ProcessCells(ps)
      && At(ProcessNodes(qs), 0) == if i == 0 then At(ns, 1) else At(ns, 0)
  {
    var ns := ProcessNodes(ps);
    ListCut(m, At(ns, 0), ns, i);
    CutFrame(m, At(ns, 0), ns, i);
    RemovedProcess(ps, i);
    ProcessCellsRemoved(ps, i);
    NoThreads(ps[i]);
    ProcessAddrs(ps);
    hide List, Cut, Addrs;
    ProcessIn(ps, i);
  }

  /** The nodes that the stores touch are different and allocated. */
  lemma DropReady(m: Memory, u: int, p: int, ts: seq<ThreadTree>, i: nat)
    requires HoldsThreads(m, ts) && i < |ts| && IsUser(m, u) && IsProcess(m, p)
    ensures ts[i].at in m && u != ts[i].at && p != ts[i].at && ts[i].at != NULL
    ensures i > 0 ==>
      ts[i - 1].at in m && ts[i - 1].at != ts[i].at && ts[i - 1].at != NULL && ts[i - 1].at != u && ts[i - 1].at != p
    ensures Cut(m, ThreadNodes(ts), i)
         == if i == 0 then m - {ts[i].at}
           else (m - {ts[i].at})[ts[i - 1].at := m[ts[i - 1].at].(next := At(ThreadNodes(ts), i + 1))]
  {
    var ns := ThreadNodes(ts);
    assert ns[i].at in m && (i > 0 ==> ns[i - 1].at in m);
  }

  // ---------------------------------------------------------------- users

  /** Sweeping user `i`. */
  lemma AfterUser(m: Memory, m': Memory, head: int, us: seq<UserTree>, i: nat, v: UserTree)
    requires Holds(m, head, us) && i < |us| && UserSwept(m, m', us[i], v) && HoldsProcesses(m', v.processes)
    ensures Holds(m', head, us[i := v]) && UsersStay(us, us[i := v]) && m'.Keys <= m.Keys
  {
    hide Holds, HoldsProcesses, UserSwept, UsersStay, UserStays;
    UserSweptStays(m, m', us[i], v);
    UsersStayReplaced(us, i, v);
    UserHeldSwept(m, m', head, us, i, v);
  }

  lemma UserSweptStays(m: Memory, m': Memory, v: UserTree, v': UserTree)
    requires UserSwept(m, m', v, v')
    ensures UserStays(v, v') && m'.Keys <= m.Keys
  {
  }

  lemma UserHeldSwept(m: Memory, m': Memory, head: int, us: seq<UserTree>, i: nat, v: UserTree)
    requires Holds(m, head, us) && i < |us| && UserSwept(m, m', us[i], v) && HoldsProcesses(m', v.processes)
    ensures Holds(m', head, us[i := v])
  {
    hide HoldsUsers, HoldsProcesses, ProcessCells, UserCells, UserCell, UserNodes, Apart, ProcessesStay;
    UserStands(m, us, i);
    UserIn(us, i);
    assert UserOwns(v) <= UserOwns(us[i]);
    UsersStandApart(m, us);
    UserRewritten(m, m', us, i, v);
    UserCellsReplaced(us, i, v);
    FirstUserKept(us, i, v);
  }

  lemma FirstUserKept(us: seq<UserTree>, i: nat, v: UserTree)
    requires i < |us| && v.at == us[i].at
    ensures At(UserNodes(us[i := v]), 0) == At(UserNodes(us), 0)
  {
  }

  /** A user's node is there, and is not among its processes. */
  lemma UserStands(m: Memory, us: seq<UserTree>, i: nat)
    requires HoldsUsers(m, us) && i < |us|
    ensures us[i].at in m && m[us[i].at] == Cell(UserCell(us[i]), At(UserNodes(us), i + 1))
    ensures us[i].at !in ProcessCells(us[i].processes)
    ensures HoldsProcesses(m, us[i].processes)
  {
    assert UserNodes(us)[i].at in m;
    NotBelow(m, us[i].processes, us[i].at);
  }

  /** The stores of lines 581-588 lead to the registry without its user `i`, who has no processes. */
  lemma UserCut(m: Memory, head: int, us: seq<UserTree>, i: nat)
    requires Holds(m, head, us) && i < |us| && us[i].processes == []
    ensures Holds(Cut(m, UserNodes(us), i), if i == 0 then At(UserNodes(us), 1) else head, Removed(us, i))
  {
    var ns := UserNodes(us);
    ListCut(m, At(ns, 0), ns, i);
    CutFrame(m, At(ns, 0), ns, i);
    RemovedUser(us, i);
    UserCellsRemoved(us, i);
    NoProcesses(us[i]);
    hide List, Cut, HoldsProcesses, Addrs, UserCells, UserOwns;
    UserDropped(m, Cut(m, ns, i), us, i);
  }

  /** Which cells that involves. */
  lemma UserCutReady(m: Memory, head: int, us: seq<UserTree>, i: nat)
    requires Holds(m, head, us) && i < |us|
    ensures us[i].at in m && us[i].at != NULL
    ensures i > 0 ==> us[i - 1].at in m && us[i - 1].at != us[i].at && us[i - 1].at != NULL
    ensures Cut(m, UserNodes(us), i)
         == if i == 0 then m - {us[i].at}
           else (m - {us[i].at})[us[i - 1].at := m[us[i - 1].at].(next := At(UserNodes(us), i + 1))]
  {
    hide HoldsProcesses, UserCells, UserCell, Apart;
    var ns := UserNodes(us);
    assert ns[i].at in m && (i > 0 ==> ns[i - 1].at in m);
  }

  lemma ProcessCutReady(m: Memory, v: UserTree, i: nat)
    requires HoldsProcesses(m, v.processes) && i < |v.processes| && IsUser(m, v.at)
    ensures var ps := v.processes;
      && ps[i].at in m && ps[i].at != NULL && ps[i].at != v.at
      && m[ps[i].at] == Cell(ProcessCell(ps[i]), At(ProcessNodes(ps), i + 1))
      && (i > 0 ==> ps[i - 1].at in m && ps[i - 1].at != ps[i].at && ps[i - 1].at != NULL && ps[i - 1].at != v.at)
      && Cut(m, ProcessNodes(ps), i)
         == if i == 0 then m - {ps[i].at}
           else (m - {ps[i].at})[ps[i - 1].at := m[ps[i - 1].at].(next := At(ProcessNodes(ps), i + 1))]
  {
    var ns := ProcessNodes(v.processes);
    assert ns[i].at in m && (i > 0 ==> ns[i - 1].at in m);
  }

  // ---------------------------------------------------------------- visiting a process

  /** What the visit of process `i` relies on. */
  lemma ProcessVisited(m0: Memory, m: Memory, v0: UserTree, v: UserTree, i: nat)
    requires UserSwept(m0, m, v0, v) && HoldsProcesses(m, v.processes) && Counted(UserOf(v)) && i <= |v.processes|
    requires At(ProcessNodes(v.processes), i) != NULL
    ensures i < |v.processes| && v.uid == v0.uid && v.at in m && m[v.at].fields == UserCell(v)
    ensures IsUser(m, v.at) && m[v.at].fields.uid == v.uid && m[v.at].fields.nThreads == v.nThreads
    ensures var p, ps := v.processes[i], v.processes;
      && p.at == At(ProcessNodes(ps), i) && p.at in m && m[p.at] == Cell(ProcessCell(p), At(ProcessNodes(ps), i + 1))
      && HoldsThreads(m, p.threads) && |p.threads| <= v.nThreads
  {
    var ps := v.processes;
    ListWalk(m, At(ProcessNodes(ps), 0), ProcessNodes(ps), i);
    ThreadSumUpdated(Processes(ps), i, ProcessOf(ps[i]).(threads := []));
  }

  /** What the sweep of its threads makes of process `i`, of the user's counter and of the cursors. */
  lemma ProcessSwept(m: Memory, m': Memory, v: UserTree, i: nat, ts: seq<ThreadTree>, relevant: Relevance)
    requires i < |v.processes| && Counted(UserOf(v)) && IsUser(m, v.at) && m[v.at].fields == UserCell(v)
    requires ThreadsSwept(m, m', v.at, v.processes[i].at, v.processes[i].threads, ts) && HoldsThreads(m', ts)
    requires |ts| <= |v.processes[i].threads|
    requires Threads(ts)
      == Select(Threads(v.processes[i].threads), ThreadKept(v.uid, ProcessOf(v.processes[i]).(threads := []), relevant))
    ensures var v' := ThreadsReplaced(v, i, ts, m'[v.at].fields.nThreads); var ps := v'.processes;
      && ProcessOf(ps[i]) == Swept(v.uid, ProcessOf(v.processes[i]), relevant) && ps[i].threads == ts
      && Processes(ps) == Processes(v.processes)[i := ProcessOf(ps[i])] && Counted(UserOf(v'))
      && v'.nThreads <= v.nThreads
      && v.nThreads - v'.nThreads == |v.processes[i].threads| - |ts|
      && (m'[v.processes[i].at].fields.threads == NULL <==> ts == []) && (ts == [] <==> Threads(ts) == [])
  {
    var q := v.processes[i].(threads := ts);
    ReplacedNodes(v.processes, i, q);
    ThreadSumUpdated(Processes(v.processes), i, ProcessOf(q));
    ThreadsWalk(m', ts, 0);
  }

  lemma ProcessRemoved(ps: seq<ProcessTree>, qs: seq<ProcessTree>, i: nat)
    requires i < |ps| == |qs| && qs[i].threads == [] && Processes(qs) == Processes(ps)[i := ProcessOf(qs[i])]
    ensures var rs := Removed(qs, i);
      && Processes(rs) == Removed(Processes(ps), i) && ThreadSum(Processes(rs)) == ThreadSum(Processes(qs))
      && At(ProcessNodes(rs), i) == At(ProcessNodes(qs), i + 1) && (i > 0 ==> rs[i - 1] == qs[i - 1])
  {
    RemovedProcess(qs, i);
    ThreadSumRemoved(Processes(qs), i);
    RemovedAt(ProcessNodes(qs), i, i);
  }

  lemma UserSweptHere(m: Memory, m': Memory, v: UserTree, v': UserTree)
    requires UserSwept(m, m', v, v')
    ensures v'.at == v.at && v.at in m' && m'[v.at].fields == UserCell(v')
  {
  }

  lemma SweptHere(m: Memory, m': Memory, u: int, p: int, ts: seq<ThreadTree>, ts': seq<ThreadTree>)
    requires ThreadsSwept(m, m', u, p, ts, ts')
    ensures IsUser(m, u) && IsUser(m', u) && IsProcess(m', p)
  {
  }

  /** Process `i` with its threads swept: the user's new state `v'`, and its pointers. */
  lemma ThreadsDone(m0: Memory, m: Memory, m': Memory, v0: UserTree, v: UserTree, i: nat, ts: seq<ThreadTree>,
                    relevant: Relevance)
    returns (v': UserTree)
    requires UserSwept(m0, m, v0, v) && HoldsProcesses(m, v.processes) && i < |v.processes| && Counted(UserOf(v))
    requires ThreadsSwept(m, m', v.at, v.processes[i].at, v.processes[i].threads, ts) && HoldsThreads(m', ts)
    requires |ts| <= |v.processes[i].threads|
    requires Threads(ts)
      == Select(Threads(v.processes[i].threads), ThreadKept(v.uid, ProcessOf(v.processes[i]).(threads := []), relevant))
    ensures UserSwept(m0, m', v0, v') && HoldsProcesses(m', v'.processes) && Counted(UserOf(v'))
    ensures v' == v.(processes := v'.processes, nThreads := v'.nThreads) && |v'.processes| == |v.processes|
    ensures v'.nThreads <= v.nThreads && v.nThreads - v'.nThreads == |v.processes[i].threads| - |ts|
    ensures ProcessOf(v'.processes[i]) == Swept(v.uid, ProcessOf(v.processes[i]), relevant)
    ensures Processes(v'.processes) == Processes(v.processes)[i := ProcessOf(v'.processes[i])]
    ensures ProcessNodesAlike(v.processes, v'.processes)
    ensures v.at in m' && m'[v.at].fields == UserCell(v') && IsProcess(m', v.processes[i].at)
    ensures m'[v.processes[i].at].fields.threads == NULL <==> v'.processes[i].threads == []
  {
    hide UserSwept, ThreadsSwept, HoldsProcesses, HoldsThreads, Select, ThreadSum, ProcessNodes, ThreadNodes, Counted;
    hide UserCell;
    UserSweptHere(m0, m, v0, v);
    SweptHere(m, m', v.at, v.processes[i].at, v.processes[i].threads, ts);
    v' := ThreadsReplaced(v, i, ts, m'[v.at].fields.nThreads);
    AfterThreads(m, m', v, i, ts);
    UserSweptTrans(m0, m, m', v0, v, v');
    UserSweptHere(m0, m', v0, v');
    ProcessSwept(m, m', v, i, ts, relevant);
  }

  /** The lists of nodes stand at the same addresses. */
  ghost predicate ProcessNodesAlike(ps: seq<ProcessTree>, qs: seq<ProcessTree>) {
    |ps| == |qs| && forall k: nat :: k < |ps| ==> ps[k].at == qs[k].at
  }

  lemma AlikeAt(ps: seq<ProcessTree>, qs: seq<ProcessTree>, k: nat)
    requires ProcessNodesAlike(ps, qs)
    ensures At(ProcessNodes(ps), k) == At(ProcessNodes(qs), k)
  {
  }

  lemma AlikeHere(ps: seq<ProcessTree>, qs: seq<ProcessTree>, i: nat)
    requires ProcessNodesAlike(ps, qs) && i < |ps|
    ensures qs[i].at == ps[i].at && (i > 0 ==> qs[i - 1].at == ps[i - 1].at)
  {
  }

  /** The sweep of the processes moves on: past process `i`, or, if its threads are gone, onto its successor. */
  lemma ProcessMoved(v0: UserTree, v: UserTree, v': UserTree, i: nat, pos: nat, relevant: Relevance)
    requires i < |v.processes| == |v'.processes| && v.uid == v0.uid && ProcessNodesAlike(v.processes, v'.processes)
    requires Sweeping(Processes(v0.processes), ProcessKept(v0.uid, relevant), Processes(v.processes), i, pos)
    requires ProcessOf(v'.processes[i]) == Swept(v.uid, ProcessOf(v.processes[i]), relevant) && Counted(UserOf(v'))
    requires Processes(v'.processes) == Processes(v.processes)[i := ProcessOf(v'.processes[i])]
    ensures At(ProcessNodes(v'.processes), i + 1) == At(ProcessNodes(v.processes), i + 1)
    ensures v'.processes[i].threads != [] ==>
      Sweeping(Processes(v0.processes), ProcessKept(v0.uid, relevant), Processes(v'.processes), i + 1, pos + 1)
    ensures v'.processes[i].threads == [] ==> var rs := Removed(v'.processes, i);
      && v'.nProcesses >= 1 && Counted(UserOf(v'.(processes := rs, nProcesses := v'.nProcesses - 1)))
      && Sweeping(Processes(v0.processes), ProcessKept(v0.uid, relevant), Processes(rs), i, pos + 1)
      && At(ProcessNodes(rs), i) == At(ProcessNodes(v.processes), i + 1)
      && (i > 0 ==> rs[i - 1].at == v.processes[i - 1].at)
  {
    AlikeAt(v.processes, v'.processes, i + 1);
    SweepNext(Processes(v0.processes), ProcessKept(v0.uid, relevant), Processes(v.processes), i, pos);
    hide Sweeping, Select, ThreadSum, ProcessNodes;
    if v'.processes[i].threads == [] {
      ProcessRemoved(v.processes, v'.processes, i);
    }
  }

  /** The walk ends at the end of the list, and an empty list is a null pointer. */
  lemma ProcessesEnd(m: Memory, ps: seq<ProcessTree>, i: nat)
    requires HoldsProcesses(m, ps) && i <= |ps| && At(ProcessNodes(ps), i) == NULL
    ensures i == |ps| == |Processes(ps)| && (At(ProcessNodes(ps), 0) == NULL <==> ps == [])
  {
    ListWalk(m, At(ProcessNodes(ps), 0), ProcessNodes(ps), i);
    ListWalk(m, At(ProcessNodes(ps), 0), ProcessNodes(ps), 0);
  }

  lemma UserSweptOf(m: Memory, m': Memory, v: UserTree, v': UserTree, relevant: Relevance)
    requires UserSwept(m, m', v, v') && Counted(UserOf(v'))
    requires Processes(v'.processes) == Select(Processes(v.processes), ProcessKept(v.uid, relevant))
    ensures UserOf(v') == SweptUser(UserOf(v), relevant)
  {
  }

  // ---------------------------------------------------------------- visiting a user

  /** What the daemon's burst check reads of a user. */
  function BurstOf(f: Fields): BurstLimiter.Record
    requires f.UserFields?
  {
    BurstLimiter.Record(f.timestamp, f.nActions)
  }

  lemma UserVisited(m: Memory, head: int, us: seq<UserTree>, i: nat)
    requires Holds(m, head, us) && i <= |us| && At(UserNodes(us), i) != NULL
    ensures i < |us| && us[i].at == At(UserNodes(us), i) && us[i].at in m && HoldsProcesses(m, us[i].processes)
    ensures m[us[i].at] == Cell(UserCell(us[i]), At(UserNodes(us), i + 1)) && UserOf(us[i]) == Users(us)[i]
    ensures |Users(us)| == |us|
  {
    hide HoldsProcesses;
    ListWalk(m, head, UserNodes(us), i);
    UserStands(m, us, i);
  }

  lemma UserDone(us: seq<UserTree>, i: nat, v: UserTree)
    requires i < |us| && v.at == us[i].at
    ensures Users(us[i := v]) == Users(us)[i := UserOf(v)] && |us[i := v]| == |us|
    ensures At(UserNodes(us[i := v]), i + 1) == At(UserNodes(us), i + 1)
    ensures var rs := Removed(us[i := v], i);
      && Users(rs) == Removed(Users(us[i := v]), i) && At(UserNodes(rs), i) == At(UserNodes(us), i + 1)
      && (i > 0 ==> rs[i - 1].at == us[i - 1].at)
  {
    ReplacedUsers(us, i, v);
    RemovedUser(us[i := v], i);
    RemovedAt(UserNodes(us[i := v]), i, i);
  }

  lemma UserEmpty(m: Memory, v: UserTree)
    requires v.at in m && m[v.at].fields == UserCell(v) && HoldsProcesses(m, v.processes)
    ensures IsUser(m, v.at) && m[v.at].fields.uid == v.uid && BurstOf(m[v.at].fields) == Burst(UserOf(v))
    ensures m[v.at].fields.processes == NULL <==> v.processes == []
    ensures v.processes == [] <==> UserOf(v).processes == []
  {
    ListWalk(m, At(ProcessNodes(v.processes), 0), ProcessNodes(v.processes), 0);
  }

  lemma HeadAt(m: Memory, head: int, us: seq<UserTree>)
    requires Holds(m, head, us)
    ensures head == At(UserNodes(us), 0)
  {
  }

  lemma UsersEnd(m: Memory, head: int, us: seq<UserTree>, i: nat)
    requires Holds(m, head, us) && i <= |us| && At(UserNodes(us), i) == NULL
    ensures i == |us| == |Users(us)| && (head == NULL <==> us == [])
  {
    hide HoldsProcesses;
    ListWalk(m, head, UserNodes(us), i);
    ListWalk(m, head, UserNodes(us), 0);
  }

  // ---------------------------------------------------------------- freeing everything

  lemma NoThreadCells(ts: seq<ThreadTree>)
    requires ts == []
    ensures ThreadCells(ts) == {}
  {
  }

  /** The stores of lines 327-330. */
  lemma FirstThreadFreed(m: Memory, p: int, ts: seq<ThreadTree>)
    requires IsProcess(m, p) && m[p].fields.threads == At(ThreadNodes(ts), 0) && HoldsThreads(m, ts) && ts != []
    ensures var t := ts[0].at;
      && t in m && t != p && t in ThreadCells(ts) && ThreadCells(ts[1..]) == ThreadCells(ts) - {t}
      && m[t].next == At(ThreadNodes(ts[1..]), 0)
      && HoldsThreads(m[p := m[p].(fields := m[p].fields.(threads := m[t].next))] - {t}, ts[1..])
  {
    hide HoldsThreads, ThreadCells, Cut;
    var t := ts[0].at;
    ThreadsWalk(m, ts, 0);
    NotThread(m, ts, p);
    ThreadListCut(m, ts, 0);
    assert Removed(ts, 0) == ts[1..];
    FirstCut(m, ThreadNodes(ts));
    ThreadsFrame(m - {t}, m[p := m[p].(fields := m[p].fields.(threads := m[t].next))] - {t}, ts[1..]);
  }

  lemma FirstCut(m: Memory, ns: seq<Node>)
    requires ns != []
    ensures Cut(m, ns, 0) == m - {ns[0].at}
  {
  }

  lemma NoProcessCells(m: Memory, ps: seq<ProcessTree>)
    requires HoldsProcesses(m, ps) && At(ProcessNodes(ps), 0) == NULL
    ensures ps == [] && ProcessCells(ps) == {}
  {
    ListWalk(m, NULL, ProcessNodes(ps), 0);
  }

  lemma NothingHeld(m: Memory, us: seq<UserTree>)
    requires Holds(m, NULL, us)
    ensures m == map[]
  {
    hide HoldsProcesses;
    ListWalk(m, NULL, UserNodes(us), 0);
    assert UserCells([]) == {};
    assert m.Keys == {};
  }

  /** The stores of lines 338-341. */
  lemma FirstProcessFreed(m: Memory, u: int, ps: seq<ProcessTree>)
    requires IsUser(m, u) && HoldsProcesses(m, ps) && At(ProcessNodes(ps), 0) != NULL && u !in ProcessCells(ps)
    ensures ps != [] && At(ProcessNodes(ps), 0) == ps[0].at != u && ps[0].at in m
    ensures var p := ps[0].at; var m1 := m[u := m[u].(fields := m[u].fields.(processes := m[p].next))];
      && m[p].fields == ProcessCell(ps[0]) && HoldsThreads(m1, ps[0].threads)
      && ProcessCells(ps[1..]) == ProcessCells(ps) - ProcessOwns(ps[0]) && ProcessOwns(ps[0]) <= ProcessCells(ps)
      && m[p].next == At(ProcessNodes(ps[1..]), 0) && HoldsProcesses(m1 - ProcessOwns(ps[0]), ps[1..])
  {
    ListWalk(m, At(ProcessNodes(ps), 0), ProcessNodes(ps), 0);
    var p := ps[0].at;
    var m1 := m[u := m[u].(fields := m[u].fields.(processes := m[p].next))];
    hide HoldsProcesses, HoldsThreads, ProcessCells, ProcessOwns, List, Cut, ProcessNodes;
    ProcessIn(ps, 0);
    ProcessHeld(m, ps, 0);
    ThreadsFrame(m, m1, ps[0].threads);
    ProcessListTail(m, ps);
    ProcessesFrame(m, m1 - ProcessOwns(ps[0]), ps[1..]);
  }

  lemma ProcessHeld(m: Memory, ps: seq<ProcessTree>, i: nat)
    requires HoldsProcesses(m, ps) && i < |ps|
    ensures HoldsThreads(m, ps[i].threads)
  {
  }

  /** The rest of a list is a list. */
  lemma ProcessListTail(m: Memory, ps: seq<ProcessTree>)
    requires HoldsProcesses(m, ps) && ps != []
    ensures HoldsProcesses(m, ps[1..]) && ProcessCells(ps[1..]) == ProcessCells(ps) - ProcessOwns(ps[0])
    ensures At(ProcessNodes(ps[1..]), 0) == At(ProcessNodes(ps), 1)
  {
    assert Removed(ps, 0) == ps[1..];
    ProcessCellsRemoved(ps, 0);
    assert ProcessNodes(ps[1..]) == ProcessNodes(ps)[1..];
    ListTail(m, ProcessNodes(ps));
  }

  /** The stores of lines 2374-2375. */
  lemma FirstUserFreed(m: Memory, head: int, us: seq<UserTree>)
    requires Holds(m, head, us) && head != NULL
    ensures us != [] && head == us[0].at && head in m && m[head].fields == UserCell(us[0])
    ensures HoldsProcesses(m, us[0].processes)
    ensures Holds(m - UserOwns(us[0]), m[head].next, us[1..])
  {
    ListWalk(m, head, UserNodes(us), 0);
    hide HoldsProcesses, UserCells, UserOwns, List, UserNodes, UserCell;
    UserStands(m, us, 0);
    UserListTail(m, us);
    UsersFrame(m, m - UserOwns(us[0]), us[1..]);
  }

  lemma UserListTail(m: Memory, us: seq<UserTree>)
    requires HoldsUsers(m, us) && us != []
    ensures HoldsUsers(m, us[1..]) && UserCells(us[1..]) == UserCells(us) - UserOwns(us[0])
    ensures At(UserNodes(us[1..]), 0) == At(UserNodes(us), 1)
  {
    hide HoldsProcesses, UserCells, UserOwns;
    assert Removed(us, 0) == us[1..];
    UserCellsRemoved(us, 0);
    assert UserNodes(us[1..]) == UserNodes(us)[1..];
    ListTail(m, UserNodes(us));
  }
}
