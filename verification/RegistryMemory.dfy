/** How the registry lies in memory:
    users, their processes and their threads,
    each a linked list,
    and no node in two of them. */
module RegistryMemory {
  import opened Collections
  import opened RegistryModel
  import opened NodeMemory

  // ---------------------------------------------------------------- nodes with what hangs below them

  datatype ThreadTree = ThreadTree(at: int, thread: Thread)
  datatype ProcessTree = ProcessTree(at: int, pid: int, starttime: int, threads: seq<ThreadTree>)
  datatype UserTree = UserTree(at: int, uid: int, timestamp: int, nActions: nat, nProcesses: nat, nThreads: nat,
                               processes: seq<ProcessTree>)

  function ThreadNodes(ts: seq<ThreadTree>): (ns: seq<Node>)
    ensures |ns| == |ts| && forall i :: 0 <= i < |ts| ==> ns[i] == Node(ts[i].at, ThreadFields(ts[i].thread))
  {
    seq(|ts|, i requires 0 <= i < |ts| => Node(ts[i].at, ThreadFields(ts[i].thread)))
  }

  function ProcessCell(p: ProcessTree): Fields { ProcessFields(p.pid, p.starttime, At(ThreadNodes(p.threads), 0)) }

  function ProcessNodes(ps: seq<ProcessTree>): (ns: seq<Node>)
    ensures |ns| == |ps| && forall i :: 0 <= i < |ps| ==> ns[i] == Node(ps[i].at, ProcessCell(ps[i]))
  {
    seq(|ps|, i requires 0 <= i < |ps| => Node(ps[i].at, ProcessCell(ps[i])))
  }

  function UserCell(u: UserTree): Fields {
    UserFields(u.uid, u.timestamp, u.nActions, At(ProcessNodes(u.processes), 0), u.nProcesses, u.nThreads)
  }

  function UserNodes(us: seq<UserTree>): (ns: seq<Node>)
    ensures |ns| == |us| && forall i :: 0 <= i < |us| ==> ns[i] == Node(us[i].at, UserCell(us[i]))
  {
    seq(|us|, i requires 0 <= i < |us| => Node(us[i].at, UserCell(us[i])))
  }

  // ---------------------------------------------------------------- the values they hold

  function Threads(ts: seq<ThreadTree>): (r: seq<Thread>)
    ensures |r| == |ts| && forall i :: 0 <= i < |ts| ==> r[i] == ts[i].thread
  {
    seq(|ts|, i requires 0 <= i < |ts| => ts[i].thread)
  }

  function ProcessOf(p: ProcessTree): Process { Process(p.pid, p.starttime, Threads(p.threads)) }

  function Processes(ps: seq<ProcessTree>): (r: seq<Process>)
    ensures |r| == |ps| && forall i :: 0 <= i < |ps| ==> r[i] == ProcessOf(ps[i])
  {
    seq(|ps|, i requires 0 <= i < |ps| => ProcessOf(ps[i]))
  }

  function UserOf(u: UserTree): User {
    User(u.uid, u.timestamp, u.nActions, Processes(u.processes), u.nProcesses, u.nThreads)
  }

  function Users(us: seq<UserTree>): (r: seq<User>)
    ensures |r| == |us| && forall i :: 0 <= i < |us| ==> r[i] == UserOf(us[i])
  {
    seq(|us|, i requires 0 <= i < |us| => UserOf(us[i]))
  }

  // ---------------------------------------------------------------- the cells they occupy

  ghost function ThreadCells(ts: seq<ThreadTree>): set<int> { Addrs(ThreadNodes(ts)) }

  ghost function ProcessOwns(p: ProcessTree): set<int> { {p.at} + ThreadCells(p.threads) }

  ghost function ProcessShares(ps: seq<ProcessTree>): (fs: seq<set<int>>)
    ensures |fs| == |ps| && forall i :: 0 <= i < |ps| ==> fs[i] == ProcessOwns(ps[i])
  {
    seq(|ps|, i requires 0 <= i < |ps| => ProcessOwns(ps[i]))
  }

  ghost function ProcessCells(ps: seq<ProcessTree>): set<int> { Union(ProcessShares(ps)) }

  ghost function UserOwns(u: UserTree): set<int> { {u.at} + ProcessCells(u.processes) }

  ghost function UserShares(us: seq<UserTree>): (fs: seq<set<int>>)
    ensures |fs| == |us| && forall i :: 0 <= i < |us| ==> fs[i] == UserOwns(us[i])
  {
    seq(|us|, i requires 0 <= i < |us| => UserOwns(us[i]))
  }

  ghost function UserCells(us: seq<UserTree>): set<int> { Union(UserShares(us)) }

  // ---------------------------------------------------------------- memory holds a registry

  ghost predicate HoldsThreads(m: Memory, ts: seq<ThreadTree>) { List(m, At(ThreadNodes(ts), 0), ThreadNodes(ts)) }

  /** The list of processes, each with its own list of threads, no node in two places. */
  ghost predicate HoldsProcesses(m: Memory, ps: seq<ProcessTree>) {
    && List(m, At(ProcessNodes(ps), 0), ProcessNodes(ps))
    && (forall i :: 0 <= i < |ps| ==> HoldsThreads(m, ps[i].threads))
    && Apart(ProcessShares(ps))
  }

  ghost predicate HoldsUsers(m: Memory, us: seq<UserTree>) {
    && List(m, At(UserNodes(us), 0), UserNodes(us))
    && (forall i :: 0 <= i < |us| ==> HoldsProcesses(m, us[i].processes))
    && Apart(UserShares(us))
  }

  /** All of memory: the registry and nothing else, so nothing freed is reachable and nothing is lost. */
  ghost predicate Holds(m: Memory, head: int, us: seq<UserTree>) {
    HoldsUsers(m, us) && head == At(UserNodes(us), 0) && m.Keys == UserCells(us)
  }

  // ---------------------------------------------------------------- frames

  lemma ProcessesStandApart(m: Memory, ps: seq<ProcessTree>)
    requires HoldsProcesses(m, ps)
    ensures Apart(ProcessShares(ps))
  {
  }

  lemma UsersStandApart(m: Memory, us: seq<UserTree>)
    requires HoldsUsers(m, us)
    ensures Apart(UserShares(us))
  {
  }

  lemma ProcessIn(ps: seq<ProcessTree>, i: nat)
    requires i < |ps|
    ensures ProcessOwns(ps[i]) <= ProcessCells(ps) && ps[i].at in ProcessCells(ps)
    ensures ThreadCells(ps[i].threads) <= ProcessCells(ps)
  {
    UnionAt(ProcessShares(ps), i);
  }

  lemma UserIn(us: seq<UserTree>, i: nat)
    requires i < |us|
    ensures UserOwns(us[i]) <= UserCells(us) && us[i].at in UserCells(us)
    ensures ProcessCells(us[i].processes) <= UserCells(us)
  {
    UnionAt(UserShares(us), i);
  }

  lemma ProcessAddrs(ps: seq<ProcessTree>)
    ensures Addrs(ProcessNodes(ps)) <= ProcessCells(ps)
  {
    forall i | 0 <= i < |ps| ensures ProcessNodes(ps)[i].at in ProcessCells(ps) {
      ProcessIn(ps, i);
    }
  }

  lemma UserAddrs(us: seq<UserTree>)
    ensures Addrs(UserNodes(us)) <= UserCells(us)
  {
    forall i | 0 <= i < |us| ensures UserNodes(us)[i].at in UserCells(us) {
      UserIn(us, i);
    }
  }

  lemma ThreadsFrame(m: Memory, m': Memory, ts: seq<ThreadTree>)
    requires HoldsThreads(m, ts) && Same(m, m', ThreadCells(ts))
    ensures HoldsThreads(m', ts)
  {
    ListFrame(m, m', At(ThreadNodes(ts), 0), ThreadNodes(ts));
  }

  lemma ProcessesFrame(m: Memory, m': Memory, ps: seq<ProcessTree>)
    requires HoldsProcesses(m, ps) && Same(m, m', ProcessCells(ps))
    ensures HoldsProcesses(m', ps)
  {
    ProcessAddrs(ps);
    ListFrame(m, m', At(ProcessNodes(ps), 0), ProcessNodes(ps));
    forall i | 0 <= i < |ps| ensures HoldsThreads(m', ps[i].threads) {
      ProcessIn(ps, i);
      ListFrame(m, m', At(ThreadNodes(ps[i].threads), 0), ThreadNodes(ps[i].threads));
    }
  }

  lemma UsersFrame(m: Memory, m': Memory, us: seq<UserTree>)
    requires HoldsUsers(m, us) && Same(m, m', UserCells(us))
    ensures HoldsUsers(m', us)
  {
    UserAddrs(us);
    ListFrame(m, m', At(UserNodes(us), 0), UserNodes(us));
    forall i | 0 <= i < |us| ensures HoldsProcesses(m', us[i].processes) {
      UserIn(us, i);
      ProcessesFrame(m, m', us[i].processes);
    }
  }

  // ---------------------------------------------------------------- one element changes or goes

  lemma RemovedThread(ts: seq<ThreadTree>, i: nat)
    requires i < |ts|
    ensures ThreadNodes(Removed(ts, i)) == Removed(ThreadNodes(ts), i)
    ensures Threads(Removed(ts, i)) == Removed(Threads(ts), i)
  {
  }

  lemma RemovedProcess(ps: seq<ProcessTree>, i: nat)
    requires i < |ps|
    ensures ProcessNodes(Removed(ps, i)) == Removed(ProcessNodes(ps), i)
    ensures Processes(Removed(ps, i)) == Removed(Processes(ps), i)
  {
  }

  lemma RemovedUser(us: seq<UserTree>, i: nat)
    requires i < |us|
    ensures UserNodes(Removed(us, i)) == Removed(UserNodes(us), i) && Users(Removed(us, i)) == Removed(Users(us), i)
  {
  }

  lemma ReplacedNodes(ps: seq<ProcessTree>, i: nat, p: ProcessTree)
    requires i < |ps| && p.at == ps[i].at
    ensures ProcessNodes(ps[i := p]) == ProcessNodes(ps)[i := Node(p.at, ProcessCell(p))]
    ensures Processes(ps[i := p]) == Processes(ps)[i := ProcessOf(p)]
  {
  }

  lemma ReplacedUsers(us: seq<UserTree>, i: nat, u: UserTree)
    requires i < |us| && u.at == us[i].at
    ensures UserNodes(us[i := u]) == UserNodes(us)[i := Node(u.at, UserCell(u))]
    ensures Users(us[i := u]) == Users(us)[i := UserOf(u)]
  {
  }

  lemma ProcessCellsReplaced(ps: seq<ProcessTree>, i: nat, p: ProcessTree)
    requires i < |ps| && Apart(ProcessShares(ps)) && ProcessOwns(p) !! ProcessCells(ps) - ProcessOwns(ps[i])
    ensures ProcessCells(ps[i := p]) == ProcessCells(ps) - ProcessOwns(ps[i]) + ProcessOwns(p)
    ensures Apart(ProcessShares(ps[i := p]))
  {
    UnionReplaced(ProcessShares(ps), i, ProcessOwns(p));
    assert ProcessShares(ps[i := p]) == ProcessShares(ps)[i := ProcessOwns(p)];
  }

  /** A process of the list was rewritten, keeping its node; its threads are in no other's way. */
  lemma ProcessRewritten(m: Memory, m': Memory, ps: seq<ProcessTree>, i: nat, p: ProcessTree)
    requires HoldsProcesses(m, ps) && i < |ps| && p.at == ps[i].at
    requires ProcessOwns(p) !! ProcessCells(ps) - ProcessOwns(ps[i]) && p.at in m
    requires p.at in m' && m'[p.at] == Cell(ProcessCell(p), m[p.at].next) && HoldsThreads(m', p.threads)
    requires Same(m, m', ProcessCells(ps) - ProcessOwns(ps[i]))
    ensures HoldsProcesses(m', ps[i := p])
  {
    var ns, qs := ProcessNodes(ps), ps[i := p];
    ProcessCellsReplaced(ps, i, p);
    ReplacedNodes(ps, i, p);
    ListUpdated(m, At(ns, 0), ns, i, ProcessCell(p));
    var m1 := m[p.at := Cell(ProcessCell(p), m[p.at].next)];
    forall a | a in Addrs(ProcessNodes(qs)) && a in m1 ensures a in m' && m'[a] == m1[a] {
      var k :| 0 <= k < |ps| && a == qs[k].at;
      ProcessIn(ps, k);
      assert k != i ==> a in ProcessOwns(ps[k]);
    }
    ListFrame(m1, m', At(ns, 0), ProcessNodes(qs));
    forall k | 0 <= k < |ps| ensures HoldsThreads(m', qs[k].threads) {
      if k != i {
        OthersThreads(m, m', ps, i, k);
      }
    }
  }

  lemma OthersThreads(m: Memory, m': Memory, ps: seq<ProcessTree>, i: nat, k: nat)
    requires HoldsProcesses(m, ps) && i < |ps| && k < |ps| && i != k
    requires Same(m, m', ProcessCells(ps) - ProcessOwns(ps[i]))
    ensures HoldsThreads(m', ps[k].threads)
  {
    ProcessIn(ps, k);
    ListFrame(m, m', At(ThreadNodes(ps[k].threads), 0), ThreadNodes(ps[k].threads));
  }

  lemma ProcessCellsRemoved(ps: seq<ProcessTree>, i: nat)
    requires i < |ps| && Apart(ProcessShares(ps))
    ensures ProcessCells(Removed(ps, i)) == ProcessCells(ps) - ProcessOwns(ps[i])
    ensures Apart(ProcessShares(Removed(ps, i)))
  {
    UnionRemoved(ProcessShares(ps), i);
    assert ProcessShares(Removed(ps, i)) == Removed(ProcessShares(ps), i);
  }

  /** Process `i` was cut out of the list. */
  lemma ProcessDropped(m: Memory, m': Memory, ps: seq<ProcessTree>, i: nat)
    requires HoldsProcesses(m, ps) && i < |ps|
    requires Same(Cut(m, ProcessNodes(ps), i), m', ProcessCells(ps) - ProcessOwns(ps[i]))
    ensures HoldsProcesses(m', Removed(ps, i))
  {
    hide List, HoldsThreads, Cut, Addrs, Union, ProcessOwns, ProcessCells, Same, Apart, ProcessNodes;
    var qs := Removed(ps, i);
    ProcessesStandApart(m, ps);
    ProcessCellsRemoved(ps, i);
    ProcessListDropped(m, m', ps, i);
    forall k | 0 <= k < |qs| ensures HoldsThreads(m', qs[k].threads) {
      ThreadsDropped(m, m', ps, i, k);
    }
  }

  lemma ProcessListDropped(m: Memory, m': Memory, ps: seq<ProcessTree>, i: nat)
    requires HoldsProcesses(m, ps) && i < |ps|
    requires Same(Cut(m, ProcessNodes(ps), i), m', ProcessCells(ps) - ProcessOwns(ps[i]))
    ensures var ms := ProcessNodes(Removed(ps, i)); List(m', At(ms, 0), ms)
  {
    var ns, qs := ProcessNodes(ps), Removed(ps, i);
    ProcessCellsRemoved(ps, i);
    RemovedProcess(ps, i);
    ListCut(m, At(ns, 0), ns, i);
    ProcessAddrs(qs);
    hide List, HoldsThreads, Cut, Addrs, Union, ProcessOwns;
    ListFrame(Cut(m, ns, i), m', At(ProcessNodes(qs), 0), ProcessNodes(qs));
  }

  lemma RemovedIs<T>(s: seq<T>, i: nat, k: nat)
    requires i < |s| && k < |s| - 1
    ensures Removed(s, i)[k] == s[if k < i then k else k + 1]
  {
  }

  lemma ThreadsDropped(m: Memory, m': Memory, ps: seq<ProcessTree>, i: nat, k: nat)
    requires HoldsProcesses(m, ps) && i < |ps| && k < |ps| - 1
    requires Same(Cut(m, ProcessNodes(ps), i), m', ProcessCells(ps) - ProcessOwns(ps[i]))
    ensures HoldsThreads(m', Removed(ps, i)[k].threads)
  {
    hide List, HoldsProcesses, HoldsThreads, Cut, Union, Apart, ProcessOwns, ProcessCells, ThreadNodes, ProcessNodes;
    hide Removed;
    var c, qs := Cut(m, ProcessNodes(ps), i), Removed(ps, i);
    ProcessesStandApart(m, ps);
    ProcessCellsRemoved(ps, i);
    RemovedIs(ps, i, k);
    ThreadsPastCut(m, ps, i, if k < i then k else k + 1);
    ProcessIn(qs, k);
    ThreadsFrame(c, m', qs[k].threads);
  }

  /** Cutting a process node does not touch any thread. */
  lemma ThreadsPastCut(m: Memory, ps: seq<ProcessTree>, i: nat, j: nat)
    requires HoldsProcesses(m, ps) && i < |ps| && j < |ps|
    ensures HoldsThreads(Cut(m, ProcessNodes(ps), i), ps[j].threads)
  {
    var ts, ns := ThreadNodes(ps[j].threads), ProcessNodes(ps);
    forall a | a in Addrs(ts) && a in m ensures a in Cut(m, ns, i) && Cut(m, ns, i)[a] == m[a] {
      var k :| 0 <= k < |ts| && ts[k].at == a;
      assert m[a].fields.ThreadFields?;
      assert m[ns[i].at].fields.ProcessFields? && (i > 0 ==> m[ns[i - 1].at].fields.ProcessFields?);
    }
    ListFrame(m, Cut(m, ns, i), At(ts, 0), ts);
  }

  // ---------------------------------------------------------------- the same for users

  lemma UserCellsReplaced(us: seq<UserTree>, i: nat, u: UserTree)
    requires i < |us| && Apart(UserShares(us)) && UserOwns(u) !! UserCells(us) - UserOwns(us[i])
    ensures UserCells(us[i := u]) == UserCells(us) - UserOwns(us[i]) + UserOwns(u) && Apart(UserShares(us[i := u]))
  {
    UnionReplaced(UserShares(us), i, UserOwns(u));
    assert UserShares(us[i := u]) == UserShares(us)[i := UserOwns(u)];
  }

  lemma UserCellsRemoved(us: seq<UserTree>, i: nat)
    requires i < |us| && Apart(UserShares(us))
    ensures UserCells(Removed(us, i)) == UserCells(us) - UserOwns(us[i]) && Apart(UserShares(Removed(us, i)))
  {
    UnionRemoved(UserShares(us), i);
    assert UserShares(Removed(us, i)) == Removed(UserShares(us), i);
  }

  lemma OthersProcesses(m: Memory, m': Memory, us: seq<UserTree>, i: nat, k: nat)
    requires HoldsUsers(m, us) && i < |us| && k < |us| && i != k && Same(m, m', UserCells(us) - UserOwns(us[i]))
    ensures HoldsProcesses(m', us[k].processes)
  {
    UserIn(us, k);
    ProcessesFrame(m, m', us[k].processes);
  }

  /** A user of the list was rewritten, keeping its node; what hangs below is in no other's way. */
  lemma UserRewritten(m: Memory, m': Memory, us: seq<UserTree>, i: nat, u: UserTree)
    requires HoldsUsers(m, us) && i < |us| && u.at == us[i].at && UserOwns(u) !! UserCells(us) - UserOwns(us[i])
    requires u.at in m
    requires u.at in m' && m'[u.at] == Cell(UserCell(u), m[u.at].next) && HoldsProcesses(m', u.processes)
    requires Same(m, m', UserCells(us) - UserOwns(us[i]))
    ensures HoldsUsers(m', us[i := u])
  {
    var ns, vs := UserNodes(us), us[i := u];
    UserCellsReplaced(us, i, u);
    ReplacedUsers(us, i, u);
    ListUpdated(m, At(ns, 0), ns, i, UserCell(u));
    var m1 := m[u.at := Cell(UserCell(u), m[u.at].next)];
    forall a | a in Addrs(UserNodes(vs)) && a in m1 ensures a in m' && m'[a] == m1[a] {
      var k :| 0 <= k < |us| && a == vs[k].at;
      UserIn(us, k);
      assert k != i ==> a in UserOwns(us[k]);
    }
    ListFrame(m1, m', At(ns, 0), UserNodes(vs));
    forall k | 0 <= k < |us| ensures HoldsProcesses(m', vs[k].processes) {
      if k != i {
        OthersProcesses(m, m', us, i, k);
      }
    }
  }

  /** Cutting a user node touches no process and no thread. */
  lemma ProcessesPastCut(m: Memory, us: seq<UserTree>, i: nat, j: nat)
    requires HoldsUsers(m, us) && i < |us| && j < |us|
    ensures HoldsProcesses(Cut(m, UserNodes(us), i), us[j].processes)
  {
    var ps, ns := us[j].processes, UserNodes(us);
    forall a | a in ProcessCells(ps) && a in m ensures a in Cut(m, ns, i) && Cut(m, ns, i)[a] == m[a] {
      BelowIsNoUser(m, ps, a);
      PastUser(m, us, i, a);
    }
    hide List, Cut, Addrs, Union, Apart, HoldsProcesses, UserNodes;
    ProcessesFrame(m, Cut(m, ns, i), ps);
  }

  lemma PastUser(m: Memory, us: seq<UserTree>, i: nat, a: int)
    requires HoldsUsers(m, us) && i < |us| && a in m && !m[a].fields.UserFields?
    ensures var c := Cut(m, UserNodes(us), i); a in c && c[a] == m[a]
  {
    hide HoldsProcesses, Apart;
    var ns := UserNodes(us);
    assert m[ns[i].at].fields.UserFields? && (i > 0 ==> m[ns[i - 1].at].fields.UserFields?);
  }

  lemma BelowIsNoUser(m: Memory, ps: seq<ProcessTree>, a: int)
    requires HoldsProcesses(m, ps) && a in ProcessCells(ps)
    ensures a in m && !m[a].fields.UserFields?
  {
    var k :| 0 <= k < |ps| && a in ProcessOwns(ps[k]);
    var ts := ThreadNodes(ps[k].threads);
    assert ProcessNodes(ps)[k].at in m && HoldsThreads(m, ps[k].threads);
    if a != ps[k].at {
      var j :| 0 <= j < |ts| && ts[j].at == a;
    }
  }

  /** User `i` was cut out of the list. */
  lemma UserDropped(m: Memory, m': Memory, us: seq<UserTree>, i: nat)
    requires HoldsUsers(m, us) && i < |us| && Same(Cut(m, UserNodes(us), i), m', UserCells(us) - UserOwns(us[i]))
    ensures HoldsUsers(m', Removed(us, i))
  {
    hide List, HoldsProcesses, Cut, Addrs, Union, UserOwns, UserCells, Same, Apart, UserNodes;
    var vs := Removed(us, i);
    UsersStandApart(m, us);
    UserCellsRemoved(us, i);
    UserListDropped(m, m', us, i);
    forall k | 0 <= k < |vs| ensures HoldsProcesses(m', vs[k].processes) {
      ProcessesDropped(m, m', us, i, k);
    }
  }

  lemma UserListDropped(m: Memory, m': Memory, us: seq<UserTree>, i: nat)
    requires HoldsUsers(m, us) && i < |us| && Same(Cut(m, UserNodes(us), i), m', UserCells(us) - UserOwns(us[i]))
    ensures var ms := UserNodes(Removed(us, i)); List(m', At(ms, 0), ms)
  {
    var ns, vs := UserNodes(us), Removed(us, i);
    UserCellsRemoved(us, i);
    RemovedUser(us, i);
    ListCut(m, At(ns, 0), ns, i);
    UserAddrs(vs);
    hide List, HoldsProcesses, Cut, Addrs, Union, UserOwns;
    ListFrame(Cut(m, ns, i), m', At(UserNodes(vs), 0), UserNodes(vs));
  }

  lemma ProcessesDropped(m: Memory, m': Memory, us: seq<UserTree>, i: nat, k: nat)
    requires HoldsUsers(m, us) && i < |us| && k < |us| - 1
    requires Same(Cut(m, UserNodes(us), i), m', UserCells(us) - UserOwns(us[i]))
    ensures HoldsProcesses(m', Removed(us, i)[k].processes)
  {
    hide List, HoldsUsers, HoldsProcesses, Cut, Union, Apart, UserOwns, UserCells, ProcessCells, UserNodes, Removed;
    var c, vs := Cut(m, UserNodes(us), i), Removed(us, i);
    UsersStandApart(m, us);
    UserCellsRemoved(us, i);
    RemovedIs(us, i, k);
    ProcessesPastCut(m, us, i, if k < i then k else k + 1);
    UserIn(vs, k);
    ProcessesFrame(c, m', vs[k].processes);
  }

  // ---------------------------------------------------------------- a new node in front

  lemma ThreadsMapped(m: Memory, ts: seq<ThreadTree>)
    requires HoldsThreads(m, ts)
    ensures ThreadCells(ts) <= m.Keys
  {
  }

  lemma ProcessesMapped(m: Memory, ps: seq<ProcessTree>)
    requires HoldsProcesses(m, ps)
    ensures ProcessCells(ps) <= m.Keys
  {
    forall i | 0 <= i < |ps| ensures ProcessOwns(ps[i]) <= m.Keys {
      ThreadsMapped(m, ps[i].threads);
      assert ProcessNodes(ps)[i].at in m;
    }
  }

  lemma UsersMapped(m: Memory, us: seq<UserTree>)
    requires HoldsUsers(m, us)
    ensures UserCells(us) <= m.Keys
  {
    forall i | 0 <= i < |us| ensures UserOwns(us[i]) <= m.Keys {
      ProcessesMapped(m, us[i].processes);
      assert UserNodes(us)[i].at in m;
    }
  }

  lemma ThreadPushed(m: Memory, ts: seq<ThreadTree>, t: ThreadTree)
    requires HoldsThreads(m, ts) && t.at !in m && t.at != NULL
    ensures HoldsThreads(m[t.at := Cell(ThreadFields(t.thread), At(ThreadNodes(ts), 0))], [t] + ts)
    ensures ThreadCells([t] + ts) == ThreadCells(ts) + {t.at} && Threads([t] + ts) == [t.thread] + Threads(ts)
  {
    hide List, Addrs;
    PushedThread(ts, t);
    ListPushed(m, At(ThreadNodes(ts), 0), ThreadNodes(ts), t.at, ThreadFields(t.thread));
    AddrsPushed(ThreadNodes(ts), Node(t.at, ThreadFields(t.thread)));
  }

  lemma PushedThread(ts: seq<ThreadTree>, t: ThreadTree)
    ensures ThreadNodes([t] + ts) == [Node(t.at, ThreadFields(t.thread))] + ThreadNodes(ts)
    ensures At(ThreadNodes([t] + ts), 0) == t.at && Threads([t] + ts) == [t.thread] + Threads(ts)
  {
  }

  lemma AddrsPushed(ns: seq<Node>, n: Node)
    ensures Addrs([n] + ns) == Addrs(ns) + {n.at}
  {
    var ms := [n] + ns;
    assert ms[0] == n;
    forall i | 0 <= i < |ns| ensures ns[i].at in Addrs(ms) {
      assert ms[i + 1] == ns[i];
    }
    forall i | 0 <= i < |ms| ensures ms[i].at in Addrs(ns) + {n.at} {
      assert i > 0 ==> ms[i] == ns[i - 1];
    }
  }

  lemma ProcessCellsPushed(ps: seq<ProcessTree>, p: ProcessTree)
    requires Apart(ProcessShares(ps)) && ProcessOwns(p) !! ProcessCells(ps)
    ensures ProcessCells([p] + ps) == ProcessCells(ps) + ProcessOwns(p) && Apart(ProcessShares([p] + ps))
  {
    hide Union, Apart, ProcessOwns;
    UnionPushed(ProcessShares(ps), ProcessOwns(p));
    assert ProcessShares([p] + ps) == [ProcessOwns(p)] + ProcessShares(ps);
  }

  lemma ProcessPushed(m: Memory, ps: seq<ProcessTree>, p: ProcessTree)
    requires HoldsProcesses(m, ps) && p.at !in m && p.at != NULL && p.threads == []
    ensures HoldsProcesses(m[p.at := Cell(ProcessCell(p), At(ProcessNodes(ps), 0))], [p] + ps)
    ensures ProcessCells([p] + ps) == ProcessCells(ps) + {p.at} && Processes([p] + ps) == [ProcessOf(p)] + Processes(ps)
  {
    hide List, Addrs, Union, Apart, ProcessOwns, ProcessCell, ProcessOf;
    var m', qs := m[p.at := Cell(ProcessCell(p), At(ProcessNodes(ps), 0))], [p] + ps;
    ProcessesMapped(m, ps);
    NoThreads(p);
    ProcessCellsPushed(ps, p);
    ListPushed(m, At(ProcessNodes(ps), 0), ProcessNodes(ps), p.at, ProcessCell(p));
    PushedProcess(ps, p);
    forall k | 0 <= k < |qs| ensures HoldsThreads(m', qs[k].threads) {
      if k > 0 {
        assert qs[k] == ps[k - 1];
        ListFrame(m, m', At(ThreadNodes(ps[k - 1].threads), 0), ThreadNodes(ps[k - 1].threads));
      } else {
        HoldsNothing(m');
      }
    }
  }

  lemma PushedProcess(ps: seq<ProcessTree>, p: ProcessTree)
    ensures ProcessNodes([p] + ps) == [Node(p.at, ProcessCell(p))] + ProcessNodes(ps)
    ensures Processes([p] + ps) == [ProcessOf(p)] + Processes(ps)
  {
  }

  lemma NoThreads(p: ProcessTree)
    requires p.threads == []
    ensures ProcessOwns(p) == {p.at}
  {
  }

  lemma UserCellsPushed(us: seq<UserTree>, u: UserTree)
    requires Apart(UserShares(us)) && UserOwns(u) !! UserCells(us)
    ensures UserCells([u] + us) == UserCells(us) + UserOwns(u) && Apart(UserShares([u] + us))
  {
    hide Union, Apart, UserOwns;
    UnionPushed(UserShares(us), UserOwns(u));
    assert UserShares([u] + us) == [UserOwns(u)] + UserShares(us);
  }

  lemma NoProcesses(u: UserTree)
    requires u.processes == []
    ensures UserOwns(u) == {u.at}
  {
  }

  lemma UserPushed(m: Memory, head: int, us: seq<UserTree>, u: UserTree)
    requires Holds(m, head, us) && u.at !in m && u.at != NULL && u.processes == []
    ensures Holds(m[u.at := Cell(UserCell(u), head)], u.at, [u] + us) && Users([u] + us) == [UserOf(u)] + Users(us)
  {
    hide List, Addrs, HoldsProcesses, Union, Apart, UserOwns, UserCell, UserOf;
    var m', vs := m[u.at := Cell(UserCell(u), head)], [u] + us;
    UsersMapped(m, us);
    NoProcesses(u);
    UserCellsPushed(us, u);
    ListPushed(m, head, UserNodes(us), u.at, UserCell(u));
    PushedNodes(us, u);
    forall k | 0 <= k < |vs| ensures HoldsProcesses(m', vs[k].processes) {
      if k > 0 {
        assert vs[k] == us[k - 1];
        StillHolds(m, us[k - 1].processes, u.at, Cell(UserCell(u), head));
      } else {
        HoldsNothing(m');
      }
    }
  }

  lemma PushedNodes(us: seq<UserTree>, u: UserTree)
    ensures UserNodes([u] + us) == [Node(u.at, UserCell(u))] + UserNodes(us)
    ensures Users([u] + us) == [UserOf(u)] + Users(us)
  {
  }

  /** Writing to a cell that was free changes no list. */
  lemma StillHolds(m: Memory, ps: seq<ProcessTree>, a: int, c: Cell)
    requires HoldsProcesses(m, ps) && a !in m
    ensures HoldsProcesses(m[a := c], ps)
  {
    ProcessesFrame(m, m[a := c], ps);
  }

  lemma HoldsNothing(m: Memory)
    ensures HoldsProcesses(m, []) && HoldsThreads(m, [])
  {
  }

  // ---------------------------------------------------------------- what is left is where it was

  /** Every thread of `ts'` is a thread of `ts`, in the same node. */
  ghost predicate ThreadsStay(ts: seq<ThreadTree>, ts': seq<ThreadTree>) {
    forall t :: t in ts' ==> t in ts
  }

  /** `q` is `p` in the same node, with threads of `p` that are in the same nodes. */
  ghost predicate ProcessStays(p: ProcessTree, q: ProcessTree) {
    q == p.(threads := q.threads) && ThreadsStay(p.threads, q.threads)
  }

  ghost predicate ProcessFrom(ps: seq<ProcessTree>, q: ProcessTree) { exists p :: p in ps && ProcessStays(p, q) }

  ghost predicate ProcessesStay(ps: seq<ProcessTree>, ps': seq<ProcessTree>) {
    forall q :: q in ps' ==> ProcessFrom(ps, q)
  }

  /** The same for users, who keep their burst records. */
  ghost predicate UserStays(u: UserTree, v: UserTree) {
    && v == u.(processes := v.processes, nProcesses := v.nProcesses, nThreads := v.nThreads)
    && ProcessesStay(u.processes, v.processes)
  }

  ghost predicate UserFrom(us: seq<UserTree>, v: UserTree) { exists u :: u in us && UserStays(u, v) }

  ghost predicate UsersStay(us: seq<UserTree>, us': seq<UserTree>) {
    forall v :: v in us' ==> UserFrom(us, v)
  }

  lemma ThreadsStayBut(ts: seq<ThreadTree>, i: nat)
    requires i < |ts|
    ensures ThreadsStay(ts, Removed(ts, i))
  {
  }

  lemma ProcessItself(p: ProcessTree)
    ensures ProcessStays(p, p)
  {
  }

  lemma ProcessesStaySelf(ps: seq<ProcessTree>)
    ensures ProcessesStay(ps, ps)
  {
    forall p | p in ps ensures ProcessFrom(ps, p) {
      ProcessItself(p);
    }
  }

  lemma ProcessesStayTrans(ps: seq<ProcessTree>, qs: seq<ProcessTree>, rs: seq<ProcessTree>)
    requires ProcessesStay(ps, qs) && ProcessesStay(qs, rs)
    ensures ProcessesStay(ps, rs)
  {
    forall r | r in rs ensures ProcessFrom(ps, r) {
      var q :| q in qs && ProcessStays(q, r);
      assert ProcessFrom(ps, q);
      var p :| p in ps && ProcessStays(p, q);
      assert ProcessStays(p, r);
    }
  }

  lemma ProcessesStayBut(ps: seq<ProcessTree>, i: nat)
    requires i < |ps|
    ensures ProcessesStay(ps, Removed(ps, i))
  {
    forall q | q in Removed(ps, i) ensures ProcessFrom(ps, q) {
      assert q in ps;
      ProcessItself(q);
    }
  }

  lemma ProcessesStayReplaced(ps: seq<ProcessTree>, i: nat, ts: seq<ThreadTree>)
    requires i < |ps| && ThreadsStay(ps[i].threads, ts)
    ensures ProcessesStay(ps, ps[i := ps[i].(threads := ts)])
  {
    var q := ps[i].(threads := ts);
    forall r | r in ps[i := q] ensures ProcessFrom(ps, r) {
      if r == q {
        assert ps[i] in ps && ProcessStays(ps[i], q);
      } else {
        assert r in ps;
        ProcessItself(r);
      }
    }
  }

  lemma UserItself(u: UserTree)
    ensures UserStays(u, u)
  {
    ProcessesStaySelf(u.processes);
  }

  lemma UsersStaySelf(us: seq<UserTree>)
    ensures UsersStay(us, us)
  {
    forall u | u in us ensures UserFrom(us, u) {
      UserItself(u);
    }
  }

  lemma UsersStayTrans(us: seq<UserTree>, vs: seq<UserTree>, ws: seq<UserTree>)
    requires UsersStay(us, vs) && UsersStay(vs, ws)
    ensures UsersStay(us, ws)
  {
    hide ProcessesStay;
    forall w | w in ws ensures UserFrom(us, w) {
      var v :| v in vs && UserStays(v, w);
      assert UserFrom(us, v);
      var u :| u in us && UserStays(u, v);
      ProcessesStayTrans(u.processes, v.processes, w.processes);
      assert UserStays(u, w);
    }
  }

  lemma UsersStayBut(us: seq<UserTree>, i: nat)
    requires i < |us|
    ensures UsersStay(us, Removed(us, i))
  {
    hide UserStays;
    forall v | v in Removed(us, i) ensures UserFrom(us, v) {
      assert v in us;
      UserItself(v);
    }
  }

  lemma UsersStayReplaced(us: seq<UserTree>, i: nat, v: UserTree)
    requires i < |us| && UserStays(us[i], v)
    ensures UsersStay(us, us[i := v])
  {
    hide UserStays;
    forall w | w in us[i := v] ensures UserFrom(us, w) {
      if w == v {
        assert us[i] in us;
      } else {
        assert w in us;
        UserItself(w);
      }
    }
  }
}
