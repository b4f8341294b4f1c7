/** What the stores of a lookup that adds an entry do to the registry's lists:
    a user, a process or a thread more, at the front of its list. */
module RegistryGrowth {
  import opened Collections
  import opened Options
  import opened RegistryModel
  import opened NodeMemory
  import opened RegistryMemory
  import opened RegistrySteps
  import BurstLimiter

  /** User `k` became `v`, in the same node and with the cells `extra` besides its own; nothing else changed. */
  lemma UserGrown(m: Memory, m': Memory, head: int, us: seq<UserTree>, k: nat, v: UserTree, extra: set<int>)
    requires Holds(m, head, us) && k < |us| && v.at == us[k].at && extra !! m.Keys && m'.Keys == m.Keys + extra
    requires ProcessCells(v.processes) == ProcessCells(us[k].processes) + extra && HoldsProcesses(m', v.processes)
    requires v.at in m && m'[v.at] == Cell(UserCell(v), m[v.at].next)
    requires forall a :: a in m && a != v.at && a !in ProcessCells(us[k].processes) ==> m'[a] == m[a]
    ensures Holds(m', head, us[k := v]) && Users(us[k := v]) == Users(us)[k := UserOf(v)]
  {
    hide HoldsUsers, HoldsProcesses, ProcessCells, UserCells, UserCell, UserNodes, Apart;
    UserStands(m, us, k);
    UserIn(us, k);
    UsersStandApart(m, us);
    assert UserOwns(v) == UserOwns(us[k]) + extra;
    UserRewritten(m, m', us, k, v);
    UserCellsReplaced(us, k, v);
    FirstUserKept(us, k, v);
    UserDone(us, k, v);
  }

  /** The user whose node changed, its lists staying as they are. */
  lemma UserKeeps(m: Memory, head: int, us: seq<UserTree>, k: nat, v: UserTree)
    requires Holds(m, head, us) && k < |us| && v == us[k].(timestamp := v.timestamp, nActions := v.nActions)
    ensures us[k].at in m && Holds(m[v.at := m[v.at].(fields := UserCell(v))], head, us[k := v])
    ensures Users(us[k := v]) == Users(us)[k := UserOf(v)]
  {
    hide HoldsUsers, HoldsProcesses, Apart;
    UserHere(m, head, us, k);
    var m' := m[v.at := m[v.at].(fields := UserCell(v))];
    ProcessesFrame(m, m', v.processes);
    UserGrown(m, m', head, us, k, v, {});
  }

  /** What the lookups rely on at user `k`. */
  lemma UserHere(m: Memory, head: int, us: seq<UserTree>, k: nat)
    requires Holds(m, head, us) && k < |us|
    ensures us[k].at in m && m[us[k].at] == Cell(UserCell(us[k]), At(UserNodes(us), k + 1))
    ensures HoldsProcesses(m, us[k].processes)
    ensures us[k].at !in ProcessCells(us[k].processes) && UserOf(us[k]) == Users(us)[k]
  {
    hide HoldsProcesses, ProcessCells;
    UserStands(m, us, k);
  }

  /** And at its process `j`. */
  lemma ProcessHere(m: Memory, ps: seq<ProcessTree>, j: nat)
    requires HoldsProcesses(m, ps) && j < |ps|
    ensures ps[j].at in m && m[ps[j].at] == Cell(ProcessCell(ps[j]), At(ProcessNodes(ps), j + 1))
    ensures HoldsThreads(m, ps[j].threads)
    ensures ps[j].at in ProcessCells(ps) && ps[j].at !in ThreadCells(ps[j].threads)
    ensures ProcessOf(ps[j]) == Processes(ps)[j]
  {
    ProcessIn(ps, j);
    assert ProcessNodes(ps)[j].at in m;
    NotThread(m, ps[j].threads, ps[j].at);
  }

  function WithProcess(v: UserTree, p: ProcessTree): UserTree {
    v.(processes := [p] + v.processes, nProcesses := v.nProcesses + 1)
  }

  /** The stores of lines 416-425. */
  lemma ProcessAdded(m: Memory, head: int, us: seq<UserTree>, k: nat, p: ProcessTree)
    requires Holds(m, head, us) && k < |us| && p.at !in m && p.at != NULL && p.threads == []
    ensures var u, v := us[k].at, WithProcess(us[k], p);
      && IsUser(m, u) && m[u].fields.processes == At(ProcessNodes(us[k].processes), 0)
      && var m' := m[p.at := Cell(ProcessFields(p.pid, p.starttime, NULL), m[u].fields.processes)];
         var f := m[u].fields;
         && Holds(m'[u := m[u].(fields := f.(processes := p.at, nProcesses := f.nProcesses + 1))], head, us[k := v])
         && Users(us[k := v]) == Users(us)[k := UserOf(v)]
         && UserOf(v).processes == [Process(p.pid, p.starttime, [])] + UserOf(us[k]).processes
  {
    hide Holds, HoldsProcesses, ProcessCells, Processes, ProcessNodes;
    var ps := us[k].processes;
    UserHere(m, head, us, k);
    var m1 := m[p.at := Cell(ProcessCell(p), At(ProcessNodes(ps), 0))];
    ProcessPushed(m, ps, p);
    FirstPushed(ps, p);
    var v := WithProcess(us[k], p);
    var m' := m1[v.at := m[v.at].(fields := UserCell(v))];
    ProcessesFrame(m1, m', v.processes);
    UserGrown(m, m', head, us, k, v, {p.at});
    assert Threads(p.threads) == [];
  }

  lemma FirstPushed(ps: seq<ProcessTree>, p: ProcessTree)
    ensures At(ProcessNodes([p] + ps), 0) == p.at
  {
  }

  function WithThread(v: UserTree, j: nat, t: ThreadTree): UserTree
    requires j < |v.processes|
  {
    v.(processes := v.processes[j := ThreadIn(v.processes[j], t)], nThreads := v.nThreads + 1)
  }

  function ThreadIn(p: ProcessTree, t: ThreadTree): ProcessTree { p.(threads := [t] + p.threads) }

  /** A thread more in process `j`. */
  lemma ThreadInProcess(m: Memory, ps: seq<ProcessTree>, j: nat, t: ThreadTree)
    requires HoldsProcesses(m, ps) && j < |ps| && t.at !in m && t.at != NULL
    ensures var p := ThreadIn(ps[j], t);
      && IsProcess(m, p.at) && p.at in ProcessCells(ps)
      && var m' :=
        m[t.at := Cell(ThreadFields(t.thread), m[p.at].fields.threads)][p.at :=
                                                                        m[p.at].(fields :=
                                                                            m[p.at].fields.(threads := t.at))];
         HoldsProcesses(m', ps[j := p]) && ProcessCells(ps[j := p]) == ProcessCells(ps) + {t.at}
  {
    hide HoldsProcesses, HoldsThreads, Apart, ThreadCells, Union;
    var p := ThreadIn(ps[j], t);
    ProcessHere(m, ps, j);
    ProcessesMapped(m, ps);
    ThreadPushed(m, ps[j].threads, t);
    ProcessesStandApart(m, ps);
    var m1 := m[t.at := Cell(ThreadFields(t.thread), At(ThreadNodes(ps[j].threads), 0))];
    var m' := m1[p.at := m[p.at].(fields := ProcessCell(p))];
    ThreadsFrame(m1, m', p.threads);
    ProcessIn(ps, j);
    assert ProcessOwns(p) == ProcessOwns(ps[j]) + {t.at};
    ProcessRewritten(m, m', ps, j, p);
    ProcessCellsReplaced(ps, j, p);
    FirstThread(ps[j].threads, t);
  }

  lemma FirstThread(ts: seq<ThreadTree>, t: ThreadTree)
    ensures At(ThreadNodes([t] + ts), 0) == t.at
  {
  }

  /** The stores of lines 446-454. */
  lemma ThreadAdded(m: Memory, head: int, us: seq<UserTree>, k: nat, j: nat, t: ThreadTree)
    requires Holds(m, head, us) && k < |us| && j < |us[k].processes| && t.at !in m && t.at != NULL
    ensures var u, p, v := us[k].at, us[k].processes[j].at, WithThread(us[k], j, t);
      && IsUser(m, u) && IsProcess(m, p) && u != p
      && var m' :=
        m[t.at := Cell(ThreadFields(t.thread), m[p].fields.threads)][p :=
                                                                     m[p].(fields := m[p].fields.(threads := t.at))];
         && Holds(m'[u := m[u].(fields := m[u].fields.(nThreads := m[u].fields.nThreads + 1))], head, us[k := v])
         && Users(us[k := v]) == Users(us)[k := UserOf(v)]
  {
    hide Holds, HoldsProcesses, ProcessCells, Processes, ProcessNodes, HoldsThreads, ThreadNodes;
    var ps := us[k].processes;
    UserHere(m, head, us, k);
    ThreadInProcess(m, ps, j, t);
    var v, p := WithThread(us[k], j, t), us[k].processes[j].at;
    var m1 := m[t.at := Cell(ThreadFields(t.thread), m[p].fields.threads)][p :=
                                                                           m[p].(fields :=
                                                                               m[p].fields.(threads := t.at))];
    var m' := m1[v.at := m[v.at].(fields := UserCell(v))];
    ProcessesFrame(m1, m', v.processes);
    FirstKept(ps, j, ThreadIn(ps[j], t));
    UserGrown(m, m', head, us, k, v, {t.at});
  }

  /** What these are as values. */
  lemma ProcessAddedOf(v: UserTree, p: ProcessTree)
    requires p.threads == []
    ensures var u := UserOf(v);
      && UserOf(WithProcess(v, p))
        == u.(processes := [Process(p.pid, p.starttime, [])] + u.processes, nProcesses := u.nProcesses + 1)
      && u.processes == Processes(v.processes) && u.nProcesses == v.nProcesses
  {
    PushedProcess(v.processes, p);
    assert Threads(p.threads) == [];
  }

  lemma ThreadAddedOf(v: UserTree, j: nat, t: ThreadTree)
    requires j < |v.processes|
    ensures var u := UserOf(v); |u.processes| == |v.processes| && var p := u.processes[j];
      && UserOf(WithThread(v, j, t))
        == u.(processes := u.processes[j := p.(threads := [t.thread] + p.threads)], nThreads := u.nThreads + 1)
      && p.threads == Threads(v.processes[j].threads) && u.nThreads == v.nThreads
  {
    var p := v.processes[j];
    assert Threads([t] + p.threads) == [t.thread] + Threads(p.threads);
    ReplacedNodes(v.processes, j, ThreadIn(p, t));
  }

  // ---------------------------------------------------------------- lookups

  /** What malloc promises: nothing, or a cell that is not in use. */
  predicate Grants(m: Memory, memory: Option<int>) { memory.Some? ==> memory.value != NULL && memory.value !in m }

  lemma UserRead(v: UserTree)
    ensures UserCell(v).UserFields? && UserCell(v).uid == v.uid && UserCell(v).nProcesses == v.nProcesses
    ensures UserCell(v).nThreads == v.nThreads
    ensures UserCell(v).processes == At(ProcessNodes(v.processes), 0)
  {
  }

  lemma HasUserAt(us: seq<UserTree>, uid: int, k: nat)
    requires k < |us| && us[k].uid == uid
    ensures HasUser(Users(us), uid)
  {
    assert Users(us)[k].uid == uid;
  }

  lemma HasNoUser(us: seq<UserTree>, uid: int)
    requires forall i :: 0 <= i < |us| ==> us[i].uid != uid
    ensures !HasUser(Users(us), uid)
  {
  }

  lemma UserAdded(b: Book, v: UserTree)
    requires v.processes == [] && v.nActions == 0 && v.nProcesses == 0 && v.nThreads == 0
    ensures AddUser(b, v.uid, v.timestamp) == b.(users := [UserOf(v)] + b.users, nUsers := b.nUsers + 1)
    ensures UserCell(v) == UserFields(v.uid, v.timestamp, 0, NULL, 0, 0)
  {
    assert Processes([]) == [];
  }

  lemma ProcessMet(m: Memory, ps: seq<ProcessTree>, j: nat)
    requires HoldsProcesses(m, ps) && j <= |ps| && At(ProcessNodes(ps), j) != NULL
    ensures j < |ps| && ps[j].at == At(ProcessNodes(ps), j) && IsProcess(m, ps[j].at)
    ensures m[ps[j].at].next == At(ProcessNodes(ps), j + 1)
    ensures m[ps[j].at].fields.pid == ps[j].pid && m[ps[j].at].fields.starttime == ps[j].starttime
  {
    ListWalk(m, At(ProcessNodes(ps), 0), ProcessNodes(ps), j);
  }

  lemma HasProcessAt(ps: seq<ProcessTree>, pid: int, starttime: int, j: nat)
    requires j < |ps| && ps[j].pid == pid && ps[j].starttime == starttime
    ensures HasProcess(Processes(ps), pid, starttime)
  {
    assert Processes(ps)[j].pid == pid && Processes(ps)[j].starttime == starttime;
  }

  lemma HasNoProcess(ps: seq<ProcessTree>, pid: int, starttime: int)
    requires forall i :: 0 <= i < |ps| ==> !(ps[i].pid == pid && ps[i].starttime == starttime)
    ensures !HasProcess(Processes(ps), pid, starttime)
  {
  }

  lemma UserMet(m: Memory, head: int, us: seq<UserTree>, k: nat)
    requires Holds(m, head, us) && k <= |us| && At(UserNodes(us), k) != NULL
    ensures k < |us| && us[k].at == At(UserNodes(us), k) && IsUser(m, us[k].at)
    ensures m[us[k].at].next == At(UserNodes(us), k + 1)
    ensures m[us[k].at].fields.uid == us[k].uid
  {
    hide HoldsProcesses, UserCells, Apart;
    ListWalk(m, head, UserNodes(us), k);
  }

  lemma BurstRead(v: UserTree)
    ensures UserCell(v).UserFields?
    ensures BurstOf(UserCell(v)) == Burst(UserOf(v)) == BurstLimiter.Record(v.timestamp, v.nActions)
  {
  }

  /** The stores of lines 356-357 and 367. */
  lemma BurstStored(m: Memory, head: int, us: seq<UserTree>, k: nat, r: BurstLimiter.Record)
    requires Holds(m, head, us) && k < |us|
    ensures var u, v := us[k].at, us[k].(timestamp := r.timestamp, nActions := r.nActions);
      && IsUser(m, u)
      && Holds(m[u := m[u].(fields := m[u].fields.(timestamp := r.timestamp, nActions := r.nActions))], head,
               us[k := v])
      && Users(us[k := v]) == Users(us)[k := UserOf(v)]
      && UserOf(v) == UserOf(us[k]).(timestamp := r.timestamp, nActions := r.nActions)
  {
    hide Holds, HoldsProcesses, Users, UserNodes;
    UserHere(m, head, us, k);
    UserKeeps(m, head, us, k, us[k].(timestamp := r.timestamp, nActions := r.nActions));
  }
}
