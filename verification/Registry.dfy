/** The daemon's registry: nested linked lists in memory, with the counters beside them.  Pointers are addresses; the
    clock, the system's view of a thread and what malloc answers are parameters. */
module Registry {
  import opened Collections
  import opened Options
  import opened RegistryModel
  import opened Collection
  import opened NodeMemory
  import opened RegistryMemory
  import opened RegistrySteps
  import opened RegistryGrowth
  import opened Sweeps
  import BurstLimiter

  /** What a lookup returns: the node, -EBUSY or -ENOMEM. */
  datatype Answer = Found(ptr: int) | Busy | NoMemory

  class Registry {
    const limits: Limits
    var mem: Memory
    /** The head of the list of users. */
    var users: int
    var nUsers: nat
    var nProcesses: nat
    var nThreads: nat
    /** The nodes in memory, by list. */
    ghost var tree: seq<UserTree>

    ghost function Contents(): Book
      reads this
    {
      Book(Users(tree), nUsers, nProcesses, nThreads)
    }

    ghost predicate Valid()
      reads this
    {
      Holds(mem, users, tree) && Ok(limits, Contents())
    }

    constructor (limits: Limits)
      ensures Valid() && Contents() == Book([], 0, 0, 0) && this.limits == limits && mem == map[]
    {
      this.limits := limits;
      mem, users, tree := map[], NULL, [];
      nUsers, nProcesses, nThreads := 0, 0, 0;
      new;
      assert Users([]) == [];
      assert UserShares([]) == [] && UserCells([]) == {};
    }

    // -------------------------------------------------------------- lookups

    /** Lines 374-378. */
    method SearchUser(uid: int) returns (u: int, ghost k: nat)
      requires Holds(mem, users, tree)
      ensures u != NULL ==> k < |tree| && tree[k].at == u && tree[k].uid == uid
      ensures u != NULL <==> HasUser(Users(tree), uid)
    {
      hide Holds, UserNodes, UserCell, HasUser, Users;
      k := 0;
      HeadAt(mem, users, tree);
      u := users;
      while u != NULL
        invariant k <= |tree| && u == At(UserNodes(tree), k) && forall i :: 0 <= i < k ==> tree[i].uid != uid
        decreases |tree| - k
      {
        UserMet(mem, users, tree, k);
        if mem[u].fields.uid == uid {
          HasUserAt(tree, uid, k);
          return;
        }
        u, k := mem[u].next, k + 1;
      }
      UsersEnd(mem, users, tree, k);
      HasNoUser(tree, uid);
    }

    /** Lines 385-395, on the cell `u` from malloc. */
    method NewUser(u: int, uid: int, now: int)
      requires Valid() && u != NULL && u !in mem && !HasUser(Users(tree), uid) && nUsers < limits.users
      modifies this
      ensures Valid() && Contents() == AddUser(old(Contents()), uid, now) && mem.Keys == old(mem).Keys + {u}
      ensures |tree| > 0 && tree[0].at == u && tree[0].uid == uid
    {
      hide Ok, Holds, UserCell, HasUser, AddUser, Users, UserOf;
      ghost var v := UserTree(u, uid, now, 0, 0, 0, []);
      AddUserOk(limits, Contents(), uid, now);
      UserPushed(mem, users, tree, v);
      UserAdded(Contents(), v);
      mem := mem[u := Cell(UserFields(uid, now, 0, NULL, 0, 0), users)];
      users := u;
      nUsers := nUsers + 1;
      tree := [v] + tree;
    }

    /** find_user, lines 371-399; `memory` is what malloc answers. */
    method FindUser(uid: int, now: int, memory: Option<int>) returns (r: Answer, ghost k: nat)
      requires Valid() && Grants(mem, memory)
      modifies this
      ensures Valid() && (r.Found? ==> k < |tree| && tree[k].at == r.ptr && tree[k].uid == uid)
      ensures r.Found? || Untouched(old(mem), old(tree), old(Contents()))
      ensures if old(HasUser(Users(tree), uid)) then r.Found? && Untouched(old(mem), old(tree), old(Contents()))
              else if old(nUsers) >= limits.users then r == Busy
              else if memory.None? then r == NoMemory
              else r == Found(memory.value) && mem.Keys == old(mem).Keys + {memory.value}
                   && Contents() == AddUser(old(Contents()), uid, now)
    {
      hide Ok, Holds, HasUser, AddUser;
      var u;
      u, k := SearchUser(uid);
      if u != NULL {
        return Found(u), k;
      }
      if nUsers >= limits.users {
        return Busy, k;
      }
      if memory.None? {
        return NoMemory, k;
      }
      NewUser(memory.value, uid, now);
      return Found(memory.value), 0;
    }

    /** Nothing was stored. */
    ghost predicate Untouched(m: Memory, t: seq<UserTree>, b: Book)
      reads this
    {
      mem == m && tree == t && Contents() == b
    }

    /** Lines 404-408. */
    method SearchProcess(u: int, pid: int, starttime: int, ghost k: nat) returns (p: int, ghost j: nat)
      requires Holds(mem, users, tree) && k < |tree| && tree[k].at == u
      ensures p != NULL ==>
        var ps := tree[k].processes; j < |ps| && ps[j].at == p && ps[j].pid == pid && ps[j].starttime == starttime
      ensures p != NULL <==> HasProcess(Processes(tree[k].processes), pid, starttime)
    {
      hide Holds, HoldsProcesses, ProcessNodes, ProcessCell, UserCell, HasProcess, Processes;
      ghost var ps := tree[k].processes;
      UserHere(mem, users, tree, k);
      UserRead(tree[k]);
      j := 0;
      p := mem[u].fields.processes;
      while p != NULL
        invariant j <= |ps| && p == At(ProcessNodes(ps), j)
        invariant forall i :: 0 <= i < j ==> !(ps[i].pid == pid && ps[i].starttime == starttime)
        decreases |ps| - j
      {
        ProcessMet(mem, ps, j);
        if mem[p].fields.pid == pid && mem[p].fields.starttime == starttime {
          HasProcessAt(ps, pid, starttime, j);
          return;
        }
        p, j := mem[p].next, j + 1;
      }
      ProcessesEnd(mem, ps, j);
      HasNoProcess(ps, pid, starttime);
    }

    /** Lines 416-425, on the cell `p` from malloc. */
    method NewProcess(u: int, p: int, pid: int, starttime: int, ghost k: nat)
      requires Valid() && p != NULL && p !in mem && k < |tree| && tree[k].at == u
      requires !HasProcess(Processes(tree[k].processes), pid, starttime) && tree[k].nProcesses < limits.processes
      modifies this
      ensures Valid() && Contents() == AddProcess(old(Contents()), k, pid, starttime) && mem.Keys == old(mem).Keys + {p}
      ensures k < |tree| && tree[k].at == u && tree[k].processes != []
      ensures var q := tree[k].processes[0]; q.at == p && q.pid == pid && q.starttime == starttime
    {
      hide Ok, Holds, HasProcess, Users, UserNodes, Processes, HoldsProcesses, UserOf, UserCell;
      ghost var q := ProcessTree(p, pid, starttime, []);
      UserHere(mem, users, tree, k);
      ProcessAddedOf(tree[k], q);
      AddProcessOk(limits, Contents(), k, pid, starttime);
      ProcessAdded(mem, users, tree, k, q);
      ghost var f := mem[u].fields;
      mem := mem[p := Cell(ProcessFields(pid, starttime, NULL), mem[u].fields.processes)];
      ghost var m := mem;
      mem := mem[u := mem[u].(fields := mem[u].fields.(processes := p))];
      mem := mem[u := mem[u].(fields := mem[u].fields.(nProcesses := mem[u].fields.nProcesses + 1))];
      assert mem == m[u := m[u].(fields := f.(processes := p, nProcesses := f.nProcesses + 1))];
      nProcesses := nProcesses + 1;
      tree := tree[k := WithProcess(tree[k], q)];
    }

    /** find_process, lines 401-429, for the user at `u`. */
    method FindProcess(u: int, pid: int, starttime: int, memory: Option<int>, ghost k: nat)
      returns (r: Answer, ghost j: nat)
      requires Valid() && Grants(mem, memory) && k < |tree| && tree[k].at == u
      modifies this
      ensures Valid() && k < |tree| && tree[k].at == u
      ensures r.Found? ==>
        var ps := tree[k].processes; j < |ps| && ps[j].at == r.ptr && ps[j].pid == pid && ps[j].starttime == starttime
      ensures r.Found? || Untouched(old(mem), old(tree), old(Contents()))
      ensures if old(HasProcess(Users(tree)[k].processes, pid, starttime)) then r.Found? &&
        Untouched(old(mem), old(tree), old(Contents()))
              else if old(tree[k].nProcesses) >= limits.processes then r == Busy
              else if memory.None? then r == NoMemory
              else r == Found(memory.value) && mem.Keys == old(mem).Keys + {memory.value}
                   && Contents() == AddProcess(old(Contents()), k, pid, starttime)
    {
      hide Ok, Holds, HasProcess, AddProcess, Processes, UserCell;
      UserHere(mem, users, tree, k);
      UserRead(tree[k]);
      var p;
      p, j := SearchProcess(u, pid, starttime, k);
      if p != NULL {
        return Found(p), j;
      }
      if mem[u].fields.nProcesses >= limits.processes {
        return Busy, j;
      }
      if memory.None? {
        return NoMemory, j;
      }
      NewProcess(u, memory.value, pid, starttime, k);
      return Found(memory.value), 0;
    }

    /** Lines 434-438. */
    method SearchThread(p: int, pid: int, starttime: int, ghost k: nat, ghost j: nat) returns (t: int, ghost i: nat)
      requires Holds(mem, users, tree) && k < |tree| && j < |tree[k].processes| && tree[k].processes[j].at == p
      ensures t != NULL ==>
        var ts := tree[k].processes[j].threads; i < |ts| && ts[i] == ThreadTree(t, Thread(pid, starttime))
      ensures t != NULL <==> Thread(pid, starttime) in Threads(tree[k].processes[j].threads)
    {
      hide Holds, HoldsProcesses, HoldsThreads, ProcessNodes, ThreadNodes, UserCell, Processes;
      ghost var ts := tree[k].processes[j].threads;
      UserHere(mem, users, tree, k);
      ProcessHere(mem, tree[k].processes, j);
      i := 0;
      t := mem[p].fields.threads;
      while t != NULL
        invariant i <= |ts| && t == At(ThreadNodes(ts), i)
        invariant forall h :: 0 <= h < i ==> ts[h].thread != Thread(pid, starttime)
        decreases |ts| - i
      {
        ThreadsWalk(mem, ts, i);
        if mem[t].fields.thread.pid == pid && mem[t].fields.thread.starttime == starttime {
          assert Threads(ts)[i] == Thread(pid, starttime);
          return;
        }
        t, i := mem[t].next, i + 1;
      }
      ThreadsWalk(mem, ts, i);
    }

    /** Lines 446-454, on the cell `t` from malloc. */
    method NewThread(u: int, p: int, t: int, pid: int, starttime: int, ghost k: nat, ghost j: nat)
      requires Valid() && t != NULL && t !in mem && k < |tree| && tree[k].at == u && j < |tree[k].processes|
      requires tree[k].processes[j].at == p
      requires Thread(pid, starttime) !in Threads(tree[k].processes[j].threads) && tree[k].nThreads < limits.threads
      modifies this
      ensures Valid() && Contents() == AddThread(old(Contents()), k, j, pid, starttime)
      ensures mem.Keys == old(mem).Keys + {t}
      ensures k < |tree| && tree[k].at == u && j < |tree[k].processes| && tree[k].processes[j].at == p
      ensures var ts := tree[k].processes[j].threads; ts != [] && ts[0] == ThreadTree(t, Thread(pid, starttime))
    {
      hide Ok, Holds, Users, UserNodes, Processes, HoldsProcesses, UserOf, UserCell;
      hide Threads, ThreadNodes, ProcessCell, ProcessNodes, ProcessOf, HoldsThreads, ThreadCells, ProcessCells;
      ghost var q := ThreadTree(t, Thread(pid, starttime));
      UserHere(mem, users, tree, k);
      ProcessHere(mem, tree[k].processes, j);
      ThreadAddedOf(tree[k], j, q);
      AddThreadOk(limits, Contents(), k, j, pid, starttime);
      ThreadAdded(mem, users, tree, k, j, q);
      mem := mem[t := Cell(ThreadFields(Thread(pid, starttime)), mem[p].fields.threads)];
      mem := mem[p := mem[p].(fields := mem[p].fields.(threads := t))];
      mem := mem[u := mem[u].(fields := mem[u].fields.(nThreads := mem[u].fields.nThreads + 1))];
      nThreads := nThreads + 1;
      tree := tree[k := WithThread(tree[k], j, q)];
    }

    /** find_thread, lines 431-458, for the user at `u` and its process at `p`. */
    method FindThread(u: int, p: int, pid: int, starttime: int, memory: Option<int>, ghost k: nat, ghost j: nat)
      returns (r: Answer, ghost i: nat)
      requires Valid() && Grants(mem, memory) && k < |tree| && tree[k].at == u && j < |tree[k].processes|
      requires tree[k].processes[j].at == p
      modifies this
      ensures Valid() && k < |tree| && tree[k].at == u && j < |tree[k].processes| && tree[k].processes[j].at == p
      ensures r.Found? ==>
        var ts := tree[k].processes[j].threads; i < |ts| && ts[i] == ThreadTree(r.ptr, Thread(pid, starttime))
      ensures r.Found? || Untouched(old(mem), old(tree), old(Contents()))
      ensures if Thread(pid, starttime) in old(Users(tree)[k].processes[j].threads) then r.Found? &&
        Untouched(old(mem), old(tree), old(Contents()))
              else if old(tree[k].nThreads) >= limits.threads then r == Busy
              else if memory.None? then r == NoMemory
              else r == Found(memory.value) && mem.Keys == old(mem).Keys + {memory.value}
                   && Contents() == AddThread(old(Contents()), k, j, pid, starttime)
    {
      hide Ok, Holds, AddThread, UserCell;
      UserHere(mem, users, tree, k);
      UserRead(tree[k]);
      var t;
      t, i := SearchThread(p, pid, starttime, k, j);
      if t != NULL {
        return Found(t), i;
      }
      if mem[u].fields.nThreads >= limits.threads {
        return Busy, i;
      }
      if memory.None? {
        return NoMemory, i;
      }
      NewThread(u, p, memory.value, pid, starttime, k, j);
      return Found(memory.value), 0;
    }

    /** verify_burst, lines 352-369, of the user at `u`; `at` is the last reading of the clock. */
    method VerifyBurst(u: int, now: int, stamp: int, ghost k: nat) returns (granted: bool, at: int)
      requires Valid() && k < |tree| && tree[k].at == u
      modifies this
      ensures Valid() && mem.Keys == old(mem).Keys
      ensures var r := old(Burst(UserOf(tree[k])));
        && granted == BurstLimiter.Allows(r, now, limits.burstSec, limits.burstMax)
        && at == BurstLimiter.GrantTime(r, now, stamp, limits.burstSec)
        && Contents()
          == WithBurst(old(Contents()), k, BurstLimiter.Asked(r, now, stamp, limits.burstSec, limits.burstMax))
      ensures k < |tree| && (granted <==>
        old(tree[k].timestamp) + limits.burstSec <= now || old(tree[k].nActions) < limits.burstMax)
      ensures if old(tree[k].timestamp) + limits.burstSec <= now then
                at == stamp && tree[k] == old(tree[k]).(timestamp := stamp, nActions := 0)
              else
                at == now && tree[k] == old(tree[k]).(nActions := old(tree[k].nActions) + if granted then 1 else 0)
    {
      hide Ok, Holds, Users, UserNodes, UserOf, UserCell, HoldsProcesses;
      ghost var m, v := mem, tree[k];
      UserHere(mem, users, tree, k);
      BurstRead(v);
      ghost var r := BurstLimiter.Asked(Burst(UserOf(v)), now, stamp, limits.burstSec, limits.burstMax);
      WithBurstOk(limits, Contents(), k, r);
      if !BurstLimiter.InBurst(BurstOf(mem[u].fields), now, limits.burstSec) {
        mem := mem[u := mem[u].(fields := mem[u].fields.(timestamp := stamp))];
        mem := mem[u := mem[u].(fields := mem[u].fields.(nActions := 0))];
        granted, at := true, stamp;
      } else if mem[u].fields.nActions >= limits.burstMax {
        granted, at := false, now;
      } else {
        mem := mem[u := mem[u].(fields := mem[u].fields.(nActions := mem[u].fields.nActions + 1))];
        granted, at := true, now;
      }
      assert mem == m[u := m[u].(fields := m[u].fields.(timestamp := r.timestamp, nActions := r.nActions))];
      BurstStored(m, users, tree, k, r);
      tree := tree[k := v.(timestamp := r.timestamp, nActions := r.nActions)];
    }

    // -------------------------------------------------------------- freeing

    /** free_process, lines 324-333: process `q` and all its threads. */
    method FreeProcess(p: int, ghost q: ProcessTree)
      requires p == q.at && p in mem && mem[p].fields == ProcessCell(q) && HoldsThreads(mem, q.threads)
      modifies this`mem
      ensures mem == old(mem) - ProcessOwns(q)
    {
      hide HoldsThreads, ThreadCells, ThreadNodes;
      ghost var ts := q.threads;
      NotThread(mem, ts, p);
      while mem[p].fields.threads != NULL
        invariant IsProcess(mem, p) && mem[p].fields.threads == At(ThreadNodes(ts), 0) && HoldsThreads(mem, ts)
        invariant p !in ThreadCells(q.threads) && ThreadCells(ts) <= ThreadCells(q.threads)
        invariant mem.Keys == old(mem).Keys - (ThreadCells(q.threads) - ThreadCells(ts))
        invariant forall a :: a in mem && a != p ==> mem[a] == old(mem)[a]
        decreases |ts|
      {
        ThreadsWalk(mem, ts, 0);
        FirstThreadFreed(mem, p, ts);
        var t := mem[p].fields.threads;
        mem := mem[p := mem[p].(fields := mem[p].fields.(threads := mem[t].next))];
        mem := mem - {t};
        ts := ts[1..];
      }
      ThreadsWalk(mem, ts, 0);
      NoThreadCells(ts);
      mem := mem - {p};
      Freed(old(mem), mem, ProcessOwns(q));
    }

    /** free_user, lines 335-344: user `v`, all its processes and all their threads. */
    method FreeUser(u: int, ghost v: UserTree)
      requires u == v.at && u in mem && mem[u].fields == UserCell(v) && HoldsProcesses(mem, v.processes)
      modifies this`mem
      ensures mem == old(mem) - UserOwns(v)
    {
      hide HoldsProcesses, HoldsThreads, ProcessCells, ProcessNodes, ProcessOwns, ProcessCell;
      ghost var ps := v.processes;
      NotBelow(mem, ps, u);
      while mem[u].fields.processes != NULL
        invariant IsUser(mem, u) && mem[u].fields.processes == At(ProcessNodes(ps), 0) && HoldsProcesses(mem, ps)
        invariant u !in ProcessCells(v.processes) && ProcessCells(ps) <= ProcessCells(v.processes)
        invariant mem.Keys == old(mem).Keys - (ProcessCells(v.processes) - ProcessCells(ps))
        invariant forall a :: a in mem && a != u ==> mem[a] == old(mem)[a]
        decreases |ps|
      {
        var p := mem[u].fields.processes;
        FirstProcessFreed(mem, u, ps);
        mem := mem[u := mem[u].(fields := mem[u].fields.(processes := mem[p].next))];
        FreeProcess(p, ps[0]);
        ps := ps[1..];
      }
      NoProcessCells(mem, ps);
      mem := mem - {u};
      Freed(old(mem), mem, UserOwns(v));
    }

    // -------------------------------------------------------------- garbage collection

    /** Lines 525-535: thread `t`, whose successor is `n` and whose predecessor is `l`, is freed and unlinked. */
    method DropThread(u: int, p: int, l: int, t: int, n: int, ghost ts: seq<ThreadTree>, ghost i: nat)
      requires HoldsThreads(mem, ts) && i < |ts| && IsUser(mem, u) && IsProcess(mem, p)
      requires mem[p].fields.threads == At(ThreadNodes(ts), 0)
      requires t == ts[i].at && n == At(ThreadNodes(ts), i + 1) && l == if i == 0 then NULL else ts[i - 1].at
      requires 1 <= mem[u].fields.nThreads <= nThreads
      modifies this`mem, this`nThreads
      ensures HoldsThreads(mem, Removed(ts, i)) && ThreadsSwept(old(mem), mem, u, p, ts, Removed(ts, i))
      ensures nThreads == old(nThreads) - 1
    {
      ghost var m := mem;
      DropReady(m, u, p, ts, i);
      mem := mem - {t};
      if l != NULL {
        mem := mem[l := mem[l].(next := n)];
      } else {
        mem := mem[p := mem[p].(fields := mem[p].fields.(threads := n))];
      }
      assert mem[u].fields.nThreads >= 1;
      mem := mem[u := mem[u].(fields := mem[u].fields.(nThreads := mem[u].fields.nThreads - 1))];
      assert nThreads >= 1;
      nThreads := nThreads - 1;
      ThreadCut(m, mem, u, p, ts, i);
    }

    /** thread_gc, lines 516-541: of the threads `ts` of process `p` the relevant ones remain, in order; the others
        are freed.  The assertions of the source are those below and in DropThread. */
    method ThreadGc(u: int, p: int, relevant: Relevance, ghost ts: seq<ThreadTree>) returns (ghost ts': seq<ThreadTree>)
      requires IsUser(mem, u) && IsProcess(mem, p) && HoldsThreads(mem, ts)
      requires mem[p].fields.threads == At(ThreadNodes(ts), 0)
      requires |ts| <= mem[u].fields.nThreads <= nThreads
      modifies this`mem, this`nThreads
      ensures HoldsThreads(mem, ts') && ThreadsSwept(old(mem), mem, u, p, ts, ts') && |ts'| <= |ts|
      ensures Threads(ts') == Select(Threads(ts), ThreadKept(old(mem)[u].fields.uid, Key(old(mem)[p].fields), relevant))
      ensures nThreads == old(nThreads) - (|ts| - |ts'|)
      ensures OnlyRelevant(Threads(ts), Threads(ts'), old(mem)[u].fields.uid, Key(old(mem)[p].fields), relevant)
    {
      hide OnlyRelevant, Select, Sweeping, HoldsThreads, ThreadKept;
      ghost var f := ThreadKept(mem[u].fields.uid, Key(mem[p].fields), relevant);
      ts' := ts;
      ghost var i: nat, pos: nat := 0, 0;
      SweepStarts(Threads(ts), f);
      ThreadsSweptSelf(mem, u, p, ts);
      var l, t := NULL, mem[p].fields.threads;
      while t != NULL
        invariant i <= |ts'| <= |ts| && t == At(ThreadNodes(ts'), i) && l == (if i == 0 then NULL else ts'[i - 1].at)
        invariant HoldsThreads(mem, ts') && ThreadsSwept(old(mem), mem, u, p, ts, ts')
        invariant Sweeping(Threads(ts), f, Threads(ts'), i, pos) && |ts'| <= mem[u].fields.nThreads <= nThreads
        invariant nThreads == old(nThreads) - (|ts| - |ts'|)
        decreases |ts'| - i
      {
        t, l, ts', i := VisitThread(u, p, relevant, l, t, ts, ts', i, pos, f, old(mem));
        pos := pos + 1;
      }
      ThreadsWalk(mem, ts', i);
      SweepEnds(Threads(ts), f, Threads(ts'), i, pos);
      ThreadsSelected(Threads(ts), old(mem)[u].fields.uid, Key(old(mem)[p].fields), relevant);
      assert mem[p].fields.threads == NULL || mem[u].fields.nThreads > 0;
    }

    /** Lines 522-537: one thread. */
    method VisitThread(u: int, p: int, relevant: Relevance, l: int, t: int, ghost ts: seq<ThreadTree>,
                       ghost cur: seq<ThreadTree>,
                       ghost i: nat, ghost pos: nat, ghost f: Thread -> Option<Thread>, ghost m0: Memory)
      returns (t': int, l': int, ghost cur': seq<ThreadTree>, ghost i': nat)
      requires ThreadsSwept(m0, mem, u, p, ts, cur) && HoldsThreads(mem, cur) && i <= |cur|
      requires t == At(ThreadNodes(cur), i) != NULL && l == if i == 0 then NULL else cur[i - 1].at
      requires f == ThreadKept(m0[u].fields.uid, Key(m0[p].fields), relevant)
      requires Sweeping(Threads(ts), f, Threads(cur), i, pos)
      requires |cur| <= mem[u].fields.nThreads <= nThreads
      modifies this`mem, this`nThreads
      ensures ThreadsSwept(m0, mem, u, p, ts, cur') && HoldsThreads(mem, cur') && i' <= |cur'|
      ensures |cur'| - i' == |cur| - i - 1 && |cur'| <= |cur|
      ensures t' == At(ThreadNodes(cur'), i') && l' == (if i' == 0 then NULL else cur'[i' - 1].at)
      ensures Sweeping(Threads(ts), f, Threads(cur'), i', pos + 1)
      ensures |cur'| <= mem[u].fields.nThreads <= nThreads && nThreads == old(nThreads) - (|cur| - |cur'|)
    {
      hide Sweeping, HoldsThreads, Select;
      ThreadsWalk(mem, cur, i);
      SweepNext(Threads(ts), f, Threads(cur), i, pos);
      var n := mem[t].next;
      if !relevant(mem[u].fields.uid, Key(mem[p].fields), mem[t].fields.thread) {
        ghost var m := mem;
        RemovedThread(cur, i);
        DropThread(u, p, l, t, n, cur, i);
        ThreadsSweptTrans(m0, m, mem, u, p, ts, cur, Removed(cur, i));
        AfterRemoval(cur, i);
        cur', i', l' := Removed(cur, i), i, l;
      } else {
        UnchangedAt(Threads(cur), i);
        cur', i', l' := cur, i + 1, t;
      }
      t' := n;
    }

    /** Lines 553-563: process `p`, which has no threads left, is freed and unlinked. */
    method DropProcess(u: int, l: int, p: int, n: int, ghost v: UserTree, ghost i: nat) returns (ghost v': UserTree)
      requires HoldsProcesses(mem, v.processes) && i < |v.processes| && v.processes[i].threads == []
      requires u == v.at && u in mem && mem[u].fields == UserCell(v) && 1 <= v.nProcesses <= nProcesses
      requires p == v.processes[i].at && n == At(ProcessNodes(v.processes), i + 1)
      requires l == if i == 0 then NULL else v.processes[i - 1].at
      modifies this`mem, this`nProcesses
      ensures v' == v.(processes := Removed(v.processes, i), nProcesses := v.nProcesses - 1)
      ensures HoldsProcesses(mem, v'.processes) && UserSwept(old(mem), mem, v, v') && nProcesses == old(nProcesses) - 1
    {
      hide HoldsProcesses, HoldsThreads, Cut, UserSwept, ProcessNodes, ProcessOwns, ProcessCell;
      ghost var m := mem;
      ProcessCutReady(m, v, i);
      ProcessHeld(m, v.processes, i);
      NoThreads(v.processes[i]);
      FreeProcess(p, v.processes[i]);
      if l != NULL {
        mem := mem[l := mem[l].(next := n)];
      } else {
        mem := mem[u := mem[u].(fields := mem[u].fields.(processes := n))];
      }
      assert mem[u].fields.nProcesses >= 1;
      mem := mem[u := mem[u].(fields := mem[u].fields.(nProcesses := mem[u].fields.nProcesses - 1))];
      assert nProcesses >= 1;
      nProcesses := nProcesses - 1;
      v' := v.(processes := Removed(v.processes, i), nProcesses := v.nProcesses - 1);
      ProcessCut(m, mem, v, i);
    }

    /** Lines 549-565: one process. */
    method VisitProcess(u: int, relevant: Relevance, l: int, p: int, ghost v0: UserTree, ghost v: UserTree,
                        ghost i: nat, ghost pos: nat, ghost m0: Memory)
      returns (p': int, l': int, ghost v': UserTree, ghost i': nat)
      requires UserSwept(m0, mem, v0, v) && HoldsProcesses(mem, v.processes) && Counted(UserOf(v)) && i <= |v.processes|
      requires u == v.at && p == At(ProcessNodes(v.processes), i) != NULL
      requires l == if i == 0 then NULL else v.processes[i - 1].at
      requires Sweeping(Processes(v0.processes), ProcessKept(v0.uid, relevant), Processes(v.processes), i, pos)
      requires v.nProcesses <= nProcesses && v.nThreads <= nThreads
      modifies this`mem, this`nThreads, this`nProcesses
      ensures UserSwept(m0, mem, v0, v') && HoldsProcesses(mem, v'.processes) && Counted(UserOf(v'))
      ensures i' <= |v'.processes|
      ensures |v'.processes| - i' == |v.processes| - i - 1
      ensures p' == At(ProcessNodes(v'.processes), i') && l' == (if i' == 0 then NULL else v'.processes[i' - 1].at)
      ensures Sweeping(Processes(v0.processes), ProcessKept(v0.uid, relevant), Processes(v'.processes), i', pos + 1)
      ensures v'.nProcesses <= v.nProcesses && v'.nThreads <= v.nThreads
      ensures nThreads == old(nThreads) - (v.nThreads - v'.nThreads)
      ensures nProcesses == old(nProcesses) - (v.nProcesses - v'.nProcesses)
    {
      hide Sweeping, HoldsProcesses, HoldsThreads, UserSwept, ThreadsSwept, Select, ThreadSum, ProcessNodes;
      hide ThreadNodes;
      hide Swept, Counted, ProcessNodesAlike, Processes, UserCell;
      ghost var m := mem;
      ProcessVisited(m0, m, v0, v, i);
      var n := mem[p].next;
      ghost var ts := ThreadGc(u, p, relevant, v.processes[i].threads);
      ghost var v1 := ThreadsDone(m0, m, mem, v0, v, i, ts, relevant);
      ProcessMoved(v0, v, v1, i, pos, relevant);
      AlikeHere(v.processes, v1.processes, i);
      if mem[p].fields.threads == NULL {
        ghost var m1 := mem;
        v' := DropProcess(u, l, p, n, v1, i);
        UserSweptTrans(m0, m1, mem, v0, v1, v');
        i', l' := i, l;
      } else {
        v', i', l' := v1, i + 1, p;
      }
      p' := n;
    }

    /** process_gc, lines 543-569: of user `v` the processes that still have relevant threads remain. */
    method ProcessGc(u: int, relevant: Relevance, ghost v: UserTree) returns (ghost v': UserTree)
      requires HoldsProcesses(mem, v.processes) && u == v.at && u in mem && mem[u].fields == UserCell(v)
      requires Counted(UserOf(v)) && v.nProcesses <= nProcesses && v.nThreads <= nThreads
      modifies this`mem, this`nThreads, this`nProcesses
      ensures UserOf(v') == SweptUser(UserOf(v), relevant) && UserSwept(old(mem), mem, v, v')
      ensures HoldsProcesses(mem, v'.processes)
      ensures v'.nProcesses <= v.nProcesses && v'.nThreads <= v.nThreads
      ensures nThreads == old(nThreads) - (v.nThreads - v'.nThreads)
      ensures nProcesses == old(nProcesses) - (v.nProcesses - v'.nProcesses)
    {
      hide Sweeping, HoldsProcesses, UserSwept, Select, ThreadSum, ProcessNodes, Processes;
      v' := v;
      ghost var i: nat, pos: nat := 0, 0;
      SweepStarts(Processes(v.processes), ProcessKept(v.uid, relevant));
      UserSweptSelf(mem, v);
      var l, p := NULL, mem[u].fields.processes;
      while p != NULL
        invariant i <= |v'.processes| && v'.at == u && p == At(ProcessNodes(v'.processes), i)
        invariant l == (if i == 0 then NULL else v'.processes[i - 1].at)
        invariant HoldsProcesses(mem, v'.processes) && UserSwept(old(mem), mem, v, v') && Counted(UserOf(v'))
        invariant Sweeping(Processes(v.processes), ProcessKept(v.uid, relevant), Processes(v'.processes), i, pos)
        invariant v'.nProcesses <= v.nProcesses && v'.nThreads <= v.nThreads && v'.nProcesses <= nProcesses
        invariant v'.nThreads <= nThreads
        invariant nThreads == old(nThreads) - (v.nThreads - v'.nThreads)
        invariant nProcesses == old(nProcesses) - (v.nProcesses - v'.nProcesses)
        decreases |v'.processes| - i
      {
        p, l, v', i := VisitProcess(u, relevant, l, p, v, v', i, pos, old(mem));
        UserSweptHere(old(mem), mem, v, v');
        pos := pos + 1;
      }
      ProcessesEnd(mem, v'.processes, i);
      SweepEnds(Processes(v.processes), ProcessKept(v.uid, relevant), Processes(v'.processes), i, pos);
      UserSweptHere(old(mem), mem, v, v');
      UserSweptOf(old(mem), mem, v, v', relevant);
      assert mem[u].fields.processes == NULL <==> mem[u].fields.nProcesses == 0;
    }

    /** Lines 580-588: user `u`, who has no processes and is not in a burst, is freed and unlinked. */
    method DropUser(l: int, u: int, n: int, ghost i: nat)
      requires Holds(mem, users, tree) && i < |tree| && tree[i].processes == [] && nUsers >= 1
      requires u == tree[i].at && n == At(UserNodes(tree), i + 1) && l == if i == 0 then NULL else tree[i - 1].at
      modifies this`mem, this`users, this`nUsers, this`tree
      ensures Holds(mem, users, tree) && tree == Removed(old(tree), i) && nUsers == old(nUsers) - 1
      ensures mem.Keys <= old(mem).Keys
    {
      hide Holds, HoldsProcesses, Cut, UserNodes, UserOwns, UserCell;
      UserCutReady(mem, users, tree, i);
      UserCut(mem, users, tree, i);
      UserHere(mem, users, tree, i);
      NoProcesses(tree[i]);
      FreeUser(u, tree[i]);
      if l != NULL {
        mem := mem[l := mem[l].(next := n)];
      } else {
        users := n;
      }
      assert nUsers >= 1;
      nUsers := nUsers - 1;
      tree := Removed(tree, i);
    }

    /** Lines 577-590: one user. */
    method VisitUser(ghost b: Book, relevant: Relevance, clock: Clock, l: int, u: int, ghost i: nat, ghost pos: nat)
      returns (u': int, l': int, ghost i': nat)
      requires Holds(mem, users, tree) && Collecting(b, Contents(), relevant, clock, limits.burstSec, i, pos)
      requires i <= |tree|
      requires u == At(UserNodes(tree), i) != NULL && l == if i == 0 then NULL else tree[i - 1].at
      modifies this
      ensures Holds(mem, users, tree) && Collecting(b, Contents(), relevant, clock, limits.burstSec, i', pos + 1)
      ensures i' <= |tree| && |tree| - i' == old(|tree|) - i - 1
      ensures UsersStay(old(tree), tree) && mem.Keys <= old(mem).Keys
      ensures u' == At(UserNodes(tree), i') && l' == if i' == 0 then NULL else tree[i' - 1].at
    {
      hide Holds, Collecting, HoldsProcesses, UserSwept, UserNodes, SweptUser, Counted, Users, UserCell, Processes;
      hide UsersStay;
      ghost var m, us, c := mem, tree, Contents();
      UserVisited(m, users, us, i);
      CollectingAt(b, c, relevant, clock, limits.burstSec, i, pos);
      var n := mem[u].next;
      ghost var v := ProcessGc(u, relevant, us[i]);
      AfterUser(m, mem, users, us, i, v);
      UserSweptHere(m, mem, us[i], v);
      tree := us[i := v];
      UserDone(us, i, v);
      CollectingNext(b, c, relevant, clock, limits.burstSec, i, pos, v.nProcesses, v.nThreads);
      UserEmpty(mem, v);
      if mem[u].fields.processes == NULL &&
        !BurstLimiter.InBurst(BurstOf(mem[u].fields), clock(mem[u].fields.uid), limits.burstSec) {
        UsersStayBut(tree, i);
        UsersStayTrans(us, tree, Removed(tree, i));
        DropUser(l, u, n, i);
        i', l' := i, l;
      } else {
        i', l' := i + 1, u;
      }
      u' := n;
    }

    /** user_gc, lines 571-594: the registry afterwards is the filtered one, counters included; what it holds is in the
        nodes where it was, and what it no longer holds is freed. */
    method UserGc(relevant: Relevance, clock: Clock)
      requires Valid()
      modifies this
      ensures Valid() && Contents() == Collected(old(Contents()), relevant, clock, limits.burstSec)
      ensures UsersStay(old(tree), tree) && mem.Keys <= old(mem).Keys
    {
      hide Ok, Holds, Collecting, Collected, UserNodes, Users, UsersStay;
      ghost var b := Contents();
      UsersStaySelf(tree);
      ghost var i: nat, pos: nat := 0, 0;
      CollectingStarts(limits, b, relevant, clock);
      HeadAt(mem, users, tree);
      var l, u := NULL, users;
      while u != NULL
        invariant Holds(mem, users, tree) && Collecting(b, Contents(), relevant, clock, limits.burstSec, i, pos)
        invariant i <= |tree|
        invariant u == At(UserNodes(tree), i) && l == if i == 0 then NULL else tree[i - 1].at
        invariant UsersStay(old(tree), tree) && mem.Keys <= old(mem).Keys
        decreases |tree| - i
      {
        ghost var us := tree;
        u, l, i := VisitUser(b, relevant, clock, l, u, i, pos);
        UsersStayTrans(old(tree), us, tree);
        pos := pos + 1;
      }
      UsersEnd(mem, users, tree, i);
      CollectingEnds(b, Contents(), relevant, clock, limits.burstSec, i, pos);
      CollectedOk(limits, b, relevant, clock);
      assert users == NULL <==> nUsers == 0;
    }

    // -------------------------------------------------------------- at exit

    /** The daemon's last act on the registry, lines 2373-2376: every node is freed, and freed once. */
    method Release()
      requires Holds(mem, users, tree)
      modifies this`mem, this`users, this`tree
      ensures mem == map[] && users == NULL
    {
      hide Holds, UserOwns, UserCell, HoldsProcesses;
      while users != NULL
        invariant Holds(mem, users, tree)
        decreases |tree|
      {
        FirstUserFreed(mem, users, tree);
        var u := users;
        users := mem[u].next;
        FreeUser(u, tree[0]);
        tree := tree[1..];
      }
      NothingHeld(mem, tree);
    }
  }
}
