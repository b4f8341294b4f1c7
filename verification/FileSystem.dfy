/** Threads allocating disk blocks to inodes under two levels of locks (benchmarks/basic/file_system.c). */
module FileSystem {
  // One shared access per step, for any number of threads, inodes and blocks and every interleaving.

  import opened Arithmetic
  import opened Collections

  datatype Config = Config(inodes: nat, blocks: nat, tids: seq<nat>)

  /** Where a thread is; line numbers of the first routine. */
  datatype Place =
    | LockInode    // 20
    | ReadInode    // 21
    | LockBlock    // 24
    | ReadBusy     // 25
    | SetBusy      // 26
    | SetInode     // 27
    | UnlockBlock  // 28
    | UnlockRetry  // 31-32
    | UnlockInode  // 35
    | Done         // 37

  /** `b` is the block being tried and `probes` counts the blocks found busy. */
  datatype Local = Local(at: Place, b: nat, probes: nat)

  const FREE: int := -1

  /** A lock holds the index of the thread that has it, or FREE. */
  datatype State = State(inode: seq<nat>, busy: seq<bool>, inodeLock: seq<int>, blockLock: seq<int>,
                         threads: seq<Local>)

  predicate Ok(c: Config) { c.inodes > 0 && c.blocks > 0 }

  predicate Shaped(c: Config, s: State) {
    && Ok(c)
    && |s.inode| == |s.inodeLock| == c.inodes
    && |s.busy| == |s.blockLock| == c.blocks
    && |s.threads| == |c.tids|
    && forall t :: 0 <= t < |s.threads| ==> s.threads[t].b < c.blocks
  }

  /** Line 18. */
  function InodeOf(c: Config, t: nat): (i: nat)
    requires Ok(c) && t < |c.tids|
    ensures i < c.inodes
  {
    c.tids[t] % c.inodes
  }

  /** Line 22. */
  function FirstBlock(c: Config, t: nat): (b: nat)
    requires Ok(c) && t < |c.tids|
    ensures b < c.blocks
  {
    (InodeOf(c, t) * 2) % c.blocks
  }

  /** Line 32. */
  function NextBlock(c: Config, b: nat): (r: nat)
    requires Ok(c) && b < c.blocks
    ensures r < c.blocks && r == if b + 1 < c.blocks then b + 1 else 0
  {
    (b + 1) % c.blocks
  }

  function Start(c: Config): (s: State)
    requires Ok(c)
    ensures Shaped(c, s)
  {
    State(seq(c.inodes, _ => 0), seq(c.blocks, _ => false), seq(c.inodes, _ => FREE), seq(c.blocks, _ => FREE),
          seq(|c.tids|, _ => Local(LockInode, 0, 0)))
  }

  function Go(s: State, t: nat, p: Place): State
    requires t < |s.threads|
  {
    s.(threads := s.threads[t := s.threads[t].(at := p)])
  }

  /** What thread `t` does next; a thread waiting for a lock that is taken does nothing. */
  function Next(c: Config, s: State, t: nat): (s': State)
    requires Shaped(c, s) && t < |c.tids|
    ensures Shaped(c, s')
  {
    var l, i := s.threads[t], InodeOf(c, t);
    match l.at
    case LockInode => if s.inodeLock[i] != FREE then s else Go(s.(inodeLock := s.inodeLock[i := t]), t, ReadInode)
    case ReadInode =>
      if s.inode[i] == 0 then s.(threads := s.threads[t := Local(LockBlock, FirstBlock(c, t), 0)])
        else Go(s, t, UnlockInode)
    case LockBlock => if s.blockLock[l.b] != FREE then s else Go(s.(blockLock := s.blockLock[l.b := t]), t, ReadBusy)
    case ReadBusy => Go(s, t, if s.busy[l.b] then UnlockRetry else SetBusy)
    case SetBusy => Go(s.(busy := s.busy[l.b := true]), t, SetInode)
    case SetInode => Go(s.(inode := s.inode[i := l.b + 1]), t, UnlockBlock)
    case UnlockBlock => Go(s.(blockLock := s.blockLock[l.b := FREE]), t, UnlockInode)
    case UnlockRetry =>
      s.(blockLock := s.blockLock[l.b := FREE],
         threads := s.threads[t := Local(LockBlock, NextBlock(c, l.b), l.probes + 1)])
    case UnlockInode => Go(s.(inodeLock := s.inodeLock[i := FREE]), t, Done)
    case Done => s
  }

  predicate Schedule(c: Config, schedule: seq<nat>) { forall k :: 0 <= k < |schedule| ==> schedule[k] < |c.tids| }

  function Run(c: Config, schedule: seq<nat>): (s: State)
    requires Ok(c) && Schedule(c, schedule)
    ensures Shaped(c, s)
  {
    if schedule == [] then Start(c) else Next(c, Run(c, schedule[..|schedule| - 1]), schedule[|schedule| - 1])
  }

  // ---------------------------------------------------------------- locks

  predicate HasInode(p: Place) { p != LockInode && p != Done }
  predicate HasBlock(p: Place) {
    p == ReadBusy || p == SetBusy || p == SetInode || p == UnlockBlock || p == UnlockRetry
  }
  predicate Searching(p: Place) { p == LockBlock || p == ReadBusy || p == SetBusy || p == SetInode || p == UnlockRetry }

  /** Thread `u` has the locks its place calls for. */
  predicate Holds(c: Config, s: State, u: nat)
    requires Shaped(c, s) && u < |c.tids|
  {
    && (HasInode(s.threads[u].at) ==> s.inodeLock[InodeOf(c, u)] == u)
    && (HasBlock(s.threads[u].at) ==> s.blockLock[s.threads[u].b] == u)
  }

  /** A taken inode lock is held by a thread of that inode. */
  predicate InodeHeld(c: Config, s: State, i: nat)
    requires Shaped(c, s) && i < c.inodes
  {
    var u := s.inodeLock[i];
    u != FREE ==> 0 <= u < |c.tids| && HasInode(s.threads[u].at) && InodeOf(c, u) == i
  }

  predicate BlockHeld(c: Config, s: State, b: nat)
    requires Shaped(c, s) && b < c.blocks
  {
    var u := s.blockLock[b];
    u != FREE ==> 0 <= u < |c.tids| && HasBlock(s.threads[u].at) && s.threads[u].b == b
  }

  lemma HoldsKept(c: Config, s: State, t: nat, u: nat)
    requires Shaped(c, s) && t < |c.tids| && u < |c.tids| && Holds(c, s, t) && Holds(c, s, u)
    ensures Holds(c, Next(c, s, t), u)
  {
  }

  lemma InodeHeldKept(c: Config, s: State, t: nat, i: nat)
    requires Shaped(c, s) && t < |c.tids| && Holds(c, s, t) && i < c.inodes && InodeHeld(c, s, i)
    ensures InodeHeld(c, Next(c, s, t), i)
  {
  }

  lemma BlockHeldKept(c: Config, s: State, t: nat, b: nat)
    requires Shaped(c, s) && t < |c.tids| && Holds(c, s, t) && b < c.blocks && BlockHeld(c, s, b)
    ensures BlockHeld(c, Next(c, s, t), b)
  {
  }

  // ---------------------------------------------------------------- who owns which block

  /** What thread `u` knows about its inode and its block. */
  predicate Knows(c: Config, s: State, u: nat)
    requires Shaped(c, s) && u < |c.tids|
  {
    var l, i := s.threads[u], InodeOf(c, u);
    && (Searching(l.at) ==> s.inode[i] == 0)
    && (l.at == UnlockBlock || l.at == UnlockInode || l.at == Done ==> s.inode[i] != 0)
    && (l.at == SetBusy ==> !s.busy[l.b])
    && (l.at == SetInode || l.at == UnlockRetry ==> s.busy[l.b])
  }

  ghost predicate Used(c: Config, i: nat)
    requires Ok(c)
  {
    exists t :: 0 <= t < |c.tids| && InodeOf(c, t) == i
  }

  /** An inode entry names a busy block. */
  ghost predicate Names(c: Config, s: State, i: nat)
    requires Shaped(c, s) && i < c.inodes
  {
    s.inode[i] != 0 ==> s.inode[i] <= c.blocks && s.busy[s.inode[i] - 1] && Used(c, i)
  }

  predicate Apart(c: Config, s: State, i: nat, j: nat)
    requires Shaped(c, s) && i < c.inodes && j < c.inodes
  {
    i != j && s.inode[i] != 0 ==> s.inode[i] != s.inode[j]
  }

  /** Between its two writes, thread `u`'s block belongs to no inode yet. */
  predicate Unclaimed(c: Config, s: State, u: nat, j: nat)
    requires Shaped(c, s) && u < |c.tids| && j < c.inodes
  {
    s.threads[u].at == SetInode ==> s.inode[j] != s.threads[u].b + 1
  }

  /** Thread `u` is between its two writes for block `b` and inode `i`. */
  predicate Claiming(c: Config, s: State, u: int, b: nat, i: nat)
    requires Shaped(c, s)
  {
    0 <= u < |c.tids| && s.threads[u].at == SetInode && s.threads[u].b == b && InodeOf(c, u) == i
  }

  /** Block `b` belongs to inode `i`, or the thread that holds the block's lock is about to say so. */
  predicate OwnedBy(c: Config, s: State, b: nat, i: nat)
    requires Shaped(c, s) && b < c.blocks
  {
    i < c.inodes && (s.inode[i] == b + 1 || Claiming(c, s, s.blockLock[b], b, i))
  }

  ghost predicate Owned(c: Config, s: State, b: nat)
    requires Shaped(c, s) && b < c.blocks
  {
    s.busy[b] ==> exists i :: OwnedBy(c, s, b, i)
  }

  lemma KnowsKept(c: Config, s: State, t: nat, u: nat)
    requires Shaped(c, s) && t < |c.tids| && u < |c.tids|
    requires Holds(c, s, t) && Holds(c, s, u) && Knows(c, s, t) && Knows(c, s, u)
    ensures Knows(c, Next(c, s, t), u)
  {
  }

  lemma NamesKept(c: Config, s: State, t: nat, i: nat)
    requires Shaped(c, s) && t < |c.tids| && i < c.inodes && Names(c, s, i) && Knows(c, s, t)
    ensures Names(c, Next(c, s, t), i)
  {
  }

  lemma ApartKept(c: Config, s: State, t: nat, i: nat, j: nat)
    requires Shaped(c, s) && t < |c.tids| && i < c.inodes && j < c.inodes && Apart(c, s, i, j) && Apart(c, s, j, i)
    requires Unclaimed(c, s, t, i) && Unclaimed(c, s, t, j)
    ensures Apart(c, Next(c, s, t), i, j)
  {
  }

  lemma UnclaimedKept(c: Config, s: State, t: nat, u: nat, j: nat)
    requires Shaped(c, s) && t < |c.tids| && u < |c.tids| && j < c.inodes && Unclaimed(c, s, u, j) && Names(c, s, j)
    requires Holds(c, s, t) && Holds(c, s, u) && Knows(c, s, u)
    ensures Unclaimed(c, Next(c, s, t), u, j)
  {
  }

  lemma OwnedByKept(c: Config, s: State, t: nat, b: nat, i: nat)
    requires Shaped(c, s) && t < |c.tids| && b < c.blocks && OwnedBy(c, s, b, i) && Holds(c, s, t) && Knows(c, s, t)
    ensures OwnedBy(c, Next(c, s, t), b, i)
  {
  }

  lemma OwnedKept(c: Config, s: State, t: nat, b: nat)
    requires Shaped(c, s) && t < |c.tids| && b < c.blocks && Owned(c, s, b) && Holds(c, s, t) && Knows(c, s, t)
    ensures Owned(c, Next(c, s, t), b)
  {
    var s' := Next(c, s, t);
    if s'.busy[b] {
      if s.busy[b] {
        var i :| OwnedBy(c, s, b, i);
        OwnedByKept(c, s, t, b, i);
      } else {
        assert OwnedBy(c, s', b, InodeOf(c, t));
      }
    }
  }

  // ---------------------------------------------------------------- probing

  /** How far `b` is after `first`, going around. */
  function Distance(c: Config, first: nat, b: nat): int { if b >= first then b - first else b - first + c.blocks }

  /** Thread `u` has found every block before its current one busy. */
  predicate Probed(c: Config, s: State, u: nat, b: nat)
    requires Shaped(c, s) && u < |c.tids| && b < c.blocks
  {
    var l := s.threads[u];
    && (Searching(l.at) && Distance(c, FirstBlock(c, u), b) < l.probes ==> s.busy[b])
    && (Searching(l.at) && l.probes < c.blocks && l.b == b ==> Distance(c, FirstBlock(c, u), b) == l.probes)
  }

  lemma ProbedKept(c: Config, s: State, t: nat, u: nat, b: nat)
    requires Shaped(c, s) && t < |c.tids| && u < |c.tids| && b < c.blocks && Knows(c, s, u)
    requires Probed(c, s, u, b) && Probed(c, s, u, s.threads[u].b)
    ensures Probed(c, Next(c, s, t), u, b)
  {
    hide FirstBlock;
  }

  // ---------------------------------------------------------------- the invariant

  ghost predicate Inv(c: Config, s: State) {
    && Shaped(c, s)
    && (forall u :: 0 <= u < |c.tids| ==> Holds(c, s, u) && Knows(c, s, u))
    && (forall i :: 0 <= i < c.inodes ==> InodeHeld(c, s, i) && Names(c, s, i))
    && (forall b :: 0 <= b < c.blocks ==> BlockHeld(c, s, b) && Owned(c, s, b))
    && (forall i, j :: 0 <= i < c.inodes && 0 <= j < c.inodes ==> Apart(c, s, i, j))
    && (forall u, j :: 0 <= u < |c.tids| && 0 <= j < c.inodes ==> Unclaimed(c, s, u, j))
    && (forall u, b :: 0 <= u < |c.tids| && 0 <= b < c.blocks ==> Probed(c, s, u, b))
  }

  lemma Preserved(c: Config, s: State, t: nat)
    requires Inv(c, s) && t < |c.tids|
    ensures Inv(c, Next(c, s, t))
  {
    hide Holds, Knows, InodeHeld, Names, BlockHeld, Owned, Apart, Unclaimed, Probed, Next, Shaped;
    var s' := Next(c, s, t);
    forall u | 0 <= u < |c.tids| ensures Holds(c, s', u) && Knows(c, s', u) {
      HoldsKept(c, s, t, u);
      KnowsKept(c, s, t, u);
    }
    forall i | 0 <= i < c.inodes ensures InodeHeld(c, s', i) && Names(c, s', i) {
      InodeHeldKept(c, s, t, i);
      NamesKept(c, s, t, i);
    }
    forall b | 0 <= b < c.blocks ensures BlockHeld(c, s', b) && Owned(c, s', b) {
      BlockHeldKept(c, s, t, b);
      OwnedKept(c, s, t, b);
    }
    forall i, j | 0 <= i < c.inodes && 0 <= j < c.inodes ensures Apart(c, s', i, j) {
      ApartKept(c, s, t, i, j);
    }
    forall u, j | 0 <= u < |c.tids| && 0 <= j < c.inodes ensures Unclaimed(c, s', u, j) {
      UnclaimedKept(c, s, t, u, j);
    }
    forall u, b | 0 <= u < |c.tids| && 0 <= b < c.blocks ensures Probed(c, s', u, b) {
      ProbedAt(c, s, u);
      ProbedKept(c, s, t, u, b);
    }
  }

  lemma ProbedAt(c: Config, s: State, u: nat)
    requires Inv(c, s) && u < |c.tids|
    ensures Probed(c, s, u, s.threads[u].b)
  {
  }

  lemma {:induction false} Always(c: Config, schedule: seq<nat>)
    requires Ok(c) && Schedule(c, schedule)
    ensures Inv(c, Run(c, schedule))
  {
    if schedule != [] {
      Always(c, schedule[..|schedule| - 1]);
      Preserved(c, Run(c, schedule[..|schedule| - 1]), schedule[|schedule| - 1]);
    }
  }

  // ---------------------------------------------------------------- what it gives: safety

  /** In every run no two inodes hold the same block, and an inode entry names a busy block. */
  lemma BlocksDistinct(c: Config, schedule: seq<nat>, i: nat, j: nat)
    requires Ok(c) && Schedule(c, schedule) && i < c.inodes && j < c.inodes && i != j
    ensures var s := Run(c, schedule);
      s.inode[i] != 0 ==> s.inode[i] != s.inode[j] && 1 <= s.inode[i] <= c.blocks && s.busy[s.inode[i] - 1]
  {
    Always(c, schedule);
    var s := Run(c, schedule);
    assert Apart(c, s, i, j) && Names(c, s, i);
  }

  lemma OneOwner(c: Config, s: State, b: nat, i: nat, j: nat)
    requires Inv(c, s) && b < c.blocks && OwnedBy(c, s, b, i) && OwnedBy(c, s, b, j)
    ensures i == j
  {
    assert Apart(c, s, i, j);
    var u := s.blockLock[b];
    if Claiming(c, s, u, b, i) {
      assert Unclaimed(c, s, u, j);
    }
    if Claiming(c, s, u, b, j) {
      assert Unclaimed(c, s, u, i);
    }
  }

  /** In every run a busy block has exactly one owner: the one inode that names it, or, while the thread
      that holds the block's lock is between its two writes, that thread's inode and no entry yet. */
  lemma ExactlyOneOwner(c: Config, schedule: seq<nat>, b: nat) returns (i: nat)
    requires Ok(c) && Schedule(c, schedule) && b < c.blocks && Run(c, schedule).busy[b]
    ensures var s := Run(c, schedule);
      && OwnedBy(c, s, b, i)
      && (forall j :: OwnedBy(c, s, b, j) ==> j == i)
      && (if Claiming(c, s, s.blockLock[b], b, i) then forall j :: 0 <= j < c.inodes ==> s.inode[j] != b + 1
          else s.inode[i] == b + 1)
  {
    Always(c, schedule);
    var s := Run(c, schedule);
    assert Owned(c, s, b);
    i :| OwnedBy(c, s, b, i);
    forall j | OwnedBy(c, s, b, j) ensures j == i {
      OneOwner(c, s, b, i, j);
    }
    var u := s.blockLock[b];
    if Claiming(c, s, u, b, i) {
      forall j | 0 <= j < c.inodes ensures s.inode[j] != b + 1 {
        assert Unclaimed(c, s, u, j);
      }
    }
  }

  /** When all threads are done, every inode they use has a block of its own. */
  lemma AllServed(c: Config, schedule: seq<nat>, t: nat)
    requires Ok(c) && Schedule(c, schedule) && t < |c.tids| && Run(c, schedule).threads[t].at == Done
    ensures Run(c, schedule).inode[c.tids[t] % c.inodes] != 0
  {
    Always(c, schedule);
    assert Knows(c, Run(c, schedule), t);
  }

  /** Lock order: in every run that is not over, some thread can move. */
  lemma NoDeadlock(c: Config, schedule: seq<nat>, t: nat) returns (v: nat)
    requires Ok(c) && Schedule(c, schedule) && t < |c.tids| && Run(c, schedule).threads[t].at != Done
    ensures v < |c.tids| && Next(c, Run(c, schedule), v) != Run(c, schedule)
  {
    Always(c, schedule);
    var s := Run(c, schedule);
    v := t;
    if s.threads[v].at == LockInode && s.inodeLock[InodeOf(c, v)] != FREE {
      assert InodeHeld(c, s, InodeOf(c, v));
      v := s.inodeLock[InodeOf(c, v)];
    }
    if s.threads[v].at == LockBlock && s.blockLock[s.threads[v].b] != FREE {
      assert BlockHeld(c, s, s.threads[v].b);
      v := s.blockLock[s.threads[v].b];
    }
    Moves(c, s, v);
  }

  lemma Moves(c: Config, s: State, v: nat)
    requires Shaped(c, s) && v < |c.tids| && s.threads[v].at != Done
    requires s.threads[v].at == LockInode ==> s.inodeLock[InodeOf(c, v)] == FREE
    requires s.threads[v].at == LockBlock ==> s.blockLock[s.threads[v].b] == FREE
    ensures Next(c, s, v) != s
  {
    assert Next(c, s, v).threads[v].at != s.threads[v].at;
  }

  // ---------------------------------------------------------------- what it gives: the probe bound

  ghost function UsedInodes(c: Config): set<nat>
    requires Ok(c)
  {
    set t | 0 <= t < |c.tids| :: InodeOf(c, t)
  }

  ghost function Owner(c: Config, s: State, b: nat): (i: nat)
    requires Inv(c, s) && b < c.blocks && s.busy[b]
    ensures OwnedBy(c, s, b, i)
  {
    assert Owned(c, s, b);
    var i :| OwnedBy(c, s, b, i);
    i
  }

  lemma OneBlock(c: Config, s: State, b: nat, b': nat, i: nat)
    requires Inv(c, s) && b < c.blocks && b' < c.blocks && OwnedBy(c, s, b, i) && OwnedBy(c, s, b', i)
    ensures b == b'
  {
    var u, u' := s.blockLock[b], s.blockLock[b'];
    if Claiming(c, s, u, b, i) {
      assert Holds(c, s, u) && Knows(c, s, u);
    }
    if Claiming(c, s, u', b', i) {
      assert Holds(c, s, u') && Knows(c, s, u');
    }
  }

  lemma OwnerUsed(c: Config, s: State, b: nat, i: nat)
    requires Inv(c, s) && b < c.blocks && OwnedBy(c, s, b, i)
    ensures i in UsedInodes(c)
  {
    if s.inode[i] == b + 1 {
      assert Names(c, s, i);
    }
  }

  /** The owners of the first `n` blocks. */
  ghost function Owners(c: Config, s: State, n: nat): set<nat>
    requires Inv(c, s) && n <= c.blocks && forall b :: 0 <= b < n ==> s.busy[b]
  {
    if n == 0 then {} else Owners(c, s, n - 1) + {Owner(c, s, n - 1)}
  }

  lemma {:induction false} OwnersIs(c: Config, s: State, n: nat, i: nat) returns (b: nat)
    requires Inv(c, s) && n <= c.blocks && forall b :: 0 <= b < n ==> s.busy[b]
    requires i in Owners(c, s, n)
    ensures b < n && OwnedBy(c, s, b, i)
    decreases n
  {
    if i == Owner(c, s, n - 1) {
      b := n - 1;
    } else {
      b := OwnersIs(c, s, n - 1, i);
    }
  }

  /** Blocks have different owners. */
  lemma {:induction false} OwnersCount(c: Config, s: State, n: nat)
    requires Inv(c, s) && n <= c.blocks && forall b :: 0 <= b < n ==> s.busy[b]
    ensures |Owners(c, s, n)| == n
    decreases n
  {
    hide Inv, OwnedBy;
    if n > 0 {
      OwnersCount(c, s, n - 1);
      var i := Owner(c, s, n - 1);
      if i in Owners(c, s, n - 1) {
        var b := OwnersIs(c, s, n - 1, i);
        OneBlock(c, s, b, n - 1, i);
      }
    }
  }

  /** A thread whose inode has no block and that is not between its writes: it owns none of the blocks. */
  lemma NotOwner(c: Config, s: State, u: nat, b: nat)
    requires Inv(c, s) && u < |c.tids| && Searching(s.threads[u].at) && s.threads[u].at != SetInode && b < c.blocks
    ensures !OwnedBy(c, s, b, InodeOf(c, u))
  {
    assert Holds(c, s, u) && Knows(c, s, u);
    var v := s.blockLock[b];
    assert 0 <= v < |c.tids| ==> Holds(c, s, v);
  }

  /** Pigeonhole: with no more inodes in use than blocks, a thread still looking leaves a block free. */
  lemma SomeBlockFree(c: Config, s: State, u: nat)
    requires Inv(c, s) && u < |c.tids| && Searching(s.threads[u].at) && s.threads[u].at != SetInode
    requires |UsedInodes(c)| <= c.blocks
    ensures exists b :: 0 <= b < c.blocks && !s.busy[b]
  {
    if forall b :: 0 <= b < c.blocks ==> s.busy[b] {
      var n, others := c.blocks, UsedInodes(c) - {InodeOf(c, u)};
      assert InodeOf(c, u) in UsedInodes(c);
      OwnersCount(c, s, n);
      forall i | i in Owners(c, s, n) ensures i in others {
        var b := OwnersIs(c, s, n, i);
        OwnerUsed(c, s, b, i);
        NotOwner(c, s, u, b);
      }
      SubsetCount(Owners(c, s, n), others);
    }
  }

  ghost predicate Within(c: Config, s: State) {
    && Shaped(c, s)
    && forall u :: 0 <= u < |c.tids| && Searching(s.threads[u].at) ==> s.threads[u].probes < c.blocks
  }

  lemma WithinKept(c: Config, s: State, t: nat)
    requires Inv(c, s) && Within(c, s) && t < |c.tids| && |UsedInodes(c)| <= c.blocks
    ensures Within(c, Next(c, s, t))
  {
    if s.threads[t].at == UnlockRetry {
      SomeBlockFree(c, s, t);
      var b :| 0 <= b < c.blocks && !s.busy[b];
      assert Probed(c, s, t, b) && Probed(c, s, t, s.threads[t].b) && Knows(c, s, t);
      Closest(c, FirstBlock(c, t), b, s.threads[t].b, s.threads[t].probes);
    }
  }

  lemma Closest(c: Config, first: nat, b: nat, b': nat, k: nat)
    requires first < c.blocks && b < c.blocks && b' < c.blocks && b != b'
    requires Distance(c, first, b') == k <= Distance(c, first, b)
    ensures k + 1 < c.blocks
  {
  }

  /** If the threads use no more inodes than there are blocks, then in every run, whatever the others take
      meanwhile, a thread that is looking for a block has found fewer than `blocks` of them busy; so it
      goes through its loop at most `blocks` times. */
  lemma {:induction false} ProbeBound(c: Config, schedule: seq<nat>)
    requires Ok(c) && Schedule(c, schedule) && |UsedInodes(c)| <= c.blocks
    ensures Within(c, Run(c, schedule))
  {
    if schedule != [] {
      ProbeBound(c, schedule[..|schedule| - 1]);
      Always(c, schedule[..|schedule| - 1]);
      WithinKept(c, Run(c, schedule[..|schedule| - 1]), schedule[|schedule| - 1]);
    }
  }

  // ---------------------------------------------------------------- what it gives: which block

  /** Every block before the one that inode `i` holds, going around from block 2 * i, is busy. */
  predicate Follows(c: Config, s: State, i: nat, b: nat)
    requires Shaped(c, s) && i < c.inodes && b < c.blocks
  {
    var home := (2 * i) % c.blocks;
    s.inode[i] != 0 && Distance(c, home, b) < Distance(c, home, s.inode[i] - 1) ==> s.busy[b]
  }

  lemma FollowsKept(c: Config, s: State, t: nat, i: nat, b: nat)
    requires Shaped(c, s) && t < |c.tids| && i < c.inodes && b < c.blocks && Follows(c, s, i, b)
    requires Probed(c, s, t, b) && Probed(c, s, t, s.threads[t].b)
    ensures Follows(c, Next(c, s, t), i, b)
  {
  }

  lemma {:induction false} FollowsAlways(c: Config, schedule: seq<nat>, i: nat, b: nat)
    requires Ok(c) && Schedule(c, schedule) && i < c.inodes && b < c.blocks
    ensures Follows(c, Run(c, schedule), i, b)
  {
    if schedule != [] {
      var before, t := schedule[..|schedule| - 1], schedule[|schedule| - 1];
      FollowsAlways(c, before, i, b);
      Always(c, before);
      ProbedAt(c, Run(c, before), t);
      FollowsKept(c, Run(c, before), t, i, b);
    }
  }

  lemma Around(c: Config, start: nat, k: nat)
    requires Ok(c) && k < c.blocks
    ensures (start + k) % c.blocks < c.blocks && Distance(c, start % c.blocks, (start + k) % c.blocks) == k
  {
    var q, r := start / c.blocks, start % c.blocks;
    assert start + k == q * c.blocks + (r + k);
    if r + k < c.blocks {
      Division(start + k, c.blocks, q, r + k);
    } else {
      assert start + k == (q + 1) * c.blocks + (r + k - c.blocks);
      Division(start + k, c.blocks, q + 1, r + k - c.blocks);
    }
  }

  lemma SameDistance(c: Config, home: nat, b: nat, b': nat)
    requires home < c.blocks && b < c.blocks && b' < c.blocks && Distance(c, home, b) == Distance(c, home, b')
    ensures b == b'
  {
  }

  /** The blocks to try for inode `i`, in order. */
  function Trial(c: Config, i: nat, j: nat): (b: nat)
    requires Ok(c)
    ensures b < c.blocks
  {
    (2 * i + j) % c.blocks
  }

  lemma BusyBefore(c: Config, s: State, i: nat, k: nat, j: nat)
    requires Shaped(c, s) && i < c.inodes && Follows(c, s, i, Trial(c, i, j)) && j < k < c.blocks
    requires s.inode[i] != 0 && k == Distance(c, (2 * i) % c.blocks, s.inode[i] - 1)
    ensures s.busy[Trial(c, i, j)]
  {
    Around(c, 2 * i, j);
  }

  lemma TrialAt(c: Config, i: nat, b: nat) returns (k: nat)
    requires Ok(c) && b < c.blocks
    ensures k < c.blocks && k == Distance(c, (2 * i) % c.blocks, b) && Trial(c, i, k) == b
  {
    k := Distance(c, (2 * i) % c.blocks, b);
    Around(c, 2 * i, k);
    SameDistance(c, (2 * i) % c.blocks, b, Trial(c, i, k));
  }

  /** In every run the block of inode `i` comes, in the order 2 * i, 2 * i + 1, ... (modulo the number of
      blocks), after blocks that are all busy. */
  lemma FirstFreeBlock(c: Config, schedule: seq<nat>, i: nat) returns (k: nat)
    requires Ok(c) && Schedule(c, schedule) && i < c.inodes && Run(c, schedule).inode[i] != 0
    ensures k < c.blocks && Run(c, schedule).inode[i] == Trial(c, i, k) + 1
    ensures forall j :: 0 <= j < k ==> Run(c, schedule).busy[Trial(c, i, j)]
  {
    hide Follows, Trial, Run, Distance;
    var s := Run(c, schedule);
    NamedBlock(c, schedule, i);
    k := TrialAt(c, i, s.inode[i] - 1);
    forall j | 0 <= j < k ensures s.busy[Trial(c, i, j)] {
      FollowsAlways(c, schedule, i, Trial(c, i, j));
      BusyBefore(c, s, i, k, j);
    }
  }

  lemma NamedBlock(c: Config, schedule: seq<nat>, i: nat)
    requires Ok(c) && Schedule(c, schedule) && i < c.inodes
    ensures Run(c, schedule).inode[i] <= c.blocks
  {
    Always(c, schedule);
    assert Names(c, Run(c, schedule), i);
  }

  /** An inode that did not get block 2 * i lost it to another inode in use. */
  lemma HomeTaken(c: Config, schedule: seq<nat>, i: nat) returns (j: nat)
    requires Ok(c) && Schedule(c, schedule) && i < c.inodes
    requires Run(c, schedule).inode[i] != 0 && Run(c, schedule).inode[i] != (2 * i) % c.blocks + 1
    ensures j != i && OwnedBy(c, Run(c, schedule), (2 * i) % c.blocks, j) && Used(c, j)
  {
    hide Run, OwnedBy, Inv;
    var home := (2 * i) % c.blocks;
    var k := FirstFreeBlock(c, schedule, i);
    assert Trial(c, i, 0) == home;
    j := ExactlyOneOwner(c, schedule, home);
    Always(c, schedule);
    OwnerUsed(c, Run(c, schedule), home, j);
    NotHome(c, Run(c, schedule), home, i);
  }

  lemma NotHome(c: Config, s: State, b: nat, i: nat)
    requires Inv(c, s) && b < c.blocks && i < c.inodes && s.inode[i] != 0 && s.inode[i] != b + 1
    ensures !OwnedBy(c, s, b, i)
  {
    var u := s.blockLock[b];
    assert 0 <= u < |c.tids| ==> Knows(c, s, u);
  }

  /** With one inode in use, its threads get block 2 * i. */
  lemma AloneGetsHome(c: Config, schedule: seq<nat>, t: nat)
    requires Ok(c) && Schedule(c, schedule) && t < |c.tids| && Run(c, schedule).threads[t].at == Done
    requires forall u :: 0 <= u < |c.tids| ==> c.tids[u] % c.inodes == c.tids[t] % c.inodes
    ensures var i := c.tids[t] % c.inodes; Run(c, schedule).inode[i] == (2 * i) % c.blocks + 1
  {
    var i := c.tids[t] % c.inodes;
    AllServed(c, schedule, t);
    if Run(c, schedule).inode[i] != (2 * i) % c.blocks + 1 {
      var j := HomeTaken(c, schedule, i);
    }
  }

  // ---------------------------------------------------------------- what it gives: every run ends

  /** The most steps a thread can still take. */
  function Left(c: Config, l: Local): int {
    match l.at
    case Done => 0
    case UnlockInode => 1
    case UnlockBlock => 2
    case SetInode => 3
    case SetBusy => 4
    case UnlockRetry => 4 + 3 * (c.blocks - 1 - l.probes)
    case ReadBusy => 5 + 3 * (c.blocks - 1 - l.probes)
    case LockBlock => 6 + 3 * (c.blocks - 1 - l.probes)
    case ReadInode => 4 + 3 * c.blocks
    case LockInode => 5 + 3 * c.blocks
  }

  function LeftOf(c: Config, ls: seq<Local>): int {
    if ls == [] then 0 else LeftOf(c, ls[..|ls| - 1]) + Left(c, ls[|ls| - 1])
  }

  lemma {:induction false} LeftUpdated(c: Config, ls: seq<Local>, t: nat, l: Local)
    requires t < |ls|
    ensures LeftOf(c, ls[t := l]) == LeftOf(c, ls) - Left(c, ls[t]) + Left(c, l)
  {
    var n, ls' := |ls| - 1, ls[t := l];
    if t < n {
      LeftUpdated(c, ls[..n], t, l);
      assert ls'[..n] == ls[..n][t := l];
    } else {
      assert ls'[..n] == ls[..n];
    }
  }

  lemma {:induction false} LeftStart(c: Config, ls: seq<Local>)
    requires forall k :: 0 <= k < |ls| ==> ls[k].at == LockInode
    ensures LeftOf(c, ls) == |ls| * (5 + 3 * c.blocks)
  {
    if ls != [] {
      LeftStart(c, ls[..|ls| - 1]);
    }
  }

  lemma {:induction false} LeftPositive(c: Config, ls: seq<Local>)
    requires forall k :: 0 <= k < |ls| && Searching(ls[k].at) ==> ls[k].probes < c.blocks
    ensures LeftOf(c, ls) >= 0
  {
    if ls != [] {
      LeftPositive(c, ls[..|ls| - 1]);
    }
  }

  lemma LeftShrinks(c: Config, s: State, t: nat)
    requires Shaped(c, s) && t < |c.tids| && Next(c, s, t) != s
    requires Searching(Next(c, s, t).threads[t].at) ==> Next(c, s, t).threads[t].probes < c.blocks
    ensures var s' := Next(c, s, t);
      s'.threads == s.threads[t := s'.threads[t]] && Left(c, s'.threads[t]) < Left(c, s.threads[t])
  {
  }

  /** How many steps of the schedule were not waiting for a lock or already over. */
  function Effective(c: Config, schedule: seq<nat>): nat
    requires Ok(c) && Schedule(c, schedule)
  {
    if schedule == [] then 0 else
    var before, t := schedule[..|schedule| - 1], schedule[|schedule| - 1];
    Effective(c, before) + if Next(c, Run(c, before), t) != Run(c, before) then 1 else 0
  }

  lemma {:induction false} Spent(c: Config, schedule: seq<nat>)
    requires Ok(c) && Schedule(c, schedule) && |UsedInodes(c)| <= c.blocks
    ensures Effective(c, schedule) + LeftOf(c, Run(c, schedule).threads) <= |c.tids| * (5 + 3 * c.blocks)
  {
    if schedule == [] {
      LeftStart(c, Run(c, schedule).threads);
    } else {
      var before, t := schedule[..|schedule| - 1], schedule[|schedule| - 1];
      var s := Run(c, before);
      Spent(c, before);
      ProbeBound(c, schedule);
      if Next(c, s, t) != s {
        LeftShrinks(c, s, t);
        LeftUpdated(c, s.threads, t, Next(c, s, t).threads[t]);
      }
    }
  }

  /** Under the same condition, the threads together take at most |tids| * (3 * blocks + 5) steps. */
  lemma EveryRunEnds(c: Config, schedule: seq<nat>)
    requires Ok(c) && Schedule(c, schedule) && |UsedInodes(c)| <= c.blocks
    ensures Effective(c, schedule) <= |c.tids| * (5 + 3 * c.blocks)
  {
    Spent(c, schedule);
    ProbeBound(c, schedule);
    LeftPositive(c, Run(c, schedule).threads);
  }
}
