/** The registry in memory follows the model through whole runs. */
module RegistryClient {
  import opened Options
  import opened RegistryModel
  import opened RegistryRuns
  import opened NodeMemory
  import opened RegistryMemory
  import opened Registry
  import BurstLimiter

  lemma UserFound(us: seq<User>, uid: int)
    ensures HasUser(us, uid) <==> UserAt(us, uid) < |us|
  {
    if UserAt(us, uid) == |us| {
      NoUserAt(us, uid);
    }
  }

  lemma ProcessFound(ps: seq<Process>, pid: int, starttime: int)
    ensures HasProcess(ps, pid, starttime) <==> ProcessAt(ps, pid, starttime) < |ps|
  {
    if ProcessAt(ps, pid, starttime) == |ps| {
      NoProcessAt(ps, pid, starttime);
    }
  }

  /** In a registry that is as it should be, what is found is the only one. */
  lemma TheUser(l: Limits, b: Book, uid: int, k: nat)
    requires Ok(l, b) && k < |b.users| && b.users[k].uid == uid
    ensures UserAt(b.users, uid) == k && UserOk(l, b.users[k])
  {
    UserFound(b.users, uid);
  }

  lemma TheProcess(l: Limits, u: User, pid: int, starttime: int, j: nat)
    requires UserOk(l, u) && j < |u.processes| && u.processes[j].pid == pid && u.processes[j].starttime == starttime
    ensures ProcessAt(u.processes, pid, starttime) == j
  {
    ProcessFound(u.processes, pid, starttime);
  }

  /** The user an operation is about, if there is one. */
  method Lookup(r: Registry, uid: int) returns (u: int, ghost k: nat)
    requires r.Valid()
    ensures var b := r.Contents(); |b.users| == |r.tree| && k == UserAt(b.users, uid) && (u != NULL <==> k < |r.tree|)
    ensures u != NULL ==>
      r.tree[k].at == u && UserOf(r.tree[k]) == r.Contents().users[k] && UserOk(r.limits, r.Contents().users[k])
  {
    hide Ok, HasUser, Holds;
    u, k := r.SearchUser(uid);
    UserFound(r.Contents().users, uid);
    if u != NULL {
      TheUser(r.limits, r.Contents(), uid, k);
    } else {
      k := UserAt(r.Contents().users, uid);
    }
  }

  /** One call on the registry; `cell` is where malloc finds memory, if it does, and `grants` what it granted. */
  method Perform(r: Registry, op: Op, cell: int, ghost s: System) returns (grants: seq<Grant>)
    requires r.Valid() && cell != NULL && cell !in r.mem && s.book == r.Contents()
    modifies r
    ensures r.Valid() && r.Contents() == BookAfter(r.limits, s.book, op)
    ensures GrantsAfter(r.limits, s, op) == s.grants + grants
  {
    hide Ok, Collected, AddUser, AddProcess, AddThread, WithBurst, HasUser, HasProcess, Holds, UserOk;
    grants := [];
    NoGrants(s.grants);
    match op
    case FindUser(uid, now, memory) =>
      UserFound(r.Contents().users, uid);
      var _, _ := r.FindUser(uid, now, Answered(memory, cell));
    case FindProcess(uid, pid, starttime, memory) =>
      var u, k := Lookup(r, uid);
      if u != NULL {
        ProcessFound(r.Contents().users[k].processes, pid, starttime);
        var _, _ := r.FindProcess(u, pid, starttime, Answered(memory, cell), k);
      }
    case FindThread(uid, p, pid, starttime, memory) =>
      var u, k := Lookup(r, uid);
      if u != NULL {
        var q, j := r.SearchProcess(u, p.pid, p.starttime, k);
        ProcessFound(r.Contents().users[k].processes, p.pid, p.starttime);
        if q != NULL {
          TheProcess(r.limits, r.Contents().users[k], p.pid, p.starttime, j);
          var _, _ := r.FindThread(u, q, pid, starttime, Answered(memory, cell), k, j);
        }
      }
    case Verify(uid, now, stamp) =>
      var u, k := Lookup(r, uid);
      if u != NULL {
        var granted, at := r.VerifyBurst(u, now, stamp, k);
        if granted {
          grants := [Grant(uid, at)];
        }
      }
    case Collect(relevant, clock, _) =>
      r.UserGc(relevant, clock);
  }

  lemma NoGrants(gs: seq<Grant>)
    ensures gs + [] == gs
  {
  }

  function Answered(memory: bool, cell: int): Option<int> { if memory then Some(cell) else None }

  /** An allocator: at any call and for any memory, a cell that is not in use. */
  ghost predicate Allocates(malloc: (nat, Memory) -> int) {
    forall i: nat, m: Memory :: malloc(i, m) != NULL && malloc(i, m) !in m
  }

  /** Any run, from an empty registry and with any allocator: the registry in memory is that of the model, and the
      requests granted are those of the model. */
  method PerformAll(r: Registry, ops: seq<Op>, malloc: (nat, Memory) -> int, ghost clock: int)
    returns (grants: seq<Grant>)
    requires r.Valid() && r.Contents() == Start(clock).book && Allocates(malloc)
    modifies r
    ensures r.Valid() && r.Contents() == Run(r.limits, clock, ops).book && grants == Run(r.limits, clock, ops).grants
  {
    hide BookAfter, GrantsAfter, Run, Ok, Holds;
    RunStarts(r.limits, clock);
    Prefixes(ops, 0);
    grants := [];
    for i := 0 to |ops|
      invariant r.Valid() && r.Contents() == Run(r.limits, clock, ops[..i]).book
      invariant grants == Run(r.limits, clock, ops[..i]).grants
    {
      var more := Perform(r, ops[i], malloc(i, r.mem), Run(r.limits, clock, ops[..i]));
      grants := grants + more;
      Prefixes(ops, i);
      RunAppend(r.limits, clock, ops[..i], ops[i]);
    }
  }

  /** So what is granted in memory is bounded in every window. */
  method PerformBounded(r: Registry, ops: seq<Op>, malloc: (nat, Memory) -> int, ghost clock: int)
    returns (grants: seq<Grant>)
    requires r.Valid() && r.Contents() == Start(clock).book && Allocates(malloc)
    requires LegalRun(r.limits, clock, ops) && r.limits.burstSec >= 1
    modifies r
    ensures r.Valid() &&
      forall uid, from {:trigger BurstLimiter.InWindow(GrantsOf(grants, uid), from, r.limits.burstSec)} ::
      BurstLimiter.InWindow(GrantsOf(grants, uid), from, r.limits.burstSec) <= 2 * (r.limits.burstMax + 1)
  {
    hide Run, LegalRun, GrantsOf, Ok, Holds;
    grants := PerformAll(r, ops, malloc, clock);
    forall uid,
      from ensures BurstLimiter.InWindow(GrantsOf(grants, uid), from,
                                         r.limits.burstSec) <= 2 * (r.limits.burstMax + 1) {
      BurstBound(r.limits, clock, ops, uid, from);
    }
  }

  lemma Prefixes(ops: seq<Op>, i: nat)
    ensures ops[..0] == [] && ops[..|ops|] == ops
    ensures i < |ops| ==> ops[..i + 1] == ops[..i] + [ops[i]]
  {
  }
}
