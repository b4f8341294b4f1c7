/** Singly linked lists of nodes in memory: a node is a cell with fields and a next pointer. */
module NodeMemory {
  import opened Collections
  import opened RegistryModel

  const NULL: int := 0

  /** The three structs of rtkit-daemon.c, lines 197-225, without their `next`; `threads` and `processes` are
      pointers. */
  datatype Fields =
    | ThreadFields(thread: Thread)
    | ProcessFields(pid: int, starttime: int, threads: int)
    | UserFields(uid: int, timestamp: int, nActions: nat, processes: int, nProcesses: nat, nThreads: nat)

  datatype Cell = Cell(fields: Fields, next: int)

  /** What malloc has given out and nobody has freed. */
  type Memory = map<int, Cell>

  datatype Node = Node(at: int, fields: Fields)

  /** The address of node `i`, or NULL after the last. */
  function At(ns: seq<Node>, i: nat): int { if i < |ns| then ns[i].at else NULL }

  /** The nodes `ns`, in order and all different, are what one finds following `next` from `head`. */
  ghost predicate List(m: Memory, head: int, ns: seq<Node>) {
    && head == At(ns, 0)
    && (forall i :: 0 <= i < |ns| ==>
        ns[i].at != NULL && ns[i].at in m && m[ns[i].at] == Cell(ns[i].fields, At(ns, i + 1)))
    && (forall i, j :: 0 <= i < j < |ns| ==> ns[i].at != ns[j].at)
  }

  ghost function Addrs(ns: seq<Node>): set<int> { set i | 0 <= i < |ns| :: ns[i].at }

  /** The memories agree on `cells`. */
  ghost predicate Same(m: Memory, m': Memory, cells: set<int>) {
    forall a :: a in cells && a in m ==> a in m' && m'[a] == m[a]
  }

  lemma ListFrame(m: Memory, m': Memory, head: int, ns: seq<Node>)
    requires List(m, head, ns) && Same(m, m', Addrs(ns))
    ensures List(m', head, ns)
  {
    forall i | 0 <= i < |ns| ensures ns[i].at in m' && m'[ns[i].at] == m[ns[i].at] {
      assert ns[i].at in Addrs(ns);
    }
  }

  /** A new node in front. */
  lemma ListPushed(m: Memory, head: int, ns: seq<Node>, a: int, fields: Fields)
    requires List(m, head, ns) && a !in m && a != NULL
    ensures List(m[a := Cell(fields, head)], a, [Node(a, fields)] + ns)
  {
    var ms := [Node(a, fields)] + ns;
    forall i | 0 <= i < |ms| ensures ms[i].at in m[a := Cell(fields, head)]
      && m[a := Cell(fields, head)][ms[i].at] == Cell(ms[i].fields, At(ms, i + 1))
    {
      assert i > 0 ==> ms[i] == ns[i - 1];
      assert At(ms, i + 1) == At(ns, i);
    }
  }

  /** The fields of a node are overwritten. */
  lemma ListUpdated(m: Memory, head: int, ns: seq<Node>, i: nat, fields: Fields)
    requires List(m, head, ns) && i < |ns|
    ensures List(m[ns[i].at := Cell(fields, m[ns[i].at].next)], head, ns[i := Node(ns[i].at, fields)])
  {
    var ms := ns[i := Node(ns[i].at, fields)];
    assert forall k: nat {:trigger At(ms, k)} :: At(ms, k) == At(ns, k);
  }

  /** Memory once node `i` is freed and its successor stored in its predecessor, if it has one. */
  ghost function Cut(m: Memory, ns: seq<Node>, i: nat): Memory
    requires i < |ns|
  {
    if i == 0 || ns[i - 1].at !in m || ns[i - 1].at == ns[i].at then m - {ns[i].at}
    else (m - {ns[i].at})[ns[i - 1].at := m[ns[i - 1].at].(next := At(ns, i + 1))]
  }

  lemma RemovedAt(ns: seq<Node>, i: nat, k: nat)
    requires i < |ns| && k < |ns|
    ensures At(Removed(ns, i), k) == At(ns, if k < i then k else k + 1)
    ensures k < |ns| - 1 ==> Removed(ns, i)[k] == ns[if k < i then k else k + 1]
  {
  }

  /** Freeing a node and storing its successor in its predecessor, or in the head if it has none, leaves the
      list without it. */
  lemma ListCut(m: Memory, head: int, ns: seq<Node>, i: nat)
    requires List(m, head, ns) && i < |ns|
    ensures List(Cut(m, ns, i), At(Removed(ns, i), 0), Removed(ns, i))
    ensures ns[i].at in m && m[ns[i].at].next == At(ns, i + 1) && (i == 0 ==> At(ns, i + 1) == At(Removed(ns, i), 0))
    ensures i > 0 ==> ns[i - 1].at in m && ns[i - 1].at != ns[i].at && At(Removed(ns, i), 0) == head
  {
    hide Removed, Cut;
    var ms := Removed(ns, i);
    RemovedAt(ns, i, 0);
    assert |ms| == |ns| - 1;
    forall k | 0 <= k < |ms| ensures ms[k].at != NULL && ms[k].at in Cut(m, ns, i) &&
      Cut(m, ns, i)[ms[k].at] == Cell(ms[k].fields, At(ms, k + 1)) {
      CellPastCut(m, head, ns, i, k);
    }
    forall j, k | 0 <= j < k < |ms| ensures ms[j].at != ms[k].at {
      RemovedAt(ns, i, j);
      RemovedAt(ns, i, k);
    }
  }

  lemma CellPastCut(m: Memory, head: int, ns: seq<Node>, i: nat, k: nat)
    requires List(m, head, ns) && i < |ns| && k < |ns| - 1
    ensures var ms, c := Removed(ns, i), Cut(m, ns, i);
      ms[k].at != NULL && ms[k].at in c && c[ms[k].at] == Cell(ms[k].fields, At(ms, k + 1))
  {
    RemovedAt(ns, i, k);
    RemovedAt(ns, i, k + 1);
    hide Removed;
  }

  /** Cutting changes only cells of the list, and frees only the node. */
  lemma CutFrame(m: Memory, head: int, ns: seq<Node>, i: nat)
    requires List(m, head, ns) && i < |ns|
    ensures Cut(m, ns, i).Keys == m.Keys - {ns[i].at} && ns[i].at in Addrs(ns)
    ensures forall a :: a in m && a !in Addrs(ns) ==> a in Cut(m, ns, i) && Cut(m, ns, i)[a] == m[a]
  {
    assert ns[i].at in Addrs(ns) && (i > 0 ==> ns[i - 1].at in Addrs(ns));
  }

  /** A pointer walking the list stands on a node exactly when it is not NULL. */
  lemma ListWalk(m: Memory, head: int, ns: seq<Node>, i: nat)
    requires List(m, head, ns) && i <= |ns|
    ensures At(ns, i) != NULL <==> i < |ns|
    ensures i < |ns| ==> At(ns, i) in m && m[At(ns, i)] == Cell(ns[i].fields, At(ns, i + 1))
  {
  }

  lemma AddrsRemoved(ns: seq<Node>, i: nat)
    requires i < |ns| && forall j, k :: 0 <= j < k < |ns| ==> ns[j].at != ns[k].at
    ensures Addrs(Removed(ns, i)) == Addrs(ns) - {ns[i].at}
  {
    var ms := Removed(ns, i);
    forall a | a in Addrs(ns) - {ns[i].at} ensures a in Addrs(ms) {
      var k :| 0 <= k < |ns| && ns[k].at == a;
      assert ms[if k < i then k else k - 1] == ns[k];
    }
    forall k | 0 <= k < |ms| ensures ms[k].at in Addrs(ns) && ms[k].at != ns[i].at {
      assert ms[k] == ns[if k < i then k else k + 1];
    }
  }

  lemma ListTail(m: Memory, ns: seq<Node>)
    requires List(m, At(ns, 0), ns) && ns != []
    ensures List(m, At(ns[1..], 0), ns[1..]) && At(ns[1..], 0) == At(ns, 1)
  {
    assert forall k: nat {:trigger At(ns[1..], k)} :: At(ns[1..], k) == At(ns, k + 1);
  }

  lemma Freed(m: Memory, m': Memory, cells: set<int>)
    requires m'.Keys == m.Keys - cells && forall a :: a in m' ==> m'[a] == m[a]
    ensures m' == m - cells
  {
    var r := m - cells;
    assert m'.Keys == r.Keys;
    assert forall a :: a in r ==> m'[a] == r[a];
  }
}
