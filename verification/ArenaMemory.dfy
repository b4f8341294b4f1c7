/** The arena as it lies in memory: headers with two circular doubly-linked lists threaded
    through them.  A cell is as large as an arena header, four words, and is named by its byte
    address.  A block's header is the cell at its address (type, size, next, prev); the links of
    a free block (next_free, prev_free) are the first two words of the cell after it, which is
    where a used block keeps its first payload bytes.  The lemmas say what inserting, removing
    and replacing a node do to a ring. */
module ArenaMemory {
  import opened Collections
  import opened ArenaModel

  datatype Cell = Cell(w0: int, w1: int, w2: int, w3: int)
  type Memory = map<int, Cell>

  const USED: int := 0
  const FREE: int := 1
  const HEAD: int := 2

  /** All blocks by address, or the free blocks. */
  datatype Chain = Blocks | Frees

  function At(m: Memory, a: int): Cell {
    if a in m then m[a] else Cell(0, 0, 0, 0)
  }

  function Tag(m: Memory, a: int): int { At(m, a).w0 }
  function Size(m: Memory, a: int): int { At(m, a).w1 }

  function Next(c: Chain, m: Memory, a: int): int {
    if c.Blocks? then At(m, a).w2 else At(m, a + HEADER).w0
  }

  function Prev(c: Chain, m: Memory, a: int): int {
    if c.Blocks? then At(m, a).w3 else At(m, a + HEADER).w1
  }

  function SetTag(m: Memory, a: int, v: int): Memory { m[a := At(m, a).(w0 := v)] }
  function SetSize(m: Memory, a: int, v: int): Memory { m[a := At(m, a).(w1 := v)] }

  function SetNext(c: Chain, m: Memory, a: int, v: int): Memory {
    if c.Blocks? then m[a := At(m, a).(w2 := v)] else m[a + HEADER := At(m, a + HEADER).(w0 := v)]
  }

  function SetPrev(c: Chain, m: Memory, a: int, v: int): Memory {
    if c.Blocks? then m[a := At(m, a).(w3 := v)] else m[a + HEADER := At(m, a + HEADER).(w1 := v)]
  }

  // ---------------------------------------------------------------- chains

  ghost predicate Linked(c: Chain, m: Memory, nodes: seq<int>) {
    forall i, j :: 0 <= i && j == i + 1 && j < |nodes| ==>
      Next(c, m, nodes[i]) == nodes[j] && Prev(c, m, nodes[j]) == nodes[i]
  }

  lemma LinkedConcat(c: Chain, m: Memory, xs: seq<int>, ys: seq<int>)
    requires |xs| > 0 && |ys| > 0
    ensures Linked(c, m, xs + ys) <==>
            (Linked(c, m, xs) && Linked(c, m, ys) && Next(c, m, xs[|xs| - 1]) == ys[0] &&
             Prev(c, m, ys[0]) == xs[|xs| - 1])
  {
    var zs := xs + ys;
    assert forall i :: 0 <= i < |xs| ==> zs[i] == xs[i];
    assert forall j :: 0 <= j < |ys| ==> zs[|xs| + j] == ys[j];
    if Linked(c, m, zs) {
      assert zs[|xs| - 1] == xs[|xs| - 1] && zs[|xs|] == ys[0];
      forall i, j | 0 <= i && j == i + 1 && j < |ys| ensures Next(c, m, ys[i]) == ys[j] && Prev(c, m, ys[j]) == ys[i] {
        assert zs[|xs| + i] == ys[i] && zs[|xs| + j] == ys[j];
      }
    }
  }

  /** A stretch of a chain depends on no link out of its last node or into its first. */
  lemma LinkedFrame(c: Chain, m: Memory, m': Memory, xs: seq<int>)
    requires Linked(c, m, xs)
    requires forall i :: 0 <= i < |xs| - 1 ==> Next(c, m', xs[i]) == Next(c, m, xs[i])
    requires forall i :: 0 < i < |xs| ==> Prev(c, m', xs[i]) == Prev(c, m, xs[i])
    ensures Linked(c, m', xs)
  {
  }

  /** The circular list of the nodes `ds` through the head node. */
  ghost predicate Ring(c: Chain, m: Memory, head: int, ds: seq<int>) {
    Linked(c, m, [head] + ds + [head])
  }

  function Last(head: int, ds: seq<int>): int { if ds == [] then head else ds[|ds| - 1] }
  function First(ds: seq<int>, head: int): int { if ds == [] then head else ds[0] }

  /** `m'` differs from `m` on the nodes of a ring only in the link out of `p` and the link into `n`. */
  ghost predicate OnlyBetween(c: Chain, m: Memory, m': Memory, head: int, ds: seq<int>, p: int, n: int) {
    forall y :: y == head || y in ds ==>
      (y != p ==> Next(c, m', y) == Next(c, m, y)) && (y != n ==> Prev(c, m', y) == Prev(c, m, y))
  }

  lemma SplitRing(c: Chain, m: Memory, head: int, xs: seq<int>, ys: seq<int>)
    ensures Ring(c, m, head, xs + ys) <==>
            (Linked(c, m, [head] + xs) && Linked(c, m, ys + [head])
             && Next(c, m, Last(head, xs)) == First(ys, head) && Prev(c, m, First(ys, head)) == Last(head, xs))
  {
    assert [head] + (xs + ys) + [head] == ([head] + xs) + (ys + [head]);
    LinkedConcat(c, m, [head] + xs, ys + [head]);
  }

  /** The two halves around a gap do not look at the links across it. */
  lemma HalvesFrame(c: Chain, m: Memory, m': Memory, head: int, xs: seq<int>, ys: seq<int>)
    requires Linked(c, m, [head] + xs) && Linked(c, m, ys + [head])
    requires Distinct(xs + ys) && head !in xs + ys
    requires OnlyBetween(c, m, m', head, xs + ys, Last(head, xs), First(ys, head))
    ensures Linked(c, m', [head] + xs) && Linked(c, m', ys + [head])
  {
    var us, vs, zs := [head] + xs, ys + [head], xs + ys;
    forall i | 0 <= i < |us| - 1 ensures Next(c, m', us[i]) == Next(c, m, us[i]) {
      assert us[i] == head || us[i] == zs[i - 1];
      assert xs[|xs| - 1] == zs[|xs| - 1];
    }
    forall i | 0 < i < |us| ensures Prev(c, m', us[i]) == Prev(c, m, us[i]) {
      assert us[i] == zs[i - 1];
      assert ys != [] ==> ys[0] == zs[|xs|];
    }
    LinkedFrame(c, m, m', us);
    forall i | 0 <= i < |vs| - 1 ensures Next(c, m', vs[i]) == Next(c, m, vs[i]) {
      assert vs[i] == zs[|xs| + i];
      assert xs != [] ==> xs[|xs| - 1] == zs[|xs| - 1];
    }
    forall i | 0 < i < |vs| ensures Prev(c, m', vs[i]) == Prev(c, m, vs[i]) {
      assert ys[0] == zs[|xs|];
      assert i < |ys| ==> vs[i] == zs[|xs| + i];
    }
    LinkedFrame(c, m, m', vs);
  }

  /** The four stores of an insertion between two neighbours make the longer ring. */
  lemma RingInsert(c: Chain, m: Memory, m': Memory, head: int, xs: seq<int>, x: int, ys: seq<int>)
    requires Ring(c, m, head, xs + ys) && Distinct(xs + ys) && head !in xs + ys
    requires OnlyBetween(c, m, m', head, xs + ys, Last(head, xs), First(ys, head))
    requires Next(c, m', Last(head, xs)) == x && Prev(c, m', x) == Last(head, xs)
    requires Next(c, m', x) == First(ys, head) && Prev(c, m', First(ys, head)) == x
    ensures Ring(c, m', head, xs + [x] + ys)
  {
    SplitRing(c, m, head, xs, ys);
    HalvesFrame(c, m, m', head, xs, ys);
    assert [head] + (xs + [x]) == ([head] + xs) + [x];
    LinkedConcat(c, m', [head] + xs, [x]);
    SplitRing(c, m', head, xs + [x], ys);
  }

  /** The two stores of a removal make the shorter ring. */
  lemma RingRemove(c: Chain, m: Memory, m': Memory, head: int, xs: seq<int>, x: int, ys: seq<int>)
    requires Ring(c, m, head, xs + [x] + ys) && Distinct(xs + ys) && head !in xs + ys
    requires OnlyBetween(c, m, m', head, xs + ys, Last(head, xs), First(ys, head))
    requires Next(c, m', Last(head, xs)) == First(ys, head) && Prev(c, m', First(ys, head)) == Last(head, xs)
    ensures Ring(c, m', head, xs + ys)
  {
    SplitRing(c, m, head, xs + [x], ys);
    assert [head] + (xs + [x]) == ([head] + xs) + [x];
    LinkedConcat(c, m, [head] + xs, [x]);
    HalvesFrame(c, m, m', head, xs, ys);
    SplitRing(c, m', head, xs, ys);
  }

  /** A node put in the place of another. */
  lemma RingReplace(c: Chain, m: Memory, m': Memory, head: int, xs: seq<int>, a: int, x: int, ys: seq<int>)
    requires Ring(c, m, head, xs + [a] + ys) && Distinct(xs + ys) && head !in xs + ys
    requires OnlyBetween(c, m, m', head, xs + ys, Last(head, xs), First(ys, head))
    requires Next(c, m', Last(head, xs)) == x && Prev(c, m', x) == Last(head, xs)
    requires Next(c, m', x) == First(ys, head) && Prev(c, m', First(ys, head)) == x
    ensures Ring(c, m', head, xs + [x] + ys)
  {
    SplitRing(c, m, head, xs + [a], ys);
    assert [head] + (xs + [a]) == ([head] + xs) + [a];
    LinkedConcat(c, m, [head] + xs, [a]);
    HalvesFrame(c, m, m', head, xs, ys);
    assert [head] + (xs + [x]) == ([head] + xs) + [x];
    LinkedConcat(c, m', [head] + xs, [x]);
    SplitRing(c, m', head, xs + [x], ys);
  }

  lemma RingSame(c: Chain, m: Memory, m': Memory, head: int, ds: seq<int>)
    requires Ring(c, m, head, ds)
    requires forall y :: y == head || y in ds ==> Next(c, m', y) == Next(c, m, y) && Prev(c, m', y) == Prev(c, m, y)
    ensures Ring(c, m', head, ds)
  {
    LinkedFrame(c, m, m', [head] + ds + [head]);
  }

  /** What the links of a node of a ring are. */
  lemma RingAt(c: Chain, m: Memory, head: int, xs: seq<int>, a: int, ys: seq<int>)
    requires Ring(c, m, head, xs + [a] + ys)
    ensures Prev(c, m, a) == Last(head, xs) && Next(c, m, a) == First(ys, head)
    ensures Next(c, m, Last(head, xs)) == a && Prev(c, m, First(ys, head)) == a
  {
    SplitRing(c, m, head, xs + [a], ys);
    assert [head] + (xs + [a]) == ([head] + xs) + [a];
    LinkedConcat(c, m, [head] + xs, [a]);
  }

  // ---------------------------------------------------------------- link surgery

  /** The cell that holds a node's links. */
  function LinkCell(c: Chain, a: int): int { if c.Blocks? then a else a + HEADER }

  /** The type and size words (outside `cells`, for the free chain) and the other chain are as before. */
  ghost predicate LinksOnly(c: Chain, m: Memory, m': Memory, cells: set<int>) {
    && (forall a :: c.Blocks? || a !in cells ==> Tag(m', a) == Tag(m, a) && Size(m', a) == Size(m, a))
    && (c.Blocks? ==> forall y :: Next(Frees, m', y) == Next(Frees, m, y) && Prev(Frees, m', y) == Prev(Frees, m, y))
    && (c.Frees? ==> forall y :: Next(Blocks, m', y) == Next(Blocks, m, y) && Prev(Blocks, m', y) == Prev(Blocks, m, y))
    && (forall a {:trigger m'[a]} :: a in m && a !in cells ==> a in m' && m'[a] == m[a])
    && m'.Keys == m.Keys + cells
  }

  /** From `m` to `m'`, node `x` was put between `p` and `n`. */
  ghost predicate Linking(c: Chain, m: Memory, m': Memory, p: int, x: int, n: int) {
    && LinksOnly(c, m, m', {LinkCell(c, p), LinkCell(c, x), LinkCell(c, n)})
    && Next(c, m', p) == x && Prev(c, m', x) == p && Next(c, m', x) == n && Prev(c, m', n) == x
    && (forall y :: y != p && y != x ==> Next(c, m', y) == Next(c, m, y))
    && (forall y :: y != n && y != x ==> Prev(c, m', y) == Prev(c, m, y))
  }

  /** From `m` to `m'`, whatever was between `p` and `n` was taken out. */
  ghost predicate Unlinking(c: Chain, m: Memory, m': Memory, p: int, n: int) {
    && LinksOnly(c, m, m', {LinkCell(c, p), LinkCell(c, n)})
    && Next(c, m', p) == n && Prev(c, m', n) == p
    && (forall y :: y != p ==> Next(c, m', y) == Next(c, m, y))
    && (forall y :: y != n ==> Prev(c, m', y) == Prev(c, m, y))
  }

  /** From `m` to `m'`, the header at `a` got this type and size. */
  ghost predicate Heading(m: Memory, m': Memory, a: int, tag: int, size: int) {
    && Tag(m', a) == tag && Size(m', a) == size
    && (forall y :: y != a ==> At(m', y) == At(m, y))
    && At(m', a).w2 == At(m, a).w2 && At(m', a).w3 == At(m, a).w3
    && m'.Keys == m.Keys + {a}
  }

  lemma InsertedRing(c: Chain, m: Memory, m': Memory, head: int, xs: seq<int>, x: int, ys: seq<int>)
    requires Ring(c, m, head, xs + ys) && Distinct(xs + [x] + ys) && head !in xs + [x] + ys
    requires Linking(c, m, m', Last(head, xs), x, First(ys, head))
    ensures Ring(c, m', head, xs + [x] + ys)
  {
    AroundNode(head, xs, x, ys);
    RingInsert(c, m, m', head, xs, x, ys);
  }

  lemma ReplacedRing(c: Chain, m: Memory, m': Memory, head: int, xs: seq<int>, a: int, x: int, ys: seq<int>)
    requires Ring(c, m, head, xs + [a] + ys) && Distinct(xs + [x] + ys) && head !in xs + [x] + ys
    requires Linking(c, m, m', Last(head, xs), x, First(ys, head))
    ensures Ring(c, m', head, xs + [x] + ys)
  {
    AroundNode(head, xs, x, ys);
    RingReplace(c, m, m', head, xs, a, x, ys);
  }

  lemma BypassedRing(c: Chain, m: Memory, m': Memory, head: int, xs: seq<int>, x: int, ys: seq<int>)
    requires Ring(c, m, head, xs + [x] + ys) && Distinct(xs + [x] + ys) && head !in xs + [x] + ys
    requires Unlinking(c, m, m', Last(head, xs), First(ys, head))
    ensures Ring(c, m', head, xs + ys)
  {
    AroundNode(head, xs, x, ys);
    RingRemove(c, m, m', head, xs, x, ys);
  }

  lemma AroundNode(head: int, xs: seq<int>, x: int, ys: seq<int>)
    requires Distinct(xs + [x] + ys) && head !in xs + [x] + ys
    ensures Distinct(xs + ys) && head !in xs + ys && x !in xs + ys && x != head
    ensures x != Last(head, xs) && x != First(ys, head)
  {
    DistinctConcat(xs + [x], ys);
    DistinctConcat(xs, [x]);
    DistinctConcat(xs, ys);
    assert x in Elements([x]);
    assert (xs + [x])[|xs|] == x;
    assert (xs + [x] + ys)[|xs|] == x;
    forall y | y in xs + ys ensures y in xs + [x] + ys && y != x {
      assert y in Elements(xs) + Elements(ys);
    }
  }

  // ---------------------------------------------------------------- both chains together

  /** Both chains, given the nodes of each. */
  ghost predicate Rings(m: Memory, head: int, bs: seq<int>, fs: seq<int>) {
    Ring(Blocks, m, head, bs) && Ring(Frees, m, head, fs)
  }

  ghost predicate OffLinks(head: int, a: int, fs: seq<int>) {
    head + HEADER != a && forall y :: y in fs ==> y + HEADER != a
  }

  /** Nodes that can make up a ring. */
  ghost predicate Nodes(head: int, ds: seq<int>) {
    Distinct(ds) && head !in ds
  }

  /** Writing a header leaves the block chain alone, and the free chain unless the header lies on
      the link cell of one of its nodes. */
  lemma RingsHeader(m: Memory, m': Memory, a: int, tag: int, size: int, head: int, bs: seq<int>, fs: seq<int>)
    requires Rings(m, head, bs, fs) && OffLinks(head, a, fs) && Heading(m, m', a, tag, size)
    ensures Rings(m', head, bs, fs)
  {
    RingSame(Blocks, m, m', head, bs);
    RingSame(Frees, m, m', head, fs);
  }

  lemma RingsInsertBlock(m: Memory, m': Memory, head: int, xs: seq<int>, x: int, ys: seq<int>, fs: seq<int>)
    requires Rings(m, head, xs + ys, fs) && Nodes(head, xs + [x] + ys)
    requires Linking(Blocks, m, m', Last(head, xs), x, First(ys, head))
    ensures Rings(m', head, xs + [x] + ys, fs)
  {
    InsertedRing(Blocks, m, m', head, xs, x, ys);
    RingSame(Frees, m, m', head, fs);
  }

  lemma RingsInsertFree(m: Memory, m': Memory, head: int, xs: seq<int>, x: int, ys: seq<int>, bs: seq<int>)
    requires Rings(m, head, bs, xs + ys) && Nodes(head, xs + [x] + ys)
    requires Linking(Frees, m, m', Last(head, xs), x, First(ys, head))
    ensures Rings(m', head, bs, xs + [x] + ys)
  {
    InsertedRing(Frees, m, m', head, xs, x, ys);
    RingSame(Blocks, m, m', head, bs);
  }

  lemma RingsReplaceFree(m: Memory, m': Memory, head: int, xs: seq<int>, a: int, x: int, ys: seq<int>, bs: seq<int>)
    requires Rings(m, head, bs, xs + [a] + ys) && Nodes(head, xs + [x] + ys)
    requires Linking(Frees, m, m', Last(head, xs), x, First(ys, head))
    ensures Rings(m', head, bs, xs + [x] + ys)
  {
    ReplacedRing(Frees, m, m', head, xs, a, x, ys);
    RingSame(Blocks, m, m', head, bs);
  }

  lemma RingsBypassBlock(m: Memory, m': Memory, head: int, xs: seq<int>, x: int, ys: seq<int>, fs: seq<int>)
    requires Rings(m, head, xs + [x] + ys, fs) && Nodes(head, xs + [x] + ys)
    requires Unlinking(Blocks, m, m', Last(head, xs), First(ys, head))
    ensures Rings(m', head, xs + ys, fs)
  {
    BypassedRing(Blocks, m, m', head, xs, x, ys);
    RingSame(Frees, m, m', head, fs);
  }

  lemma RingsBypassFree(m: Memory, m': Memory, head: int, xs: seq<int>, x: int, ys: seq<int>, bs: seq<int>)
    requires Rings(m, head, bs, xs + [x] + ys) && Nodes(head, xs + [x] + ys)
    requires Unlinking(Frees, m, m', Last(head, xs), First(ys, head))
    ensures Rings(m', head, bs, xs + ys)
  {
    BypassedRing(Frees, m, m', head, xs, x, ys);
    RingSame(Blocks, m, m', head, bs);
  }

  // ---------------------------------------------------------------- describing memory in mid-operation

  ghost predicate HeaderAt(m: Memory, b: Block) {
    Tag(m, b.addr) == (if b.used then USED else FREE) && Size(m, b.addr) == b.size
  }

  /** What is known of memory between two groups of stores: the nodes of both chains in order, and
      a set of headers.  `nodes` and `freeNodes` are all the addresses that the operation uses as
      header or as free-chain node at any time. */
  datatype Desc = Desc(head: int, nodes: set<int>, freeNodes: set<int>, bs: seq<int>, fs: seq<int>, claims: set<Block>)

  /** No header lies on the link cell of another node. */
  ghost predicate Spread(nodes: set<int>) {
    forall a, b :: a in nodes && b in nodes ==> a != b + HEADER
  }

  ghost predicate Placed(d: Desc) {
    && d.head in d.freeNodes && d.freeNodes <= d.nodes && Spread(d.nodes)
    && Nodes(d.head, d.bs) && Nodes(d.head, d.fs)
    && Elements(d.bs) <= d.nodes && Elements(d.fs) <= d.freeNodes
    && (forall b :: b in d.claims ==> b.addr in d.nodes)
  }

  ghost predicate Describes(m: Memory, d: Desc) {
    && Placed(d)
    && Rings(m, d.head, d.bs, d.fs)
    && Tag(m, d.head) == HEAD
    && (forall b :: b in d.claims ==> HeaderAt(m, b))
    && (forall a :: a in d.nodes ==> a in m && a + HEADER in m)
  }

  /** Only headers and free-chain link cells were written, and nothing was mapped or unmapped. */
  ghost predicate Kept(m: Memory, m': Memory, nodes: set<int>, freeNodes: set<int>) {
    && m'.Keys == m.Keys
    && forall x {:trigger m'[x]} :: x in m && x !in nodes && x - HEADER !in freeNodes ==> m'[x] == m[x]
  }

  lemma ClaimsUnderLinks(c: Chain, m: Memory, m': Memory, d: Desc, cells: set<int>)
    requires Describes(m, d) && LinksOnly(c, m, m', cells)
    requires forall x :: x in cells ==> (c.Blocks? && x in d.nodes) || (c.Frees? && x - HEADER in d.freeNodes)
    ensures Tag(m', d.head) == HEAD
    ensures forall b :: b in d.claims ==> HeaderAt(m', b)
    ensures Kept(m, m', d.nodes, d.freeNodes)
  {
    forall a | a in d.nodes ensures c.Blocks? || a !in cells {
      assert a - HEADER !in d.nodes;
    }
    assert cells <= m.Keys by {
      forall x | x in cells ensures x in m {
        if c.Frees? {
          assert x == (x - HEADER) + HEADER;
        }
      }
    }
  }

  lemma HeadingStep(m: Memory, m': Memory, d: Desc, b: Block, claims: set<Block>)
    requires Describes(m, d) && Heading(m, m', b.addr, if b.used then USED else FREE, b.size)
    requires b.addr in d.nodes && b.addr != d.head
    requires forall c :: c in claims ==> c == b || (c in d.claims && c.addr != b.addr)
    ensures Describes(m', d.(claims := claims)) && Kept(m, m', d.nodes, d.freeNodes)
  {
    assert OffLinks(d.head, b.addr, d.fs) by {
      forall y | y in d.fs ensures y + HEADER != b.addr {
        assert y in Elements(d.fs);
      }
    }
    RingsHeader(m, m', b.addr, if b.used then USED else FREE, b.size, d.head, d.bs, d.fs);
    assert b.addr in m;
    forall x | x in m && x != b.addr ensures m'[x] == m[x] {
      assert At(m', x) == At(m, x);
    }
  }

  lemma NodeIn(ds: seq<int>, head: int, nodes: set<int>)
    requires Elements(ds) <= nodes && head in nodes
    ensures Last(head, ds) in nodes && First(ds, head) in nodes
  {
    if ds != [] {
      assert ds[0] in Elements(ds) && ds[|ds| - 1] in Elements(ds);
    }
  }

  lemma LinkBlockStep(m: Memory, m': Memory, d: Desc, xs: seq<int>, x: int, ys: seq<int>)
    requires Describes(m, d) && d.bs == xs + ys && x in d.nodes && Nodes(d.head, xs + [x] + ys)
    requires Linking(Blocks, m, m', Last(d.head, xs), x, First(ys, d.head))
    ensures Describes(m', d.(bs := xs + [x] + ys)) && Kept(m, m', d.nodes, d.freeNodes)
  {
    RingsInsertBlock(m, m', d.head, xs, x, ys, d.fs);
    DistinctConcat(xs, ys);
    NodeIn(xs, d.head, d.nodes);
    NodeIn(ys, d.head, d.nodes);
    ClaimsUnderLinks(Blocks, m, m', d, {Last(d.head, xs), x, First(ys, d.head)});
    ElementsThree(xs, x, ys);
  }

  lemma ElementsThree(xs: seq<int>, x: int, ys: seq<int>)
    ensures Elements(xs + [x] + ys) == Elements(xs) + {x} + Elements(ys)
    ensures Elements(xs + ys) == Elements(xs) + Elements(ys)
  {
  }

  lemma UnlinkBlockStep(m: Memory, m': Memory, d: Desc, xs: seq<int>, x: int, ys: seq<int>)
    requires Describes(m, d) && d.bs == xs + [x] + ys
    requires Unlinking(Blocks, m, m', Last(d.head, xs), First(ys, d.head))
    ensures Describes(m', d.(bs := xs + ys)) && Kept(m, m', d.nodes, d.freeNodes)
  {
    RingsBypassBlock(m, m', d.head, xs, x, ys, d.fs);
    AroundNode(d.head, xs, x, ys);
    ElementsThree(xs, x, ys);
    NodeIn(xs, d.head, d.nodes);
    NodeIn(ys, d.head, d.nodes);
    ClaimsUnderLinks(Blocks, m, m', d, {Last(d.head, xs), First(ys, d.head)});
  }

  /** The node `x` enters the free chain between `xs` and `ys`, in the place of the nodes `mid` (none or one). */
  lemma LinkFreeStep(m: Memory, m': Memory, d: Desc, xs: seq<int>, mid: seq<int>, x: int, ys: seq<int>)
    requires Describes(m, d) && d.fs == xs + mid + ys && |mid| <= 1 && x in d.freeNodes && Nodes(d.head, xs + [x] + ys)
    requires Linking(Frees, m, m', Last(d.head, xs), x, First(ys, d.head))
    ensures Describes(m', d.(fs := xs + [x] + ys)) && Kept(m, m', d.nodes, d.freeNodes)
  {
    if mid == [] {
      assert xs + mid + ys == xs + ys;
      RingsInsertFree(m, m', d.head, xs, x, ys, d.bs);
    } else {
      assert xs + mid + ys == xs + [mid[0]] + ys;
      RingsReplaceFree(m, m', d.head, xs, mid[0], x, ys, d.bs);
    }
    assert Elements(xs + mid + ys) == Elements(xs) + Elements(mid) + Elements(ys);
    ElementsThree(xs, x, ys);
    NodeIn(xs, d.head, d.freeNodes);
    NodeIn(ys, d.head, d.freeNodes);
    ClaimsUnderLinks(Frees, m, m', d, {Last(d.head, xs) + HEADER, x + HEADER, First(ys, d.head) + HEADER});
  }

  lemma UnlinkFreeStep(m: Memory, m': Memory, d: Desc, xs: seq<int>, x: int, ys: seq<int>)
    requires Describes(m, d) && d.fs == xs + [x] + ys
    requires Unlinking(Frees, m, m', Last(d.head, xs), First(ys, d.head))
    ensures Describes(m', d.(fs := xs + ys)) && Kept(m, m', d.nodes, d.freeNodes)
  {
    RingsBypassFree(m, m', d.head, xs, x, ys, d.bs);
    AroundNode(d.head, xs, x, ys);
    ElementsThree(xs, x, ys);
    NodeIn(xs, d.head, d.freeNodes);
    NodeIn(ys, d.head, d.freeNodes);
    ClaimsUnderLinks(Frees, m, m', d, {Last(d.head, xs) + HEADER, First(ys, d.head) + HEADER});
  }
}
