/** From memory to arenas: memory represents an arena when both chains run through exactly its
    blocks and its free blocks, the headers say what the blocks are, and what is mapped is what
    the blocks own.  The lemmas say that the stores of each operation lead from a memory that
    represents an arena to one that represents the arena the operation makes of it. */
module ArenaRefinement {
  import opened Collections
  import opened ArenaModel
  import opened ArenaMemory

  // ---------------------------------------------------------------- memory represents an arena

  function Addrs(bs: seq<Block>): seq<int> {
    seq(|bs|, i requires 0 <= i < |bs| => bs[i].addr)
  }

  ghost function Members(bs: seq<Block>): set<Block> {
    set b | b in bs
  }

  predicate Within(b: Block, x: int) { b.addr <= x < b.End() && Aligned(x) }

  ghost predicate OwnsTo(bs: seq<Block>, n: nat, x: int)
    requires n <= |bs|
  {
    n > 0 && (Within(bs[n - 1], x) || OwnsTo(bs, n - 1, x))
  }

  ghost predicate Owns(bs: seq<Block>, x: int) {
    OwnsTo(bs, |bs|, x)
  }

  lemma {:induction false} OwnsByOne(bs: seq<Block>, n: nat, x: int)
    requires n <= |bs|
    ensures OwnsTo(bs, n, x) <==> exists i :: 0 <= i < n && Within(bs[i], x)
  {
    if n > 0 {
      OwnsByOne(bs, n - 1, x);
    }
  }

  /** Exactly the cells of the blocks and of the static head node are accessible. */
  ghost predicate Maps(m: Memory, head: int, bs: seq<Block>) {
    forall x :: x in m <==> (x == head || x == head + HEADER || Owns(bs, x))
  }

  ghost predicate Headers(m: Memory, bs: set<Block>) {
    forall b :: b in bs ==> HeaderAt(m, b)
  }

  /** Memory represents the arena but for the headers outside `claims`; the static head node is
      outside every block. */
  ghost predicate GoodBut(m: Memory, head: int, s: Arena, claims: set<Block>) {
    && Shaped(s) && Clear(s.blocks, head, 2 * HEADER)
    && Rings(m, head, Addrs(s.blocks), s.frees)
    && Tag(m, head) == HEAD
    && Headers(m, claims)
    && Maps(m, head, s.blocks)
  }

  ghost predicate Good(m: Memory, head: int, s: Arena) {
    GoodBut(m, head, s, Members(s.blocks))
  }

  // ---------------------------------------------------------------- lists taken apart

  lemma AddrsConcat(xs: seq<Block>, ys: seq<Block>)
    ensures Addrs(xs + ys) == Addrs(xs) + Addrs(ys)
  {
  }

  lemma AddrsThree(xs: seq<Block>, ys: seq<Block>, zs: seq<Block>)
    ensures Addrs(xs + ys + zs) == Addrs(xs) + Addrs(ys) + Addrs(zs)
  {
    AddrsConcat(xs + ys, zs);
    AddrsConcat(xs, ys);
  }

  lemma ClearConcat(xs: seq<Block>, ys: seq<Block>, p: int, size: int)
    ensures Clear(xs + ys, p, size) <==> Clear(xs, p, size) && Clear(ys, p, size)
  {
    var zs := xs + ys;
    assert forall i :: 0 <= i < |xs| ==> zs[i] == xs[i];
    assert forall j :: 0 <= j < |ys| ==> zs[|xs| + j] == ys[j];
  }

  lemma ClearThree(xs: seq<Block>, ys: seq<Block>, zs: seq<Block>, p: int, size: int)
    ensures Clear(xs + ys + zs, p, size) <==> Clear(xs, p, size) && Clear(ys, p, size) && Clear(zs, p, size)
  {
    ClearConcat(xs + ys, zs, p, size);
    ClearConcat(xs, ys, p, size);
  }

  lemma {:induction false} OwnsToConcat(xs: seq<Block>, ys: seq<Block>, n: nat, x: int)
    requires n <= |xs| + |ys|
    ensures OwnsTo(xs + ys, n, x) <==> if n <= |xs| then OwnsTo(xs, n, x) else Owns(xs, x) || OwnsTo(ys, n - |xs|, x)
  {
    if n > 0 {
      OwnsToConcat(xs, ys, n - 1, x);
    }
  }

  lemma OwnsConcat(xs: seq<Block>, ys: seq<Block>, x: int)
    ensures Owns(xs + ys, x) <==> Owns(xs, x) || Owns(ys, x)
  {
    OwnsToConcat(xs, ys, |xs| + |ys|, x);
  }

  lemma OwnsSplice(pre: seq<Block>, seg: seq<Block>, post: seq<Block>, mid: seq<Block>)
    requires forall x :: Owns(mid, x) <==> Owns(seg, x)
    ensures forall x :: Owns(pre + mid + post, x) <==> Owns(pre + seg + post, x)
  {
    forall x ensures Owns(pre + mid + post, x) <==> Owns(pre + seg + post, x) {
      OwnsConcat(pre + mid, post, x);
      OwnsConcat(pre, mid, x);
      OwnsConcat(pre + seg, post, x);
      OwnsConcat(pre, seg, x);
    }
  }

  lemma MapsSame(m: Memory, m': Memory, head: int, bs: seq<Block>, bs': seq<Block>)
    requires Maps(m, head, bs) && m'.Keys == m.Keys
    requires forall x :: Owns(bs', x) <==> Owns(bs, x)
    ensures Maps(m', head, bs')
  {
    forall x ensures x in m' <==> (x == head || x == head + HEADER || Owns(bs', x)) {
      assert x in m' <==> x in m;
    }
  }

  // ---------------------------------------------------------------- entering and leaving an operation

  ghost function NodeSet(head: int, bs: seq<Block>): set<int> {
    {head} + Elements(Addrs(bs))
  }

  lemma NodesSpread(head: int, bs: seq<Block>)
    requires Solid(bs) && Clear(bs, head, 2 * HEADER)
    ensures Spread(NodeSet(head, bs)) && Nodes(head, Addrs(bs))
  {
    forall a, b | a in NodeSet(head, bs) && b in NodeSet(head, bs) ensures a != b + HEADER {
      if a != head && b != head {
        var i, j := IndexOf(Addrs(bs), a), IndexOf(Addrs(bs), b);
        if i < j {
          assert bs[i].End() <= bs[j].addr;
        } else if j < i {
          assert bs[j].End() <= bs[i].addr;
        }
      } else if a != head {
        assert bs[IndexOf(Addrs(bs), a)].addr == a;
      } else if b != head {
        assert bs[IndexOf(Addrs(bs), b)].addr == b;
      }
    }
  }

  lemma NodesMapped(m: Memory, head: int, bs: seq<Block>)
    requires Maps(m, head, bs) && Sized(bs)
    ensures forall a :: a in NodeSet(head, bs) ==> a in m && a + HEADER in m
  {
    forall a | a in NodeSet(head, bs) ensures a in m && a + HEADER in m {
      if a != head {
        var i := IndexOf(Addrs(bs), a);
        AlignedArithmetic(a, 32);
        assert Within(bs[i], a) && Within(bs[i], a + HEADER);
        OwnsByOne(bs, |bs|, a);
        OwnsByOne(bs, |bs|, a + HEADER);
      }
    }
  }

  lemma FreesAreNodes(head: int, s: Arena)
    requires FreesExact(s) && Nodes(head, Addrs(s.blocks))
    ensures Nodes(head, s.frees) && Elements(s.frees) <= NodeSet(head, s.blocks)
  {
    forall y | y in s.frees ensures y in Addrs(s.blocks) {
      assert y in Elements(s.frees);
      InFreeAddrs(s.blocks, |s.blocks|, y);
      var i :| 0 <= i < |s.blocks| && s.blocks[i].addr == y;
      assert Addrs(s.blocks)[i] == y;
    }
  }

  ghost function Opening(head: int, s: Arena, nodes: set<int>, freeNodes: set<int>, claims: set<Block>): Desc {
    Desc(head, nodes, freeNodes, Addrs(s.blocks), s.frees, claims)
  }

  lemma Begin(m: Memory, head: int, s: Arena, nodes: set<int>, freeNodes: set<int>, claims: set<Block>)
    requires GoodBut(m, head, s, claims) && claims <= Members(s.blocks)
    requires NodeSet(head, s.blocks) <= nodes && Spread(nodes) && forall a :: a in nodes ==> a in m && a + HEADER in m
    requires {head} + Elements(s.frees) <= freeNodes <= nodes
    ensures Describes(m, Opening(head, s, nodes, freeNodes, claims))
  {
    NodesSpread(head, s.blocks);
    FreesAreNodes(head, s);
    forall b | b in claims ensures b.addr in nodes {
      var i :| 0 <= i < |s.blocks| && s.blocks[i] == b;
      assert Addrs(s.blocks)[i] == b.addr;
    }
  }

  // ---------------------------------------------------------------- splitting a free block (lines 74-94)

  ghost function SplitArena(s: Arena, pre: seq<Block>, b: Block, post: seq<Block>, k: nat, need: int): Arena
    requires k < |s.frees|
  {
    Arena(pre + [Block(b.addr, need, true), Block(b.addr + need, b.size - need, false)] + post,
          s.frees[k := b.addr + need])
  }

  lemma SameCells(b: Block, need: int)
    requires 0 < need < b.size
    ensures forall x :: Owns([Block(b.addr, need, true), Block(b.addr + need, b.size - need, false)], x) <==>
      Owns([b], x)
  {
    var mid := [Block(b.addr, need, true), Block(b.addr + need, b.size - need, false)];
    forall x ensures Owns(mid, x) <==> Owns([b], x) {
      OwnsByOne(mid, 2, x);
      OwnsByOne([b], 1, x);
      assert Within(mid[0], x) || Within(mid[1], x) <==> Within([b][0], x);
    }
  }

  lemma SplitShape(head: int, s: Arena, pre: seq<Block>, b: Block, post: seq<Block>, k: nat, need: int)
    requires Shaped(s) && Clear(s.blocks, head, 2 * HEADER) && s.blocks == pre + [b] + post
    requires k < |s.frees| && s.frees[k] == b.addr && !b.used && Sized([b])
    requires Aligned(need) && 2 * HEADER <= need <= b.size - 2 * HEADER
    ensures var t := SplitArena(s, pre, b, post, k, need);
      && Shaped(t) && Clear(t.blocks, head, 2 * HEADER)
      && Addrs(t.blocks) == Addrs(pre) + [b.addr] + [b.addr + need] + Addrs(post)
      && Addrs(s.blocks) == Addrs(pre) + [b.addr] + Addrs(post)
  {
    var t := SplitArena(s, pre, b, post, k, need);
    var mid := [Block(b.addr, need, true), Block(b.addr + need, b.size - need, false)];
    CarveSplitShaped(s, pre, b, post, k, need);
    ClearThree(pre, [b], post, head, 2 * HEADER);
    ClearThree(pre, mid, post, head, 2 * HEADER);
    assert Clear(mid, head, 2 * HEADER) by { assert [b][0] == b; }
    AddrsThree(pre, mid, post);
    AddrsThree(pre, [b], post);
    assert Addrs(mid) == [b.addr] + [b.addr + need] && Addrs([b]) == [b.addr];
  }

  lemma SplitMaps(m: Memory, m': Memory, head: int, s: Arena, pre: seq<Block>, b: Block, post: seq<Block>, k: nat,
                  need: int)
    requires Maps(m, head, s.blocks) && s.blocks == pre + [b] + post && k < |s.frees| && 0 < need < b.size
    requires m'.Keys == m.Keys
    ensures Maps(m', head, SplitArena(s, pre, b, post, k, need).blocks)
  {
    SameCells(b, need);
    OwnsSplice(pre, [b], post, [Block(b.addr, need, true), Block(b.addr + need, b.size - need, false)]);
    MapsSame(m, m', head, s.blocks, SplitArena(s, pre, b, post, k, need).blocks);
  }

  /** The description before the first store of a split. */
  lemma SplitBegin(m: Memory, head: int, s: Arena, pre: seq<Block>, b: Block, post: seq<Block>, k: nat, need: int)
    returns (d: Desc)
    requires Good(m, head, s) && s.blocks == pre + [b] + post && k < |s.frees| && s.frees[k] == b.addr && !b.used
    requires Sized([b]) && Aligned(need) && 2 * HEADER <= need <= b.size - 2 * HEADER
    ensures var t := SplitArena(s, pre, b, post, k, need);
      && Describes(m, d) && d.head == head && d.nodes == NodeSet(head, t.blocks)
      && d.freeNodes == {head} + Elements(s.frees) + Elements(t.frees)
      && d.bs == Addrs(pre) + [b.addr] + Addrs(post) && d.fs == s.frees && d.claims == Members(s.blocks)
  {
    var t := SplitArena(s, pre, b, post, k, need);
    SplitShape(head, s, pre, b, post, k, need);
    NodesSpread(head, t.blocks);
    FreesAreNodes(head, t);
    NodesSpread(head, s.blocks);
    FreesAreNodes(head, s);
    SplitMaps(m, m, head, s, pre, b, post, k, need);
    NodesMapped(m, head, t.blocks);
    d := Opening(head, s, NodeSet(head, t.blocks), {head} + Elements(s.frees) + Elements(t.frees), Members(s.blocks));
    Begin(m, head, s, d.nodes, d.freeNodes, d.claims);
  }

  lemma KeptTrans(m0: Memory, m1: Memory, m2: Memory, nodes: set<int>, freeNodes: set<int>)
    requires Kept(m0, m1, nodes, freeNodes) && Kept(m1, m2, nodes, freeNodes)
    ensures Kept(m0, m2, nodes, freeNodes)
  {
    forall x | x in m0 && x !in nodes && x - HEADER !in freeNodes ensures m2[x] == m0[x] {
      assert x in m1 && m1[x] == m0[x];
    }
  }

  /** Blocks before and after a stretch of addresses are at none of them. */
  lemma AddrsElsewhere(pre: seq<Block>, mid: seq<int>, post: seq<Block>, a: int)
    requires Distinct(Addrs(pre) + mid + Addrs(post)) && a in mid
    ensures forall c :: c in Members(pre) + Members(post) ==> c.addr != a
  {
    DistinctConcat(Addrs(pre) + mid, Addrs(post));
    DistinctConcat(Addrs(pre), mid);
    assert a in Elements(mid);
    forall c | c in Members(pre) + Members(post) ensures c.addr != a {
      if c in pre {
        var i :| 0 <= i < |pre| && pre[i] == c;
        assert Addrs(pre)[i] == c.addr && c.addr in Elements(Addrs(pre));
      } else {
        var i :| 0 <= i < |post| && post[i] == c;
        assert Addrs(post)[i] == c.addr && c.addr in Elements(Addrs(post));
      }
    }
  }

  lemma SplitRefines(m0: Memory, m1: Memory, m2: Memory, m3: Memory, m4: Memory, head: int, s: Arena,
                     pre: seq<Block>, b: Block, post: seq<Block>, k: nat, need: int)
    requires Good(m0, head, s) && s.blocks == pre + [b] + post && k < |s.frees| && s.frees[k] == b.addr && !b.used
    requires Sized([b]) && Aligned(need) && 2 * HEADER <= need <= b.size - 2 * HEADER
    requires Heading(m0, m1, b.addr + need, FREE, b.size - need) && Heading(m1, m2, b.addr, USED, need)
    requires Linking(Blocks, m2, m3, b.addr, b.addr + need, Next(Blocks, m0, b.addr))
    requires Linking(Frees, m3, m4, Prev(Frees, m0, b.addr), b.addr + need, Next(Frees, m0, b.addr))
    ensures var t := SplitArena(s, pre, b, post, k, need);
      && Good(m4, head, t)
      && Kept(m0, m4, NodeSet(head, t.blocks), {head} + Elements(s.frees) + Elements(t.frees))
  {
    hide Describes, Heading, Linking, Nodes, Members, Headers, Rings, Kept, Sized, Clear, Shaped, Elements, Addrs;
    var d0 := SplitBegin(m0, head, s, pre, b, post, k, need);
    var t := SplitArena(s, pre, b, post, k, need);
    SplitShape(head, s, pre, b, post, k, need);
    SplitNodes(head, t, |pre|, k);
    SplitSteps(m0, m1, m2, m3, m4, d0, pre, b, post, t.blocks, s.frees, k, need);
    SplitMaps(m0, m4, head, s, pre, b, post, k, need);
  }

  lemma SplitSteps(m0: Memory, m1: Memory, m2: Memory, m3: Memory, m4: Memory, d0: Desc,
                   pre: seq<Block>, b: Block, post: seq<Block>, bs: seq<Block>, fs: seq<int>, k: nat, need: int)
    requires k < |fs| && fs[k] == b.addr
    requires bs == pre + [Block(b.addr, need, true), Block(b.addr + need, b.size - need, false)] + post
    requires Addrs(bs) == Addrs(pre) + [b.addr] + [b.addr + need] + Addrs(post)
    requires Describes(m0, d0) && d0.bs == Addrs(pre) + [b.addr] + Addrs(post) && d0.fs == fs
    requires d0.claims == Members(pre + [b] + post)
    requires Nodes(d0.head, Addrs(bs)) && {b.addr, b.addr + need} <= d0.nodes
    requires Nodes(d0.head, fs[k := b.addr + need]) && b.addr + need in d0.freeNodes
    requires Heading(m0, m1, b.addr + need, FREE, b.size - need) && Heading(m1, m2, b.addr, USED, need)
    requires Linking(Blocks, m2, m3, b.addr, b.addr + need, Next(Blocks, m0, b.addr))
    requires Linking(Frees, m3, m4, Prev(Frees, m0, b.addr), b.addr + need, Next(Frees, m0, b.addr))
    ensures Rings(m4, d0.head, Addrs(bs), fs[k := b.addr + need])
    ensures Tag(m4, d0.head) == HEAD && Headers(m4, Members(bs)) && Kept(m0, m4, d0.nodes, d0.freeNodes)
  {
    var d2 := SplitHeadings(m0, m1, m2, d0, pre, b, post, need, bs);
    var d4 := SplitLinks(m0, m2, m3, m4, d0, d2, Addrs(pre), b.addr, Addrs(post), fs, k, b.addr + need);
    KeptTrans(m0, m2, m4, d0.nodes, d0.freeNodes);
  }

  lemma SplitNodes(head: int, t: Arena, i: nat, k: nat)
    requires Shaped(t) && Clear(t.blocks, head, 2 * HEADER) && i + 1 < |t.blocks| && k < |t.frees|
    ensures Nodes(head, Addrs(t.blocks)) && Nodes(head, t.frees)
    ensures {t.blocks[i].addr, t.blocks[i + 1].addr} <= NodeSet(head, t.blocks) && t.frees[k] in Elements(t.frees)
  {
    NodesSpread(head, t.blocks);
    FreesAreNodes(head, t);
    assert Addrs(t.blocks)[i] == t.blocks[i].addr && Addrs(t.blocks)[i + 1] == t.blocks[i + 1].addr;
  }

  lemma SplitHeadings(m0: Memory, m1: Memory, m2: Memory, d0: Desc, pre: seq<Block>, b: Block, post: seq<Block>,
                      need: int, bs: seq<Block>)
    returns (d2: Desc)
    requires bs == pre + [Block(b.addr, need, true), Block(b.addr + need, b.size - need, false)] + post
    requires Describes(m0, d0) && d0.claims == Members(pre + [b] + post)
    requires Nodes(d0.head, Addrs(pre) + [b.addr] + [b.addr + need] + Addrs(post))
    requires {b.addr, b.addr + need} <= d0.nodes
    requires Heading(m0, m1, b.addr + need, FREE, b.size - need) && Heading(m1, m2, b.addr, USED, need)
    ensures Describes(m2, d2) && d2 == d0.(claims := d2.claims) && Kept(m0, m2, d0.nodes, d0.freeNodes)
    ensures d2.claims == Members(bs)
  {
    var x, y := Block(b.addr, need, true), Block(b.addr + need, b.size - need, false);
    var ds, rest := Addrs(pre) + [b.addr] + [b.addr + need] + Addrs(post), Members(pre) + Members(post);
    assert ds == Addrs(pre) + [b.addr, b.addr + need] + Addrs(post);
    assert ds[|pre|] == b.addr && ds[|pre| + 1] == b.addr + need;
    AddrsElsewhere(pre, [b.addr, b.addr + need], post, b.addr);
    AddrsElsewhere(pre, [b.addr, b.addr + need], post, b.addr + need);
    HeadingStep(m0, m1, d0, y, rest + {y});
    var d1 := d0.(claims := rest + {y});
    HeadingStep(m1, m2, d1, x, rest + {x, y});
    d2 := d0.(claims := rest + {x, y});
    KeptTrans(m0, m1, m2, d0.nodes, d0.freeNodes);
  }

  lemma SplitLinks(m0: Memory, m2: Memory, m3: Memory, m4: Memory, d0: Desc, d2: Desc,
                   ps: seq<int>, fp: int, qs: seq<int>, fs: seq<int>, k: nat, nfp: int) returns (d4: Desc)
    requires Describes(m0, d0) && Describes(m2, d2) && d2 == d0.(claims := d2.claims)
    requires d0.bs == ps + [fp] + qs && d0.fs == fs && k < |fs| && fs[k] == fp
    requires Nodes(d0.head, ps + [fp] + [nfp] + qs) && Nodes(d0.head, fs[k := nfp]) && nfp in d0.freeNodes
    requires Linking(Blocks, m2, m3, fp, nfp, Next(Blocks, m0, fp))
    requires Linking(Frees, m3, m4, Prev(Frees, m0, fp), nfp, Next(Frees, m0, fp))
    ensures Describes(m4, d4) && d4 == d2.(bs := ps + [fp] + [nfp] + qs, fs := fs[k := nfp])
    ensures Kept(m2, m4, d0.nodes, d0.freeNodes)
  {
    var xs, ys := fs[..k], fs[k + 1..];
    assert fs == xs + [fp] + ys && fs[k := nfp] == xs + [nfp] + ys;
    RingAt(Blocks, m0, d0.head, ps, fp, qs);
    RingAt(Frees, m0, d0.head, xs, fp, ys);
    assert Last(d0.head, ps + [fp]) == fp;
    LinkBlockStep(m2, m3, d2, ps + [fp], nfp, qs);
    var d3 := d2.(bs := ps + [fp] + [nfp] + qs);
    LinkFreeStep(m3, m4, d3, xs, [fp], nfp, ys);
    d4 := d3.(fs := xs + [nfp] + ys);
    KeptTrans(m2, m3, m4, d0.nodes, d0.freeNodes);
  }

  // ---------------------------------------------------------------- operations that add no block

  /** The description before the first store when every node used is already a block. */
  lemma Enter(m: Memory, head: int, s: Arena, freeNodes: set<int>, claims: set<Block>) returns (d: Desc)
    requires GoodBut(m, head, s, claims) && claims <= Members(s.blocks)
    requires {head} + Elements(s.frees) <= freeNodes <= NodeSet(head, s.blocks)
    ensures Describes(m, d) && d == Desc(head, NodeSet(head, s.blocks), freeNodes, Addrs(s.blocks), s.frees, claims)
  {
    NodesSpread(head, s.blocks);
    NodesMapped(m, head, s.blocks);
    d := Opening(head, s, NodeSet(head, s.blocks), freeNodes, claims);
    Begin(m, head, s, d.nodes, d.freeNodes, d.claims);
  }

  lemma AddrIn(head: int, pre: seq<Block>, b: Block, post: seq<Block>, bs: seq<Block>)
    requires bs == pre + [b] + post
    ensures b.addr in NodeSet(head, bs) && Addrs(bs) == Addrs(pre) + [b.addr] + Addrs(post)
  {
    AddrsThree(pre, [b], post);
    assert Addrs([b]) == [b.addr];
    assert Addrs(bs)[|pre|] == b.addr;
  }

  lemma PairIn(pre: seq<Block>, b: Block, n: Block, post: seq<Block>, bs: seq<Block>)
    requires bs == pre + [b, n] + post
    ensures Addrs(bs) == Addrs(pre) + [b.addr] + [n.addr] + Addrs(post) && Members(pre + post) <= Members(bs)
  {
    AddrsThree(pre, [b, n], post);
    assert Addrs([b, n]) == [b.addr] + [n.addr];
  }

  lemma RetagCells(b: Block, c: Block)
    requires b.addr == c.addr && b.size == c.size
    ensures forall x :: Owns([c], x) <==> Owns([b], x)
  {
    forall x ensures Owns([c], x) <==> Owns([b], x) {
      OwnsByOne([b], 1, x);
      OwnsByOne([c], 1, x);
      assert Within([b][0], x) <==> Within([c][0], x);
    }
  }

  lemma SpliceMaps(m: Memory, m': Memory, head: int, pre: seq<Block>, seg: seq<Block>, post: seq<Block>,
                   mid: seq<Block>, bs: seq<Block>, bs': seq<Block>)
    requires Maps(m, head, bs) && bs == pre + seg + post && bs' == pre + mid + post && m'.Keys == m.Keys
    requires forall x :: Owns(mid, x) <==> Owns(seg, x)
    ensures Maps(m', head, bs')
  {
    OwnsSplice(pre, seg, post, mid);
    MapsSame(m, m', head, bs, bs');
  }

  // Lines 95-98: the whole block is handed out.

  ghost function WholeArena(s: Arena, pre: seq<Block>, b: Block, post: seq<Block>, k: nat): Arena
    requires k < |s.frees|
  {
    Arena(pre + [b.(used := true)] + post, Removed(s.frees, k))
  }

  lemma RetagShape(head: int, pre: seq<Block>, b: Block, c: Block, post: seq<Block>, bs: seq<Block>, bs': seq<Block>)
    requires Clear(bs, head, 2 * HEADER) && bs == pre + [b] + post && bs' == pre + [c] + post
    requires b.addr == c.addr && b.size == c.size
    ensures Clear(bs', head, 2 * HEADER) && Addrs(bs') == Addrs(bs)
  {
    ClearThree(pre, [b], post, head, 2 * HEADER);
    ClearThree(pre, [c], post, head, 2 * HEADER);
    assert Clear([c], head, 2 * HEADER) by { assert [b][0] == b; }
    AddrsThree(pre, [b], post);
    AddrsThree(pre, [c], post);
    assert Addrs([b]) == Addrs([c]);
  }

  lemma WholeRefines(m0: Memory, m1: Memory, m2: Memory, head: int, s: Arena, pre: seq<Block>, b: Block,
                     post: seq<Block>, k: nat)
    requires Good(m0, head, s) && s.blocks == pre + [b] + post && k < |s.frees| && s.frees[k] == b.addr && !b.used
    requires Sized([b])
    requires Heading(m0, m1, b.addr, USED, b.size)
    requires Unlinking(Frees, m1, m2, Prev(Frees, m0, b.addr), Next(Frees, m0, b.addr))
    ensures Good(m2, head, WholeArena(s, pre, b, post, k))
    ensures Kept(m0, m2, NodeSet(head, s.blocks), {head} + Elements(s.frees))
  {
    var t := WholeArena(s, pre, b, post, k);
    CarveWholeShaped(s, pre, b, post, k);
    RetagShape(head, pre, b, b.(used := true), post, s.blocks, t.blocks);
    NodesSpread(head, s.blocks);
    FreesAreNodes(head, s);
    AddrIn(head, pre, b, post, s.blocks);
    var d0 := Enter(m0, head, s, {head} + Elements(s.frees), Members(s.blocks));
    WholeSteps(m0, m1, m2, d0, pre, b, post, t.blocks, k);
    RetagCells(b, b.(used := true));
    SpliceMaps(m0, m2, head, pre, [b], post, [b.(used := true)], s.blocks, t.blocks);
  }

  lemma WholeSteps(m0: Memory, m1: Memory, m2: Memory, d0: Desc, pre: seq<Block>, b: Block, post: seq<Block>,
                   bs: seq<Block>, k: nat)
    requires Describes(m0, d0) && d0.bs == Addrs(pre) + [b.addr] + Addrs(post) && d0.claims == Members(pre + [b] + post)
    requires k < |d0.fs| && d0.fs[k] == b.addr && b.addr in d0.nodes
    requires bs == pre + [b.(used := true)] + post
    requires Heading(m0, m1, b.addr, USED, b.size)
    requires Unlinking(Frees, m1, m2, Prev(Frees, m0, b.addr), Next(Frees, m0, b.addr))
    ensures Rings(m2, d0.head, d0.bs, Removed(d0.fs, k))
    ensures Tag(m2, d0.head) == HEAD && Headers(m2, Members(bs)) && Kept(m0, m2, d0.nodes, d0.freeNodes)
  {
    AddrsElsewhere(pre, [b.addr], post, b.addr);
    assert d0.bs[|pre|] == b.addr;
    HeadingStep(m0, m1, d0, b.(used := true), Members(bs));
    var d1, xs, ys := d0.(claims := Members(bs)), d0.fs[..k], d0.fs[k + 1..];
    assert d0.fs == xs + [b.addr] + ys;
    RingAt(Frees, m0, d0.head, xs, b.addr, ys);
    UnlinkFreeStep(m1, m2, d1, xs, b.addr, ys);
    KeptTrans(m0, m1, m2, d0.nodes, d0.freeNodes);
  }

  // Lines 119-127: a released block enters the free chain at its front.

  ghost function MarkedArena(s: Arena, pre: seq<Block>, b: Block, post: seq<Block>): Arena {
    Arena(pre + [b.(used := false)] + post, [b.addr] + s.frees)
  }

  lemma MarkRefines(m0: Memory, m1: Memory, m2: Memory, head: int, s: Arena, pre: seq<Block>, b: Block,
                    post: seq<Block>)
    requires GoodBut(m0, head, s, Members(pre + post)) && s.blocks == pre + [b] + post && b.used && Sized([b])
    requires Heading(m0, m1, b.addr, FREE, b.size)
    requires Linking(Frees, m1, m2, head, b.addr, Next(Frees, m0, head))
    ensures Good(m2, head, MarkedArena(s, pre, b, post))
    ensures Kept(m0, m2, NodeSet(head, s.blocks), {head} + Elements(s.frees) + {b.addr})
  {
    var t := MarkedArena(s, pre, b, post);
    MarkShaped(s, pre, b, post);
    RetagShape(head, pre, b, b.(used := false), post, s.blocks, t.blocks);
    NodesSpread(head, t.blocks);
    FreesAreNodes(head, t);
    FreesAreNodes(head, s);
    AddrIn(head, pre, b, post, s.blocks);
    assert Members(pre + post) <= Members(s.blocks);
    var d0 := Enter(m0, head, s, {head} + Elements(s.frees) + {b.addr}, Members(pre + post));
    MarkSteps(m0, m1, m2, d0, pre, b, post, t.blocks);
    RetagCells(b, b.(used := false));
    SpliceMaps(m0, m2, head, pre, [b], post, [b.(used := false)], s.blocks, t.blocks);
  }

  lemma MarkSteps(m0: Memory, m1: Memory, m2: Memory, d0: Desc, pre: seq<Block>, b: Block, post: seq<Block>,
                  bs: seq<Block>)
    requires Describes(m0, d0) && d0.bs == Addrs(pre) + [b.addr] + Addrs(post) && d0.claims == Members(pre + post)
    requires b.addr in d0.freeNodes && Nodes(d0.head, [b.addr] + d0.fs)
    requires bs == pre + [b.(used := false)] + post
    requires Heading(m0, m1, b.addr, FREE, b.size)
    requires Linking(Frees, m1, m2, d0.head, b.addr, Next(Frees, m0, d0.head))
    ensures Rings(m2, d0.head, d0.bs, [b.addr] + d0.fs)
    ensures Tag(m2, d0.head) == HEAD && Headers(m2, Members(bs)) && Kept(m0, m2, d0.nodes, d0.freeNodes)
  {
    hide Linking, Kept;
    AddrsElsewhere(pre, [b.addr], post, b.addr);
    assert d0.bs[|pre|] == b.addr;
    HeadingStep(m0, m1, d0, b.(used := false), Members(bs));
    var d1 := d0.(claims := Members(bs));
    assert d0.fs == [] + d0.fs == [] + [] + d0.fs && [] + [b.addr] + d0.fs == [b.addr] + d0.fs;
    hide Heading, Linking, Headers, Members;
    SplitRing(Frees, m0, d0.head, [], d0.fs);
    LinkFreeStep(m1, m2, d1, [], [], b.addr, d0.fs);
    KeptTrans(m0, m1, m2, d0.nodes, d0.freeNodes);
  }

  // Lines 109-118 and 131-137: two neighbouring blocks become one.

  ghost function JoinedArena(pre: seq<Block>, l: Block, b: Block, post: seq<Block>, fr: seq<int>): Arena {
    Arena(pre + [Block(l.addr, l.size + b.size, false)] + post, fr)
  }

  lemma JoinCells(l: Block, b: Block, c: Block)
    requires l.End() == b.addr && l.size > 0 && b.size > 0 && c.addr == l.addr && c.size == l.size + b.size
    ensures forall x :: Owns([c], x) <==> Owns([l, b], x)
  {
    forall x ensures Owns([c], x) <==> Owns([l, b], x) {
      OwnsByOne([l, b], 2, x);
      OwnsByOne([c], 1, x);
      assert Within([l, b][0], x) || Within([l, b][1], x) <==> Within([c][0], x);
    }
  }

  lemma JoinShape(head: int, s: Arena, pre: seq<Block>, l: Block, b: Block, post: seq<Block>, fr: seq<int>)
    requires Shaped(s) && Clear(s.blocks, head, 2 * HEADER) && s.blocks == pre + [l, b] + post && Sized([l, b])
    requires !l.used && l.End() == b.addr && Distinct(fr) && Elements(fr) == Elements(s.frees) - FreeAddrs([b])
    ensures var t := JoinedArena(pre, l, b, post, fr);
      && Shaped(t) && Clear(t.blocks, head, 2 * HEADER) && Addrs(t.blocks) == Addrs(pre) + [l.addr] + Addrs(post)
      && Addrs(s.blocks) == Addrs(pre) + [l.addr] + [b.addr] + Addrs(post)
  {
    var t, c := JoinedArena(pre, l, b, post, fr), Block(l.addr, l.size + b.size, false);
    JoinShaped(s, pre, l, b, post, fr);
    ClearThree(pre, [l, b], post, head, 2 * HEADER);
    ClearThree(pre, [c], post, head, 2 * HEADER);
    assert Clear([c], head, 2 * HEADER) by { assert [l, b][0] == l && [l, b][1] == b; }
    AddrsThree(pre, [l, b], post);
    AddrsThree(pre, [c], post);
    assert Addrs([l, b]) == [l.addr] + [b.addr] && Addrs([c]) == [l.addr];
  }

  lemma JoinMaps(m: Memory, m': Memory, head: int, s: Arena, pre: seq<Block>, l: Block, b: Block, post: seq<Block>,
                 fr: seq<int>)
    requires Maps(m, head, s.blocks) && s.blocks == pre + [l, b] + post && Sized([l, b]) && l.End() == b.addr
    requires m'.Keys == m.Keys
    ensures Maps(m', head, JoinedArena(pre, l, b, post, fr).blocks)
  {
    var c := Block(l.addr, l.size + b.size, false);
    assert [l, b][0].size > 0 && [l, b][1].size > 0;
    JoinCells(l, b, c);
    SpliceMaps(m, m', head, pre, [l, b], post, [c], s.blocks, JoinedArena(pre, l, b, post, fr).blocks);
  }

  /** The header of the merged block is written. */
  lemma JoinHeading(m0: Memory, m1: Memory, d0: Desc, pre: seq<Block>, l: Block, b: Block, post: seq<Block>,
                    bs: seq<Block>)
    returns (d1: Desc)
    requires Describes(m0, d0) && d0.bs == Addrs(pre) + [l.addr] + [b.addr] + Addrs(post)
    requires Members(pre + post) <= d0.claims
    requires bs == pre + [Block(l.addr, l.size + b.size, false)] + post
    requires Heading(m0, m1, l.addr, FREE, l.size + b.size)
    ensures Describes(m1, d1) && d1 == d0.(claims := Members(bs)) && Kept(m0, m1, d0.nodes, d0.freeNodes)
  {
    assert d0.bs == Addrs(pre) + [l.addr, b.addr] + Addrs(post);
    AddrsElsewhere(pre, [l.addr, b.addr], post, l.addr);
    assert d0.bs[|pre|] == l.addr && l.addr in Elements(d0.bs);
    HeadingStep(m0, m1, d0, Block(l.addr, l.size + b.size, false), Members(bs));
    d1 := d0.(claims := Members(bs));
  }

  lemma JoinUnlink(m0: Memory, m1: Memory, m2: Memory, d0: Desc, d1: Desc, ps: seq<int>, l: int, b: int, qs: seq<int>)
    requires Describes(m0, d0) && Describes(m1, d1) && d0.bs == d1.bs == ps + [l] + [b] + qs && d1.head == d0.head
    requires Unlinking(Blocks, m1, m2, l, Next(Blocks, m0, b))
    ensures Describes(m2, d1.(bs := ps + [l] + qs)) && Kept(m1, m2, d1.nodes, d1.freeNodes)
  {
    RingAt(Blocks, m0, d0.head, ps + [l], b, qs);
    assert Last(d0.head, ps + [l]) == l;
    UnlinkBlockStep(m1, m2, d1, ps + [l], b, qs);
  }

  lemma JoinLeftRefines(m0: Memory, m1: Memory, m2: Memory, head: int, s: Arena, pre: seq<Block>, l: Block, b: Block,
                        post: seq<Block>)
    requires GoodBut(m0, head, s, Members(pre + [l] + post)) && s.blocks == pre + [l, b] + post && Sized([l, b])
    requires !l.used && b.used && l.End() == b.addr
    requires Heading(m0, m1, l.addr, FREE, l.size + b.size)
    requires Unlinking(Blocks, m1, m2, l.addr, Next(Blocks, m0, b.addr))
    ensures Good(m2, head, JoinedArena(pre, l, b, post, s.frees))
    ensures Kept(m0, m2, NodeSet(head, s.blocks), {head} + Elements(s.frees))
  {
    var t := JoinedArena(pre, l, b, post, s.frees);
    Singleton(b);
    JoinShape(head, s, pre, l, b, post, s.frees);
    NodesSpread(head, s.blocks);
    FreesAreNodes(head, s);
    assert Members(pre + [l] + post) <= Members(s.blocks);
    var d0 := Enter(m0, head, s, {head} + Elements(s.frees), Members(pre + [l] + post));
    var d1 := JoinHeading(m0, m1, d0, pre, l, b, post, t.blocks);
    JoinUnlink(m0, m1, m2, d0, d1, Addrs(pre), l.addr, b.addr, Addrs(post));
    KeptTrans(m0, m1, m2, d0.nodes, d0.freeNodes);
    JoinMaps(m0, m2, head, s, pre, l, b, post, s.frees);
  }

  lemma AbsorbRefines(m0: Memory, m1: Memory, m2: Memory, m3: Memory, head: int, s: Arena,
                      pre: seq<Block>, b: Block, n: Block, post: seq<Block>, k: nat)
    requires Good(m0, head, s) && s.blocks == pre + [b, n] + post && Sized([b, n])
    requires !b.used && !n.used && b.End() == n.addr && k < |s.frees| && s.frees[k] == n.addr
    requires Heading(m0, m1, b.addr, FREE, b.size + n.size)
    requires Unlinking(Frees, m1, m2, Prev(Frees, m1, n.addr), Next(Frees, m1, n.addr))
    requires Unlinking(Blocks, m2, m3, Prev(Blocks, m2, n.addr), Next(Blocks, m2, n.addr))
    ensures Good(m3, head, JoinedArena(pre, b, n, post, Removed(s.frees, k)))
    ensures Kept(m0, m3, NodeSet(head, s.blocks), {head} + Elements(s.frees))
  {
    AbsorbShape(head, s, pre, b, n, post, k);
    AbsorbRings(m0, m1, m2, m3, head, s, pre, b, n, post, JoinedArena(pre, b, n, post, Removed(s.frees, k)).blocks, k);
    JoinMaps(m0, m3, head, s, pre, b, n, post, Removed(s.frees, k));
  }

  lemma AbsorbShape(head: int, s: Arena, pre: seq<Block>, b: Block, n: Block, post: seq<Block>, k: nat)
    requires Shaped(s) && Clear(s.blocks, head, 2 * HEADER) && s.blocks == pre + [b, n] + post && Sized([b, n])
    requires !b.used && !n.used && b.End() == n.addr && k < |s.frees| && s.frees[k] == n.addr
    ensures var t := JoinedArena(pre, b, n, post, Removed(s.frees, k));
      && Shaped(t) && Clear(t.blocks, head, 2 * HEADER) && Addrs(t.blocks) == Addrs(pre) + [b.addr] + Addrs(post)
  {
    Singleton(n);
    RemovedElements(s.frees, k);
    JoinShape(head, s, pre, b, n, post, Removed(s.frees, k));
  }

  lemma AbsorbRings(m0: Memory, m1: Memory, m2: Memory, m3: Memory, head: int, s: Arena,
                    pre: seq<Block>, b: Block, n: Block, post: seq<Block>, bs: seq<Block>, k: nat)
    requires Good(m0, head, s) && s.blocks == pre + [b, n] + post && k < |s.frees| && s.frees[k] == n.addr
    requires bs == pre + [Block(b.addr, b.size + n.size, false)] + post
    requires Heading(m0, m1, b.addr, FREE, b.size + n.size)
    requires Unlinking(Frees, m1, m2, Prev(Frees, m1, n.addr), Next(Frees, m1, n.addr))
    requires Unlinking(Blocks, m2, m3, Prev(Blocks, m2, n.addr), Next(Blocks, m2, n.addr))
    ensures Rings(m3, head, Addrs(pre) + [b.addr] + Addrs(post), Removed(s.frees, k))
    ensures Tag(m3, head) == HEAD && Headers(m3, Members(bs))
    ensures Kept(m0, m3, NodeSet(head, s.blocks), {head} + Elements(s.frees))
  {
    NodesSpread(head, s.blocks);
    FreesAreNodes(head, s);
    var d0 := Enter(m0, head, s, {head} + Elements(s.frees), Members(s.blocks));
    PairIn(pre, b, n, post, s.blocks);
    AbsorbSteps(m0, m1, m2, m3, d0, pre, b, n, post, bs, k);
  }

  lemma AbsorbSteps(m0: Memory, m1: Memory, m2: Memory, m3: Memory, d0: Desc,
                    pre: seq<Block>, b: Block, n: Block, post: seq<Block>, bs: seq<Block>, k: nat)
    requires Describes(m0, d0) && d0.bs == Addrs(pre) + [b.addr] + [n.addr] + Addrs(post)
    requires Members(pre + post) <= d0.claims
    requires bs == pre + [Block(b.addr, b.size + n.size, false)] + post && k < |d0.fs| && d0.fs[k] == n.addr
    requires Heading(m0, m1, b.addr, FREE, b.size + n.size)
    requires Unlinking(Frees, m1, m2, Prev(Frees, m1, n.addr), Next(Frees, m1, n.addr))
    requires Unlinking(Blocks, m2, m3, Prev(Blocks, m2, n.addr), Next(Blocks, m2, n.addr))
    ensures Rings(m3, d0.head, Addrs(pre) + [b.addr] + Addrs(post), Removed(d0.fs, k))
    ensures Tag(m3, d0.head) == HEAD && Headers(m3, Members(bs)) && Kept(m0, m3, d0.nodes, d0.freeNodes)
  {
    var d1 := JoinHeading(m0, m1, d0, pre, b, n, post, bs);
    AbsorbUnlinks(m1, m2, m3, d1, Addrs(pre), b.addr, n.addr, Addrs(post), k);
    KeptTrans(m0, m1, m3, d0.nodes, d0.freeNodes);
  }

  lemma AbsorbUnlinks(m1: Memory, m2: Memory, m3: Memory, d1: Desc, ps: seq<int>, b: int, n: int, qs: seq<int>, k: nat)
    requires Describes(m1, d1) && d1.bs == ps + [b] + [n] + qs && k < |d1.fs| && d1.fs[k] == n
    requires Unlinking(Frees, m1, m2, Prev(Frees, m1, n), Next(Frees, m1, n))
    requires Unlinking(Blocks, m2, m3, Prev(Blocks, m2, n), Next(Blocks, m2, n))
    ensures Describes(m3, d1.(bs := ps + [b] + qs, fs := Removed(d1.fs, k)))
    ensures Kept(m1, m3, d1.nodes, d1.freeNodes)
  {
    var xs, ys := d1.fs[..k], d1.fs[k + 1..];
    assert d1.fs == xs + [n] + ys;
    RingAt(Frees, m1, d1.head, xs, n, ys);
    UnlinkFreeStep(m1, m2, d1, xs, n, ys);
    var d2 := d1.(fs := xs + ys);
    RingAt(Blocks, m2, d1.head, ps + [b], n, qs);
    UnlinkBlockStep(m2, m3, d2, ps + [b], n, qs);
    KeptTrans(m1, m2, m3, d1.nodes, d1.freeNodes);
  }

  // ---------------------------------------------------------------- mapping and unmapping

  predicate InRange(x: int, p: int, size: int) { p <= x < p + size && Aligned(x) }

  /** mmap: the range becomes accessible, everything else is as before. */
  ghost predicate Mapping(m: Memory, m': Memory, p: int, size: int) {
    && (forall x :: x in m' <==> x in m || InRange(x, p, size))
    && (forall x {:trigger m'[x]} :: x in m ==> m'[x] == m[x])
  }

  /** munmap: the range is gone, everything else is as before. */
  ghost predicate Unmapping(m: Memory, m': Memory, p: int, size: int) {
    && (forall x :: x in m' <==> x in m && !InRange(x, p, size))
    && (forall x {:trigger m'[x]} :: x in m' ==> m'[x] == m[x])
  }

  /** Both chains and the headers live in the cells of the nodes. */
  lemma CarryOver(m: Memory, m': Memory, head: int, bs: seq<int>, fs: seq<int>, claims: set<Block>, nodes: set<int>)
    requires Rings(m, head, bs, fs) && Tag(m, head) == HEAD && Headers(m, claims)
    requires head in nodes && Elements(bs) <= nodes && Elements(fs) <= nodes
    requires forall b :: b in claims ==> b.addr in nodes
    requires forall a :: a in nodes ==> At(m', a) == At(m, a) && At(m', a + HEADER) == At(m, a + HEADER)
    ensures Rings(m', head, bs, fs) && Tag(m', head) == HEAD && Headers(m', claims)
  {
    forall y | y in bs ensures y in nodes { assert y in Elements(bs); }
    forall y | y in fs ensures y in nodes { assert y in Elements(fs); }
    RingSame(Blocks, m, m', head, bs);
    RingSame(Frees, m, m', head, fs);
  }

  lemma ClaimsAreNodes(head: int, bs: seq<Block>, claims: set<Block>)
    requires claims <= Members(bs)
    ensures forall b :: b in claims ==> b.addr in NodeSet(head, bs)
  {
    forall b | b in claims ensures b.addr in NodeSet(head, bs) {
      var i :| 0 <= i < |bs| && bs[i] == b;
      assert Addrs(bs)[i] == b.addr;
    }
  }

  lemma GrownMaps(m: Memory, m': Memory, head: int, pre: seq<Block>, b: Block, post: seq<Block>, bs: seq<Block>,
                  bs': seq<Block>)
    requires Maps(m, head, bs) && bs == pre + post && bs' == pre + [b] + post && Mapping(m, m', b.addr, b.size)
    ensures Maps(m', head, bs')
  {
    forall x ensures x in m' <==> (x == head || x == head + HEADER || Owns(bs', x)) {
      OwnsConcat(pre + [b], post, x);
      OwnsConcat(pre, [b], x);
      OwnsConcat(pre, post, x);
      OwnsByOne([b], 1, x);
      assert Within([b][0], x) <==> InRange(x, b.addr, b.size);
      assert x in m' <==> x in m || InRange(x, b.addr, b.size);
    }
  }

  // Lines 178-199: a new chunk is linked into the block list, sorted by address.

  lemma GrowRefines(m0: Memory, m1: Memory, m2: Memory, m3: Memory, head: int, s: Arena, t: Arena,
                    pre: seq<Block>, b: Block, post: seq<Block>)
    requires Good(m0, head, s) && s.blocks == pre + post && t == Arena(pre + [b] + post, s.frees)
    requires Shaped(t) && Clear(t.blocks, head, 2 * HEADER)
    requires Mapping(m0, m1, b.addr, b.size) && Heading(m1, m2, b.addr, FREE, b.size)
    requires Linking(Blocks, m2, m3, Last(head, Addrs(pre)), b.addr, Next(Blocks, m2, Last(head, Addrs(pre))))
    ensures GoodBut(m3, head, t, Members(s.blocks)) && Size(m3, b.addr) == b.size
    ensures Kept(m1, m3, NodeSet(head, t.blocks), {head} + Elements(s.frees))
  {
    GrownMaps(m0, m1, head, pre, b, post, s.blocks, t.blocks);
    var d1 := GrowEnter(m0, m1, head, s, t, pre, b, post);
    NodesSpread(head, t.blocks);
    GrownNodes(head, pre, b, post, s.blocks, t.blocks);
    GrowSteps(m1, m2, m3, d1, Addrs(pre), b, Addrs(post));
    MapsSame(m1, m3, head, t.blocks, t.blocks);
  }

  lemma GrowEnter(m0: Memory, m1: Memory, head: int, s: Arena, t: Arena, pre: seq<Block>, b: Block, post: seq<Block>)
    returns (d1: Desc)
    requires Good(m0, head, s) && s.blocks == pre + post && t == Arena(pre + [b] + post, s.frees)
    requires Shaped(t) && Clear(t.blocks, head, 2 * HEADER) && Mapping(m0, m1, b.addr, b.size)
    requires Maps(m1, head, t.blocks)
    ensures Describes(m1, d1)
    ensures d1
      == Desc(head, NodeSet(head, t.blocks), {head} + Elements(s.frees), Addrs(s.blocks), s.frees, Members(s.blocks))
  {
    NodesSpread(head, s.blocks);
    NodesMapped(m0, head, s.blocks);
    FreesAreNodes(head, s);
    ClaimsAreNodes(head, s.blocks, Members(s.blocks));
    CarryOver(m0, m1, head, Addrs(s.blocks), s.frees, Members(s.blocks), NodeSet(head, s.blocks));
    NodesSpread(head, t.blocks);
    NodesMapped(m1, head, t.blocks);
    GrownNodes(head, pre, b, post, s.blocks, t.blocks);
    d1 := Desc(head, NodeSet(head, t.blocks), {head} + Elements(s.frees), Addrs(s.blocks), s.frees, Members(s.blocks));
  }

  lemma GrownNodes(head: int, pre: seq<Block>, b: Block, post: seq<Block>, bs: seq<Block>, bs': seq<Block>)
    requires bs == pre + post && bs' == pre + [b] + post
    ensures NodeSet(head, bs) <= NodeSet(head, bs') && b.addr in NodeSet(head, bs')
    ensures Elements(Addrs(bs)) <= NodeSet(head, bs)
    ensures Addrs(bs) == Addrs(pre) + Addrs(post) && Addrs(bs') == Addrs(pre) + [b.addr] + Addrs(post)
    ensures forall c :: c in Members(bs) ==> c.addr in Addrs(pre) + Addrs(post)
  {
    AddrsThree(pre, [b], post);
    AddrsConcat(pre, post);
    assert Addrs([b]) == [b.addr];
    ElementsThree(Addrs(pre), b.addr, Addrs(post));
    forall c | c in Members(bs) ensures c.addr in Addrs(bs) {
      var i :| 0 <= i < |bs| && bs[i] == c;
      assert Addrs(bs)[i] == c.addr;
    }
  }

  lemma GrowSteps(m1: Memory, m2: Memory, m3: Memory, d1: Desc, ps: seq<int>, b: Block, qs: seq<int>)
    requires Describes(m1, d1) && d1.bs == ps + qs && b.addr in d1.nodes && Nodes(d1.head, ps + [b.addr] + qs)
    requires Heading(m1, m2, b.addr, FREE, b.size) && forall c :: c in d1.claims ==> c.addr in ps + qs
    requires Linking(Blocks, m2, m3, Last(d1.head, ps), b.addr, Next(Blocks, m2, Last(d1.head, ps)))
    ensures Describes(m3, d1.(bs := ps + [b.addr] + qs)) && Size(m3, b.addr) == b.size
    ensures Kept(m1, m3, d1.nodes, d1.freeNodes)
  {
    AroundNode(d1.head, ps, b.addr, qs);
    var claims := d1.claims + {b.(used := false)};
    HeadingStep(m1, m2, d1, b.(used := false), claims);
    var d2 := d1.(claims := claims);
    SplitRing(Blocks, m2, d1.head, ps, qs);
    LinkBlockStep(m2, m3, d2, ps, b.addr, qs);
    assert HeaderAt(m3, b.(used := false));
    KeptTrans(m1, m2, m3, d1.nodes, d1.freeNodes);
  }

  // ---------------------------------------------------------------- returning pages (lines 298-320)

  ghost function TailedArena(s: Arena, pre: seq<Block>, b: Block, post: seq<Block>, k: nat, t: int): Arena
    requires k < |s.frees|
  {
    Arena(pre + [Block(b.addr, b.size - t, false), Block(b.End() - t, t, false)] + post,
          s.frees[..k] + [b.End() - t] + s.frees[k..])
  }

  lemma TailSolid(b: Block, t: int)
    requires Sized([b]) && Aligned(t) && 2 * HEADER <= t <= b.size - 2 * HEADER
    ensures Solid([Block(b.addr, b.size - t, false), Block(b.End() - t, t, false)])
  {
    assert Aligned([b][0].addr) && Aligned([b][0].size);
    AlignedArithmetic(b.size, t);
    AlignedArithmetic(b.addr, b.size - t);
  }

  lemma TailShape(head: int, s: Arena, pre: seq<Block>, b: Block, post: seq<Block>, k: nat, t: int)
    requires Shaped(s) && Clear(s.blocks, head, 2 * HEADER) && s.blocks == pre + [b] + post && Sized([b])
    requires k < |s.frees| && s.frees[k] == b.addr && !b.used && Aligned(t) && 2 * HEADER <= t <= b.size - 2 * HEADER
    ensures var u := TailedArena(s, pre, b, post, k, t);
      Shaped(u) && Clear(u.blocks, head, 2 * HEADER)
  {
    hide FreesExact, Distinct, Elements, FreeAddrs, Clear, Ordered, Solid;
    var x, y := Block(b.addr, b.size - t, false), Block(b.End() - t, t, false);
    var u := TailedArena(s, pre, b, post, k, t);
    TailSolid(b, t);
    TailFrees(s, pre, b, post, k, t);
    Reshape(pre, [b], post, [x, y], s.frees, u.frees);
    hide Sized;
    TailClear(pre, b, post, head, t);
  }

  lemma TailClear(pre: seq<Block>, b: Block, post: seq<Block>, head: int, t: int)
    requires Clear(pre + [b] + post, head, 2 * HEADER) && 0 < t < b.size
    ensures Clear(pre + [Block(b.addr, b.size - t, false), Block(b.End() - t, t, false)] + post, head, 2 * HEADER)
  {
    var x, y := Block(b.addr, b.size - t, false), Block(b.End() - t, t, false);
    ClearThree(pre, [b], post, head, 2 * HEADER);
    ClearThree(pre, [x, y], post, head, 2 * HEADER);
    assert Clear([x, y], head, 2 * HEADER) by { assert [b][0] == b; }
  }

  lemma TailFrees(s: Arena, pre: seq<Block>, b: Block, post: seq<Block>, k: nat, t: int)
    requires Shaped(s) && s.blocks == pre + [b] + post && 0 < t < b.size
    requires k < |s.frees| && s.frees[k] == b.addr && !b.used
    ensures var fr := s.frees[..k] + [b.End() - t] + s.frees[k..];
      && Distinct(fr)
      && Elements(fr)
        == Elements(s.frees) - FreeAddrs([b])
          + FreeAddrs([Block(b.addr, b.size - t, false), Block(b.End() - t, t, false)])
  {
    var x, y := Block(b.addr, b.size - t, false), Block(b.End() - t, t, false);
    Singleton(b);
    Singleton(x);
    Singleton(y);
    Pair(x, y);
    Inside(pre, [b], post, s.frees, y.addr);
    hide Sized, Ordered;
    var xs, ys := s.frees[..k], s.frees[k..];
    CutAt(s.frees, k);
    DistinctConcat(xs, ys);
    DistinctConcat(xs, [y.addr]);
    DistinctConcat(xs + [y.addr], ys);
    assert b.addr in Elements(s.frees);
  }

  lemma TailRefines(m0: Memory, m1: Memory, m2: Memory, m3: Memory, head: int, s: Arena,
                    pre: seq<Block>, b: Block, post: seq<Block>, k: nat, t: int)
    requires Good(m0, head, s) && s.blocks == pre + [b] + post && Sized([b])
    requires k < |s.frees| && s.frees[k] == b.addr && !b.used && Aligned(t) && 2 * HEADER <= t <= b.size - 2 * HEADER
    requires Heading(m0, m1, b.End() - t, FREE, t)
    requires Linking(Blocks, m1, m2, b.addr, b.End() - t, Next(Blocks, m1, b.addr))
    requires Linking(Frees, m2, m3, Prev(Frees, m2, b.addr), b.End() - t, b.addr)
    ensures var u := TailedArena(s, pre, b, post, k, t);
      && GoodBut(m3, head, u, Members(pre + [Block(b.End() - t, t, false)] + post))
      && Kept(m0, m3, NodeSet(head, u.blocks), {head} + Elements(u.frees))
  {
    var u := TailedArena(s, pre, b, post, k, t);
    TailShape(head, s, pre, b, post, k, t);
    TailMaps(m0, head, s, pre, b, post, k, t);
    var d0 := TailEnter(m0, head, s, u, pre, b, post, k, t);
    TailNodes(head, u, pre, b, post, k, t);
    TailSteps(m0, m1, m2, m3, d0, pre, b, post, k, t);
    MapsSame(m0, m3, head, u.blocks, u.blocks);
  }

  lemma TailMaps(m: Memory, head: int, s: Arena, pre: seq<Block>, b: Block, post: seq<Block>, k: nat, t: int)
    requires Maps(m, head, s.blocks) && s.blocks == pre + [b] + post && k < |s.frees| && 0 < t < b.size
    ensures Maps(m, head, TailedArena(s, pre, b, post, k, t).blocks)
  {
    var x, y := Block(b.addr, b.size - t, false), Block(b.End() - t, t, false);
    JoinCells(x, y, b);
    SpliceMaps(m, m, head, pre, [b], post, [x, y], s.blocks, TailedArena(s, pre, b, post, k, t).blocks);
  }

  lemma TailNodes(head: int, u: Arena, pre: seq<Block>, b: Block, post: seq<Block>, k: nat, t: int)
    requires u.blocks == pre + [Block(b.addr, b.size - t, false), Block(b.End() - t, t, false)] + post
    requires Shaped(u) && Clear(u.blocks, head, 2 * HEADER) && k < |u.frees| && u.frees[k] == b.End() - t
    ensures Addrs(u.blocks) == Addrs(pre) + [b.addr] + [b.End() - t] + Addrs(post)
    ensures Nodes(head, Addrs(u.blocks)) && Nodes(head, u.frees)
    ensures {b.addr, b.End() - t} <= NodeSet(head, u.blocks) && b.End() - t in Elements(u.frees)
  {
    PairIn(pre, Block(b.addr, b.size - t, false), Block(b.End() - t, t, false), post, u.blocks);
    NodesSpread(head, u.blocks);
    FreesAreNodes(head, u);
    assert Addrs(u.blocks)[|pre|] == b.addr && Addrs(u.blocks)[|pre| + 1] == b.End() - t;
  }

  lemma TailEnter(m: Memory, head: int, s: Arena, u: Arena, pre: seq<Block>, b: Block, post: seq<Block>, k: nat, t: int)
    returns (d: Desc)
    requires Good(m, head, s) && s.blocks == pre + [b] + post && k < |s.frees| && s.frees[k] == b.addr
    requires u == TailedArena(s, pre, b, post, k, t) && Shaped(u) && Clear(u.blocks, head, 2 * HEADER)
    requires Maps(m, head, u.blocks)
    ensures Describes(m, d)
    ensures d
      == Desc(head, NodeSet(head, u.blocks), {head} + Elements(u.frees), Addrs(pre) + [b.addr] + Addrs(post), s.frees,
              Members(s.blocks))
  {
    NodesSpread(head, u.blocks);
    FreesAreNodes(head, u);
    NodesMapped(m, head, u.blocks);
    TailSubsets(head, s, u, pre, b, post, k, t);
    d := Opening(head, s, NodeSet(head, u.blocks), {head} + Elements(u.frees), Members(s.blocks));
    Begin(m, head, s, d.nodes, d.freeNodes, d.claims);
  }

  lemma TailSubsets(head: int, s: Arena, u: Arena, pre: seq<Block>, b: Block, post: seq<Block>, k: nat, t: int)
    requires s.blocks == pre + [b] + post && k < |s.frees| && u == TailedArena(s, pre, b, post, k, t)
    ensures NodeSet(head, s.blocks) <= NodeSet(head, u.blocks) && Elements(s.frees) <= Elements(u.frees)
    ensures Addrs(s.blocks) == Addrs(pre) + [b.addr] + Addrs(post)
  {
    AddrIn(head, pre, b, post, s.blocks);
    PairIn(pre, Block(b.addr, b.size - t, false), Block(b.End() - t, t, false), post, u.blocks);
    assert s.frees == s.frees[..k] + s.frees[k..];
  }

  lemma TailSteps(m0: Memory, m1: Memory, m2: Memory, m3: Memory, d0: Desc, pre: seq<Block>, b: Block, post: seq<Block>,
                  k: nat, t: int)
    requires Describes(m0, d0) && d0.bs == Addrs(pre) + [b.addr] + Addrs(post) && d0.claims == Members(pre + [b] + post)
    requires k < |d0.fs| && d0.fs[k] == b.addr && {b.addr, b.End() - t} <= d0.nodes && b.End() - t in d0.freeNodes
    requires Nodes(d0.head, Addrs(pre) + [b.addr] + [b.End() - t] + Addrs(post))
    requires Nodes(d0.head, d0.fs[..k] + [b.End() - t] + d0.fs[k..])
    requires Heading(m0, m1, b.End() - t, FREE, t)
    requires Linking(Blocks, m1, m2, b.addr, b.End() - t, Next(Blocks, m1, b.addr))
    requires Linking(Frees, m2, m3, Prev(Frees, m2, b.addr), b.End() - t, b.addr)
    ensures Rings(m3, d0.head, Addrs(pre) + [b.addr] + [b.End() - t] + Addrs(post),
                  d0.fs[..k] + [b.End() - t] + d0.fs[k..])
    ensures Tag(m3, d0.head) == HEAD && Headers(m3, Members(pre + [Block(b.End() - t, t, false)] + post))
    ensures Kept(m0, m3, d0.nodes, d0.freeNodes)
  {
    var y := Block(b.End() - t, t, false);
    var claims := Members(pre + [y] + post);
    assert Addrs(pre) + [b.addr] + [y.addr] + Addrs(post) == Addrs(pre) + [b.addr, y.addr] + Addrs(post);
    AddrsElsewhere(pre, [b.addr, y.addr], post, y.addr);
    assert (Addrs(pre) + [b.addr, y.addr] + Addrs(post))[|pre| + 1] == y.addr;
    HeadingStep(m0, m1, d0, y, claims);
    TailLinks(m1, m2, m3, d0.(claims := claims), Addrs(pre), b.addr, y.addr, Addrs(post), k);
    KeptTrans(m0, m1, m3, d0.nodes, d0.freeNodes);
  }

  lemma TailLinks(m1: Memory, m2: Memory, m3: Memory, d1: Desc, ps: seq<int>, ah: int, tah: int, qs: seq<int>, k: nat)
    requires Describes(m1, d1) && d1.bs == ps + [ah] + qs && k < |d1.fs| && d1.fs[k] == ah
    requires tah in d1.freeNodes && Nodes(d1.head, ps + [ah] + [tah] + qs)
    requires Nodes(d1.head, d1.fs[..k] + [tah] + d1.fs[k..])
    requires Linking(Blocks, m1, m2, ah, tah, Next(Blocks, m1, ah))
    requires Linking(Frees, m2, m3, Prev(Frees, m2, ah), tah, ah)
    ensures Describes(m3, d1.(bs := ps + [ah] + [tah] + qs, fs := d1.fs[..k] + [tah] + d1.fs[k..]))
    ensures Kept(m1, m3, d1.nodes, d1.freeNodes)
  {
    var xs, ys := d1.fs[..k], d1.fs[k..];
    RingAt(Blocks, m1, d1.head, ps, ah, qs);
    assert Last(d1.head, ps + [ah]) == ah;
    LinkBlockStep(m1, m2, d1, ps + [ah], tah, qs);
    var d2 := d1.(bs := ps + [ah] + [tah] + qs);
    assert d1.fs == xs + ys == xs + [] + ys;
    SplitRing(Frees, m2, d1.head, xs, ys);
    LinkFreeStep(m2, m3, d2, xs, [], tah, ys);
    KeptTrans(m1, m2, m3, d1.nodes, d1.freeNodes);
  }

  lemma OwnsBounds(pre: seq<Block>, b: Block, post: seq<Block>, x: int)
    requires Solid(pre + [b] + post)
    ensures Owns(pre, x) ==> x < b.addr
    ensures Owns(post, x) ==> x >= b.End()
    ensures Owns(pre + [b] + post, x) <==> Owns(pre, x) || Within(b, x) || Owns(post, x)
    ensures Owns(pre + post, x) <==> Owns(pre, x) || Owns(post, x)
  {
    SolidConcat(pre + [b], post);
    SolidConcat(pre, [b]);
    assert (pre + [b])[|pre|] == b && [b][0] == b;
    OwnsByOne(pre, |pre|, x);
    OwnsByOne(post, |post|, x);
    OwnsByOne([b], 1, x);
    OwnsConcat(pre + [b], post, x);
    OwnsConcat(pre, [b], x);
    OwnsConcat(pre, post, x);
  }

  /** After munmap of all but the first `h` bytes of `b`, what is mapped is what the blocks own. */
  lemma UnmappedMaps(m: Memory, m': Memory, head: int, pre: seq<Block>, b: Block, post: seq<Block>, h: int,
                     mid: seq<Block>, bs: seq<Block>, bs': seq<Block>)
    requires Maps(m, head, bs) && bs == pre + [b] + post && bs' == pre + mid + post
    requires Solid(bs) && Clear(bs, head, 2 * HEADER) && 0 <= h <= b.size
    requires mid == (if h == 0 then [] else [Block(b.addr, h, false)])
    requires Unmapping(m, m', b.addr + h, b.size - h)
    ensures Maps(m', head, bs')
  {
    assert bs[|pre|] == b;
    forall x ensures x in m' <==> (x == head || x == head + HEADER || Owns(bs', x)) {
      OwnsBounds(pre, b, post, x);
      OwnsConcat(pre + mid, post, x);
      OwnsConcat(pre, mid, x);
      OwnsByOne(mid, |mid|, x);
      assert h > 0 ==> (Owns(mid, x) <==> Within(mid[0], x));
      assert x in m' <==> x in m && !InRange(x, b.addr + h, b.size - h);
    }
  }

  lemma UnmappedCarry(m: Memory, m': Memory, head: int, t: Arena, p: int, size: int)
    requires Shaped(t) && Clear(t.blocks, head, 2 * HEADER) && Maps(m', head, t.blocks) && Unmapping(m, m', p, size)
    requires Rings(m, head, Addrs(t.blocks), t.frees) && Tag(m, head) == HEAD && Headers(m, Members(t.blocks))
    ensures Good(m', head, t)
  {
    NodesSpread(head, t.blocks);
    NodesMapped(m', head, t.blocks);
    FreesAreNodes(head, t);
    ClaimsAreNodes(head, t.blocks, Members(t.blocks));
    CarryOver(m, m', head, Addrs(t.blocks), t.frees, Members(t.blocks), NodeSet(head, t.blocks));
  }

  // Lines 315-320 with a head portion: the block shrinks.

  ghost function ShrunkArena(s: Arena, pre: seq<Block>, b: Block, post: seq<Block>, h: int): Arena {
    Arena(pre + [Block(b.addr, h, false)] + post, s.frees)
  }

  lemma ShrinkShape(head: int, s: Arena, pre: seq<Block>, b: Block, post: seq<Block>, h: int)
    requires Shaped(s) && Clear(s.blocks, head, 2 * HEADER) && s.blocks == pre + [b] + post && Sized([b]) && !b.used
    requires Aligned(h) && 2 * HEADER <= h <= b.size
    ensures var t := ShrunkArena(s, pre, b, post, h);
      Shaped(t) && Clear(t.blocks, head, 2 * HEADER) && Addrs(t.blocks) == Addrs(s.blocks)
  {
    var x := Block(b.addr, h, false);
    assert Solid([x]) by { assert Aligned([b][0].addr); }
    Singleton(b);
    Singleton(x);
    assert s.blocks[|pre|] == b;
    FreeIsListed(s, |pre|);
    Reshape(pre, [b], post, [x], s.frees, s.frees);
    ClearThree(pre, [b], post, head, 2 * HEADER);
    ClearThree(pre, [x], post, head, 2 * HEADER);
    assert Clear([x], head, 2 * HEADER) by { assert [b][0] == b; }
    AddrsThree(pre, [b], post);
    AddrsThree(pre, [x], post);
    assert Addrs([b]) == Addrs([x]);
  }

  lemma ShrinkRefines(m0: Memory, m1: Memory, m2: Memory, head: int, s: Arena, pre: seq<Block>, b: Block,
                      post: seq<Block>, h: int)
    requires GoodBut(m0, head, s, Members(pre + post)) && s.blocks == pre + [b] + post && Sized([b]) && !b.used
    requires Aligned(h) && 2 * HEADER <= h <= b.size
    requires Heading(m0, m1, b.addr, FREE, h) && Unmapping(m1, m2, b.addr + h, b.size - h)
    ensures Good(m2, head, ShrunkArena(s, pre, b, post, h))
    ensures Kept(m0, m1, NodeSet(head, s.blocks), {head} + Elements(s.frees))
  {
    var t := ShrunkArena(s, pre, b, post, h);
    ShrinkShape(head, s, pre, b, post, h);
    ShrinkRings(m0, m1, head, s, pre, b, post, h, t.blocks);
    MapsSame(m0, m1, head, s.blocks, s.blocks);
    UnmappedMaps(m1, m2, head, pre, b, post, h, [Block(b.addr, h, false)], s.blocks, t.blocks);
    UnmappedCarry(m1, m2, head, t, b.addr + h, b.size - h);
  }

  lemma ShrinkRings(m0: Memory, m1: Memory, head: int, s: Arena, pre: seq<Block>, b: Block, post: seq<Block>, h: int,
                    bs: seq<Block>)
    requires GoodBut(m0, head, s, Members(pre + post)) && s.blocks == pre + [b] + post
    requires bs == pre + [Block(b.addr, h, false)] + post && Heading(m0, m1, b.addr, FREE, h)
    ensures Rings(m1, head, Addrs(s.blocks), s.frees) && Tag(m1, head) == HEAD && Headers(m1, Members(bs))
    ensures Kept(m0, m1, NodeSet(head, s.blocks), {head} + Elements(s.frees))
  {
    NodesSpread(head, s.blocks);
    FreesAreNodes(head, s);
    AddrIn(head, pre, b, post, s.blocks);
    RestIn(pre, b, post, s.blocks);
    var d0 := Enter(m0, head, s, {head} + Elements(s.frees), Members(pre + post));
    AddrsElsewhere(pre, [b.addr], post, b.addr);
    assert d0.bs[|pre|] == b.addr;
    HeadingStep(m0, m1, d0, Block(b.addr, h, false), Members(bs));
  }

  lemma RestIn(pre: seq<Block>, b: Block, post: seq<Block>, bs: seq<Block>)
    requires bs == pre + [b] + post
    ensures Members(pre + post) <= Members(bs)
  {
  }

  // Lines 317-320 without a head portion: the block goes.

  ghost function DroppedArena(s: Arena, pre: seq<Block>, post: seq<Block>, k: nat): Arena
    requires k < |s.frees|
  {
    Arena(pre + post, Removed(s.frees, k))
  }

  lemma DropShape(head: int, s: Arena, pre: seq<Block>, b: Block, post: seq<Block>, k: nat)
    requires Shaped(s) && Clear(s.blocks, head, 2 * HEADER) && s.blocks == pre + [b] + post && !b.used
    requires k < |s.frees| && s.frees[k] == b.addr
    ensures var t := DroppedArena(s, pre, post, k);
      Shaped(t) && Clear(t.blocks, head, 2 * HEADER) && Addrs(t.blocks) == Addrs(pre) + Addrs(post)
  {
    Singleton(b);
    RemovedElements(s.frees, k);
    assert FreeAddrs([]) == {};
    Reshape(pre, [b], post, [], s.frees, Removed(s.frees, k));
    assert pre + [] + post == pre + post;
    ClearThree(pre, [b], post, head, 2 * HEADER);
    ClearConcat(pre, post, head, 2 * HEADER);
    AddrsConcat(pre, post);
  }

  lemma DropRefines(m0: Memory, m1: Memory, m2: Memory, m3: Memory, head: int, s: Arena, pre: seq<Block>, b: Block,
                    post: seq<Block>, k: nat)
    requires GoodBut(m0, head, s, Members(pre + post)) && s.blocks == pre + [b] + post && !b.used && Sized([b])
    requires k < |s.frees| && s.frees[k] == b.addr
    requires Unlinking(Frees, m0, m1, Prev(Frees, m0, b.addr), Next(Frees, m0, b.addr))
    requires Unlinking(Blocks, m1, m2, Prev(Blocks, m1, b.addr), Next(Blocks, m1, b.addr))
    requires Unmapping(m2, m3, b.addr, b.size)
    ensures Good(m3, head, DroppedArena(s, pre, post, k))
    ensures Kept(m0, m2, NodeSet(head, s.blocks), {head} + Elements(s.frees))
  {
    hide Unlinking, Unmapping, Kept, Headers, Ring;
    var t := DroppedArena(s, pre, post, k);
    DropShape(head, s, pre, b, post, k);
    DropRings(m0, m1, m2, head, s, pre, b, post, k);
    MapsSame(m0, m2, head, s.blocks, s.blocks);
    assert [b][0].size >= 0;
    assert t.blocks == pre + [] + post;
    UnmappedMaps(m2, m3, head, pre, b, post, 0, [], s.blocks, t.blocks);
    UnmappedCarry(m2, m3, head, t, b.addr, b.size);
  }

  lemma DropRings(m0: Memory, m1: Memory, m2: Memory, head: int, s: Arena, pre: seq<Block>, b: Block, post: seq<Block>,
                  k: nat)
    requires GoodBut(m0, head, s, Members(pre + post)) && s.blocks == pre + [b] + post
    requires k < |s.frees| && s.frees[k] == b.addr
    requires Unlinking(Frees, m0, m1, Prev(Frees, m0, b.addr), Next(Frees, m0, b.addr))
    requires Unlinking(Blocks, m1, m2, Prev(Blocks, m1, b.addr), Next(Blocks, m1, b.addr))
    ensures Rings(m2, head, Addrs(pre) + Addrs(post), Removed(s.frees, k)) && Tag(m2, head) == HEAD
    ensures Headers(m2, Members(pre + post))
    ensures Kept(m0, m2, NodeSet(head, s.blocks), {head} + Elements(s.frees))
  {
    NodesSpread(head, s.blocks);
    FreesAreNodes(head, s);
    AddrIn(head, pre, b, post, s.blocks);
    RestIn(pre, b, post, s.blocks);
    var d0 := Enter(m0, head, s, {head} + Elements(s.frees), Members(pre + post));
    DropUnlinks(m0, m1, m2, d0, Addrs(pre), b.addr, Addrs(post), k);
  }

  lemma DropUnlinks(m0: Memory, m1: Memory, m2: Memory, d0: Desc, ps: seq<int>, b: int, qs: seq<int>, k: nat)
    requires Describes(m0, d0) && d0.bs == ps + [b] + qs && k < |d0.fs| && d0.fs[k] == b
    requires Unlinking(Frees, m0, m1, Prev(Frees, m0, b), Next(Frees, m0, b))
    requires Unlinking(Blocks, m1, m2, Prev(Blocks, m1, b), Next(Blocks, m1, b))
    ensures Describes(m2, d0.(bs := ps + qs, fs := Removed(d0.fs, k)))
    ensures Kept(m0, m2, d0.nodes, d0.freeNodes)
  {
    var xs, ys := d0.fs[..k], d0.fs[k + 1..];
    assert d0.fs == xs + [b] + ys;
    RingAt(Frees, m0, d0.head, xs, b, ys);
    UnlinkFreeStep(m0, m1, d0, xs, b, ys);
    var d1 := d0.(fs := xs + ys);
    RingAt(Blocks, m1, d0.head, ps, b, qs);
    UnlinkBlockStep(m1, m2, d1, ps, b, qs);
    KeptTrans(m0, m1, m2, d0.nodes, d0.freeNodes);
  }
}
