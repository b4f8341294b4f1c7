/** A client driving the heap: whole runs of malloc, free and realloc in memory, not only in the model. */
module ArenaClient {
  import opened Options
  import opened ArenaModel
  import opened ArenaMemory
  import opened ArenaRefinement
  import opened ArenaRuns
  import opened ArenaHeap
  import opened ArenaRealloc

  /** mmap never answers with the memory of the static head node. */
  ghost predicate OffHead(ops: seq<Op>, head: int) {
    forall i :: 0 <= i < |ops| && !ops[i].Release? && ops[i].answer.Some? ==>
      Clear([Block(ops[i].answer.value, ChunkFor(Needed(Asked(ops[i]))), true)], head, 2 * HEADER)
  }

  /** What an operation asks of malloc. */
  function Asked(op: Op): nat
    requires !op.Release?
  {
    if op.Alloc? then op.size else Needed(op.size)
  }

  /** The pointer that an operation gives up. */
  predicate GivesUp(op: Op, ptr: int) { !op.Alloc? && op.ptr == ptr }

  /** The live blocks that no operation of the run releases or resizes. */
  ghost function Untouched(bs: seq<Block>, ops: seq<Op>): set<Block> {
    set b | b in Used(bs) && forall i :: 0 <= i < |ops| ==> !GivesUp(ops[i], b.addr + HEADER)
  }

  lemma {:induction false} LegalPrefix(ops: seq<Op>, n: nat, page: int)
    requires PageOk(page) && n <= |ops| && LegalRun(ops, page)
    ensures LegalRun(ops[..n], page)
    decreases |ops|
  {
    if n == |ops| {
      assert ops[..n] == ops;
    } else {
      LegalPrefix(ops[..|ops| - 1], n, page);
      assert ops[..|ops| - 1][..n] == ops[..n];
    }
  }

  lemma AfterOne(ops: seq<Op>, n: nat, page: int)
    requires PageOk(page) && n < |ops| && LegalRun(ops, page)
    ensures LegalRun(ops[..n], page) && LegalRun(ops[..n + 1], page)
    ensures Legal(After(ops[..n], page), ops[n], page)
    ensures After(ops[..n + 1], page) == Step(After(ops[..n], page), ops[n], page)
  {
    hide Legal, Step, RunInv;
    LegalPrefix(ops, n, page);
    LegalPrefix(ops, n + 1, page);
    assert ops[..n + 1][..n] == ops[..n];
  }

  /** What a resized block holds: the first bytes, as many as both requests have, in whole cells. */
  ghost predicate Carried(m: Memory, m': Memory, r: Run, op: Op, p: Option<int>) {
    op.Resize? && op.ptr in r.live && p.Some? ==> CopiedTo(m, m', op.ptr, p.value, Min(op.size, r.live[op.ptr]))
  }

  /** One operation on the heap, and the pointer that it returns. */
  method Execute(h: Heap, op: Op, ghost r: Run) returns (p: Option<int>)
    requires h.Valid() && RunInv(r, h.page) && r.arena == h.arena && Legal(r, op, h.page) && OffHead([op], h.head)
    modifies h
    ensures h.Valid() && h.arena == Step(r, op, h.page).arena && p == Answer(r, op, h.page)
    ensures Untouched(old(h.arena).blocks, [op]) <= Used(h.arena.blocks)
    ensures PayloadSame(old(h.mem), h.mem, Untouched(old(h.arena).blocks, [op])) && Carried(old(h.mem), h.mem, r, op, p)
  {
    hide Good, Inv, CopiedTo, Malloc, Free, PayloadSame, Legal, RunInv, Step, Answer, Untouched, Used, OffHead, Clear;
    hide FirstFit, IsLive;
    hide KernelGives, ChunkFor, Needed, FreedBy;
    ghost var m, s := h.mem, h.arena;
    match op
    case Alloc(size, answer) =>
      AllocReady(r, size, answer, h.page, h.head);
      p := h.Malloc(size, answer);
      PayloadPart(m, h.mem, Used(s.blocks), Untouched(s.blocks, [op]));
    case Release(ptr) =>
      ReleaseReady(r, ptr, h.page);
      FreedIs(r.arena, op, ptr);
      h.Free(Some(ptr));
      PayloadPart(m, h.mem, Used(s.blocks) - FreedBy(s, Some(ptr)), Untouched(s.blocks, [op]));
      p := None;
    case Resize(ptr, size, answer) =>
      p := ExecuteResize(h, ptr, size, answer, r);
  }

  lemma AllocReady(r: Run, size: nat, answer: Option<int>, page: int, head: int)
    requires PageOk(page) && RunInv(r, page) && Legal(r, Alloc(size, answer), page)
    requires OffHead([Alloc(size, answer)], head)
    ensures answer.Some? ==> KernelGives(r.arena, page, answer.value, ChunkFor(Needed(size)))
    ensures answer.Some? ==> Clear([Block(answer.value, ChunkFor(Needed(size)), true)], head, 2 * HEADER)
    ensures var op := Alloc(size, answer);
      && Inv(r.arena) && Malloc(r.arena, size, page, answer) == (Step(r, op, page).arena, Answer(r, op, page))
      && Untouched(r.arena.blocks, [op]) <= Used(r.arena.blocks) <= Used(Step(r, op, page).arena.blocks)
  {
    hide Malloc, Inv;
    var op := Alloc(size, answer);
    assert [op][0] == op;
    var n := MallocTally(r.arena, size, page, answer);
  }

  lemma ReleaseReady(r: Run, ptr: int, page: int)
    requires PageOk(page) && RunInv(r, page) && Legal(r, Release(ptr), page)
    ensures var op := Release(ptr);
      && Inv(r.arena) && IsLive(r.arena, ptr) && GivesUp(op, ptr) && Answer(r, op, page) == None
      && Step(r, op, page).arena == Free(r.arena, ptr, page)
      && Used(r.arena.blocks) - FreedBy(r.arena, Some(ptr)) <= Used(Free(r.arena, ptr, page).blocks)
  {
    hide Free, Inv;
    LiveIsUsed(r.arena, ptr);
    FreeTally(r.arena, ptr, page);
  }

  method ExecuteResize(h: Heap, ptr: int, size: nat, answer: Option<int>, ghost r: Run) returns (p: Option<int>)
    requires h.Valid() && RunInv(r, h.page) && r.arena == h.arena && Legal(r, Resize(ptr, size, answer), h.page)
    requires OffHead([Resize(ptr, size, answer)], h.head)
    modifies h
    ensures var op := Resize(ptr, size, answer);
      && h.Valid() && h.arena == Step(r, op, h.page).arena && p == Answer(r, op, h.page)
      && Untouched(old(h.arena).blocks, [op]) <= Used(h.arena.blocks)
      && PayloadSame(old(h.mem), h.mem, Untouched(old(h.arena).blocks, [op])) && Carried(old(h.mem), h.mem, r, op, p)
  {
    hide Good, Inv, CopiedTo, Malloc, Free, PayloadSame, Legal, RunInv, Step, Answer, Untouched, Used, OffHead, Clear;
    hide FirstFit, IsLive;
    hide KernelGives, ChunkFor, Needed, FreedBy;
    ghost var op, m, s := Resize(ptr, size, answer), h.mem, h.arena;
    ResizeLegal(r, ptr, size, answer, h.page, h.head);
    ResizeReady(r, ptr, size, answer, h.page);
    FreedIs(r.arena, op, ptr);
    ghost var b := h.arena.blocks[LiveIndex(h.arena, ptr)];
    HeldFits(r, ptr, b, size, h.page);
    var q := Realloc(h, Some(ptr), size, answer);
    PayloadPart(m, h.mem, Used(s.blocks) - FreedBy(s, Some(ptr)), Untouched(s.blocks, [op]));
    CopiedPart(m, h.mem, ptr, q.ptr.value, Min(Needed(size), b.size - HEADER), Min(size, r.live[ptr]));
    p := q.ptr;
  }

  /** What a legal resize means for realloc. */
  lemma ResizeLegal(r: Run, ptr: int, size: nat, answer: Option<int>, page: int, head: int)
    requires PageOk(page) && RunInv(r, page) && Legal(r, Resize(ptr, size, answer), page)
    requires OffHead([Resize(ptr, size, answer)], head)
    ensures ptr in r.live && Inv(r.arena) && IsLive(r.arena, ptr) && size > 0 && Needed(size) >= 0
    ensures GivesUp(Resize(ptr, size, answer), ptr)
    ensures answer.Some? ==> KernelGives(r.arena, page, answer.value, ChunkFor(Needed(Needed(size))))
    ensures answer.Some? ==> Clear([Block(answer.value, ChunkFor(Needed(Needed(size))), true)], head, 2 * HEADER)
    ensures Stays(r.arena, ptr, size) || FirstFit(r.arena, Needed(Needed(size)), 0).Some? || answer.Some?
    ensures Stays(r.arena, ptr, size) ==>
      Step(r, Resize(ptr, size, answer), page).arena == r.arena &&
        Answer(r, Resize(ptr, size, answer), page) == Some(ptr)
    ensures !Stays(r.arena, ptr, size) ==>
      Answer(r, Resize(ptr, size, answer), page) == Malloc(r.arena, Needed(size), page, answer).1
  {
    hide Malloc, Free, Inv;
    var op := Resize(ptr, size, answer);
    assert [op][0] == op;
  }

  lemma HeldFits(r: Run, ptr: int, b: Block, size: nat, page: int)
    requires page > 0 && RunInv(r, page) && ptr in r.live && IsLive(r.arena, ptr)
    requires b == r.arena.blocks[LiveIndex(r.arena, ptr)]
    ensures b in Used(r.arena.blocks) && b.size >= r.live[ptr] + HEADER
    ensures Min(size, r.live[ptr]) <= Min(Needed(size), b.size - HEADER)
  {
    NeededFacts(size);
    assert b in Used(r.arena.blocks);
  }

  lemma PayloadPart(m: Memory, m': Memory, bs: set<Block>, cs: set<Block>)
    requires PayloadSame(m, m', bs) && cs <= bs
    ensures PayloadSame(m, m', cs)
  {
  }

  lemma CopiedPart(m: Memory, m': Memory, src: int, dst: int, n: int, k: int)
    requires CopiedTo(m, m', src, dst, n) && k <= n
    ensures CopiedTo(m, m', src, dst, k)
  {
  }

  lemma FreedIs(s: Arena, op: Op, ptr: int)
    requires Inv(s) && IsLive(s, ptr) && GivesUp(op, ptr)
    ensures Untouched(s.blocks, [op]) <= Used(s.blocks) - FreedBy(s, Some(ptr))
  {
    assert [op][0] == op;
  }

  /** A legal resize does not fault, and keeps every other block. */
  lemma ResizeReady(r: Run, ptr: int, size: nat, answer: Option<int>, page: int)
    requires PageOk(page) && RunInv(r, page) && Legal(r, Resize(ptr, size, answer), page)
    ensures var t := Step(r, Resize(ptr, size, answer), page).arena;
      Used(r.arena.blocks) - FreedBy(r.arena, Some(ptr)) <= Used(t.blocks)
    ensures !Stays(r.arena, ptr, size) ==> var t := Malloc(r.arena, Needed(size), page, answer).0;
      Inv(t) && IsLive(t, ptr) && Step(r, Resize(ptr, size, answer), page).arena == Free(t, ptr, page)
  {
    hide Malloc, Free, Inv;
    if !Stays(r.arena, ptr, size) {
      NeededFacts(size);
      MoveKeeps(r, ptr, size, answer, page);
      var q := Allocated(r, Needed(size), answer, page);
      var n := MallocTally(r.arena, Needed(size), page, answer);
      LiveIsUsed(q.arena, ptr);
      FreeTally(q.arena, ptr, page);
      SameBlock(r.arena, q.arena, ptr);
    }
  }

  lemma SameBlock(s: Arena, t: Arena, ptr: int)
    requires Inv(s) && Inv(t) && IsLive(s, ptr) && IsLive(t, ptr) && Used(s.blocks) <= Used(t.blocks)
    ensures t.blocks[LiveIndex(t, ptr)] == s.blocks[LiveIndex(s, ptr)]
  {
    var b := s.blocks[LiveIndex(s, ptr)];
    assert b in Used(s.blocks);
    OneBlockPerAddress(t.blocks, b);
    assert t.blocks[LiveIndex(t, ptr)] in Used(t.blocks);
  }

  /** What call `i` of a stretch returned. */
  ghost predicate AnsweredAt(done: seq<Op>, ops: seq<Op>, i: nat, p: Option<int>, page: int)
    requires PageOk(page) && i < |ops|
  {
    var before := done + ops[..i];
    LegalRun(before, page) && Legal(After(before, page), ops[i], page) && p == Answer(After(before, page), ops[i], page)
  }

  ghost predicate Answered(done: seq<Op>, ops: seq<Op>, ps: seq<Option<int>>, page: int)
    requires PageOk(page)
  {
    |ps| == |ops| && forall i :: 0 <= i < |ops| ==> AnsweredAt(done, ops, i, ps[i], page)
  }

  /** Any stretch of any run, starting wherever `done` left the heap: memory ends up representing the
      model's final arena, the pointers returned are the model's, and the payload of a live block that the stretch does
      not release or resize is unchanged. */
  method Continue(h: Heap, ghost done: seq<Op>, ops: seq<Op>) returns (ps: seq<Option<int>>)
    requires h.Valid() && LegalRun(done + ops, h.page) && OffHead(ops, h.head)
    requires LegalRun(done, h.page) && h.arena == After(done, h.page).arena
    modifies h
    ensures h.Valid() && h.arena == After(done + ops, h.page).arena
    ensures Answered(done, ops, ps, h.page)
    ensures Untouched(old(h.arena).blocks, ops) <= Used(h.arena.blocks)
    ensures PayloadSame(old(h.mem), h.mem, Untouched(old(h.arena).blocks, ops))
    decreases |ops|
  {
    if |ops| == 0 {
      NothingWritten(h.mem, h.head, h.arena);
      assert done + ops == done;
      return [];
    }
    hide Good, Legal, Step, OffHead, RunInv, Used, Inv, PayloadSame, Untouched, Answered, Answer, Carried, LegalRun;
    hide After;
    ghost var m0, s, rest := h.mem, h.arena, done + [ops[0]];
    FirstOp(done, ops, h.page, h.head);
    var p := Execute(h, ops[0], After(done, h.page));
    ghost var m1, t := h.mem, h.arena;
    var more := Continue(h, rest, ops[1..]);
    ps := [p] + more;
    AllAnswered(done, ops, p, more, h.page);
    KeepSplit(s.blocks, t.blocks, ops);
    PayloadTrans(m0, m1, h.mem, Untouched(s.blocks, [ops[0]]), Untouched(t.blocks, ops[1..]), Untouched(s.blocks, ops));
  }

  lemma AllAnswered(done: seq<Op>, ops: seq<Op>, p: Option<int>, more: seq<Option<int>>, page: int)
    requires PageOk(page) && |ops| > 0 && LegalRun(done, page) && Legal(After(done, page), ops[0], page)
    requires p == Answer(After(done, page), ops[0], page) && Answered(done + [ops[0]], ops[1..], more, page)
    ensures Answered(done, ops, [p] + more, page)
  {
    hide Legal, Answer, LegalRun, After, RunInv, AnsweredAt;
    var ps := [p] + more;
    FirstAnswered(done, ops, p, page);
    forall i | 0 < i < |ops| ensures AnsweredAt(done, ops, i, ps[i], page) {
      LaterAnswered(done, ops, i, ps[i], page);
    }
  }

  lemma FirstAnswered(done: seq<Op>, ops: seq<Op>, p: Option<int>, page: int)
    requires PageOk(page) && |ops| > 0 && LegalRun(done, page) && Legal(After(done, page), ops[0], page)
    requires p == Answer(After(done, page), ops[0], page)
    ensures AnsweredAt(done, ops, 0, p, page)
  {
    assert done + ops[..0] == done;
  }

  lemma LaterAnswered(done: seq<Op>, ops: seq<Op>, i: nat, p: Option<int>, page: int)
    requires PageOk(page) && 0 < i < |ops| && AnsweredAt(done + [ops[0]], ops[1..], i - 1, p, page)
    ensures AnsweredAt(done, ops, i, p, page)
  {
    hide Legal, Answer, LegalRun, After, RunInv;
    Onward(done, ops, i);
  }

  lemma FirstOp(done: seq<Op>, ops: seq<Op>, page: int, head: int)
    requires PageOk(page) && LegalRun(done + ops, page) && |ops| > 0 && OffHead(ops, head)
    ensures var rest := done + [ops[0]];
      && rest + ops[1..] == done + ops && LegalRun(done, page) && LegalRun(rest, page)
      && Legal(After(done, page), ops[0], page) && After(rest, page) == Step(After(done, page), ops[0], page)
    ensures OffHead([ops[0]], head) && OffHead(ops[1..], head)
  {
    hide Legal, Step, RunInv;
    var all := done + ops;
    AfterOne(all, |done|, page);
    Regroup(done, ops);
  }

  lemma Regroup(done: seq<Op>, ops: seq<Op>)
    requires |ops| > 0
    ensures (done + ops)[..|done|] == done && (done + ops)[..|done| + 1] == done + [ops[0]]
    ensures done + [ops[0]] + ops[1..] == done + ops
  {
  }

  lemma KeepSplit(bs: seq<Block>, bs': seq<Block>, ops: seq<Op>)
    requires |ops| > 0 && Untouched(bs, [ops[0]]) <= Used(bs')
    ensures Untouched(bs, ops) <= Untouched(bs, [ops[0]]) && Untouched(bs, ops) <= Untouched(bs', ops[1..])
  {
    assert [ops[0]][0] == ops[0] && forall i :: 0 <= i < |ops[1..]| ==> ops[1..][i] == ops[i + 1];
  }

  lemma Onward(done: seq<Op>, ops: seq<Op>, i: nat)
    requires 0 < i < |ops|
    ensures done + [ops[0]] + ops[1..][..i - 1] == done + ops[..i] && ops[1..][i - 1] == ops[i]
  {
  }
}
