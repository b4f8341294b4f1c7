/** What a client of the heap finds in its blocks: the last thing it stored there, wherever realloc has moved it. */
module ArenaContents {
  import opened Options
  import opened ArenaModel
  import opened ArenaMemory
  import opened ArenaRefinement
  import opened ArenaRuns
  import opened ArenaHeap
  import opened ArenaRealloc
  import opened ArenaClient

  /** A call, or a store of the client into a block that it holds. */
  datatype Act = Call(op: Op) | Write(ptr: int, off: int, cell: Cell)

  /** A run, and per pointer that the client holds the cells it has stored. */
  datatype Client = Client(run: Run, known: map<int, map<int, Cell>>)

  const NEW_CLIENT: Client := Client(Start, map[])

  /** Stores are of whole cells inside the request. */
  predicate Inside(size: nat, off: int) { 0 <= off < size && Aligned(off) }

  ghost predicate ClientInv(c: Client, page: int)
    requires page > 0
  {
    && RunInv(c.run, page) && c.known.Keys == c.run.live.Keys
    && forall p, off :: p in c.known && p in c.run.live && off in c.known[p] ==> Inside(c.run.live[p], off)
  }

  ghost predicate LegalAct(c: Client, act: Act, page: int)
    requires page > 0
  {
    match act
    case Call(op) => Legal(c.run, op, page)
    case Write(ptr, off, _) => ptr in c.run.live && Inside(c.run.live[ptr], off)
  }

  /** What is left of a block cut to `size` bytes. */
  function Below(cells: map<int, Cell>, size: nat): map<int, Cell> {
    map off | off in cells && off < size :: cells[off]
  }

  /** What the client may rely on afterwards: a new block holds nothing yet, a resized one what both requests have. */
  ghost function Known(c: Client, op: Op, page: int): map<int, map<int, Cell>>
    requires PageOk(page) && ClientInv(c, page) && Legal(c.run, op, page)
  {
    AnswerHeld(c.run, op, page);
    var p := Answer(c.run, op, page);
    match op
    case Alloc(_, _) => if p.Some? then c.known[p.value := map[]] else c.known
    case Release(ptr) => c.known - {ptr}
    case Resize(ptr, size, _) => (c.known - {ptr})[p.value := Below(c.known[ptr], size)]
  }

  ghost function Do(c: Client, act: Act, page: int): Client
    requires PageOk(page) && ClientInv(c, page) && LegalAct(c, act, page)
  {
    match act
    case Call(op) => Client(Step(c.run, op, page), Known(c, op, page))
    case Write(ptr, off, cell) => c.(known := c.known[ptr := c.known[ptr][off := cell]])
  }

  lemma DoKeeps(c: Client, act: Act, page: int)
    requires PageOk(page) && ClientInv(c, page) && LegalAct(c, act, page)
    ensures ClientInv(Do(c, act, page), page)
  {
    hide RunInv, Step, Answer, FirstFit, KernelGives, Stays, IsLive, Inv;
    if act.Call? {
      StepKeeps(c.run, act.op, page);
      AnswerHeld(c.run, act.op, page);
      var d := Do(c, act, page);
      forall p, off | p in d.known && off in d.known[p] ensures p in d.run.live && Inside(d.run.live[p], off) {
        KnownInside(c, act.op, page, p, off);
      }
    }
  }

  lemma KnownInside(c: Client, op: Op, page: int, p: int, off: int)
    requires PageOk(page) && ClientInv(c, page) && Legal(c.run, op, page)
    requires var d := Do(c, Call(op), page); p in d.known && off in d.known[p]
    ensures var d := Do(c, Call(op), page); p in d.run.live && Inside(d.run.live[p], off)
  {
    hide RunInv, Step, Answer, FirstFit, KernelGives, Stays, IsLive, Inv;
    AnswerHeld(c.run, op, page);
    if op.Resize? && p == Answer(c.run, op, page).value {
      assert off in Below(c.known[op.ptr], op.size);
    }
  }

  /** Memory holds what the client stored. */
  ghost predicate Reflects(m: Memory, known: map<int, map<int, Cell>>) {
    forall p, off :: p in known && off in known[p] ==> p + off in m && m[p + off] == known[p][off]
  }

  /** The cells of a request lie in the payload of its block. */
  lemma InPayload(r: Run, ptr: int, off: int, page: int) returns (b: Block)
    requires page > 0 && RunInv(r, page) && ptr in r.live && Inside(r.live[ptr], off)
    ensures b in Used(r.arena.blocks) && b.addr + HEADER == ptr && Payload(b, ptr + off)
  {
    b :| b in Used(r.arena.blocks) && b.addr + HEADER == ptr;
    var i :| 0 <= i < |r.arena.blocks| && r.arena.blocks[i] == b;
    assert Aligned(r.arena.blocks[i].addr);
    AlignedArithmetic(b.addr, 32);
    AlignedArithmetic(ptr, off);
  }

  // ---------------------------------------------------------------- one act

  /** What another block holds is not touched by a call. */
  lemma OthersKept(m: Memory, m': Memory, c: Client, op: Op, page: int, p: int, off: int)
    requires page > 0 && ClientInv(c, page) && p in c.known && off in c.known[p] && !GivesUp(op, p)
    requires Reflects(m, c.known)
    requires PayloadSame(m, m', Untouched(c.run.arena.blocks, [op]))
    ensures p + off in m' && m'[p + off] == c.known[p][off]
  {
    hide RunInv, Used;
    var b := InPayload(c.run, p, off, page);
    assert b in Untouched(c.run.arena.blocks, [op]);
  }

  /** What a resized block holds has moved with it. */
  lemma MovedAlong(m: Memory, m': Memory, c: Client, op: Op, page: int, p: int, off: int)
    requires page > 0 && ClientInv(c, page) && op.Resize? && op.ptr in c.known && off in Below(c.known[op.ptr], op.size)
    requires Reflects(m, c.known) && Carried(m, m', c.run, op, Some(p))
    ensures p + off in m' && m'[p + off] == c.known[op.ptr][off]
  {
    hide RunInv;
    assert Inside(c.run.live[op.ptr], off);
  }

  lemma CallReflected(m: Memory, m': Memory, c: Client, op: Op, page: int)
    requires PageOk(page) && ClientInv(c, page) && Legal(c.run, op, page) && Reflects(m, c.known)
    requires PayloadSame(m, m', Untouched(c.run.arena.blocks, [op]))
    requires Carried(m, m', c.run, op, Answer(c.run, op, page))
    ensures Reflects(m', Known(c, op, page))
  {
    hide RunInv, Step, Answer, FirstFit, KernelGives, Stays, IsLive, Inv, PayloadSame, Untouched, Carried;
    AnswerHeld(c.run, op, page);
    var known, a := Known(c, op, page), Answer(c.run, op, page);
    forall p, off | p in known && off in known[p] ensures p + off in m' && m'[p + off] == known[p][off] {
      if op.Resize? && p == a.value {
        MovedAlong(m, m', c, op, page, p, off);
      } else {
        OthersKept(m, m', c, op, page, p, off);
      }
    }
  }

  /** A store of the client. */
  method Put(h: Heap, ptr: int, off: int, cell: Cell, ghost c: Client)
    requires h.Valid() && ClientInv(c, h.page) && c.run.arena == h.arena && LegalAct(c, Write(ptr, off, cell), h.page)
    requires Reflects(h.mem, c.known)
    modifies h`mem
    ensures h.Valid() && Reflects(h.mem, Do(c, Write(ptr, off, cell), h.page).known)
  {
    hide Good, Inv, RunInv, PayloadSame, Used;
    ghost var m := h.mem;
    ghost var b := InPayload(c.run, ptr, off, h.page);
    h.mem := h.mem[ptr + off := cell];
    StoreReady(m, h.mem, h.head, h.arena, b, ptr + off, cell);
    forall p, o | p in c.known && o in c.known[p] && (p != ptr || o != off)
      ensures p + o in h.mem && h.mem[p + o] == c.known[p][o]
    {
      if p != ptr {
        ElsewhereKept(m, h.mem, c, h.page, b, p, o);
      }
    }
  }

  lemma StoreReady(m: Memory, m': Memory, head: int, s: Arena, b: Block, x: int, cell: Cell)
    requires Good(m, head, s) && b in Used(s.blocks) && Payload(b, x) && m' == m[x := cell]
    ensures Good(m', head, s) && PayloadSame(m, m', Used(s.blocks) - {b})
  {
    hide Good;
    NothingWritten(m, head, s);
    assert x in m;
    PayloadWritten(m, m', head, s, b);
  }

  lemma ElsewhereKept(m: Memory, m': Memory, c: Client, page: int, b: Block, p: int, off: int)
    requires page > 0 && ClientInv(c, page) && p in c.known && off in c.known[p] && b.addr + HEADER != p
    requires Reflects(m, c.known)
    requires PayloadSame(m, m', Used(c.run.arena.blocks) - {b})
    ensures p + off in m' && m'[p + off] == c.known[p][off]
  {
    hide RunInv, Used;
    var d := InPayload(c.run, p, off, page);
  }

  /** One act, and the pointer that a call returns. */
  method Serve(h: Heap, act: Act, ghost c: Client) returns (p: Option<int>)
    requires h.Valid() && ClientInv(c, h.page) && c.run.arena == h.arena && LegalAct(c, act, h.page)
    requires Reflects(h.mem, c.known) && (act.Call? ==> OffHead([act.op], h.head))
    modifies h
    ensures h.Valid() && h.arena == Do(c, act, h.page).run.arena && Reflects(h.mem, Do(c, act, h.page).known)
    ensures p == if act.Call? then Answer(c.run, act.op, h.page) else None
  {
    hide Good, Inv, RunInv, Legal, Step, Answer, Reflects, Known, PayloadSame, Untouched, Carried, Used, OffHead;
    match act
    case Call(op) =>
      ghost var m := h.mem;
      p := Execute(h, op, c.run);
      CallReflected(m, h.mem, c, op, h.page);
    case Write(ptr, off, cell) =>
      Put(h, ptr, off, cell, c);
      p := None;
  }

  // ---------------------------------------------------------------- whole runs

  ghost predicate LegalActs(c: Client, acts: seq<Act>, page: int)
    requires PageOk(page) && ClientInv(c, page)
    decreases |acts|
  {
    acts == [] || (LegalAct(c, acts[0], page) &&
                   (DoKeeps(c, acts[0], page); LegalActs(Do(c, acts[0], page), acts[1..], page)))
  }

  ghost function DoAll(c: Client, acts: seq<Act>, page: int): (d: Client)
    requires PageOk(page) && ClientInv(c, page) && LegalActs(c, acts, page)
    ensures ClientInv(d, page)
    decreases |acts|
  {
    if acts == [] then c else
    DoKeeps(c, acts[0], page);
    DoAll(Do(c, acts[0], page), acts[1..], page)
  }

  ghost function Answers(c: Client, acts: seq<Act>, page: int): seq<Option<int>>
    requires PageOk(page) && ClientInv(c, page) && LegalActs(c, acts, page)
    decreases |acts|
  {
    if acts == [] then [] else
    DoKeeps(c, acts[0], page);
    [if acts[0].Call? then Answer(c.run, acts[0].op, page) else None] + Answers(Do(c, acts[0], page), acts[1..], page)
  }

  ghost predicate ActsOffHead(acts: seq<Act>, head: int) {
    forall i :: 0 <= i < |acts| && acts[i].Call? ==> OffHead([acts[i].op], head)
  }

  /** Any run of calls and stores: every pointer returned is the model's, and at the end each block that the client
      holds has in it what the client last stored there, however often it was moved. */
  method ServeAll(h: Heap, acts: seq<Act>, ghost c: Client) returns (ps: seq<Option<int>>)
    requires h.Valid() && ClientInv(c, h.page) && c.run.arena == h.arena && Reflects(h.mem, c.known)
    requires LegalActs(c, acts, h.page) && ActsOffHead(acts, h.head)
    modifies h
    ensures h.Valid() && h.arena == DoAll(c, acts, h.page).run.arena && Reflects(h.mem, DoAll(c, acts, h.page).known)
    ensures ps == Answers(c, acts, h.page)
    decreases |acts|
  {
    hide Good, Inv, RunInv, LegalAct, Do, Answer, Reflects, OffHead, ClientInv;
    if acts == [] {
      return [];
    }
    assert acts[0].Call? ==> OffHead([acts[0].op], h.head);
    var p := Serve(h, acts[0], c);
    DoKeeps(c, acts[0], h.page);
    var more := ServeAll(h, acts[1..], Do(c, acts[0], h.page));
    ps := [p] + more;
  }

  lemma NewClient(page: int)
    requires PageOk(page)
    ensures ClientInv(NEW_CLIENT, page)
  {
    assert Used([]) == {} && Total([]) == 0;
  }

  ghost predicate LegalProgram(acts: seq<Act>, page: int)
    requires PageOk(page)
  {
    NewClient(page);
    LegalActs(NEW_CLIENT, acts, page)
  }

  /** From the start: a new heap and a client that holds nothing. */
  method ServeFromStart(head: int, page: int, acts: seq<Act>) returns (h: Heap, ps: seq<Option<int>>)
    requires PageOk(page) && LegalProgram(acts, page) && ActsOffHead(acts, head)
    ensures h.Valid()
    ensures (NewClient(page); Reflects(h.mem, DoAll(NEW_CLIENT, acts, page).known) &&
             ps == Answers(NEW_CLIENT, acts, page))
  {
    NewClient(page);
    h := new Heap(head, page);
    ps := ServeAll(h, acts, NEW_CLIENT);
  }
}
