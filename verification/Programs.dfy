/** Whole programs over an arena: any sequence of requests. */
module Programs {
  import opened Options
  import opened Sizes
  import opened Heap
  import opened Blocks
  import opened Release
  import opened Runs
  import opened Arena

  /** What a program asks of its arena; blocks are named by their addresses. */
  datatype Request = Alloc(bytes: nat) | Release(r: nat) | Grow(r: nat, bytes: nat)

  ghost function StateOf(arena: Arena): State
    reads arena
  {
    State(arena.Heap(), arena.dv)
  }

  predicate LiveMem(l: Layout, r: nat) { r > 16 && r - 16 in Live(l) }

  /** The addresses of the live blocks. */
  ghost predicate Holds(l: Layout, held: set<nat>) {
    forall r {:trigger LiveMem(l, r)} {:trigger r in held} :: r in held <==> LiveMem(l, r)
  }

  /** What the program holds after a step. */
  ghost function HeldAfter(held: set<nat>, op: Op): set<nat> {
    match op
    case Malloc(nb, v) => if v == 0 then held else held + {v + 16}
    case Free(p) => held - {p + 16}
    case Realloc(p, nb) => held
  }

  lemma HeldStep(s: State, op: Op, s': State, held: set<nat>)
    requires Good(s) && Step(s, op, s') && Holds(s.heap, held)
    ensures Good(s') && Holds(s'.heap, HeldAfter(held, op))
    ensures op.Malloc? && op.v != 0 ==> op.v + 16 !in held
  {
    StepGood(s, op, s');
    if op.Malloc? && op.v != 0 { ServedBlock(s.heap, s.dv, op.nb, op.v, s'.heap, s'.dv); }
    forall r: nat
      ensures r in HeldAfter(held, op) <==> LiveMem(s'.heap, r)
    {
      assert LiveMem(s.heap, r) <==> r in held;
    }
  }

  lemma ValidGood(arena: Arena)
    requires arena.Valid()
    ensures Good(StateOf(arena)) && 0 !in arena.chunks
  {
    VictimSize(arena.Heap(), arena.mem, arena.dv, arena.dvsize, arena.topsize);
  }

  /** The request reaches the arena and is not too large. */
  predicate Sensible(request: Request, held: set<nat>) {
    match request
    case Alloc(bytes) => bytes < MAX_REQUEST
    case Release(r) => r in held
    case Grow(r, bytes) => r in held && bytes < MAX_REQUEST
  }

  /** The operation is what the request asks for. */
  predicate Answers(request: Request, op: Op) {
    match request
    case Alloc(bytes) => bytes < MAX_REQUEST && op.Malloc? && op.nb == RequestSize(bytes)
    case Release(r) => r > 16 && op == Free(r - 16)
    case Grow(r, bytes) => r > 16 && bytes < MAX_REQUEST && op == Realloc(r - 16, RequestSize(bytes))
  }

  /** The operations answer the requests, in order, but for those that do not reach the arena. */
  ghost predicate Follows(requests: seq<Request>, ops: seq<Op>, held: set<nat>)
    decreases |requests|
  {
    if requests == [] then ops == []
    else if !Sensible(requests[0], held) then Follows(requests[1..], ops, held)
    else ops != [] && Answers(requests[0], ops[0]) && Follows(requests[1..], ops[1..], HeldAfter(held, ops[0]))
  }

  ghost function HeldEnd(ops: seq<Op>, held: set<nat>): set<nat> {
    if ops == [] then held else HeldEnd(ops[1..], HeldAfter(held, ops[0]))
  }

  function OpSeq(op: Option<Op>): seq<Op> { if op == None then [] else [op.value] }

  lemma {:induction false} FollowsMore(requests: seq<Request>, ops: seq<Op>, held: set<nat>,
                                       request: Request, op: Option<Op>)
    requires Follows(requests, ops, held) && (op == None <==> !Sensible(request, HeldEnd(ops, held)))
    requires op.Some? ==> Answers(request, op.value)
    ensures Follows(requests + [request], ops + OpSeq(op), held)
    ensures HeldEnd(ops + OpSeq(op), held) ==
              if op == None then HeldEnd(ops, held) else HeldAfter(HeldEnd(ops, held), op.value)
    decreases |requests|
  {
    if requests == [] {
      assert ops + OpSeq(op) == OpSeq(op);
    } else {
      assert (requests + [request])[1..] == requests[1..] + [request];
      if Sensible(requests[0], held) {
        FollowsMore(requests[1..], ops[1..], HeldAfter(held, ops[0]), request, op);
        assert (ops + OpSeq(op))[1..] == ops[1..] + OpSeq(op);
      } else {
        FollowsMore(requests[1..], ops, held, request, op);
      }
    }
  }

  /** A run followed by a step is a run. */
  lemma {:induction false} RunMore(s: State, ops: seq<Op>, t: seq<State>, op: Op, s': State)
    requires Good(s) && Run(s, ops, t) && Good(Final(s, t)) && Step(Final(s, t), op, s')
    ensures Run(s, ops + [op], t + [s'])
    decreases |ops|
  {
    if ops == [] {
      StepGood(s, op, s');
    } else {
      StepGood(s, ops[0], t[0]);
      RunMore(t[0], ops[1..], t[1..], op, s');
      assert (ops + [op])[1..] == ops[1..] + [op] && (t + [s'])[1..] == t[1..] + [s'];
    }
  }

  /** `op` is what the arena went through, or nothing happened; the program holds `held` now. */
  twostate predicate Served(arena: Arena, new op: Option<Op>, before: set<nat>, held: set<nat>)
    reads arena
  {
    && Good(old(StateOf(arena))) && Holds(arena.Heap(), held)
    && if op == None then StateOf(arena) == old(StateOf(arena)) && held == before
       else Step(old(StateOf(arena)), op.value, StateOf(arena)) && held == HeldAfter(before, op.value)
  }

  method ServeAlloc(arena: Arena, bytes: nat, before: set<nat>) returns (held: set<nat>, ghost op: Option<Op>)
    requires arena.Valid() && Holds(arena.Heap(), before)
    modifies arena, arena.bins.small, arena.bins.tree
    ensures arena.Valid() && Served(arena, op, before, held) && (op == None <==> bytes >= MAX_REQUEST)
    ensures op.Some? ==> Answers(Alloc(bytes), op.value)
  {
    ValidGood(arena);
    var r := arena.Malloc(bytes);
    held, op := if r == 0 then before else before + {r}, None;
    if bytes < MAX_REQUEST {
      op := Some(Malloc(RequestSize(bytes), if r == 0 then 0 else r - 16));
      HeldStep(old(StateOf(arena)), op.value, StateOf(arena), before);
    }
  }

  lemma HeldLive(l: Layout, held: set<nat>, r: nat)
    requires Holds(l, held) && r in held
    ensures r > 16 && r - 16 in Live(l) && l.Inuse(r - 16) && r - 16 != l.first
  {
    assert LiveMem(l, r);
  }

  lemma FreeStep(s: State, p: nat)
    requires Good(s) && p in Live(s.heap)
    ensures Step(s, Free(p), State(Released(s.heap, p), ReleasedDv(s.heap, s.dv, p)))
  {
  }

  method ServeRelease(arena: Arena, r: nat, before: set<nat>) returns (held: set<nat>, ghost op: Option<Op>)
    requires arena.Valid() && Holds(arena.Heap(), before) && r in before
    modifies arena, arena.bins.small, arena.bins.tree
    ensures arena.Valid() && Served(arena, op, before, held) && op.Some? && Answers(Release(r), op.value)
  {
    ValidGood(arena);
    HeldLive(arena.Heap(), before, r);
    ghost var s := StateOf(arena);
    arena.Free(r);
    held, op := before - {r}, Some(Free(r - 16));
    FreeStep(s, r - 16);
    assert StateOf(arena) == State(Released(s.heap, r - 16), ReleasedDv(s.heap, s.dv, r - 16));
    HeldStep(s, op.value, StateOf(arena), before);
  }

  method ServeGrow(arena: Arena, r: nat, bytes: nat, before: set<nat>) returns (held: set<nat>, ghost op: Option<Op>)
    requires arena.Valid() && Holds(arena.Heap(), before) && r in before && bytes < MAX_REQUEST
    modifies arena, arena.bins.small, arena.bins.tree
    ensures arena.Valid() && Served(arena, op, before, held) && op.Some? && Answers(Grow(r, bytes), op.value)
  {
    ValidGood(arena);
    assert LiveMem(arena.Heap(), r);
    var _ := arena.TryRealloc(r - 16, RequestSize(bytes));
    ValidGood(arena);
    held, op := before, Some(Realloc(r - 16, RequestSize(bytes)));
    HeldStep(old(StateOf(arena)), op.value, StateOf(arena), before);
  }

  /** One request; the program frees and resizes only blocks that it holds. */
  method Serve(arena: Arena, request: Request, before: set<nat>) returns (held: set<nat>, ghost op: Option<Op>)
    requires arena.Valid() && Holds(arena.Heap(), before)
    modifies arena, arena.bins.small, arena.bins.tree
    ensures arena.Valid() && Served(arena, op, before, held)
    ensures (op == None <==> !Sensible(request, before)) && (op.Some? ==> Answers(request, op.value))
  {
    held, op := before, None;
    ValidGood(arena);
    match request
    case Alloc(bytes) => held, op := ServeAlloc(arena, bytes, before);
    case Release(r) => if r in before { held, op := ServeRelease(arena, r, before); }
    case Grow(r, bytes) => if r in before && bytes < MAX_REQUEST { held, op := ServeGrow(arena, r, bytes, before); }
  }

  /** Any sequence of requests is a run, and the program holds exactly the live blocks. */
  method Execute(arena: Arena, requests: seq<Request>)
      returns (held: set<nat>, ghost ops: seq<Op>, ghost trace: seq<State>)
    requires arena.Valid() && Live(arena.Heap()) == map[]
    modifies arena, arena.bins.small, arena.bins.tree
    ensures arena.Valid() && Holds(arena.Heap(), held)
    ensures Good(old(StateOf(arena))) && Run(old(StateOf(arena)), ops, trace)
    ensures Final(old(StateOf(arena)), trace) == StateOf(arena)
    ensures Follows(requests, ops, {}) && held == HeldEnd(ops, {})
  {
    ValidGood(arena);
    ghost var s := StateOf(arena);
    held, ops, trace := {}, [], [];
    var k := 0;
    while k < |requests|
      invariant 0 <= k <= |requests| && arena.Valid() && Holds(arena.Heap(), held)
      invariant Executed(s, requests[..k], ops, trace, StateOf(arena), held)
    {
      ghost var op, s0, held0 := None, StateOf(arena), held;
      held, op := Serve(arena, requests[k], held);
      assert requests[..k + 1] == requests[..k] + [requests[k]];
      ExecutedMore(s, requests[..k], ops, trace, s0, held0, requests[k], op, StateOf(arena));
      ops, trace := ops + OpSeq(op), if op == None then trace else trace + [StateOf(arena)];
      k := k + 1;
    }
    assert requests[..k] == requests;
  }

  /** The requests led from `s` to `s'` by these operations. */
  ghost predicate Executed(s: State, requests: seq<Request>, ops: seq<Op>, trace: seq<State>, s': State, held: set<nat>)
    requires Good(s)
  {
    Run(s, ops, trace) && Final(s, trace) == s' && Follows(requests, ops, {}) && held == HeldEnd(ops, {})
  }

  lemma ExecutedMore(s: State, requests: seq<Request>, ops: seq<Op>, trace: seq<State>, s0: State, held: set<nat>,
                     request: Request, op: Option<Op>, s1: State)
    requires Good(s) && Executed(s, requests, ops, trace, s0, held) && Good(s0)
    requires (op == None <==> !Sensible(request, held)) && (op.Some? ==> Answers(request, op.value))
    requires if op == None then s1 == s0 else Step(s0, op.value, s1)
    ensures Executed(s, requests + [request], ops + OpSeq(op), if op == None then trace else trace + [s1], s1,
                     if op == None then held else HeldAfter(held, op.value))
  {
    FollowsMore(requests, ops, {}, request, op);
    if op.Some? { RunMore(s, ops, trace, op.value, s1); } else { assert ops + OpSeq(op) == ops; }
  }

  /** A program on an arena of its own: if it holds nothing in the end, the arena is as it was in the beginning. */
  method RunProgram(base: nat, capacity: nat, page: nat, requests: seq<Request>)
      returns (r: Option<Arena>, held: set<nat>)
    requires 0 < base && base + capacity <= WORD && page < WORD - HEADER_SIZE - TOP_FOOT_SIZE
    requires Usable(base, capacity)
    ensures r.Some? <==> HEADER_SIZE + TOP_FOOT_SIZE < capacity < WORD - (HEADER_SIZE + TOP_FOOT_SIZE + page)
    ensures r.Some? ==> r.value.Valid() && Holds(r.value.Heap(), held)
    ensures r.Some? && held == {} ==> r.value.Heap() == InitialLayout(base, capacity) && r.value.dv == 0
  {
    held := {};
    r := CreateWithBase(base, capacity, page);
    if r.Some? {
      ghost var ops, trace;
      assert Live(r.value.Heap()) == map[];
      ghost var s := StateOf(r.value);
      held, ops, trace := Execute(r.value, requests);
      if held == {} { NothingLive(StateOf(r.value).heap); RunRestores(s, ops, trace); }
    }
  }

  lemma NothingLive(l: Layout)
    requires Holds(l, {}) && l.Tiled() && 0 < l.first
    ensures Live(l) == map[]
  {
    forall p | p in Live(l)
      ensures false
    {
      ChunkFacts(l, p);
      assert LiveMem(l, p + 16);
    }
  }
}
