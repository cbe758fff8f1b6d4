/** What holds in every run of an arena: live blocks stay, and nothing gets lost. */
module Runs {
  import opened Sizes
  import opened Heap
  import opened Blocks
  import opened Release
  import opened Choice
  import opened Resize

  predicate LiveAt(l: Layout, a: nat) { l.Inuse(a) && a != l.first }

  /** The blocks that the program holds: all chunks in use but the one with the malloc_state. */
  function Live(l: Layout): map<nat, nat> {
    map a | a in l.chunks && LiveAt(l, a) :: if LiveAt(l, a) then l.chunks[a].size else 0
  }

  /** Live blocks are disjoint from each other and from the malloc_state, and lie in the segment. */
  lemma Disjointness(l: Layout, p: nat, q: nat)
    requires l.Tiled() && p in Live(l) && q in Live(l) && p != q
    ensures p + Live(l)[p] <= q || q + Live(l)[q] <= p
    ensures l.first + HEADER_SIZE <= p && p + Live(l)[p] <= l.top < l.end
    ensures p % 8 == 0 && Live(l)[p] >= MIN_CHUNK_SIZE
  {
    assert l.Apart(p, q) && l.Apart(q, p);
    ChunkFacts(l, p);
  }

  // ----- malloc -----

  /** A request fails exactly when no binned chunk, victim or top chunk is large enough. */
  lemma FailsOnlyWhenFull(l: Layout, dv: nat, nb: nat)
    requires 0 !in l.chunks && nb > 0 && l.top != 0 && (dv != 0 ==> l.Free(dv))
    ensures Chooses(l, dv, nb, 0) <==>
            && (forall a :: a in Binned(l, dv) ==> Binned(l, dv)[a] < nb)
            && SizeOf(l, dv) < nb && SizeOf(l, l.top) <= nb
  {
  }

  /** A served request gets a new block of the right size, and all others stay. */
  lemma ServedBlock(l: Layout, dv: nat, nb: nat, v: nat, l': Layout, dv': nat)
    requires l.Tiled() && 0 < l.first && (dv != 0 ==> l.Free(dv) && dv != l.top)
    requires Serves(l, dv, nb, v, l', dv') && v != 0 && nb % 8 == 0 && MIN_CHUNK_SIZE <= nb
    ensures v !in Live(l) && v in Live(l') && nb <= Live(l')[v] < nb + MIN_CHUNK_SIZE
    ensures Live(l') == Live(l)[v := Live(l')[v]]
    ensures l'.Tiled() && l'.first == l.first && l'.end == l.end
    ensures dv' != 0 ==> l'.Free(dv') && dv' != l'.top
  {
    ChunkFacts(l, l.top);
    if 0 in l.chunks { ChunkFacts(l, 0); }
    ChosenFree(l, dv, nb, v);
    TakenBlock(l, nb, v);
    TakeChunks(l, v, nb);
  }

  lemma ChosenFree(l: Layout, dv: nat, nb: nat, v: nat)
    requires l.Free(l.top) && 0 !in l.chunks && (dv != 0 ==> l.Free(dv) && dv != l.top)
    requires Chooses(l, dv, nb, v) && v != 0 && nb > 0
    ensures l.Free(v) && nb <= l.chunks[v].size && (v == l.top ==> nb < l.chunks[v].size)
  {
  }

  lemma TakenBlock(l: Layout, nb: nat, v: nat)
    requires l.Tiled() && l.Free(v) && nb % 8 == 0 && MIN_CHUNK_SIZE <= nb <= l.chunks[v].size
    requires v == l.top ==> nb < l.chunks[v].size
    ensures var l' := Take(l, v, nb);
            && v in Live(l') && nb <= Live(l')[v] < nb + MIN_CHUNK_SIZE && v !in Live(l)
            && Live(l') == Live(l)[v := Live(l')[v]]
            && l'.Tiled()
  {
    ChunkFacts(l, v);
    ChunkFacts(l, l.first);
    TakeChunks(l, v, nb);
    RecastTiled(l, v, TakenSize(l, v, nb), true, l.Next(v), false);
  }

  // ----- free -----

  lemma ReleasedBlock(l: Layout, dv: nat, p: nat)
    requires l.Tiled() && 0 < l.first && p in Live(l) && (dv != 0 ==> l.Free(dv) && dv != l.top)
    ensures var l', dv' := Released(l, p), ReleasedDv(l, dv, p);
            && Live(l') == Live(l) - {p} && l'.Tiled() && l'.first == l.first && l'.end == l.end
            && (dv' != 0 ==> l'.Free(dv') && dv' != l'.top)
  {
    Bounds(l, p);
    ReleasedChunks(l, p);
  }

  // ----- realloc in place -----

  /** A resized block keeps its address and has the size asked for, and all others stay. */
  lemma ResizedBlock(l: Layout, p: nat, nb: nat)
    requires l.Tiled() && p in Live(l) && nb % 8 == 0 && MIN_CHUNK_SIZE <= nb && Resizable(l, p, nb)
    ensures var l' := Resized(l, p, nb);
            && p in Live(l') && nb <= Live(l')[p] < nb + MIN_CHUNK_SIZE
            && Live(l') == Live(l)[p := Live(l')[p]]
            && l'.Tiled() && l'.first == l.first && l'.end == l.end
  {
    var s := l.chunks[p].size;
    if !(nb <= s < nb + MIN_CHUNK_SIZE) {
      var e := p + s + Room(l, p);
      ChunkFacts(l, p);
      ReachFacts(l, p, e);
      var k := if l.Next(p) == l.top || e - p - nb >= MIN_CHUNK_SIZE then nb else e - p;
      ReachTiled(l, p, k, e);
      ReachLive(l, p, k, e);
    }
  }

  lemma ReachTiled(l: Layout, p: nat, k: nat, e: nat)
    requires l.Tiled() && Reach(l, p, e) && k % 8 == 0 && MIN_CHUNK_SIZE <= k && p + k <= e
    requires e == p + l.chunks[p].size + Room(l, p)
    requires p + k < e ==> e == l.end || p + k + MIN_CHUNK_SIZE <= e
    requires p + k == e ==> e != l.end
    ensures l.Recast(p, k, true, e, false).Tiled()
  {
    ReachFacts(l, p, e);
    ChunkFacts(l, l.Next(p));
    RecastTiled(l, p, k, true, e, false);
  }

  lemma ReachLive(l: Layout, p: nat, k: nat, e: nat)
    requires l.Tiled() && Reach(l, p, e) && 0 < k && p + k <= e && (e == l.Next(p) ==> p + k < e)
    ensures Live(l.Recast(p, k, true, e, false)) == Live(l)[p := k]
  {
    ReachFacts(l, p, e);
    ReachChunks(l, p, k, e, false);
  }

  // ----- the empty arena -----

  /** Without live blocks there is only the top chunk, with its original size. */
  lemma AllReleased(l: Layout)
    requires l.Tiled() && Live(l) == map[]
    ensures l.top == l.first + HEADER_SIZE < l.end
    ensures l.chunks == map[l.first := Chunk(HEADER_SIZE, true), l.top := Chunk(l.end - l.top, false)]
  {
    ChunkFacts(l, l.first);
    var n := l.Next(l.first);
    ChunkFacts(l, n);
    NoneLive(l, n);
    if n != l.top { NoneLive(l, l.Next(n)); }
    forall a | a in l.chunks && a != l.first
      ensures a == l.top
    {
      ChunkFacts(l, a);
      assert l.Apart(l.top, a) && l.Apart(a, l.top);
    }
  }

  lemma NoneLive(l: Layout, a: nat)
    requires Live(l) == map[]
    ensures !LiveAt(l, a)
  {
    assert a !in Live(l);
  }

  // ----- conservation -----

  /** The bytes of the chunks from `a` on, in address order. */
  ghost function Bytes(l: Layout, a: nat): nat
    requires l.Tiled() && a in l.chunks
    decreases l.end - a
  {
    ChunkFacts(l, a);
    l.chunks[a].size + if a == l.top then 0 else Bytes(l, l.Next(a))
  }

  /** In every tiling of a segment the chunks add up to the same total. */
  lemma {:induction false} Conservation(l: Layout, a: nat)
    requires l.Tiled() && a in l.chunks
    ensures Bytes(l, a) == l.end - a
    decreases l.end - a
  {
    ChunkFacts(l, a);
    if a != l.top { Conservation(l, l.Next(a)); }
  }

  // ----- runs -----

  /** What the program asks for; `v` is the chunk chosen, or 0. */
  datatype Op = Malloc(nb: nat, v: nat) | Free(p: nat) | Realloc(p: nat, nb: nat)

  datatype State = State(heap: Layout, dv: nat)

  ghost predicate Good(s: State) {
    s.heap.Tiled() && 0 < s.heap.first && (s.dv != 0 ==> s.heap.Free(s.dv) && s.dv != s.heap.top)
  }

  /** The effect of Malloc, Free and TryRealloc of an arena. */
  ghost predicate Step(s: State, op: Op, s': State)
    requires Good(s)
  {
    match op
    case Malloc(nb, v) =>
      nb % 8 == 0 && MIN_CHUNK_SIZE <= nb && Serves(s.heap, s.dv, nb, v, s'.heap, s'.dv)
    case Free(p) =>
      p in Live(s.heap) && s' == State(Released(s.heap, p), ReleasedDv(s.heap, s.dv, p))
    case Realloc(p, nb) =>
      && p in Live(s.heap) && nb % 8 == 0 && MIN_CHUNK_SIZE <= nb
      && s'.heap == (if Resizable(s.heap, p, nb) then Resized(s.heap, p, nb) else s.heap)
      && s'.dv == VictimAfter(s.heap, s'.heap, s.dv, p)
      && (s'.dv != 0 ==> s'.heap.Free(s'.dv) && s'.dv != s'.heap.top)
  }

  /** The live blocks after a step, as a map of its own. */
  ghost function Replay(live: map<nat, nat>, op: Op, s': State): map<nat, nat> {
    match op
    case Malloc(nb, v) => if v == 0 then live else live[v := SizeOf(s'.heap, v)]
    case Free(p) => live - {p}
    case Realloc(p, nb) => live[p := SizeOf(s'.heap, p)]
  }

  lemma StepGood(s: State, op: Op, s': State)
    requires Good(s) && Step(s, op, s')
    ensures Good(s') && s'.heap.first == s.heap.first && s'.heap.end == s.heap.end
    ensures Live(s'.heap) == Replay(Live(s.heap), op, s')
  {
    match op
    case Malloc(nb, v) =>
      if v != 0 { ServedBlock(s.heap, s.dv, nb, v, s'.heap, s'.dv); }
    case Free(p) =>
      ReleasedBlock(s.heap, s.dv, p);
    case Realloc(p, nb) =>
      if Resizable(s.heap, p, nb) {
        ResizedBlock(s.heap, p, nb);
      } else {
        assert Live(s.heap)[p := Live(s.heap)[p]] == Live(s.heap);
      }
  }

  /** A run from `s` through the states `t`. */
  ghost predicate Run(s: State, ops: seq<Op>, t: seq<State>)
    requires Good(s)
    decreases |ops|
  {
    && |t| == |ops|
    && (ops != [] ==>
          && Step(s, ops[0], t[0])
          && (StepGood(s, ops[0], t[0]);
              Run(t[0], ops[1..], t[1..])))
  }

  function Final(s: State, t: seq<State>): State { if t == [] then s else t[|t| - 1] }

  predicate Touches(op: Op, p: nat) {
    match op
    case Malloc(nb, v) => false
    case Free(q) => q == p
    case Realloc(q, nb) => q == p
  }

  /** Every run ends in a good state, over the same segment. */
  lemma {:induction false} RunGood(s: State, ops: seq<Op>, t: seq<State>)
    requires Good(s) && Run(s, ops, t)
    ensures var f := Final(s, t); Good(f) && f.heap.first == s.heap.first && f.heap.end == s.heap.end
    decreases |ops|
  {
    if ops != [] {
      StepGood(s, ops[0], t[0]);
      RunGood(t[0], ops[1..], t[1..]);
    }
  }

  /** A block is neither moved nor resized nor handed out again until it is itself freed or resized. */
  lemma {:induction false} Untouched(s: State, ops: seq<Op>, t: seq<State>, p: nat)
    requires Good(s) && Run(s, ops, t) && p in Live(s.heap)
    requires forall i :: 0 <= i < |ops| ==> !Touches(ops[i], p)
    ensures p in Live(Final(s, t).heap) && Live(Final(s, t).heap)[p] == Live(s.heap)[p]
    decreases |ops|
  {
    if ops != [] {
      StepGood(s, ops[0], t[0]);
      if ops[0].Malloc? && ops[0].v != 0 {
        ServedBlock(s.heap, s.dv, ops[0].nb, ops[0].v, t[0].heap, t[0].dv);
      }
      Untouched(t[0], ops[1..], t[1..], p);
    }
  }

  /** A run that begins and ends without live blocks restores the heap, whatever it did in between. */
  lemma RunRestores(s: State, ops: seq<Op>, t: seq<State>)
    requires Good(s) && Run(s, ops, t)
    requires Live(s.heap) == map[] && Live(Final(s, t).heap) == map[]
    ensures Final(s, t).heap == s.heap && Final(s, t).dv == 0
  {
    RunGood(s, ops, t);
    Restored(s.heap, Final(s, t).heap, Final(s, t).dv);
  }

  lemma Restored(l: Layout, l': Layout, dv': nat)
    requires l.Tiled() && Live(l) == map[] && l'.Tiled() && Live(l') == map[]
    requires l'.first == l.first && l'.end == l.end && (dv' != 0 ==> l'.Free(dv') && dv' != l'.top)
    ensures l' == l && dv' == 0
  {
    AllReleased(l);
    AllReleased(l');
  }
}
