/** Memory sources over their arenas: where the regions of their blocks come from. */
module Stores {
  import opened Sizes
  import opened Heap
  import opened Release
  import opened Choice
  import opened Runs
  import M = MemSources

  /** The sources, the arenas, and the arena that each pointer was allocated from. */
  datatype World = World(st: M.State, arenas: map<nat, State>, home: map<nat, nat>)

  /** What happens; the state of an arena behind an allocation is `s'`. */
  datatype Event =
    | Allocate(k: nat, a: M.Step, v: nat, s': State)
    | GiveBack(q: nat)
    | Count(a: M.Step)          // handles, and the delayed counts of freed blocks
    | NewArena(k: nat, s: State)

  /** The block lies in a live block of the arena. */
  predicate Inside(l: Layout, b: M.Block) {
    b.start > 16 && b.start - 16 in Live(l) && b.length + 8 <= Live(l)[b.start - 16]
  }

  /** The block lies outside of the segment. */
  predicate Outside(l: Layout, b: M.Block) {
    b.start + b.length <= l.first || l.end + TOP_FOOT_SIZE <= b.start
  }

  predicate SegmentsApart(l: Layout, l': Layout) {
    l.end + TOP_FOOT_SIZE <= l'.first || l'.end + TOP_FOOT_SIZE <= l.first
  }

  predicate BlockHome(w: World, q: nat) {
    q in w.st.blocks ==>
      q in w.home && w.home[q] in w.arenas && Inside(w.arenas[w.home[q]].heap, w.st.blocks[q])
  }

  ghost predicate ArenaOk(w: World, k: nat) { k in w.arenas ==> Good(w.arenas[k]) }

  predicate ArenasApart(w: World, j: nat, k: nat) {
    j in w.arenas && k in w.arenas && j != k ==> SegmentsApart(w.arenas[j].heap, w.arenas[k].heap)
  }

  ghost predicate Sound(w: World) {
    && M.Inv(w.st)
    && (forall k {:trigger ArenaOk(w, k)} :: ArenaOk(w, k))
    && (forall j, k {:trigger ArenasApart(w, j, k)} :: ArenasApart(w, j, k))
    && (forall q {:trigger BlockHome(w, q)} :: BlockHome(w, q))
  }

  /**
   What may happen. An allocation says only what the source checks and what malloc does; that the
   region is not in use follows. A new arena is on memory of its own.
   */
  ghost predicate Enabled(w: World, e: Event) {
    match e
    case Allocate(k, a, v, s') =>
      && (a.Alloc? || (a.AllocAlign? && a.align > 0)) && M.CanAlloc(w.st, a.s)
      && k in w.arenas && M.Length(a) < MAX_REQUEST && v != 0 && a.start == v + 16
      && Serves(w.arenas[k].heap, w.arenas[k].dv, RequestSize(M.Length(a)), v, s'.heap, s'.dv)
    case GiveBack(q) => M.Enabled(w.st, M.FreeBegin(q))
    case Count(a) => !a.Alloc? && !a.AllocAlign? && !a.FreeBegin? && M.Enabled(w.st, a)
    case NewArena(k, s) =>
      && k !in w.arenas && Good(s) && Live(s.heap) == map[]
      && forall j :: j in w.arenas ==> SegmentsApart(w.arenas[j].heap, s.heap)
  }

  /** What the sources see of it. */
  function SourceSteps(e: Event): seq<M.Step> {
    match e
    case Allocate(k, a, v, s') => [a]
    case GiveBack(q) => [M.FreeBegin(q)]
    case Count(a) => [a]
    case NewArena(k, s) => []
  }

  /** A served region lies in a new block and overlaps no block of this or another arena. */
  lemma RegionApart(s: State, bytes: nat, v: nat, s': State, b: M.Block)
    requires Good(s) && bytes < MAX_REQUEST && Serves(s.heap, s.dv, RequestSize(bytes), v, s'.heap, s'.dv) && v != 0
    requires Inside(s.heap, b) || Outside(s.heap, b)
    ensures M.Disjoint(b, v + 16, bytes)
    ensures Inside(s.heap, b) ==> Inside(s'.heap, b)
  {
    var l, l' := s.heap, s'.heap;
    ServedBlock(l, s.dv, RequestSize(bytes), v, l', s'.dv);
    ChunkFacts(l', v);
    ChunkFacts(l', l'.top);
    if Inside(l, b) { Disjointness(l', b.start - 16, v); }
  }

  lemma ServedInside(s: State, bytes: nat, v: nat, s': State, src: nat)
    requires Good(s) && bytes < MAX_REQUEST && Serves(s.heap, s.dv, RequestSize(bytes), v, s'.heap, s'.dv) && v != 0
    ensures Inside(s'.heap, M.Block(src, v + 16, bytes))
    ensures Good(s') && s'.heap.first == s.heap.first && s'.heap.end == s.heap.end
  {
    ServedBlock(s.heap, s.dv, RequestSize(bytes), v, s'.heap, s'.dv);
  }

  /** What is inside one arena is outside of the others. */
  lemma InsideOutside(l: Layout, l': Layout, b: M.Block)
    requires l.Tiled() && SegmentsApart(l, l') && Inside(l, b)
    ensures Outside(l', b)
  {
    ChunkFacts(l, b.start - 16);
    ChunkFacts(l, l.top);
    ChunkFacts(l, l.first);
  }

  /** Each block is inside the arena or outside of it. */
  lemma Placed(w: World, k: nat, q: nat)
    requires Sound(w) && k in w.arenas && q in w.st.blocks
    ensures Inside(w.arenas[k].heap, w.st.blocks[q]) || Outside(w.arenas[k].heap, w.st.blocks[q])
    ensures q in w.home && (w.home[q] == k ==> Inside(w.arenas[k].heap, w.st.blocks[q]))
  {
    assert BlockHome(w, q) && ArenasApart(w, w.home[q], k) && ArenaOk(w, w.home[q]);
    if w.home[q] != k { InsideOutside(w.arenas[w.home[q]].heap, w.arenas[k].heap, w.st.blocks[q]); }
  }

  /** The steps of the sources are possible: the regions that the arenas hand out are not in use. */
  lemma StepsEnabled(w: World, e: Event)
    requires Sound(w) && Enabled(w, e)
    ensures SourceSteps(e) != [] ==> M.Enabled(w.st, SourceSteps(e)[0])
  {
    if e.Allocate? {
      assert ArenaOk(w, e.k);
      forall q | q in w.st.blocks
        ensures M.Disjoint(w.st.blocks[q], e.a.start, M.Length(e.a))
      {
        Placed(w, e.k, q);
        RegionApart(w.arenas[e.k], M.Length(e.a), e.v, e.s', w.st.blocks[q]);
      }
    }
  }

  /** The arena that a block goes back to. */
  ghost function Freed(s: State, b: M.Block): State
    requires Good(s) && Inside(s.heap, b)
  {
    State(Released(s.heap, b.start - 16), ReleasedDv(s.heap, s.dv, b.start - 16))
  }

  ghost function Do(w: World, e: Event): World
    requires Sound(w) && Enabled(w, e)
  {
    StepsEnabled(w, e);
    match e
    case Allocate(k, a, v, s') => World(M.Do(w.st, a), w.arenas[k := s'], w.home[M.PointerOf(a) := k])
    case GiveBack(q) =>
      assert BlockHome(w, q) && ArenaOk(w, w.home[q]);
      var k := w.home[q];
      w.(st := M.Do(w.st, M.FreeBegin(q)), arenas := w.arenas[k := Freed(w.arenas[k], w.st.blocks[q])])
    case Count(a) => w.(st := M.Do(w.st, a))
    case NewArena(k, s) => w.(arenas := w.arenas[k := s])
  }

  lemma AllocateSound(w: World, e: Event)
    requires Sound(w) && Enabled(w, e) && e.Allocate?
    ensures Sound(Do(w, e))
  {
    var w', k := Do(w, e), e.k;
    StepsEnabled(w, e);
    M.StepInv(w.st, e.a);
    assert ArenaOk(w, k);
    ServedInside(w.arenas[k], M.Length(e.a), e.v, e.s', e.a.s);
    forall j: nat ensures ArenaOk(w', j) { assert ArenaOk(w, j); }
    forall i: nat, j: nat ensures ArenasApart(w', i, j) { assert ArenasApart(w, i, j); }
    forall q: nat
      ensures BlockHome(w', q)
    {
      assert BlockHome(w, q);
      if q in w.st.blocks && q != M.PointerOf(e.a) {
        Placed(w, k, q);
        RegionApart(w.arenas[k], M.Length(e.a), e.v, e.s', w.st.blocks[q]);
      }
    }
  }

  lemma FreeSound(w: World, q: nat)
    requires Sound(w) && Enabled(w, GiveBack(q))
    ensures Sound(Do(w, GiveBack(q)))
  {
    assert BlockHome(w, q) && ArenaOk(w, w.home[q]);
    var w', k, b := Do(w, GiveBack(q)), w.home[q], w.st.blocks[q];
    M.StepInv(w.st, M.FreeBegin(q));
    ReleasedBlock(w.arenas[k].heap, w.arenas[k].dv, b.start - 16);
    forall j: nat ensures ArenaOk(w', j) { assert ArenaOk(w, j); }
    forall i: nat, j: nat ensures ArenasApart(w', i, j) { assert ArenasApart(w, i, j); }
    forall r: nat
      ensures BlockHome(w', r)
    {
      assert BlockHome(w, r) && M.Apart(w.st, q, r) && M.BlockOk(w.st, q) && M.BlockOk(w.st, r);
    }
  }

  lemma StepSound(w: World, e: Event)
    requires Sound(w) && Enabled(w, e)
    ensures Sound(Do(w, e))
  {
    match e
    case Allocate(k, a, v, s') => AllocateSound(w, e);
    case GiveBack(q) => FreeSound(w, q);
    case Count(a) =>
      M.StepInv(w.st, a);
      OtherSound(w, e);
    case NewArena(k, s) => OtherSound(w, e);
  }

  lemma OtherSound(w: World, e: Event)
    requires Sound(w) && Enabled(w, e) && (e.NewArena? || (e.Count? && M.Inv(M.Do(w.st, e.a))))
    ensures Sound(Do(w, e))
  {
    var w' := Do(w, e);
    forall j: nat ensures ArenaOk(w', j) { assert ArenaOk(w, j); }
    forall i: nat, j: nat ensures ArenasApart(w', i, j) { assert ArenasApart(w, i, j); }
    forall r: nat ensures BlockHome(w', r) { assert BlockHome(w, r); }
  }

  // ----- runs -----

  /** Before the first source and the first arena. */
  lemma InitSound(footers: map<nat, M.Footer>)
    ensures Sound(World(M.State(map[], map[], footers), map[], map[]))
  {
    var w := World(M.State(map[], map[], footers), map[], map[]);
    M.InitInv(footers);
    forall k: nat ensures ArenaOk(w, k) {}
    forall j: nat, k: nat ensures ArenasApart(w, j, k) {}
    forall q: nat ensures BlockHome(w, q) {}
  }

  ghost predicate Run(w: World, events: seq<Event>)
    requires Sound(w)
    decreases |events|
  {
    events != [] ==> Enabled(w, events[0]) && (StepSound(w, events[0]); Run(Do(w, events[0]), events[1..]))
  }

  ghost function After(w: World, events: seq<Event>): World
    requires Sound(w) && Run(w, events)
    decreases |events|
  {
    if events == [] then w else StepSound(w, events[0]); After(Do(w, events[0]), events[1..])
  }

  function StepsOf(events: seq<Event>): seq<M.Step> {
    if events == [] then [] else SourceSteps(events[0]) + StepsOf(events[1..])
  }

  /**
   Over every run of sources and arenas, the sources go through a run of their own, so that all that
   is proved of those holds, and every block stays in a live block of its arena.
   */
  lemma {:induction false} SourceRun(w: World, events: seq<Event>)
    requires Sound(w) && Run(w, events)
    ensures M.Run(w.st, StepsOf(events)) && M.After(w.st, StepsOf(events)) == After(w, events).st
    ensures Sound(After(w, events))
    decreases |events|
  {
    if events != [] {
      var e, rest := events[0], events[1..];
      StepsEnabled(w, e);
      StepSound(w, e);
      SourceRun(Do(w, e), rest);
      if SourceSteps(e) != [] {
        assert StepsOf(events)[0] == SourceSteps(e)[0] && StepsOf(events)[1..] == StepsOf(rest);
      } else {
        assert StepsOf(events) == StepsOf(rest);
      }
    }
  }

  /** Over every run, the bytes that a program got lie in the payload of a live block of the arena they came from. */
  lemma GrantedBacked(w: World, events: seq<Event>, before: map<nat, nat>, q: nat)
    requires Sound(w) && Run(w, events) && M.InRegions(w.st, before)
    requires q in M.Granted(StepsOf(events), before)
    ensures var f, size := After(w, events), M.Granted(StepsOf(events), before)[q];
            && q in f.home && f.home[q] in f.arenas && q in f.st.blocks && f.st.blocks[q].start > 16
            && var l, p := f.arenas[f.home[q]].heap, f.st.blocks[q].start - 16;
            p in Live(l) && p + 16 + M.FOOTER <= q && q + size <= p + Live(l)[p] + 8
  {
    SourceRun(w, events);
    M.GrantedInRegions(w.st, StepsOf(events), before);
    var f := After(w, events);
    assert M.InRegion(f.st, M.Granted(StepsOf(events), before), q) && BlockHome(f, q);
  }
}
