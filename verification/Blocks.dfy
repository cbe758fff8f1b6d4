/** What taking and releasing blocks means, apart from words and links. */
module Blocks {
  import opened Sizes
  import opened Heap
  import opened TreeSteps

  /** The free chunks that are in bins: all but the designated victim and the top chunk. */
  function Binned(l: Layout, dv: nat): map<nat, nat> {
    map a | a in l.chunks && InBin(l, dv, a) :: if InBin(l, dv, a) then l.chunks[a].size else 0
  }

  predicate InBin(l: Layout, dv: nat, a: nat) {
    l.Free(a) && a != dv && a != l.top
  }

  ghost predicate Intact(l: Layout, m: Memory, dv: nat, dvsize: nat, topsize: nat) {
    && l.Tiled() && Tags(l, m) && 0 < l.first && l.end < WORD
    && (dv == 0 <==> dvsize == 0)
    && (dv != 0 ==> l.Free(dv) && dv != l.top && l.chunks[dv].size == dvsize)
    && topsize == l.chunks[l.top].size
  }

  lemma VictimSize(l: Layout, m: Memory, dv: nat, dvsize: nat, topsize: nat)
    requires Intact(l, m, dv, dvsize, topsize)
    ensures dvsize < WORD - HEADER_SIZE && topsize < WORD - HEADER_SIZE && 0 !in l.chunks && 0 !in Binned(l, dv)
    ensures dvsize == if dv in l.chunks then l.chunks[dv].size else 0
  {
    ChunkFacts(l, l.top);
    if dv != 0 { ChunkFacts(l, dv); }
    if 0 in l.chunks { ChunkFacts(l, 0); }
  }

  // ----- taking a chunk -----

  predicate Splits(l: Layout, v: nat, nb: nat) {
    v in l.chunks && (v == l.top || l.chunks[v].size >= nb + MIN_CHUNK_SIZE)
  }

  /** Chunk `v` serves a request of `nb` bytes. */
  function Take(l: Layout, v: nat, nb: nat): Layout
    requires v in l.chunks && nb <= l.chunks[v].size
  {
    l.Recast(v, if Splits(l, v, nb) then nb else l.chunks[v].size, true, l.Next(v), false)
  }

  /** The size that chunk `v` keeps. */
  function TakenSize(l: Layout, v: nat, nb: nat): nat
    requires v in l.chunks
  {
    if Splits(l, v, nb) then nb else l.chunks[v].size
  }

  lemma TakeTiled(l: Layout, m: Memory, v: nat, nb: nat)
    requires l.Tiled() && Tags(l, m) && l.Free(v) && nb % 8 == 0 && MIN_CHUNK_SIZE <= nb <= l.chunks[v].size
    requires v == l.top ==> nb < l.chunks[v].size
    ensures Take(l, v, nb).Tiled()
    ensures v in m.head && Pinuse(m.head[v])
    ensures l.Fits(v, TakenSize(l, v, nb), true, l.Next(v), false)
  {
    ChunkFacts(l, v);
    ChunkFacts(l, l.first);
    PinuseBefore(l, m, v);
    RecastTiled(l, v, TakenSize(l, v, nb), true, l.Next(v), false);
  }

  /** `set_inuse_and_pinuse`. */
  function SetInuseAndPinuse(m: Memory, p: nat, s: nat): Memory
    requires p + s in m.head
  {
    m.(head := m.head[p := s + 3][p + s := SetPinuse(m.head[p + s])])
  }

  /** `set_size_and_pinuse_of_inuse_chunk`. */
  function SetInuseSize(m: Memory, p: nat, s: nat): Memory {
    m.(head := m.head[p := s + 3])
  }

  /** `set_size_and_pinuse_of_free_chunk`. */
  function SetFree(m: Memory, p: nat, s: nat): Memory {
    Memory(m.head[p := SetPinuse(s)], m.foot[p + s := s])
  }

  /** `set_free_with_pinuse`. */
  function SetFreeWithPinuse(m: Memory, p: nat, s: nat, n: nat): Memory
    requires n in m.head
  {
    SetFree(m.(head := m.head[n := ClearPinuse(m.head[n])]), p, s)
  }

  lemma TakeWhole(l: Layout, m: Memory, v: nat, nb: nat)
    requires l.Tiled() && Tags(l, m) && l.Free(v) && v != l.top && nb % 8 == 0 && MIN_CHUNK_SIZE <= nb
    requires nb <= l.chunks[v].size < nb + MIN_CHUNK_SIZE
    ensures var s := l.chunks[v].size;
            && v + s in m.head
            && Take(l, v, nb).Tiled() && Tags(Take(l, v, nb), SetInuseAndPinuse(m, v, s))
  {
    var s := l.chunks[v].size;
    TakeTiled(l, m, v, nb);
    ChunkFacts(l, v);
    assert Tagged(l, m, v);
    var m' := SetInuseAndPinuse(m, v, s);
    HeadBits(s);
    PinuseBits(m.head[v + s]);
    RecastAt(l, v, s, true, v + s, false);
    RecastTags(l, m, m', v, s, true, v + s, false);
  }

  lemma TakeSplit(l: Layout, m: Memory, v: nat, nb: nat)
    requires l.Tiled() && Tags(l, m) && l.Free(v) && v != l.top && nb % 8 == 0 && MIN_CHUNK_SIZE <= nb
    requires nb + MIN_CHUNK_SIZE <= l.chunks[v].size
    ensures var rsize := l.chunks[v].size - nb;
            && Take(l, v, nb).Tiled() && Tags(Take(l, v, nb), SetFree(SetInuseSize(m, v, nb), v + nb, rsize))
  {
    var s := l.chunks[v].size;
    TakeTiled(l, m, v, nb);
    ChunkFacts(l, v);
    assert Tagged(l, m, v);
    RetagSplit(l, m, v, nb, v + s);
    RecastTags(l, m, SetFree(SetInuseSize(m, v, nb), v + nb, s - nb), v, nb, true, v + s, false);
  }

  lemma RetagSplit(l: Layout, m: Memory, v: nat, nb: nat, e: nat)
    requires 0 < nb && v + nb < e && nb % 8 == 0 && (e - v) % 8 == 0 && !(v <= l.top < e)
    requires v in m.head && Pinuse(m.head[v]) && e in m.head && !Pinuse(m.head[e])
    ensures Retagged(l, m, SetFree(SetInuseSize(m, v, nb), v + nb, e - v - nb), v, nb, true, e, false)
  {
    RecastAt(l, v, nb, true, e, false);
    HeadBits(nb);
    Aligned(e - v, nb);
    HeadBits(e - v - nb);
  }

  lemma TakeTop(l: Layout, m: Memory, nb: nat)
    requires l.Tiled() && Tags(l, m) && nb % 8 == 0 && MIN_CHUNK_SIZE <= nb
    requires nb < l.chunks[l.top].size
    ensures var v, rsize := l.top, l.chunks[l.top].size - nb;
            && Take(l, v, nb).Tiled()
            && Tags(Take(l, v, nb), SetInuseSize(m.(head := m.head[v + nb := SetPinuse(rsize)]), v, nb))
  {
    var v, s := l.top, l.chunks[l.top].size;
    ChunkFacts(l, v);
    TakeTiled(l, m, v, nb);
    assert Tagged(l, m, v);
    var m' := SetInuseSize(m.(head := m.head[v + nb := SetPinuse(s - nb)]), v, nb);
    HeadBits(nb);
    TopBits(s, nb);
    RecastAt(l, v, nb, true, v + s, false);
    RecastTags(l, m, m', v, nb, true, v + s, false);
  }

  /** The low bits of the top size stay what they are. */
  lemma TopBits(s: nat, nb: nat)
    requires nb % 8 == 0 && nb <= s && TopSize(s)
    ensures TopSize(s - nb) && Pinuse(SetPinuse(s - nb))
  {
    CutDigits(s, nb);
    SameTopFlags(s, s - nb);
  }

  /** Taking a chunk changes that chunk, and its rest is new. */
  lemma TakeChunks(l: Layout, v: nat, nb: nat)
    requires l.Tiled() && v in l.chunks && 0 < nb <= l.chunks[v].size
    ensures var s := l.chunks[v].size;
            && (!Splits(l, v, nb) ==>
                  Take(l, v, nb).chunks == l.chunks[v := Chunk(s, true)] && Take(l, v, nb).top == l.top)
            && (Splits(l, v, nb) && nb < s ==>
                  && v + nb !in l.chunks
                  && Take(l, v, nb).chunks == l.chunks[v := Chunk(nb, true)][v + nb := Chunk(s - nb, false)]
                  && Take(l, v, nb).top == if v == l.top then v + nb else l.top)
  {
    ChunkFacts(l, v);
    forall x | x in l.chunks && v <= x < l.Next(v)
      ensures x == v
    {
      assert l.Apart(v, x);
    }
  }

  lemma SplitBinned(l: Layout, dv: nat, v: nat, nb: nat)
    requires l.Tiled() && l.Free(v) && v != l.top && 0 < nb && nb + MIN_CHUNK_SIZE <= l.chunks[v].size
    requires 0 !in l.chunks && (dv != 0 ==> l.Free(dv) && dv != l.top)
    ensures var r, rsize, l' := v + nb, l.chunks[v].size - nb, Take(l, v, nb);
            && r !in l.chunks
            && (v != dv ==> Binned(l', dv) == (Binned(l, dv) - {v})[r := rsize])
            && Binned(l', r) == if dv == 0 || dv == v then Binned(l, dv) - {v}
                                else (Binned(l, dv) - {v})[dv := l.chunks[dv].size]
  {
    TakeChunks(l, v, nb);
  }

  /** The heads of the binned chunks hold their sizes. */
  lemma BinnedSized(l: Layout, m: Memory, dv: nat, but: set<nat>)
    requires Tags(l, m)
    ensures Sized(m.head, Binned(l, dv) - but)
  {
    forall a | a in Binned(l, dv)
      ensures a in m.head && ChunkSize(m.head[a]) == Binned(l, dv)[a]
    {
      assert Tagged(l, m, a);
    }
  }

  /** A binned chunk is used up. */
  lemma TakenWhole(l: Layout, m: Memory, dv: nat, dvsize: nat, topsize: nat, v: nat, nb: nat)
    requires Intact(l, m, dv, dvsize, topsize) && v in Binned(l, dv) && nb % 8 == 0 && MIN_CHUNK_SIZE <= nb
    requires nb <= l.chunks[v].size < nb + MIN_CHUNK_SIZE
    ensures var s, l' := l.chunks[v].size, Take(l, v, nb);
            && v + s in m.head
            && Intact(l', SetInuseAndPinuse(m, v, s), dv, dvsize, topsize)
            && Binned(l', dv) == Binned(l, dv) - {v}
  {
    TakeWhole(l, m, v, nb);
    TakeChunks(l, v, nb);
  }

  /** Where and of what size chunks can be binned. */
  predicate Binnable(l: Layout, r: nat, rsize: nat) {
    r >= l.first + HEADER_SIZE && rsize % 8 == 0 && MIN_CHUNK_SIZE <= rsize < WORD
  }

  lemma SplitSound(l: Layout, m: Memory, dv: nat, dvsize: nat, topsize: nat, v: nat, nb: nat)
    requires Intact(l, m, dv, dvsize, topsize) && l.Free(v) && v != l.top && nb % 8 == 0 && MIN_CHUNK_SIZE <= nb
    requires nb + MIN_CHUNK_SIZE <= l.chunks[v].size
    ensures var r, rsize, l' := v + nb, l.chunks[v].size - nb, Take(l, v, nb);
            var m' := SetFree(SetInuseSize(m, v, nb), r, rsize);
            && Intact(l', m', r, rsize, topsize) && (v != dv ==> Intact(l', m', dv, dvsize, topsize))
            && r !in l.chunks && Binnable(l, r, rsize) && (dv != 0 ==> Binnable(l, dv, dvsize))
            && 0 !in l.chunks
  {
    TakeSplit(l, m, v, nb);
    TakeChunks(l, v, nb);
    ChunkFacts(l, v);
    if dv != 0 { ChunkFacts(l, dv); }
    if 0 in l.chunks { ChunkFacts(l, 0); }
    ChunkFacts(l, l.first);
  }

  /** A binned chunk is split; the rest is to be binned in its place. */
  lemma TakenRest(l: Layout, m: Memory, dv: nat, dvsize: nat, topsize: nat, v: nat, nb: nat)
    requires Intact(l, m, dv, dvsize, topsize) && v in Binned(l, dv) && nb % 8 == 0 && MIN_CHUNK_SIZE <= nb
    requires nb + MIN_CHUNK_SIZE <= l.chunks[v].size
    ensures var r, rsize, l' := v + nb, l.chunks[v].size - nb, Take(l, v, nb);
            && Intact(l', SetFree(SetInuseSize(m, v, nb), r, rsize), dv, dvsize, topsize)
            && r in Binned(l', dv) && Binned(l', dv)[r] == rsize && Binned(l', dv) - {r} == Binned(l, dv) - {v}
  {
    SplitSound(l, m, dv, dvsize, topsize, v, nb);
    SplitBinned(l, dv, v, nb);
  }

  /** What allows the binned chunk `r` to be put into a bin. */
  lemma Fileable(l: Layout, m: Memory, dv: nat, dvsize: nat, topsize: nat, r: nat)
    requires Intact(l, m, dv, dvsize, topsize) && r in Binned(l, dv)
    ensures Binnable(l, r, Binned(l, dv)[r]) && Sized(m.head, Binned(l, dv) - {r})
    ensures (Binned(l, dv) - {r})[r := Binned(l, dv)[r]] == Binned(l, dv)
  {
    ChunkFacts(l, r);
    BinnedSized(l, m, dv, {r});
  }

  /** The binned chunk `r` becomes the designated victim; the old one is to be binned instead. */
  lemma DvReplaced(l: Layout, m: Memory, dv: nat, dvsize: nat, topsize: nat, r: nat)
    requires Intact(l, m, dv, dvsize, topsize) && r in Binned(l, dv)
    ensures Intact(l, m, r, Binned(l, dv)[r], topsize)
    ensures if dv == 0 then Binned(l, r) == Binned(l, dv) - {r}
            else dv in Binned(l, r) && Binned(l, r)[dv] == dvsize && Binned(l, r) - {dv} == Binned(l, dv) - {r}
  {
    ChunkFacts(l, r);
    if 0 in l.chunks { ChunkFacts(l, 0); }
  }

  /** The designated victim is split. */
  lemma DvSplit(l: Layout, m: Memory, dv: nat, dvsize: nat, topsize: nat, nb: nat)
    requires Intact(l, m, dv, dvsize, topsize) && nb % 8 == 0 && MIN_CHUNK_SIZE <= nb && nb + MIN_CHUNK_SIZE <= dvsize
    ensures var r, rsize, l' := dv + nb, dvsize - nb, Take(l, dv, nb);
            && Intact(l', SetInuseSize(SetFree(m, r, rsize), dv, nb), r, rsize, topsize)
            && Binned(l', r) == Binned(l, dv)
  {
    var r, rsize := dv + nb, dvsize - nb;
    SplitSound(l, m, dv, dvsize, topsize, dv, nb);
    SplitBinned(l, dv, dv, nb);
    assert Binned(l, dv) - {dv} == Binned(l, dv);
    assert SetInuseSize(SetFree(m, r, rsize), dv, nb) == SetFree(SetInuseSize(m, dv, nb), r, rsize);
  }

  /** The designated victim is used up. */
  lemma DvExhausted(l: Layout, m: Memory, dv: nat, dvsize: nat, topsize: nat, nb: nat)
    requires Intact(l, m, dv, dvsize, topsize) && nb % 8 == 0 && MIN_CHUNK_SIZE <= nb <= dvsize < nb + MIN_CHUNK_SIZE
    ensures var l' := Take(l, dv, nb);
            && dv + dvsize in m.head
            && Intact(l', SetInuseAndPinuse(m, dv, dvsize), 0, 0, topsize)
            && Binned(l', 0) == Binned(l, dv)
  {
    TakeWhole(l, m, dv, nb);
    TakeChunks(l, dv, nb);
    if 0 in l.chunks { ChunkFacts(l, 0); }
  }

  /** The top chunk is split. */
  lemma TakenTop(l: Layout, m: Memory, dv: nat, dvsize: nat, topsize: nat, nb: nat)
    requires Intact(l, m, dv, dvsize, topsize) && nb % 8 == 0 && MIN_CHUNK_SIZE <= nb < topsize
    ensures var r, rsize, l' := l.top + nb, topsize - nb, Take(l, l.top, nb);
            && Intact(l', SetInuseSize(m.(head := m.head[r := SetPinuse(rsize)]), l.top, nb), dv, dvsize, rsize)
            && Binned(l', dv) == Binned(l, dv)
  {
    TakeTop(l, m, nb);
    TakeChunks(l, l.top, nb);
    ChunkFacts(l, l.top);
  }

  // ----- a new arena -----

  /** `align_as_chunk`. */
  function AlignAsChunk(base: nat): (a: nat)
    ensures a % 8 == 0 && base <= a < base + 8
  {
    (base + 7) / 8 * 8
  }

  /** The distance from `a` to `b` on a size_t. */
  function Distance(a: nat, b: nat): nat
    requires a < WORD && b < WORD
  {
    if a <= b then b - a else WORD - (a - b)
  }

  /** Where the fake chunk behind the top chunk begins. */
  function InitialEnd(base: nat, capacity: nat): nat
    requires capacity >= TOP_FOOT_SIZE
  {
    base + capacity - TOP_FOOT_SIZE
  }

  function InitialLayout(base: nat, capacity: nat): Layout
    requires capacity > HEADER_SIZE + TOP_FOOT_SIZE && base + capacity <= WORD
  {
    var first := AlignAsChunk(base);
    var top := first + HEADER_SIZE;
    Layout(map[first := Chunk(HEADER_SIZE, true), top := Chunk(Distance(top, InitialEnd(base, capacity)), false)],
           first, top, InitialEnd(base, capacity))
  }

  /** The head words that init_user_mstate and init_top write. */
  function InitialMemory(base: nat, capacity: nat): Memory
    requires capacity > HEADER_SIZE + TOP_FOOT_SIZE && base + capacity <= WORD
  {
    var l := InitialLayout(base, capacity);
    Memory(map[l.first := HEADER_SIZE + 3][l.top := SetPinuse(Distance(l.top, l.end))][l.end := TOP_FOOT_SIZE], map[])
  }

  /** The segment has room behind the aligned header, and ends at a multiple of four. */
  predicate Usable(base: nat, capacity: nat) {
    AlignAsChunk(base) - base + HEADER_SIZE + TOP_FOOT_SIZE < capacity && (base + capacity) % 4 == 0
  }

  /** A new arena is in order exactly for usable segments. */
  lemma InitialIntact(base: nat, capacity: nat)
    requires capacity > HEADER_SIZE + TOP_FOOT_SIZE && 0 < base && base + capacity <= WORD
    ensures var l := InitialLayout(base, capacity);
            Intact(l, InitialMemory(base, capacity), 0, 0, Distance(l.top, l.end)) <==> Usable(base, capacity)
  {
    var l, m := InitialLayout(base, capacity), InitialMemory(base, capacity);
    var s := Distance(l.top, l.end);
    TopFlag(base, capacity);
    if Usable(base, capacity) {
      UsableIntact(base, capacity, l.first, l.top, s, l.end);
    } else if l.Tiled() && Tags(l, m) {
      assert l.Tile(l.top) && Tagged(l, m, l.top);
    }
  }

  /** With an odd end, the head of the top chunk does not tell its size. */
  lemma OddEnd()
    ensures var l := InitialLayout(0x1000, 0x1001);
            var m, s := InitialMemory(0x1000, 0x1001), Distance(l.top, l.end);
            !Intact(l, m, 0, 0, s) && Bare(m.head[l.top]) == s - 1 && !Cinuse(m.head[l.top])
  {
    InitialIntact(0x1000, 0x1001);
  }

  /** With an odd multiple of two bytes at the end, the top chunk even looks like one in use. */
  lemma MisalignedEnd()
    ensures var l := InitialLayout(0x1000, 0x1002);
            var m, s := InitialMemory(0x1000, 0x1002), Distance(l.top, l.end);
            !Intact(l, m, 0, 0, s) && Cinuse(m.head[l.top])
  {
    InitialIntact(0x1000, 0x1002);
  }

  /** A segment that the size guard accepts, although the aligned header leaves no room for a top chunk. */
  lemma MisalignedBase()
    ensures HEADER_SIZE + TOP_FOOT_SIZE < 1009
    ensures var l := InitialLayout(0x1001, 1009);
            l.end < l.top && !Intact(l, InitialMemory(0x1001, 1009), 0, 0, Distance(l.top, l.end))
  {
    InitialIntact(0x1001, 1009);
  }

  /** What the code tells from the words in front of a merge with the chunk behind a released block. */
  datatype Merge = WithTop | WithDv | WithNext | WithNone

  function MergeFor(m: Memory, next: nat, top: nat, dv: nat): Merge
    requires next in m.head
  {
    if Cinuse(m.head[next]) then WithNone
    else if next == top then WithTop
    else if next == dv then WithDv
    else WithNext
  }

  /** The head of a top chunk of `s` bytes, whose flag for the chunk before it changes. */
  predicate TopHead(h: nat, s: nat) { h == SetPinuse(s) || h == ClearPinuse(SetPinuse(s)) }

  /** The size of the top chunk of a new arena after blocks of `taken` bytes were cut off it. */
  function TopLeft(base: nat, capacity: nat, taken: nat): int
    requires capacity > HEADER_SIZE + TOP_FOOT_SIZE && base + capacity <= WORD
  {
    Distance(InitialLayout(base, capacity).top, InitialEnd(base, capacity)) - taken
  }

  /** If the end of the segment has its second bit set, the top chunk always looks like one in use. */
  lemma TopStaysMarked(base: nat, capacity: nat, taken: nat)
    requires capacity > HEADER_SIZE + TOP_FOOT_SIZE && 0 < base && base + capacity <= WORD
    requires (base + capacity) % 4 >= 2 && taken % 8 == 0 && taken <= TopLeft(base, capacity, 0)
    ensures Cinuse(SetPinuse(TopLeft(base, capacity, taken)))
  {
    var s := TopLeft(base, capacity, 0);
    TopFlag(base, capacity);
    CutDigits(s, taken);
    SameTopFlags(s, s - taken);
  }

  /**
   Then a released block in front of the top chunk is never merged with it, however much was cut off
   the top: it is marked as free, and the top head stays as it is but for the flag.
   */
  lemma NeverMerged(base: nat, capacity: nat, taken: nat, m: Memory, top: nat, dv: nat, p: nat, size: nat)
    requires capacity > HEADER_SIZE + TOP_FOOT_SIZE && 0 < base && base + capacity <= WORD
    requires (base + capacity) % 4 >= 2 && taken % 8 == 0 && taken <= TopLeft(base, capacity, 0)
    requires top in m.head && TopHead(m.head[top], TopLeft(base, capacity, taken)) && p < top
    ensures MergeFor(m, top, top, dv) == WithNone
    ensures TopHead(SetFreeWithPinuse(m, p, size, top).head[top], TopLeft(base, capacity, taken))
  {
    TopStaysMarked(base, capacity, taken);
    PinuseBits(SetPinuse(TopLeft(base, capacity, taken)));
  }

  /** The low bits of the top size come from the end of the segment. */
  lemma TopFlag(base: nat, capacity: nat)
    requires capacity > HEADER_SIZE + TOP_FOOT_SIZE && 0 < base && base + capacity <= WORD
    ensures var l := InitialLayout(base, capacity);
            && (TopSize(Distance(l.top, l.end)) <==> (base + capacity) % 4 == 0)
            && (Cinuse(SetPinuse(Distance(l.top, l.end))) <==> (base + capacity) % 4 >= 2)
  {
    var l := InitialLayout(base, capacity);
    var s, x := Distance(l.top, l.end), base + capacity;
    DistanceDigits(l.top, l.end, s);
    Remainder8(l.end, x / 8 - 9, x % 8);
    TopFlags(s);
    QuarterOfEighth(x);
    QuarterOfEighth(s);
  }

  lemma DistanceDigits(a: nat, b: nat, s: nat)
    requires a % 8 == 0 && (s == b - a || s == WORD - (a - b))
    ensures s % 8 == b % 8
  {
    var q := if s == b - a then b / 8 - a / 8 else b / 8 - a / 8 + WORD / 8;
    assert s == 8 * q + b % 8;
  }

  lemma UsableIntact(base: nat, capacity: nat, first: nat, top: nat, s: nat, end: nat)
    requires first % 8 == 0 && 0 < first && top == first + HEADER_SIZE && 0 < s && end == top + s < WORD
    requires TopSize(s)
    ensures Intact(Layout(map[first := Chunk(HEADER_SIZE, true), top := Chunk(s, false)], first, top, end),
                   Memory(map[first := HEADER_SIZE + 3][top := SetPinuse(s)][end := TOP_FOOT_SIZE], map[]), 0, 0, s)
  {
    HeadBits(HEADER_SIZE);
    TopFlags(s);
    var l := Layout(map[first := Chunk(HEADER_SIZE, true), top := Chunk(s, false)], first, top, end);
    var m := Memory(map[first := HEADER_SIZE + 3][top := SetPinuse(s)][end := TOP_FOOT_SIZE], map[]);
    forall a: nat ensures l.Tile(a) && l.Coalesced(a) {}
    forall a: nat ensures Tagged(l, m, a) {}
  }
}
