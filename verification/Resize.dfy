/**
 What resizing a block in place means, and which words it writes: the rest of a shrunk block is
 released, and a grown one takes its room from the free chunk behind it.
 */
module Resize {
  import opened Sizes
  import opened Heap
  import opened Blocks
  import opened Release

  /** `set_inuse`; the word at `p + s` may lie within a block. */
  function SetInuse(m: Memory, p: nat, s: nat): Memory
    requires p in m.head
  {
    var head := m.head[p := s + 2 + m.head[p] % 2];
    m.(head := head[p + s := SetPinuse(if p + s in head then head[p + s] else 0)])
  }

  /** The free bytes behind a block that it can grow into. */
  function Room(l: Layout, p: nat): nat {
    if l.Free(l.Next(p)) then l.chunks[l.Next(p)].size else 0
  }

  /** Whether block `p` can get `nb` bytes in place; the top chunk must not be used up. */
  predicate Resizable(l: Layout, p: nat, nb: nat)
    requires p in l.chunks
  {
    nb <= l.chunks[p].size ||
    if l.Next(p) == l.top then nb < l.chunks[p].size + Room(l, p) else nb <= l.chunks[p].size + Room(l, p)
  }

  /** Block `p` gets `nb` bytes, or up to MIN_CHUNK_SIZE - 1 more if the rest would make no chunk. */
  function Resized(l: Layout, p: nat, nb: nat): Layout
    requires p in l.chunks && Resizable(l, p, nb)
  {
    var s := l.chunks[p].size;
    if nb <= s < nb + MIN_CHUNK_SIZE then l
    else
      var e := p + s + Room(l, p);
      l.Recast(p, if l.Next(p) == l.top || e - p - nb >= MIN_CHUNK_SIZE then nb else e - p, true, e, false)
  }

  // ----- the chunks -----

  /** A range that begins with a block in use and takes in at most a free chunk behind it. */
  predicate Reach(l: Layout, p: nat, e: nat) {
    && l.Inuse(p) && p != l.first && p != l.top
    && (e == l.Next(p) || (l.Free(l.Next(p)) && e == l.Next(l.Next(p))))
  }

  lemma ReachFacts(l: Layout, p: nat, e: nat)
    requires l.Tiled() && Reach(l, p, e)
    ensures var n := l.Next(p);
            && p % 8 == 0 && n % 8 == 0 && n - p >= MIN_CHUNK_SIZE && n in l.chunks && l.first < p && p < l.top
            && (e == n || (e > n && l.Free(n) && e == n + l.chunks[n].size))
            && (e == l.end <==> e > l.top) && (e == l.end <==> e != n && n == l.top)
            && (e != l.end ==>
                  e in l.chunks && e % 8 == 0 && (e != n ==> l.Inuse(e) && e < l.top && e - n >= MIN_CHUNK_SIZE))
            && forall x :: x in l.chunks && p <= x < e ==> x == p || x == n
  {
    var n := l.Next(p);
    ChunkFacts(l, p);
    ChunkFacts(l, n);
    if e in l.chunks { ChunkFacts(l, e); }
    forall x | x in l.chunks && p <= x < e
      ensures x == p || x == n
    {
      assert l.Apart(p, x) && l.Apart(n, x);
    }
  }

  lemma ReachChunks(l: Layout, p: nat, k: nat, e: nat, g: bool)
    requires l.Tiled() && Reach(l, p, e) && 0 < k && p + k <= e
    ensures var n, l' := l.Next(p), l.Recast(p, k, true, e, g);
            var kept := (if e == n then l.chunks else l.chunks - {n})[p := Chunk(k, true)];
            && l'.chunks == (if p + k < e then kept[p + k := Chunk(e - p - k, g)] else kept)
            && l'.top == (if e == l.end then if p + k < e then p + k else p else l.top)
            && (p + k < e ==> p + k !in l.chunks || p + k == n)
  {
    ReachFacts(l, p, e);
  }

  // ----- the words -----

  lemma SetInuseWords(m: Memory, p: nat, s: nat)
    requires p in m.head && s % 8 == 0 && s > 0
    ensures var m' := SetInuse(m, p, s);
            && m'.foot == m.foot && m'.head.Keys == m.head.Keys + {p + s}
            && (forall x :: x in m.head && x != p && x != p + s ==> m'.head[x] == m.head[x])
            && ChunkSize(m'.head[p]) == s && Cinuse(m'.head[p]) && Pinuse(m'.head[p]) == Pinuse(m.head[p])
            && Pinuse(m'.head[p + s]) && (p + s in m.head ==> m'.head[p + s] / 2 == m.head[p + s] / 2)
            && (p + s in m.head && Pinuse(m.head[p + s]) ==> m'.head[p + s] == m.head[p + s])
  {
    HeadBits(s);
    PinuseBits(if p + s in m.head then m.head[p + s] else 0);
  }

  /** The words at the ends of a reach. */
  lemma ReachWords(l: Layout, m: Memory, p: nat, e: nat)
    requires l.Tiled() && Tags(l, m) && Reach(l, p, e)
    ensures p in m.head && e in m.head && (e != l.Next(p) ==> !Pinuse(m.head[e]))
    ensures e == l.Next(p) ==> Pinuse(m.head[e])
    ensures e == l.end ==> TopSize(l.end - l.Next(p))
  {
    ReachFacts(l, p, e);
    assert Tagged(l, m, p) && Tagged(l, m, l.Next(p));
  }

  /** The block takes up its whole reach. */
  lemma WholeTags(l: Layout, m: Memory, p: nat, e: nat)
    requires l.Tiled() && Tags(l, m) && Reach(l, p, e) && e != l.end
    ensures p in m.head
    ensures var l' := l.Recast(p, e - p, true, e, false); l'.Tiled() && Tags(l', SetInuse(m, p, e - p))
  {
    ReachFacts(l, p, e);
    ReachWords(l, m, p, e);
    Aligned(e, p);
    RecastTiled(l, p, e - p, true, e, false);
    RetagWhole(l, m, p, e);
    RecastTags(l, m, SetInuse(m, p, e - p), p, e - p, true, e, false);
  }

  lemma RetagWhole(l: Layout, m: Memory, p: nat, e: nat)
    requires p in m.head && e in m.head && p < e && (e - p) % 8 == 0 && !(p <= l.top < e)
    ensures Retagged(l, m, SetInuse(m, p, e - p), p, e - p, true, e, false)
  {
    SetInuseWords(m, p, e - p);
    RecastAt(l, p, e - p, true, e, false);
  }

  /** The block keeps `nb` bytes, and the rest of its reach becomes a block of its own. */
  lemma CutTags(l: Layout, m: Memory, p: nat, nb: nat, e: nat)
    requires l.Tiled() && Tags(l, m) && Reach(l, p, e) && e != l.end
    requires nb % 8 == 0 && MIN_CHUNK_SIZE <= nb && p + nb + MIN_CHUNK_SIZE <= e
    ensures p in m.head && p + nb in SetInuse(m, p, nb).head
    ensures var l' := l.Recast(p, nb, true, e, true);
            l'.Tiled() && Tags(l', SetInuse(SetInuse(m, p, nb), p + nb, e - p - nb))
  {
    ReachFacts(l, p, e);
    ReachWords(l, m, p, e);
    Aligned(p, nb);
    Aligned(e, p);
    RecastTiled(l, p, nb, true, e, true);
    RetagCut(l, m, p, nb, e);
    RecastTags(l, m, SetInuse(SetInuse(m, p, nb), p + nb, e - p - nb), p, nb, true, e, true);
  }

  lemma RetagCut(l: Layout, m: Memory, p: nat, nb: nat, e: nat)
    requires p in m.head && e in m.head && 0 < nb && p + nb < e && nb % 8 == 0 && (e - p) % 8 == 0 && !(p <= l.top < e)
    ensures p + nb in SetInuse(m, p, nb).head
    ensures Retagged(l, m, SetInuse(SetInuse(m, p, nb), p + nb, e - p - nb), p, nb, true, e, true)
  {
    var m1 := SetInuse(m, p, nb);
    SetInuseWords(m, p, nb);
    Aligned(e - p, nb);
    SetInuseWords(m1, p + nb, e - p - nb);
    RecastAt(l, p, nb, true, e, true);
  }

  /** The block grows into the designated victim, whose rest stays. */
  lemma FreeRestTags(l: Layout, m: Memory, p: nat, nb: nat, e: nat)
    requires l.Tiled() && Tags(l, m) && Reach(l, p, e) && e != l.end && e != l.Next(p)
    requires nb % 8 == 0 && MIN_CHUNK_SIZE <= nb && p + nb + MIN_CHUNK_SIZE <= e
    ensures p in m.head
    ensures var l', m1 := l.Recast(p, nb, true, e, false), SetFree(SetInuse(m, p, nb), p + nb, e - p - nb);
            && e in m1.head
            && l'.Tiled() && Tags(l', m1.(head := m1.head[e := ClearPinuse(m1.head[e])]))
  {
    ReachFacts(l, p, e);
    ReachWords(l, m, p, e);
    Aligned(p, nb);
    Aligned(e, p);
    RecastTiled(l, p, nb, true, e, false);
    RetagFreeRest(l, m, p, nb, e);
    var m1 := SetFree(SetInuse(m, p, nb), p + nb, e - p - nb);
    RecastTags(l, m, m1.(head := m1.head[e := ClearPinuse(m1.head[e])]), p, nb, true, e, false);
  }

  lemma RetagFreeRest(l: Layout, m: Memory, p: nat, nb: nat, e: nat)
    requires p in m.head && e in m.head && 0 < nb && p + nb < e && nb % 8 == 0 && (e - p) % 8 == 0 && !(p <= l.top < e)
    ensures var m1 := SetFree(SetInuse(m, p, nb), p + nb, e - p - nb);
            && e in m1.head
            && Retagged(l, m, m1.(head := m1.head[e := ClearPinuse(m1.head[e])]), p, nb, true, e, false)
  {
    SetInuseWords(m, p, nb);
    Aligned(e - p, nb);
    HeadBits(e - p - nb);
    PinuseBits(m.head[e]);
    RecastAt(l, p, nb, true, e, false);
  }

  /** The block grows into the top chunk. */
  lemma TopRestTags(l: Layout, m: Memory, p: nat, nb: nat)
    requires l.Tiled() && Tags(l, m) && Reach(l, p, l.end) && nb % 8 == 0 && MIN_CHUNK_SIZE <= nb && p + nb < l.end
    ensures p in m.head
    ensures var l', m1 := l.Recast(p, nb, true, l.end, false), SetInuse(m, p, nb);
            l'.Tiled() && Tags(l', m1.(head := m1.head[p + nb := SetPinuse(l.end - p - nb)]))
  {
    ReachFacts(l, p, l.end);
    ReachWords(l, m, p, l.end);
    Aligned(p, nb);
    RecastTiled(l, p, nb, true, l.end, false);
    RetagTopRest(l, m, p, nb, l.Next(p));
    var m1 := SetInuse(m, p, nb);
    RecastTags(l, m, m1.(head := m1.head[p + nb := SetPinuse(l.end - p - nb)]), p, nb, true, l.end, false);
  }

  lemma TopRestDigits(s: nat, d: nat, nb: nat)
    requires d % 8 == 0 && nb % 8 == 0 && nb <= s + d
    ensures (s + d - nb) % 8 == s % 8
  {
    assert s + d - nb == 8 * (s / 8 + d / 8 - nb / 8) + s % 8;
  }

  lemma RetagTopRest(l: Layout, m: Memory, p: nat, nb: nat, n: nat)
    requires p in m.head && l.end in m.head && 0 < nb && p + nb < l.end && nb % 8 == 0 && p % 8 == 0 && n % 8 == 0
    requires p < n == l.top < l.end && !Pinuse(m.head[l.end]) && TopSize(l.end - n)
    ensures var m1 := SetInuse(m, p, nb);
            Retagged(l, m, m1.(head := m1.head[p + nb := SetPinuse(l.end - p - nb)]), p, nb, true, l.end, false)
  {
    SetInuseWords(m, p, nb);
    TopRestDigits(l.end - n, n - p, nb);
    SameTopFlags(l.end - n, l.end - p - nb);
    RecastAt(l, p, nb, true, l.end, false);
  }

  // ----- the cases of the code -----

  lemma ReachOwn(l: Layout, m: Memory, dv: nat, dvsize: nat, topsize: nat, p: nat)
    requires Intact(l, m, dv, dvsize, topsize) && l.Inuse(p) && p != l.first
    ensures var n := l.Next(p);
            && p in m.head && ChunkSize(m.head[p]) == n - p && n in m.head && (Cinuse(m.head[n]) <==> !l.Free(n))
            && Reach(l, p, n) && n - p == l.chunks[p].size && n in l.chunks
            && (n == l.top ==> l.Free(n) && Room(l, p) == topsize && Reach(l, p, l.end))
            && (n == dv ==> l.Free(n) && Room(l, p) == dvsize)
            && (l.Free(n) && n != l.top && n != dv ==>
                  n in Binned(l, dv) && Binned(l, dv)[n] == ChunkSize(m.head[n]) == Room(l, p))
            && (l.Free(n) && n != l.top ==> Reach(l, p, n + Room(l, p)) && n + Room(l, p) != l.end)
  {
    var n := l.Next(p);
    ChunkFacts(l, p);
    ChunkFacts(l, n);
    assert Tagged(l, m, p) && Tagged(l, m, n);
  }

  /** The block and the binned chunk behind it become one block. */
  lemma GrownWhole(l: Layout, m: Memory, dv: nat, dvsize: nat, topsize: nat, p: nat, nb: nat)
    requires Intact(l, m, dv, dvsize, topsize) && l.Inuse(p) && p != l.first
    requires l.Free(l.Next(p)) && l.Next(p) != l.top
    requires l.chunks[p].size < nb <= l.chunks[p].size + Room(l, p) < nb + MIN_CHUNK_SIZE
    ensures var n, s, l' := l.Next(p), l.chunks[p].size + Room(l, p), Resized(l, p, nb);
            && p in m.head && l' == Layout(l'.chunks, l.first, l.top, l.end)
            && (n != dv ==> Intact(l', SetInuse(m, p, s), dv, dvsize, topsize) && Binned(l', dv) == Binned(l, dv) - {n})
            && (n == dv ==> Intact(l', SetInuse(m, p, s), 0, 0, topsize) && Binned(l', 0) == Binned(l, dv))
  {
    var n, s := l.Next(p), l.chunks[p].size + Room(l, p);
    ReachOwn(l, m, dv, dvsize, topsize, p);
    WholeTags(l, m, p, p + s);
    ReachFacts(l, p, p + s);
    ReachChunks(l, p, s, p + s, false);
    VictimSize(l, m, dv, dvsize, topsize);
    AbsorbedBinned(l, Resized(l, p, nb), dv, p, n);
  }

  /** A block that took in the free chunk behind it. */
  lemma AbsorbedBinned(l: Layout, l': Layout, dv: nat, p: nat, n: nat)
    requires l.Inuse(p) && l.Free(n) && n != l.top && l'.top == l.top && l'.Inuse(p)
    requires l'.chunks == (l.chunks - {n})[p := l'.chunks[p]]
    ensures Binned(l', dv) == Binned(l, dv) - {n}
    ensures n == dv && 0 !in l.chunks ==> Binned(l', 0) == Binned(l, dv)
  {
  }

  /** The block grows into the designated victim, whose rest stays. */
  lemma GrownDv(l: Layout, m: Memory, dv: nat, dvsize: nat, topsize: nat, p: nat, nb: nat)
    requires Intact(l, m, dv, dvsize, topsize) && l.Inuse(p) && p != l.first && l.Next(p) == dv
    requires nb % 8 == 0 && l.chunks[p].size < nb && nb + MIN_CHUNK_SIZE <= l.chunks[p].size + dvsize
    ensures var r, dsize, l' := p + nb, l.chunks[p].size + dvsize - nb, Resized(l, p, nb);
            && p in m.head
            && var m1 := SetFree(SetInuse(m, p, nb), r, dsize);
            && r + dsize in m1.head && l' == Layout(l'.chunks, l.first, l.top, l.end)
            && Intact(l', m1.(head := m1.head[r + dsize := ClearPinuse(m1.head[r + dsize])]), r, dsize, topsize)
            && Binned(l', r) == Binned(l, dv)
  {
    ReachOwn(l, m, dv, dvsize, topsize, p);
    ReachFacts(l, p, dv);
    var e := dv + dvsize;
    FreeRestTags(l, m, p, nb, e);
    ReachFacts(l, p, e);
    ReachChunks(l, p, nb, e, false);
  }

  /** The block grows into the top chunk. */
  lemma GrownTop(l: Layout, m: Memory, dv: nat, dvsize: nat, topsize: nat, p: nat, nb: nat)
    requires Intact(l, m, dv, dvsize, topsize) && l.Inuse(p) && p != l.first && l.Next(p) == l.top
    requires nb % 8 == 0 && l.chunks[p].size < nb < l.chunks[p].size + topsize && l.Free(l.top)
    ensures var r, size, l' := p + nb, l.chunks[p].size + topsize - nb, Resized(l, p, nb);
            && p in m.head && l' == Layout(l'.chunks, l.first, r, l.end)
            && var m1 := SetInuse(m, p, nb);
            && Intact(l', m1.(head := m1.head[r := SetPinuse(size)]), dv, dvsize, size)
            && Binned(l', dv) == Binned(l, dv)
  {
    ReachOwn(l, m, dv, dvsize, topsize, p);
    ReachFacts(l, p, l.top);
    ChunkFacts(l, l.top);
    TopRestTags(l, m, p, nb);
    ReachFacts(l, p, l.end);
    ReachChunks(l, p, nb, l.end, false);
  }

  /** The layout with the rest of a reach cut off as a block of its own. */
  function Cut(l: Layout, p: nat, nb: nat, e: nat): Layout
    requires p + nb <= e
  {
    l.Recast(p, nb, true, e, true)
  }

  lemma CutIntact(l: Layout, m: Memory, dv: nat, dvsize: nat, topsize: nat, p: nat, nb: nat, e: nat)
    requires Intact(l, m, dv, dvsize, topsize) && Reach(l, p, e) && e != l.end && (e == l.Next(p) || l.Next(p) != dv)
    requires nb % 8 == 0 && MIN_CHUNK_SIZE <= nb && p + nb + MIN_CHUNK_SIZE <= e
    ensures p in m.head && p + nb in SetInuse(m, p, nb).head
    ensures var l' := Cut(l, p, nb, e);
            && l' == Layout(l'.chunks, l.first, l.top, l.end)
            && Intact(l', SetInuse(SetInuse(m, p, nb), p + nb, e - p - nb), dv, dvsize, topsize)
            && l'.Inuse(p + nb) && l'.chunks[p + nb].size == e - p - nb && p + nb != l'.first
            && Binned(l', dv) == if e == l.Next(p) then Binned(l, dv) else Binned(l, dv) - {l.Next(p)}
  {
    CutTags(l, m, p, nb, e);
    ReachFacts(l, p, e);
    ReachChunks(l, p, nb, e, true);
    VictimSize(l, m, dv, dvsize, topsize);
  }

  /** Releasing the rest that was cut off completes the resizing. */
  lemma CutReleased(l: Layout, p: nat, nb: nat, e: nat)
    requires l.Tiled() && Reach(l, p, e) && e != l.end && Resizable(l, p, nb)
    requires nb % 8 == 0 && MIN_CHUNK_SIZE <= nb && p + nb + MIN_CHUNK_SIZE <= e && Cut(l, p, nb, e).Tiled()
    requires e == l.Next(p) <==> nb <= l.chunks[p].size
    ensures Cut(l, p, nb, e).Inuse(p + nb) && p + nb != Cut(l, p, nb, e).first
    ensures Released(Cut(l, p, nb, e), p + nb) == Resized(l, p, nb)
  {
    var l1, r := Cut(l, p, nb, e), p + nb;
    ReachFacts(l, p, e);
    ReachChunks(l, p, nb, e, true);
    BeforeUnique(l1, r, p);
    assert Lo(l1, r) == r && l1.Next(r) == e;
    ReleasedChunks(l1, r);
    var hi := Hi(l1, r);
    ReachFacts(l, p, hi);
    ReachChunks(l, p, nb, hi, false);
  }

  // ----- the designated victim -----

  /** The victim after a resize: if it was behind the block, it is what is free there now. */
  function VictimAfter(l: Layout, l': Layout, dv: nat, p: nat): nat {
    if dv != l.Next(p) then dv else if l'.Free(l'.Next(p)) then l'.Next(p) else 0
  }

  /** The rest that is cut off melts with the victim behind it, or leaves the victim alone. */
  lemma CutVictim(l: Layout, dv: nat, p: nat, nb: nat, e: nat)
    requires l.Tiled() && Reach(l, p, e) && e != l.end && (dv != 0 ==> l.Free(dv) && dv != l.top)
    requires 0 < nb && p + nb < e && Cut(l, p, nb, e).Tiled() && (e == l.Next(p) || l.Next(p) != dv)
    ensures var l1 := Cut(l, p, nb, e);
            && l1.Inuse(p + nb) && p + nb != l1.first
            && ReleasedDv(l1, dv, p + nb) == if dv == l.Next(p) then p + nb else dv
  {
    var l1, r := Cut(l, p, nb, e), p + nb;
    ReachFacts(l, p, e);
    ReachChunks(l, p, nb, e, true);
    BeforeUnique(l1, r, p);
    assert Lo(l1, r) == r && l1.Next(r) == e;
    ChunkFacts(l, l.Next(p));
  }

  /** What is behind a resized block. */
  lemma BehindResized(l: Layout, p: nat, nb: nat)
    requires l.Tiled() && l.Inuse(p) && p != l.first && nb % 8 == 0 && MIN_CHUNK_SIZE <= nb && Resizable(l, p, nb)
    ensures var s, e, l' := l.chunks[p].size, p + l.chunks[p].size + Room(l, p), Resized(l, p, nb);
            && p in l'.chunks
            && (nb <= s < nb + MIN_CHUNK_SIZE ==> l'.Next(p) == l.Next(p))
            && (!(nb <= s < nb + MIN_CHUNK_SIZE) ==>
                  if l.Next(p) == l.top || e - p - nb >= MIN_CHUNK_SIZE then l'.Next(p) == p + nb && l'.Free(p + nb)
                  else l'.Next(p) == e && !l'.Free(e))
  {
    var s := l.chunks[p].size;
    ChunkFacts(l, p);
    if !(nb <= s < nb + MIN_CHUNK_SIZE) {
      var e := p + s + Room(l, p);
      ReachFacts(l, p, e);
      var k := if l.Next(p) == l.top || e - p - nb >= MIN_CHUNK_SIZE then nb else e - p;
      ReachChunks(l, p, k, e, false);
    }
  }
}
