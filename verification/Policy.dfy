/** What the choices of the allocator mean for the free chunks, said of the chunks alone. */
module Policy {
  import opened Sizes
  import opened Heap
  import opened Blocks
  import opened Release
  import opened Choice
  import opened Resize
  import opened Runs

  predicate Placed(l: Layout, dv: nat) {
    dv != 0 ==> l.Free(dv) && dv != l.top
  }

  /** The top chunk is cut only when every other free chunk is too small, the victim included. */
  lemma TopIsLast(l: Layout, dv: nat, nb: nat, v: nat, l': Layout, dv': nat)
    requires l.Tiled() && 0 < l.first && Placed(l, dv) && Serves(l, dv, nb, v, l', dv') && v == l.top && nb > 0
    ensures nb < l.chunks[l.top].size
    ensures forall a :: l.Free(a) && a != l.top ==> l.chunks[a].size < nb
  {
    ChunkFacts(l, l.top);
    if 0 in l.chunks { ChunkFacts(l, 0); }
    forall a | l.Free(a) && a != l.top && a != dv
      ensures l.chunks[a].size < nb
    {
      assert a in Binned(l, dv);
    }
  }

  /** A request is refused only when every free chunk is too small, the top being needed for one byte more. */
  lemma RefusedWhenFull(l: Layout, dv: nat, nb: nat, l': Layout, dv': nat)
    requires l.Tiled() && 0 < l.first && Placed(l, dv) && Serves(l, dv, nb, 0, l', dv') && nb > 0
    ensures forall a :: l.Free(a) ==> if a == l.top then l.chunks[a].size <= nb else l.chunks[a].size < nb
    ensures l' == l && dv' == dv
  {
    ChunkFacts(l, l.top);
    if 0 in l.chunks { ChunkFacts(l, 0); }
    forall a | l.Free(a) && a != l.top && a != dv
      ensures l.chunks[a].size < nb
    {
      assert a in Binned(l, dv);
    }
  }

  /**
   A binned chunk that is chosen is a smallest of those that fit. The victim is passed over for it only
   if it is too small, or for a small request if the binned chunk leaves less than a chunk over, or for a
   large one if the binned chunk is smaller.
   */
  lemma BinnedIsBest(l: Layout, dv: nat, nb: nat, v: nat, l': Layout, dv': nat)
    requires l.Tiled() && 0 < l.first && Placed(l, dv) && Serves(l, dv, nb, v, l', dv') && nb > 0
    requires v != 0 && v != dv && v != l.top
    ensures l.Free(v) && nb <= l.chunks[v].size
    ensures forall a :: l.Free(a) && a != l.top && a != dv && nb <= l.chunks[a].size ==>
              l.chunks[v].size <= l.chunks[a].size
    ensures dv != 0 && nb <= l.chunks[dv].size ==>
              if nb < MIN_LARGE_SIZE then l.chunks[v].size < MIN_LARGE_SIZE && l.chunks[v].size <= nb + 8
              else l.chunks[v].size < l.chunks[dv].size
  {
    if 0 in l.chunks { ChunkFacts(l, 0); }
    forall a | l.Free(a) && a != l.top && a != dv && nb <= l.chunks[a].size
      ensures l.chunks[v].size <= l.chunks[a].size
    {
      assert a in Binned(l, dv);
    }
  }

  /** The victim is chosen only if no binned chunk is a closer fit: ties go to the victim. */
  lemma VictimIsBest(l: Layout, dv: nat, nb: nat, l': Layout, dv': nat)
    requires l.Tiled() && 0 < l.first && dv != 0 && Placed(l, dv) && Serves(l, dv, nb, dv, l', dv') && nb > 0
    ensures nb <= l.chunks[dv].size
    ensures forall a :: l.Free(a) && a != l.top && nb <= l.chunks[a].size ==>
              if nb < MIN_LARGE_SIZE then a == dv || l.chunks[a].size >= MIN_LARGE_SIZE || l.chunks[a].size > nb + 8
              else l.chunks[dv].size <= l.chunks[a].size
  {
    if 0 in l.chunks { ChunkFacts(l, 0); }
    forall a | l.Free(a) && a != l.top && a != dv && nb <= l.chunks[a].size
      ensures if nb < MIN_LARGE_SIZE then l.chunks[a].size >= MIN_LARGE_SIZE || l.chunks[a].size > nb + 8
              else l.chunks[dv].size <= l.chunks[a].size
    {
      assert a in Binned(l, dv);
    }
  }

  /** For a large request the chosen chunk is a smallest that fits of all free chunks but the top. */
  lemma LargeIsBest(l: Layout, dv: nat, nb: nat, v: nat, l': Layout, dv': nat)
    requires l.Tiled() && 0 < l.first && Placed(l, dv) && Serves(l, dv, nb, v, l', dv') && v != 0
    requires nb >= MIN_LARGE_SIZE
    ensures forall a :: l.Free(a) && a != l.top && nb <= l.chunks[a].size ==>
              && v != l.top && l.chunks[v].size <= l.chunks[a].size
              && (v != dv && a == dv ==> l.chunks[v].size < l.chunks[a].size)
  {
    if v == l.top { TopIsLast(l, dv, nb, v, l', dv'); }
    else if v == dv { VictimIsBest(l, dv, nb, l', dv'); }
    else { BinnedIsBest(l, dv, nb, v, l', dv'); }
  }

  /**
   A block is cut to the size asked for, unless less than a chunk would be left over. The rest of the
   victim, and for a small request the rest of a binned chunk, becomes the victim; a victim that is
   used up leaves none.
   */
  lemma RestIsVictim(l: Layout, dv: nat, nb: nat, v: nat, l': Layout, dv': nat)
    requires l.Tiled() && 0 < l.first && Placed(l, dv) && Serves(l, dv, nb, v, l', dv') && v != 0
    requires nb % 8 == 0 && MIN_CHUNK_SIZE <= nb
    ensures v in l.chunks && v in l'.chunks
    ensures var s, k := l.chunks[v].size, l'.chunks[v].size;
            && k == (if v == l.top || s >= nb + MIN_CHUNK_SIZE then nb else s)
            && (k < s ==> l'.Free(v + k) && l'.chunks[v + k].size == s - k)
            && dv' == if v == dv then (if k < s then v + k else 0)
                      else if v != l.top && nb < MIN_LARGE_SIZE && k < s then v + k
                      else dv
  {
    if 0 in l.chunks { ChunkFacts(l, 0); }
    ChunkFacts(l, l.top);
    ChosenFree(l, dv, nb, v);
    TakeChunks(l, v, nb);
  }

  /** After a release the victim is the chunk that holds the old one; there is none if the top swallowed it. */
  lemma VictimFollows(l: Layout, dv: nat, p: nat)
    requires l.Tiled() && 0 < l.first && p in Live(l) && Placed(l, dv)
    ensures var l', dv' := Released(l, p), ReleasedDv(l, dv, p);
            if dv == 0 || l'.top <= dv then dv' == 0
            else l'.Free(dv') && dv' <= dv < dv' + l'.chunks[dv'].size
  {
    Bounds(l, p);
    ReleasedChunks(l, p);
    ChunkFacts(l, p);
    if dv != 0 {
      ChunkFacts(l, dv);
      assert l.Apart(dv, p) && l.Apart(p, dv) && l.Apart(Lo(l, p), dv) && l.Apart(dv, l.top) && l.Apart(l.top, dv);
    }
  }

  /**
   A block can be resized in place if it is large enough, or with the free chunk behind it; the top
   must not be used up.
   */
  lemma WhenResizable(l: Layout, p: nat, nb: nat)
    requires l.Tiled() && p in Live(l)
    ensures var s := l.chunks[p].size;
            Resizable(l, p, nb) <==>
            || nb <= s
            || (l.Free(p + s) && var room := s + l.chunks[p + s].size; if p + s == l.top then nb < room else nb <= room)
  {
    ChunkFacts(l, p);
  }
}
