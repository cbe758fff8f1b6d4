/**
 What releasing a block means: it melts with the free chunks around it. `Released` is the new layout,
 `ReleasedWords` the memory behind it.
 */
module Release {
  import opened Sizes
  import opened Heap
  import opened Blocks

  /** Where the free chunk begins that contains a released block. */
  ghost function Lo(l: Layout, p: nat): nat
    requires l.Tiled() && p in l.chunks && p != l.first
  {
    if l.Inuse(Before(l, p)) then p else Before(l, p)
  }

  /** Where it ends. */
  function Hi(l: Layout, p: nat): nat {
    if l.Free(l.Next(p)) then l.Next(l.Next(p)) else l.Next(p)
  }

  lemma Bounds(l: Layout, p: nat)
    requires l.Tiled() && l.Inuse(p) && p != l.first
    ensures var lo, n, hi := Lo(l, p), l.Next(p), Hi(l, p);
            && lo <= p < n <= hi && n in l.chunks && lo in l.chunks && lo != l.first
            && lo % 8 == 0 && lo >= l.first + HEADER_SIZE
            && (lo != p ==> l.Free(lo) && l.Next(lo) == p && lo != l.top)
            && (n == l.top <==> hi == l.end)
            && (hi != l.end ==> l.Inuse(hi) && hi < l.top && hi % 8 == 0 && hi - lo >= MIN_CHUNK_SIZE)
            && (hi == l.end ==> l.Free(n)) && (l.Free(n) ==> n < hi)
            && n % 8 == 0 && l.Fenced(lo)
  {
    ChunkFacts(l, p);
    ChunkFacts(l, l.Next(p));
    if Hi(l, p) in l.chunks { ChunkFacts(l, Hi(l, p)); }
    ChunkFacts(l, Before(l, p));
    assert Before(l, p) == l.first ==> l.Inuse(l.first);
    if Lo(l, p) == p {
      forall x | l.Free(x) && l.Next(x) == p
        ensures false
      {
        BeforeUnique(l, p, x);
      }
    }
  }

  /** The layout without block `p`. */
  ghost function Released(l: Layout, p: nat): Layout
    requires l.Tiled() && l.Inuse(p) && p != l.first
  {
    Bounds(l, p);
    l.Recast(Lo(l, p), Hi(l, p) - Lo(l, p), false, Hi(l, p), false)
  }

  lemma ReleasedChunks(l: Layout, p: nat)
    requires l.Tiled() && l.Inuse(p) && p != l.first
    ensures Released(l, p).Tiled()
    ensures var lo, n, hi := Lo(l, p), l.Next(p), Hi(l, p);
            && l.Fits(lo, hi - lo, false, hi, false)
            && Released(l, p).chunks == (l.chunks - (if l.Free(n) then {p, n} else {p}))[lo := Chunk(hi - lo, false)]
            && Released(l, p).top == if n == l.top then lo else l.top
  {
    var lo, n, hi := Lo(l, p), l.Next(p), Hi(l, p);
    Bounds(l, p);
    RecastTiled(l, lo, hi - lo, false, hi, false);
    ChunkFacts(l, n);
    forall x | x in l.chunks && lo <= x < hi
      ensures x == lo || x == p || (x == n && l.Free(n))
    {
      assert l.Apart(lo, x) && l.Apart(p, x) && l.Apart(n, x);
    }
  }

  // ----- the words -----

  /** The memory after the chunks from `lo` to `hi` have become one; `n` is the chunk behind the block. */
  function MeltedWords(m: Memory, lo: nat, n: nat, hi: nat, end: nat): Memory
    requires lo <= hi && n in m.head
  {
    if hi == n then SetFreeWithPinuse(m, lo, hi - lo, n)
    else if hi == end then m.(head := m.head[lo := SetPinuse(hi - lo)])
    else SetFree(m, lo, hi - lo)
  }

  /** The memory after a release. */
  ghost function ReleasedWords(l: Layout, m: Memory, p: nat): Memory
    requires l.Tiled() && Tags(l, m) && l.Inuse(p) && p != l.first
  {
    Bounds(l, p);
    assert Tagged(l, m, l.Next(p));
    MeltedWords(m, Lo(l, p), l.Next(p), Hi(l, p), l.end)
  }

  lemma ReleasedTags(l: Layout, m: Memory, p: nat)
    requires l.Tiled() && Tags(l, m) && l.Inuse(p) && p != l.first
    ensures Tags(Released(l, p), ReleasedWords(l, m, p))
  {
    var lo, hi := Lo(l, p), Hi(l, p);
    Bounds(l, p);
    ReleasedChunks(l, p);
    ReleasedRetag(l, m, p);
    RecastTags(l, m, ReleasedWords(l, m, p), lo, hi - lo, false, hi, false);
  }

  lemma ReleasedRetag(l: Layout, m: Memory, p: nat)
    requires l.Tiled() && Tags(l, m) && l.Inuse(p) && p != l.first
    ensures var lo, hi := Lo(l, p), Hi(l, p);
            lo < hi && Retagged(l, m, ReleasedWords(l, m, p), lo, hi - lo, false, hi, false)
  {
    Bounds(l, p);
    Edges(l, m, p);
    ChunkFacts(l, l.top);
    RetagCases(l, m, Lo(l, p), l.Next(p), Hi(l, p));
  }

  lemma RetagCases(l: Layout, m: Memory, lo: nat, n: nat, hi: nat)
    requires lo < n <= hi && lo % 8 == 0 && n % 8 == 0
    requires lo in m.head && Pinuse(m.head[lo]) && n in m.head && hi in m.head
    requires l.top < l.end && (hi == l.end <==> n == l.top) && (hi != l.end ==> hi % 8 == 0 && hi < l.top)
    requires n < hi ==> !Pinuse(m.head[hi])
    requires n == l.top ==> TopSize(l.end - n)
    ensures Retagged(l, m, MeltedWords(m, lo, n, hi, l.end), lo, hi - lo, false, hi, false)
  {
    if hi == n {
      RetagFree(l, m, lo, n);
    } else if n == l.top {
      RetagTop(l, m, lo, n);
    } else {
      RetagMelted(l, m, lo, hi);
    }
  }

  /** The words at the edges of the melting range. */
  lemma Edges(l: Layout, m: Memory, p: nat)
    requires l.Tiled() && Tags(l, m) && l.Inuse(p) && p != l.first
    ensures var lo, n, hi := Lo(l, p), l.Next(p), Hi(l, p);
            && lo in m.head && Pinuse(m.head[lo]) && n in m.head && hi in m.head
            && (l.Free(n) ==> !Pinuse(m.head[hi]) && hi == n + l.chunks[n].size)
            && (n == l.top ==> TopSize(l.chunks[n].size))
  {
    Bounds(l, p);
    assert Tagged(l, m, l.Next(p)) && Tagged(l, m, p);
    PinuseBefore(l, m, Lo(l, p));
  }

  lemma RetagFree(l: Layout, m: Memory, lo: nat, n: nat)
    requires lo < n && (n - lo) % 8 == 0 && !(lo <= l.top < n)
    requires lo in m.head && Pinuse(m.head[lo]) && n in m.head
    ensures Retagged(l, m, SetFreeWithPinuse(m, lo, n - lo, n), lo, n - lo, false, n, false)
  {
    RecastAt(l, lo, n - lo, false, n, false);
    HeadBits(n - lo);
    PinuseBits(m.head[n]);
  }

  lemma RetagMelted(l: Layout, m: Memory, lo: nat, hi: nat)
    requires lo < hi && (hi - lo) % 8 == 0 && !(lo <= l.top < hi)
    requires lo in m.head && Pinuse(m.head[lo]) && hi in m.head && !Pinuse(m.head[hi])
    ensures Retagged(l, m, SetFree(m, lo, hi - lo), lo, hi - lo, false, hi, false)
  {
    RecastAt(l, lo, hi - lo, false, hi, false);
    HeadBits(hi - lo);
  }

  lemma RetagTop(l: Layout, m: Memory, lo: nat, n: nat)
    requires lo < n == l.top < l.end && (n - lo) % 8 == 0 && TopSize(l.end - n)
    requires lo in m.head && Pinuse(m.head[lo]) && l.end in m.head && !Pinuse(m.head[l.end])
    ensures Retagged(l, m, m.(head := m.head[lo := SetPinuse(l.end - lo)]), lo, l.end - lo, false, l.end, false)
  {
    RecastAt(l, lo, l.end - lo, false, l.end, false);
    GrownTopBits(l.end - n, n - lo);
  }

  lemma GrownTopBits(s: nat, more: nat)
    requires more % 8 == 0 && TopSize(s)
    ensures TopSize(s + more) && Pinuse(SetPinuse(s + more))
  {
    assert s + more == 8 * (s / 8 + more / 8) + s % 8;
    SameTopFlags(s, s + more);
  }

  // ----- the designated victim and the bins -----

  /** The designated victim after a release. */
  ghost function ReleasedDv(l: Layout, dv: nat, p: nat): nat
    requires l.Tiled() && p in l.chunks && p != l.first
  {
    var lo, n := Lo(l, p), l.Next(p);
    if n == l.top then (if lo == dv then 0 else dv) else if lo == dv || n == dv then lo else dv
  }

  lemma ReleasedBinned(l: Layout, dv: nat, p: nat)
    requires l.Tiled() && l.Inuse(p) && p != l.first && 0 !in l.chunks && (dv != 0 ==> l.Free(dv) && dv != l.top)
    ensures var lo, dv', rest := Lo(l, p), ReleasedDv(l, dv, p), Binned(l, dv) - {Lo(l, p), l.Next(p)};
            Binned(Released(l, p), dv') ==
            if lo == dv' || l.Next(p) == l.top then rest else rest[lo := Hi(l, p) - lo]
  {
    var lo := Lo(l, p);
    Bounds(l, p);
    ReleasedChunks(l, p);
    ChunkFacts(l, lo);
    MeltedBinned(l, Released(l, p), dv, ReleasedDv(l, dv, p), lo, p, l.Next(p));
  }

  /** Chunk `lo` stands for those that melted into it. */
  lemma MeltedBinned(l: Layout, l': Layout, dv: nat, dv': nat, lo: nat, p: nat, n: nat)
    requires lo in l'.chunks && !l'.chunks[lo].inuse && n in l.chunks && lo != n && n != p && l.Inuse(p)
    requires l'.chunks == (l.chunks - (if l.Free(n) then {p, n} else {p}))[lo := l'.chunks[lo]]
    requires l'.top == if n == l.top then lo else l.top
    requires lo == p || (l.Free(lo) && lo != l.top)
    requires 0 !in l'.chunks && l.top != lo && (n == l.top ==> l.Free(n))
    requires (dv' == lo && (dv == lo || dv == n)) || (dv' == 0 && dv == lo && n == l.top)
             || (dv' == dv && dv != lo && dv != n)
    ensures var rest := Binned(l, dv) - {lo, n};
            Binned(l', dv') == if lo == dv' || n == l.top then rest else rest[lo := l'.chunks[lo].size]
  {
  }

  lemma ReleasedSound(l: Layout, m: Memory, dv: nat, dvsize: nat, topsize: nat, p: nat)
    requires Intact(l, m, dv, dvsize, topsize) && l.Inuse(p) && p != l.first
    ensures var lo, hi, dv' := Lo(l, p), Hi(l, p), ReleasedDv(l, dv, p);
            lo < hi && Intact(Released(l, p), ReleasedWords(l, m, p), dv',
                             if dv' == lo then hi - lo else if dv' == 0 then 0 else dvsize,
                             if l.Next(p) == l.top then hi - lo else topsize)
    ensures 0 !in l.chunks
  {
    Bounds(l, p);
    ReleasedChunks(l, p);
    ReleasedTags(l, m, p);
    if 0 in l.chunks { ChunkFacts(l, 0); }
  }

  /** The chunk sizes that the code adds up. */
  lemma MeltedSizes(l: Layout, m: Memory, dv: nat, dvsize: nat, topsize: nat, p: nat)
    requires Intact(l, m, dv, dvsize, topsize) && l.Inuse(p) && p != l.first
    ensures var lo, n, hi := Lo(l, p), l.Next(p), Hi(l, p);
            && p in m.head && ChunkSize(m.head[p]) == n - p && n in m.head
            && (Pinuse(m.head[p]) <==> lo == p)
            && (lo != p ==> p in m.foot && m.foot[p] == p - lo && m.foot[p] % 2 == 0)
            && (lo != p && lo != dv ==> lo in Binned(l, dv) && Binned(l, dv)[lo] == p - lo)
            && (Cinuse(m.head[n]) <==> !l.Free(n)) && Pinuse(m.head[n])
            && (n == l.top ==> hi - n == topsize) && (n == dv ==> hi - n == dvsize)
            && (l.Free(n) && n != l.top && n != dv ==>
                  n in Binned(l, dv) && Binned(l, dv)[n] == hi - n == ChunkSize(m.head[n]))
  {
    SizesBefore(l, m, dv, p);
    SizesBehind(l, m, dv, dvsize, topsize, p);
  }

  lemma SizesBefore(l: Layout, m: Memory, dv: nat, p: nat)
    requires l.Tiled() && Tags(l, m) && l.Inuse(p) && p != l.first
    ensures var lo := Lo(l, p);
            && p in m.head && (Pinuse(m.head[p]) <==> lo == p)
            && (lo != p ==> p in m.foot && m.foot[p] == p - lo && m.foot[p] % 2 == 0)
            && (lo != p && lo != dv ==> lo in Binned(l, dv) && Binned(l, dv)[lo] == p - lo)
  {
    PinuseBefore(l, m, p);
    var b := Before(l, p);
    ChunkFacts(l, b);
    LowDigits(l.chunks[b].size, l.chunks[b].size / 8, 0);
  }

  lemma SizesBehind(l: Layout, m: Memory, dv: nat, dvsize: nat, topsize: nat, p: nat)
    requires Intact(l, m, dv, dvsize, topsize) && l.Inuse(p) && p != l.first
    ensures var n, hi := l.Next(p), Hi(l, p);
            && p in m.head && ChunkSize(m.head[p]) == n - p && n in m.head
            && (Cinuse(m.head[n]) <==> !l.Free(n)) && Pinuse(m.head[n])
            && (n == l.top ==> hi - n == topsize) && (n == dv ==> hi - n == dvsize)
            && (l.Free(n) && n != l.top && n != dv ==>
                  n in Binned(l, dv) && Binned(l, dv)[n] == hi - n == ChunkSize(m.head[n]))
  {
    ChunkFacts(l, p);
    ChunkFacts(l, l.Next(p));
    assert Tagged(l, m, p) && Tagged(l, m, l.Next(p));
  }

  // ----- the cases of the code -----

  /** The binned chunk before a block, which is taken out of its bin first. */
  ghost function Leading(l: Layout, dv: nat, p: nat): set<nat>
    requires l.Tiled() && p in l.chunks && p != l.first
  {
    if Lo(l, p) == p || Lo(l, p) == dv then {} else {Lo(l, p)}
  }

  /** The layout, the designated victim and the bins after a release. */
  lemma Melted(l: Layout, m: Memory, dv: nat, dvsize: nat, topsize: nat, p: nat)
    requires Intact(l, m, dv, dvsize, topsize) && l.Inuse(p) && p != l.first
    ensures var lo, n, hi, l', dv' := Lo(l, p), l.Next(p), Hi(l, p), Released(l, p), ReleasedDv(l, dv, p);
            var rest := Binned(l, dv) - Leading(l, dv, p) - (if l.Free(n) then {n} else {});
            && lo < n && n in l.chunks && l' == Layout(l'.chunks, l.first, if n == l.top then lo else l.top, l.end)
            && Intact(l', ReleasedWords(l, m, p), dv',
                      if dv' == lo then hi - lo else if dv' == 0 then 0 else dvsize,
                      if n == l.top then hi - lo else topsize)
            && lo in l'.chunks && l'.chunks[lo].size == hi - lo && lo > 0
            && if lo == dv' || n == l.top then Binned(l', dv') == rest
               else lo in Binned(l', dv') && Binned(l', dv') - {lo} == rest
  {
    Bounds(l, p);
    ReleasedSound(l, m, dv, dvsize, topsize, p);
    ReleasedBinned(l, dv, p);
    ReleasedChunks(l, p);
    var n := l.Next(p);
    SubtractKeys(Binned(l, dv), Lo(l, p), n, Leading(l, dv, p), if l.Free(n) then {n} else {});
  }

  lemma SubtractKeys(b: map<nat, nat>, x: nat, y: nat, xs: set<nat>, ys: set<nat>)
    requires xs <= {x} && (x in b ==> x in xs) && ys <= {y} && (y in b ==> y in ys)
    ensures b - {x, y} == b - xs - ys
  {
  }

  lemma MeltedTop(l: Layout, m: Memory, dv: nat, dvsize: nat, topsize: nat, p: nat)
    requires Intact(l, m, dv, dvsize, topsize) && l.Inuse(p) && p != l.first && l.Next(p) == l.top
    ensures var lo, l' := Lo(l, p), Released(l, p);
            var dv', size := if lo == dv then 0 else dv, topsize + (l.top - lo);
            && lo < l.top && l' == Layout(l'.chunks, l.first, lo, l.end)
            && Intact(l', m.(head := m.head[lo := SetPinuse(size)]), dv', if lo == dv then 0 else dvsize, size)
            && dv' == ReleasedDv(l, dv, p)
            && Binned(l', dv') == Binned(l, dv) - Leading(l, dv, p)
  {
    Bounds(l, p);
    Melted(l, m, dv, dvsize, topsize, p);
    MeltedSizes(l, m, dv, dvsize, topsize, p);
    ChunkFacts(l, l.top);
    var b := Binned(l, dv) - Leading(l, dv, p);
    assert b - {l.top} == b;
  }

  lemma MeltedDv(l: Layout, m: Memory, dv: nat, dvsize: nat, topsize: nat, p: nat)
    requires Intact(l, m, dv, dvsize, topsize) && l.Inuse(p) && p != l.first && l.Next(p) == dv
    ensures var lo, l' := Lo(l, p), Released(l, p);
            var size := dvsize + (dv - lo);
            && lo < dv && l' == Layout(l'.chunks, l.first, l.top, l.end)
            && Intact(l', SetFree(m, lo, size), lo, size, topsize) && lo == ReleasedDv(l, dv, p)
            && Binned(l', lo) == Binned(l, dv) - Leading(l, dv, p)
  {
    Bounds(l, p);
    Melted(l, m, dv, dvsize, topsize, p);
    MeltedSizes(l, m, dv, dvsize, topsize, p);
    var b := Binned(l, dv) - Leading(l, dv, p);
    assert b - {dv} == b;
  }

  lemma MeltedNext(l: Layout, m: Memory, dv: nat, dvsize: nat, topsize: nat, p: nat)
    requires Intact(l, m, dv, dvsize, topsize) && l.Inuse(p) && p != l.first
    requires l.Free(l.Next(p)) && l.Next(p) != l.top && l.Next(p) != dv
    ensures var lo, n, l', rest := Lo(l, p), l.Next(p), Released(l, p), Binned(l, dv) - Leading(l, dv, p);
            && n in rest && lo < n && l' == Layout(l'.chunks, l.first, l.top, l.end)
            && var size := rest[n] + (n - lo);
            && dv == ReleasedDv(l, dv, p)
            && Intact(l', SetFree(m, lo, size), dv, if lo == dv then size else dvsize, topsize)
            && if lo == dv then Binned(l', dv) == rest - {n}
               else lo in Binned(l', dv) && Binned(l', dv)[lo] == size && Binned(l', dv) - {lo} == rest - {n}
  {
    Bounds(l, p);
    Melted(l, m, dv, dvsize, topsize, p);
    MeltedSizes(l, m, dv, dvsize, topsize, p);
  }

  lemma MeltedNone(l: Layout, m: Memory, dv: nat, dvsize: nat, topsize: nat, p: nat)
    requires Intact(l, m, dv, dvsize, topsize) && l.Inuse(p) && p != l.first && !l.Free(l.Next(p))
    ensures var lo, n, l', rest := Lo(l, p), l.Next(p), Released(l, p), Binned(l, dv) - Leading(l, dv, p);
            && n in m.head && lo < n && l' == Layout(l'.chunks, l.first, l.top, l.end)
            && dv == ReleasedDv(l, dv, p)
            && Intact(l', SetFreeWithPinuse(m, lo, n - lo, n), dv, if lo == dv then n - lo else dvsize, topsize)
            && if lo == dv then Binned(l', dv) == rest
               else lo in Binned(l', dv) && Binned(l', dv)[lo] == n - lo && Binned(l', dv) - {lo} == rest
  {
    Bounds(l, p);
    Melted(l, m, dv, dvsize, topsize, p);
    MeltedSizes(l, m, dv, dvsize, topsize, p);
    var b := Binned(l, dv) - Leading(l, dv, p);
    assert b - {} == b;
  }

  lemma LeadingNone(l: Layout, dv: nat, p: nat)
    requires l.Tiled() && p in l.chunks && p != l.first
    ensures Lo(l, p) == p || Lo(l, p) == dv ==> Binned(l, dv) - Leading(l, dv, p) == Binned(l, dv)
  {
  }
}
