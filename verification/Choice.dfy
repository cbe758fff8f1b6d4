/** Which chunk serves a request, stated without the bin maps, lists and trees that find it. */
module Choice {
  import opened Sizes
  import opened Heap
  import opened Blocks
  import opened Bins
  import opened TreeSearch
  import opened Words
  import opened BinMaps
  import opened SmallBins

  /** Size 0 when there is no designated victim. */
  function SizeOf(l: Layout, a: nat): nat { if a in l.chunks then l.chunks[a].size else 0 }

  /** Whether a binned chunk of `s` bytes is used although the designated victim of `d` bytes would do. */
  predicate Better(nb: nat, s: nat, d: nat) {
    if nb < MIN_LARGE_SIZE then s < MIN_LARGE_SIZE && s <= nb + 8 else s < d
  }

  /** No binned chunk is to be used for `nb` bytes. */
  predicate Passed(b: map<nat, nat>, nb: nat, d: nat) {
    forall a :: a in b && nb <= b[a] ==> nb <= d && !Better(nb, b[a], d)
  }

  predicate Picked(b: map<nat, nat>, nb: nat, d: nat, v: nat) {
    SmallestFit(b, nb, v) && (d < nb || Better(nb, b[v], d))
  }

  /** The chunk at `v` serves a request of `nb` bytes, or none does and `v` is 0. */
  predicate Chooses(l: Layout, dv: nat, nb: nat, v: nat) {
    var b, d := Binned(l, dv), SizeOf(l, dv);
    if v in b then Picked(b, nb, d, v)
    else
      && Passed(b, nb, d)
      && v == if nb <= d then dv else if nb < SizeOf(l, l.top) then l.top else 0
  }

  /** The designated victim after chunk `v` was taken: the rest of it, or of a chunk split for a small request. */
  function NextDv(l: Layout, dv: nat, v: nat, nb: nat): nat {
    if v == dv then (if Splits(l, v, nb) then v + nb else 0)
    else if v != l.top && nb < MIN_LARGE_SIZE && Splits(l, v, nb) then v + nb
    else dv
  }

  /** A request of `nb` bytes is served by chunk `v`, or by none if `v` is 0, and leads to `l'` and `dv'`. */
  predicate Serves(l: Layout, dv: nat, nb: nat, v: nat, l': Layout, dv': nat) {
    && Chooses(l, dv, nb, v)
    && if v == 0 then l' == l && dv' == dv
       else v in l.chunks && nb <= l.chunks[v].size && l' == Take(l, v, nb) && dv' == NextDv(l, dv, v, nb)
  }

  lemma PickedServes(l: Layout, dv: nat, nb: nat, v: nat)
    requires Picked(Binned(l, dv), nb, SizeOf(l, dv), v) && v != 0
    ensures v in l.chunks && nb <= l.chunks[v].size && v != dv && v != l.top
    ensures Serves(l, dv, nb, v, Take(l, v, nb), NextDv(l, dv, v, nb))
  {
  }

  /** The comparison with the designated victim in tmalloc_large, with its wraparound. */
  lemma LargeChoice(small: map<nat, nat>, large: map<nat, nat>, nb: nat, d: nat, v: nat, rsize: nat)
    requires Disjoint(small, large) && MIN_LARGE_SIZE <= nb < WORD && d < WORD
    requires BestFit(large, nb, v, rsize) && 0 !in small + large
    ensures if v != 0 && rsize < Distance(nb, d) then v in large && Picked(small + large, nb, d, v)
            else Passed(small + large, nb, d)
  {
  }

  /** What the bits of the small bin map tell about the choice. */
  lemma SmallBitsChoice(m: BinMap, small: map<nat, nat>, large: map<nat, nat>, nb: nat, d: nat)
    requires Disjoint(small, large) && Covers(m, small)
    requires nb % 8 == 0 && MIN_CHUNK_SIZE <= nb < MIN_LARGE_SIZE
    ensures var idx, b := SmallIndex(nb), small + large;
            var smallbits := SmallBits(m, idx);
            if And(smallbits, 3) != 0 then
              var i := NearBin(smallbits, idx);
              && i < 32 && Marked(m, i) && nb <= IndexSize(i) <= nb + 8
              && forall v :: v in b && b[v] == IndexSize(i) ==> Picked(b, nb, d, v)
            else if nb <= d then Passed(b, nb, d)
            else if smallbits != 0 then
              && BinsLeft(smallbits, idx) != 0
              && var i := LeastIndex(BinsLeft(smallbits, idx));
              && Marked(m, i) && nb <= IndexSize(i)
              && forall v :: v in b && b[v] == IndexSize(i) ==> Picked(b, nb, d, v)
            else
              && NoFit(small, nb)
              && (large == map[] ==> Passed(b, nb, d))
  {
    NearFit(m, small, nb);
    if And(SmallBits(m, SmallIndex(nb)), 3) == 0 { NextFit(m, small, nb); }
  }

  /** Without a fitting small chunk, the best large one is the best of all. */
  lemma SmallChoice(small: map<nat, nat>, large: map<nat, nat>, nb: nat, d: nat, v: nat, rsize: nat)
    requires Disjoint(small, large) && NoFit(small, nb) && d < nb
    requires v != 0 && BestFit(large, nb, v, rsize)
    ensures v in large && Picked(small + large, nb, d, v)
  {
  }
}
