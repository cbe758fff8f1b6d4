/** An mspace over one external segment, as create_mspace_with_base makes it. */
module Arena {
  import opened Options
  import opened Words
  import opened BinMaps
  import opened Sizes
  import opened SmallBins
  import opened TreeSteps
  import opened Bins
  import opened Heap
  import opened Blocks
  import opened Release
  import opened Choice
  import opened Resize
  import opened Runs
  import opened Policy

  class Arena {
    const first: nat
    const end: nat
    const bins: Bins
    var mem: Memory
    var dv: nat
    var dvsize: nat
    var top: nat
    var topsize: nat
    ghost var chunks: map<nat, Chunk>

    ghost function Heap(): Layout
      reads this
    {
      Layout(chunks, first, top, end)
    }

    ghost predicate Valid()
      reads this, bins, bins.small, bins.tree
    {
      && Intact(Heap(), mem, dv, dvsize, topsize)
      && bins.Valid() && bins.Contents() == Binned(Heap(), dv) && bins.Floor() <= first + HEADER_SIZE
    }

    /** init_user_mstate. */
    constructor (base: nat, capacity: nat)
      requires capacity > HEADER_SIZE + TOP_FOOT_SIZE && 0 < base && base + capacity <= WORD
      ensures first == AlignAsChunk(base) && end == base + capacity - TOP_FOOT_SIZE
      ensures Heap() == InitialLayout(base, capacity) && dv == 0
      ensures Valid() <==> Usable(base, capacity)
      ensures fresh(bins) && fresh(bins.small) && fresh(bins.tree)
    {
      var msp := AlignAsChunk(base);
      var mn := msp + HEADER_SIZE;
      first := msp;
      end := base + capacity - TOP_FOOT_SIZE;
      bins := new Bins(msp + 88, msp + 616);
      dv, dvsize := 0, 0;
      top := mn;
      topsize := Distance(mn, base + capacity - TOP_FOOT_SIZE);
      mem := InitialMemory(base, capacity);
      chunks := InitialLayout(base, capacity).chunks;
      new;
      InitialIntact(base, capacity);
    }

    /** All is in order, but chunk `p` was taken out of its bin. */
    ghost predicate Lacks(p: nat)
      reads this, bins, bins.small, bins.tree
    {
      && Intact(Heap(), mem, dv, dvsize, topsize)
      && bins.Valid() && bins.Floor() <= first + HEADER_SIZE
      && p in Binned(Heap(), dv) && bins.Contents() == Binned(Heap(), dv) - {p}
    }

    // ----- cutting a chunk that was taken out of its bin -----

    method UseWhole(p: nat, s: nat, ghost nb: nat)
      requires Lacks(p) && s == chunks[p].size && nb % 8 == 0 && MIN_CHUNK_SIZE <= nb <= s < nb + MIN_CHUNK_SIZE
      modifies this
      ensures Valid() && dv == old(dv) && Heap() == Take(old(Heap()), p, nb)
    {
      TakenWhole(Heap(), mem, dv, dvsize, topsize, p, nb);
      TakeChunks(Heap(), p, nb);
      mem := SetInuseAndPinuse(mem, p, s);
      chunks := Take(Heap(), p, nb).chunks;
    }

    /** Writes the tags of the two parts of a chunk; the rest is to be binned. */
    method Split(p: nat, s: nat, nb: nat)
      requires Lacks(p) && s == chunks[p].size && nb % 8 == 0 && MIN_CHUNK_SIZE <= nb && nb + MIN_CHUNK_SIZE <= s
      modifies this`mem, this`chunks
      ensures Lacks(p + nb) && Heap() == Take(old(Heap()), p, nb) && chunks[p + nb].size == s - nb
    {
      TakenRest(Heap(), mem, dv, dvsize, topsize, p, nb);
      TakeChunks(Heap(), p, nb);
      chunks := Take(Heap(), p, nb).chunks;
      mem := SetFree(SetInuseSize(mem, p, nb), p + nb, s - nb);
    }

    method InsertChunk(r: nat, rsize: nat)
      requires Lacks(r) && chunks[r].size == rsize
      modifies bins.small, bins.tree
      ensures Valid()
    {
      Fileable(Heap(), mem, dv, dvsize, topsize, r);
      bins.Insert(mem.head, r, rsize);
    }

    method InsertSmallChunk(r: nat, rsize: nat)
      requires Lacks(r) && chunks[r].size == rsize < MIN_LARGE_SIZE
      modifies bins.small
      ensures Valid()
    {
      Fileable(Heap(), mem, dv, dvsize, topsize, r);
      bins.InsertSmall(r, rsize);
    }

    method SplitToBin(p: nat, s: nat, nb: nat)
      requires Lacks(p) && s == chunks[p].size && nb % 8 == 0 && MIN_CHUNK_SIZE <= nb && nb + MIN_CHUNK_SIZE <= s
      modifies this`mem, this`chunks, bins.small, bins.tree
      ensures Valid() && Heap() == Take(old(Heap()), p, nb)
    {
      Split(p, s, nb);
      InsertChunk(p + nb, s - nb);
    }

    method SplitToDv(p: nat, s: nat, nb: nat)
      requires Lacks(p) && s == chunks[p].size && nb % 8 == 0 && MIN_CHUNK_SIZE <= nb && nb + MIN_CHUNK_SIZE <= s
      requires dvsize < MIN_LARGE_SIZE
      modifies this`mem, this`chunks, this`dv, this`dvsize, bins.small
      ensures Valid() && dv == p + nb && Heap() == Take(old(Heap()), p, nb)
    {
      Split(p, s, nb);
      ReplaceDv(p + nb, s - nb);
    }

    /** replace_dv: the old victim is small, as its assertion says, and goes to a small bin. */
    method ReplaceDv(p: nat, s: nat)
      requires Lacks(p) && chunks[p].size == s && dvsize < MIN_LARGE_SIZE
      modifies this`dv, this`dvsize, bins.small
      ensures Valid() && dv == p
    {
      var dvs := dvsize;
      DvReplaced(Heap(), mem, dv, dvsize, topsize, p);
      if dvs != 0 {
        var old_dv := dv;
        dvsize := s;
        dv := p;
        InsertSmallChunk(old_dv, dvs);
      } else {
        dvsize := s;
        dv := p;
      }
    }

    // ----- the designated victim and the top chunk -----

    method TakeDv(nb: nat)
      requires Valid() && nb % 8 == 0 && MIN_CHUNK_SIZE <= nb <= dvsize
      modifies this
      ensures Valid() && Heap() == Take(old(Heap()), old(dv), nb) && dv == NextDv(old(Heap()), old(dv), old(dv), nb)
    {
      var rsize := dvsize - nb;
      if rsize >= MIN_CHUNK_SIZE {
        SplitDv(nb, rsize);
      } else {
        ExhaustDv(nb);
      }
    }

    method SplitDv(nb: nat, rsize: nat)
      requires Valid() && nb % 8 == 0 && MIN_CHUNK_SIZE <= nb && MIN_CHUNK_SIZE <= rsize && dvsize == nb + rsize
      modifies this
      ensures Valid() && Heap() == Take(old(Heap()), old(dv), nb) && dv == old(dv) + nb
    {
      var p := dv;
      DvSplit(Heap(), mem, dv, dvsize, topsize, nb);
      TakeChunks(Heap(), p, nb);
      chunks := Take(Heap(), p, nb).chunks;
      var r := p + nb;
      dv := r;
      dvsize := rsize;
      mem := SetInuseSize(SetFree(mem, r, rsize), p, nb);
    }

    method ExhaustDv(ghost nb: nat)
      requires Valid() && nb % 8 == 0 && MIN_CHUNK_SIZE <= nb <= dvsize < nb + MIN_CHUNK_SIZE
      modifies this
      ensures Valid() && Heap() == Take(old(Heap()), old(dv), nb) && dv == 0
    {
      var p, dvs := dv, dvsize;
      DvExhausted(Heap(), mem, dv, dvsize, topsize, nb);
      TakeChunks(Heap(), p, nb);
      chunks := Take(Heap(), p, nb).chunks;
      dvsize := 0;
      dv := 0;
      mem := SetInuseAndPinuse(mem, p, dvs);
    }

    method TakeTop(nb: nat) returns (p: nat)
      requires Valid() && nb % 8 == 0 && MIN_CHUNK_SIZE <= nb < topsize
      modifies this
      ensures Valid() && p == old(top) && dv == old(dv) && Heap() == Take(old(Heap()), p, nb)
    {
      TakenTop(Heap(), mem, dv, dvsize, topsize, nb);
      TakeChunks(Heap(), top, nb);
      chunks := Take(Heap(), top, nb).chunks;
      topsize := topsize - nb;
      p := top;
      top := p + nb;
      mem := SetInuseSize(mem.(head := mem.head[top := SetPinuse(topsize)]), p, nb);
    }

    // ----- malloc -----

    /** tmalloc_large. */
    method TmallocLarge(nb: nat) returns (p: nat)
      requires Valid() && nb % 8 == 0 && MIN_LARGE_SIZE <= nb < WORD
      modifies this, bins.small, bins.tree
      ensures Valid()
      ensures p == 0 ==> Heap() == old(Heap()) && dv == old(dv) && Passed(Binned(Heap(), dv), nb, SizeOf(Heap(), dv))
      ensures p != 0 ==> Picked(Binned(old(Heap()), old(dv)), nb, SizeOf(old(Heap()), old(dv)), p)
      ensures p != 0 ==> Heap() == Take(old(Heap()), p, nb) && dv == old(dv)
    {
      var v, rsize := FindLarge(nb);
      if v != 0 && rsize < Distance(nb, dvsize) {
        CutLarge(v, rsize, nb);
        p := v;
      } else {
        p := 0;
      }
    }

    method CutLarge(v: nat, rsize: nat, nb: nat)
      requires Valid() && v in Binned(Heap(), dv) && chunks[v].size == rsize + nb
      requires nb % 8 == 0 && MIN_LARGE_SIZE <= nb
      modifies this, bins.small, bins.tree
      ensures Valid() && dv == old(dv) && Heap() == Take(old(Heap()), v, nb)
    {
      Detach(v, rsize + nb);
      if rsize < MIN_CHUNK_SIZE {
        UseWhole(v, rsize + nb, nb);
      } else {
        SplitToBin(v, rsize + nb, nb);
      }
    }

    /** Cuts a chunk for a small request: the rest becomes the designated victim. */
    method CutSmall(v: nat, s: nat, nb: nat)
      requires Lacks(v) && chunks[v].size == s && nb % 8 == 0 && MIN_CHUNK_SIZE <= nb <= s
      requires s - nb < MIN_CHUNK_SIZE || dvsize < MIN_LARGE_SIZE
      modifies this, bins.small
      ensures Valid() && Heap() == Take(old(Heap()), v, nb)
      ensures dv == if s - nb < MIN_CHUNK_SIZE then old(dv) else v + nb
    {
      if s - nb < MIN_CHUNK_SIZE {
        UseWhole(v, s, nb);
      } else {
        SplitToDv(v, s, nb);
      }
    }

    method FindLarge(nb: nat) returns (v: nat, rsize: nat)
      requires Valid() && nb % 8 == 0 && MIN_LARGE_SIZE <= nb < WORD
      ensures dvsize < WORD && SizeOf(Heap(), dv) == dvsize
      ensures if v != 0 && rsize < Distance(nb, dvsize)
              then Picked(Binned(Heap(), dv), nb, dvsize, v) && chunks[v].size == nb + rsize
              else Passed(Binned(Heap(), dv), nb, dvsize)
    {
      LargeSized();
      v, rsize := bins.tree.FindBest(mem.head, nb);
      VictimSize(Heap(), mem, dv, dvsize, topsize);
      LargeChoice(bins.small.Contents(), bins.tree.Contents(), nb, dvsize, v, rsize);
    }

    lemma LargeSized()
      requires Valid()
      ensures Sized(mem.head, bins.tree.Contents())
    {
      BinnedSized(Heap(), mem, dv, {});
      assert Binned(Heap(), dv) - {} == Binned(Heap(), dv);
      SizedPart(mem.head, bins.small.Contents(), bins.tree.Contents());
    }

    /** unlink_chunk. */
    method Detach(v: nat, s: nat)
      requires Valid() && v in Binned(Heap(), dv) && chunks[v].size == s
      modifies bins.small, bins.tree
      ensures Lacks(v)
    {
      bins.Unlink(v, s);
    }

    /** tmalloc_small. */
    method TmallocSmall(nb: nat) returns (p: nat)
      requires Valid() && nb % 8 == 0 && MIN_CHUNK_SIZE <= nb < MIN_LARGE_SIZE && dvsize < nb
      requires NoFit(bins.small.Contents(), nb) && bins.tree.treemap != 0
      modifies this, bins.small, bins.tree
      ensures Valid() && p != 0 && Picked(Binned(old(Heap()), old(dv)), nb, old(dvsize), p)
      ensures Heap() == Take(old(Heap()), p, nb) && dv == NextDv(old(Heap()), old(dv), p, nb)
    {
      var rsize;
      p, rsize := FindSmall(nb);
      Detach(p, rsize + nb);
      CutSmall(p, rsize + nb, nb);
    }

    method FindSmall(nb: nat) returns (v: nat, rsize: nat)
      requires Valid() && nb < MIN_LARGE_SIZE && dvsize < nb
      requires NoFit(bins.small.Contents(), nb) && bins.tree.treemap != 0
      ensures v != 0 && Picked(Binned(Heap(), dv), nb, dvsize, v) && chunks[v].size == nb + rsize
    {
      LargeSized();
      v, rsize := bins.tree.FindSmallest(mem.head, nb);
      SmallChoice(bins.small.Contents(), bins.tree.Contents(), nb, dvsize, v, rsize);
    }

    /** Uses the first chunk of a small bin. */
    method TakeFirst(i: nat, nb: nat) returns (p: nat)
      requires Valid() && i < 32 && Marked(bins.small.smallmap, i)
      requires nb % 8 == 0 && MIN_CHUNK_SIZE <= nb <= IndexSize(i)
      requires IndexSize(i) - nb < MIN_CHUNK_SIZE || dvsize < MIN_LARGE_SIZE
      modifies this, bins.small
      ensures Valid() && p in Binned(old(Heap()), old(dv)) && old(chunks)[p].size == IndexSize(i)
      ensures Heap() == Take(old(Heap()), p, nb)
      ensures dv == if IndexSize(i) - nb < MIN_CHUNK_SIZE then old(dv) else p + nb
    {
      p := bins.UnlinkFirst(i);
      CutSmall(p, IndexSize(i), nb);
    }

    /** The part of mspace_malloc for small requests that looks into the bins. */
    method MallocSmall(nb: nat) returns (p: nat)
      requires Valid() && nb % 8 == 0 && MIN_CHUNK_SIZE <= nb < MIN_LARGE_SIZE
      modifies this, bins.small, bins.tree
      ensures Valid()
      ensures p == 0 ==> Heap() == old(Heap()) && dv == old(dv) && Passed(Binned(Heap(), dv), nb, SizeOf(Heap(), dv))
      ensures p != 0 ==> Serves(old(Heap()), old(dv), nb, p, Heap(), dv)
    {
      p := 0;
      var idx := SmallIndex(nb);
      var smallbits := SmallBits(bins.small.smallmap, idx);
      SmallFits(nb);
      if And(smallbits, 3) != 0 {
        idx := NearBin(smallbits, idx);
        p := TakeFirst(idx, nb);
      } else if nb > dvsize {
        if smallbits != 0 {
          var i := LeastIndex(BinsLeft(smallbits, idx));
          p := TakeFirst(i, nb);
        } else if bins.tree.treemap != 0 {
          p := TmallocSmall(nb);
        }
      }
      if p != 0 { PickedServes(old(Heap()), old(dv), nb, p); }
    }

    /** What the small bin map tells about the choice. */
    lemma SmallFits(nb: nat)
      requires Valid() && nb % 8 == 0 && MIN_CHUNK_SIZE <= nb < MIN_LARGE_SIZE
      ensures SizeOf(Heap(), dv) == dvsize && 0 !in Binned(Heap(), dv)
      ensures var idx, b := SmallIndex(nb), Binned(Heap(), dv);
              var smallbits := SmallBits(bins.small.smallmap, idx);
              if And(smallbits, 3) != 0 then
                var i := NearBin(smallbits, idx);
                && i < 32 && Marked(bins.small.smallmap, i) && nb <= IndexSize(i) <= nb + 8
                && forall v :: v in b && b[v] == IndexSize(i) ==> Picked(b, nb, dvsize, v)
              else if nb <= dvsize then Passed(b, nb, dvsize)
              else if smallbits != 0 then
                && BinsLeft(smallbits, idx) != 0
                && var i := LeastIndex(BinsLeft(smallbits, idx));
                && Marked(bins.small.smallmap, i) && nb <= IndexSize(i)
                && forall v :: v in b && b[v] == IndexSize(i) ==> Picked(b, nb, dvsize, v)
              else
                && NoFit(bins.small.Contents(), nb)
                && (bins.tree.treemap == 0 ==> Passed(b, nb, dvsize))
    {
      bins.small.MarkedBins();
      bins.tree.Emptiness();
      VictimSize(Heap(), mem, dv, dvsize, topsize);
      SmallBitsChoice(bins.small.smallmap, bins.small.Contents(), bins.tree.Contents(), nb, dvsize);
    }

    method MallocLarge(nb: nat) returns (p: nat)
      requires Valid() && nb % 8 == 0 && MIN_LARGE_SIZE <= nb < WORD
      modifies this, bins.small, bins.tree
      ensures Valid()
      ensures p == 0 ==> Heap() == old(Heap()) && dv == old(dv) && Passed(Binned(Heap(), dv), nb, SizeOf(Heap(), dv))
      ensures p != 0 ==> Serves(old(Heap()), old(dv), nb, p, Heap(), dv)
    {
      p := 0;
      bins.tree.Emptiness();
      if bins.tree.treemap != 0 {
        p := TmallocLarge(nb);
        if p != 0 { PickedServes(old(Heap()), old(dv), nb, p); }
      }
    }

    /** The part of mspace_malloc behind the bins. */
    method MallocRest(nb: nat) returns (p: nat)
      requires Valid() && (nb == WORD - 1 || (nb % 8 == 0 && MIN_CHUNK_SIZE <= nb))
      requires nb < WORD - 1 ==> Passed(Binned(Heap(), dv), nb, SizeOf(Heap(), dv))
      modifies this
      ensures Valid()
      ensures nb == WORD - 1 ==> p == 0 && Heap() == old(Heap()) && dv == old(dv)
      ensures nb < WORD - 1 ==> Serves(old(Heap()), old(dv), nb, p, Heap(), dv)
      ensures p == if nb <= old(dvsize) then old(dv) else if nb < old(topsize) then old(top) else 0
    {
      VictimSize(Heap(), mem, dv, dvsize, topsize);
      if nb <= dvsize {
        p := dv;
        TakeDv(nb);
      } else if nb < topsize {
        p := TakeTop(nb);
      } else {
        p := 0;
      }
    }

    /** mspace_malloc: the address of the block, or 0. */
    method Malloc(bytes: nat) returns (r: nat)
      requires Valid()
      modifies this, bins.small, bins.tree
      ensures Valid() && (r == 0 || r > 16)
      ensures bytes >= MAX_REQUEST ==> r == 0 && Heap() == old(Heap()) && dv == old(dv)
      ensures bytes < MAX_REQUEST ==>
                Serves(old(Heap()), old(dv), RequestSize(bytes), if r == 0 then 0 else r - 16, Heap(), dv)
      ensures r != 0 && r - 16 == old(top) ==>
                forall a :: old(Heap()).Free(a) && a != old(top) ==> old(chunks)[a].size < RequestSize(bytes)
    {
      ghost var l, v := Heap(), dv;
      VictimSize(l, mem, dv, dvsize, topsize);
      var p := MallocChunk(bytes);
      if p != 0 && p == l.top { TopIsLast(l, v, RequestSize(bytes), p, Heap(), dv); }
      r := if p == 0 then 0 else p + 16;
      assert (if r == 0 then 0 else r - 16) == p;
    }

    /** The chunk that mspace_malloc takes, or 0. */
    method MallocChunk(bytes: nat) returns (p: nat)
      requires Valid()
      modifies this, bins.small, bins.tree
      ensures Valid()
      ensures bytes >= MAX_REQUEST ==> p == 0 && Heap() == old(Heap()) && dv == old(dv)
      ensures bytes < MAX_REQUEST ==> Serves(old(Heap()), old(dv), RequestSize(bytes), p, Heap(), dv)
    {
      var nb;
      nb, p := MallocBinned(bytes);
      if p == 0 {
        p := MallocRest(nb);
      }
    }

    /** The part of mspace_malloc that looks into the bins; `nb` is the largest word if the request is too large. */
    method MallocBinned(bytes: nat) returns (nb: nat, p: nat)
      requires Valid()
      modifies this, bins.small, bins.tree
      ensures Valid() && nb == if bytes < MAX_REQUEST then RequestSize(bytes) else WORD - 1
      ensures p == 0 ==> Heap() == old(Heap()) && dv == old(dv)
      ensures p == 0 && bytes < MAX_REQUEST ==> Passed(Binned(Heap(), dv), nb, SizeOf(Heap(), dv))
      ensures p != 0 ==> bytes < MAX_REQUEST && Serves(old(Heap()), old(dv), nb, p, Heap(), dv)
    {
      if bytes <= MAX_SMALL_REQUEST {
        nb := if bytes < MIN_REQUEST then MIN_CHUNK_SIZE else PadRequest(bytes);
        p := MallocSmall(nb);
      } else if bytes >= MAX_REQUEST {
        nb := WORD - 1;
        p := 0;
      } else {
        nb := PadRequest(bytes);
        p := MallocLarge(nb);
      }
    }

    // ----- free -----

    /** All is in order, but the free chunk before block `p` was taken out of its bin. */
    ghost predicate Loose(p: nat)
      reads this, bins, bins.small, bins.tree
    {
      && Intact(Heap(), mem, dv, dvsize, topsize)
      && bins.Valid() && bins.Floor() <= first + HEADER_SIZE
      && Heap().Inuse(p) && p != first
      && bins.Contents() == Binned(Heap(), dv) - Leading(Heap(), dv, p)
    }

    /** Takes the free chunk before block `p` out of its bin, if it has one before it and that is in a bin. */
    method UnlinkBefore(p: nat) returns (lo: nat)
      requires Valid() && Heap().Inuse(p) && p != first
      modifies bins.small, bins.tree
      ensures Loose(p) && lo == Lo(Heap(), p) <= p
    {
      lo := p;
      MeltedSizes(Heap(), mem, dv, dvsize, topsize, p);
      LeadingNone(Heap(), dv, p);
      if !Pinuse(mem.head[p]) {
        var prevsize := mem.foot[p];
        lo := p - prevsize;
        if lo != dv {
          bins.Unlink(lo, prevsize);
        }
      }
    }

    /** The block melts into the top chunk. */
    method MeltTop(lo: nat, psize: nat, ghost p: nat)
      requires Loose(p) && lo == Lo(Heap(), p) && Heap().Next(p) == top && psize == top - lo
      modifies this
      ensures Valid() && Heap() == Released(old(Heap()), p) && dv == ReleasedDv(old(Heap()), old(dv), p)
    {
      MeltedTop(Heap(), mem, dv, dvsize, topsize, p);
      chunks := Released(Heap(), p).chunks;
      topsize := topsize + psize;
      top := lo;
      mem := mem.(head := mem.head[lo := SetPinuse(topsize)]);
      if lo == dv {
        dv := 0;
        dvsize := 0;
      }
    }

    /** The block melts into the designated victim behind it. */
    method MeltDv(lo: nat, psize: nat, ghost p: nat)
      requires Loose(p) && lo == Lo(Heap(), p) && Heap().Next(p) == dv && psize == dv - lo
      modifies this
      ensures Valid() && Heap() == Released(old(Heap()), p) && dv == ReleasedDv(old(Heap()), old(dv), p)
    {
      MeltedDv(Heap(), mem, dv, dvsize, topsize, p);
      chunks := Released(Heap(), p).chunks;
      dvsize := dvsize + psize;
      dv := lo;
      mem := SetFree(mem, lo, dvsize);
    }

    /** The binned chunk behind the block, which left its bin, melts into it. */
    method MeltNext(lo: nat, size: nat, ghost p: nat)
      requires Intact(Heap(), mem, dv, dvsize, topsize) && bins.Valid() && bins.Floor() <= first + HEADER_SIZE
      requires Heap().Inuse(p) && p != first
      requires Heap().Free(Heap().Next(p)) && Heap().Next(p) != top && Heap().Next(p) != dv
      requires bins.Contents() == Binned(Heap(), dv) - Leading(Heap(), dv, p) - {Heap().Next(p)}
      requires lo == Lo(Heap(), p) && size == Hi(Heap(), p) - lo
      modifies this`mem, this`chunks, this`dvsize
      ensures Heap() == Released(old(Heap()), p) && dv == ReleasedDv(old(Heap()), old(dv), p)
      ensures if lo == dv then Valid() else Lacks(lo) && chunks[lo].size == size
    {
      MeltedNext(Heap(), mem, dv, dvsize, topsize, p);
      chunks := Released(Heap(), p).chunks;
      mem := SetFree(mem, lo, size);
      if lo == dv { dvsize := size; }
    }

    method UnlinkNext(next: nat, ghost p: nat) returns (nsize: nat)
      requires Loose(p) && next == Heap().Next(p) && Heap().Free(next) && next != top && next != dv
      modifies bins.small, bins.tree
      ensures bins.Valid() && bins.Contents() == Binned(Heap(), dv) - Leading(Heap(), dv, p) - {next}
      ensures nsize == Hi(Heap(), p) - next
    {
      MeltedNext(Heap(), mem, dv, dvsize, topsize, p);
      MeltedSizes(Heap(), mem, dv, dvsize, topsize, p);
      nsize := ChunkSize(mem.head[next]);
      bins.Unlink(next, nsize);
    }

    /** The chunk behind the block is in use. */
    method MeltNone(lo: nat, psize: nat, next: nat, ghost p: nat)
      requires Loose(p) && lo == Lo(Heap(), p) && next == Heap().Next(p) && !Heap().Free(next) && psize == next - lo
      modifies this`mem, this`chunks, this`dvsize
      ensures Heap() == Released(old(Heap()), p) && dv == ReleasedDv(old(Heap()), old(dv), p)
      ensures if lo == dv then Valid() else Lacks(lo) && chunks[lo].size == psize
    {
      MeltedNone(Heap(), mem, dv, dvsize, topsize, p);
      chunks := Released(Heap(), p).chunks;
      mem := SetFreeWithPinuse(mem, lo, psize, next);
      if lo == dv { dvsize := psize; }
    }

    /** dispose_chunk, and mspace_free for the block at `p`. */
    method Dispose(p: nat)
      requires Valid() && Heap().Inuse(p) && p != first
      modifies this, bins.small, bins.tree
      ensures Valid() && Heap() == Released(old(Heap()), p) && dv == ReleasedDv(old(Heap()), old(dv), p)
    {
      MeltedSizes(Heap(), mem, dv, dvsize, topsize, p);
      var next := p + ChunkSize(mem.head[p]);
      var lo := UnlinkBefore(p);
      Forward(lo, next, p);
    }

    method Forward(lo: nat, next: nat, ghost p: nat)
      requires Loose(p) && lo == Lo(Heap(), p) && next == Heap().Next(p)
      modifies this, bins.small, bins.tree
      ensures Valid() && Heap() == Released(old(Heap()), p) && dv == ReleasedDv(old(Heap()), old(dv), p)
    {
      MeltedSizes(Heap(), mem, dv, dvsize, topsize, p);
      Bounds(Heap(), p);
      var psize := next - lo;
      match MergeFor(mem, next, top, dv)
      case WithTop => MeltTop(lo, psize, p);
      case WithDv => MeltDv(lo, psize, p);
      case WithNext =>
        var nsize := UnlinkNext(next, p);
        psize := psize + nsize;
        MeltNext(lo, psize, p);
        if lo != dv { InsertChunk(lo, psize); }
      case WithNone =>
        MeltNone(lo, psize, next, p);
        if lo != dv { InsertChunk(lo, psize); }
    }

    /** mspace_free. */
    method Free(r: nat)
      requires Valid()
      requires r != 0 ==> r > 16 && Heap().Inuse(r - 16) && r - 16 != first
      modifies this, bins.small, bins.tree
      ensures Valid()
      ensures r == 0 ==> Heap() == old(Heap()) && dv == old(dv)
      ensures r != 0 ==> Heap() == Released(old(Heap()), r - 16) && dv == ReleasedDv(old(Heap()), old(dv), r - 16)
    {
      if r != 0 { Dispose(r - 16); }
    }

    // ----- realloc in place -----

    /** Cuts the rest of a reach off block `p` and disposes of it. */
    method CutRest(p: nat, nb: nat, ghost e: nat, rsize: nat)
      requires Intact(Heap(), mem, dv, dvsize, topsize) && bins.Valid() && bins.Floor() <= first + HEADER_SIZE
      requires Reach(Heap(), p, e) && e != end && (e == Heap().Next(p) || Heap().Next(p) != dv)
      requires bins.Contents() ==
                 if e == Heap().Next(p) then Binned(Heap(), dv) else Binned(Heap(), dv) - {Heap().Next(p)}
      requires nb % 8 == 0 && MIN_CHUNK_SIZE <= nb && p + nb + rsize == e && MIN_CHUNK_SIZE <= rsize
      requires Resizable(Heap(), p, nb) && (e == Heap().Next(p) <==> nb <= chunks[p].size)
      modifies this, bins.small, bins.tree
      ensures Valid() && Heap() == Resized(old(Heap()), p, nb)
      ensures dv == if old(dv) == old(Heap()).Next(p) then p + nb else old(dv)
    {
      CutBlock(p, nb, e, rsize);
      CutReleased(old(Heap()), p, nb, e);
      CutVictim(old(Heap()), dv, p, nb, e);
      Dispose(p + nb);
    }

    method CutBlock(p: nat, nb: nat, ghost e: nat, rsize: nat)
      requires Intact(Heap(), mem, dv, dvsize, topsize) && bins.Valid() && bins.Floor() <= first + HEADER_SIZE
      requires Reach(Heap(), p, e) && e != end && (e == Heap().Next(p) || Heap().Next(p) != dv)
      requires bins.Contents() ==
                 if e == Heap().Next(p) then Binned(Heap(), dv) else Binned(Heap(), dv) - {Heap().Next(p)}
      requires nb % 8 == 0 && MIN_CHUNK_SIZE <= nb && p + nb + rsize == e && MIN_CHUNK_SIZE <= rsize
      modifies this`mem, this`chunks
      ensures Valid() && Heap() == Cut(old(Heap()), p, nb, e)
      ensures Heap().Inuse(p + nb) && p + nb != first
    {
      CutIntact(Heap(), mem, dv, dvsize, topsize, p, nb, e);
      chunks := Cut(Heap(), p, nb, e).chunks;
      mem := SetInuse(mem, p, nb);
      mem := SetInuse(mem, p + nb, rsize);
    }

    method ExtendTop(p: nat, nb: nat, oldsize: nat)
      requires Valid() && Heap().Inuse(p) && p != first && Heap().Next(p) == top && chunks[p].size == oldsize
      requires nb % 8 == 0 && oldsize < nb < oldsize + topsize && Resizable(Heap(), p, nb)
      modifies this
      ensures Valid() && Heap() == Resized(old(Heap()), p, nb) && dv == old(dv)
    {
      ChunkFacts(Heap(), top);
      GrownTop(Heap(), mem, dv, dvsize, topsize, p, nb);
      chunks := Resized(Heap(), p, nb).chunks;
      var newtopsize := oldsize + topsize - nb;
      mem := SetInuse(mem, p, nb);
      mem := mem.(head := mem.head[p + nb := SetPinuse(newtopsize)]);
      top := p + nb;
      topsize := newtopsize;
    }

    method ExtendDv(p: nat, nb: nat, oldsize: nat)
      requires Valid() && Heap().Inuse(p) && p != first && Heap().Next(p) == dv && chunks[p].size == oldsize
      requires nb % 8 == 0 && oldsize < nb <= oldsize + dvsize && Resizable(Heap(), p, nb)
      modifies this
      ensures Valid() && Heap() == Resized(old(Heap()), p, nb)
      ensures dv == if nb + MIN_CHUNK_SIZE <= oldsize + old(dvsize) then p + nb else 0
    {
      ReachOwn(Heap(), mem, dv, dvsize, topsize, p);
      var dsize := oldsize + dvsize - nb;
      if dsize >= MIN_CHUNK_SIZE {
        ShareDv(p, nb, dsize);
      } else {
        AbsorbDv(p, nb, oldsize + dvsize);
      }
    }

    method ShareDv(p: nat, nb: nat, dsize: nat)
      requires Valid() && Heap().Inuse(p) && p != first && Heap().Next(p) == dv && nb % 8 == 0
      requires chunks[p].size < nb && MIN_CHUNK_SIZE <= dsize && nb + dsize == chunks[p].size + dvsize
      requires Resizable(Heap(), p, nb)
      modifies this`mem, this`chunks, this`dv, this`dvsize
      ensures Valid() && Heap() == Resized(old(Heap()), p, nb) && dv == p + nb
    {
      GrownDv(Heap(), mem, dv, dvsize, topsize, p, nb);
      chunks := Resized(Heap(), p, nb).chunks;
      var r := p + nb;
      var n := r + dsize;
      mem := SetFree(SetInuse(mem, p, nb), r, dsize);
      mem := mem.(head := mem.head[n := ClearPinuse(mem.head[n])]);
      dvsize := dsize;
      dv := r;
    }

    method AbsorbDv(p: nat, ghost nb: nat, newsize: nat)
      requires Valid() && Heap().Inuse(p) && p != first && Heap().Next(p) == dv && Heap().Free(dv) && dv != top
      requires newsize == chunks[p].size + Room(Heap(), p) < nb + MIN_CHUNK_SIZE && chunks[p].size < nb <= newsize
      modifies this`mem, this`chunks, this`dv, this`dvsize
      ensures Valid() && Heap() == Resized(old(Heap()), p, nb) && dv == 0
    {
      GrownWhole(Heap(), mem, dv, dvsize, topsize, p, nb);
      chunks := Resized(Heap(), p, nb).chunks;
      mem := SetInuse(mem, p, newsize);
      dvsize := 0;
      dv := 0;
    }

    method AbsorbNext(p: nat, ghost nb: nat, newsize: nat)
      requires Intact(Heap(), mem, dv, dvsize, topsize) && bins.Valid() && bins.Floor() <= first + HEADER_SIZE
      requires Heap().Inuse(p) && p != first
      requires Heap().Free(Heap().Next(p)) && Heap().Next(p) != top && Heap().Next(p) != dv
      requires bins.Contents() == Binned(Heap(), dv) - {Heap().Next(p)}
      requires newsize == chunks[p].size + Room(Heap(), p) < nb + MIN_CHUNK_SIZE && chunks[p].size < nb <= newsize
      modifies this`mem, this`chunks
      ensures Valid() && Heap() == Resized(old(Heap()), p, nb)
    {
      GrownWhole(Heap(), mem, dv, dvsize, topsize, p, nb);
      chunks := Resized(Heap(), p, nb).chunks;
      mem := SetInuse(mem, p, newsize);
    }

    method ExtendNext(p: nat, nb: nat, oldsize: nat, next: nat, nextsize: nat)
      requires Valid() && Heap().Inuse(p) && p != first && Heap().Next(p) == next && chunks[p].size == oldsize
      requires Heap().Free(next) && next != top && next != dv && chunks[next].size == nextsize
      requires nb % 8 == 0 && oldsize < nb <= oldsize + nextsize && Resizable(Heap(), p, nb)
      modifies this, bins.small, bins.tree
      ensures Valid() && Heap() == Resized(old(Heap()), p, nb) && dv == old(dv)
    {
      ReachOwn(Heap(), mem, dv, dvsize, topsize, p);
      ChunkFacts(Heap(), p);
      var rsize := oldsize + nextsize - nb;
      bins.Unlink(next, nextsize);
      if rsize < MIN_CHUNK_SIZE {
        AbsorbNext(p, nb, oldsize + nextsize);
      } else {
        CutRest(p, nb, next + nextsize, rsize);
      }
    }

    /**
     try_realloc_chunk for a chunk that is not mapped directly: the chunk, or 0 if it cannot be resized
     in place. A victim behind the block takes what is free there, or is used up.
     */
    method TryRealloc(p: nat, nb: nat) returns (newp: nat)
      requires Valid() && Heap().Inuse(p) && p != first && nb % 8 == 0 && MIN_CHUNK_SIZE <= nb
      modifies this, bins.small, bins.tree
      ensures Valid()
      ensures newp == if old(Resizable(Heap(), p, nb)) then p else 0
      ensures Heap() == if old(Resizable(Heap(), p, nb)) then Resized(old(Heap()), p, nb) else old(Heap())
      ensures dv == if old(dv) != old(Heap()).Next(p) then old(dv)
                    else if Heap().Free(Heap().Next(p)) then Heap().Next(p) else 0
    {
      ReachOwn(Heap(), mem, dv, dvsize, topsize, p);
      var oldsize := ChunkSize(mem.head[p]);
      if oldsize >= nb {
        Shrink(p, nb, oldsize);
        newp := p;
      } else {
        newp := TryGrow(p, nb, oldsize);
      }
    }

    method Shrink(p: nat, nb: nat, oldsize: nat)
      requires Valid() && Heap().Inuse(p) && p != first && nb % 8 == 0 && MIN_CHUNK_SIZE <= nb
      requires oldsize == chunks[p].size >= nb
      modifies this, bins.small, bins.tree
      ensures Valid() && Heap() == Resized(old(Heap()), p, nb)
      ensures dv == if old(dv) != old(Heap()).Next(p) then old(dv)
                    else if Heap().Free(Heap().Next(p)) then Heap().Next(p) else 0
    {
      BehindResized(Heap(), p, nb);
      ReachOwn(Heap(), mem, dv, dvsize, topsize, p);
      ReachFacts(Heap(), p, Heap().Next(p));
      var next, rsize := p + oldsize, oldsize - nb;
      if rsize >= MIN_CHUNK_SIZE { CutRest(p, nb, next, rsize); }
    }

    method TryGrow(p: nat, nb: nat, oldsize: nat) returns (newp: nat)
      requires Valid() && Heap().Inuse(p) && p != first && nb % 8 == 0 && MIN_CHUNK_SIZE <= nb
      requires oldsize == chunks[p].size < nb
      modifies this, bins.small, bins.tree
      ensures Valid()
      ensures newp == if old(Resizable(Heap(), p, nb)) then p else 0
      ensures Heap() == if old(Resizable(Heap(), p, nb)) then Resized(old(Heap()), p, nb) else old(Heap())
      ensures dv == if old(dv) != old(Heap()).Next(p) then old(dv)
                    else if Heap().Free(Heap().Next(p)) then Heap().Next(p) else 0
    {
      ReachOwn(Heap(), mem, dv, dvsize, topsize, p);
      ReachFacts(Heap(), p, Heap().Next(p));
      newp := 0;
      var next := p + oldsize;
      if next == top {
        if oldsize + topsize > nb {
          ExtendTop(p, nb, oldsize);
          newp := p;
        }
      } else if next == dv {
        if oldsize + dvsize >= nb {
          BehindResized(Heap(), p, nb);
          ExtendDv(p, nb, oldsize);
          newp := p;
        }
      } else if !Cinuse(mem.head[next]) {
        var nextsize := ChunkSize(mem.head[next]);
        if oldsize + nextsize >= nb {
          ExtendNext(p, nb, oldsize, next, nextsize);
          newp := p;
        }
      }
    }

    // ----- checks -----

    /** The bytes that traverse_and_check adds up: the whole segment behind the alignment gap. */
    method Traverse() returns (sum: nat)
      requires Valid()
      ensures sum == end + TOP_FOOT_SIZE - first
    {
      sum := topsize + TOP_FOOT_SIZE;
      var q := first;
      ChunkFacts(Heap(), top);
      while q != top
        invariant q in chunks && first <= q <= top && sum == topsize + TOP_FOOT_SIZE + (q - first)
        decreases top - q
      {
        ChunkFacts(Heap(), q);
        assert Tagged(Heap(), mem, q);
        sum := sum + ChunkSize(mem.head[q]);
        q := q + ChunkSize(mem.head[q]);
      }
    }

    /** When all blocks are freed, the arena is as good as new. */
    lemma Drained()
      requires Valid() && Live(Heap()) == map[]
      ensures top == first + HEADER_SIZE && topsize == end - top && dv == 0
      ensures chunks == map[first := Chunk(HEADER_SIZE, true), top := Chunk(topsize, false)]
      ensures bins.small.smallmap == 0 && bins.tree.treemap == 0
    {
      AllReleased(Heap());
      assert Binned(Heap(), dv) == map[];
      bins.small.Emptiness();
      bins.tree.Emptiness();
    }
  }

  /** create_mspace_with_base: an arena, unless the segment is too small or too large. */
  method CreateWithBase(base: nat, capacity: nat, page: nat) returns (r: Option<Arena>)
    requires 0 < base && base + capacity <= WORD && page < WORD - HEADER_SIZE - TOP_FOOT_SIZE
    ensures r.Some? <==> HEADER_SIZE + TOP_FOOT_SIZE < capacity < WORD - (HEADER_SIZE + TOP_FOOT_SIZE + page)
    ensures r.Some? ==> fresh(r.value) && fresh(r.value.bins.small) && fresh(r.value.bins.tree)
    ensures r.Some? ==> r.value.Heap() == InitialLayout(base, capacity) && r.value.dv == 0
    ensures r.Some? ==> (r.value.Valid() <==> Usable(base, capacity))
  {
    r := None;
    if capacity > HEADER_SIZE + TOP_FOOT_SIZE && capacity < WORD - (HEADER_SIZE + TOP_FOOT_SIZE + page) {
      var m := new Arena(base, capacity);
      r := Some(m);
    }
  }
}
