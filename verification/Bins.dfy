/** All bins of a malloc_state: a free chunk goes to a list or to a tree by its size. */
module Bins {
  import opened Words
  import opened BinMaps
  import opened Sizes
  import opened SmallBins
  import opened TreeBins
  import opened TreeSteps

  predicate Disjoint(small: map<nat, nat>, large: map<nat, nat>) {
    && (forall a :: a in small ==> small[a] < MIN_LARGE_SIZE && a !in large)
    && (forall a :: a in large ==> MIN_LARGE_SIZE <= large[a] < WORD)
  }

  lemma InsertUnion(small: map<nat, nat>, large: map<nat, nat>, p: nat, s: nat)
    requires Disjoint(small, large) && p !in small + large && s < WORD
    ensures p !in small && p !in large
    ensures s < MIN_LARGE_SIZE ==>
              Disjoint(small[p := s], large) && small[p := s] + large == (small + large)[p := s]
    ensures s >= MIN_LARGE_SIZE ==>
              Disjoint(small, large[p := s]) && small + large[p := s] == (small + large)[p := s]
  {
  }

  lemma UnlinkUnion(small: map<nat, nat>, large: map<nat, nat>, p: nat)
    requires Disjoint(small, large) && p in small + large
    ensures (small + large)[p] < MIN_LARGE_SIZE ==>
              && p in small && small[p] == (small + large)[p]
              && Disjoint(small - {p}, large) && (small - {p}) + large == (small + large) - {p}
    ensures (small + large)[p] >= MIN_LARGE_SIZE ==>
              && p in large && Disjoint(small, large - {p}) && small + (large - {p}) == (small + large) - {p}
  {
  }

  lemma SizedPart(head: map<nat, nat>, small: map<nat, nat>, large: map<nat, nat>)
    requires Sized(head, small + large)
    ensures Sized(head, large)
  {
  }

  /** `v` is a smallest chunk that fits. */
  predicate SmallestFit(bins: map<nat, nat>, nb: nat, v: nat) {
    v in bins && nb <= bins[v] && forall a :: a in bins && nb <= bins[a] ==> bins[v] <= bins[a]
  }

  predicate NoFit(bins: map<nat, nat>, nb: nat) {
    forall a :: a in bins ==> bins[a] < nb
  }

  /** The bin that `idx += ~smallbits & 1` selects. */
  function NearBin(smallbits: nat, idx: nat): nat { idx + 1 - smallbits % 2 }

  /** The bin of the size or the next one is marked exactly when the best fit is there. */
  lemma NearFit(m: BinMap, sizes: map<nat, nat>, nb: nat)
    requires Covers(m, sizes) && nb % 8 == 0 && nb < MIN_LARGE_SIZE
    ensures var idx := SmallIndex(nb);
            var i := NearBin(SmallBits(m, idx), idx);
            if And(SmallBits(m, idx), 3) != 0 then
              && i < 32 && Marked(m, i) && nb <= IndexSize(i) <= nb + 8
              && forall a :: a in sizes && nb <= sizes[a] ==> IndexSize(i) <= sizes[a]
            else
              forall a :: a in sizes && nb <= sizes[a] ==> nb + 8 < sizes[a]
  {
    var idx := SmallIndex(nb);
    ShiftedBits(m, idx);
    if And(SmallBits(m, idx), 3) == 0 {
      forall a | a in sizes && nb <= sizes[a]
        ensures nb + 8 < sizes[a]
      {
        var j := SmallIndex(sizes[a]);
        assert j != idx && j != idx + 1;
      }
    }
  }

  /** When neither is marked, the next marked bin holds the best fit. */
  lemma NextFit(m: BinMap, sizes: map<nat, nat>, nb: nat)
    requires Covers(m, sizes) && nb % 8 == 0 && nb < MIN_LARGE_SIZE && And(SmallBits(m, SmallIndex(nb)), 3) == 0
    ensures var idx := SmallIndex(nb);
            var smallbits := SmallBits(m, idx);
            if smallbits != 0 then
              && var left := BinsLeft(smallbits, idx);
              && left != 0
              && var i := LeastIndex(left);
              && Marked(m, i) && nb < IndexSize(i)
              && forall a :: a in sizes && nb <= sizes[a] ==> IndexSize(i) <= sizes[a]
            else NoFit(sizes, nb)
  {
    var idx := SmallIndex(nb);
    var smallbits := SmallBits(m, idx);
    ShiftedBits(m, idx);
    if smallbits != 0 {
      NextLeft(m, idx);
      var i := LeastIndex(BinsLeft(smallbits, idx));
      forall a | a in sizes && nb <= sizes[a]
        ensures IndexSize(i) <= sizes[a]
      {
        var j := SmallIndex(sizes[a]);
        assert j >= i;
      }
    } else {
      forall a | a in sizes
        ensures sizes[a] < nb
      {
        assert SmallIndex(sizes[a]) < idx;
      }
    }
  }

  class Bins {
    const small: SmallBins
    const tree: TreeBins

    ghost predicate Valid()
      reads this, small, tree
    {
      small.Valid() && tree.Valid() && Disjoint(small.Contents(), tree.Contents())
    }

    /** The binned chunks with their sizes. */
    ghost function Contents(): map<nat, nat>
      reads this, small, tree
    {
      small.Contents() + tree.Contents()
    }

    /** Chunks at or above this address can be binned. */
    ghost function Floor(): nat { small.base + 512 }

    constructor (headers: nat, slots: nat)
      requires slots != 0
      ensures Valid() && Contents() == map[] && fresh(small) && fresh(tree)
      ensures small.base == headers && tree.slots == slots
    {
      small := new SmallBins(headers);
      tree := new TreeBins(slots);
    }

    /** insert_chunk. */
    method Insert(head: map<nat, nat>, p: nat, s: nat)
      requires Valid() && Sized(head, Contents())
      requires p !in Contents() && p >= Floor() && p != 0 && s % 8 == 0 && s < WORD
      modifies small, tree
      ensures Valid() && Contents() == old(Contents())[p := s]
    {
      InsertUnion(small.Contents(), tree.Contents(), p, s);
      if s < MIN_LARGE_SIZE {
        small.Insert(p, s);
      } else {
        SizedPart(head, small.Contents(), tree.Contents());
        tree.Insert(head, p, s);
      }
    }

    /** insert_small_chunk. */
    method InsertSmall(p: nat, s: nat)
      requires Valid() && p !in Contents() && p >= Floor() && s % 8 == 0 && s < MIN_LARGE_SIZE
      modifies small
      ensures Valid() && Contents() == old(Contents())[p := s]
    {
      InsertUnion(small.Contents(), tree.Contents(), p, s);
      small.Insert(p, s);
    }

    /** unlink_chunk. */
    method Unlink(p: nat, s: nat)
      requires Valid() && p in Contents() && Contents()[p] == s
      modifies small, tree
      ensures Valid() && Contents() == old(Contents()) - {p}
    {
      UnlinkUnion(small.Contents(), tree.Contents(), p);
      if s < MIN_LARGE_SIZE {
        small.Unlink(p, s);
      } else {
        tree.Unlink(p);
      }
    }

    /** Takes the first chunk of a marked small bin. */
    method UnlinkFirst(i: nat) returns (p: nat)
      requires Valid() && i < 32 && Marked(small.smallmap, i)
      modifies small
      ensures Valid() && Contents() == old(Contents()) - {p}
      ensures p in old(Contents()) && old(Contents())[p] == IndexSize(i)
    {
      ghost var before := small.Contents();
      p := small.UnlinkFirst(i);
      UnlinkUnion(before, tree.Contents(), p);
    }
  }
}
