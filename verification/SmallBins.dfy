/**
 The small bins of a malloc_state: 32 circular lists of equally sized free chunks, in place. A list
 is meaningful only while its bin is marked: taking the last chunk leaves the header links stale.
 */
module SmallBins {
  import opened BinMaps
  import opened Rings

  function SmallIndex(s: nat): nat { s / 8 }

  function IndexSize(i: nat): nat { 8 * i }

  /** The pseudo chunk that heads the list of bin `i`. */
  function Header(base: nat, i: nat): nat { base + 16 * i }

  /** `bins` gives the chunks of each bin in list order and `at` the bin of each chunk. */
  datatype Lists = Lists(bins: seq<seq<nat>>, at: map<nat, nat>) {

    predicate Holds(base: nat, i: nat) {
      i < |bins| ==>
        && Distinct(bins[i])
        && forall k :: 0 <= k < |bins[i]| ==> bins[i][k] in at && at[bins[i][k]] == i
    }

    predicate Held(base: nat, a: nat) {
      a in at ==> a >= base + 512 && at[a] < |bins| && a in bins[at[a]]
    }

    ghost predicate Valid(base: nat) {
      && |bins| == 32
      && (forall i {:trigger Holds(base, i)} :: Holds(base, i))
      && (forall a {:trigger Held(base, a)} :: Held(base, a))
    }

    function Add(i: nat, x: nat): Lists
      requires i < |bins|
    {
      Lists(bins[i := [x] + bins[i]], at[x := i])
    }

    function Remove(i: nat, k: nat): Lists
      requires i < |bins| && k < |bins[i]|
    {
      Lists(bins[i := Without(bins[i], k)], at - {bins[i][k]})
    }
  }

  /** The bin is marked and linked, or neither marked nor filled. */
  ghost predicate Listed(fd: map<nat, nat>, bk: map<nat, nat>, smallmap: BinMap, g: Lists, base: nat, i: nat) {
    i < |g.bins| ==>
      && (Marked(smallmap, i) <==> g.bins[i] != [])
      && (Marked(smallmap, i) ==> Ring(fd, bk, [Header(base, i)] + g.bins[i]))
  }

  ghost predicate Linked(fd: map<nat, nat>, bk: map<nat, nat>, smallmap: BinMap, g: Lists, base: nat) {
    forall i {:trigger Listed(fd, bk, smallmap, g, base, i)} :: Listed(fd, bk, smallmap, g, base, i)
  }

  function SizesOf(g: Lists): map<nat, nat> {
    map a | a in g.at :: IndexSize(g.at[a])
  }

  /** The chunks of a bin are its own, and none is a header. */
  lemma Members(g: Lists, base: nat, i: nat)
    requires g.Valid(base) && i < 32
    ensures forall a :: a in g.bins[i] <==> a in g.at && g.at[a] == i
    ensures forall a :: a in g.bins[i] ==> a >= base + 512
  {
    assert g.Holds(base, i);
    forall a
      ensures a in g.bins[i] <==> a in g.at && g.at[a] == i
    {
      assert g.Held(base, a);
    }
    forall a | a in g.bins[i]
      ensures a >= base + 512
    {
      assert g.Held(base, a);
    }
  }

  lemma AddValid(g: Lists, base: nat, i: nat, x: nat)
    requires g.Valid(base) && i < 32 && x !in g.at && x >= base + 512
    ensures g.Add(i, x).Valid(base)
    ensures SizesOf(g.Add(i, x)) == SizesOf(g)[x := IndexSize(i)]
  {
    var g', b := g.Add(i, x), g.bins[i];
    Members(g, base, i);
    var b' := [x] + b;
    assert forall k :: 0 < k < |b'| ==> b'[k] == b[k - 1] && b'[k] in b;
    assert b'[0] == x;
    forall j
      ensures g'.Holds(base, j)
    {
      assert g.Holds(base, j);
      if j == i { AddDistinct(b, x); }
    }
    forall a
      ensures g'.Held(base, a)
    {
      assert g.Held(base, a);
      assert a in b' <==> a == x || a in b;
    }
  }

  lemma AddDistinct(b: seq<nat>, x: nat)
    requires Distinct(b) && x !in b
    ensures Distinct([x] + b)
  {
    var c := [x] + b;
    assert forall k :: 0 < k < |c| ==> c[k] == b[k - 1];
  }

  lemma RemoveValid(g: Lists, base: nat, i: nat, k: nat)
    requires g.Valid(base) && i < 32 && k < |g.bins[i]|
    ensures g.Remove(i, k).Valid(base)
    ensures SizesOf(g.Remove(i, k)) == SizesOf(g) - {g.bins[i][k]}
  {
    var g', x := g.Remove(i, k), g.bins[i][k];
    Members(g, base, i);
    assert g.Holds(base, i);
    UnlinkDistinct(g.bins[i], k);
    assert forall n :: 0 <= n < |Without(g.bins[i], k)| ==> Without(g.bins[i], k)[n] in Without(g.bins[i], k);
    forall j
      ensures g'.Holds(base, j)
    {
      assert g.Holds(base, j);
    }
    forall a
      ensures g'.Held(base, a)
    {
      assert g.Held(base, a);
    }
  }

  // ----- the links -----

  function RingOf(g: Lists, base: nat, i: nat): seq<nat>
    requires i < |g.bins|
  {
    [Header(base, i)] + g.bins[i]
  }

  /** No node of one bin's ring is in the ring of another. */
  lemma Separate(g: Lists, base: nat, i: nat, j: nat)
    requires g.Valid(base) && i < 32 && j < 32 && i != j
    ensures forall a :: a in RingOf(g, base, j) ==> a !in RingOf(g, base, i)
  {
    Members(g, base, i);
    Members(g, base, j);
  }

  lemma ListedFrame(fd: map<nat, nat>, bk: map<nat, nat>, fd': map<nat, nat>, bk': map<nat, nat>, r: seq<nat>)
    requires Ring(fd, bk, r)
    requires forall a :: a in r && a in fd && a in bk ==> a in fd' && a in bk' && fd'[a] == fd[a] && bk'[a] == bk[a]
    ensures Ring(fd', bk', r)
  {
    assert forall k :: 0 <= k < |r| ==> r[k] in r;
    RingFrame(fd, bk, fd', bk', r);
  }

  /** The links outside of ring `r` and of `x` are unchanged. */
  predicate SameBut(fd: map<nat, nat>, bk: map<nat, nat>, fd': map<nat, nat>, bk': map<nat, nat>, r: seq<nat>, x: nat) {
    forall a :: a != x && a !in r && a in fd && a in bk ==> a in fd' && a in bk' && fd'[a] == fd[a] && bk'[a] == bk[a]
  }

  lemma SameButPair(fd: map<nat, nat>, bk: map<nat, nat>, b: nat, f: nat, u: nat, v: nat, r: seq<nat>, x: nat)
    requires b in r && f in r
    ensures SameBut(fd, bk, fd[b := u], bk[f := v], r, x)
  {
  }

  /** The ring of bin `i` changed, within itself and at `x`; the other rings did not. */
  lemma Relisted(fd: map<nat, nat>, bk: map<nat, nat>, m: BinMap, fd': map<nat, nat>, bk': map<nat, nat>, m': BinMap,
                 g: Lists, g': Lists, base: nat, i: nat, x: nat)
    requires g.Valid(base) && i < 32 && Linked(fd, bk, m, g, base)
    requires forall j :: 0 <= j < 32 && j != i ==> (Marked(m', j) <==> Marked(m, j))
    requires forall j :: 0 <= j < 32 && j != i ==> |g'.bins| == 32 && g'.bins[j] == g.bins[j]
    requires |g'.bins| == 32 && Listed(fd', bk', m', g', base, i)
    requires x in g.at ==> g.at[x] == i
    requires x >= base + 512
    requires SameBut(fd, bk, fd', bk', RingOf(g, base, i), x)
    ensures Linked(fd', bk', m', g', base)
  {
    forall j | j != i && j < 32
      ensures Listed(fd', bk', m', g', base, j)
    {
      assert Listed(fd, bk, m, g, base, j);
      if Marked(m, j) {
        Separate(g, base, i, j);
        Members(g, base, j);
        ListedFrame(fd, bk, fd', bk', RingOf(g, base, j));
      }
    }
  }

  /** A chunk put first in the list of its bin. */
  lemma AddLinked(fd: map<nat, nat>, bk: map<nat, nat>, m: BinMap, g: Lists, base: nat, i: nat, x: nat)
    requires g.Valid(base) && Linked(fd, bk, m, g, base) && i < 32 && x !in g.at && x >= base + 512
    ensures Marked(m, i) ==> Header(base, i) in fd
    ensures var b := Header(base, i);
            var f := if Marked(m, i) then fd[b] else b;
            Linked(fd[b := x][x := f], bk[f := x][x := b], if Marked(m, i) then m else Mark(m, i), g.Add(i, x), base)
  {
    if Marked(m, i) {
      AddBehind(fd, bk, m, g, base, i, x);
    } else {
      AddAlone(fd, bk, m, g, base, i, x);
    }
  }

  lemma AddBehind(fd: map<nat, nat>, bk: map<nat, nat>, m: BinMap, g: Lists, base: nat, i: nat, x: nat)
    requires g.Valid(base) && Linked(fd, bk, m, g, base) && i < 32 && x !in g.at && x >= base + 512 && Marked(m, i)
    ensures var b := Header(base, i);
            b in fd && Linked(fd[b := x][x := fd[b]], bk[fd[b] := x][x := b], m, g.Add(i, x), base)
  {
    var b, r := Header(base, i), RingOf(g, base, i);
    NewMember(g, base, i, x);
    assert Listed(fd, bk, m, g, base, i);
    FirstSucc(fd, r);
    LinkSecond(fd, bk, r, x);
    Relisted(fd, bk, m, fd[b := x][x := fd[b]], bk[fd[b] := x][x := b], m, g, g.Add(i, x), base, i, x);
  }

  lemma FirstSucc(fd: map<nat, nat>, r: seq<nat>)
    requires r != [] && Forward(fd, r)
    ensures r[0] in fd && fd[r[0]] in r
  {
    assert Points(fd, r, 0);
  }

  lemma NewMember(g: Lists, base: nat, i: nat, x: nat)
    requires g.Valid(base) && i < 32 && x !in g.at && x >= base + 512
    ensures x !in RingOf(g, base, i) && InsertSecond(RingOf(g, base, i), x) == RingOf(g.Add(i, x), base, i)
    ensures Header(base, i) in RingOf(g, base, i)
  {
    Members(g, base, i);
  }

  /** The stale header links of an unmarked bin are overwritten. */
  lemma AddAlone(fd: map<nat, nat>, bk: map<nat, nat>, m: BinMap, g: Lists, base: nat, i: nat, x: nat)
    requires g.Valid(base) && Linked(fd, bk, m, g, base) && i < 32 && x !in g.at && x >= base + 512 && !Marked(m, i)
    ensures var b := Header(base, i);
            Linked(fd[b := x][x := b], bk[b := x][x := b], Mark(m, i), g.Add(i, x), base)
  {
    var b := Header(base, i);
    var fd', bk' := fd[b := x][x := b], bk[b := x][x := b];
    NewMember(g, base, i, x);
    assert Listed(fd, bk, m, g, base, i);
    assert Ring(fd', bk', [b, x]);
    assert RingOf(g.Add(i, x), base, i) == [b, x];
    Relisted(fd, bk, m, fd', bk', Mark(m, i), g, g.Add(i, x), base, i, x);
  }

  /** A chunk taken out of the list of its bin: the neighbours are joined, or the bin is cleared. */
  lemma RemoveLinked(fd: map<nat, nat>, bk: map<nat, nat>, m: BinMap, g: Lists, base: nat, i: nat, k: nat)
    requires g.Valid(base) && Linked(fd, bk, m, g, base) && i < 32 && k < |g.bins[i]|
    ensures var x := g.bins[i][k];
            && x in fd && x in bk && fd[x] != x && bk[x] != x
            && (fd[x] == bk[x] <==> |g.bins[i]| == 1)
            && (k == 0 ==> bk[x] == Header(base, i) && bk[x] in fd && fd[bk[x]] == x)
            && if fd[x] == bk[x] then Linked(fd, bk, Clear(m, i), g.Remove(i, k), base)
               else Linked(fd[bk[x] := fd[x]], bk[fd[x] := bk[x]], m, g.Remove(i, k), base)
  {
    var r := RingOf(g, base, i);
    assert Listed(fd, bk, m, g, base, i);
    assert r[k + 1] == g.bins[i][k];
    Around(fd, bk, r, k + 1);
    assert k == 0 ==> Pred(r, k + 1) == r[0];
    if |g.bins[i]| == 1 {
      RemoveLast(fd, bk, m, g, base, i);
    } else {
      RemoveAmong(fd, bk, m, g, base, i, k);
    }
  }

  /** What the links of node `k` of a ring are. */
  lemma Around(fd: map<nat, nat>, bk: map<nat, nat>, r: seq<nat>, k: nat)
    requires Ring(fd, bk, r) && 0 < k < |r|
    ensures var x := r[k];
            && x in fd && x in bk && fd[x] == Succ(r, k) && bk[x] == Pred(r, k)
            && fd[x] in r && bk[x] in r && fd[x] != x && bk[x] != x
            && (fd[x] == bk[x] <==> |r| == 2)
            && bk[x] in fd && fd[bk[x]] == x
  {
    assert Points(fd, r, k) && PointsBack(bk, r, k) && Points(fd, r, k - 1);
  }

  lemma RemoveLast(fd: map<nat, nat>, bk: map<nat, nat>, m: BinMap, g: Lists, base: nat, i: nat)
    requires g.Valid(base) && Linked(fd, bk, m, g, base) && i < 32 && |g.bins[i]| == 1
    ensures Linked(fd, bk, Clear(m, i), g.Remove(i, 0), base)
  {
    Members(g, base, i);
    assert g.bins[i][0] in g.bins[i];
    Relisted(fd, bk, m, fd, bk, Clear(m, i), g, g.Remove(i, 0), base, i, g.bins[i][0]);
  }

  lemma RemoveAmong(fd: map<nat, nat>, bk: map<nat, nat>, m: BinMap, g: Lists, base: nat, i: nat, k: nat)
    requires g.Valid(base) && Linked(fd, bk, m, g, base) && i < 32 && k < |g.bins[i]| && |g.bins[i]| > 1
    ensures var x := g.bins[i][k];
            x in fd && x in bk && Linked(fd[bk[x] := fd[x]], bk[fd[x] := bk[x]], m, g.Remove(i, k), base)
  {
    var x := g.bins[i][k];
    assert x in g.bins[i];
    Members(g, base, i);
    assert Listed(fd, bk, m, g, base, i);
    RingRemoved(fd, bk, g, base, i, k);
    SameButPair(fd, bk, bk[x], fd[x], fd[x], bk[x], RingOf(g, base, i), x);
    Relisted(fd, bk, m, fd[bk[x] := fd[x]], bk[fd[x] := bk[x]], m, g, g.Remove(i, k), base, i, x);
  }

  lemma RingRemoved(fd: map<nat, nat>, bk: map<nat, nat>, g: Lists, base: nat, i: nat, k: nat)
    requires i < |g.bins| && k < |g.bins[i]| && |g.bins[i]| > 1 && Ring(fd, bk, RingOf(g, base, i))
    ensures var x := g.bins[i][k];
            && x in fd && x in bk && fd[x] in RingOf(g, base, i) && bk[x] in RingOf(g, base, i)
            && Ring(fd[bk[x] := fd[x]], bk[fd[x] := bk[x]], RingOf(g.Remove(i, k), base, i))
  {
    var r := RingOf(g, base, i);
    assert r[k + 1] == g.bins[i][k];
    Around(fd, bk, r, k + 1);
    Unlink(fd, bk, r, k + 1);
    assert Without(r, k + 1) == RingOf(g.Remove(i, k), base, i);
  }

  /** The chunks have small sizes, and their bins are marked. */
  predicate Covers(m: BinMap, sizes: map<nat, nat>) {
    forall a :: a in sizes ==>
      sizes[a] < 256 && sizes[a] == IndexSize(SmallIndex(sizes[a])) && Marked(m, SmallIndex(sizes[a]))
  }

  class SmallBins {
    const base: nat
    var fd: map<nat, nat>
    var bk: map<nat, nat>
    var smallmap: BinMap
    ghost var lists: Lists

    ghost predicate Valid()
      reads this
    {
      lists.Valid(base) && Linked(fd, bk, smallmap, lists, base)
    }

    ghost function Contents(): map<nat, nat>
      reads this
    {
      SizesOf(lists)
    }

    /** init_bins: every header is linked to itself. */
    constructor (base: nat)
      ensures Valid() && Contents() == map[] && this.base == base
    {
      this.base := base;
      fd, bk := map[], map[];
      smallmap := 0;
      lists := Lists(seq(32, _ => []), map[]);
      new;
      EmptyMap(0);
      var i := 0;
      while i < 32
        invariant 0 <= i <= 32 && Valid() && Contents() == map[] && this.base == base && smallmap == 0
        invariant lists == Lists(seq(32, _ => []), map[])
      {
        var bin := Header(base, i);
        fd, bk := fd[bin := bin], bk[bin := bin];
        i := i + 1;
      }
    }

    /** insert_small_chunk: the chunk goes to the front of its list. */
    method Insert(p: nat, s: nat)
      requires Valid() && p !in Contents() && p >= base + 512 && s % 8 == 0 && s < 256
      modifies this
      ensures Valid() && Contents() == old(Contents())[p := s]
      ensures lists.bins == old(lists.bins)[s / 8 := [p] + old(lists.bins[s / 8])]
    {
      var i := SmallIndex(s);
      var b := Header(base, i);
      AddValid(lists, base, i, p);
      AddLinked(fd, bk, smallmap, lists, base, i, p);
      var f := b;
      if !IsMarked(smallmap, i) {
        smallmap := Mark(smallmap, i);
      } else {
        f := fd[b];
      }
      fd := fd[b := p];
      bk := bk[f := p];
      fd := fd[p := f];
      bk := bk[p := b];
      lists := lists.Add(i, p);
    }

    /** unlink_small_chunk. */
    method Unlink(p: nat, s: nat)
      requires Valid() && p in Contents() && Contents()[p] == s
      modifies this
      ensures Valid() && Contents() == old(Contents()) - {p}
    {
      var i := SmallIndex(s);
      assert lists.Held(base, p);
      ghost var k :| 0 <= k < |lists.bins[i]| && lists.bins[i][k] == p;
      RemoveValid(lists, base, i, k);
      RemoveLinked(fd, bk, smallmap, lists, base, i, k);
      var f, b := fd[p], bk[p];
      if f == b {
        smallmap := Clear(smallmap, i);
      } else {
        bk := bk[f := b];
        fd := fd[b := f];
      }
      lists := lists.Remove(i, k);
    }

    /** Takes the first chunk of a marked bin, as unlink_first_small_chunk does. */
    method UnlinkFirst(i: nat) returns (p: nat)
      requires Valid() && i < 32 && Marked(smallmap, i)
      modifies this
      ensures Valid() && Contents() == old(Contents()) - {p}
      ensures p in old(Contents()) && old(Contents())[p] == IndexSize(i)
      ensures old(lists.bins[i]) == [p] + lists.bins[i]
      ensures forall j :: 0 <= j < 32 && j != i ==> lists.bins[j] == old(lists.bins[j])
    {
      assert Listed(fd, bk, smallmap, lists, base, i);
      RemoveValid(lists, base, i, 0);
      RemoveLinked(fd, bk, smallmap, lists, base, i, 0);
      Members(lists, base, i);
      var b := Header(base, i);
      p := fd[b];
      var f := fd[p];
      if b == f {
        smallmap := Clear(smallmap, i);
      } else {
        fd := fd[b := f];
        bk := bk[f := b];
      }
      lists := lists.Remove(i, 0);
    }

    /** The bin of every chunk is marked. */
    lemma MarkedBins()
      requires Valid()
      ensures Covers(smallmap, Contents())
    {
      forall a | a in lists.at
        ensures lists.at[a] < 32 && Marked(smallmap, lists.at[a])
      {
        assert lists.Held(base, a) && Listed(fd, bk, smallmap, lists, base, lists.at[a]);
      }
    }

    /** The bin map tells whether there is any chunk. */
    lemma Emptiness()
      requires Valid()
      ensures smallmap == 0 <==> Contents() == map[]
    {
      EmptyMap(smallmap);
      MarkedBins();
      if smallmap != 0 {
        var i :| 0 <= i < 32 && Marked(smallmap, i);
        assert Listed(fd, bk, smallmap, lists, base, i) && lists.Holds(base, i);
        assert lists.bins[i][0] in Contents();
      }
    }
  }
}
