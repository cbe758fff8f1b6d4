/**
 What the updates of the tree bins do to a trie, its links, the bin slots and the bin map. There is
 one lemma for every way in which a chunk can enter or leave a tree.
 */
module TreeSteps {
  import opened BinMaps
  import opened Sizes
  import opened Rings
  import opened Tries
  import opened TreeLinks

  /** The bin slots point to the roots, and the bin map marks the non-empty bins. */
  ghost predicate Anchored(roots: seq<nat>, treemap: BinMap, g: Trie) {
    && |roots| == 32
    && (forall i :: 0 <= i < 32 ==> roots[i] == g.Head(Root(i)))
    && (forall i :: 0 <= i < 32 ==> (Marked(treemap, i) <==> Root(i) in g.nodes))
  }

  /** The binned chunks with their sizes. */
  ghost function SizesOf(g: Trie): map<nat, nat>
  {
    map a | a in g.at :: g.SizeAt(g.at[a])
  }

  /** The head words of the chunks hold their sizes. */
  predicate Sized(head: map<nat, nat>, sizes: map<nat, nat>) {
    forall a :: a in sizes ==> a in head && ChunkSize(head[a]) == sizes[a]
  }

  lemma NodeSize(head: map<nat, nat>, g: Trie, p: Pos)
    requires g.Located() && Sized(head, SizesOf(g)) && p in g.nodes
    ensures var t := g.Head(p);
            && t != 0 && t in SizesOf(g) && SizesOf(g)[t] == g.nodes[p].size
            && t in head && ChunkSize(head[t]) == g.nodes[p].size
  {
    Apart(g, p, p);
    assert g.Houses(p);
  }

  // ----- insertion -----

  /** What insert_large_chunk has done when it made `x` a tree node at `p`. */
  lemma Grown(m: Links, roots: seq<nat>, treemap: BinMap, g: Trie, slots: nat, p: Pos, x: nat, s: nat)
    requires g.Valid() && Linked(m, g, slots) && Anchored(roots, treemap, g)
    requires p !in g.nodes && x !in g.at && x != 0 && (p.Root? || p.up in g.nodes) && Fits(s, p)
    requires OnPath(g, s, p)
    ensures TreeIndex(s) < 32
    ensures var g' := g.Grow(p, x, s);
            && g'.Valid() && SizesOf(g') == SizesOf(g)[x := s]
            && Linked(SetSlot(Planted(m, x, ParentWord(g, slots, p), TreeIndex(s)), g, p, x), g', slots)
            && (p.Root? ==> Anchored(roots[p.bin := x], Mark(treemap, p.bin), g'))
            && (!p.Root? ==> Anchored(roots, treemap, g'))
  {
    FitsRange(s, p);
    PathEnds(g, s, p);
    GrowValid(g, p, x, s);
    GrowLinked(m, g, slots, p, x, s);
    GrowAnchored(roots, treemap, g, p, x, s);
    GrowSizes(g, p, x, s);
  }

  /** The same for the first chunk of bin `i`. */
  lemma Founded(m: Links, roots: seq<nat>, treemap: BinMap, g: Trie, slots: nat, i: nat, x: nat, s: nat)
    requires g.Valid() && Linked(m, g, slots) && Anchored(roots, treemap, g)
    requires x !in g.at && x != 0 && MIN_LARGE_SIZE <= s < WORD && i == TreeIndex(s)
    requires i < 32 ==> !Marked(treemap, i)
    ensures i < 32
    ensures var g' := g.Grow(Root(i), x, s);
            && g'.Valid() && SizesOf(g') == SizesOf(g)[x := s]
            && Linked(Planted(m, x, slots + 8 * i, i), g', slots)
            && Anchored(roots[i := x], Mark(treemap, i), g')
  {
    RootOnPath(g, s);
    Grown(m, roots, treemap, g, slots, Root(i), x, s);
    var m', g' := Planted(m, x, slots + 8 * i, i), g.Grow(Root(i), x, s);
    assert m' == Planted(m, x, ParentWord(g, slots, Root(i)), TreeIndex(s));
    assert Linked(SetSlot(m', g, Root(i), x), g', slots);
    assert Linked(m', g', slots);
  }

  lemma GrowAnchored(roots: seq<nat>, treemap: BinMap, g: Trie, p: Pos, x: nat, s: nat)
    requires Anchored(roots, treemap, g) && Bin(p) < 32
    ensures var g' := g.Grow(p, x, s);
            && (p.Root? ==> Anchored(roots[p.bin := x], Mark(treemap, p.bin), g'))
            && (!p.Root? ==> Anchored(roots, treemap, g'))
  {
  }

  lemma GrowSizes(g: Trie, p: Pos, x: nat, s: nat)
    requires g.Located() && x !in g.at && p !in g.nodes
    ensures SizesOf(g.Grow(p, x, s)) == SizesOf(g)[x := s]
  {
    assert forall a :: a in g.at ==> g.Housed(a);
  }

  /** What insert_large_chunk has done when it chained `x` behind the tree node at `p`. */
  lemma ChainedUp(m: Links, roots: seq<nat>, treemap: BinMap, g: Trie, slots: nat, p: Pos, x: nat)
    requires g.Valid() && Linked(m, g, slots) && Anchored(roots, treemap, g)
    requires p in g.nodes && x !in g.at && x != 0
    ensures g.Head(p) in m.fd
    ensures var g' := g.Chain(p, x);
            && g'.Valid() && SizesOf(g') == SizesOf(g)[x := g.nodes[p].size]
            && Linked(Joined(m, g.Head(p), x, TreeIndex(g.nodes[p].size)), g', slots)
            && Anchored(roots, treemap, g')
  {
    FitsRange(g.nodes[p].size, p);
    ChainValid(g, p, x);
    ChainLinked(m, g, slots, p, x);
    ChainAnchored(roots, treemap, g, p, x);
  }

  lemma ChainAnchored(roots: seq<nat>, treemap: BinMap, g: Trie, p: Pos, x: nat)
    requires Anchored(roots, treemap, g) && p in g.nodes
    requires x !in g.at
    ensures Anchored(roots, treemap, g.Chain(p, x))
    ensures SizesOf(g.Chain(p, x)) == SizesOf(g)[x := g.nodes[p].size]
  {
  }

  /** The child of `p` on the path of the size. */
  function Next(s: nat, p: Pos): Pos {
    if Fits(s, Right(p)) then Right(p) else Left(p)
  }

  /** A chain of size `s` can only be at `p` or below. */
  ghost predicate OnPath(g: Trie, s: nat, p: Pos) {
    forall q :: q in g.nodes && g.nodes[q].size == s ==> Under(q, p)
  }

  lemma RootOnPath(g: Trie, s: nat)
    requires g.Valid() && MIN_LARGE_SIZE <= s < WORD
    ensures TreeIndex(s) < 32 && Fits(s, Root(TreeIndex(s))) && OnPath(g, s, Root(TreeIndex(s)))
  {
    RootRange(s);
    forall q | q in g.nodes && g.nodes[q].size == s
      ensures Under(q, Root(TreeIndex(s)))
    {
      FitsRange(s, q);
      UnderRoot(q);
    }
  }

  /** Where a chunk is in its chain, from the head at 0, and what its links tell about that. */
  lemma Placed(m: Links, g: Trie, slots: nat, x: nat) returns (k: nat)
    requires g.Rooted() && g.Located() && Linked(m, g, slots) && x in g.at && slots != 0
    ensures var p := g.at[x];
            && p in g.nodes && k <= |g.nodes[p].rest| && g.nodes[p].Chain()[k] == x
            && x in m.fd && x in m.bk && x in m.parent && Indexed(m, x, Bin(p))
            && (m.bk[x] == x <==> g.nodes[p].rest == [])
            && (m.parent[x] == 0 <==> k > 0)
            && (k == 0 ==> NodeLinked(m, g, slots, p))
  {
    assert g.Housed(x);
    var p := g.at[x];
    var n := g.nodes[p];
    assert Threaded(m, n, Bin(p)) && NodeLinked(m, g, slots, p);
    if x == n.head {
      k := 0;
      if !p.Root? { Apart(g, p.up, p.up); }
    } else {
      var j :| 0 <= j < |n.rest| && n.rest[j] == x;
      k := j + 1;
      assert Unlinked(m, x);
    }
    assert n.Chain()[k] == x;
    assert Points(m.fd, n.Chain(), k) && PointsBack(m.bk, n.Chain(), k);
  }

  /** One step of the descent: it consumes one digit, on which the sizes of the two halves differ. */
  lemma StepDown(g: Trie, s: nat, p: Pos)
    requires g.Valid() && p in g.nodes && Fits(s, p) && g.nodes[p].size != s && OnPath(g, s, p)
    ensures Width(p) > 0 && Fits(s, Next(s, p)) && OnPath(g, s, Next(s, p))
    ensures Width(Next(s, p)) == Width(p) - 1
    ensures Key(s, p) >= TOP_BIT <==> Next(s, p) == Right(p)
    ensures Double(Key(s, p)) == Key(s, Next(s, p))
  {
    FitsRange(s, p);
    FitsRange(g.nodes[p].size, p);
    KeyDecides(s, p);
    forall q | q in g.nodes && g.nodes[q].size == s
      ensures Under(q, Next(s, p))
    {
      UnderSplit(q, p);
      if Under(q, Left(p)) { FitsAbove(s, q, Left(p)); }
      if Under(q, Right(p)) { FitsAbove(s, q, Right(p)); }
    }
  }

  /** Where the path leaves the tree, there is no chain of the size. */
  lemma PathEnds(g: Trie, s: nat, p: Pos)
    requires g.Rooted() && OnPath(g, s, p) && p !in g.nodes
    ensures forall q :: q in g.nodes ==> g.nodes[q].size != s
  {
    NothingBelow(g, p);
  }

  // ----- removal -----

  ghost predicate Sound(m: Links, roots: seq<nat>, treemap: BinMap, g: Trie, slots: nat) {
    g.Valid() && Linked(m, g, slots) && Anchored(roots, treemap, g)
  }

  /** A chained chunk that is no tree node has left. */
  lemma Unchained(m: Links, roots: seq<nat>, treemap: BinMap, g: Trie, slots: nat, p: Pos, k: nat)
    requires Sound(m, roots, treemap, g, slots) && p in g.nodes && 0 < k <= |g.nodes[p].rest|
    ensures var x := g.nodes[p].rest[k - 1];
            var g' := g.Unchain(p, x, Remaining(g.nodes[p], k));
            && x in m.fd && x in m.bk
            && Sound(Parted(m, x), roots, treemap, g', slots) && SizesOf(g') == SizesOf(g) - {x}
  {
    var n := g.nodes[p];
    var x := n.rest[k - 1];
    assert n.Chain()[k] == x && Threaded(m, n, Bin(p));
    HasChain(n);
    RemainingHas(n, k);
    RemainingHead(n, k);
    UnchainValid(g, p, x, Remaining(n, k));
    UnchainLinked(m, g, slots, p, k);
    UnchainSizes(g, p, x, Remaining(n, k));
  }

  lemma RemainingHead(n: Node, k: nat)
    requires Distinct(n.Chain()) && n.rest != [] && k <= |n.rest|
    ensures Remaining(n, k).head !in Remaining(n, k).rest && Remaining(n, k).size == n.size
  {
    UnlinkDistinct(n.Chain(), k);
    RemainingChain(n, k);
    LastDistinct(Without(n.Chain(), k));
    HasChain(Remaining(n, k));
  }

  lemma LastDistinct(s: seq<nat>)
    requires Distinct(s) && s != []
    ensures Distinct(FromLast(s))
  {
    var t := FromLast(s);
    assert |t| == |s| && forall k :: 0 < k < |t| ==> t[k] == s[k - 1];
  }

  lemma UnchainSizes(g: Trie, p: Pos, x: nat, n: Node)
    requires p in g.nodes && n.size == g.nodes[p].size
    ensures SizesOf(g.Unchain(p, x, n)) == SizesOf(g) - {x}
  {
  }

  /** The tree node at `p` can be replaced; its chain need not be in order. */
  ghost predicate Open(m: Links, roots: seq<nat>, treemap: BinMap, g: Trie, slots: nat, p: Pos) {
    && g.Rooted() && g.Located() && Noded(m, g, slots) && Anchored(roots, treemap, g)
    && p in g.nodes && Indexed(m, g.Head(p), Bin(p)) && Bin(p) < 32
  }

  /** What the neighbours of the tree node at `p` hold. */
  lemma Surroundings(m: Links, roots: seq<nat>, treemap: BinMap, g: Trie, slots: nat, p: Pos)
    requires Open(m, roots, treemap, g, slots, p)
    ensures NodeLinked(m, g, slots, p)
    ensures roots[Bin(p)] == g.Head(p) <==> p.Root?
    ensures !p.Root? ==>
              && g.Head(p.up) in m.left && g.Head(p.up) != g.Head(p)
              && (m.left[g.Head(p.up)] == g.Head(p) <==> p.Left?)
    ensures g.Head(Left(p)) != g.Head(p) && g.Head(Right(p)) != g.Head(p)
  {
    Apart(g, p, p);
    var b := Root(Bin(p));
    if b in g.nodes { Apart(g, b, p); }
    if Left(p) in g.nodes { Apart(g, Left(p), p); }
    if Right(p) in g.nodes { Apart(g, Right(p), p); }
    if !p.Root? {
      Apart(g, p.up, p);
      assert NodeLinked(m, g, slots, p.up);
      if Left(p.up) in g.nodes { Apart(g, Left(p.up), p); }
    }
  }

  lemma Opened(m: Links, roots: seq<nat>, treemap: BinMap, g: Trie, slots: nat, p: Pos)
    requires Sound(m, roots, treemap, g, slots) && p in g.nodes
    ensures Open(m, roots, treemap, g, slots, p)
  {
    FitsRange(g.nodes[p].size, p);
    assert Threaded(m, g.nodes[p], Bin(p));
  }

  predicate NoHead(g: Trie, r: nat) {
    forall q :: q in g.nodes ==> r != g.Head(q)
  }

  /** The bin slots after the slot of the tree node at `p` was redirected. */
  function Reslotted(roots: seq<nat>, p: Pos, to: nat): seq<nat> {
    if p.Root? && p.bin < |roots| then roots[p.bin := to] else roots
  }

  /** The tree node has left a chain of several chunks, and the last chunk took its place. */
  lemma Succeeded(m: Links, roots: seq<nat>, treemap: BinMap, g: Trie, slots: nat, p: Pos)
    requires Sound(m, roots, treemap, g, slots) && p in g.nodes && g.nodes[p].rest != []
    ensures var x, n := g.Head(p), Remaining(g.nodes[p], 0);
            && x in m.fd && x in m.bk && m.bk[x] == n.head != 0
            && Open(Parted(m, x), roots, treemap, g, slots, p) && NoHead(g, n.head)
            && Sound(Relinked(Parted(m, x), g, slots, p, n.head), Reslotted(roots, p, n.head), treemap,
                     g.Substitute(p, n), slots)
            && SizesOf(g.Substitute(p, n)) == SizesOf(g) - {x}
  {
    var n := Remaining(g.nodes[p], 0);
    assert Threaded(m, g.nodes[p], Bin(p)) && Fits(n.size, p);
    Parting(m, g, p, 0);
    HeirWithin(g, p);
    NotHead(g, p, n);
    PartedLast(m, g, p);
    assert n.Has(n.head);
    OtherSizes(g, p);
    PartedNoded(m, g, slots, g.Head(p));
    FitsRange(n.size, p);
    Substituted(Parted(m, g.Head(p)), roots, treemap, g, slots, p, n);
    SucceedSizes(g, p, n);
  }

  lemma PartedNoded(m: Links, g: Trie, slots: nat, x: nat)
    requires Noded(m, g, slots) && x in m.fd && x in m.bk
    ensures Noded(Parted(m, x), g, slots)
  {
    NodedFrame(m, Parted(m, x), g, g, slots);
  }

  lemma PartedLast(m: Links, g: Trie, p: Pos)
    requires p in g.nodes && g.nodes[p].rest != [] && Threaded(m, g.nodes[p], Bin(p))
    requires g.Head(p) in m.fd && g.Head(p) in m.bk
    ensures Childless(Parted(m, g.Head(p)), Remaining(g.nodes[p], 0).head)
  {
    var r := g.nodes[p].rest;
    assert Unlinked(m, r[|r| - 1]);
  }

  lemma OtherSizes(g: Trie, p: Pos)
    requires g.Unique() && p in g.nodes
    ensures forall q :: q in g.nodes && q != p ==> g.nodes[q].size != g.nodes[p].size
  {
    forall q | q in g.nodes && q != p
      ensures g.nodes[q].size != g.nodes[p].size
    {
      assert g.Twins(q, p) ==> q == p;
    }
  }

  lemma HeirWithin(g: Trie, p: Pos)
    requires g.Located() && p in g.nodes && g.nodes[p].rest != [] && Distinct(g.nodes[p].Chain())
    ensures g.Heir(p, Remaining(g.nodes[p], 0)) && Remaining(g.nodes[p], 0).size == g.nodes[p].size
    ensures forall a :: Remaining(g.nodes[p], 0).Has(a) ==> a in g.at
  {
    var n := g.nodes[p];
    Together(g, p);
    HasChain(n);
    RemainingHas(n, 0);
    RemainingHead(n, 0);
    forall a | n.Has(a)
      ensures a != 0
    {
      assert g.Housed(a);
    }
  }

  lemma SucceedSizes(g: Trie, p: Pos, n: Node)
    requires g.Located() && g.Heir(p, n) && n.size == g.nodes[p].size
    requires forall a :: n.Has(a) ==> a in g.at
    ensures SizesOf(g.Substitute(p, n)) == SizesOf(g) - {g.Head(p)}
  {
    HasChain(n);
  }

  /** An heir took the place of the tree node at `p`. */
  lemma Substituted(m: Links, roots: seq<nat>, treemap: BinMap, g: Trie, slots: nat, p: Pos, n: Node)
    requires g.Valid() && g.Heir(p, n) && Fits(n.size, p)
    requires Chained(m, g, {p}) && Noded(m, g, slots) && Threaded(m, n, Bin(p)) && Childless(m, n.head)
    requires Anchored(roots, treemap, g)
    requires forall q :: q in g.nodes && q != p ==> g.nodes[q].size != n.size
    ensures Sound(Relinked(m, g, slots, p, n.head), Reslotted(roots, p, n.head), treemap, g.Substitute(p, n), slots)
  {
    SubstituteValid(g, p, n);
    SubstituteLinked(m, g, slots, p, n);
    SubstituteAnchored(roots, treemap, g, p, n);
  }

  lemma SubstituteAnchored(roots: seq<nat>, treemap: BinMap, g: Trie, p: Pos, n: Node)
    requires Anchored(roots, treemap, g) && p in g.nodes
    ensures Anchored(Reslotted(roots, p, n.head), treemap, g.Substitute(p, n))
  {
  }

  /** The only chunk of a leaf has left. */
  lemma Dropped(m: Links, roots: seq<nat>, treemap: BinMap, g: Trie, slots: nat, q: Pos)
    requires Sound(m, roots, treemap, g, slots) && q in g.nodes && Left(q) !in g.nodes && Right(q) !in g.nodes
    ensures Bin(q) < 32
    ensures Sound(SetSlot(m, g, q, 0), Reslotted(roots, q, 0), if q.Root? then Clear(treemap, Bin(q)) else treemap,
                  g.Detach(q), slots)
    ensures g.nodes[q].rest == [] ==> SizesOf(g.Detach(q)) == SizesOf(g) - {g.Head(q)}
  {
    FitsRange(g.nodes[q].size, q);
    DetachValid(g, q);
    DetachLinked(m, g, slots, q);
    DetachAnchored(roots, treemap, g, q);
    DetachSizes(g, q);
  }

  lemma DetachAnchored(roots: seq<nat>, treemap: BinMap, g: Trie, q: Pos)
    requires Anchored(roots, treemap, g) && q in g.nodes && Bin(q) < 32
    ensures Anchored(Reslotted(roots, q, 0), if q.Root? then Clear(treemap, Bin(q)) else treemap, g.Detach(q))
  {
  }

  lemma DetachSizes(g: Trie, q: Pos)
    requires g.Located() && q in g.nodes
    ensures g.nodes[q].rest == [] ==> SizesOf(g.Detach(q)) == SizesOf(g) - {g.Head(q)}
  {
    Together(g, q);
  }

  /** The only chunk of an inner node has left, and the node of the leaf `q` below took its place. */
  lemma Replaced(m: Links, roots: seq<nat>, treemap: BinMap, g: Trie, slots: nat, p: Pos, q: Pos)
    requires Sound(m, roots, treemap, g, slots) && p in g.nodes && g.nodes[p].rest == []
    requires q in g.nodes && q != p && Under(q, p) && Left(q) !in g.nodes && Right(q) !in g.nodes
    ensures var m1, g1, n := SetSlot(m, g, q, 0), g.Detach(q), g.nodes[q];
            && Open(m1, roots, treemap, g1, slots, p) && NoHead(g1, n.head)
            && Sound(Relinked(m1, g1, slots, p, n.head), Reslotted(roots, p, n.head), treemap,
                     g1.Substitute(p, n), slots)
            && SizesOf(g1.Substitute(p, n)) == SizesOf(g) - {g.Head(p)}
  {
    var m1, g1, n := SetSlot(m, g, q, 0), g.Detach(q), g.nodes[q];
    Dropped(m, roots, treemap, g, slots, q);
    BelowRoot(q, p);
    Opened(m1, roots, treemap, g1, slots, p);
    FitsRange(n.size, q);
    FitsAbove(n.size, q, p);
    UnderRange(q, p);
    HeirBelow(g, p, q);
    NotHead(g1, p, n);
    SlotChained(m, g, q, 0);
    LeafChildless(m, g, slots, q);
    OtherSizes(g, q);
    ChainedBut(m1, g1, p);
    assert Threaded(m1, n, Bin(q));
    Substituted(m1, roots, treemap, g1, slots, p, n);
    ReplaceSizes(g, p, q);
  }

  lemma BelowRoot(q: Pos, p: Pos)
    requires Under(q, p) && q != p
    ensures !q.Root?
  {
  }

  lemma HeirBelow(g: Trie, p: Pos, q: Pos)
    requires g.Located() && p in g.nodes && g.nodes[p].rest == [] && q in g.nodes && q != p
    ensures g.Detach(q).Heir(p, g.nodes[q])
  {
    Together(g, q);
    Apart(g, p, q);
    assert g.Houses(q) && g.Houses(p);
    forall a | g.nodes[q].Has(a)
      ensures a != 0
    {
      assert g.Housed(a);
    }
  }

  lemma LeafChildless(m: Links, g: Trie, slots: nat, q: Pos)
    requires g.Rooted() && g.Located() && Noded(m, g, slots) && q in g.nodes
    requires Left(q) !in g.nodes && Right(q) !in g.nodes
    ensures Childless(SetSlot(m, g, q, 0), g.Head(q))
  {
    assert NodeLinked(m, g, slots, q);
  }

  lemma ReplaceSizes(g: Trie, p: Pos, q: Pos)
    requires g.Located() && p in g.nodes && g.nodes[p].rest == [] && q in g.nodes && q != p
    ensures SizesOf(g.Detach(q).Substitute(p, g.nodes[q])) == SizesOf(g) - {g.Head(p)}
  {
    var g', n := g.Detach(q).Substitute(p, g.nodes[q]), g.nodes[q];
    Together(g, q);
    Together(g, p);
    HasChain(n);
  }
}
