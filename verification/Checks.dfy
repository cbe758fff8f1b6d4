/** Why the run-time checks of the allocator pass, and where its link words lie. */
module Checks {
  import opened BinMaps
  import opened Sizes
  import opened Heap
  import opened Blocks
  import opened Runs
  import opened Rings
  import opened Tries
  import opened TreeLinks
  import SmallBins
  import TreeBins
  import Arena

  /** ok_address, ok_cinuse, ok_next and ok_pinuse on the release or resize of a live block. */
  lemma ReleaseChecks(l: Layout, m: Memory, dv: nat, dvsize: nat, topsize: nat, p: nat)
    requires Intact(l, m, dv, dvsize, topsize) && p in Live(l)
    ensures l.first <= p && p in m.head && Cinuse(m.head[p])
    ensures var next := p + ChunkSize(m.head[p]);
            && p < next && l.first <= next && next in m.head && Pinuse(m.head[next])
    ensures !Pinuse(m.head[p]) ==> p in m.foot && l.first <= p - m.foot[p] < p
  {
    ChunkFacts(l, p);
    assert Tagged(l, m, p);
    PinuseBefore(l, m, p);
    if !Pinuse(m.head[p]) { ChunkFacts(l, Before(l, p)); }
  }

  /** The links of a chunk in a small bin lead to its header or to a chunk in a small bin. */
  lemma SmallLinks(b: SmallBins.SmallBins, a: nat)
    requires b.Valid() && a in b.Contents()
    ensures a in b.fd && a in b.bk
    ensures var h := SmallBins.Header(b.base, b.lists.at[a]);
            && (b.fd[a] == h || b.fd[a] in b.Contents()) && (b.bk[a] == h || b.bk[a] in b.Contents())
  {
    var i := b.lists.at[a];
    assert b.lists.Held(b.base, a) && SmallBins.Listed(b.fd, b.bk, b.smallmap, b.lists, b.base, i);
    SmallBins.Members(b.lists, b.base, i);
    var r := [SmallBins.Header(b.base, i)] + b.lists.bins[i];
    var k :| 0 <= k < |b.lists.bins[i]| && b.lists.bins[i][k] == a;
    assert r[k + 1] == a;
    assert Points(b.fd, r, k + 1) && PointsBack(b.bk, r, k + 1);
    InRing(b, i, Succ(r, k + 1));
    InRing(b, i, Pred(r, k + 1));
  }

  lemma InRing(b: SmallBins.SmallBins, i: nat, x: nat)
    requires b.Valid() && i < 32 && x in [SmallBins.Header(b.base, i)] + b.lists.bins[i]
    ensures x == SmallBins.Header(b.base, i) || x in b.Contents()
  {
    SmallBins.Members(b.lists, b.base, i);
  }

  /** The header of a marked bin leads to a chunk of the bin. */
  lemma HeaderLink(b: SmallBins.SmallBins, i: nat)
    requires b.Valid() && i < 32 && Marked(b.smallmap, i)
    ensures var h := SmallBins.Header(b.base, i); h in b.fd && b.fd[h] in b.Contents()
  {
    assert SmallBins.Listed(b.fd, b.bk, b.smallmap, b.lists, b.base, i);
    SmallBins.Members(b.lists, b.base, i);
    var r := [SmallBins.Header(b.base, i)] + b.lists.bins[i];
    assert Points(b.fd, r, 0) && r[1] == b.lists.bins[i][0];
  }

  /** The chain links of a chunk in a tree lead to chunks in trees. */
  lemma ChainLinks(t: TreeBins.TreeBins, a: nat)
    requires t.Valid() && a in t.Contents()
    ensures a in t.links.fd && t.links.fd[a] in t.Contents() && a in t.links.bk && t.links.bk[a] in t.Contents()
  {
    var g, p := t.trie, t.trie.at[a];
    assert g.Housed(a) && g.Houses(p) && Threaded(t.links, g.nodes[p], Bin(p));
    var r := g.nodes[p].Chain();
    HasChain(g.nodes[p]);
    var k :| 0 <= k < |r| && r[k] == a;
    assert Points(t.links.fd, r, k) && PointsBack(t.links.bk, r, k);
    InChain(t, p, Succ(r, k));
    InChain(t, p, Pred(r, k));
  }

  lemma InChain(t: TreeBins.TreeBins, p: Pos, x: nat)
    requires t.Valid() && p in t.trie.nodes && x in t.trie.nodes[p].Chain()
    ensures x in t.Contents()
  {
    assert t.trie.Houses(p);
    HasChain(t.trie.nodes[p]);
  }

  /** The child and parent links of a tree node lead to tree nodes, or are null, or the slot of a root. */
  lemma NodeLinks(t: TreeBins.TreeBins, p: Pos)
    requires t.Valid() && p in t.trie.nodes
    ensures var h, m := t.trie.Head(p), t.links;
            && h in m.left && (m.left[h] == 0 || m.left[h] in t.Contents())
            && h in m.right && (m.right[h] == 0 || m.right[h] in t.Contents())
            && h in m.parent && (if p.Root? then m.parent[h] == t.slots + 8 * p.bin else m.parent[h] in t.Contents())
  {
    assert NodeLinked(t.links, t.trie, t.slots, p);
    if Left(p) in t.trie.nodes { InChain(t, Left(p), t.trie.Head(Left(p))); }
    if Right(p) in t.trie.nodes { InChain(t, Right(p), t.trie.Head(Right(p))); }
    if !p.Root? { InChain(t, p.up, t.trie.Head(p.up)); }
  }

  /** Every chunk in a bin of an arena passes ok_address, and so does every link that leads to one. */
  lemma BinnedAddress(arena: Arena.Arena, a: nat)
    requires arena.Valid() && (a in arena.bins.small.Contents() || a in arena.bins.tree.Contents())
    ensures arena.first <= a && a != 0
  {
    assert a in Binned(arena.Heap(), arena.dv);
    ChunkFacts(arena.Heap(), a);
  }

  /** How many bytes of a free chunk hold its tags and links: those of a tree chunk end with the index. */
  function LinkEnd(size: nat): nat { if size < MIN_LARGE_SIZE then 32 else 64 }

  /**
   The link words of a free chunk `a` lie within it: apart from the tags of every chunk `x`, and from
   the payload of every other chunk and its link words, which end before the foot of the next one.
   */
  lemma LinkWords(l: Layout, a: nat, x: nat)
    requires l.Tiled() && l.Free(a) && a != l.top && (x in l.chunks || x == l.end)
    ensures a + LinkEnd(l.chunks[a].size) <= l.Next(a)
    ensures x + 16 <= a + 16 || a + LinkEnd(l.chunks[a].size) <= x
    ensures x in l.chunks && x != a ==> l.Next(x) + 8 <= a + 16 || a + LinkEnd(l.chunks[a].size) <= x + 16
  {
    ChunkFacts(l, a);
    if x in l.chunks {
      ChunkFacts(l, x);
      assert l.Apart(a, x) && l.Apart(x, a);
    }
  }
}
