/** The tree bins of a malloc_state: 32 bitwise tries of large free chunks, in place. */
module TreeBins {
  // `trie` is the ghost picture of the links; `Contents` is what clients see of it.

  import opened BinMaps
  import opened Sizes
  import opened Tries
  import opened TreeLinks
  import opened TreeSteps
  import opened TreeSearch
  import opened Options

  /** A step of the search along a path, with the child words that the code looks at. */
  lemma WalkStep(m: Links, g: Trie, slots: nat, nb: nat, before: nat, rsize: nat, p: Pos, rp: Option<Pos>, i: nat)
    requires g.Valid() && Noded(m, g, slots) && p in g.nodes && g.nodes[p].size != nb
    requires rsize <= before && Beaten(g, nb, rsize, p)
    requires Behind(g, nb, p, rp, i) && PathCovered(g, nb, before, p, rp, i)
    ensures var c, r, h := Next(nb, p), Untaken(g, nb, p, rp), g.Head(p);
            && Behind(g, nb, c, r, i) && PathCovered(g, nb, rsize, c, r, i) && 0 <= Width(c) < Width(p)
            && h in m.left && h in m.right
            && (if Key(nb, p) >= TOP_BIT then m.right[h] else m.left[h]) == g.Head(c)
            && (g.Head(c) == 0 <==> c !in g.nodes)
            && (m.right[h] != 0 && m.right[h] != g.Head(c) ==> r == Some(Right(p)) && m.right[h] == g.Head(Right(p)))
            && (m.right[h] == 0 || m.right[h] == g.Head(c) ==> r == rp)
            && Key(nb, c) == Double(Key(nb, p))
  {
    PathImprove(g, nb, before, rsize, p, rp, i);
    PathStep(g, nb, rsize, p, rp, i);
    Children(m, g, slots, p);
    if Left(p) in g.nodes && Right(p) in g.nodes { Apart(g, Left(p), Right(p)); }
  }

  class TreeBins {
    const slots: nat
    var links: Links
    var roots: seq<nat>
    var treemap: BinMap
    ghost var trie: Trie

    ghost predicate Valid()
      reads this
    {
      Sound(links, roots, treemap, trie, slots) && slots != 0
    }

    ghost function Contents(): map<nat, nat>
      reads this
    {
      SizesOf(trie)
    }

    constructor (slots: nat)
      requires slots != 0
      ensures Valid() && Contents() == map[] && this.slots == slots
    {
      this.slots := slots;
      links := Links(map[], map[], map[], map[], map[], map[]);
      roots := seq(32, _ => 0);
      treemap := 0;
      trie := Trie(map[], map[]);
      new;
      EmptyMap(0);
    }

    /** The descent of insert_large_chunk, to the chain of the size or to the node with the free slot. */
    method Descend(head: map<nat, nat>, s: nat) returns (t: nat, k: nat, ghost p: Pos)
      requires Valid() && Sized(head, Contents())
      requires MIN_LARGE_SIZE <= s < WORD && Root(TreeIndex(s)) in trie.nodes
      ensures p in trie.nodes && t == trie.Head(p) && t in head && ChunkSize(head[t]) == trie.nodes[p].size
      ensures Fits(s, p) && OnPath(trie, s, p) && k == Key(s, p)
      ensures trie.nodes[p].size != s ==> Next(s, p) !in trie.nodes
    {
      RootOnPath(trie, s);
      IndexCorrect(s);
      var i := ComputeTreeIndex(s);
      t := roots[i];
      k := Shift(s, LeftShift(i));
      p := Root(i);
      RootKey(s, i);
      FitsRange(s, p);
      NodeSize(head, trie, p);
      while ChunkSize(head[t]) != s
        invariant p in trie.nodes && t == trie.Head(p) && t in head && Fits(s, p) && k == Key(s, p)
        invariant OnPath(trie, s, p) && Width(p) >= 0
        invariant ChunkSize(head[t]) == trie.nodes[p].size
        decreases Width(p)
      {
        Children(links, trie, slots, p);
        StepDown(trie, s, p);
        var c := if k >= TOP_BIT then links.right[t] else links.left[t];
        if c == 0 { return; }
        k := Double(k);
        t, p := c, Next(s, p);
        NodeSize(head, trie, p);
      }
    }

    /** insert_large_chunk: a new root, a new leaf or a new link in a chain. */
    method Insert(head: map<nat, nat>, x: nat, s: nat)
      requires Valid() && Sized(head, Contents())
      requires x != 0 && x !in Contents() && MIN_LARGE_SIZE <= s < WORD
      modifies this
      ensures Valid() && Contents() == old(Contents())[x := s]
    {
      IndexCorrect(s);
      RootOnPath(trie, s);
      var i := ComputeTreeIndex(s);
      if !IsMarked(treemap, i) {
        NewRoot(i, x, s);
      } else {
        var t, k, p := Descend(head, s);
        if ChunkSize(head[t]) != s {
          StepDown(trie, s, p);
          NewLeaf(t, k >= TOP_BIT, Next(s, p), i, x, s);
        } else {
          FitsRange(s, p);
          NewLink(t, p, i, x);
        }
      }
    }

    /** `x` becomes the root of the empty bin `i`. */
    method NewRoot(i: nat, x: nat, s: nat)
      requires Valid() && x != 0 && x !in Contents()
      requires MIN_LARGE_SIZE <= s < WORD && i == TreeIndex(s) < 32 && !Marked(treemap, i)
      modifies this
      ensures Valid() && Contents() == old(Contents())[x := s]
    {
      Founded(links, roots, treemap, trie, slots, i, x, s);
      links := Planted(links, x, slots + 8 * i, i);
      treemap := Mark(treemap, i);
      roots := roots[i := x];
      trie := trie.Grow(Root(i), x, s);
      assert Linked(links, trie, slots);
    }

    /** `x` becomes the child at the free position `p` of the tree node `t`. */
    method NewLeaf(t: nat, right: bool, ghost p: Pos, i: nat, x: nat, s: nat)
      requires Valid() && x != 0 && x !in Contents()
      requires i == TreeIndex(s) && Fits(s, p) && OnPath(trie, s, p) && p !in trie.nodes
      requires !p.Root? && p.up in trie.nodes && t == trie.Head(p.up) && (right <==> p.Right?)
      modifies this
      ensures Valid() && Contents() == old(Contents())[x := s]
    {
      Grown(links, roots, treemap, trie, slots, p, x, s);
      links := SetChild(Planted(links, x, t, i), t, right, x);
      trie := trie.Grow(p, x, s);
    }

    /** `x` joins the chain of the tree node `t`. */
    method NewLink(t: nat, ghost p: Pos, i: nat, x: nat)
      requires Valid() && x != 0 && x !in Contents()
      requires p in trie.nodes && t == trie.Head(p) && i == TreeIndex(trie.nodes[p].size)
      modifies this
      ensures Valid() && Contents() == old(Contents())[x := old(trie).nodes[p].size]
    {
      ChainedUp(links, roots, treemap, trie, slots, p, x);
      links := Joined(links, t, x, i);
      trie := trie.Chain(p, x);
    }

    /** unlink_large_chunk: a chained chunk leaves, or its tree node gets a successor from the chain or from below. */
    method Unlink(x: nat)
      requires Valid() && x in Contents()
      modifies this
      ensures Valid() && Contents() == old(Contents()) - {x}
    {
      ghost var p := trie.at[x];
      ghost var k := Placed(links, trie, slots, x);
      if links.bk[x] != x {
        UnlinkChained(x, p, k);
      } else {
        UnlinkLone(x, p);
      }
    }

    method UnlinkChained(x: nat, ghost p: Pos, ghost k: nat)
      requires Valid() && p in trie.nodes && k <= |trie.nodes[p].rest| && trie.nodes[p].rest != []
      requires x == trie.nodes[p].Chain()[k] && x in links.fd && x in links.bk && x in links.parent
      requires links.parent[x] == 0 <==> k > 0
      requires Indexed(links, x, Bin(p))
      modifies this
      ensures Valid() && Contents() == old(Contents()) - {x}
    {
      var xp, r := links.parent[x], links.bk[x];
      if xp == 0 {
        Unchained(links, roots, treemap, trie, slots, p, k);
        links := Parted(links, x);
        trie := trie.Unchain(p, x, Remaining(trie.nodes[p], k));
      } else {
        assert NodeLinked(links, trie, slots, p);
        Succeeded(links, roots, treemap, trie, slots, p);
        links := Parted(links, x);
        Relink(x, xp, r, p);
        trie := trie.Substitute(p, Remaining(trie.nodes[p], 0));
      }
    }

    /** The chunk is alone in its chain. */
    method UnlinkLone(x: nat, ghost p: Pos)
      requires Valid() && p in trie.nodes && trie.nodes[p].rest == [] && x == trie.Head(p)
      modifies this
      ensures Valid() && Contents() == old(Contents()) - {x}
    {
      assert NodeLinked(links, trie, slots, p);
      var xp := links.parent[x];
      var r, q := TakeLeaf(x, p);
      if r == 0 {
        Opened(links, roots, treemap, trie, slots, p);
        Dropped(links, roots, treemap, trie, slots, p);
      } else {
        Replaced(old(links), roots, treemap, trie, slots, p, q);
        trie := trie.Detach(q);
      }
      Relink(x, xp, r, p);
      trie := if r == 0 then trie.Detach(p) else trie.Substitute(p, old(trie).nodes[q]);
    }

    /** Cuts off the rightmost leaf below `x`, if there is any. */
    method TakeLeaf(x: nat, ghost p: Pos) returns (r: nat, ghost q: Pos)
      requires Valid() && p in trie.nodes && x == trie.Head(p)
      modifies this`links
      ensures q in trie.nodes && Under(q, p) && Left(q) !in trie.nodes && Right(q) !in trie.nodes
      ensures r == if q == p then 0 else trie.Head(q)
      ensures q != p ==> r != 0
      ensures links == if q == p then old(links) else SetSlot(old(links), trie, q, 0)
    {
      q := p;
      Children(links, trie, slots, p);
      var owner, right := x, true;
      r := links.right[x];
      if r == 0 {
        right := false;
        r := links.left[x];
      }
      if r == 0 { return; }
      q := if right then Right(p) else Left(p);
      while true
        invariant q in trie.nodes && Under(q, p) && !q.Root? && q.up in trie.nodes && Under(q.up, p)
        invariant r == trie.Head(q) && owner == trie.Head(q.up) && right == q.Right?
        invariant r != 0 && links == old(links)
        decreases Width(q)
      {
        FitsRange(trie.nodes[q].size, q);
        Children(links, trie, slots, q);
        if links.right[r] != 0 {
          owner, right, r, q := r, true, links.right[r], Right(q);
        } else if links.left[r] != 0 {
          owner, right, r, q := r, false, links.left[r], Left(q);
        } else {
          break;
        }
      }
      links := SetChild(links, owner, right, 0);
    }

    /** `r`, or nothing if it is 0, takes the place of the tree node `x`. */
    method Relink(x: nat, xp: nat, r: nat, ghost p: Pos)
      requires Open(links, roots, treemap, trie, slots, p)
      requires x == trie.Head(p) && x in links.parent && xp == links.parent[x]
      requires r != 0 ==> NoHead(trie, r)
      modifies this`links, this`roots, this`treemap
      ensures roots == Reslotted(old(roots), p, r)
      ensures treemap == if p.Root? && r == 0 then Clear(old(treemap), Bin(p)) else old(treemap)
      ensures links == if r == 0 then SetSlot(old(links), trie, p, 0) else Relinked(old(links), trie, slots, p, r)
    {
      Surroundings(links, roots, treemap, trie, slots, p);
      var i := links.index[x];
      if roots[i] == x {
        roots := roots[i := r];
        if r == 0 { treemap := Clear(treemap, i); }
      } else {
        links := SetChild(links, xp, links.left[xp] != x, r);
      }
      if r != 0 {
        var c0, c1 := links.left[x], links.right[x];
        links := links.(parent := links.parent[r := xp]);
        if c0 != 0 { links := links.(left := links.left[r := c0], parent := links.parent[c0 := r]); }
        if c1 != 0 { links := links.(right := links.right[r := c1], parent := links.parent[c1 := r]); }
      }
    }

    /** The bin map tells whether there is any chunk. */
    lemma Emptiness()
      requires Valid()
      ensures treemap == 0 <==> Contents() == map[]
    {
      EmptyMap(treemap);
      if treemap == 0 {
        forall a | a in trie.at
          ensures false
        {
          var p := trie.at[a];
          assert trie.Housed(a);
          FitsRange(trie.nodes[p].size, p);
          UnderRoot(p);
          Closed(trie, p, Root(Bin(p)));
        }
      } else {
        var i :| 0 <= i < 32 && Marked(treemap, i);
        assert trie.Houses(Root(i)) && trie.Head(Root(i)) in Contents();
      }
    }

    // ----- searches -----

    /** The search of tmalloc_large: a smallest chunk of at least `nb` bytes. */
    method FindBest(head: map<nat, nat>, nb: nat) returns (v: nat, rsize: nat)
      requires Valid() && Sized(head, Contents()) && MIN_LARGE_SIZE <= nb < WORD
      ensures BestFit(Contents(), nb, v, rsize)
    {
      IndexCorrect(nb);
      FirstBin(roots, treemap, trie, nb);
      var idx := ComputeTreeIndex(nb);
      ghost var p := Root(idx);
      var t := roots[idx];
      v, rsize := 0, WORD - nb;
      if t != 0 {
        t, v, rsize, p := WalkPath(head, nb, idx);
      }
      if t == 0 && v == 0 {
        t, p := NextTree(nb, idx);
      } else if t == 0 {
        BinBeaten(trie, nb, rsize, idx);
      }
      v, rsize := WalkLeft(head, nb, t, p, v, rsize);
    }

    /** The tree of the next marked bin, when the bin of the request has no chunk that fits. */
    method NextTree(nb: nat, idx: nat) returns (t: nat, ghost p: Pos)
      requires Valid() && MIN_LARGE_SIZE <= nb < WORD && idx == TreeIndex(nb) < 32
      requires BinDone(trie, nb, WORD - nb, idx)
      ensures t != 0 ==>
                && p in trie.nodes && t == trie.Head(p)
                && Covered(trie, nb, WORD - nb, p) && AllFit(trie, nb, p)
      ensures t == 0 ==> AllBeaten(trie, nb, WORD - nb)
    {
      t, p := 0, Root(idx);
      var i := NextBin(treemap, idx);
      LaterBins(roots, treemap, trie, nb, WORD - nb, idx, i);
      if i < 32 {
        t, p := roots[i], Root(i);
      }
    }

    /**
     Follows the digits of `nb` through the tree of its bin. Either the search goes on in the
     subtree of `t`, or no chunk of the bin fits better than `v`.
     */
    method WalkPath(head: map<nat, nat>, nb: nat, idx: nat) returns (t: nat, v: nat, rsize: nat, ghost p: Pos)
      requires Valid() && Sized(head, Contents())
      requires MIN_LARGE_SIZE <= nb < WORD && idx == TreeIndex(nb) < 32 && Root(idx) in trie.nodes
      ensures Candidate(trie, nb, v, rsize)
      ensures t != 0 ==>
                && p in trie.nodes && t == trie.Head(p)
                && Covered(trie, nb, rsize, p) && (rsize == 0 || AllFit(trie, nb, p))
      ensures t == 0 ==> BinDone(trie, nb, rsize, idx) && (v != 0 ==> nb + rsize < Hi(Root(idx)))
    {
      v, rsize := 0, WORD - nb;
      p := Root(idx);
      t := roots[idx];
      var sizebits := Shift(nb, LeftShift(idx));
      var rst := 0;
      ghost var rp: Option<Pos> := None;
      RootKey(nb, idx);
      Start(trie, nb);
      while true
        invariant p in trie.nodes && t == trie.Head(p) && sizebits == Key(nb, p)
        invariant Behind(trie, nb, p, rp, idx) && PathCovered(trie, nb, rsize, p, rp, idx)
        invariant rsize > 0 && Candidate(trie, nb, v, rsize) && (v != 0 ==> nb + rsize < Hi(Root(idx)))
        invariant rst == if rp.Some? then trie.Head(rp.value) else 0
        decreases Width(p)
      {
        NodeSize(head, trie, p);
        FitsRange(trie.nodes[p].size, p);
        ghost var before := rsize;
        var trem := Remainder(ChunkSize(head[t]), nb);
        if trem < rsize {
          v, rsize := t, trem;
          Improve(trie, nb, before, rsize);
          if trem == 0 { break; }
        }
        WalkStep(links, trie, slots, nb, before, rsize, p, rp, idx);
        var rt := links.right[t];
        t := if sizebits >= TOP_BIT then links.right[t] else links.left[t];
        if rt != 0 && rt != t { rst := rt; }
        p, rp := Next(nb, p), Untaken(trie, nb, p, rp);
        if t == 0 {
          PathEnd(trie, nb, rsize, p, rp, idx);
          t := rst;
          if rp.Some? { NodeSize(head, trie, rp.value); p := rp.value; }
          break;
        }
        sizebits := Double(sizebits);
      }
    }

    /** Follows the leftmost path from `t`, which holds the smallest of the remaining chunks. */
    method WalkLeft(head: map<nat, nat>, nb: nat, t0: nat, ghost p0: Pos, v0: nat, rsize0: nat)
        returns (v: nat, rsize: nat)
      requires Valid() && Sized(head, Contents()) && nb < WORD && Candidate(trie, nb, v0, rsize0)
      requires t0 != 0 ==>
                 && p0 in trie.nodes && t0 == trie.Head(p0)
                 && Covered(trie, nb, rsize0, p0) && (rsize0 == 0 || AllFit(trie, nb, p0))
      requires t0 == 0 ==> AllBeaten(trie, nb, rsize0)
      ensures BestFit(Contents(), nb, v, rsize) && (v0 != 0 ==> v != 0)
    {
      v, rsize := v0, rsize0;
      var t := t0;
      ghost var p := p0;
      while t != 0
        invariant Candidate(trie, nb, v, rsize) && (v0 != 0 ==> v != 0)
        invariant t != 0 ==>
                    && p in trie.nodes && t == trie.Head(p)
                    && Covered(trie, nb, rsize, p) && (rsize == 0 || AllFit(trie, nb, p))
        invariant t == 0 ==> AllBeaten(trie, nb, rsize)
        decreases t != 0, Width(p)
      {
        NodeSize(head, trie, p);
        FitsRange(trie.nodes[p].size, p);
        var trem := Remainder(ChunkSize(head[t]), nb);
        LeftImprove(trie, nb, rsize, if trem < rsize then trem else rsize, p);
        if trem < rsize {
          v, rsize := t, trem;
        }
        LeftmostStep(trie, nb, rsize, p);
        Children(links, trie, slots, p);
        t := if links.left[t] != 0 then links.left[t] else links.right[t];
        p := Leftmost(trie, p);
      }
      Chosen(trie, nb, v, rsize);
    }

    /** The search of tmalloc_small: the smallest chunk of all. */
    method FindSmallest(head: map<nat, nat>, nb: nat) returns (v: nat, rsize: nat)
      requires Valid() && Sized(head, Contents()) && nb < MIN_LARGE_SIZE && treemap != 0
      ensures v != 0 && BestFit(Contents(), nb, v, rsize)
    {
      var i := LeastIndex(treemap);
      FirstRoot(head, roots, treemap, trie, nb, i);
      ghost var p := Root(i);
      var t := roots[i];
      v, rsize := t, Remainder(ChunkSize(head[t]), nb);
      LeftmostStep(trie, nb, rsize, p);
      Children(links, trie, slots, p);
      t := if links.left[t] != 0 then links.left[t] else links.right[t];
      v, rsize := WalkLeft(head, nb, t, Leftmost(trie, p), v, rsize);
    }
  }
}
