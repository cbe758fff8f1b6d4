/** Why the path and leftmost-path searches of a trie find the smallest chunk that fits. */
module TreeSearch {
  import opened Options
  import opened BinMaps
  import opened Sizes
  import opened Tries
  import opened TreeSteps

  /** `chunksize(t) - nb` on a size_t. */
  function Remainder(size: nat, nb: nat): (r: nat)
    requires size < WORD && nb < WORD
    ensures if nb <= size then r == size - nb else r >= WORD - nb
  {
    if nb <= size then size - nb else WORD - (nb - size)
  }

  /** No chunk of the node at `q` fits better than a remainder of `rsize`. */
  predicate Beaten(g: Trie, nb: nat, rsize: nat, q: Pos) {
    q in g.nodes ==> g.nodes[q].size < nb || nb + rsize <= g.nodes[q].size
  }

  ghost predicate AllBeaten(g: Trie, nb: nat, rsize: nat) {
    forall q {:trigger Beaten(g, nb, rsize, q)} :: Beaten(g, nb, rsize, q)
  }

  /** A best fit is known unless it is at or below `p`. */
  ghost predicate Covered(g: Trie, nb: nat, rsize: nat, p: Pos) {
    forall q {:trigger Beaten(g, nb, rsize, q)} :: q in g.nodes ==>
      Beaten(g, nb, rsize, q) || Under(q, p) || g.nodes[q].size >= Hi(p)
  }

  /** All chunks at or below `p` fit. */
  ghost predicate AllFit(g: Trie, nb: nat, p: Pos) {
    forall q {:trigger Under(q, p)} :: q in g.nodes && Under(q, p) ==> nb <= g.nodes[q].size
  }

  /** The remainder can only shrink. */
  lemma Improve(g: Trie, nb: nat, rsize: nat, less: nat)
    requires less <= rsize
    ensures forall q {:trigger Beaten(g, nb, less, q)} ::
              Beaten(g, nb, rsize, q) || less == 0 ==> Beaten(g, nb, less, q)
  {
  }

  /** `v` is a best fit among those looked at, with `rsize` bytes to spare; 0 if none fits. */
  ghost predicate Candidate(g: Trie, nb: nat, v: nat, rsize: nat) {
    && nb + rsize <= WORD
    && if v == 0 then nb + rsize == WORD else v in SizesOf(g) && SizesOf(g)[v] == nb + rsize
  }

  /** The choice of a best fit among chunks of the given sizes. */
  predicate BestFit(sizes: map<nat, nat>, nb: nat, v: nat, rsize: nat) {
    && (v == 0 ==> nb + rsize == WORD)
    && (v != 0 ==> v in sizes && sizes[v] == nb + rsize)
    && forall a :: a in sizes && sizes[a] >= nb ==> v != 0 && sizes[v] <= sizes[a]
  }

  /** When every node is beaten, the candidate is a best fit. */
  lemma Chosen(g: Trie, nb: nat, v: nat, rsize: nat)
    requires g.Valid() && Candidate(g, nb, v, rsize)
    requires AllBeaten(g, nb, rsize)
    ensures BestFit(SizesOf(g), nb, v, rsize)
  {
    forall a | a in g.at && SizesOf(g)[a] >= nb
      ensures v != 0 && nb + rsize <= SizesOf(g)[a]
    {
      assert g.Housed(a) && Beaten(g, nb, rsize, g.at[a]);
      FitsRange(g.nodes[g.at[a]].size, g.at[a]);
    }
  }

  lemma RangeBelow(g: Trie, q: Pos, p: Pos)
    requires g.Valid() && q in g.nodes && Under(q, p)
    ensures Lo(p) <= g.nodes[q].size < Hi(p) && 0 <= Width(q) <= Width(p)
  {
    FitsRange(g.nodes[q].size, q);
    UnderRange(q, p);
  }

  // ----- the leftmost path -----

  /** `leftmost_child`. */
  function Leftmost(g: Trie, p: Pos): Pos {
    if Left(p) in g.nodes then Left(p) else Right(p)
  }

  /** A step of the leftmost path, once the node at `p` is beaten. */
  lemma LeftmostStep(g: Trie, nb: nat, rsize: nat, p: Pos)
    requires g.Valid() && Covered(g, nb, rsize, p) && p in g.nodes && Beaten(g, nb, rsize, p)
    requires rsize == 0 || AllFit(g, nb, p)
    ensures Width(p) >= 0
    ensures var c := Leftmost(g, p);
            if c in g.nodes then
              && Covered(g, nb, rsize, c) && (rsize == 0 || AllFit(g, nb, c)) && 0 <= Width(c) < Width(p)
            else AllBeaten(g, nb, rsize)
  {
    FitsRange(g.nodes[p].size, p);
    var c := Leftmost(g, p);
    if c in g.nodes { FitsRange(g.nodes[c].size, c); }
    forall q | q in g.nodes
      ensures c in g.nodes ==> Beaten(g, nb, rsize, q) || Under(q, c) || g.nodes[q].size >= Hi(c)
      ensures c !in g.nodes ==> Beaten(g, nb, rsize, q)
    {
      assert Under(p, p);
      LeftmostNode(g, nb, rsize, p, q);
    }
    assert c in g.nodes ==> forall q {:trigger Under(q, c)} :: Under(q, c) ==> Under(q, p) by {
      forall q { UnderSplit(q, p); }
    }
  }

  lemma LeftmostNode(g: Trie, nb: nat, rsize: nat, p: Pos, q: Pos)
    requires g.Valid() && p in g.nodes && q in g.nodes && Beaten(g, nb, rsize, p)
    requires rsize == 0 || nb <= g.nodes[p].size
    requires Beaten(g, nb, rsize, q) || Under(q, p) || g.nodes[q].size >= Hi(p)
    ensures var c := Leftmost(g, p);
            if c in g.nodes then Beaten(g, nb, rsize, q) || Under(q, c) || g.nodes[q].size >= Hi(c)
            else Beaten(g, nb, rsize, q)
  {
    UnderSplit(q, p);
    RangeBelow(g, p, p);
    if Under(q, p) && q != p {
      RangeBelow(g, q, p);
      UnderRange(q, p);
    }
    if Leftmost(g, p) !in g.nodes { NothingBelow(g, Leftmost(g, p)); }
    if Width(p) > 0 { Halves(p); }
    if Under(q, Right(p)) { RangeBelow(g, q, Right(p)); }
    if Leftmost(g, p) == Right(p) { NothingBelow(g, Left(p)); }
  }

  // ----- the path of a size -----

  /**
   What is known of `q` when the path of a size leads through bin `i` and `rp`, if any, is the deepest
   untaken right child.
   */
  predicate Ahead(g: Trie, q: Pos, rp: Option<Pos>, i: nat) {
    q in g.nodes ==>
      if rp.Some? then Under(q, rp.value) || g.nodes[q].size >= Hi(rp.value) else g.nodes[q].size >= Hi(Root(i))
  }

  ghost predicate PathCovered(g: Trie, nb: nat, rsize: nat, p: Pos, rp: Option<Pos>, i: nat) {
    forall q {:trigger Beaten(g, nb, rsize, q)} :: q in g.nodes ==>
      Beaten(g, nb, rsize, q) || Under(q, p) || Ahead(g, q, rp, i)
  }

  /** The untaken right child lies behind the path. */
  predicate Behind(g: Trie, nb: nat, p: Pos, rp: Option<Pos>, i: nat) {
    && Fits(nb, p) && Width(p) >= 0 && Hi(p) <= Hi(Root(i))
    && (rp.Some? ==> rp.value in g.nodes && nb < Lo(rp.value) && Hi(p) <= Lo(rp.value))
  }

  /** The right child of `p` if the path turns left and there is one. */
  function Untaken(g: Trie, nb: nat, p: Pos, rp: Option<Pos>): Option<Pos> {
    if Next(nb, p) == Left(p) && Right(p) in g.nodes then Some(Right(p)) else rp
  }

  /** A step of the path, once the node at `p` is beaten. */
  lemma PathStep(g: Trie, nb: nat, rsize: nat, p: Pos, rp: Option<Pos>, i: nat)
    requires g.Valid() && p in g.nodes && g.nodes[p].size != nb && Beaten(g, nb, rsize, p)
    requires Behind(g, nb, p, rp, i) && PathCovered(g, nb, rsize, p, rp, i)
    ensures var c, r := Next(nb, p), Untaken(g, nb, p, rp);
            && Behind(g, nb, c, r, i) && PathCovered(g, nb, rsize, c, r, i)
            && Width(c) == Width(p) - 1
    ensures Key(nb, p) >= TOP_BIT <==> Next(nb, p) == Right(p)
    ensures Double(Key(nb, p)) == Key(nb, Next(nb, p))
  {
    PathBehind(g, nb, p, rp, i);
    PathRest(g, nb, rsize, p, rp, i);
  }

  /** The digits of the request lead to the child that the key names. */
  lemma PathBehind(g: Trie, nb: nat, p: Pos, rp: Option<Pos>, i: nat)
    requires g.Valid() && p in g.nodes && g.nodes[p].size != nb && Behind(g, nb, p, rp, i)
    ensures var c := Next(nb, p);
            Behind(g, nb, c, Untaken(g, nb, p, rp), i) && In(nb, c) && Width(c) == Width(p) - 1 >= 0
    ensures Key(nb, p) >= TOP_BIT <==> Next(nb, p) == Right(p)
    ensures Double(Key(nb, p)) == Key(nb, Next(nb, p))
  {
    NotYetLeaf(g, nb, p);
    NextKey(nb, p);
    Halves(p);
  }

  lemma NotYetLeaf(g: Trie, nb: nat, p: Pos)
    requires g.Sized() && p in g.nodes && g.nodes[p].size != nb && Fits(nb, p)
    ensures Width(p) > 0
  {
    FitsRange(g.nodes[p].size, p);
    FitsRange(nb, p);
  }

  lemma NextKey(nb: nat, p: Pos)
    requires Fits(nb, p) && Width(p) > 0
    ensures Fits(nb, Next(nb, p)) && In(nb, Next(nb, p)) && Width(Next(nb, p)) == Width(p) - 1
    ensures Key(nb, p) >= TOP_BIT <==> Next(nb, p) == Right(p)
    ensures Double(Key(nb, p)) == Key(nb, Next(nb, p))
  {
    KeyDecides(nb, p);
    FitsRange(nb, Next(nb, p));
  }

  lemma PathRest(g: Trie, nb: nat, rsize: nat, p: Pos, rp: Option<Pos>, i: nat)
    requires g.Valid() && p in g.nodes && Width(p) > 0 && Beaten(g, nb, rsize, p) && In(nb, Next(nb, p))
    requires Behind(g, nb, p, rp, i) && PathCovered(g, nb, rsize, p, rp, i)
    ensures PathCovered(g, nb, rsize, Next(nb, p), Untaken(g, nb, p, rp), i)
  {
    forall q | q in g.nodes
      ensures Beaten(g, nb, rsize, q) || Under(q, Next(nb, p)) || Ahead(g, q, Untaken(g, nb, p, rp), i)
    {
      PathNode(g, nb, rsize, p, rp, i, q);
    }
  }

  lemma PathNode(g: Trie, nb: nat, rsize: nat, p: Pos, rp: Option<Pos>, i: nat, q: Pos)
    requires g.Valid() && p in g.nodes && Width(p) > 0 && Beaten(g, nb, rsize, p) && q in g.nodes
    requires Behind(g, nb, p, rp, i) && In(nb, Next(nb, p))
    requires Beaten(g, nb, rsize, q) || Under(q, p) || Ahead(g, q, rp, i)
    ensures Beaten(g, nb, rsize, q) || Under(q, Next(nb, p)) || Ahead(g, q, Untaken(g, nb, p, rp), i)
  {
    Halves(p);
    UnderSplit(q, p);
    if Under(q, Left(p)) { RangeBelow(g, q, Left(p)); }
    if Right(p) !in g.nodes { NothingBelow(g, Right(p)); }
    if rp.Some? && Under(q, rp.value) { RangeBelow(g, q, rp.value); }
  }

  /** The path leaves the tree: the search goes on in the untaken right child, or there is none. */
  lemma PathEnd(g: Trie, nb: nat, rsize: nat, p: Pos, rp: Option<Pos>, i: nat)
    requires g.Valid() && p !in g.nodes && Behind(g, nb, p, rp, i) && PathCovered(g, nb, rsize, p, rp, i)
    ensures rp.Some? ==> Covered(g, nb, rsize, rp.value) && AllFit(g, nb, rp.value)
    ensures rp.None? ==> BinDone(g, nb, rsize, i)
  {
    NothingBelow(g, p);
    if rp.Some? {
      forall q | q in g.nodes && Under(q, rp.value)
        ensures nb <= g.nodes[q].size
      {
        RangeBelow(g, q, rp.value);
      }
    }
  }

  lemma PathImprove(g: Trie, nb: nat, rsize: nat, less: nat, p: Pos, rp: Option<Pos>, i: nat)
    requires less <= rsize && PathCovered(g, nb, rsize, p, rp, i)
    ensures PathCovered(g, nb, less, p, rp, i)
  {
    forall q | q in g.nodes
      ensures Beaten(g, nb, less, q) || Under(q, p) || Ahead(g, q, rp, i)
    {
      assert Beaten(g, nb, rsize, q) || Under(q, p) || Ahead(g, q, rp, i);
    }
  }

  lemma LeftImprove(g: Trie, nb: nat, rsize: nat, less: nat, p: Pos)
    requires less <= rsize && Covered(g, nb, rsize, p)
    ensures Covered(g, nb, less, p)
  {
    forall q | q in g.nodes
      ensures Beaten(g, nb, less, q) || Under(q, p) || g.nodes[q].size >= Hi(p)
    {
      assert Beaten(g, nb, rsize, q) || Under(q, p) || g.nodes[q].size >= Hi(p);
    }
  }

  // ----- from bin to bin -----

  /** A best fit is known unless it is in a later bin. */
  ghost predicate BinDone(g: Trie, nb: nat, rsize: nat, i: nat) {
    forall q {:trigger Beaten(g, nb, rsize, q)} :: q in g.nodes ==>
      Beaten(g, nb, rsize, q) || g.nodes[q].size >= Hi(Root(i))
  }

  lemma RootHi(i: nat)
    requires i < 32
    ensures Hi(Root(i)) == if i == 31 then WORD else MinSize(i + 1)
  {
    if i == 31 { WordPow2(64); } else { NextMinSize(i); }
  }

  lemma BinCases(s: nat, i: nat)
    requires MIN_LARGE_SIZE <= s < WORD && i < 32
    ensures TreeIndex(s) > i <==> s >= Hi(Root(i))
  {
    RootHi(i);
    BinOrder(s, TreeIndex(s), i);
  }

  lemma BinOrder(s: nat, k: nat, i: nat)
    requires MIN_LARGE_SIZE <= s && k == TreeIndex(s)
    ensures k < 32
    ensures i < 31 ==> (k > i <==> s >= MinSize(i + 1))
  {
    IndexRange(s);
    if k > i { MinSizeMonotone(i + 1, k); }
    if k < i { MinSizeMonotone(k + 1, i + 1); }
  }

  /** Where the search starts: bins before that of the request hold nothing that fits. */
  lemma Start(g: Trie, nb: nat)
    requires g.Valid() && MIN_LARGE_SIZE <= nb < WORD
    ensures var i := TreeIndex(nb);
            && i < 32 && Behind(g, nb, Root(i), None, i) && PathCovered(g, nb, WORD - nb, Root(i), None, i)
            && (Root(i) !in g.nodes ==> BinDone(g, nb, WORD - nb, i))
  {
    var i := TreeIndex(nb);
    RootRange(nb);
    NothingAbove(g, i);
    forall q | q in g.nodes
      ensures g.nodes[q].size < nb || Under(q, Root(i)) || g.nodes[q].size >= Hi(Root(i))
    {
      FitsRange(g.nodes[q].size, q);
      BinCases(g.nodes[q].size, i);
      UnderRoot(q);
      if Bin(q) < i { BinsOrdered(g.nodes[q].size, nb); }
    }
  }

  lemma FirstBin(roots: seq<nat>, treemap: BinMap, g: Trie, nb: nat)
    requires g.Valid() && Anchored(roots, treemap, g) && MIN_LARGE_SIZE <= nb < WORD
    ensures var i := TreeIndex(nb);
            && i < 32
            && (roots[i] != 0 ==> Root(i) in g.nodes)
            && (roots[i] == 0 ==> BinDone(g, nb, WORD - nb, i))
    ensures Candidate(g, nb, 0, WORD - nb)
  {
    Start(g, nb);
    var b := Root(TreeIndex(nb));
    if b in g.nodes { Apart(g, b, b); }
  }

  lemma NothingAbove(g: Trie, i: nat)
    requires g.Rooted()
    ensures Root(i) !in g.nodes ==> forall q :: q in g.nodes ==> !Under(q, Root(i))
  {
    if Root(i) !in g.nodes { NothingBelow(g, Root(i)); }
  }

  /** The search goes on in the next non-empty bin `i`. */
  lemma NextCovered(g: Trie, nb: nat, rsize: nat, idx: nat, i: nat)
    requires g.Valid() && idx < i <= 32 && nb < Hi(Root(idx)) && BinDone(g, nb, rsize, idx)
    requires forall j :: idx < j < i ==> Root(j) !in g.nodes
    ensures i < 32 ==> Covered(g, nb, rsize, Root(i)) && AllFit(g, nb, Root(i))
    ensures i == 32 ==> AllBeaten(g, nb, rsize)
  {
    forall q | q in g.nodes
      ensures Beaten(g, nb, rsize, q) || (i < 32 && (Under(q, Root(i)) || g.nodes[q].size >= Hi(Root(i))))
      ensures i < 32 && Under(q, Root(i)) ==> nb <= g.nodes[q].size
    {
      var s := g.nodes[q].size;
      FitsRange(s, q);
      BinCases(s, idx);
      if i < 32 { BinCases(s, i); }
      UnderRoot(q);
      Closed(g, q, Root(Bin(q)));
      if i < 32 && Under(q, Root(i)) { UnderRange(q, Root(i)); }
    }
  }

  lemma LaterBins(roots: seq<nat>, treemap: BinMap, g: Trie, nb: nat, rsize: nat, idx: nat, i: nat)
    requires g.Valid() && Anchored(roots, treemap, g) && nb + rsize == WORD
    requires idx < i <= 32 && idx == TreeIndex(nb) && MIN_LARGE_SIZE <= nb < WORD && BinDone(g, nb, rsize, idx)
    requires forall j :: idx < j < i ==> !Marked(treemap, j)
    requires i < 32 ==> Marked(treemap, i)
    ensures i < 32 ==>
              && Root(i) in g.nodes && roots[i] == g.Head(Root(i)) != 0
              && Covered(g, nb, rsize, Root(i)) && AllFit(g, nb, Root(i))
    ensures i == 32 ==> AllBeaten(g, nb, rsize)
  {
    RootRange(nb);
    NextCovered(g, nb, rsize, idx, i);
    if i < 32 { Apart(g, Root(i), Root(i)); }
  }

  /** A fit in the bin itself beats the later bins. */
  lemma BinBeaten(g: Trie, nb: nat, rsize: nat, i: nat)
    requires BinDone(g, nb, rsize, i) && nb + rsize <= Hi(Root(i))
    ensures AllBeaten(g, nb, rsize)
  {
  }

  /** A small request fits in every chunk of the first non-empty bin and of the later ones. */
  lemma FirstRoot(head: map<nat, nat>, roots: seq<nat>, treemap: BinMap, g: Trie, nb: nat, i: nat)
    requires g.Valid() && Anchored(roots, treemap, g) && Sized(head, SizesOf(g)) && nb < MIN_LARGE_SIZE
    requires i < 32 && Marked(treemap, i) && forall j :: 0 <= j < i ==> !Marked(treemap, j)
    ensures Root(i) in g.nodes && roots[i] == g.Head(Root(i)) != 0
    ensures roots[i] in head && nb <= ChunkSize(head[roots[i]]) < WORD
    ensures var rsize := ChunkSize(head[roots[i]]) - nb;
            && Candidate(g, nb, roots[i], rsize) && Beaten(g, nb, rsize, Root(i))
            && Covered(g, nb, rsize, Root(i)) && AllFit(g, nb, Root(i))
  {
    var p := Root(i);
    NodeSize(head, g, p);
    FitsRange(g.nodes[p].size, p);
    var rsize := g.nodes[p].size - nb;
    forall q | q in g.nodes
      ensures Under(q, p) || g.nodes[q].size >= Hi(p)
      ensures nb <= g.nodes[q].size
    {
      FitsRange(g.nodes[q].size, q);
      BinCases(g.nodes[q].size, i);
      UnderRoot(q);
      Closed(g, q, Root(Bin(q)));
    }
  }
}
