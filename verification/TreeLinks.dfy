/**
 The link words of the large free chunks in memory, and how they thread a trie: chain links between
 chunks of one size, child and parent links between the heads of the chains.
 */
module TreeLinks {
  import opened Rings
  import opened Tries

  /** The fields of malloc_tree_chunk behind the head word, by chunk address; 0 is the null pointer. */
  datatype Links = Links(
    fd: map<nat, nat>, bk: map<nat, nat>,
    left: map<nat, nat>, right: map<nat, nat>, parent: map<nat, nat>, index: map<nat, nat>)

  /** The parent word of a tree node: the bin slot for a root. */
  function ParentWord(g: Trie, slots: nat, p: Pos): nat {
    if p.Root? then slots + 8 * p.bin else g.Head(p.up)
  }

  /** The child and parent words of the tree node at `p`. */
  predicate NodeLinked(m: Links, g: Trie, slots: nat, p: Pos) {
    var h := g.Head(p);
    && h in m.left && m.left[h] == g.Head(Left(p))
    && h in m.right && m.right[h] == g.Head(Right(p))
    && h in m.parent && m.parent[h] == ParentWord(g, slots, p)
  }

  /** A chunk without child pointers. */
  predicate Childless(m: Links, c: nat) {
    c in m.left && m.left[c] == 0 && c in m.right && m.right[c] == 0
  }

  /** A chained chunk that is no tree node has no tree links at all. */
  predicate Unlinked(m: Links, c: nat) {
    Childless(m, c) && c in m.parent && m.parent[c] == 0
  }

  /** The chunk knows its bin. */
  predicate Indexed(m: Links, c: nat, bin: nat) {
    c in m.index && m.index[c] == bin
  }

  /** A chain of bin `bin`. */
  ghost predicate Threaded(m: Links, n: Node, bin: nat) {
    && Ring(m.fd, m.bk, n.Chain())
    && Indexed(m, n.head, bin)
    && forall k :: 0 <= k < |n.rest| ==> Unlinked(m, n.rest[k]) && Indexed(m, n.rest[k], bin)
  }

  /** The chains outside `but` are linked. */
  ghost predicate Chained(m: Links, g: Trie, but: set<Pos>) {
    forall p {:trigger Threaded(m, g.nodes[p], Bin(p))} :: p in g.nodes && p !in but ==> Threaded(m, g.nodes[p], Bin(p))
  }

  ghost predicate Noded(m: Links, g: Trie, slots: nat) {
    forall p {:trigger NodeLinked(m, g, slots, p)} :: p in g.nodes ==> NodeLinked(m, g, slots, p)
  }

  ghost predicate Linked(m: Links, g: Trie, slots: nat) {
    Chained(m, g, {}) && Noded(m, g, slots)
  }

  /** `t->child[right] = to`. */
  function SetChild(m: Links, t: nat, right: bool, to: nat): Links {
    if right then m.(right := m.right[t := to]) else m.(left := m.left[t := to])
  }

  /** The slot that points to the node at `p`, in its parent, now points to `to`. */
  function SetSlot(m: Links, g: Trie, p: Pos, to: nat): Links {
    if p.Root? then m else SetChild(m, g.Head(p.up), p.Right?, to)
  }

  /** A child word is null exactly when the child's position is free. */
  lemma Children(m: Links, g: Trie, slots: nat, p: Pos)
    requires g.Located() && Noded(m, g, slots) && p in g.nodes
    ensures NodeLinked(m, g, slots, p)
    ensures g.Head(Left(p)) == 0 <==> Left(p) !in g.nodes
    ensures g.Head(Right(p)) == 0 <==> Right(p) !in g.nodes
  {
    assert NodeLinked(m, g, slots, p);
    if Left(p) in g.nodes { Apart(g, Left(p), p); }
    if Right(p) in g.nodes { Apart(g, Right(p), p); }
  }

  // ----- frames -----

  /** `f'` has the words of `f` at the chunks outside the chain of `p`. */
  predicate SameOff(f: map<nat, nat>, f': map<nat, nat>, g: Trie, p: Pos) {
    forall a :: a in g.at && g.at[a] != p && a in f ==> a in f' && f'[a] == f[a]
  }

  /** The tree links of chunk `a` are unchanged. */
  predicate SameNode(m: Links, m': Links, a: nat) {
    && (a in m.left ==> a in m'.left && m'.left[a] == m.left[a])
    && (a in m.right ==> a in m'.right && m'.right[a] == m.right[a])
    && (a in m.parent ==> a in m'.parent && m'.parent[a] == m.parent[a])
  }

  /** The tree links are unchanged but at the tree nodes and in the chain of `p`. */
  predicate SameRest(m: Links, m': Links, g: Trie, p: Pos) {
    forall a :: a in g.at && g.at[a] != p && a != g.Head(g.at[a]) ==> SameNode(m, m', a)
  }

  predicate SameIndex(f: map<nat, nat>, f': map<nat, nat>, g: Trie) {
    forall a :: a in g.at && a in f ==> a in f' && f'[a] == f[a]
  }

  lemma ThreadedFrame(m: Links, m': Links, n: Node, bin: nat)
    requires Threaded(m, n, bin) && SameLinks(m.fd, m.bk, m'.fd, m'.bk, n.Chain())
    requires Indexed(m', n.head, bin)
    requires forall k :: 0 <= k < |n.rest| ==> Unlinked(m', n.rest[k]) && Indexed(m', n.rest[k], bin)
    ensures Threaded(m', n, bin)
  {
    RingFrame(m.fd, m.bk, m'.fd, m'.bk, n.Chain());
  }

  /** Changes to the ring of `p` and to tree links of tree nodes leave the other chains alone. */
  lemma ChainedFrame(m: Links, m': Links, g: Trie, p: Pos)
    requires g.Located() && Chained(m, g, {p})
    requires SameOff(m.fd, m'.fd, g, p) && SameOff(m.bk, m'.bk, g, p) && SameIndex(m.index, m'.index, g)
    requires SameRest(m, m', g, p)
    ensures Chained(m', g, {p})
  {
    forall q | q in g.nodes && q != p
      ensures Threaded(m', g.nodes[q], Bin(q))
    {
      assert Threaded(m, g.nodes[q], Bin(q)) && g.Houses(q);
      var n := g.nodes[q];
      assert forall k :: 0 <= k < |n.rest| ==> n.rest[k] in n.rest && Unlinked(m, n.rest[k]);
      ThreadedFrame(m, m', n, Bin(q));
    }
  }

  lemma ChainedBut(m: Links, g: Trie, p: Pos)
    ensures Chained(m, g, {}) ==> Chained(m, g, {p})
    ensures Chained(m, g, {p}) && (p in g.nodes ==> Threaded(m, g.nodes[p], Bin(p))) ==> Chained(m, g, {})
  {
  }

  /** Redirecting a slot of a tree node leaves the chains alone. */
  lemma SlotChained(m: Links, g: Trie, p: Pos, to: nat)
    requires g.Located() && Chained(m, g, {}) && (p.Root? || p.up in g.nodes)
    ensures Chained(SetSlot(m, g, p, to), g, {})
  {
    var m' := SetSlot(m, g, p, to);
    forall q | q in g.nodes
      ensures Threaded(m', g.nodes[q], Bin(q))
    {
      assert Threaded(m, g.nodes[q], Bin(q)) && g.Houses(q);
      assert !p.Root? ==> g.Houses(p.up);
      var r := g.nodes[q].rest;
      assert forall k :: 0 <= k < |r| ==> r[k] in r && Unlinked(m, r[k]);
    }
  }

  // ----- a new tree node -----

  /** The words of an unchained tree node without children. */
  function Planted(m: Links, x: nat, parent: nat, bin: nat): Links {
    Links(m.fd[x := x], m.bk[x := x], m.left[x := 0], m.right[x := 0], m.parent[x := parent], m.index[x := bin])
  }

  lemma GrowLinked(m: Links, g: Trie, slots: nat, p: Pos, x: nat, s: nat)
    requires g.Rooted() && g.Located() && Linked(m, g, slots) && x !in g.at && x != 0
    requires p !in g.nodes && (p.Root? || p.up in g.nodes)
    ensures Linked(SetSlot(Planted(m, x, ParentWord(g, slots, p), Bin(p)), g, p, x), g.Grow(p, x, s), slots)
  {
    PlantChained(m, g, p, x, s, ParentWord(g, slots, p));
    GrowLocated(g, p, x, s);
    SlotChained(Planted(m, x, ParentWord(g, slots, p), Bin(p)), g.Grow(p, x, s), p, x);
    GrowNoded(m, g, slots, p, x, s);
  }

  lemma PlantChained(m: Links, g: Trie, p: Pos, x: nat, s: nat, parent: nat)
    requires g.Located() && Chained(m, g, {}) && x !in g.at && p !in g.nodes
    ensures Chained(Planted(m, x, parent, Bin(p)), g.Grow(p, x, s), {})
  {
    var m' := Planted(m, x, parent, Bin(p));
    ChainedBut(m, g, p);
    ChainedFrame(m, m', g, p);
    assert Ring(m'.fd, m'.bk, [x]);
    NewChain(m', g, g.Grow(p, x, s), p, Node(x, [], s));
  }

  lemma NewChain(m: Links, g: Trie, g': Trie, p: Pos, n: Node)
    requires Chained(m, g, {p}) && g'.nodes == g.nodes[p := n] && Threaded(m, n, Bin(p))
    ensures Chained(m, g', {})
  {
    forall q | q in g'.nodes
      ensures Threaded(m, g'.nodes[q], Bin(q))
    {
      assert q != p ==> Threaded(m, g.nodes[q], Bin(q));
    }
  }

  /** Links and tries that agree on the tree links of the tree nodes. */
  predicate SameTree(m: Links, m': Links, g: Trie, g': Trie) {
    && g'.nodes.Keys == g.nodes.Keys
    && forall p :: p in g.nodes ==> g'.Head(p) == g.Head(p) && SameNode(m, m', g.Head(p))
  }

  lemma NodedFrame(m: Links, m': Links, g: Trie, g': Trie, slots: nat)
    requires Noded(m, g, slots) && SameTree(m, m', g, g')
    ensures Noded(m', g', slots)
  {
    forall q | q in g'.nodes
      ensures NodeLinked(m', g', slots, q)
    {
      assert NodeLinked(m, g, slots, q);
    }
  }

  lemma GrowNoded(m: Links, g: Trie, slots: nat, p: Pos, x: nat, s: nat)
    requires g.Rooted() && g.Located() && Noded(m, g, slots) && x !in g.at && x != 0
    requires p !in g.nodes && (p.Root? || p.up in g.nodes)
    ensures Noded(SetSlot(Planted(m, x, ParentWord(g, slots, p), Bin(p)), g, p, x), g.Grow(p, x, s), slots)
  {
    var m', g' := SetSlot(Planted(m, x, ParentWord(g, slots, p), Bin(p)), g, p, x), g.Grow(p, x, s);
    assert Left(p).up == p && Right(p).up == p;
    if !p.Root? { Apart(g, p.up, p.up); }
    forall q | q in g'.nodes
      ensures NodeLinked(m', g', slots, q)
    {
      if q != p {
        assert NodeLinked(m, g, slots, q);
        Apart(g, q, if p.Root? then q else p.up);
      }
    }
  }

  // ----- a new chained chunk -----

  /** `x` linked behind the tree node `h`, and without tree links. */
  function Joined(m: Links, h: nat, x: nat, bin: nat): Links
    requires h in m.fd
  {
    var f := m.fd[h];
    Links(m.fd[h := x][x := f], m.bk[f := x][x := h],
          m.left[x := 0], m.right[x := 0], m.parent[x := 0], m.index[x := bin])
  }

  lemma ChainLinked(m: Links, g: Trie, slots: nat, p: Pos, x: nat)
    requires g.Located() && Linked(m, g, slots) && p in g.nodes && x !in g.at
    ensures g.Head(p) in m.fd
    ensures Linked(Joined(m, g.Head(p), x, Bin(p)), g.Chain(p, x), slots)
  {
    var n := g.nodes[p];
    assert Threaded(m, n, Bin(p));
    Together(g, p);
    JoinRing(m, n, x, Bin(p));
    var m' := Joined(m, g.Head(p), x, Bin(p));
    ChainedBut(m, g, p);
    ChainedFrame(m, m', g, p);
    JoinThreaded(m, n, x, Bin(p));
    NewChain(m', g, g.Chain(p, x), p, n.(rest := [x] + n.rest));
    JoinTree(m, g, p, x);
    NodedFrame(m, m', g, g.Chain(p, x), slots);
  }

  lemma JoinThreaded(m: Links, n: Node, x: nat, bin: nat)
    requires Threaded(m, n, bin) && !n.Has(x) && n.head in m.fd
    requires Ring(Joined(m, n.head, x, bin).fd, Joined(m, n.head, x, bin).bk, n.(rest := [x] + n.rest).Chain())
    ensures Threaded(Joined(m, n.head, x, bin), n.(rest := [x] + n.rest), bin)
  {
    var m' := Joined(m, n.head, x, bin);
    var r := [x] + n.rest;
    assert forall k :: 0 < k < |r| ==> r[k] == n.rest[k - 1] && r[k] in n.rest;
  }

  lemma JoinTree(m: Links, g: Trie, p: Pos, x: nat)
    requires g.Located() && p in g.nodes && x !in g.at && g.Head(p) in m.fd
    ensures SameTree(m, Joined(m, g.Head(p), x, Bin(p)), g, g.Chain(p, x))
  {
    forall q | q in g.nodes
      ensures g.Chain(p, x).Head(q) == g.Head(q)
      ensures SameNode(m, Joined(m, g.Head(p), x, Bin(p)), g.Head(q))
    {
      assert g.Houses(q);
    }
  }

  /** The ring gains `x`, and only words of the ring and of `x` change. */
  lemma JoinRing(m: Links, n: Node, x: nat, bin: nat)
    requires Ring(m.fd, m.bk, n.Chain()) && !n.Has(x)
    ensures n.head in m.fd && n.Has(m.fd[n.head])
    ensures var m' := Joined(m, n.head, x, bin);
            Ring(m'.fd, m'.bk, n.(rest := [x] + n.rest).Chain())
  {
    var c := n.Chain();
    HasChain(n);
    assert Points(m.fd, c, 0) && Succ(c, 0) in c;
    LinkSecond(m.fd, m.bk, c, x);
    assert n.(rest := [x] + n.rest).Chain() == InsertSecond(c, x);
  }

  // ----- unlinking a chunk from its ring -----

  /** `x` leaves its ring: its neighbours are joined. */
  function Parted(m: Links, x: nat): Links
    requires x in m.fd && x in m.bk
  {
    m.(fd := m.fd[m.bk[x] := m.fd[x]], bk := m.bk[m.fd[x] := m.bk[x]])
  }

  /** What is left of a chain of at least two chunks without its chunk `k`; the last one takes over as head. */
  function Remaining(n: Node, k: nat): Node
    requires k <= |n.rest| && n.rest != []
  {
    if k == 0 then Node(n.rest[|n.rest| - 1], n.rest[..|n.rest| - 1], n.size)
    else n.(rest := Without(n.rest, k - 1))
  }

  lemma PartRing(m: Links, n: Node, k: nat)
    requires Ring(m.fd, m.bk, n.Chain()) && n.rest != [] && k <= |n.rest|
    ensures var x := n.Chain()[k];
            && x in m.fd && x in m.bk && n.Has(m.fd[x]) && n.Has(m.bk[x]) && m.bk[x] != x
            && (k == 0 ==> m.bk[x] == Remaining(n, k).head)
            && Ring(Parted(m, x).fd, Parted(m, x).bk, Remaining(n, k).Chain())
  {
    var c := n.Chain();
    var x := c[k];
    assert Points(m.fd, c, k) && PointsBack(m.bk, c, k);
    HasChain(n);
    Unlink(m.fd, m.bk, c, k);
    RemainingChain(n, k);
    if k == 0 {
      Rotate(Parted(m, x).fd, Parted(m, x).bk, Without(c, 0));
    }
  }

  lemma RemainingChain(n: Node, k: nat)
    requires n.rest != [] && k <= |n.rest|
    ensures k == 0 ==> Remaining(n, k).Chain() == FromLast(Without(n.Chain(), 0))
    ensures k > 0 ==> Remaining(n, k).Chain() == Without(n.Chain(), k)
  {
  }

  lemma RemainingHas(n: Node, k: nat)
    requires Distinct(n.Chain()) && n.rest != [] && k <= |n.rest|
    ensures forall a :: Remaining(n, k).Has(a) <==> n.Has(a) && a != n.Chain()[k]
  {
    HasChain(n);
    HasChain(Remaining(n, k));
    UnlinkDistinct(n.Chain(), k);
    RemainingChain(n, k);
    FromLastElements(Without(n.Chain(), k));
  }

  lemma Parting(m: Links, g: Trie, p: Pos, k: nat)
    requires g.Located() && Chained(m, g, {}) && p in g.nodes && g.nodes[p].rest != [] && k <= |g.nodes[p].rest|
    ensures var x := g.nodes[p].Chain()[k];
            && x in m.fd && x in m.bk && m.bk[x] != x && x in g.at && g.at[x] == p
            && (k == 0 ==> m.bk[x] == Remaining(g.nodes[p], k).head)
            && Chained(Parted(m, x), g, {p})
            && Threaded(Parted(m, x), Remaining(g.nodes[p], k), Bin(p))
  {
    var n := g.nodes[p];
    assert Threaded(m, n, Bin(p));
    var x := n.Chain()[k];
    PartRing(m, n, k);
    Together(g, p);
    HasChain(n);
    ChainedBut(m, g, p);
    ChainedFrame(m, Parted(m, x), g, p);
    RemainingThreaded(m, n, k, x, Bin(p));
  }

  lemma RemainingThreaded(m: Links, n: Node, k: nat, x: nat, bin: nat)
    requires Threaded(m, n, bin) && n.rest != [] && k <= |n.rest| && x in m.fd && x in m.bk
    requires Ring(Parted(m, x).fd, Parted(m, x).bk, Remaining(n, k).Chain())
    ensures Threaded(Parted(m, x), Remaining(n, k), bin)
  {
    var n' := Remaining(n, k);
    assert Unlinked(m, n.rest[|n.rest| - 1]);
    assert forall j :: 0 <= j < |n'.rest| ==> n'.rest[j] == n.rest[if k == 0 || j < k - 1 then j else j + 1];
  }

  /** A chained chunk that is not the tree node leaves its chain. */
  lemma UnchainLinked(m: Links, g: Trie, slots: nat, p: Pos, k: nat)
    requires g.Located() && Linked(m, g, slots) && p in g.nodes && 0 < k <= |g.nodes[p].rest|
    ensures var x := g.nodes[p].rest[k - 1];
            && x in m.fd && x in m.bk
            && Linked(Parted(m, x), g.Unchain(p, x, Remaining(g.nodes[p], k)), slots)
  {
    var n := g.nodes[p];
    var x := n.rest[k - 1];
    assert n.Chain()[k] == x;
    Parting(m, g, p, k);
    var n', m' := Remaining(n, k), Parted(m, x);
    NewChain(m', g, g.Unchain(p, x, n'), p, n');
    NodedFrame(m, m', g, g.Unchain(p, x, n'), slots);
  }

  // ----- giving up a leaf -----

  /** Clearing the slot of a leaf takes its whole chain out of the tree. */
  lemma DetachLinked(m: Links, g: Trie, slots: nat, q: Pos)
    requires g.Rooted() && g.Located() && Linked(m, g, slots) && q in g.nodes
    requires Left(q) !in g.nodes && Right(q) !in g.nodes
    ensures Linked(SetSlot(m, g, q, 0), g.Detach(q), slots)
  {
    SlotChained(m, g, q, 0);
    FewerChained(SetSlot(m, g, q, 0), g, q);
    DetachNoded(m, g, slots, q);
  }

  lemma FewerChained(m: Links, g: Trie, q: Pos)
    requires Chained(m, g, {})
    ensures Chained(m, g.Detach(q), {})
  {
    var g' := g.Detach(q);
    forall r | r in g'.nodes
      ensures Threaded(m, g'.nodes[r], Bin(r))
    {
      assert Threaded(m, g.nodes[r], Bin(r));
    }
  }

  lemma DetachNoded(m: Links, g: Trie, slots: nat, q: Pos)
    requires g.Rooted() && g.Located() && Noded(m, g, slots) && q in g.nodes
    requires Left(q) !in g.nodes && Right(q) !in g.nodes
    ensures Noded(SetSlot(m, g, q, 0), g.Detach(q), slots)
  {
    var m', g' := SetSlot(m, g, q, 0), g.Detach(q);
    forall r | r in g'.nodes
      ensures NodeLinked(m', g', slots, r)
    {
      assert NodeLinked(m, g, slots, r);
      assert !r.Root? && r.up == q ==> r == Left(q) || r == Right(q);
      Apart(g, r, if q.Root? then q else q.up);
    }
  }

  // ----- replacing a tree node -----

  /** A word that is written only if `b`. */
  function Put(f: map<nat, nat>, b: bool, a: nat, v: nat): map<nat, nat> {
    if b then f[a := v] else f
  }

  /** `r` takes over the slot, the parent and the children of the tree node at `p`. */
  function Relinked(m: Links, g: Trie, slots: nat, p: Pos, r: nat): Links {
    var up, c0, c1 := if p.Root? then 0 else g.Head(p.up), g.Head(Left(p)), g.Head(Right(p));
    m.(left := Put(Put(m.left, p.Left?, up, r), c0 != 0, r, c0),
       right := Put(Put(m.right, p.Right?, up, r), c1 != 0, r, c1),
       parent := Put(Put(m.parent[r := ParentWord(g, slots, p)], c0 != 0, c0, r), c1 != 0, c1, r))
  }

  lemma SubstituteLinked(m: Links, g: Trie, slots: nat, p: Pos, n: Node)
    requires g.Rooted() && g.Located() && g.Heir(p, n)
    requires Chained(m, g, {p}) && Noded(m, g, slots)
    requires Threaded(m, n, Bin(p)) && Childless(m, n.head)
    ensures Linked(Relinked(m, g, slots, p, n.head), g.Substitute(p, n), slots)
  {
    SubstituteChained(m, g, slots, p, n);
    SubstituteNoded(m, g, slots, p, n);
  }

  lemma SubstituteChained(m: Links, g: Trie, slots: nat, p: Pos, n: Node)
    requires g.Rooted() && g.Located() && g.Heir(p, n)
    requires Chained(m, g, {p}) && Threaded(m, n, Bin(p))
    ensures Chained(Relinked(m, g, slots, p, n.head), g.Substitute(p, n), {})
  {
    var m' := Relinked(m, g, slots, p, n.head);
    RelinkedKept(m, g, slots, p, n.head);
    HeirThreaded(m, m', g, p, n);
    ChainedFrame(m, m', g, p);
    NewChain(m', g, g.Substitute(p, n), p, n);
  }

  /** Only tree links of the tree nodes and of `r` differ. */
  ghost predicate Kept(m: Links, m': Links, g: Trie, r: nat) {
    && m'.fd == m.fd && m'.bk == m.bk && m'.index == m.index
    && forall a :: a !in Heads(g) && a != r && a != 0 ==> SameNode(m, m', a)
  }

  ghost function Heads(g: Trie): set<nat> {
    set p | p in g.nodes :: g.nodes[p].head
  }

  lemma RelinkedKept(m: Links, g: Trie, slots: nat, p: Pos, r: nat)
    requires g.Rooted() && p in g.nodes
    ensures Kept(m, Relinked(m, g, slots, p, r), g, r)
  {
    assert !p.Root? ==> g.Head(p.up) in Heads(g);
    assert Left(p) in g.nodes ==> g.Head(Left(p)) in Heads(g);
    assert Right(p) in g.nodes ==> g.Head(Right(p)) in Heads(g);
  }

  /** The heirs that were not tree nodes are still none. */
  lemma HeirThreaded(m: Links, m': Links, g: Trie, p: Pos, n: Node)
    requires g.Located() && g.Heir(p, n) && Threaded(m, n, Bin(p)) && Kept(m, m', g, n.head)
    ensures Threaded(m', n, Bin(p)) && SameRest(m, m', g, p)
  {
    forall q | q in g.nodes
      ensures g.Head(q) !in n.rest && (forall a :: a in g.at && a != g.Head(g.at[a]) ==> a != g.Head(q))
    {
      assert g.Houses(q);
      assert n.Has(g.Head(q)) ==> g.Head(q) != g.Head(p);
    }
    forall k | 0 <= k < |n.rest|
      ensures SameNode(m, m', n.rest[k])
    {
      assert n.Has(n.rest[k]);
    }
    assert n.Has(n.head);
    forall a | a in g.at
      ensures a != 0 && (g.at[a] != p ==> a != n.head)
    {
      assert g.Housed(a);
    }
  }

  lemma SubstituteNoded(m: Links, g: Trie, slots: nat, p: Pos, n: Node)
    requires g.Rooted() && g.Located() && g.Heir(p, n) && Noded(m, g, slots) && Childless(m, n.head)
    ensures Noded(Relinked(m, g, slots, p, n.head), g.Substitute(p, n), slots)
  {
    var m', g' := Relinked(m, g, slots, p, n.head), g.Substitute(p, n);
    assert n.Has(n.head);
    forall q | q in g'.nodes
      ensures NodeLinked(m', g', slots, q)
    {
      if q == p {
        NewNode(m, g, slots, p, n);
      } else {
        Apart(g, q, q);
        assert g.Houses(q);
        OtherNode(m, g, slots, p, n, q);
      }
    }
  }

  lemma NewNode(m: Links, g: Trie, slots: nat, p: Pos, n: Node)
    requires g.Rooted() && g.Located() && g.Heir(p, n) && Noded(m, g, slots) && Childless(m, n.head)
    ensures NodeLinked(Relinked(m, g, slots, p, n.head), g.Substitute(p, n), slots, p)
  {
    assert n.Has(n.head);
    NotHead(g, p, n);
  }

  /** The heir is not yet a tree node. */
  lemma NotHead(g: Trie, p: Pos, n: Node)
    requires g.Located() && g.Heir(p, n)
    ensures forall q :: q in g.nodes ==> n.head != g.Head(q)
  {
    assert n.Has(n.head);
    forall q | q in g.nodes
      ensures n.head != g.Head(q)
    {
      assert g.Houses(q);
    }
  }

  lemma OtherNode(m: Links, g: Trie, slots: nat, p: Pos, n: Node, q: Pos)
    requires g.Rooted() && g.Located() && g.Heir(p, n) && Noded(m, g, slots)
    requires q in g.nodes && q != p && n.head != g.Head(q)
    ensures NodeLinked(Relinked(m, g, slots, p, n.head), g.Substitute(p, n), slots, q)
  {
    var m', g' := Relinked(m, g, slots, p, n.head), g.Substitute(p, n);
    assert NodeLinked(m, g, slots, q);
    assert g'.Head(q) == g.Head(q);
    OtherChildren(m, g, slots, p, n, q);
    OtherParent(m, g, slots, p, n, q);
  }

  lemma OtherChildren(m: Links, g: Trie, slots: nat, p: Pos, n: Node, q: Pos)
    requires g.Rooted() && g.Located() && g.Heir(p, n) && NodeLinked(m, g, slots, q)
    requires q in g.nodes && q != p && n.head != g.Head(q)
    ensures var m', g', h := Relinked(m, g, slots, p, n.head), g.Substitute(p, n), g.Head(q);
            && h in m'.left && m'.left[h] == g'.Head(Left(q))
            && h in m'.right && m'.right[h] == g'.Head(Right(q))
  {
    Apart(g, q, if p.Root? then q else p.up);
  }

  lemma OtherParent(m: Links, g: Trie, slots: nat, p: Pos, n: Node, q: Pos)
    requires g.Rooted() && g.Located() && g.Heir(p, n) && NodeLinked(m, g, slots, q)
    requires q in g.nodes && q != p && n.head != g.Head(q)
    ensures var m', g', h := Relinked(m, g, slots, p, n.head), g.Substitute(p, n), g.Head(q);
            && h in m'.parent && m'.parent[h] == ParentWord(g', slots, q)
  {
    Apart(g, q, if Left(p) in g.nodes then Left(p) else q);
    Apart(g, q, if Right(p) in g.nodes then Right(p) else q);
    assert q == Left(p) || q == Right(p) <==> !q.Root? && q.up == p;
  }
}
