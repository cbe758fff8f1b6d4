/** The bitwise digital trees of a tree bin. */
module Tries {
  // A position in a tree is a path from the root of a bin; it owns a range of chunk sizes that is
  // halved at every step. The trie maps occupied positions to chains of same-sized chunks, whose
  // first chunk is the tree node. All of this is ghost: TreeBins ties it to the links in memory.

  import opened Words
  import opened Sizes
  import opened Rings

  datatype Pos = Root(bin: nat) | Left(up: Pos) | Right(up: Pos)

  function Bin(p: Pos): nat {
    match p
    case Root(i) => i
    case Left(u) => Bin(u)
    case Right(u) => Bin(u)
  }

  /** How many low digits are still free to differ among the sizes at or below `p`. */
  function Width(p: Pos): int {
    match p
    case Root(i) => if i == 31 then 64 else i / 2 + 7
    case Left(u) => Width(u) - 1
    case Right(u) => Width(u) - 1
  }

  function Lo(p: Pos): nat {
    match p
    case Root(i) => if i == 31 then 0 else MinSize(i)
    case Left(u) => Lo(u)
    case Right(u) => Lo(u) + Pow2(Width(u) - 1)
  }

  function Hi(p: Pos): nat { Lo(p) + Pow2(Width(p)) }

  predicate In(s: nat, p: Pos) { Lo(p) <= s < Hi(p) }

  /** `q` is `p` or below it. */
  predicate Under(q: Pos, p: Pos) {
    q == p || (!q.Root? && Under(q.up, p))
  }

  lemma Halves(p: Pos)
    requires Width(p) > 0
    ensures Lo(Left(p)) == Lo(p) && Hi(Left(p)) == Lo(Right(p)) && Hi(Right(p)) == Hi(p)
    ensures Lo(p) < Lo(Right(p)) < Hi(p)
  {
    var w := Width(p);
    assert Pow2(w) == 2 * Pow2(w - 1);
    assert Width(Left(p)) == w - 1 && Width(Right(p)) == w - 1;
  }

  lemma {:induction false} UnderRange(q: Pos, p: Pos)
    requires Under(q, p) && Width(q) >= 0
    ensures Bin(q) == Bin(p) && Width(q) <= Width(p)
    ensures Lo(p) <= Lo(q) && Hi(q) <= Hi(p)
    ensures q != p ==> Width(q) < Width(p)
  {
    if q != p {
      UnderRange(q.up, p);
      Halves(q.up);
    }
  }

  lemma {:induction false} UnderSplit(q: Pos, p: Pos)
    ensures Under(q, p) <==> q == p || Under(q, Left(p)) || Under(q, Right(p))
  {
    if !q.Root? && q != p {
      UnderSplit(q.up, p);
    }
  }

  lemma {:induction false} UnderRoot(q: Pos)
    ensures Under(q, Root(Bin(q)))
  {
    if !q.Root? { UnderRoot(q.up); }
  }

  // ----- the size digit that picks a child -----

  predicate Aligned(x: nat, w: int) {
    w <= 0 || (x % 2 == 0 && Aligned(x / 2, w - 1))
  }

  lemma {:induction false} AlignedPow2(k: int, w: int)
    requires k >= w
    ensures Aligned(Pow2(k), w)
  {
    if w > 0 {
      AlignedPow2(k - 1, w - 1);
      assert Pow2(k) / 2 == Pow2(k - 1);
    }
  }

  lemma {:induction false} AlignedSum(x: nat, y: nat, w: int)
    requires Aligned(x, w) && Aligned(y, w)
    ensures Aligned(x + y, w)
  {
    if w > 0 {
      AlignedSum(x / 2, y / 2, w - 1);
      assert (x + y) / 2 == x / 2 + y / 2 && (x + y) % 2 == 0;
    }
  }

  lemma {:induction false} AlignedLess(x: nat, w: int, v: int)
    requires Aligned(x, w) && v <= w
    ensures Aligned(x, v)
  {
    if v > 0 { AlignedLess(x / 2, w - 1, v - 1); }
  }

  lemma {:induction false} AlignedZero(w: int)
    ensures Aligned(0, w)
  {
    if w > 0 { AlignedZero(w - 1); }
  }

  lemma AlignedRoot(i: nat)
    ensures Aligned(Lo(Root(i)), Width(Root(i)))
  {
    var w := Width(Root(i));
    if i == 31 {
      AlignedZero(w);
    } else {
      AlignedPow2(i / 2 + 8, w);
      AlignedPow2(i / 2 + 7, w);
      AlignedSum(Pow2(i / 2 + 8), Pow2(i / 2 + 7), w);
    }
  }

  lemma {:induction false} AlignedLo(p: Pos)
    ensures Aligned(Lo(p), Width(p))
  {
    if p.Root? {
      AlignedRoot(p.bin);
    } else {
      var w := Width(p.up) - 1;
      AlignedLo(p.up);
      AlignedLess(Lo(p.up), w + 1, w);
      AlignedPow2(w, w);
      AlignedSum(Lo(p.up), Pow2(w), w);
    }
  }

  lemma {:induction false} UpperHalf(lo: nat, s: nat, w: nat)
    requires w > 0 && Aligned(lo, w) && lo <= s < lo + Pow2(w)
    ensures Bit(s, w - 1) <==> s >= lo + Pow2(w - 1)
  {
    if w > 1 { UpperHalf(lo / 2, s / 2, w - 1); }
  }

  /** Digit `Width(p) - 1` of a size within `p` tells the halves apart. */
  lemma BitDecides(s: nat, p: Pos)
    requires In(s, p) && Width(p) > 0
    ensures Bit(s, Width(p) - 1) <==> In(s, Right(p))
    ensures !Bit(s, Width(p) - 1) <==> In(s, Left(p))
  {
    AlignedLo(p);
    UpperHalf(Lo(p), s, Width(p));
    Halves(p);
  }

  // ----- the key of a descent: a size whose next digit is on top -----

  const TOP_BIT: nat := 0x8000_0000_0000_0000

  /** `x <<= 1` on a size_t. */
  function Double(x: nat): nat { if x < TOP_BIT then 2 * x else 2 * x - WORD }

  /** `x << n` on a size_t. */
  function Shift(x: nat, n: nat): nat
    decreases n
  {
    if n == 0 then x else Shift(Double(x), n - 1)
  }

  /** The shift that puts the digit deciding at a root of bin `i` on top. */
  function LeftShift(i: nat): nat { if i == 31 then 0 else if i / 2 < 57 then 57 - i / 2 else 0 }

  /** The key at `p`: the digits of `s` below the path, moved to the top. */
  function Key(s: nat, p: Pos): nat {
    if Width(p) <= 64 then Shift(s, 64 - Width(p)) else s
  }

  lemma {:induction false} ShiftStep(x: nat, n: nat)
    ensures Double(Shift(x, n)) == Shift(x, n + 1)
    decreases n
  {
    if n > 0 { ShiftStep(Double(x), n - 1); }
  }

  lemma {:induction false} ShiftIsShl(x: nat, n: nat, b: nat)
    requires x < Pow2(b) == WORD
    ensures Shift(x, n) == Shl(x, n, b)
    decreases n
  {
    if n > 0 { ShiftIsShl(Double(x), n - 1, b); }
  }

  lemma {:induction false} TopDigit(x: nat, b: nat)
    requires x < 2 * Pow2(b)
    ensures Bit(x, b) <==> x >= Pow2(b)
  {
    if b > 0 { TopDigit(x / 2, b - 1); }
  }

  lemma ShiftedDigit(x: nat, n: nat, b: nat)
    requires x < WORD && n < b && Pow2(b) == WORD
    ensures Shift(x, n) >= TOP_BIT <==> Bit(x, b - 1 - n)
  {
    ShiftIsShl(x, n, b);
    BitShl(x, n, b, b - 1);
    TopDigit(Shl(x, n, b), b - 1);
  }

  /** The top digit of the key picks the child on the path of the size, and doubling moves on. */
  lemma KeyDecides(s: nat, p: Pos)
    requires Fits(s, p) && Width(p) > 0
    ensures Key(s, p) >= TOP_BIT <==> Fits(s, Right(p))
    ensures Key(s, p) < TOP_BIT <==> Fits(s, Left(p))
    ensures Double(Key(s, p)) == Key(s, Left(p)) == Key(s, Right(p))
  {
    assert s < WORD && Width(p) <= 64 by {
      FitsRange(s, p);
      WidthBound(p);
    }
    KeyDigit(s, Width(p));
    ShiftStep(s, 64 - Width(p));
  }

  lemma KeyDigit(s: nat, w: nat)
    requires s < WORD && 0 < w <= 64
    ensures Shift(s, 64 - w) >= TOP_BIT <==> Bit(s, w - 1)
  {
    WordPow2(64);
    ShiftedDigit(s, 64 - w, 64);
  }

  lemma {:induction false} WidthBound(p: Pos)
    requires Bin(p) < 32
    ensures Width(p) <= 64
  {
    if !p.Root? { WidthBound(p.up); }
  }

  lemma RootKey(s: nat, i: nat)
    requires i < 32
    ensures Shift(s, LeftShift(i)) == Key(s, Root(i))
  {
  }

  /** A size lies in the range of the root of its bin. */
  lemma RootRange(s: nat)
    requires MIN_LARGE_SIZE <= s < WORD
    ensures TreeIndex(s) < 32 && In(s, Root(TreeIndex(s)))
  {
    IndexRange(s);
    var i := TreeIndex(s);
    if i == 31 {
      WordPow2(64);
    } else {
      NextMinSize(i);
    }
  }

  lemma WordPow2(n: nat)
    requires n == 64
    ensures Pow2(n) == WORD
  {
    Powers();
    var h, q := n / 2, n / 4;
    Pow2Sum(q, q);
    Pow2Sum(h, h);
  }

  lemma NextMinSize(i: nat)
    ensures MinSize(i + 1) == MinSize(i) + Pow2(i / 2 + 7)
  {
  }

  lemma {:induction false} MinSizeMonotone(i: nat, j: nat)
    requires i <= j
    ensures MinSize(i) <= MinSize(j)
  {
    if i < j {
      MinSizeMonotone(i, j - 1);
      NextMinSize(j - 1);
    }
  }

  /** Sizes of a later bin exceed all sizes of an earlier one. */
  lemma BinsOrdered(s: nat, t: nat)
    requires MIN_LARGE_SIZE <= s && MIN_LARGE_SIZE <= t && TreeIndex(s) < TreeIndex(t)
    ensures s < t
  {
    IndexRange(s);
    IndexRange(t);
    MinSizeMonotone(TreeIndex(s) + 1, TreeIndex(t));
  }

  /** A large size shares its digits with the path to `p`: digit by digit, 0 is left and 1 is right. */
  predicate Fits(s: nat, p: Pos) {
    match p
    case Root(i) => MIN_LARGE_SIZE <= s < WORD && TreeIndex(s) == i && i < 32
    case Left(u) => Fits(s, u) && Width(u) > 0 && !Bit(s, Width(u) - 1)
    case Right(u) => Fits(s, u) && Width(u) > 0 && Bit(s, Width(u) - 1)
  }

  /** The sizes that share the path are those of the range of the position. */
  lemma {:induction false} FitsRange(s: nat, p: Pos)
    requires Fits(s, p)
    ensures MIN_LARGE_SIZE <= s < WORD && TreeIndex(s) == Bin(p) < 32
    ensures Width(p) >= 0 && In(s, p)
  {
    if p.Root? {
      RootRange(s);
    } else {
      FitsRange(s, p.up);
      BitDecides(s, p.up);
    }
  }

  // ----- tries -----

  /** The chunks of one size: the tree node and those chained behind it. */
  datatype Node = Node(head: nat, rest: seq<nat>, size: nat) {

    function Chain(): seq<nat> { [head] + rest }

    predicate Has(a: nat) { a == head || a in rest }
  }

  /** `nodes` gives the node at each occupied position and `at` the position of each chunk. */
  datatype Trie = Trie(nodes: map<Pos, Node>, at: map<nat, Pos>) {

    function Head(p: Pos): nat {
      if p in nodes then nodes[p].head else 0
    }

    function SizeAt(p: Pos): nat {
      if p in nodes then nodes[p].size else 0
    }

    /** Each occupied position hangs below an occupied position. */
    ghost predicate Rooted() {
      forall p {:trigger p.up} :: p in nodes ==> p.Root? || p.up in nodes
    }

    /** Each tree node has a size of the range of its position. */
    ghost predicate Sized() {
      forall p {:trigger Fits(nodes[p].size, p)} :: p in nodes ==> Fits(nodes[p].size, p)
    }

    predicate Twins(p: Pos, q: Pos) {
      p in nodes && q in nodes && nodes[p].size == nodes[q].size
    }

    /** No two tree nodes have the same size. */
    ghost predicate Unique() {
      forall p, q :: Twins(p, q) ==> p == q
    }

    /** The chunks of the chain at `p` are found there. */
    predicate Houses(p: Pos) {
      p in nodes ==>
        && nodes[p].head !in nodes[p].rest
        && nodes[p].head in at && at[nodes[p].head] == p
        && forall k :: 0 <= k < |nodes[p].rest| ==> nodes[p].rest[k] in at && at[nodes[p].rest[k]] == p
    }

    /** The chunk is where it is said to be. */
    predicate Housed(a: nat) {
      a in at ==> a != 0 && at[a] in nodes && nodes[at[a]].Has(a)
    }

    /** Every chunk of every chain is located. */
    ghost predicate Located() {
      && (forall p {:trigger Houses(p)} :: Houses(p))
      && (forall a {:trigger Housed(a)} :: Housed(a))
    }

    ghost predicate Valid() {
      Rooted() && Sized() && Unique() && Located()
    }

    /** A new tree node. */
    function Grow(p: Pos, x: nat, s: nat): Trie {
      Trie(nodes[p := Node(x, [], s)], at[x := p])
    }

    /** `x` chained right behind the tree node at `p`. */
    function Chain(p: Pos, x: nat): Trie
      requires p in nodes
    {
      Trie(nodes[p := nodes[p].(rest := [x] + nodes[p].rest)], at[x := p])
    }

    /** The node at `p` loses the chunk `x` and is now `n`. */
    function Unchain(p: Pos, x: nat, n: Node): Trie {
      Trie(nodes[p := n], at - {x})
    }

    /** The position `q` is given up, with its whole chain. */
    function Detach(q: Pos): Trie {
      Trie(nodes - {q}, at - (set a | a in at && at[a] == q))
    }

    /** The tree node at `p` gives way to the node `n`, whose chunks move to `p`. */
    function Substitute(p: Pos, n: Node): Trie {
      Trie(nodes[p := n], (at - {Head(p)}) + (map c | c in n.Chain() :: p))
    }

    /** `n` has whatever else is chained at `p`, and otherwise only chunks from outside. */
    ghost predicate Heir(p: Pos, n: Node) {
      && p in nodes && n.head !in n.rest
      && (forall a :: n.Has(a) ==> a != 0 && a != nodes[p].head && (a in at ==> at[a] == p))
      && (forall a :: a in nodes[p].rest ==> n.Has(a))
    }
  }

  lemma HasChain(n: Node)
    ensures forall a :: n.Has(a) <==> a in n.Chain()
    ensures Distinct(n.Chain()) ==> n.head !in n.rest
  {
    var c := n.Chain();
    assert c[0] == n.head && forall k :: 0 < k < |c| ==> c[k] == n.rest[k - 1];
    assert forall k :: 0 <= k < |n.rest| ==> n.rest[k] == c[k + 1];
  }

  /** What lies below a position is cut off when the position is free. */
  lemma {:induction false} Closed(g: Trie, q: Pos, p: Pos)
    requires g.Rooted() && q in g.nodes && Under(q, p)
    ensures p in g.nodes
  {
    if q != p { Closed(g, q.up, p); }
  }

  /** All sizes in the left subtree of a node are below all sizes in the right one. */
  lemma SidesOrdered(g: Trie, p: Pos, q: Pos, r: Pos)
    requires g.Sized() && q in g.nodes && r in g.nodes && Under(q, Left(p)) && Under(r, Right(p))
    ensures g.nodes[q].size < g.nodes[r].size
  {
    FitsRange(g.nodes[q].size, q);
    FitsRange(g.nodes[r].size, r);
    UnderRange(q, Left(p));
    UnderRange(r, Right(p));
    Halves(p);
  }

  lemma NothingBelow(g: Trie, p: Pos)
    requires g.Rooted() && p !in g.nodes
    ensures forall q :: q in g.nodes ==> !Under(q, p)
  {
    forall q | q in g.nodes
      ensures !Under(q, p)
    {
      if Under(q, p) { Closed(g, q, p); }
    }
  }

  lemma {:induction false} FitsAbove(s: nat, q: Pos, p: Pos)
    requires Fits(s, q) && Under(q, p)
    ensures Fits(s, p)
  {
    if q != p { FitsAbove(s, q.up, p); }
  }

  lemma GrowValid(g: Trie, p: Pos, x: nat, s: nat)
    requires g.Valid() && p !in g.nodes && x !in g.at && x != 0
    requires (p.Root? || p.up in g.nodes) && Fits(s, p)
    requires forall q :: q in g.nodes ==> g.nodes[q].size != s
    ensures g.Grow(p, x, s).Valid()
  {
    GrowLocated(g, p, x, s);
    GrowUnique(g, p, x, s);
  }

  lemma GrowUnique(g: Trie, p: Pos, x: nat, s: nat)
    requires g.Unique() && forall q :: q in g.nodes ==> g.nodes[q].size != s
    ensures g.Grow(p, x, s).Unique()
  {
    forall q, r | g.Grow(p, x, s).Twins(q, r)
      ensures q == r
    {
      assert q != p && r != p ==> g.Twins(q, r);
    }
  }

  lemma SameUnique(g: Trie, g': Trie)
    requires g.Unique() && forall q :: q in g'.nodes ==> q in g.nodes && g'.nodes[q].size == g.nodes[q].size
    ensures g'.Unique()
  {
    forall q, r | g'.Twins(q, r)
      ensures q == r
    {
      assert g.Twins(q, r);
    }
  }

  lemma GrowLocated(g: Trie, p: Pos, x: nat, s: nat)
    requires g.Located() && p !in g.nodes && x !in g.at && x != 0
    ensures g.Grow(p, x, s).Located()
  {
    var g' := g.Grow(p, x, s);
    forall q ensures g'.Houses(q) { assert g.Houses(q); }
    forall a ensures g'.Housed(a) { assert g.Housed(a); }
  }

  lemma ChainValid(g: Trie, p: Pos, x: nat)
    requires g.Valid() && p in g.nodes && x !in g.at && x != 0
    ensures g.Chain(p, x).Valid()
  {
    ChainLocated(g, p, x);
    SameUnique(g, g.Chain(p, x));
  }

  lemma ChainLocated(g: Trie, p: Pos, x: nat)
    requires g.Located() && p in g.nodes && x !in g.at && x != 0
    ensures g.Chain(p, x).Located()
  {
    var g', r := g.Chain(p, x), g.nodes[p].rest;
    assert forall a :: a in [x] + r <==> a == x || a in r;
    forall q
      ensures g'.Houses(q)
    {
      assert g.Houses(q) && g.Houses(p);
      assert forall k :: 0 < k < |[x] + r| ==> ([x] + r)[k] == r[k - 1];
    }
    forall a ensures g'.Housed(a) { assert g.Housed(a); }
  }

  lemma UnchainValid(g: Trie, p: Pos, x: nat, n: Node)
    requires g.Valid() && p in g.nodes && g.nodes[p].Has(x) && n.size == g.nodes[p].size
    requires forall a :: n.Has(a) <==> g.nodes[p].Has(a) && a != x
    requires n.head !in n.rest
    ensures g.Unchain(p, x, n).Valid()
  {
    UnchainLocated(g, p, x, n);
    SameUnique(g, g.Unchain(p, x, n));
  }

  lemma UnchainLocated(g: Trie, p: Pos, x: nat, n: Node)
    requires g.Located() && p in g.nodes && g.nodes[p].Has(x)
    requires forall a :: n.Has(a) <==> g.nodes[p].Has(a) && a != x
    requires n.head !in n.rest
    ensures g.Unchain(p, x, n).Located()
  {
    var g' := g.Unchain(p, x, n);
    Together(g, p);
    assert n.Has(n.head);
    assert forall k :: 0 <= k < |n.rest| ==> n.Has(n.rest[k]);
    forall q
      ensures g'.Houses(q)
    {
      assert g.Houses(q);
      assert q in g.nodes && q != p ==> !g.nodes[q].Has(x);
    }
    forall a ensures g'.Housed(a) { assert g.Housed(a); }
  }

  /** A chunk is at `p` exactly when the chain at `p` has it. */
  lemma Together(g: Trie, p: Pos)
    requires g.Located() && p in g.nodes
    ensures forall a :: g.nodes[p].Has(a) <==> a in g.at && g.at[a] == p
  {
    assert g.Houses(p);
    forall a
      ensures g.nodes[p].Has(a) <==> a in g.at && g.at[a] == p
    {
      assert g.Housed(a);
    }
  }

  lemma Apart(g: Trie, p: Pos, q: Pos)
    requires g.Located() && p in g.nodes && q in g.nodes
    ensures g.Head(p) in g.at && g.Head(p) != 0
    ensures g.Head(p) == g.Head(q) <==> p == q
  {
    assert g.Houses(p) && g.Houses(q) && g.Housed(g.Head(p));
  }

  /** A leaf may go. */
  lemma DetachValid(g: Trie, q: Pos)
    requires g.Valid() && q in g.nodes && Left(q) !in g.nodes && Right(q) !in g.nodes
    ensures g.Detach(q).Valid()
  {
    SameUnique(g, g.Detach(q));
    DetachLocated(g, q);
    assert forall r {:trigger r.up} :: r in g.nodes && !r.Root? && r.up == q ==> r == Left(q) || r == Right(q);
  }

  lemma DetachLocated(g: Trie, q: Pos)
    requires g.Located()
    ensures g.Detach(q).Located()
  {
    forall r ensures g.Detach(q).Houses(r) { assert g.Houses(r); }
    forall a ensures g.Detach(q).Housed(a) { assert g.Housed(a); }
  }

  /** An heir whose size fits may take the place of a tree node; what hangs below `p` stays. */
  lemma SubstituteValid(g: Trie, p: Pos, n: Node)
    requires g.Valid() && g.Heir(p, n) && Fits(n.size, p)
    requires forall r :: r in g.nodes && r != p ==> g.nodes[r].size != n.size
    ensures g.Substitute(p, n).Valid()
  {
    SubstituteLocated(g, p, n);
    SubstituteUnique(g, p, n);
  }

  lemma SubstituteUnique(g: Trie, p: Pos, n: Node)
    requires g.Unique() && forall r :: r in g.nodes && r != p ==> g.nodes[r].size != n.size
    ensures g.Substitute(p, n).Unique()
  {
    forall q, r | g.Substitute(p, n).Twins(q, r)
      ensures q == r
    {
      assert q != p && r != p ==> g.Twins(q, r);
    }
  }

  lemma SubstituteLocated(g: Trie, p: Pos, n: Node)
    requires g.Located() && g.Heir(p, n)
    ensures g.Substitute(p, n).Located()
  {
    var g' := g.Substitute(p, n);
    Together(g, p);
    assert n.Has(n.head);
    HasChain(n);
    assert forall k :: 0 <= k < |n.rest| ==> n.Has(n.rest[k]);
    forall q
      ensures g'.Houses(q)
    {
      assert g.Houses(q);
    }
    forall a ensures g'.Housed(a) { assert g.Housed(a); }
  }
}
