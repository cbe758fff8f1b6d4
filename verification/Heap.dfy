/** The chunks that tile the segment of an arena, and their boundary tags. */
module Heap {
  // This is the shape that do_check_malloc_state and traverse_and_check describe. Every operation
  // of the allocator replaces a range of chunks by one or two others.

  import opened Sizes

  datatype Chunk = Chunk(size: nat, inuse: bool)

  /** Chunks by address, from the one that holds the malloc_state to the top chunk, which ends at `end`. */
  datatype Layout = Layout(chunks: map<nat, Chunk>, first: nat, top: nat, end: nat) {

    function Next(a: nat): nat {
      if a in chunks then a + chunks[a].size else a
    }

    predicate Inuse(a: nat) { a in chunks && chunks[a].inuse }

    predicate Free(a: nat) { a in chunks && !chunks[a].inuse }

    /** The chunk has a legal size and ends where another one begins; only the top chunk ends the segment. */
    predicate Tile(a: nat) {
      a in chunks ==>
        && first <= a <= top && a % 8 == 0
        && if a == top then !chunks[a].inuse && chunks[a].size > 0 && Next(a) == end
           else chunks[a].size >= MIN_CHUNK_SIZE && Next(a) in chunks
    }

    /** The chunks do not overlap. */
    predicate Apart(a: nat, b: nat) {
      a in chunks && b in chunks && a < b ==> Next(a) <= b
    }

    /** A free chunk is followed by a chunk in use, unless it is the top chunk. */
    predicate Coalesced(a: nat) {
      Free(a) && a != top ==> Inuse(Next(a))
    }

    ghost predicate Tiled() {
      && first in chunks && chunks[first] == Chunk(HEADER_SIZE, true) && top in chunks
      && (forall a {:trigger Tile(a)} :: Tile(a))
      && (forall a, b {:trigger Apart(a, b)} :: Apart(a, b))
      && (forall a {:trigger Coalesced(a)} :: Coalesced(a))
    }

    /**
     The range from chunk `a` to `e` can become a chunk of `k` bytes and one of the rest, in use as
     told by `f` and `g`.
     */
    predicate Fits(a: nat, k: nat, f: bool, e: nat, g: bool) {
      && a in chunks && first < a < a + k <= e && (e in chunks || e == end)
      && (a + k < e ==>
            (a + k) % 8 == 0 && k >= MIN_CHUNK_SIZE && (e < end ==> e - a - k >= MIN_CHUNK_SIZE) && (f || g))
      && (a + k == e < end ==> k >= MIN_CHUNK_SIZE)
      && (if e == end then !Last(a, k, f, e, g) else !Last(a, k, f, e, g) ==> Inuse(e))
    }

    /** Whether the last of the new chunks is in use. */
    predicate Last(a: nat, k: nat, f: bool, e: nat, g: bool) {
      if a + k < e then g else f
    }

    /** No free chunk ends at `a`. */
    ghost predicate Fenced(a: nat) {
      forall x {:trigger Tile(x)} :: Free(x) ==> Next(x) != a
    }

    function Recast(a: nat, k: nat, f: bool, e: nat, g: bool): Layout
      requires a + k <= e
    {
      var kept := chunks - (set x | x in chunks && a <= x < e);
      Layout(if a + k < e then kept[a := Chunk(k, f)][a + k := Chunk(e - a - k, g)] else kept[a := Chunk(k, f)],
             first,
             if a <= top < e then if a + k < e then a + k else a else top,
             end)
    }
  }

  /** What holds of every chunk. */
  lemma ChunkFacts(l: Layout, a: nat)
    requires l.Tiled() && a in l.chunks
    ensures a % 8 == 0 && a <= l.top < l.end && (a != l.first ==> a >= l.first + HEADER_SIZE)
    ensures a == l.top ==> l.Free(a) && l.Next(a) == l.end
    ensures a != l.top ==>
              && l.chunks[a].size % 8 == 0 && l.chunks[a].size >= MIN_CHUNK_SIZE
              && l.Next(a) in l.chunks && l.Next(a) <= l.top && l.Next(a) % 8 == 0
              && (l.Free(a) ==> l.Inuse(l.Next(a)) && l.Next(a) != l.top)
    ensures a != l.first && l.Free(a) ==> l.Fenced(a)
  {
    assert l.Tile(a) && l.Tile(l.top) && l.Apart(l.first, a) && l.Coalesced(a) && l.Tile(l.first);
    if a != l.top { assert l.Tile(l.Next(a)); }
    forall x | l.Free(x)
      ensures l.Free(a) ==> l.Next(x) != a
    {
      assert l.Coalesced(x) && l.Tile(x);
    }
  }

  /** The new chunks of a range. */
  lemma RecastAt(l: Layout, a: nat, k: nat, f: bool, e: nat, g: bool)
    requires a + k <= e && k > 0
    ensures var l' := l.Recast(a, k, f, e, g);
            && a in l'.chunks && l'.chunks[a] == Chunk(k, f)
            && (a + k < e ==> a + k in l'.chunks && l'.chunks[a + k] == Chunk(e - a - k, g))
            && l'.top == if a <= l.top < e then if a + k < e then a + k else a else l.top
  {
  }

  /** Chunks outside a range of chunks end outside of it. */
  lemma NextApart(l: Layout, a: nat, e: nat, x: nat)
    requires l.Tiled() && a in l.chunks && (e in l.chunks || e == l.end) && a < e && x in l.chunks && !(a <= x < e)
    ensures l.Next(x) <= a || l.Next(x) >= e
    ensures x < l.end && e <= l.end && (e == l.end <==> l.top < e)
    ensures x < a ==> l.Next(x) <= a && x != l.top
    ensures l.Next(x) > x
    ensures x != l.top ==> l.Next(x) in l.chunks
  {
    assert l.Apart(x, a) && l.Tile(x) && l.Tile(l.top) && l.Tile(a);
    assert e in l.chunks ==> l.Apart(e, x) && l.Tile(e);
  }

  /** Recasting a range keeps the heap tiled and coalesced. */
  lemma RecastTiled(l: Layout, a: nat, k: nat, f: bool, e: nat, g: bool)
    requires l.Tiled() && l.Fits(a, k, f, e, g) && (f || l.Fenced(a))
    ensures l.Recast(a, k, f, e, g).Tiled()
  {
    var l' := l.Recast(a, k, f, e, g);
    NextApart(l, a, e, l.first);
    assert l.Tile(a);
    forall x ensures l'.Tile(x) { RecastTile(l, a, k, f, e, g, x); }
    forall x, y
      ensures l'.Apart(x, y)
    {
      RecastApart(l, a, k, f, e, g, x, y);
    }
    forall x ensures l'.Coalesced(x) { RecastCoalesced(l, a, k, f, e, g, x); }
  }

  lemma RecastTile(l: Layout, a: nat, k: nat, f: bool, e: nat, g: bool, x: nat)
    requires l.Tiled() && l.Fits(a, k, f, e, g)
    ensures l.Recast(a, k, f, e, g).Tile(x)
  {
    NextApart(l, a, e, l.first);
    assert l.Tile(x) && l.Tile(a) && l.Tile(l.top) && l.Apart(l.top, e);
    assert e in l.chunks ==> l.Tile(e);
    if x in l.chunks && !(a <= x < e) { NextApart(l, a, e, x); }
  }

  lemma RecastApart(l: Layout, a: nat, k: nat, f: bool, e: nat, g: bool, x: nat, y: nat)
    requires l.Tiled() && l.Fits(a, k, f, e, g)
    ensures l.Recast(a, k, f, e, g).Apart(x, y)
  {
    assert l.Apart(x, y) && l.Tile(y);
    if x in l.chunks && !(a <= x < e) { NextApart(l, a, e, x); }
    if y in l.chunks && !(a <= y < e) { NextApart(l, a, e, y); }
  }

  lemma RecastCoalesced(l: Layout, a: nat, k: nat, f: bool, e: nat, g: bool, x: nat)
    requires l.Tiled() && l.Fits(a, k, f, e, g) && (f || l.Fenced(a))
    ensures l.Recast(a, k, f, e, g).Coalesced(x)
  {
    assert l.Coalesced(x) && l.Tile(x) && l.Tile(a);
    if x in l.chunks && !(a <= x < e) { NextApart(l, a, e, x); }
    if a in l.chunks { NextApart(l, a, e, l.first); }
  }

  // ----- the boundary tags -----

  /** The head word and the prev_foot word of each chunk address. */
  datatype Memory = Memory(head: map<nat, nat>, foot: map<nat, nat>)

  /**
   The head of chunk `a` tells its size and use and has no other bit set, and its use is known behind
   it, too. A top chunk need not be a multiple of eight bytes long.
   */
  predicate Tagged(l: Layout, m: Memory, a: nat) {
    a in l.chunks ==>
      var c, n := l.chunks[a], l.Next(a);
      && a in m.head && Cinuse(m.head[a]) == c.inuse && Bare(m.head[a]) == c.size
      && (if a == l.top then m.head[a] == SetPinuse(c.size) else ChunkSize(m.head[a]) == c.size)
      && n in m.head && Pinuse(m.head[n]) == c.inuse
      && (!c.inuse && a != l.top ==> n in m.foot && m.foot[n] == c.size)
  }

  ghost predicate Tags(l: Layout, m: Memory) {
    && l.first in m.head && Pinuse(m.head[l.first])
    && forall a {:trigger Tagged(l, m, a)} :: Tagged(l, m, a)
  }

  /** Two memories agree but for the words from `a` to `e`. */
  predicate SameOutside(m: Memory, m': Memory, a: nat, e: nat) {
    && (forall x :: x in m.head && (x < a || e < x) ==> x in m'.head && m'.head[x] == m.head[x])
    && (forall x :: x in m.foot && (x <= a || e < x) ==> x in m'.foot && m'.foot[x] == m.foot[x])
  }

  /** `m'` has the words of the new chunks, and the chunk at `e` knows of the last of them. */
  predicate Retagged(l: Layout, m: Memory, m': Memory, a: nat, k: nat, f: bool, e: nat, g: bool)
    requires a + k <= e
  {
    var l' := l.Recast(a, k, f, e, g);
    && SameOutside(m, m', a, e)
    && a in m.head && a in m'.head && Pinuse(m'.head[a]) == Pinuse(m.head[a])
    && e in m.head && e in m'.head && m'.head[e] / 2 == m.head[e] / 2
    && Tagged(l', m', a) && (a + k < e ==> Tagged(l', m', a + k))
  }

  lemma RecastTags(l: Layout, m: Memory, m': Memory, a: nat, k: nat, f: bool, e: nat, g: bool)
    requires l.Tiled() && Tags(l, m) && l.Fits(a, k, f, e, g) && Retagged(l, m, m', a, k, f, e, g)
    requires e == l.top ==> l.Last(a, k, f, e, g)
    ensures Tags(l.Recast(a, k, f, e, g), m')
  {
    var l' := l.Recast(a, k, f, e, g);
    NextApart(l, a, e, l.first);
    forall x: nat
      ensures Tagged(l', m', x)
    {
      assert Tagged(l, m, x);
      if x in l.chunks && x < a { TagBefore(l, m, m', a, k, f, e, g, x); }
      if x in l.chunks && x >= e { TagBehind(l, m, m', a, k, f, e, g, x); }
    }
  }

  lemma TagBefore(l: Layout, m: Memory, m': Memory, a: nat, k: nat, f: bool, e: nat, g: bool, x: nat)
    requires l.Tiled() && l.Fits(a, k, f, e, g) && Retagged(l, m, m', a, k, f, e, g)
    requires x in l.chunks && x < a && Tagged(l, m, x)
    ensures Tagged(l.Recast(a, k, f, e, g), m', x)
  {
    NextApart(l, a, e, x);
    var l', n := l.Recast(a, k, f, e, g), l.Next(x);
    assert l'.chunks[x] == l.chunks[x] && n <= a;
    assert m'.head[x] == m.head[x] && n in m'.head && Pinuse(m'.head[n]) == Pinuse(m.head[n]);
  }

  lemma TagBehind(l: Layout, m: Memory, m': Memory, a: nat, k: nat, f: bool, e: nat, g: bool, x: nat)
    requires l.Tiled() && l.Fits(a, k, f, e, g) && Retagged(l, m, m', a, k, f, e, g)
    requires e == l.top ==> l.Last(a, k, f, e, g)
    requires x in l.chunks && x >= e && Tagged(l, m, x)
    ensures Tagged(l.Recast(a, k, f, e, g), m', x)
  {
    NextApart(l, a, e, x);
    SameTag(m.head[e], m'.head[e]);
    if x == e && x == l.top { LastTag(l, m', a, k, f, e, g); }
  }

  lemma SameTag(h: nat, h': nat)
    requires h / 2 == h' / 2
    ensures Cinuse(h) == Cinuse(h') && ChunkSize(h) == ChunkSize(h') && Bare(h) == Bare(h')
    ensures Pinuse(h) == Pinuse(h') ==> h == h'
  {
    assert h == 8 * (h / 2 / 4) + h % 8 && h' == 8 * (h' / 2 / 4) + h' % 8;
  }

  lemma LastTag(l: Layout, m: Memory, a: nat, k: nat, f: bool, e: nat, g: bool)
    requires l.Fits(a, k, f, e, g)
    requires Tagged(l.Recast(a, k, f, e, g), m, if a + k < e then a + k else a)
    ensures e in m.head && Pinuse(m.head[e]) == l.Last(a, k, f, e, g)
  {
  }

  // ----- finding the chunk before a chunk -----

  /** The chunk before `p`, found by walking from `a`. */
  ghost function Walk(l: Layout, a: nat, p: nat): (x: nat)
    requires l.Tiled() && a in l.chunks && p in l.chunks && a < p
    ensures x in l.chunks && x != l.top && l.Next(x) == p
    decreases p - a
  {
    assert l.Tile(a) && l.Apart(a, p) && l.Tile(p);
    if l.Next(a) == p then a else Walk(l, l.Next(a), p)
  }

  ghost function Before(l: Layout, p: nat): (x: nat)
    requires l.Tiled() && p in l.chunks && p != l.first
    ensures x in l.chunks && x != l.top && l.Next(x) == p
  {
    assert l.Tile(p);
    Walk(l, l.first, p)
  }

  lemma BeforeUnique(l: Layout, p: nat, x: nat)
    requires l.Tiled() && p in l.chunks && p != l.first && x in l.chunks && l.Next(x) == p
    ensures Before(l, p) == x
  {
    assert l.Apart(x, Before(l, p)) && l.Apart(Before(l, p), x) && l.Tile(x) && l.Tile(Before(l, p));
  }

  /** The previous-in-use bit of a chunk tells about the chunk before it. */
  lemma PinuseBefore(l: Layout, m: Memory, p: nat)
    requires l.Tiled() && Tags(l, m) && p in l.chunks && p != l.first
    ensures p in m.head && Pinuse(m.head[p]) == l.Inuse(Before(l, p))
    ensures Pinuse(m.head[p]) <==> l.Fenced(p)
    ensures !Pinuse(m.head[p]) ==> p in m.foot && m.foot[p] == l.chunks[Before(l, p)].size
    ensures l.Free(p) ==> Pinuse(m.head[p])
  {
    var x := Before(l, p);
    assert Tagged(l, m, x) && l.Coalesced(x) && l.Tile(x);
    forall y | l.Free(y) && l.Next(y) == p
      ensures y == x
    {
      BeforeUnique(l, p, y);
    }
  }

  // ----- words -----

  lemma HeadBits(s: nat)
    requires s % 8 == 0
    ensures ChunkSize(s + 3) == s && Bare(s + 3) == s && Cinuse(s + 3) && Pinuse(s + 3)
    ensures ChunkSize(s + 2) == s && Bare(s + 2) == s && Cinuse(s + 2) && !Pinuse(s + 2)
    ensures SetPinuse(s) == s + 1 && ChunkSize(s + 1) == s && Bare(s + 1) == s && !Cinuse(s + 1) && Pinuse(s + 1)
  {
    FlagBits(s, 3);
    FlagBits(s, 2);
    FlagBits(s, 1);
  }

  lemma FlagBits(s: nat, b: nat)
    requires s % 8 == 0 && b < 4
    ensures ChunkSize(s + b) == s && (Cinuse(s + b) <==> b >= 2) && (Pinuse(s + b) <==> b % 2 == 1)
    ensures Bare(s + b) == s
  {
    Half(s + b, s / 8 * 4, b);
    Half((s + b) / 2, s / 8 * 2, b / 2);
    LowDigits(s + b, s / 8, b);
  }

  lemma Aligned(a: nat, b: nat)
    requires a % 8 == 0 && b % 8 == 0
    ensures (a + b) % 8 == 0
    ensures a >= b ==> (a - b) % 8 == 0
  {
    assert a + b == 8 * (a / 8 + b / 8) && a - b == 8 * (a / 8 - b / 8);
  }

  /** The flags of a word are in the three lowest digits. */
  lemma LowDigits(h: nat, q: nat, c: nat)
    requires h == 8 * q + c && c < 8
    ensures h % 8 == c && h / 2 == 4 * q + c / 2 && h / 2 % 2 == c / 2 % 2 && h % 2 == c % 2
  {
    Remainder8(h, q, c);
    HalfWord(h, q, c);
    EvenPart(h / 2, 2 * q, c / 2);
    EvenPart(h, 4 * q, c);
  }

  lemma Remainder8(h: nat, q: nat, c: nat)
    requires h == 8 * q + c && c < 8
    ensures h % 8 == c
  {
  }

  lemma Remainder4(h: nat, q: nat, c: nat)
    requires h == 4 * q + c && c < 4
    ensures h % 4 == c
  {
  }

  lemma Half(h: nat, q: nat, c: nat)
    requires h == 2 * q + c
    ensures h / 2 == q + c / 2
  {
  }

  lemma HalfWord(h: nat, q: nat, c: nat)
    requires h == 8 * q + c
    ensures h / 2 == 4 * q + c / 2
  {
  }

  lemma EvenPart(x: nat, k: nat, d: nat)
    requires x == 2 * k + d
    ensures x % 2 == d % 2
  {
  }

  lemma PinuseBits(h: nat)
    ensures Pinuse(SetPinuse(h)) && SetPinuse(h) / 2 == h / 2
    ensures !Pinuse(ClearPinuse(h)) && ClearPinuse(h) / 2 == h / 2
  {
  }

  /** Whatever a program writes into the payload of its block `p`, the tags stay in order. */
  lemma PayloadWrites(l: Layout, m: Memory, m': Memory, p: nat)
    requires l.Tiled() && Tags(l, m) && l.Inuse(p) && p != l.first
    requires forall x :: x in m.head && !(p + 8 <= x < l.Next(p)) ==> x in m'.head && m'.head[x] == m.head[x]
    requires forall x :: x in m.foot && !(p + 16 <= x <= l.Next(p)) ==> x in m'.foot && m'.foot[x] == m.foot[x]
    ensures Tags(l, m')
  {
    ChunkFacts(l, p);
    forall a: nat
      ensures Tagged(l, m', a)
    {
      assert Tagged(l, m, a);
      if a in l.chunks {
        ChunkFacts(l, a);
        assert l.Apart(a, p) && l.Apart(p, a) && l.Tile(a);
      }
    }
  }

  /** A top chunk of `s` bytes has a head that tells its size and its use. */
  predicate TopSize(s: nat) { Bare(SetPinuse(s)) == s && !Cinuse(SetPinuse(s)) }

  /** The flags of a head that is made of the size of a top chunk. */
  lemma TopFlags(s: nat)
    ensures TopSize(s) <==> s % 4 == 0
    ensures Cinuse(SetPinuse(s)) <==> s % 4 >= 2
    ensures Pinuse(SetPinuse(s))
  {
    var h, q, c := SetPinuse(s), s / 4, s % 4;
    var d := if c % 2 == 1 then c else c + 1;
    EvenPart(s, 2 * q, c);
    assert h == 4 * q + d;
    Half(h, 2 * q, d);
    Half(h / 2, q, d / 2);
    EvenPart(h / 2, q, d / 2);
    PinuseBits(s);
  }

  /** Top sizes that differ by whole alignment units have the same flags. */
  lemma SameTopFlags(s: nat, t: nat)
    requires s % 8 == t % 8
    ensures TopSize(s) <==> TopSize(t)
    ensures Cinuse(SetPinuse(s)) <==> Cinuse(SetPinuse(t))
    ensures Pinuse(SetPinuse(t))
  {
    TopFlags(s);
    TopFlags(t);
    QuarterOfEighth(s);
    QuarterOfEighth(t);
  }

  /** Whole alignment units leave the three lowest digits alone. */
  lemma CutDigits(s: nat, cut: nat)
    requires cut % 8 == 0 && cut <= s
    ensures (s - cut) % 8 == s % 8
  {
    Remainder8(s - cut, s / 8 - cut / 8, s % 8);
  }

  lemma QuarterOfEighth(x: nat)
    ensures x % 4 == x % 8 % 4
  {
    Remainder4(x, 2 * (x / 8) + x % 8 / 4, x % 8 % 4);
  }
}
