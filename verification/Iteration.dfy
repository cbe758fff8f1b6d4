/** Iterators over an unmodified hash table, sequential and among threads. */
module Iteration {
  import opened Options
  import opened HashBins
  import opened HashTables

  // ----- what is to be visited -----

  /** The nodes of the buckets from `a` to `b`. */
  function Flat(space: Space, a: nat, b: nat): seq<Node>
    decreases b - a
  {
    if a >= b || a >= |space| then [] else space[a] + Flat(space, a + 1, b)
  }

  /** The nodes of the bins from `a` on. */
  function FlatBins(spaces: seq<Space>, a: nat): seq<Node>
    decreases |spaces| - a
  {
    if a >= |spaces| then [] else Flat(spaces[a], 0, |spaces[a]|) + FlatBins(spaces, a + 1)
  }

  /** How many nodes have the key. */
  function Times(s: seq<Node>, key: nat): nat {
    if s == [] then 0 else (if s[0].key == key then 1 else 0) + Times(s[1..], key)
  }

  lemma {:induction false} TimesSum(s: seq<Node>, t: seq<Node>, key: nat)
    ensures Times(s + t, key) == Times(s, key) + Times(t, key)
  {
    if s == [] {
      assert s + t == t;
    } else {
      assert (s + t)[1..] == s[1..] + t;
      TimesSum(s[1..], t, key);
    }
  }

  lemma {:induction false} FlatSplit(space: Space, a: nat, m: nat, b: nat)
    requires a <= m <= b
    ensures Flat(space, a, b) == Flat(space, a, m) + Flat(space, m, b)
    decreases m - a
  {
    if a < m { FlatSplit(space, a + 1, m, b); }
  }

  lemma {:induction false} TimesOnce(bucket: seq<Node>, key: nat)
    requires forall i, j :: 0 <= i < j < |bucket| ==> bucket[i].key != bucket[j].key
    ensures Times(bucket, key) == if HasKey(bucket, key) then 1 else 0
  {
    if bucket != [] {
      var rest := bucket[1..];
      assert forall i :: 0 <= i < |rest| ==> rest[i] == bucket[i + 1];
      TimesOnce(rest, key);
      assert bucket[0].key == key ==> !HasKey(rest, key);
    }
  }

  /** The buckets from `a` on have each pair that belongs there once. */
  lemma {:induction false} BucketsOnce(l: Layout, space: Space, pairs: map<nat, nat>, a: nat, key: nat)
    requires l.Valid() && l.Holds(space, pairs) && a <= |space| && space != []
    ensures Times(Flat(space, a, |space|), key) == if key in pairs && l.SlotOf(key, |space|) >= a then 1 else 0
    decreases |space| - a
  {
    if a < |space| {
      assert l.BucketOk(space, pairs, a);
      TimesOnce(space[a], key);
      FoundPair(l, space, pairs, key);
      NotElsewhere(l, space, pairs, a, key);
      BucketsOnce(l, space, pairs, a + 1, key);
      TimesSum(space[a], Flat(space, a + 1, |space|), key);
    }
  }

  lemma NotElsewhere(l: Layout, space: Space, pairs: map<nat, nat>, b: nat, key: nat)
    requires l.Valid() && l.Holds(space, pairs) && b < |space|
    ensures HasKey(space[b], key) ==> l.SlotOf(key, |space|) == b && key in pairs
  {
    assert l.BucketOk(space, pairs, b);
    if HasKey(space[b], key) { assert space[b][IndexOf(space[b], key)].key == key; }
  }

  /** All nodes are pairs of the map. */
  lemma {:induction false} BucketsPairs(l: Layout, space: Space, pairs: map<nat, nat>, a: nat, b: nat)
    requires l.Valid() && l.Holds(space, pairs)
    ensures forall n :: n in Flat(space, a, b) ==> n.key in pairs && pairs[n.key] == n.value
    decreases b - a
  {
    if a < b && a < |space| {
      assert l.BucketOk(space, pairs, a);
      BucketsPairs(l, space, pairs, a + 1, b);
    }
  }

  // ----- the iterator over one bin -----

  class BucketSpaceIterator {
    const buckets: Space
    const end: nat
    var curr: nat
    var index: nat

    ghost predicate Valid()
      reads this
    {
      end <= |buckets| && (curr < end ==> index < |buckets[curr]|)
    }

    /** What is still to be visited. */
    ghost function Remaining(): seq<Node>
      reads this
      requires Valid()
    {
      if curr < end then buckets[curr][index..] + Flat(buckets, curr + 1, end) else []
    }

    constructor (buckets: Space, start: nat, endBucket: nat)
      ensures Valid() && this.buckets == buckets
      ensures Remaining() == Flat(buckets, start, if endBucket < |buckets| then endBucket else |buckets|)
    {
      this.buckets := buckets;
      end := if endBucket < |buckets| then endBucket else |buckets|;
      curr := start;
      index := 0;
      new;
      FindNext();
    }

    method FindNext()
      requires end <= |buckets| && index == 0
      modifies this
      ensures Valid() && Remaining() == Flat(buckets, old(curr), end)
    {
      while curr < end
        invariant index == 0 && Flat(buckets, curr, end) == Flat(buckets, old(curr), end)
        decreases end - curr
      {
        if buckets[curr] != [] { return; }
        curr := curr + 1;
      }
    }

    predicate IsEnd()
      reads this
      requires Valid()
      ensures IsEnd() <==> Remaining() == []
    {
      curr >= end
    }

    function Current(): Node
      reads this
      requires Valid() && !IsEnd()
      ensures Remaining() != [] && Current() == Remaining()[0]
    {
      buckets[curr][index]
    }

    method Next() returns (more: bool)
      requires Valid()
      modifies this
      ensures Valid() && more == !IsEnd()
      ensures Remaining() == if old(Remaining()) == [] then [] else old(Remaining())[1..]
    {
      if curr >= end { return false; }
      assert Remaining()[1..] == buckets[curr][index + 1..] + Flat(buckets, curr + 1, end);
      index := index + 1;
      if index < |buckets[curr]| { return true; }
      curr := curr + 1;
      index := 0;
      FindNext();
      more := curr < end;
    }
  }

  // ----- the iterator over the table -----

  class TableIterator {
    const spaces: seq<Space>
    var curr: nat
    var sub: BucketSpaceIterator

    ghost predicate Valid()
      reads this, sub
    {
      sub.Valid() && (curr < |spaces| ==> !sub.IsEnd())
    }

    ghost function Remaining(): seq<Node>
      reads this, sub
      requires Valid()
    {
      if curr < |spaces| then sub.Remaining() + FlatBins(spaces, curr + 1) else []
    }

    constructor (spaces: seq<Space>, start: nat)
      ensures Valid() && Remaining() == FlatBins(spaces, start) && fresh(sub)
    {
      this.spaces := spaces;
      curr := start;
      sub := new BucketSpaceIterator([], 0, 0);
      new;
      FindNext();
    }

    method FindNext()
      requires sub.Valid()
      modifies this
      ensures Valid() && Remaining() == FlatBins(spaces, old(curr)) && (sub == old(sub) || fresh(sub))
    {
      while curr < |spaces|
        invariant sub.Valid() && (sub == old(sub) || fresh(sub))
        invariant FlatBins(spaces, curr) == FlatBins(spaces, old(curr))
        decreases |spaces| - curr
      {
        sub := new BucketSpaceIterator(spaces[curr], 0, |spaces[curr]|);
        if !sub.IsEnd() { return; }
        curr := curr + 1;
      }
    }

    predicate IsEnd()
      reads this, sub
      requires Valid()
      ensures IsEnd() <==> Remaining() == []
    {
      curr >= |spaces|
    }

    function Current(): Node
      reads this, sub
      requires Valid() && !IsEnd()
      ensures Remaining() != [] && Current() == Remaining()[0]
    {
      sub.Current()
    }

    method Next() returns (more: bool)
      requires Valid()
      modifies this, sub
      ensures Valid() && more == !IsEnd() && (sub == old(sub) || fresh(sub))
      ensures Remaining() == if old(Remaining()) == [] then [] else old(Remaining())[1..]
    {
      if curr >= |spaces| { return false; }
      Tail(sub.Remaining(), FlatBins(spaces, curr + 1));
      more := sub.Next();
      if !more {
        curr := curr + 1;
        FindNext();
        more := curr < |spaces|;
      }
    }
  }

  lemma Tail(s: seq<Node>, t: seq<Node>)
    requires s != []
    ensures s + t != [] && (s + t)[1..] == s[1..] + t
    ensures s[1..] == [] ==> (s + t)[1..] == t
  {
  }

  lemma Advance(v: seq<Node>, r: seq<Node>)
    requires r != []
    ensures v + [r[0]] + r[1..] == v + r
  {
  }

  /** A loop from begin() to end(). */
  method VisitAll(spaces: seq<Space>) returns (visited: seq<Node>)
    ensures visited == FlatBins(spaces, 0)
  {
    var it := new TableIterator(spaces, 0);
    visited := [];
    while !it.IsEnd()
      invariant it.Valid() && fresh(it) && fresh(it.sub) && visited + it.Remaining() == FlatBins(spaces, 0)
      decreases |it.Remaining()|
    {
      Advance(visited, it.Remaining());
      visited := visited + [it.Current()];
      var _ := it.Next();
    }
  }

  // ----- the whole table -----

  ghost function Spaces(table: HashTable): seq<Space>
    reads table, table.Objects()
  {
    seq(|table.bins|, i requires 0 <= i < |table.bins| reads table, table.Objects() => table.bins[i].buckets)
  }

  /** The bins from `a` on have each pair that belongs there once. */
  lemma {:induction false} TableOnce(table: HashTable, a: nat, key: nat)
    requires table.Valid() && a <= |table.bins|
    ensures Times(FlatBins(Spaces(table), a), key) ==
              if key in table.pairs && BinOf(table.layout, key) >= a then 1 else 0
    decreases |table.bins| - a
  {
    if a < |table.bins| {
      assert table.BinOk(a);
      BinOnce(table, a, key);
      TableOnce(table, a + 1, key);
      TimesSum(Flat(Spaces(table)[a], 0, |Spaces(table)[a]|), FlatBins(Spaces(table), a + 1), key);
    }
  }

  lemma BinOnce(table: HashTable, i: nat, key: nat)
    requires table.Valid() && i < |table.bins|
    ensures var space := table.bins[i].buckets;
            Times(Flat(space, 0, |space|), key) ==
              if key in table.pairs && BinOf(table.layout, key) == i then 1 else 0
  {
    assert table.BinOk(i);
    BucketsOnce(table.layout, table.bins[i].buckets, table.bins[i].pairs, 0, key);
  }

  lemma {:induction false} TablePairs(table: HashTable, a: nat)
    requires table.Valid()
    ensures forall n :: n in FlatBins(Spaces(table), a) ==> n.key in table.pairs && table.pairs[n.key] == n.value
    decreases |table.bins| - a
  {
    if a < |table.bins| {
      assert table.BinOk(a);
      BucketsPairs(table.layout, table.bins[a].buckets, table.bins[a].pairs, 0, |table.bins[a].buckets|);
      TablePairs(table, a + 1);
    }
  }

  /** Iteration from begin() to end() visits every pair exactly once. */
  method Iterate(table: HashTable) returns (visited: seq<Node>)
    requires table.Valid()
    ensures forall key :: Times(visited, key) == if key in table.pairs then 1 else 0
    ensures forall n :: n in visited ==> n.key in table.pairs && table.pairs[n.key] == n.value
  {
    var spaces := [];
    var i := 0;
    while i < |table.bins|
      invariant 0 <= i <= |table.bins| && |spaces| == i
      invariant forall j :: 0 <= j < i ==> spaces[j] == table.bins[j].buckets
    {
      spaces := spaces + [table.bins[i].buckets];
      i := i + 1;
    }
    assert spaces == Spaces(table);
    ghost var all, pairs := FlatBins(spaces, 0), table.pairs;
    TablePairs(table, 0);
    forall key: nat ensures Times(all, key) == if key in pairs then 1 else 0 { TableOnce(table, 0, key); }
    visited := VisitAll(spaces);
  }

  // ----- parallel iteration -----

  /** A share of a bin: the buckets from `start` to `end`. */
  datatype Unit = Unit(space: Space, start: nat, end: nat)

  function NodesOf(u: Unit): seq<Node> { Flat(u.space, u.start, u.end) }

  /** How often the units visit the key. */
  function Visits(units: seq<Unit>, key: nat): nat {
    if units == [] then 0 else Visits(units[..|units| - 1], key) + Times(NodesOf(units[|units| - 1]), key)
  }

  lemma VisitsMore(units: seq<Unit>, u: Unit, key: nat)
    ensures Visits(units + [u], key) == Visits(units, key) + Times(NodesOf(u), key)
  {
    assert (units + [u])[..|units|] == units;
  }

  /** The shares `i * n / units` of `n` buckets. */
  function Share(i: nat, n: nat, units: nat): nat
    requires units > 0
  {
    i * n / units
  }

  lemma ShareBounds(i: nat, n: nat, units: nat)
    requires i < units
    ensures Share(i, n, units) <= Share(i + 1, n, units) <= n
    ensures Share(0, n, units) == 0 && Share(units, n, units) == n
  {
    SpreadOrder(i, i + 1, n, units);
    SpreadOrder(i + 1, units, n, units);
    var q := units * n / units;
    assert units * q <= units * n < units * q + units;
    assert q >= n + 1 ==> units * q >= units * (n + 1);
    assert q <= n - 1 ==> units * q <= units * (n - 1);
  }

  const WORD_SIZE: nat := 0x1_0000_0000_0000_0000

  /** How many bins are on the node. */
  ghost function BinsOn(table: HashTable, node: nat): nat { multiset(table.binNodes)[node] }

  /** Whether `count + minUnits - 1` neither falls below `count` nor wraps around. */
  predicate Splittable(count: nat, minUnits: nat) { 1 <= minUnits <= WORD_SIZE - count }

  /** The key is in a bin of the node. */
  ghost predicate Lives(table: HashTable, key: nat, node: nat)
    requires table.layout.Valid() && |table.binNodes| == table.layout.binCount
    reads table
  {
    key in table.pairs && table.binNodes[BinOf(table.layout, key)] == node
  }

  /** The units visit each pair of the node once if `minUnits` is in range, and nothing otherwise. */
  ghost predicate Covers(table: HashTable, node: nat, minUnits: nat, units: seq<Unit>)
    requires table.layout.Valid() && |table.binNodes| == table.layout.binCount
    reads table
  {
    forall key ::
      Visits(units, key) == if Lives(table, key, node) && Splittable(BinsOn(table, node), minUnits) then 1 else 0
  }

  /** The units visit only pairs of the map. */
  ghost predicate Visiting(units: seq<Unit>, pairs: map<nat, nat>) {
    forall u, n :: u in units && n in NodesOf(u) ==> n.key in pairs && pairs[n.key] == n.value
  }

  class ParallelIteration {
    const iters: seq<Unit>
    var counter: nat

    constructor (iters: seq<Unit>)
      ensures this.iters == iters && counter == 0
    {
      this.iters := iters;
      counter := 0;
    }

    /** Claims the next unit; the counter is advanced atomically, so any number of threads may call this. */
    method Get() returns (unit: Option<Unit>)
      modifies this
      ensures counter == old(counter) + 1
      ensures unit == if old(counter) < |iters| then Some(iters[old(counter)]) else None
    {
      var next := counter;
      counter := counter + 1;
      unit := if next < |iters| then Some(iters[next]) else None;
    }
  }

  /**
   Splits the bins of a node into units. The code divides by the number of bins: a node without any
   is a division by zero, here None.
   */
  method SplitNode(table: HashTable, node: nat, minUnits: nat) returns (units: Option<seq<Unit>>)
    requires table.Valid() && minUnits < WORD_SIZE && |table.bins| < WORD_SIZE
    ensures units == None <==> node !in table.binNodes
    ensures units.Some? ==> Covers(table, node, minUnits, units.value) && Visiting(units.value, table.pairs)
    ensures units.Some? && minUnits <= 64 && Splittable(BinsOn(table, node), minUnits) ==>
              |units.value| >= minUnits
  {
    units := None;
    var count := CountBins(table, node);
    if count > 0 {
      StillValid(table);
      var made := SplitCounted(table, node, minUnits, count);
      units := Some(made);
    }
  }

  method SplitCounted(table: HashTable, node: nat, minUnits: nat, count: nat) returns (units: seq<Unit>)
    requires table.Valid() && minUnits < WORD_SIZE && |table.bins| < WORD_SIZE && 0 < count == BinsOn(table, node)
    ensures Covers(table, node, minUnits, units) && Visiting(units, table.pairs)
    ensures minUnits <= 64 && Splittable(count, minUnits) ==> |units| >= minUnits
  {
    PartCount(table.binNodes, node);
    Quotient(count, minUnits);
    units := SplitBins(table, node, (count + minUnits - 1) % WORD_SIZE / count);
  }

  lemma PartCount(s: seq<nat>, x: nat)
    ensures multiset(s)[x] <= |s|
  {
    assert multiset(s)[x] <= |multiset(s)|;
  }

  lemma Quotient(n: nat, m: nat)
    requires 0 < n < WORD_SIZE && m < WORD_SIZE
    ensures var q := (n + m - 1) % WORD_SIZE / n;
            && (q >= 1 <==> Splittable(n, m)) && (Splittable(n, m) ==> n * q >= m && q <= m)
  {
    if Splittable(n, m) {
      RoundUp(n, m, (n + m - 1) / n);
    } else {
      assert (n + m - 1) % WORD_SIZE == if m == 0 then n - 1 else n + m - 1 - WORD_SIZE;
    }
  }

  lemma RoundUp(n: nat, m: nat, q: nat)
    requires n > 0 && m > 0 && q == (n + m - 1) / n
    ensures q >= 1 && n * q >= m && q <= m
  {
    assert n + m - 1 == n * q + (n + m - 1) % n;
    assert q == 0 ==> n * q == 0;
    if q >= m + 1 { Product(n, m + 1, q); }
    OneMore(n, m);
    Product(m, 1, n);
  }

  /** `minBinUnits` units for each bin of the node, or one for each bucket of it. */
  method SplitBins(table: HashTable, node: nat, minBinUnits: nat) returns (units: seq<Unit>)
    requires table.Valid()
    ensures forall key :: Visits(units, key) ==
              if Lives(table, key, node) && minBinUnits >= 1 then 1 else 0
    ensures Visiting(units, table.pairs)
    ensures minBinUnits <= 64 ==> |units| == minBinUnits * BinsOn(table, node)
  {
    units := [];
    var i := 0;
    while i < |table.bins|
      invariant 0 <= i <= |table.bins| && Visiting(units, table.pairs)
      invariant forall key :: Visits(units, key) ==
                  if Lives(table, key, node) && BinOf(table.layout, key) < i && minBinUnits >= 1 then 1 else 0
      invariant minBinUnits <= 64 ==> |units| == minBinUnits * multiset(table.binNodes[..i])[node]
    {
      assert table.binNodes[..i + 1] == table.binNodes[..i] + [table.binNodes[i]];
      if table.binNodes[i] == node {
        OneMore(minBinUnits, multiset(table.binNodes[..i])[node]);
        StillValid(table);
        units := SplitBin(table, i, minBinUnits, units);
      }
      i := i + 1;
    }
    assert table.binNodes[..i] == table.binNodes;
  }

  lemma OneMore(q: nat, n: nat)
    ensures q * (n + 1) == q * n + q
  {
  }

  method CountBins(table: HashTable, node: nat) returns (count: nat)
    ensures count == BinsOn(table, node)
  {
    count := 0;
    var i := 0;
    while i < |table.binNodes|
      invariant 0 <= i <= |table.binNodes| && count == multiset(table.binNodes[..i])[node]
    {
      assert table.binNodes[..i + 1] == table.binNodes[..i] + [table.binNodes[i]];
      if table.binNodes[i] == node { count := count + 1; }
      i := i + 1;
    }
    assert table.binNodes[..i] == table.binNodes;
  }

  lemma ShareVisits(units: seq<Unit>, u: Unit)
    requires u.start <= u.end
    ensures forall key {:trigger Visits(units + [u], key)} ::
              Visits(units + [u], key) + Times(Flat(u.space, 0, u.start), key)
              == Visits(units, key) + Times(Flat(u.space, 0, u.end), key)
  {
    forall key: nat
      ensures Visits(units + [u], key) + Times(Flat(u.space, 0, u.start), key)
              == Visits(units, key) + Times(Flat(u.space, 0, u.end), key)
    {
      VisitsMore(units, u, key);
      FlatSplit(u.space, 0, u.start, u.end);
      TimesSum(Flat(u.space, 0, u.start), Flat(u.space, u.start, u.end), key);
    }
  }

  /** Adds the shares of bin `i`. */
  method SplitBin(table: HashTable, i: nat, minBinUnits: nat, before: seq<Unit>) returns (units: seq<Unit>)
    requires table.Valid() && i < |table.bins| && Visiting(before, table.pairs)
    ensures forall key :: Visits(units, key) == Visits(before, key) +
              if key in table.pairs && BinOf(table.layout, key) == i && minBinUnits >= 1 then 1 else 0
    ensures Visiting(units, table.pairs) && (minBinUnits <= 64 ==> |units| == |before| + minBinUnits)
  {
    assert table.BinOk(i);
    var space := table.bins[i].buckets;
    forall key: nat
      ensures Times(Flat(space, 0, |space|), key) ==
                if key in table.pairs && BinOf(table.layout, key) == i then 1 else 0
    {
      BinOnce(table, i, key);
    }
    forall a: nat, b: nat
      ensures Visiting([Unit(space, a, b)], table.pairs)
    {
      BucketsPairs(table.layout, space, table.bins[i].pairs, a, b);
    }
    units := SplitSpace(space, if minBinUnits < |space| then minBinUnits else |space|, before, table.pairs);
  }

  method SplitSpace(space: Space, n: nat, before: seq<Unit>, ghost pairs: map<nat, nat>) returns (units: seq<Unit>)
    requires Visiting(before, pairs)
    requires forall a: nat, b: nat {:trigger Unit(space, a, b)} :: Visiting([Unit(space, a, b)], pairs)
    ensures forall key :: Visits(units, key) ==
              Visits(before, key) + if n >= 1 then Times(Flat(space, 0, |space|), key) else 0
    ensures Visiting(units, pairs) && |units| == |before| + n
  {
    units := before;
    if n == 0 { return; }
    var k, start := 0, 0;
    ShareBounds(0, |space|, n);
    while k < n
      invariant 0 <= k <= n && start == Share(k, |space|, n) <= |space| && |units| == |before| + k
      invariant forall key :: Visits(units, key) == Visits(before, key) + Times(Flat(space, 0, start), key)
      invariant Visiting(units, pairs)
    {
      ShareBounds(k, |space|, n);
      var u := Unit(space, start, Share(k + 1, |space|, n));
      ShareVisits(units, u);
      VisitingMore(units, u, pairs);
      units := units + [u];
      start := u.end;
      k := k + 1;
    }
    ShareBounds(0, |space|, n);
  }

  lemma VisitingMore(units: seq<Unit>, u: Unit, pairs: map<nat, nat>)
    requires Visiting(units, pairs) && Visiting([u], pairs)
    ensures Visiting(units + [u], pairs)
  {
    assert u in [u];
  }

  /** nodes(): the nodes of the bins, with consecutive duplicates dropped. */
  method Nodes(table: HashTable) returns (result: seq<nat>)
    ensures forall x :: x in result <==> x in table.binNodes
    ensures Distinct(result) <==> Grouped(table.binNodes)
  {
    result := [];
    var i := 0;
    ghost var at: seq<nat> := [];
    while i < |table.binNodes|
      invariant 0 <= i <= |table.binNodes| && Traced(table.binNodes[..i], result, at)
      invariant Grouped(table.binNodes) ==> Distinct(result)
    {
      var n := table.binNodes[i];
      NodesStep(table.binNodes, i, result, at);
      if result == [] || result[|result| - 1] != n {
        result := result + [n];
      }
      at := at + [|result| - 1];
      i := i + 1;
    }
    assert table.binNodes[..i] == table.binNodes;
    NodesEnd(table.binNodes, result, at);
  }

  /** The list `r` has the elements of `s`, in order; `at` tells where. */
  ghost predicate Traced(s: seq<nat>, r: seq<nat>, at: seq<nat>) {
    && |at| == |s|
    && (forall p :: 0 <= p < |s| ==> at[p] < |r| && r[at[p]] == s[p])
    && (forall p, q :: 0 <= p <= q < |s| ==> at[p] <= at[q])
    && (forall x :: x in r ==> x in s)
    && (if s == [] then r == [] else at[|s| - 1] == |r| - 1)
  }

  lemma TracedMore(s: seq<nat>, r: seq<nat>, at: seq<nat>, n: nat)
    requires Traced(s, r, at)
    ensures if r == [] || r[|r| - 1] != n then Traced(s + [n], r + [n], at + [|r|])
            else Traced(s + [n], r, at + [|r| - 1])
  {
    assert forall x :: x in s + [n] <==> x in s || x == n;
  }

  lemma NewNode(s: seq<nat>, i: nat, r: seq<nat>, at: seq<nat>)
    requires i < |s| && Traced(s[..i], r, at)
    ensures Grouped(s) && Distinct(r) && (r == [] || r[|r| - 1] != s[i]) ==> s[i] !in r && Distinct(r + [s[i]])
  {
    if i > 0 && Grouped(s) && (r == [] || r[|r| - 1] != s[i]) {
      assert s[i - 1] == s[..i][i - 1] != s[i];
      assert forall j :: 0 <= j < i ==> s[j] != s[i];
    }
  }

  lemma NodesStep(s: seq<nat>, i: nat, r: seq<nat>, at: seq<nat>)
    requires i < |s| && Traced(s[..i], r, at) && (Grouped(s) ==> Distinct(r))
    ensures var r' := if r == [] || r[|r| - 1] != s[i] then r + [s[i]] else r;
            Traced(s[..i + 1], r', at + [|r'| - 1]) && (Grouped(s) ==> Distinct(r'))
  {
    assert s[..i + 1] == s[..i] + [s[i]];
    TracedMore(s[..i], r, at, s[i]);
    NewNode(s, i, r, at);
  }

  lemma NodesEnd(s: seq<nat>, r: seq<nat>, at: seq<nat>)
    requires Traced(s, r, at) && (Grouped(s) ==> Distinct(r))
    ensures (forall x :: x in r <==> x in s) && (Distinct(r) <==> Grouped(s))
  {
    if Distinct(r) { OrderGrouped(r, s, at); }
  }

  // ----- claims by many threads -----

  /** The `get` of a thread on one of the iterations. */
  datatype Claim = Claim(thread: nat, iter: nat)

  /** How many claims are on iteration `j`. */
  function ClaimsOn(claims: seq<Claim>, j: nat): nat {
    if claims == [] then 0
    else ClaimsOn(claims[..|claims| - 1], j) + if claims[|claims| - 1].iter == j then 1 else 0
  }

  /** How often the threads below `n` visited the key. */
  function Total(visited: seq<seq<Node>>, n: nat, key: nat): nat
    requires n <= |visited|
  {
    if n == 0 then 0 else Total(visited, n - 1, key) + Times(visited[n - 1], key)
  }

  /** The units that an iteration has handed out after `count` claims. */
  function Handed(units: seq<Unit>, count: nat): seq<Unit> { units[..if count < |units| then count else |units|] }

  /** How often the units handed out by the iterations below `n` visit the key. */
  function HandedVisits(units: seq<seq<Unit>>, claims: seq<Claim>, n: nat, key: nat): nat
    requires n <= |units|
  {
    if n == 0 then 0
    else HandedVisits(units, claims, n - 1, key) + Visits(Handed(units[n - 1], ClaimsOn(claims, n - 1)), key)
  }

  lemma {:induction false} TotalMore(visited: seq<seq<Node>>, n: nat, k: nat, s: seq<Node>, key: nat)
    requires n <= |visited| && k < |visited|
    ensures Total(visited[k := visited[k] + s], n, key) ==
              Total(visited, n, key) + if k < n then Times(s, key) else 0
  {
    if n > 0 {
      TotalMore(visited, n - 1, k, s, key);
      TimesSum(visited[k], s, key);
    }
  }

  /** A claim hands out the next unit of its iteration, if there is one. */
  lemma {:induction false} HandedMore(units: seq<seq<Unit>>, claims: seq<Claim>, c: Claim, n: nat, key: nat)
    requires n <= |units|
    ensures HandedVisits(units, claims + [c], n, key) == HandedVisits(units, claims, n, key) +
              if c.iter < n && ClaimsOn(claims, c.iter) < |units[c.iter]|
              then Times(NodesOf(units[c.iter][ClaimsOn(claims, c.iter)]), key) else 0
  {
    if n > 0 {
      HandedMore(units, claims, c, n - 1, key);
      ClaimsMore(claims, c, n - 1);
      var u, k := units[n - 1], ClaimsOn(claims, n - 1);
      if c.iter == n - 1 && k < |u| {
        assert Handed(u, k + 1) == Handed(u, k) + [u[k]];
        VisitsMore(Handed(u, k), u[k], key);
      }
    }
  }

  lemma ClaimsMore(claims: seq<Claim>, c: Claim, j: nat)
    ensures ClaimsOn(claims + [c], j) == ClaimsOn(claims, j) + if c.iter == j then 1 else 0
  {
    assert (claims + [c])[..|claims|] == claims;
  }

  /** A thread iterates over a unit. */
  method VisitUnit(u: Unit) returns (visited: seq<Node>)
    ensures visited == NodesOf(u)
  {
    var it := new BucketSpaceIterator(u.space, u.start, u.end);
    visited := [];
    while !it.IsEnd()
      invariant it.Valid() && fresh(it)
      invariant visited + it.Remaining() == Flat(u.space, u.start, if u.end < |u.space| then u.end else |u.space|)
      decreases |it.Remaining()|
    {
      Advance(visited, it.Remaining());
      visited := visited + [it.Current()];
      var _ := it.Next();
    }
    FlatCut(u.space, u.start, u.end);
  }

  lemma {:induction false} FlatCut(space: Space, a: nat, b: nat)
    ensures Flat(space, a, if b < |space| then b else |space|) == Flat(space, a, b)
    decreases b - a
  {
    if a < b && a < |space| { FlatCut(space, a + 1, b); }
  }

  /** The units of the iterations. */
  ghost function UnitsOf(its: seq<ParallelIteration>): (units: seq<seq<Unit>>)
    ensures |units| == |its|
  {
    seq(|its|, j requires 0 <= j < |its| => its[j].iters)
  }

  /** What the threads visited and the counters are after the claims. */
  ghost predicate Claimed(its: seq<ParallelIteration>, visited: seq<seq<Node>>, claims: seq<Claim>,
                          pairs: map<nat, nat>)
    reads its
  {
    && (forall key :: Total(visited, |visited|, key) == HandedVisits(UnitsOf(its), claims, |its|, key))
    && (forall i, n :: 0 <= i < |visited| && n in visited[i] ==> n.key in pairs && pairs[n.key] == n.value)
    && (forall j :: 0 <= j < |its| ==> its[j].counter == ClaimsOn(claims, j))
  }

  /**
   Any number of threads claim units in any order: what they visit together is what the claimed
   units hold, each unit once. A claim on a missing iteration does nothing.
   */
  method ClaimAll(its: seq<ParallelIteration>, threads: nat, claims: seq<Claim>, ghost pairs: map<nat, nat>)
      returns (visited: seq<seq<Node>>)
    requires forall i, j :: 0 <= i < j < |its| ==> its[i] != its[j]
    requires forall j :: 0 <= j < |its| ==> its[j].counter == 0 && Visiting(its[j].iters, pairs)
    requires forall k :: 0 <= k < |claims| ==> claims[k].thread < threads
    modifies its
    ensures |visited| == threads
    ensures forall key :: Total(visited, threads, key) == HandedVisits(UnitsOf(its), claims, |its|, key)
    ensures forall i, n :: 0 <= i < threads && n in visited[i] ==> n.key in pairs && pairs[n.key] == n.value
    ensures forall j :: 0 <= j < |its| ==> its[j].counter == ClaimsOn(claims, j)
  {
    visited := seq(threads, _ => []);
    forall key: nat ensures Total(visited, threads, key) == 0 { NothingYet(visited, threads, key); }
    forall key: nat ensures HandedVisits(UnitsOf(its), [], |its|, key) == 0 { NoClaims(UnitsOf(its), |its|, key); }
    var k := 0;
    while k < |claims|
      invariant 0 <= k <= |claims| && |visited| == threads && Claimed(its, visited, claims[..k], pairs)
    {
      assert claims[..k + 1] == claims[..k] + [claims[k]];
      visited := ClaimOne(its, claims[k], visited, claims[..k], pairs);
      k := k + 1;
    }
    assert claims[..k] == claims;
  }

  /** One claim, and the visit of the unit. */
  method ClaimOne(its: seq<ParallelIteration>, c: Claim, before: seq<seq<Node>>, ghost claims: seq<Claim>,
                  ghost pairs: map<nat, nat>)
      returns (visited: seq<seq<Node>>)
    requires forall i, j :: 0 <= i < j < |its| ==> its[i] != its[j]
    requires forall j :: 0 <= j < |its| ==> Visiting(its[j].iters, pairs)
    requires c.thread < |before| && Claimed(its, before, claims, pairs)
    modifies its
    ensures |visited| == |before| && Claimed(its, visited, claims + [c], pairs)
  {
    forall j: nat ensures ClaimsOn(claims + [c], j) == ClaimsOn(claims, j) + if c.iter == j then 1 else 0 {
      ClaimsMore(claims, c, j);
    }
    ghost var units := UnitsOf(its);
    visited := before;
    ghost var nodes: seq<Node> := [];
    if c.iter < |its| {
      var unit := its[c.iter].Get();
      if unit.Some? {
        var part := VisitUnit(unit.value);
        visited := before[c.thread := before[c.thread] + part];
        nodes := part;
      }
    }
    assert UnitsOf(its) == units;
    forall key: nat
      ensures Total(visited, |visited|, key) == HandedVisits(units, claims + [c], |its|, key)
    {
      HandedMore(units, claims, c, |its|, key);
      TotalMore(before, |before|, c.thread, nodes, key);
      assert nodes == [] ==> before[c.thread] + nodes == before[c.thread];
      assert visited == before[c.thread := before[c.thread] + nodes];
    }
  }

  lemma {:induction false} NothingYet(visited: seq<seq<Node>>, n: nat, key: nat)
    requires n <= |visited| && forall i :: 0 <= i < n ==> visited[i] == []
    ensures Total(visited, n, key) == 0
  {
    if n > 0 { NothingYet(visited, n - 1, key); }
  }

  lemma {:induction false} NoClaims(units: seq<seq<Unit>>, n: nat, key: nat)
    requires n <= |units|
    ensures HandedVisits(units, [], n, key) == 0
  {
    if n > 0 { NoClaims(units, n - 1, key); }
  }

  /** An iteration that handed out only part of its units visits no key more often. */
  lemma {:induction false} HandedPart(units: seq<Unit>, count: nat, key: nat)
    ensures Visits(Handed(units, count), key) <= Visits(units, key)
    ensures count >= |units| ==> Handed(units, count) == units
    decreases |units|
  {
    if count < |units| {
      var rest := units[..|units| - 1];
      HandedPart(rest, count, key);
      assert Handed(units, count) == Handed(rest, count);
    } else {
      assert Handed(units, count) == units;
    }
  }

  /** One iteration for each node of nodes(). */
  method IterateNodes(table: HashTable, minUnits: nat) returns (nodes: seq<nat>, its: seq<ParallelIteration>)
    requires table.Valid() && minUnits < WORD_SIZE && |table.bins| < WORD_SIZE
    ensures (forall x :: x in nodes <==> x in table.binNodes) && (Distinct(nodes) <==> Grouped(table.binNodes))
    ensures |its| == |nodes| && (forall i, j :: 0 <= i < j < |its| ==> its[i] != its[j])
    ensures forall j :: 0 <= j < |its| ==>
              && fresh(its[j]) && its[j].counter == 0
              && Covers(table, nodes[j], minUnits, its[j].iters) && Visiting(its[j].iters, table.pairs)
  {
    nodes := Nodes(table);
    its := [];
    while |its| < |nodes|
      invariant |its| <= |nodes| && forall i, j :: 0 <= i < j < |its| ==> its[i] != its[j]
      invariant forall j :: 0 <= j < |its| ==>
                  && fresh(its[j]) && its[j].counter == 0
                  && Covers(table, nodes[j], minUnits, its[j].iters) && Visiting(its[j].iters, table.pairs)
      decreases |nodes| - |its|
    {
      assert nodes[|its|] in nodes;
      StillValid(table);
      var units := SplitNode(table, nodes[|its|], minUnits);
      var it := new ParallelIteration(units.value);
      its := its + [it];
    }
  }

  /** What the iterations below `n` visit when all their units are claimed, and at most otherwise. */
  lemma {:induction false} ClaimedVisits(table: HashTable, minUnits: nat, nodes: seq<nat>, units: seq<seq<Unit>>,
                                         claims: seq<Claim>, n: nat, key: nat)
    requires table.layout.Valid() && |table.binNodes| == table.layout.binCount && |units| == |nodes| && n <= |nodes|
    requires forall j :: 0 <= j < n ==> Covers(table, nodes[j], minUnits, units[j])
    ensures var node := table.binNodes[BinOf(table.layout, key)];
            var ok := key in table.pairs && Splittable(BinsOn(table, node), minUnits);
            var full := if ok then multiset(nodes[..n])[node] else 0;
            && HandedVisits(units, claims, n, key) <= full
            && ((forall j :: 0 <= j < n ==> ClaimsOn(claims, j) >= |units[j]|) ==>
                  HandedVisits(units, claims, n, key) == full)
  {
    if n > 0 {
      ClaimedVisits(table, minUnits, nodes, units, claims, n - 1, key);
      HandedPart(units[n - 1], ClaimsOn(claims, n - 1), key);
      assert nodes[..n] == nodes[..n - 1] + [nodes[n - 1]];
      assert Covers(table, nodes[n - 1], minUnits, units[n - 1]);
    }
  }

  /**
   The parallel iterations over all nodes, claimed by any number of threads in any order: no pair is
   visited twice, and when all units are claimed, every pair was visited exactly once, by one thread.
   With repeated nodes that are not next to each other, pairs are visited once for each repetition.
   */
  method IterateParallel(table: HashTable, minUnits: nat, threads: nat, claims: seq<Claim>)
      returns (visited: seq<seq<Node>>, nodes: seq<nat>, sizes: seq<nat>)
    requires table.Valid() && minUnits < WORD_SIZE && |table.bins| < WORD_SIZE
    requires forall k :: 0 <= k < |claims| ==> claims[k].thread < threads
    ensures |visited| == threads && |sizes| == |nodes|
    ensures (forall x :: x in nodes <==> x in table.binNodes) && (Distinct(nodes) <==> Grouped(table.binNodes))
    ensures forall i, n :: 0 <= i < threads && n in visited[i] ==>
              n.key in table.pairs && table.pairs[n.key] == n.value
    ensures forall key :: Total(visited, threads, key) <= Due(table, minUnits, nodes, key)
    ensures (forall j :: 0 <= j < |sizes| ==> ClaimsOn(claims, j) >= sizes[j]) ==>
              forall key :: Total(visited, threads, key) == Due(table, minUnits, nodes, key)
    ensures Grouped(table.binNodes) && 1 <= minUnits <= WORD_SIZE - |table.bins| ==>
              forall key :: Due(table, minUnits, nodes, key) == if key in table.pairs then 1 else 0
  {
    var its;
    nodes, its := IterateNodes(table, minUnits);
    sizes := seq(|its|, j requires 0 <= j < |its| => |its[j].iters|);
    ghost var units := UnitsOf(its);
    visited := ClaimAll(its, threads, claims, table.pairs);
    assert nodes[..|nodes|] == nodes;
    forall key: nat
      ensures Total(visited, threads, key) <= Due(table, minUnits, nodes, key)
      ensures (forall j :: 0 <= j < |sizes| ==> ClaimsOn(claims, j) >= sizes[j]) ==>
                Total(visited, threads, key) == Due(table, minUnits, nodes, key)
    {
      ClaimedVisits(table, minUnits, nodes, units, claims, |its|, key);
    }
    forall key: nat | Grouped(table.binNodes) && 1 <= minUnits <= WORD_SIZE - |table.bins|
      ensures Due(table, minUnits, nodes, key) == if key in table.pairs then 1 else 0
    {
      DueOnce(table, minUnits, nodes, key);
    }
  }

  /** How often a key is to be visited: once for each time its node is in the list, if the node can be split. */
  ghost function Due(table: HashTable, minUnits: nat, nodes: seq<nat>, key: nat): nat
    requires table.layout.Valid() && |table.binNodes| == table.layout.binCount
    reads table
  {
    var node := table.binNodes[BinOf(table.layout, key)];
    if key in table.pairs && Splittable(BinsOn(table, node), minUnits) then multiset(nodes)[node] else 0
  }

  /** Exactly once, for a table over distinct nodes and a number of units in range. */
  lemma DueOnce(table: HashTable, minUnits: nat, nodes: seq<nat>, key: nat)
    requires table.layout.Valid() && |table.binNodes| == |table.bins| == table.layout.binCount
    requires Distinct(nodes) && forall x :: x in nodes <==> x in table.binNodes
    requires 1 <= minUnits <= WORD_SIZE - |table.bins|
    ensures Due(table, minUnits, nodes, key) == if key in table.pairs then 1 else 0
  {
    var node := table.binNodes[BinOf(table.layout, key)];
    PartCount(table.binNodes, node);
    DistinctOnce(nodes, node);
  }

  lemma {:induction false} DistinctOnce(s: seq<nat>, x: nat)
    requires Distinct(s)
    ensures multiset(s)[x] == if x in s then 1 else 0
  {
    if s != [] {
      assert s == [s[0]] + s[1..];
      DistinctRest(s);
      DistinctOnce(s[1..], x);
    }
  }

  lemma DistinctRest(s: seq<nat>)
    requires Distinct(s) && s != []
    ensures Distinct(s[1..]) && s[0] !in s[1..]
  {
    assert forall i :: 0 <= i < |s[1..]| ==> s[1..][i] == s[i + 1];
  }
}
