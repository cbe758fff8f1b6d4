/** The NUMA hash table: a fixed array of bins, each on a node, that together refine a finite map. */
module HashTables {
  import opened HashBins

  /** `h & BinMask`. */
  function BinOf(l: Layout, key: nat): (i: nat)
    requires l.Valid()
    ensures i < l.binCount
  {
    l.hash(key) % l.binCount
  }

  /** The keys of the bins below `n`. */
  ghost function KeysBelow(l: Layout, pairs: map<nat, nat>, n: nat): set<nat>
    requires l.Valid()
  {
    set k | k in pairs && BinOf(l, k) < n
  }

  ghost predicate Apart(bins: seq<BinData>, i: nat, j: nat) {
    i < j < |bins| ==> bins[i] != bins[j]
  }

  class HashTable {
    const layout: Layout
    var bins: seq<BinData>
    const binNodes: seq<nat>
    ghost var pairs: map<nat, nat>

    ghost function Objects(): set<object>
      reads this
    {
      set b | b in bins
    }

    /** The pairs of bin `i` are the pairs whose keys belong there. */
    ghost predicate BinOk(i: nat)
      reads this, Objects()
    {
      i < |bins| ==>
        && bins[i].Valid() && bins[i].layout == layout
        && (layout.Valid() ==>
              forall k {:trigger k in bins[i].pairs} :: k in bins[i].pairs <==> k in pairs && BinOf(layout, k) == i)
        && (forall k :: k in bins[i].pairs ==> k in pairs && bins[i].pairs[k] == pairs[k])
    }

    ghost predicate Valid()
      reads this, Objects()
    {
      && layout.Valid() && |bins| == |binNodes| == layout.binCount
      && (forall i {:trigger BinOk(i)} :: BinOk(i))
      && (forall i, j {:trigger Apart(bins, i, j)} :: Apart(bins, i, j))
    }

    /** The bins are spread evenly over the nodes. */
    constructor (layout: Layout, nodes: seq<nat>)
      requires layout.Valid() && nodes != []
      ensures Valid() && pairs == map[] && this.layout == layout && fresh(Objects())
      ensures forall i :: 0 <= i < |binNodes| ==> Placed(nodes, layout.binCount, i, binNodes[i])
      ensures Distinct(nodes) ==> Grouped(binNodes)
    {
      var made: seq<BinData> := [];
      var places: seq<nat> := [];
      var idx := 0;
      while idx < layout.binCount
        invariant 0 <= idx <= layout.binCount && |made| == |places| == idx
        invariant forall i :: 0 <= i < idx ==>
                    fresh(made[i]) && made[i].Valid() && made[i].layout == layout && made[i].pairs == map[]
        invariant forall i, j :: 0 <= i < j < idx ==> made[i] != made[j]
        invariant forall i :: 0 <= i < idx ==> Placed(nodes, layout.binCount, i, places[i])
      {
        Spread(idx, |nodes|, layout.binCount);
        places := places + [nodes[idx * |nodes| / layout.binCount]];
        var bin := new BinData(layout);
        made := made + [bin];
        idx := idx + 1;
      }
      if Distinct(nodes) { SpreadGrouped(nodes, places, layout.binCount); }
      this.layout := layout;
      bins := made;
      binNodes := places;
      pairs := map[];
    }

    /** operator[]: the value of the key, after inserting `init` if there was none. */
    method GetOrCreate(key: nat, init: nat) returns (value: nat)
      requires Valid()
      modifies this`pairs, bins
      ensures Valid() && pairs == (if key in old(pairs) then old(pairs) else old(pairs)[key := init])
      ensures value == pairs[key]
    {
      var i := BinOf(layout, key);
      assert BinOk(i);
      value := bins[i].GetOrCreate(key, init);
      pairs := if key in pairs then pairs else pairs[key := init];
      forall j: nat ensures BinOk(j) { assert old(BinOk(j)) && Apart(bins, i, j) && Apart(bins, j, i); }
    }

    /** Assignment through the reference that operator[] returned. */
    method Assign(key: nat, value: nat)
      requires Valid() && key in pairs
      modifies this`pairs, bins
      ensures Valid() && pairs == old(pairs)[key := value]
    {
      var i := BinOf(layout, key);
      assert BinOk(i);
      bins[i].Assign(key, value);
      pairs := pairs[key := value];
      forall j: nat ensures BinOk(j) { assert old(BinOk(j)) && Apart(bins, i, j) && Apart(bins, j, i); }
    }

    method Remove(key: nat) returns (found: bool)
      requires Valid()
      modifies this`pairs, bins
      ensures Valid() && found == (key in old(pairs)) && pairs == old(pairs) - {key}
    {
      var i := BinOf(layout, key);
      assert BinOk(i);
      found := bins[i].Remove(key);
      pairs := pairs - {key};
      forall j: nat ensures BinOk(j) { assert old(BinOk(j)) && Apart(bins, i, j) && Apart(bins, j, i); }
    }

    /** The number of keys. */
    method Size() returns (sz: nat)
      requires Valid()
      ensures sz == |pairs|
    {
      sz := 0;
      var i := 0;
      KeysEnds(layout, pairs);
      while i < |bins|
        invariant 0 <= i <= |bins| && Valid() && sz == |KeysBelow(layout, pairs, i)|
      {
        assert BinOk(i);
        KeysStep(layout, pairs, i, bins[i].pairs);
        sz := sz + bins[i].count;
        i := i + 1;
      }
    }
  }

  lemma KeysEnds(l: Layout, pairs: map<nat, nat>)
    requires l.Valid()
    ensures |KeysBelow(l, pairs, 0)| == 0 && |KeysBelow(l, pairs, l.binCount)| == |pairs|
  {
    assert KeysBelow(l, pairs, 0) == {} && KeysBelow(l, pairs, l.binCount) == pairs.Keys;
    KeysSize(pairs);
  }

  lemma KeysStep(l: Layout, pairs: map<nat, nat>, i: nat, own: map<nat, nat>)
    requires l.Valid() && forall k :: k in own <==> k in pairs && BinOf(l, k) == i
    ensures |KeysBelow(l, pairs, i + 1)| == |KeysBelow(l, pairs, i)| + |own|
  {
    assert KeysBelow(l, pairs, i + 1) == KeysBelow(l, pairs, i) + own.Keys;
    KeysSize(own);
  }

  /** Bin `i` of `count` is on node `x`: the bins are spread evenly over the nodes. */
  predicate Placed(nodes: seq<nat>, count: nat, i: nat, x: nat)
    requires count > 0
  {
    Spot(|nodes|, count, i) < |nodes| && x == nodes[Spot(|nodes|, count, i)]
  }

  function Spot(n: nat, count: nat, i: nat): nat
    requires count > 0
  {
    i * n / count
  }

  /** Which node that is: bin `i` is in share `j` of `|nodes|` equal shares of the bins. */
  lemma ShareOf(nodes: seq<nat>, count: nat, i: nat, x: nat) returns (j: nat)
    requires count > 0 && Placed(nodes, count, i, x)
    ensures j < |nodes| && x == nodes[j] && j * count <= i * |nodes| < (j + 1) * count
  {
    j := i * |nodes| / count;
    assert i * |nodes| == count * j + i * |nodes| % count;
  }

  /** The low digits of a hash select the bin and the next ones the bucket. */
  lemma HashDigits(l: Layout, key: nat, n: nat) returns (rest: nat)
    requires l.Valid() && n > 0
    ensures BinOf(l, key) < l.binCount && l.SlotOf(key, n) < n
    ensures l.hash(key) == (rest * n + l.SlotOf(key, n)) * l.binCount + BinOf(l, key)
  {
    var h := l.hash(key);
    var q := h / l.binCount;
    rest := q / n;
    assert q == n * rest + q % n;
    assert h == l.binCount * q + h % l.binCount;
  }

  /** A table stays valid while it and its bins stay the same. */
  twostate lemma StillValid(table: HashTable)
    requires old(table.Valid()) && unchanged(table) && unchanged(table.Objects())
    ensures table.Valid()
  {
    forall i: nat ensures table.BinOk(i) { assert old(table.BinOk(i)); }
  }

  predicate Distinct(s: seq<nat>) {
    forall i, j :: 0 <= i < j < |s| ==> s[i] != s[j]
  }

  /** Equal nodes stand next to each other. */
  predicate Grouped(s: seq<nat>) {
    forall i, j, k :: 0 <= i <= j <= k < |s| && s[i] == s[k] ==> s[j] == s[i]
  }

  lemma Spread(i: nat, n: nat, count: nat)
    requires i < count && n > 0
    ensures i * n / count < n
  {
    var q := i * n / count;
    Product(n, i + 1, count);
    if q >= n { Product(count, n, q); }
  }

  lemma Product(c: nat, a: nat, b: nat)
    requires a <= b
    ensures c * a <= c * b
  {
    assert c * b == c * a + c * (b - a);
  }

  lemma SpreadOrder(i: nat, j: nat, n: nat, count: nat)
    requires i <= j && count > 0
    ensures i * n / count <= j * n / count
  {
    var p, q := i * n / count, j * n / count;
    Product(n, i, j);
    assert count * p <= i * n && j * n < count * q + count;
    if p >= q + 1 { Product(count, q + 1, p); }
  }

  lemma SpreadGrouped(nodes: seq<nat>, places: seq<nat>, count: nat)
    requires Distinct(nodes) && 0 < count == |places|
    requires forall i :: 0 <= i < |places| ==> Placed(nodes, count, i, places[i])
    ensures Grouped(places)
  {
    var spots := seq(|places|, i requires 0 <= i < |places| => Spot(|nodes|, count, i));
    forall i, j | 0 <= i <= j < |places|
      ensures spots[i] <= spots[j]
    {
      SpotOrder(|nodes|, count, i, j);
    }
    forall i | 0 <= i < |places|
      ensures spots[i] < |nodes| && places[i] == nodes[spots[i]]
    {
      PlacedSpot(nodes, count, i, places[i]);
    }
    OrderGrouped(nodes, places, spots);
  }

  lemma SpotOrder(n: nat, count: nat, i: nat, j: nat)
    requires i <= j && count > 0
    ensures Spot(n, count, i) <= Spot(n, count, j)
  {
    SpreadOrder(i, j, n, count);
  }

  lemma PlacedSpot(nodes: seq<nat>, count: nat, i: nat, x: nat)
    requires count > 0 && Placed(nodes, count, i, x)
    ensures Spot(|nodes|, count, i) < |nodes| && x == nodes[Spot(|nodes|, count, i)]
  {
  }

  lemma OrderGrouped(nodes: seq<nat>, places: seq<nat>, spots: seq<nat>)
    requires Distinct(nodes) && |spots| == |places|
    requires forall i :: 0 <= i < |places| ==> spots[i] < |nodes| && places[i] == nodes[spots[i]]
    requires forall i, j :: 0 <= i <= j < |places| ==> spots[i] <= spots[j]
    ensures Grouped(places)
  {
    forall i, j, k | 0 <= i <= j <= k < |places| && places[i] == places[k]
      ensures places[j] == places[i]
    {
      assert spots[i] <= spots[j] <= spots[k] && nodes[spots[i]] == nodes[spots[k]];
    }
  }
}
