/**
 A bin of the NUMA hash table: buckets that double in number when they fill up, and together refine
 a finite map.
 */
module HashBins {
  datatype Node = Node(hash: nat, key: nat, value: nat)

  type Space = seq<seq<Node>>

  /** The bucket of a hash: its digits above the bin digits, modulo the number of buckets. */
  function Slot(h: nat, binCount: nat, n: nat): (b: nat)
    requires binCount > 0 && n > 0
    ensures b < n
  {
    h / binCount % n
  }

  predicate PowerOfTwo(n: nat) {
    n == 1 || (n > 1 && n % 2 == 0 && PowerOfTwo(n / 2))
  }

  /** The position of a key in a bucket, or its length. */
  function IndexOf(bucket: seq<Node>, key: nat): (i: nat)
    ensures i <= |bucket| && (i < |bucket| ==> bucket[i].key == key)
    ensures forall j :: 0 <= j < i ==> bucket[j].key != key
  {
    if bucket == [] || bucket[0].key == key then 0
    else
      assert forall j :: 1 <= j < |bucket| ==> bucket[j] == bucket[1..][j - 1];
      1 + IndexOf(bucket[1..], key)
  }

  predicate HasKey(bucket: seq<Node>, key: nat) { IndexOf(bucket, key) < |bucket| }

  lemma HasKeyAt(bucket: seq<Node>, key: nat, i: nat)
    requires i < |bucket| && bucket[i].key == key
    ensures HasKey(bucket, key)
  {
  }

  /** The hash function and the number of bins. */
  datatype Layout = Layout(hash: nat -> nat, binCount: nat) {

    predicate Valid() { binCount > 0 }

    function SlotOf(key: nat, n: nat): (b: nat)
      requires Valid() && n > 0
      ensures b < n
    {
      Slot(hash(key), binCount, n)
    }

    /** The nodes of bucket `b` belong there and are pairs, no two with the same key. */
    predicate BucketOk(space: Space, pairs: map<nat, nat>, b: nat)
      requires Valid()
    {
      b < |space| ==>
        && (forall i :: 0 <= i < |space[b]| ==>
              var n := space[b][i];
              n.hash == hash(n.key) && SlotOf(n.key, |space|) == b && n.key in pairs && pairs[n.key] == n.value)
        && (forall i, j :: 0 <= i < j < |space[b]| ==> space[b][i].key != space[b][j].key)
    }

    /** The pair is in its bucket. */
    predicate KeyOk(space: Space, pairs: map<nat, nat>, key: nat)
      requires Valid()
    {
      key in pairs ==> space != [] && HasKey(space[SlotOf(key, |space|)], key)
    }

    ghost predicate Holds(space: Space, pairs: map<nat, nat>)
      requires Valid()
    {
      && (forall b {:trigger BucketOk(space, pairs, b)} :: BucketOk(space, pairs, b))
      && (forall k {:trigger KeyOk(space, pairs, k)} :: KeyOk(space, pairs, k))
    }
  }

  lemma FoundPair(l: Layout, space: Space, pairs: map<nat, nat>, key: nat)
    requires l.Valid() && l.Holds(space, pairs) && space != []
    ensures var bucket := space[l.SlotOf(key, |space|)];
            var i := IndexOf(bucket, key);
            && (key in pairs <==> i < |bucket|)
            && (i < |bucket| ==> bucket[i] == Node(l.hash(key), key, pairs[key]))
  {
    assert l.KeyOk(space, pairs, key) && l.BucketOk(space, pairs, l.SlotOf(key, |space|));
  }

  /** A new pair at the end of its bucket. */
  lemma PairAdded(l: Layout, space: Space, pairs: map<nat, nat>, key: nat, value: nat)
    requires l.Valid() && l.Holds(space, pairs) && space != [] && key !in pairs
    ensures var b := l.SlotOf(key, |space|);
            l.Holds(space[b := space[b] + [Node(l.hash(key), key, value)]], pairs[key := value])
  {
    var b, pairs' := l.SlotOf(key, |space|), pairs[key := value];
    var space' := space[b := space[b] + [Node(l.hash(key), key, value)]];
    assert l.BucketOk(space, pairs, b);
    forall c: nat ensures l.BucketOk(space', pairs', c) { assert l.BucketOk(space, pairs, c); }
    forall k: nat
      ensures l.KeyOk(space', pairs', k)
    {
      assert l.KeyOk(space, pairs, k);
      if k == key {
        HasKeyAt(space'[b], key, |space[b]|);
      } else if k in pairs && l.SlotOf(k, |space|) == b {
        HasKeyAt(space'[b], k, IndexOf(space[b], k));
      }
    }
  }

  /** A pair erased from its bucket. */
  lemma PairErased(l: Layout, space: Space, pairs: map<nat, nat>, key: nat)
    requires l.Valid() && l.Holds(space, pairs) && space != [] && key in pairs
    ensures var b := l.SlotOf(key, |space|);
            var i := IndexOf(space[b], key);
            && i < |space[b]|
            && l.Holds(space[b := space[b][..i] + space[b][i + 1..]], pairs - {key})
  {
    var b, pairs' := l.SlotOf(key, |space|), pairs - {key};
    FoundPair(l, space, pairs, key);
    var i := IndexOf(space[b], key);
    var bucket := space[b][..i] + space[b][i + 1..];
    var space' := space[b := bucket];
    forall c: nat
      ensures l.BucketOk(space', pairs', c)
    {
      assert l.BucketOk(space, pairs, c);
      if c == b { NodesErased(l, space, pairs, b, i); }
    }
    forall k: nat
      ensures l.KeyOk(space', pairs', k)
    {
      assert l.KeyOk(space, pairs, k);
      if k in pairs' && l.SlotOf(k, |space|) == b { KeyKept(space[b], i, k); }
    }
  }

  lemma KeyKept(bucket: seq<Node>, i: nat, key: nat)
    requires i < |bucket| && bucket[i].key != key && HasKey(bucket, key)
    ensures HasKey(bucket[..i] + bucket[i + 1..], key)
  {
    var j := IndexOf(bucket, key);
    HasKeyAt(bucket[..i] + bucket[i + 1..], key, if j < i then j else j - 1);
  }

  lemma NodesErased(l: Layout, space: Space, pairs: map<nat, nat>, b: nat, i: nat)
    requires l.Valid() && b < |space| && i < |space[b]| && l.BucketOk(space, pairs, b)
    ensures l.BucketOk(space[b := space[b][..i] + space[b][i + 1..]], pairs - {space[b][i].key}, b)
  {
    var bucket := space[b][..i] + space[b][i + 1..];
    assert forall j :: 0 <= j < |bucket| ==> bucket[j] == space[b][if j < i then j else j + 1];
  }

  /** The value of a pair changed in place. */
  lemma PairChanged(l: Layout, space: Space, pairs: map<nat, nat>, key: nat, value: nat)
    requires l.Valid() && l.Holds(space, pairs) && space != [] && key in pairs
    ensures var b := l.SlotOf(key, |space|);
            var i := IndexOf(space[b], key);
            && i < |space[b]|
            && l.Holds(space[b := space[b][i := space[b][i].(value := value)]], pairs[key := value])
  {
    var b, pairs' := l.SlotOf(key, |space|), pairs[key := value];
    FoundPair(l, space, pairs, key);
    var i := IndexOf(space[b], key);
    var space' := space[b := space[b][i := space[b][i].(value := value)]];
    assert l.BucketOk(space, pairs, b);
    forall c: nat ensures l.BucketOk(space', pairs', c) { assert l.BucketOk(space, pairs, c); }
    forall k: nat
      ensures l.KeyOk(space', pairs', k)
    {
      assert l.KeyOk(space, pairs, k);
      if k in pairs && l.SlotOf(k, |space|) == b {
        HasKeyAt(space'[b], k, IndexOf(space[b], k));
      }
    }
  }

  class BinData {
    const layout: Layout
    var buckets: Space
    var count: nat
    var maxCount: nat
    var generation: nat
    ghost var pairs: map<nat, nat>

    ghost predicate Valid()
      reads this
    {
      && layout.Valid() && layout.Holds(buckets, pairs)
      && PowerOfTwo(|buckets|) && |buckets| >= 64
      && count == |pairs| && maxCount == 3 * |buckets| && count <= maxCount
    }

    constructor (layout: Layout)
      requires layout.Valid()
      ensures Valid() && pairs == map[] && this.layout == layout && |buckets| == 64
    {
      this.layout := layout;
      buckets := seq(64, _ => []);
      count, maxCount, generation := 0, 192, 1;
      pairs := map[];
    }

    /** operator[]: the value of the key, after inserting `init` if there was none. */
    method GetOrCreate(key: nat, init: nat) returns (value: nat)
      requires Valid()
      modifies this
      ensures Valid()
      ensures pairs == if key in old(pairs) then old(pairs) else old(pairs)[key := init]
      ensures value == pairs[key]
    {
      if count >= maxCount { ResizeIfNecessary(); }
      var b := layout.SlotOf(key, |buckets|);
      var i := Search(b, key);
      if i < |buckets[b]| {
        value := buckets[b][i].value;
      } else {
        AddToBucket(b, key, init);
        value := init;
      }
    }

    /** Assignment through the reference that operator[] returned. */
    method Assign(key: nat, value: nat)
      requires Valid() && key in pairs
      modifies this
      ensures Valid() && pairs == old(pairs)[key := value]
    {
      var b := layout.SlotOf(key, |buckets|);
      var i := Search(b, key);
      PairChanged(layout, buckets, pairs, key, value);
      assert |pairs[key := value]| == |pairs| by {
        assert pairs[key := value].Keys == pairs.Keys;
        KeysSize(pairs);
        KeysSize(pairs[key := value]);
      }
      buckets := buckets[b := buckets[b][i := buckets[b][i].(value := value)]];
      pairs := pairs[key := value];
    }

    method Remove(key: nat) returns (found: bool)
      requires Valid()
      modifies this
      ensures Valid() && found == (key in old(pairs)) && pairs == old(pairs) - {key}
    {
      var b := layout.SlotOf(key, |buckets|);
      var i := Search(b, key);
      found := i < |buckets[b]|;
      if found {
        PairErased(layout, buckets, pairs, key);
        SizeErased(pairs, key);
        buckets := buckets[b := buckets[b][..i] + buckets[b][i + 1..]];
        count := count - 1;
        pairs := pairs - {key};
      } else {
        assert pairs - {key} == pairs;
      }
    }

    /** The scan of operate_on_bin: the first node with the hash and the key. */
    method Search(b: nat, key: nat) returns (i: nat)
      requires Valid() && b == layout.SlotOf(key, |buckets|)
      ensures i == IndexOf(buckets[b], key) && (key in pairs <==> i < |buckets[b]|)
      ensures i < |buckets[b]| ==> buckets[b][i].value == pairs[key]
    {
      var bucket := buckets[b];
      FoundPair(layout, buckets, pairs, key);
      assert layout.BucketOk(buckets, pairs, b);
      i := 0;
      while i < |bucket| && !(bucket[i].hash == layout.hash(key) && bucket[i].key == key)
        invariant 0 <= i <= IndexOf(bucket, key)
      {
        i := i + 1;
      }
    }

    method AddToBucket(b: nat, key: nat, value: nat)
      requires layout.Valid() && layout.Holds(buckets, pairs) && PowerOfTwo(|buckets|) && |buckets| >= 64
      requires count == |pairs| && maxCount == 3 * |buckets| && count < maxCount
      requires key !in pairs && b == layout.SlotOf(key, |buckets|)
      modifies this
      ensures Valid() && pairs == old(pairs)[key := value]
    {
      PairAdded(layout, buckets, pairs, key, value);
      SizeAdded(pairs, key, value);
      count := count + 1;
      buckets := buckets[b := buckets[b] + [Node(layout.hash(key), key, value)]];
      pairs := pairs[key := value];
    }

    method ResizeIfNecessary()
      requires Valid() && count >= maxCount
      modifies this`buckets, this`maxCount, this`generation
      ensures Valid() && count < maxCount
    {
      if count >= maxCount { Resize(2 * |buckets|); }
    }

    /** Rehashes all nodes into `sz` new buckets. */
    method Resize(sz: nat)
      requires Valid() && sz == 2 * |buckets|
      modifies this`buckets, this`maxCount, this`generation
      ensures Valid() && |buckets| == sz && pairs == old(pairs)
    {
      maxCount := sz * 3;
      generation := generation + 1;
      var newbuckets: Space := seq(sz, _ => []);
      ghost var done: map<nat, nat> := map[];
      var b := 0;
      while b < |buckets|
        invariant 0 <= b <= |buckets| && buckets == old(buckets) && |newbuckets| == sz && maxCount == sz * 3
        invariant layout.Holds(newbuckets, done)
        invariant forall k {:trigger k in done} :: k in done <==> k in pairs && layout.SlotOf(k, |buckets|) < b
        invariant forall k :: k in done ==> done[k] == pairs[k]
      {
        newbuckets, done := Rehash(newbuckets, b, done);
        b := b + 1;
      }
      assert done.Keys == pairs.Keys && done == pairs;
      buckets := newbuckets;
    }

    /** Moves the nodes of bucket `b` to where they belong among the new buckets. */
    method Rehash(space: Space, b: nat, ghost before: map<nat, nat>)
        returns (newbuckets: Space, ghost done: map<nat, nat>)
      requires layout.Valid() && layout.Holds(buckets, pairs) && b < |buckets|
      requires space != [] && layout.Holds(space, before)
      requires forall k {:trigger k in before} :: k in before <==> k in pairs && layout.SlotOf(k, |buckets|) < b
      requires forall k :: k in before ==> before[k] == pairs[k]
      ensures |newbuckets| == |space| && layout.Holds(newbuckets, done)
      ensures forall k {:trigger k in done} :: k in done <==> k in pairs && layout.SlotOf(k, |buckets|) <= b
      ensures forall k :: k in done ==> done[k] == pairs[k]
    {
      newbuckets, done := space, before;
      assert layout.BucketOk(buckets, pairs, b);
      var i := 0;
      while i < |buckets[b]|
        invariant 0 <= i <= |buckets[b]| && |newbuckets| == |space| && layout.Holds(newbuckets, done)
        invariant forall k {:trigger k in done} :: k in done <==>
                    && k in pairs
                    && (layout.SlotOf(k, |buckets|) < b
                        || (layout.SlotOf(k, |buckets|) == b && IndexOf(buckets[b], k) < i))
        invariant forall k :: k in done ==> done[k] == pairs[k]
      {
        var node := buckets[b][i];
        KeyPlace(buckets[b], i);
        PairAdded(layout, newbuckets, done, node.key, node.value);
        var c := layout.SlotOf(node.key, |newbuckets|);
        newbuckets := newbuckets[c := newbuckets[c] + [node]];
        done := done[node.key := node.value];
        i := i + 1;
      }
      forall k | k in pairs && layout.SlotOf(k, |buckets|) == b
        ensures IndexOf(buckets[b], k) < |buckets[b]|
      {
        assert layout.KeyOk(buckets, pairs, k);
      }
    }
  }

  /** A node's key is nowhere else in its bucket. */
  lemma KeyPlace(bucket: seq<Node>, i: nat)
    requires i < |bucket| && forall j, k :: 0 <= j < k < |bucket| ==> bucket[j].key != bucket[k].key
    ensures forall k :: IndexOf(bucket, k) == i <==> k == bucket[i].key
  {
  }

  lemma KeysSize(m: map<nat, nat>)
    ensures |m| == |m.Keys|
  {
  }

  lemma SizeAdded(m: map<nat, nat>, k: nat, v: nat)
    requires k !in m
    ensures |m[k := v]| == |m| + 1
  {
    assert m[k := v].Keys == m.Keys + {k};
  }

  lemma SizeErased(m: map<nat, nat>, k: nat)
    requires k in m
    ensures |m - {k}| == |m| - 1
  {
    assert (m - {k}).Keys == m.Keys - {k};
  }
}
