/** The 32-bit bin maps of a malloc_state and the branch-free searches over them. */
module BinMaps {
  import opened Words

  type BinMap = m: nat | m < Pow2(32)

  predicate Marked(m: BinMap, i: nat) {
    Bit(m, i)
  }

  function Idx2Bit(i: nat): (b: BinMap)
    requires i < 32
  {
    Pow2Strict(i, 32);
    Pow2(i)
  }

  /** `map & idx2bit(i)`, as a truth value. */
  predicate IsMarked(m: BinMap, i: nat)
    requires i < 32
    ensures IsMarked(m, i) <==> Marked(m, i)
  {
    AndPow2(m, i);
    And(m, Idx2Bit(i)) != 0
  }

  function Mark(m: BinMap, i: nat): (r: BinMap)
    requires i < 32
    ensures forall j: nat :: j < 32 ==> (Marked(r, j) <==> i == j || Marked(m, j))
  {
    OrBelow(m, Idx2Bit(i), 32);
    assert forall j: nat :: j < 32 ==> (Bit(Or(m, Idx2Bit(i)), j) <==> i == j || Bit(m, j)) by {
      forall j: nat | j < 32 ensures Bit(Or(m, Idx2Bit(i)), j) <==> i == j || Bit(m, j) {
        BitOr(m, Idx2Bit(i), j);
        BitPow2(i, j);
      }
    }
    Or(m, Idx2Bit(i))
  }

  function Clear(m: BinMap, i: nat): (r: BinMap)
    requires i < 32
    ensures forall j: nat :: j < 32 ==> (Marked(r, j) <==> i != j && Marked(m, j))
  {
    var mask := Not(Idx2Bit(i), 32);
    AndBelow(m, mask);
    assert forall j: nat :: j < 32 ==> (Bit(And(m, mask), j) <==> i != j && Bit(m, j)) by {
      forall j: nat | j < 32 ensures Bit(And(m, mask), j) <==> i != j && Bit(m, j) {
        BitAnd(m, mask, j);
        BitNot(Idx2Bit(i), 32, j);
        BitPow2(i, j);
      }
    }
    And(m, mask)
  }

  /** A map word is zero exactly when no bin is marked. */
  lemma EmptyMap(m: BinMap)
    ensures m == 0 <==> forall j: nat :: j < 32 ==> !Marked(m, j)
  {
    if m == 0 {
      forall j: nat | j < 32 ensures !Marked(m, j) { BitZero(j); }
    } else {
      LeastBit(m, 32);
      assert Marked(m, TrailingZeros(m));
    }
  }

  /**
   The lines of the portable compute_bit2idx from mask `Pow2(l)` down to mask 1: each line
   adds `K = Y >> (mask - l) & mask` to the index and shifts `Y` right by `K`.
   */
  function IndexLines(y: nat, l: nat): nat
    decreases l
  {
    Pow2Above(l);
    var k := And(Shr(y, Pow2(l) - l), Pow2(l));
    k + if l == 0 then Shr(y, k) else IndexLines(Shr(y, k), l - 1)
  }

  function Bit2Idx(x: nat): nat
    requires x > 0
  {
    IndexLines(x - 1, 4)
  }

  /** On a word of `i` ones, a line drops its mask's worth of them exactly when there are more. */
  lemma OnesStep(i: nat, l: nat)
    ensures l < Pow2(l)
    ensures And(Shr(Pow2(i) - 1, Pow2(l) - l), Pow2(l)) == if i > Pow2(l) then Pow2(l) else 0
  {
    Pow2Above(l);
    AndPow2Value(Shr(Pow2(i) - 1, Pow2(l) - l), l);
    BitShr(Pow2(i) - 1, Pow2(l) - l, l);
    BitHigh(i, 0, Pow2(l));
  }

  lemma {:induction false} CountOnes(i: nat, l: nat)
    requires i <= 2 * Pow2(l)
    ensures IndexLines(Pow2(i) - 1, l) == i
    decreases l
  {
    Pow2Above(l);
    var k := And(Shr(Pow2(i) - 1, Pow2(l) - l), Pow2(l));
    OnesStep(i, l);
    ShrOnes(i, k);
    if l == 0 {
      assert Pow2(i - k) - 1 == i - k;
    } else {
      CountOnes(i - k, l - 1);
    }
  }

  lemma {:induction false} ShrOnes(i: nat, k: nat)
    requires k <= i
    ensures Shr(Pow2(i) - 1, k) == Pow2(i - k) - 1
  {
    if k > 0 { ShrOnes(i - 1, k - 1); }
  }

  /** `compute_bit2idx(least_bit(x))`: the lowest marked bin. */
  function LeastIndex(x: BinMap): (i: nat)
    requires x != 0
    ensures i < 32 && Marked(x, i)
    ensures forall j: nat :: j < i ==> !Marked(x, j)
  {
    LeastBit(x, 32);
    CountOnes(TrailingZeros(x), 4);
    Bit2Idx(And(x, Neg(x, 32)))
  }

  /** `left_bits(idx2bit(i)) & m`: the marked bins above `i`. */
  function BinsAbove(m: BinMap, i: nat): (r: BinMap)
    requires i < 32
    ensures forall j: nat :: j < 32 ==> (Marked(r, j) <==> i < j && Marked(m, j))
  {
    var y := Shl(Idx2Bit(i), 1, 32);
    var left := Or(y, Neg(y, 32));
    AndBelow(left, m);
    assert forall j: nat :: j < 32 ==> (Bit(And(left, m), j) <==> i < j && Bit(m, j)) by {
      forall j: nat | j < 32 ensures Bit(And(left, m), j) <==> i < j && Bit(m, j) {
        BitAnd(left, m, j);
        LeftBits(32, i, j);
      }
    }
    And(left, m)
  }

  /** The next non-empty bin above `i`, or 32 when there is none. */
  function NextBin(m: BinMap, i: nat): (n: nat)
    requires i < 32
    ensures i < n <= 32 && (n < 32 ==> Marked(m, n))
    ensures forall j: nat :: i < j < n ==> !Marked(m, j)
  {
    var left := BinsAbove(m, i);
    EmptyMap(left);
    if left != 0 then LeastIndex(left) else 32
  }

  /** What the two lowest bits of `map >> i` tell about bins `i` and `i + 1`. */
  lemma ShiftedBits(m: BinMap, i: nat)
    requires i < 32
    ensures And(Shr(m, i), 3) != 0 <==> Marked(m, i) || (i < 31 && Marked(m, i + 1))
    ensures Shr(m, i) % 2 == 1 <==> Marked(m, i)
    ensures Shr(m, i) == 0 <==> forall j: nat :: i <= j < 32 ==> !Marked(m, j)
  {
    var x := Shr(m, i);
    BitShr(m, i, 0);
    BitShr(m, i, 1);
    BitAbove(m, 32, 32);
    assert And(x / 2, 1) != 0 <==> x / 2 % 2 == 1 by { AndPow2(x / 2, 0); }
    assert x == 0 || And(x, 3) == 2 * And(x / 2, 1) + x % 2;
    ShrBelow(m, i);
    if x == 0 {
      forall j: nat | i <= j < 32 ensures !Marked(m, j) { BitShr(m, i, j - i); BitZero(j - i); }
    } else {
      var j := TrailingZeros(x);
      BitShr(m, i, j);
      if i + j >= 32 { BitAbove(m, 32, i + j); }
      assert Marked(m, i + j);
    }
  }

  lemma {:induction false} ShrBelow(x: nat, s: nat)
    ensures Shr(x, s) <= x
  {
    if s > 0 { ShrBelow(x / 2, s - 1); }
  }

  /** `smallbits << i` has the bins of the map from `i` upwards. */
  lemma ShiftBack(m: BinMap, i: nat, j: nat)
    requires i < 32 && j < 32
    ensures Shr(m, i) < Pow2(32)
    ensures Bit(Shl(Shr(m, i), i, 32), j) <==> i <= j && Bit(m, j)
  {
    var x := Shr(m, i);
    ShrBelow(m, i);
    BitShl(x, i, 32, j);
    if j >= i { BitShr(m, i, j - i); }
  }

  /** `smallmap >> i`. */
  function SmallBits(m: BinMap, i: nat): (b: BinMap) {
    ShrBelow(m, i);
    Shr(m, i)
  }

  /** `(smallbits << i) & left_bits(idx2bit(i))`. */
  function BinsLeft(smallbits: BinMap, i: nat): BinMap
    requires i < 32
  {
    BinsAbove(Shl(smallbits, i, 32), i)
  }

  /** Shifting the bits of a map back and forth before the mask makes no difference. */
  lemma LeftOf(m: BinMap, i: nat, j: nat)
    requires i < 32 && j < 32
    ensures Marked(BinsLeft(SmallBits(m, i), i), j) <==> i < j && Marked(m, j)
  {
    ShiftBack(m, i, j);
  }

  lemma SomeMarked(m: BinMap, i: nat) returns (j: nat)
    requires i < 32 && SmallBits(m, i) != 0
    ensures i <= j < 32 && Marked(m, j)
  {
    ShiftedBits(m, i);
    j :| i <= j < 32 && Marked(m, j);
  }

  /** The least index among the bins to the left is the next marked bin. */
  lemma NextLeft(m: BinMap, i: nat)
    requires i < 32 && SmallBits(m, i) != 0 && !Marked(m, i)
    ensures var left := BinsLeft(SmallBits(m, i), i);
            && left != 0
            && var n := LeastIndex(left);
            && i < n < 32 && Marked(m, n) && forall j: nat :: i <= j < n ==> !Marked(m, j)
  {
    var left := BinsLeft(SmallBits(m, i), i);
    var j := SomeMarked(m, i);
    LeftOf(m, i, j);
    EmptyMap(left);
    var n := LeastIndex(left);
    LeftOf(m, i, n);
    forall j: nat | i <= j < n
      ensures !Marked(m, j)
    {
      LeftOf(m, i, j);
    }
  }
}
