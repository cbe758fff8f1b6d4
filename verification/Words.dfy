/**
 Machine words as natural numbers: powers of two, binary digits and the bitwise operators
 that the allocator applies to its 32-bit bin maps.
 */
module Words {

  function Pow2(n: int): (r: nat)
    ensures r > 0
  {
    if n <= 0 then 1 else 2 * Pow2(n - 1)
  }

  /** The powers that occur as constants in the code. */
  lemma Powers()
    ensures Pow2(0) == 1 && Pow2(2) == 4 && Pow2(4) == 0x10 && Pow2(8) == 0x100
    ensures Pow2(14) == 0x4000 && Pow2(15) == 0x8000 && Pow2(16) == 0x1_0000
  {
    Pow2Sum(4, 4);
    Pow2Sum(8, 8);
    Pow2Sum(8, 6);
    Pow2Sum(8, 7);
  }

  lemma {:induction false} Pow2Sum(a: nat, b: nat)
    ensures Pow2(a + b) == Pow2(a) * Pow2(b)
  {
    if a > 0 {
      Pow2Sum(a - 1, b);
      assert Pow2(a + b) == 2 * (Pow2(a - 1) * Pow2(b));
    }
  }

  lemma {:induction false} Pow2Above(n: nat)
    ensures n < Pow2(n)
  {
    if n > 0 { Pow2Above(n - 1); }
  }

  lemma {:induction false} Pow2Monotone(a: int, b: int)
    requires a <= b
    ensures Pow2(a) <= Pow2(b)
    decreases b - a
  {
    if a < b {
      Pow2Monotone(a, b - 1);
    }
  }

  lemma {:induction false} Pow2Strict(a: nat, b: nat)
    requires a < b
    ensures 2 * Pow2(a) <= Pow2(b)
  {
    Pow2Monotone(a + 1, b);
  }

  /** The exponent of the leading one digit. */
  function FloorLog2(x: nat): (k: nat)
    requires x > 0
    ensures Pow2(k) <= x < Pow2(k + 1)
  {
    if x == 1 then 0 else
      var k := FloorLog2(x / 2);
      assert Pow2(k + 2) == 2 * Pow2(k + 1);
      k + 1
  }

  predicate Bit(x: nat, i: nat) {
    if i == 0 then x % 2 == 1 else Bit(x / 2, i - 1)
  }

  function And(x: nat, y: nat): nat {
    if x == 0 || y == 0 then 0
    else 2 * And(x / 2, y / 2) + (if x % 2 == 1 && y % 2 == 1 then 1 else 0)
  }

  function Or(x: nat, y: nat): nat {
    if x == 0 && y == 0 then 0
    else 2 * Or(x / 2, y / 2) + (if x % 2 == 1 || y % 2 == 1 then 1 else 0)
  }

  /** All ones but the digits of `x`, in a word of `n` digits. */
  function Not(x: nat, n: nat): nat
    requires x < Pow2(n)
  {
    Pow2(n) - 1 - x
  }

  /** Unsigned negation in a word of `n` digits. */
  function Neg(x: nat, n: nat): nat
    requires x < Pow2(n)
  {
    if x == 0 then 0 else Pow2(n) - x
  }

  function Shr(x: nat, s: nat): nat {
    if s == 0 then x else Shr(x / 2, s - 1)
  }

  /** A left shift by `s` in a word of `n` digits; the digits shifted out are lost. */
  function Shl(x: nat, s: nat, n: nat): (r: nat)
    requires x < Pow2(n)
    ensures r < Pow2(n)
    decreases s
  {
    if s == 0 then x
    else Shl(if 2 * x < Pow2(n) then 2 * x else 2 * x - Pow2(n), s - 1, n)
  }

  lemma {:induction false} BitZero(i: nat)
    ensures !Bit(0, i)
  {
    if i > 0 { BitZero(i - 1); }
  }

  lemma {:induction false} BitAnd(x: nat, y: nat, i: nat)
    ensures Bit(And(x, y), i) <==> Bit(x, i) && Bit(y, i)
  {
    if x == 0 || y == 0 {
      BitZero(i);
    } else if i > 0 {
      BitAnd(x / 2, y / 2, i - 1);
    }
  }

  lemma {:induction false} BitOr(x: nat, y: nat, i: nat)
    ensures Bit(Or(x, y), i) <==> Bit(x, i) || Bit(y, i)
  {
    if x == 0 && y == 0 {
      BitZero(i);
    } else if i > 0 {
      BitOr(x / 2, y / 2, i - 1);
    }
  }

  lemma {:induction false} BitNot(x: nat, n: nat, i: nat)
    requires x < Pow2(n) && i < n
    ensures Bit(Not(x, n), i) <==> !Bit(x, i)
  {
    assert Pow2(n) == 2 * Pow2(n - 1);
    if i > 0 {
      assert Not(x, n) / 2 == Not(x / 2, n - 1);
      BitNot(x / 2, n - 1, i - 1);
    }
  }

  lemma {:induction false} BitPow2(k: nat, i: nat)
    ensures Bit(Pow2(k), i) <==> i == k
  {
    if k == 0 && i > 0 {
      BitZero(i - 1);
    } else if k > 0 && i > 0 {
      BitPow2(k - 1, i - 1);
    }
  }

  /** Testing a digit with a mask. */
  lemma {:induction false} AndPow2(x: nat, i: nat)
    ensures And(x, Pow2(i)) != 0 <==> Bit(x, i)
  {
    if x == 0 {
      BitZero(i);
    } else if i > 0 {
      AndPow2(x / 2, i - 1);
    } else {
      assert And(x / 2, 0) == 0;
    }
  }

  lemma {:induction false} AndPow2Value(x: nat, l: nat)
    ensures And(x, Pow2(l)) == if Bit(x, l) then Pow2(l) else 0
  {
    if x == 0 {
      BitZero(l);
    } else if l > 0 {
      AndPow2Value(x / 2, l - 1);
    }
  }

  lemma {:induction false} AndBelow(x: nat, y: nat)
    ensures And(x, y) <= y && And(x, y) <= x
  {
    if x != 0 && y != 0 { AndBelow(x / 2, y / 2); }
  }

  lemma {:induction false} OrBelow(x: nat, y: nat, n: nat)
    requires x < Pow2(n) && y < Pow2(n)
    ensures Or(x, y) < Pow2(n)
  {
    if x != 0 || y != 0 { OrBelow(x / 2, y / 2, n - 1); }
  }

  lemma {:induction false} BitShr(x: nat, s: nat, i: nat)
    ensures Bit(Shr(x, s), i) <==> Bit(x, i + s)
  {
    if s > 0 { BitShr(x / 2, s - 1, i); }
  }

  lemma {:induction false} BitDouble(x: nat, n: nat, i: nat)
    requires x < Pow2(n) && i < n
    ensures Bit(if 2 * x < Pow2(n) then 2 * x else 2 * x - Pow2(n), i) <==> i > 0 && Bit(x, i - 1)
  {
    var y := if 2 * x < Pow2(n) then 2 * x else 2 * x - Pow2(n);
    if i > 0 && 2 * x >= Pow2(n) {
      assert y / 2 == x - Pow2(n - 1);
      DropTop(x, n - 1, i - 1);
    }
  }

  lemma {:induction false} DropTop(x: nat, n: nat, i: nat)
    requires Pow2(n) <= x < 2 * Pow2(n) && i < n
    ensures Bit(x - Pow2(n), i) <==> Bit(x, i)
  {
    if i > 0 {
      assert (x - Pow2(n)) / 2 == x / 2 - Pow2(n - 1);
      DropTop(x / 2, n - 1, i - 1);
    }
  }

  lemma {:induction false} BitShl(x: nat, s: nat, n: nat, i: nat)
    requires x < Pow2(n) && i < n
    ensures Bit(Shl(x, s, n), i) <==> i >= s && Bit(x, i - s)
    decreases s
  {
    if s > 0 {
      var y := if 2 * x < Pow2(n) then 2 * x else 2 * x - Pow2(n);
      BitShl(y, s - 1, n, i);
      if i >= s - 1 { BitDouble(x, n, i - (s - 1)); }
    }
  }

  // ----- the bit tricks -----

  /** How many zero digits precede the first one digit. */
  function TrailingZeros(x: nat): (k: nat)
    requires x > 0
    ensures Bit(x, k)
    ensures forall j: nat :: j < k ==> !Bit(x, j)
  {
    if x % 2 == 1 then 0 else TrailingZeros(x / 2) + 1
  }

  lemma {:induction false} AndComplement(y: nat, n: nat)
    requires y < Pow2(n)
    ensures And(y, Not(y, n)) == 0
  {
    if n > 0 && y != 0 {
      assert Not(y, n) / 2 == Not(y / 2, n - 1);
      AndComplement(y / 2, n - 1);
    }
  }

  /** `x & -x` isolates the least set digit. */
  lemma {:induction false} LeastBit(x: nat, n: nat)
    requires 0 < x < Pow2(n)
    ensures And(x, Neg(x, n)) == Pow2(TrailingZeros(x))
    ensures TrailingZeros(x) < n
  {
    var y := Pow2(n) - x;
    assert y / 2 == if x % 2 == 1 then Not(x / 2, n - 1) else Pow2(n - 1) - x / 2;
    if x % 2 == 1 {
      AndComplement(x / 2, n - 1);
    } else {
      LeastBit(x / 2, n - 1);
    }
  }

  /** The word whose digits are one exactly from `k` upwards. */
  lemma {:induction false} BitHigh(n: nat, k: nat, i: nat)
    requires k <= n
    ensures Pow2(k) <= Pow2(n)
    ensures Bit(Pow2(n) - Pow2(k), i) <==> k <= i < n
  {
    Pow2Monotone(k, n);
    if k == n {
      BitZero(i);
    } else if k > 0 {
      if i > 0 { BitHigh(n - 1, k - 1, i - 1); }
    } else {
      BitNot(0, n, if i < n then i else 0);
      BitZero(if i < n then i else 0);
      if i >= n { BitAbove(Pow2(n) - 1, n, i); }
    }
  }

  lemma {:induction false} BitAbove(x: nat, n: nat, i: nat)
    requires x < Pow2(n) && n <= i
    ensures !Bit(x, i)
  {
    if i == 0 {
    } else if n == 0 {
      BitZero(i);
    } else {
      BitAbove(x / 2, n - 1, i - 1);
    }
  }

  /** `(x << 1) | -(x << 1)` for a one-digit word: the digits strictly above. */
  lemma LeftBits(n: nat, k: nat, i: nat)
    requires k < n && i < n
    ensures Pow2(k) < Pow2(n)
    ensures var y := Shl(Pow2(k), 1, n);
            Bit(Or(y, Neg(y, n)), i) <==> k < i
  {
    Pow2Strict(k, n);
    var y := Shl(Pow2(k), 1, n);
    assert 2 * Pow2(k) == Pow2(k + 1);
    if k + 1 == n {
      assert y == 0;
      BitZero(i);
    } else {
      Pow2Strict(k + 1, n);
      assert y == Pow2(k + 1) by { assert Shl(Pow2(k + 1), 0, n) == Pow2(k + 1); }
      BitOr(y, Neg(y, n), i);
      BitPow2(k + 1, i);
      BitHigh(n, k + 1, i);
    }
  }
}
