/** Chunk sizes, padded requests, head words with their flag bits, and tree bin indices of the 64-bit build. */
module Sizes {
  import opened Words

  const WORD: nat := 0x1_0000_0000_0000_0000  // size_t values are below WORD
  const MIN_CHUNK_SIZE: nat := 32
  const MIN_LARGE_SIZE: nat := 256
  const MAX_SMALL_REQUEST: nat := 240
  const MIN_REQUEST: nat := 23
  const MAX_REQUEST: nat := 0xFFFF_FFFF_FFFF_FF80
  const TOP_FOOT_SIZE: nat := 72
  const HEADER_SIZE: nat := 936  // the padded size of a malloc_state

  // ----- head words -----

  function ChunkSize(head: nat): nat { head - head % 8 }

  /** `head & ~INUSE_BITS`: the size, and the third lowest bit. */
  function Bare(head: nat): nat { head / 2 / 2 * 4 }

  predicate Cinuse(head: nat) { head / 2 % 2 == 1 }

  predicate Pinuse(head: nat) { head % 2 == 1 }

  function SetPinuse(head: nat): nat { if Pinuse(head) then head else head + 1 }

  function ClearPinuse(head: nat): nat { if Pinuse(head) then head - 1 else head }

  // ----- requests -----

  function PadRequest(bytes: nat): nat { (bytes + 15) / 8 * 8 }

  /** The chunk size that serves a request. */
  function RequestSize(bytes: nat): (nb: nat)
    requires bytes < MAX_REQUEST
    ensures nb % 8 == 0 && MIN_CHUNK_SIZE <= nb < WORD && bytes + 8 <= nb
    ensures nb < MIN_LARGE_SIZE <==> bytes <= MAX_SMALL_REQUEST
    ensures if bytes < MIN_REQUEST then nb == MIN_CHUNK_SIZE else nb < bytes + 16
  {
    if bytes < MIN_REQUEST then MIN_CHUNK_SIZE else PadRequest(bytes)
  }

  // ----- tree bin indices -----

  /** The index by definition: two bins for every power of two, the last one open-ended. */
  function TreeIndex(s: nat): nat {
    var x := s / 256;
    if x == 0 then 0
    else if x > 0xFFFF then 31
    else 2 * FloorLog2(x) + (if Bit(s, FloorLog2(x) + 7) then 1 else 0)
  }

  /** The size of the smallest chunk held in bin `i`. */
  function MinSize(i: nat): nat {
    Pow2(i / 2 + 8) + (if i % 2 == 1 then Pow2(i / 2 + 7) else 0)
  }

  /** Unsigned subtraction in a word of `w` digits. */
  function Sub(y: nat, z: nat, w: nat): nat
    requires y < Pow2(w) && z < Pow2(w)
  {
    if z <= y then y - z else Pow2(w) - (z - y)
  }

  /** `((y - limit) >> h) & (1 << l)`. */
  function Borrow(y: nat, limit: nat, l: nat, h: nat, w: nat): nat
    requires y < Pow2(w) && limit < Pow2(w)
  {
    And(Shr(Sub(y, limit, w), h), Pow2(l))
  }

  /**
   The lines of the portable macro from mask `1 << l` down to mask 2, then the final test, for a
   value of `h` digits in a word of `w` digits. `n` counts the digits shifted so far. The line with
   mask `m` compares against `Pow2(h - m)`, that is 0x100, 0x1000 and 0x4000 for 16 digits: it
   borrows from a subtraction and shifts by what it borrowed.
   */
  function LogLines(y: nat, l: nat, n: nat, h: nat, w: nat): int
    requires y < Pow2(w) && h < w
    decreases l
  {
    if l == 0 then
      h - 2 - n + Shr(y, if h > 0 then h - 1 else 0)
    else
      Pow2Strict(h, w);
      Pow2Monotone(h - Pow2(l), h);
      var k := Borrow(y, Pow2(h - Pow2(l)), l, h, w);
      LogLines(Shl(y, k, w), l - 1, n + k, h, w)
  }

  /** The logarithm of a 16-bit value in an unsigned int. */
  function ComputeLog2(x: nat): int
    requires x <= 0xFFFF
  {
    Powers();
    Pow2Strict(16, 32);
    LogLines(x, 3, 0, 16, 32)
  }

  function ComputeTreeIndex(s: nat): nat {
    var x := s / 256;
    if x == 0 then 0
    else if x > 0xFFFF then 31
    else
      Log2Correct(x);
      var k := ComputeLog2(x);
      2 * k + (if Bit(s, k + 7) then 1 else 0)
  }

  /** The x86 form: the shifted size is first truncated to an unsigned int. */
  function ComputeTreeIndexX86(s: nat): nat {
    var x := s / 256 % 0x1_0000_0000;
    if x == 0 then 0
    else if x > 0xFFFF then 31
    else 2 * FloorLog2(x) + (if Bit(s, FloorLog2(x) + 7) then 1 else 0)
  }

  /** The subtraction borrows exactly below the limit, and a borrow sets every high digit. */
  lemma BorrowSpec(y: nat, limit: nat, l: nat, h: nat, w: nat)
    requires y < Pow2(h) && limit <= Pow2(h) && l + h < w
    ensures Pow2(h) < Pow2(w)
    ensures Borrow(y, limit, l, h, w) == if y < limit then Pow2(l) else 0
  {
    Pow2Strict(h, w);
    var d := Sub(y, limit, w);
    AndPow2Value(Shr(d, h), l);
    BitShr(d, h, l);
    if y < limit {
      var r := limit - y - 1;
      assert d == Not(r, w);
      BitNot(r, w, l + h);
      BitAbove(r, h, l + h);
    } else {
      BitAbove(d, h, l + h);
    }
  }

  lemma LogBelow(y: nat, k: nat)
    requires y > 0
    ensures y < Pow2(k) <==> FloorLog2(y) < k
  {
    if FloorLog2(y) < k {
      Pow2Monotone(FloorLog2(y) + 1, k);
    } else {
      Pow2Monotone(k, FloorLog2(y));
    }
  }

  lemma LogDouble(y: nat)
    requires y > 0
    ensures FloorLog2(2 * y) == FloorLog2(y) + 1
  {
    assert 2 * y / 2 == y;
  }

  /** A shift that loses no digit adds to the logarithm. */
  lemma {:induction false} ShlLog(y: nat, s: nat, n: nat)
    requires y > 0 && FloorLog2(y) + s < n
    ensures y < Pow2(n)
    ensures Shl(y, s, n) > 0 && FloorLog2(Shl(y, s, n)) == FloorLog2(y) + s
    decreases s
  {
    LogBelow(y, n);
    if s > 0 {
      LogDouble(y);
      LogBelow(2 * y, n);
      ShlLog(2 * y, s - 1, n);
      ShlStep(y, s, n);
    }
  }

  lemma ShlStep(y: nat, s: nat, n: nat)
    requires 2 * y < Pow2(n) && s > 0
    ensures Shl(y, s, n) == Shl(2 * y, s - 1, n)
  {
  }

  /** Every line keeps the sum of the logarithm and the digits shifted. */
  lemma {:induction false} LogLinesCorrect(y: nat, l: nat, n: nat, m: nat, h: nat, w: nat)
    requires m == Pow2(l) && 2 * m <= h && 2 * h <= w
    requires y > 0 && h - 2 * m <= FloorLog2(y) < h
    ensures y < Pow2(w) && LogLines(y, l, n, h, w) == FloorLog2(y) - n
    decreases l
  {
    LogBelow(y, w);
    if l == 0 {
      TopLog(y, h);
    } else {
      var k := if FloorLog2(y) < h - m then m else 0;
      ShlLog(y, k, w);
      LogLinesCorrect(Shl(y, k, w), l - 1, n + k, m / 2, h, w);
      LineUnfold(y, l, n, m, h, w);
    }
  }

  lemma LineUnfold(y: nat, l: nat, n: nat, m: nat, h: nat, w: nat)
    requires y > 0 && FloorLog2(y) < h && m == Pow2(l) && 2 * m <= h && 2 * h <= w && l > 0
    ensures y < Pow2(w)
    ensures var k := if FloorLog2(y) < h - m then m else 0;
            LogLines(y, l, n, h, w) == LogLines(Shl(y, k, w), l - 1, n + k, h, w)
  {
    LineBorrow(y, l, m, h, w);
  }

  lemma LineBorrow(y: nat, l: nat, m: nat, h: nat, w: nat)
    requires y > 0 && FloorLog2(y) < h && m == Pow2(l) && 2 * m <= h && 2 * h <= w
    ensures y < Pow2(w) && Pow2(h - m) < Pow2(w)
    ensures Borrow(y, Pow2(h - m), l, h, w) == if FloorLog2(y) < h - m then m else 0
  {
    LogBelow(y, w);
    LogBelow(y, h);
    LogBelow(y, h - m);
    Pow2Above(l);
    Pow2Monotone(h - m, h);
    BorrowSpec(y, Pow2(h - m), l, h, w);
  }

  lemma TopLog(y: nat, h: nat)
    requires y > 0 && 2 <= h && h - 2 <= FloorLog2(y) < h
    ensures FloorLog2(y) == h - 2 + Shr(y, h - 1)
  {
    LogBelow(y, h - 1);
    LogBelow(y, h);
    ShrTop(y, h - 1);
  }

  lemma Log2Correct(x: nat)
    requires 0 < x <= 0xFFFF
    ensures ComputeLog2(x) == FloorLog2(x) <= 15
  {
    Powers();
    LogBelow(x, 16);
    assert Pow2(3) == 8;
    LogLinesCorrect(x, 3, 0, 8, 16, 32);
  }

  lemma {:induction false} ShrTop(y: nat, n: nat)
    requires y < 2 * Pow2(n)
    ensures Shr(y, n) == if y < Pow2(n) then 0 else 1
  {
    if n > 0 { ShrTop(y / 2, n - 1); }
  }

  /** The branch-free index is the index of the definition, for every size. */
  lemma IndexCorrect(s: nat)
    ensures ComputeTreeIndex(s) == TreeIndex(s) < 32
  {
    var x := s / 256;
    if 0 < x <= 0xFFFF { Log2Correct(x); }
  }

  /** A bin holds exactly the sizes from its minimum to the minimum of the next bin. */
  lemma IndexRange(s: nat)
    requires s >= MIN_LARGE_SIZE
    ensures TreeIndex(s) < 32
    ensures MinSize(TreeIndex(s)) <= s
    ensures TreeIndex(s) < 31 ==> s < MinSize(TreeIndex(s) + 1)
  {
    if s / 256 > 0xFFFF {
      LastMinSize(31);
    } else {
      MiddleIndex(s, FloorLog2(s / 256));
      MiddleRange(s, FloorLog2(s / 256));
    }
  }

  lemma MiddleIndex(s: nat, k: nat)
    requires 0 < s / 256 <= 0xFFFF && k == FloorLog2(s / 256)
    ensures TreeIndex(s) == 2 * k + (if Bit(s, k + 7) then 1 else 0) <= 31
  {
    LastLog(s / 256);
  }

  lemma MiddleRange(s: nat, k: nat)
    requires Pow2(k) <= s / 256 < Pow2(k + 1)
    ensures var i := 2 * k + (if Bit(s, k + 7) then 1 else 0);
            MinSize(i) <= s < MinSize(i + 1)
  {
    ScaledSize(s, k);
    BinHalves(s, k);
  }

  lemma LastLog(x: nat)
    requires 0 < x <= 0xFFFF
    ensures FloorLog2(x) <= 15
  {
    Powers();
    LogBelow(x, 16);
  }

  lemma LastMinSize(i: nat)
    requires i == 31
    ensures MinSize(i) == 0xC0_0000
  {
    Pow2Sum(8, 14);
    Pow2Sum(8, 15);
    Powers();
  }

  /** The two bins of a power of two split its range in the middle. */
  lemma BinHalves(s: nat, k: nat)
    requires Pow2(k + 8) <= s < Pow2(k + 9)
    ensures var i := 2 * k + (if Bit(s, k + 7) then 1 else 0);
            MinSize(i) <= s < MinSize(i + 1)
  {
    HalfBit(s, k + 8);
  }

  lemma ScaledSize(s: nat, k: nat)
    requires Pow2(k) <= s / 256 < Pow2(k + 1)
    ensures Pow2(k + 8) <= s < Pow2(k + 9)
  {
    Pow2Sum(k, 8);
    Pow2Sum(k + 1, 8);
    Powers();
  }

  /** Below the leading one, the next digit tells the halves of the range apart. */
  lemma {:induction false} HalfBit(s: nat, k: nat)
    requires k > 0 && Pow2(k) <= s < Pow2(k + 1)
    ensures Bit(s, k - 1) <==> s >= Pow2(k) + Pow2(k - 1)
  {
    if k > 1 {
      HalfBit(s / 2, k - 1);
    }
  }

  /** The x86 form agrees exactly below 2^40 and where the truncated size still lands in bin 31. */
  lemma X86Agrees(s: nat)
    ensures ComputeTreeIndexX86(s) == TreeIndex(s) <==>
            s < 0x100_0000_0000 || s / 256 % 0x1_0000_0000 >= 0xC000
  {
    var x := s / 256 % 0x1_0000_0000;
    if s < 0x100_0000_0000 {
      assert x == s / 256;
    } else {
      assert TreeIndex(s) == 31;
      X86LastBin(s, x);
    }
  }

  /** The two forms file chunks of a multiple of 2^40 bytes differently. */
  lemma X86Differs(k: nat, s: nat)
    requires k > 0 && s == k * 0x100_0000_0000
    ensures ComputeTreeIndexX86(s) != TreeIndex(s)
  {
    var x := s / 256;
    assert x == k * 0x1_0000_0000 && x % 0x1_0000_0000 == 0;
    X86Agrees(s);
  }

  lemma X86LastBin(s: nat, x: nat)
    requires x == s / 256 % 0x1_0000_0000
    ensures ComputeTreeIndexX86(s) == 31 <==> x >= 0xC000
  {
    if 0 < x <= 0xFFFF {
      TruncatedBit(s);
      LastBin(x);
      assert ComputeTreeIndexX86(s) == 31 <==> FloorLog2(x) == 15 && Bit(s, FloorLog2(x) + 7);
    }
  }

  lemma TruncatedBit(s: nat)
    ensures Bit(s, 22) == Bit(s / 256 % 0x1_0000_0000, 14)
  {
    BitEight(s);
    UintPower(32);
    BitLow(s / 256, 32, 14);
  }

  lemma UintPower(n: nat)
    requires n == 32
    ensures Pow2(n) == 0x1_0000_0000
  {
    Powers();
    Pow2Sum(n / 2, n / 2);
  }

  lemma LastBin(x: nat)
    requires 0 < x <= 0xFFFF
    ensures FloorLog2(x) <= 15
    ensures FloorLog2(x) == 15 && Bit(x, 14) <==> x >= 0xC000
  {
    Log2Correct(x);
    var k := FloorLog2(x);
    Powers();
    if k == 15 { HalfBit(x, 15); }
    if k < 15 { Pow2Monotone(k + 1, 15); }
  }

  lemma BitEight(s: nat)
    ensures Bit(s, 22) == Bit(s / 256, 14)
  {
    assert Bit(s, 22) == Bit(s / 2, 21) == Bit(s / 2 / 2, 20) == Bit(s / 2 / 2 / 2, 19);
    var t := s / 8;
    assert Bit(t, 19) == Bit(t / 2, 18) == Bit(t / 2 / 2, 17) == Bit(t / 2 / 2 / 2, 16);
    var u := t / 8;
    assert Bit(u, 16) == Bit(u / 2, 15) == Bit(u / 2 / 2, 14);
  }

  /** Reducing modulo a power of two keeps the digits below it. */
  lemma {:induction false} BitLow(x: nat, n: nat, i: nat)
    requires i < n
    ensures Bit(x % Pow2(n), i) == Bit(x, i)
  {
    ModHalf(x, n);
    if i > 0 {
      BitLow(x / 2, n - 1, i - 1);
    }
  }

  lemma ModHalf(x: nat, n: nat)
    requires n > 0
    ensures x % Pow2(n) % 2 == x % 2
    ensures x % Pow2(n) / 2 == x / 2 % Pow2(n - 1)
  {
    var p := Pow2(n - 1);
    var q, r := x / 2 / p, x / 2 % p;
    assert x == q * (2 * p) + (2 * r + x % 2);
    ModUnique(x, 2 * p, q, 2 * r + x % 2);
  }

  lemma ModUnique(x: nat, d: nat, q: nat, r: nat)
    requires d > 0 && x == q * d + r && r < d
    ensures x % d == r
  {
    var e := q - x / d;
    assert e * d == x % d - r;
    assert e >= 1 ==> e * d >= d;
    assert e <= -1 ==> -e * d >= d;
  }
}
