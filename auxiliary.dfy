/** The bit counter of lib/auxiliary.h, used for the parity flag. */
module Auxiliary {
  import opened Types

  /** The count `popcount` computes: the low bit, plus the count of the
      value shifted right by one; 0 once the value is no longer positive. */
  function BitCount(x: int): nat
    decreases if x > 0 then x else 0
  {
    if x <= 0 then 0 else x % 2 + BitCount(x / 2)
  }

  /** `popcount(x)`: a loop that adds `x & 1` to `count` and shifts `x`
      right until it reaches 0. For a non-negative `x`, `x & 1` is `x % 2`
      and `x >>= 1` is `x / 2`. */
  method Popcount(x0: int) returns (count: int)
    ensures count == BitCount(x0)
    ensures x0 <= 0 ==> count == 0
  {
    count := 0;
    var x := x0;
    while x > 0
      invariant count + BitCount(x) == BitCount(x0)
      decreases x
    {
      count := count + x % 2;
      x := x / 2;
    }
  }

  /** The number of 1 bits of `x` among positions `0 .. n-1`, position by
      position: a reference definition that does not shift. */
  function OnesBelow(x: nat, n: nat): nat
  {
    if n == 0 then 0 else OnesBelow(x, n - 1) + (if Bit(x, n - 1) then 1 else 0)
  }

  lemma {:induction false} OnesBelowAtMost(x: nat, n: nat)
    ensures OnesBelow(x, n) <= n
  {
    if n > 0 {
      OnesBelowAtMost(x, n - 1);
    }
  }

  lemma MulGap(d: int, lo: int, hi: int)
    requires d > 0 && lo < hi
    ensures d * hi - d * lo >= d
  {
    var k: nat := hi - lo - 1;
    assert d * k >= 0;
    assert d * hi - d * lo == d + d * k;
  }

  /** Division is determined by a quotient and a remainder in range. */
  lemma DivUnique(x: int, d: int, q: int, r: int)
    requires d > 0 && 0 <= r < d && x == d * q + r
    ensures x / d == q
  {
    var q', r' := x / d, x % d;
    assert x == d * q' + r';
    if q' < q {
      MulGap(d, q', q);
    } else if q' > q {
      MulGap(d, q, q');
    }
  }

  lemma HalfThenDiv(x: nat, b: nat)
    requires b > 0
    ensures (x / 2) / b == x / (2 * b)
  {
    var q, r := x / (2 * b), x % (2 * b);
    assert x == (2 * b) * q + r;
    assert x == 2 * (b * q + r / 2) + r % 2;
    DivUnique(x, 2, b * q + r / 2, r % 2);
    DivUnique(x / 2, b, q, r / 2);
  }

  /** Bit `k + 1` of `x` is bit `k` of `x` shifted right once. */
  lemma BitShift(x: nat, k: nat)
    ensures Bit(x, k + 1) == Bit(x / 2, k)
  {
    HalfThenDiv(x, Pow2(k));
    assert Pow2(k + 1) == 2 * Pow2(k);
  }

  /** Counting the positions `0 .. n` of `x` is counting bit 0 and then
      the positions `0 .. n-1` of `x` shifted right once. */
  lemma {:induction false} OnesBelowShift(x: nat, n: nat)
    ensures OnesBelow(x, n + 1) == x % 2 + OnesBelow(x / 2, n)
  {
    if n == 0 {
      assert Bit(x, 0) == (x % 2 == 1);
    } else {
      OnesBelowShift(x, n - 1);
      BitShift(x, n - 1);
    }
  }

  /** `popcount(x)` equals the number of 1 bits of `x`, for every `x` that
      fits in `n` bits. */
  lemma {:induction false} PopcountCountsOnes(x: nat, n: nat)
    requires x < Pow2(n)
    ensures BitCount(x) == OnesBelow(x, n)
  {
    if n == 0 {
      assert x == 0;
    } else {
      assert x / 2 < Pow2(n - 1);
      PopcountCountsOnes(x / 2, n - 1);
      OnesBelowShift(x, n - 1);
    }
  }

  /** `popcount(0)` is 0: the loop body is never entered. */
  lemma PopcountZero()
    ensures BitCount(0) == 0
  {
  }

  /** The recurrence the loop maintains: for x > 0, popcount(x) is
      `(x & 1) + popcount(x >> 1)`. */
  lemma PopcountStep(x: int)
    requires x > 0
    ensures BitCount(x) == x % 2 + BitCount(x / 2)
  {
  }

  /** The number of 1 bits among the low `n` bits of `x`: the count
      `popcount(x & (2^n - 1))` computes, taken one bit per position. */
  function LowBitCount(x: nat, n: nat): nat
  {
    if n == 0 then 0 else x % 2 + LowBitCount(x / 2, n - 1)
  }

  /** Splitting `x` at bit 0: the remainder modulo `2^(n+1)` keeps bit 0 of
      `x`, and halving it gives the remainder of `x / 2` modulo `2^n`. */
  lemma ModHalf(x: nat, n: nat)
    ensures (x % Pow2(n + 1)) % 2 == x % 2
    ensures (x % Pow2(n + 1)) / 2 == (x / 2) % Pow2(n)
  {
    var p := Pow2(n);
    assert Pow2(n + 1) == 2 * p;
    var q, y := x / (2 * p), x % (2 * p);
    assert x == 2 * (p * q + y / 2) + y % 2;
    DivUnique(x, 2, p * q + y / 2, y % 2);
    DivUnique(x / 2, p, q, y / 2);
  }

  /** Counting the low `n` bits one by one is `popcount` of `x` masked to
      `n` bits. */
  lemma {:induction false} LowBitCountIsPopcount(x: nat, n: nat)
    ensures LowBitCount(x, n) == BitCount(x % Pow2(n))
  {
    if n > 0 {
      LowBitCountIsPopcount(x / 2, n - 1);
      ModHalf(x, n - 1);
    }
  }

  /** The count of the low eight bits is `popcount(x & 0xff)`. */
  lemma LowByteCount(x: nat)
    ensures LowBitCount(x, 8) == BitCount(x % 0x100)
  {
    Pow2Eight();
    LowBitCountIsPopcount(x, 8);
  }

  /** For an 8-bit argument the count lies in 0..8 and is the number of
      1 bits among the eight positions. */
  lemma PopcountOfByte(x: Byte)
    ensures 0 <= BitCount(x) <= 8
    ensures BitCount(x) == OnesBelow(x, 8)
  {
    Pow2Eight();
    PopcountCountsOnes(x, 8);
    OnesBelowAtMost(x, 8);
  }
}
