/** The bit arithmetic of the queue: `Integer.bitCount` for the power-of-two
    check, and the `&` with `bufferSize - 1` that maps a sequence number to a
    slot. Java integers are two's complement, so a (possibly negative) value
    is taken modulo 2^32 or 2^64 before its bits are looked at. */
module Bits {
  import opened Common

  function Pow2(k: nat): (r: nat)
    ensures r >= 1
  {
    if k == 0 then 1 else 2 * Pow2(k - 1)
  }

  /** `n` is 1, 2, 4, 8, ... */
  predicate PowerOfTwo(n: int)
    decreases if n < 0 then 0 else n
  {
    n == 1 || (n > 1 && n % 2 == 0 && PowerOfTwo(n / 2))
  }

  /** Bitwise AND of two non-negative numbers: never more than either. */
  function BitAnd(a: nat, b: nat): (r: nat)
    ensures r <= a && r <= b
  {
    if a == 0 || b == 0 then 0
    else 2 * BitAnd(a / 2, b / 2) + (if a % 2 == 1 && b % 2 == 1 then 1 else 0)
  }

  /** The number of one bits of a non-negative number. */
  function PopCount(a: nat): nat
  {
    if a == 0 then 0 else PopCount(a / 2) + a % 2
  }

  /** `Integer.bitCount`: the one bits of the 32-bit two's complement form. */
  function BitCount32(x: int): nat
  {
    PopCount(x % TwoTo32)
  }

  /** `sequence & mask` on Java `long`s, for a non-negative mask: the result is
      the AND of the 64-bit two's complement forms. */
  function LongAnd(s: int, mask: nat): (r: nat)
    ensures r <= mask
  {
    BitAnd(s % TwoTo64, mask)
  }

  /** A positive number has exactly one bit set iff it is a power of two. */
  lemma {:induction false} PopCountOne(n: nat)
    requires n > 0
    ensures PopCount(n) == 1 <==> PowerOfTwo(n)
  {
    if n > 1 {
      PopCountOne(n / 2);
      if n % 2 == 1 {
        assert PopCount(n) == PopCount(n / 2) + 1;
        assert PopCount(n / 2) >= 1 by { PopCountPositive(n / 2); }
      }
    }
  }

  lemma {:induction false} PopCountPositive(n: nat)
    requires n > 0
    ensures PopCount(n) >= 1
  {
    if n % 2 == 0 {
      PopCountPositive(n / 2);
    }
  }

  /** The powers of two are exactly the `Pow2(k)`. */
  lemma {:induction false} PowerOfTwoIsPow2(k: nat)
    ensures PowerOfTwo(Pow2(k))
  {
    if k > 0 {
      PowerOfTwoIsPow2(k - 1);
      assert Pow2(k) / 2 == Pow2(k - 1);
    }
  }

  /** Every power of two is some `Pow2(k)`. */
  lemma {:induction false} PowerOfTwoLog(n: int) returns (k: nat)
    requires PowerOfTwo(n)
    ensures n == Pow2(k)
    decreases if n < 0 then 0 else n
  {
    if n == 1 {
      k := 0;
    } else {
      var k' := PowerOfTwoLog(n / 2);
      k := k' + 1;
    }
  }

  /** The only power of two in `[2^k, 2^(k+1))` is `2^k`. */
  lemma {:induction false} PowerOfTwoBetween(n: int, k: nat)
    requires PowerOfTwo(n) && Pow2(k) <= n < Pow2(k + 1)
    ensures n == Pow2(k)
  {
    if k > 0 {
      assert n > 1;
      PowerOfTwoBetween(n / 2, k - 1);
    }
  }

  /** `Integer.bitCount(x) == 1` for a Java `int` holds exactly for the
      positive powers of two and for `Integer.MIN_VALUE` (whose form is a
      single sign bit). */
  lemma BitCountOne(x: int)
    requires IsInt32(x)
    ensures BitCount32(x) == 1 <==> (x > 0 && PowerOfTwo(x)) || x == IntMin
  {
    if x == 0 {
      assert BitCount32(x) == 0;
    } else if x > 0 {
      assert x % TwoTo32 == x;
      PopCountOne(x);
    } else {
      BitCountOneNegative(x);
    }
  }

  /** A negative `int` has a single one bit only when it is `Integer.MIN_VALUE`. */
  lemma BitCountOneNegative(x: int)
    requires IntMin <= x < 0
    ensures BitCount32(x) == 1 <==> x == IntMin
  {
    Pow2Values();
    var u := x % TwoTo32;
    assert u == x + TwoTo32;
    PopCountOne(u);
    if PowerOfTwo(u) {
      PowerOfTwoBetween(u, 31);
    } else {
      PowerOfTwoIsPow2(31);
    }
  }

  /** Keeping the low `k` bits is the remainder modulo `2^k`. */
  lemma {:induction false} LowBits(a: nat, k: nat)
    ensures BitAnd(a, Pow2(k) - 1) == a % Pow2(k)
  {
    if k == 0 {
      assert BitAnd(a, 0) == 0;
      RemainderUnique(a, 1, a, 0);
    } else if a == 0 {
      RemainderUnique(0, Pow2(k), 0, 0);
    } else {
      var m := Pow2(k - 1);
      assert Pow2(k) == 2 * m;
      LowBits(a / 2, k - 1);
      LowBitsStep(a, m);
    }
  }

  /** One bit more: if the low bits of `a / 2` under `m - 1` are `(a / 2) mod m`,
      the low bits of `a` under `2m - 1` are `a mod 2m`. */
  lemma LowBitsStep(a: nat, m: nat)
    requires a > 0 && m >= 1 && BitAnd(a / 2, m - 1) == (a / 2) % m
    ensures BitAnd(a, 2 * m - 1) == a % (2 * m)
  {
    var mask := 2 * m - 1;
    HalfOfOdd(m);
    BitAndOdd(a, mask);
    var low := BitAnd(a / 2, mask / 2);
    assert low == (a / 2) % m;
    SplitRemainder(a, m);
    assert a % (2 * m) == 2 * low + a % 2;
  }

  lemma HalfOfOdd(m: nat)
    requires m >= 1
    ensures (2 * m - 1) / 2 == m - 1 && (2 * m - 1) % 2 == 1
  {
  }

  /** Against an odd mask the lowest bit of `a` is kept as it is. */
  lemma BitAndOdd(a: nat, b: nat)
    requires a > 0 && b % 2 == 1
    ensures BitAnd(a, b) == 2 * BitAnd(a / 2, b / 2) + a % 2
  {
  }

  /** `a mod 2m` from `a div 2` and the last bit. */
  lemma SplitRemainder(a: nat, m: nat)
    requires m > 0
    ensures a % (2 * m) == 2 * ((a / 2) % m) + a % 2
  {
    var h, r := a / 2, a % 2;
    var q, t := h / m, h % m;
    assert a == 2 * m * q + (2 * t + r) by {
      assert a == 2 * h + r;
      assert h == m * q + t;
    }
    RemainderUnique(a, 2 * m, q, 2 * t + r);
  }

  /** The remainder is the unique `r` in `[0, n)` with `a == n * q + r`. */
  lemma RemainderUnique(a: int, n: int, q: int, r: int)
    requires n > 0 && 0 <= r < n && a == n * q + r
    ensures a % n == r
  {
    var q', r' := a / n, a % n;
    assert n * (q - q') == r' - r;
    if q - q' >= 1 {
      MulAtLeast(q - q', n);
    } else if q - q' <= -1 {
      MulAtLeast(q' - q, n);
    }
  }

  lemma MulAtLeast(d: int, n: int)
    requires d >= 1 && n > 0
    ensures n * d >= n
  {
  }

  /** Taking a remainder modulo `2^j` first does not change the remainder
      modulo a smaller power `2^k`. */
  lemma ModPow2Twice(s: int, k: nat, j: nat)
    requires k <= j
    ensures (s % Pow2(j)) % Pow2(k) == s % Pow2(k)
  {
    ModOfMultiple(s, Pow2(k), Pow2Ratio(k, j));
  }

  lemma ModOfMultiple(s: int, small: int, ratio: int)
    requires small > 0 && ratio > 0
    ensures (s % (small * ratio)) % small == s % small
  {
    var big := small * ratio;
    MulAtLeast(ratio, small);
    var q1, r1 := s / big, s % big;
    var q2, r2 := r1 / small, r1 % small;
    assert s == big * q1 + r1;
    assert r1 == small * q2 + r2;
    assert big * q1 == small * (ratio * q1) by {
      MulAssoc(small, ratio, q1);
    }
    assert s == small * (ratio * q1) + small * q2 + r2;
    assert small * (ratio * q1) + small * q2 == small * (ratio * q1 + q2);
    RemainderUnique(s, small, ratio * q1 + q2, r2);
  }

  lemma MulAssoc(a: int, b: int, c: int)
    ensures (a * b) * c == a * (b * c)
  {
  }

  function Pow2Ratio(k: nat, j: nat): (ratio: nat)
    requires k <= j
    ensures Pow2(j) == Pow2(k) * ratio
    decreases j
  {
    if j == k then 1 else 2 * Pow2Ratio(k, j - 1)
  }

  /** For a buffer of `2^k` slots (`k <= 64`), sequence `s` lands in slot
      `s mod 2^k`; in particular the initial sequence -1 lands in the last slot. */
  lemma SlotIsRemainder(s: int, k: nat)
    requires k <= 64
    ensures LongAnd(s, Pow2(k) - 1) == s % Pow2(k)
    ensures LongAnd(-1, Pow2(k) - 1) == Pow2(k) - 1
  {
    Pow2Values();
    LowBits(s % TwoTo64, k);
    ModPow2Twice(s, k, 64);
    LowBits((-1) % TwoTo64, k);
    ModPow2Twice(-1, k, 64);
    RemainderUnique(-1, Pow2(k), -1, Pow2(k) - 1);
  }

  lemma {:induction false} Pow2Add(a: nat, b: nat)
    ensures Pow2(a + b) == Pow2(a) * Pow2(b)
  {
    if b > 0 {
      Pow2Add(a, b - 1);
    }
  }

  lemma Pow2Values()
    ensures Pow2(31) == 0x8000_0000 && Pow2(32) == TwoTo32 && Pow2(64) == TwoTo64
  {
    assert Pow2(2) == 4;
    Pow2Add(2, 2);
    assert Pow2(4) == 16;
    Pow2Add(4, 4);
    assert Pow2(8) == 256;
    Pow2Add(8, 8);
    assert Pow2(16) == 0x1_0000;
    Pow2Add(16, 16);
    assert Pow2(32) == TwoTo32;
    Pow2Add(32, 32);
    Pow2Add(31, 1);
    assert Pow2(1) == 2;
  }
}
