/** Powers of two, shifts and the low bits of a number, defined bit by bit. The host part of an
    address under a prefix mask is its low bits; LowIsRemainder gives the arithmetic reading. */
module Bits {

  function Pow2(n: nat): (r: nat)
    ensures r >= 1
  {
    if n == 0 then 1 else 2 * Pow2(n - 1)
  }

  /** k << h on unbounded numbers. */
  function ShiftLeft(k: nat, h: nat): nat {
    if h == 0 then k else 2 * ShiftLeft(k, h - 1)
  }

  /** The h lowest bits of x. */
  function Low(x: nat, h: nat): nat {
    if h == 0 then 0 else 2 * Low(x / 2, h - 1) + x % 2
  }

  lemma {:induction false} Pow2Monotonic(a: nat, b: nat)
    requires a <= b
    ensures Pow2(a) <= Pow2(b)
    ensures a < b ==> 2 * Pow2(a) <= Pow2(b)
  {
    if a < b {
      Pow2Monotonic(a, b - 1);
    }
  }

  lemma {:induction false} Pow2Product(a: nat, b: nat)
    ensures Pow2(a + b) == Pow2(a) * Pow2(b)
  {
    if a > 0 {
      Pow2Product(a - 1, b);
      assert 2 * (Pow2(a - 1) * Pow2(b)) == (2 * Pow2(a - 1)) * Pow2(b);
    }
  }

  lemma Pow2Values()
    ensures Pow2(8) == 0x100 && Pow2(16) == 0x1_0000 && Pow2(24) == 0x100_0000 && Pow2(32) == 0x1_0000_0000
  {
    assert Pow2(4) == 0x10;
    Pow2Squared(4, 0x10);
    Pow2Squared(8, 0x100);
    Pow2Product(8, 16);
    Pow2Squared(16, 0x1_0000);
  }

  lemma Pow2Of128()
    ensures Pow2(128) == 0x1_0000_0000_0000_0000_0000_0000_0000_0000
  {
    Pow2Values();
    Pow2Squared(32, 0x1_0000_0000);
    Pow2Squared(64, 0x1_0000_0000_0000_0000);
  }

  lemma Pow2Squared(a: nat, x: nat)
    requires Pow2(a) == x
    ensures Pow2(2 * a) == x * x
  {
    Pow2Product(a, a);
  }

  lemma {:induction false} ShiftPow2(a: nat, h: nat)
    ensures ShiftLeft(Pow2(a), h) == Pow2(a + h)
  {
    if h > 0 {
      ShiftPow2(a, h - 1);
    }
  }

  lemma {:induction false} ShiftSum(a: nat, b: nat, h: nat)
    ensures ShiftLeft(a + b, h) == ShiftLeft(a, h) + ShiftLeft(b, h)
    ensures ShiftLeft(1, h) == Pow2(h)
  {
    if h > 0 {
      ShiftSum(a, b, h - 1);
    }
  }

  lemma {:induction false} ShiftTwice(k: nat, a: nat, h: nat)
    ensures ShiftLeft(ShiftLeft(k, a), h) == ShiftLeft(k, a + h)
  {
    if h > 0 {
      ShiftTwice(k, a, h - 1);
    }
  }

  lemma ShiftByZero(k: nat)
    ensures ShiftLeft(k, 0) == k
  {
  }

  lemma {:induction false} ShiftZeroIff(k: nat, h: nat)
    ensures ShiftLeft(k, h) == 0 <==> k == 0
  {
    if h > 0 {
      ShiftZeroIff(k, h - 1);
    }
  }

  /** The c-th of n consecutive chunks of 2^h ends inside the whole. */
  lemma ShiftBelow(c: nat, n: nat, h: nat)
    requires c < n
    ensures ShiftLeft(c, h) + Pow2(h) <= ShiftLeft(n, h)
  {
    ShiftSum(c, 1, h);
    ShiftSum(c + 1, n - c - 1, h);
  }

  lemma {:induction false} LowOfShift(k: nat, h: nat)
    ensures Low(ShiftLeft(k, h), h) == 0
  {
    if h > 0 {
      LowOfShift(k, h - 1);
    }
  }

  lemma {:induction false} LowBound(x: nat, h: nat)
    ensures Low(x, h) < Pow2(h)
    ensures Low(x, h) <= x
  {
    if h > 0 {
      LowBound(x / 2, h - 1);
    }
  }

  lemma {:induction false} LowOfSmall(x: nat, h: nat)
    requires x < Pow2(h)
    ensures Low(x, h) == x
  {
    if h > 0 {
      LowOfSmall(x / 2, h - 1);
    }
  }

  /** Clear low bits stay clear when fewer of them are looked at. */
  lemma {:induction false} LowCoarser(x: nat, a: nat, b: nat)
    requires a <= b && Low(x, b) == 0
    ensures Low(x, a) == 0
  {
    if a > 0 {
      LowCoarser(x / 2, a - 1, b - 1);
    }
  }

  /** Adding an aligned number leaves the low bits alone. */
  lemma {:induction false} LowOfSum(m: nat, r: nat, h: nat)
    requires Low(m, h) == 0
    ensures Low(m + r, h) == Low(r, h)
  {
    if h > 0 {
      LowOfSum(m / 2, r / 2, h - 1);
      assert (m + r) / 2 == m / 2 + r / 2;
    }
  }

  lemma LowOfPow2(a: nat, b: nat)
    requires a <= b
    ensures Low(Pow2(b), a) == 0
  {
    LowOfShift(1, b);
    ShiftSum(0, 1, b);
    LowCoarser(Pow2(b), a, b);
  }

  /** Two different aligned numbers are at least one chunk apart. */
  lemma {:induction false} AlignedApart(x: nat, y: nat, h: nat)
    requires Low(x, h) == 0 && Low(y, h) == 0 && x < y
    ensures x + Pow2(h) <= y
  {
    if h > 0 {
      AlignedApart(x / 2, y / 2, h - 1);
    }
  }

  /** Clearing the low bits aligns a number. */
  lemma {:induction false} LowCleared(x: nat, h: nat)
    ensures Low(x, h) <= x
    ensures Low(x - Low(x, h), h) == 0
  {
    if h > 0 {
      LowCleared(x / 2, h - 1);
      assert (x - Low(x, h)) / 2 == x / 2 - Low(x / 2, h - 1);
    }
  }

  /** Cutting an aligned range of 2^(a + h) numbers into chunks of 2^h: the c-th chunk is aligned and inside. */
  lemma ChunkInside(base: nat, a: nat, h: nat, c: nat)
    requires Low(base, a + h) == 0 && c < Pow2(a)
    ensures Low(base + ShiftLeft(c, h), h) == 0
    ensures ShiftLeft(c, h) + Pow2(h) <= Pow2(a + h)
  {
    ShiftPow2(a, h);
    ShiftBelow(c, Pow2(a), h);
    LowCoarser(base, h, a + h);
    LowOfShift(c, h);
    LowOfSum(base, ShiftLeft(c, h), h);
  }

  lemma {:induction false} MultiplyIsShift(c: nat, h: nat)
    ensures c * Pow2(h) == ShiftLeft(c, h)
  {
    if h > 0 {
      MultiplyIsShift(c, h - 1);
      assert c * (2 * Pow2(h - 1)) == 2 * (c * Pow2(h - 1));
    }
  }

  lemma LowOfLow(x: nat, a: nat, b: nat)
    requires a <= b
    ensures Low(Low(x, b), a) == Low(x, a)
  {
    LowCleared(x, b);
    LowCoarser(x - Low(x, b), a, b);
    LowOfSum(x - Low(x, b), Low(x, b), a);
  }

  /** Low bits are the remainder modulo the power of two. */
  lemma {:induction false} LowIsRemainder(x: nat, h: nat)
    ensures Low(x, h) == x % Pow2(h)
  {
    if h > 0 {
      LowIsRemainder(x / 2, h - 1);
      RemainderStep(x, Pow2(h - 1));
    }
  }

  lemma RemainderStep(x: nat, d: nat)
    requires d > 0
    ensures x % (2 * d) == 2 * ((x / 2) % d) + x % 2
  {
    var q, r := (x / 2) / d, (x / 2) % d;
    assert q * (2 * d) == 2 * (q * d);
    QuotientUnique(x, 2 * d, q, 2 * r + x % 2);
  }

  /** Euclidean division is the only way to write x as q * d + r with 0 <= r < d. */
  lemma QuotientUnique(x: int, d: nat, q: int, r: nat)
    requires d > 0 && r < d
    requires x == q * d + r
    ensures x / d == q && x % d == r
  {
    var k := x / d - q;
    assert (x / d) * d + x % d == x;
    assert k * d == (x / d) * d - q * d;
    NonZeroMultiple(k, d);
  }

  /** A non-zero multiple of d is at least d away from zero. */
  lemma NonZeroMultiple(k: int, d: nat)
    ensures k >= 1 ==> k * d >= d
    ensures k <= -1 ==> k * d + d <= 0
  {
    if k >= 1 {
      assert (k - 1) * d >= 0;
    } else if k <= -1 {
      assert (-1 - k) * d >= 0;
    }
  }
}
