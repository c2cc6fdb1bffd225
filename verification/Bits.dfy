/**
 Machine arithmetic of the ring buffer: `&` on unsigned words, powers of two and the
 two's-complement reading of a signed 32-bit position difference.
 */
module Bits {
  const U32: nat := 0x1_0000_0000
  const LONG_MAX: int := 0x7FFF_FFFF

  function Pow2(k: nat): (p: nat)
    ensures p >= 1
  {
    if k == 0 then 1 else 2 * Pow2(k - 1)
  }

  /** Binary digit i of n. */
  function Digit(n: nat, i: nat): nat {
    if i == 0 then n % 2 else Digit(n / 2, i - 1)
  }

  /** C's `a & b` on unsigned words. */
  function And(a: nat, b: nat): (r: nat)
    ensures r <= a && r <= b
  {
    if a == 0 || b == 0 then 0
    else 2 * And(a / 2, b / 2) + (if a % 2 == 1 && b % 2 == 1 then 1 else 0)
  }

  /** The bit pattern of a 32-bit LONG, read as a ULONG. */
  function ToU32(x: int): (r: nat)
    ensures r < U32
  {
    x % U32
  }

  /** `(ULONG)(x & (LONG)mask)`: how every position of the ring is reduced. */
  function Masked(x: int, mask: nat): nat {
    And(ToU32(x), mask)
  }

  /** The runtime check of GcomRingInit. */
  predicate PassesSizeCheck(size: nat) {
    size != 0 && And(size, size - 1) == 0
  }

  ghost predicate IsPow2(n: nat) {
    exists k: nat :: n == Pow2(k)
  }

  /** And is the bitwise conjunction. */
  lemma {:induction false} AndDigits(a: nat, b: nat, i: nat)
    ensures Digit(And(a, b), i) == Digit(a, i) * Digit(b, i)
  {
    var r := And(a, b);
    if a == 0 || b == 0 {
      DigitOfZero(i);
    } else if i > 0 {
      assert r / 2 == And(a / 2, b / 2);
      AndDigits(a / 2, b / 2, i - 1);
    }
  }

  lemma {:induction false} DigitOfZero(i: nat)
    ensures Digit(0, i) == 0
  {
    if i > 0 {
      DigitOfZero(i - 1);
    }
  }

  lemma MulGap(m: int, q: int, q': int)
    requires m > 0 && q > q'
    ensures m * q >= m * q' + m
  {
    assert m * (q - q' - 1) >= 0;
    assert m * q == m * q' + m + m * (q - q' - 1);
  }

  lemma QuotientUnique(m: int, q: int, r: int, q': int, r': int)
    requires 0 <= r < m && 0 <= r' < m
    requires m * q + r == m * q' + r'
    ensures q == q' && r == r'
  {
    if q > q' {
      MulGap(m, q, q');
    } else if q < q' {
      MulGap(m, q', q);
    }
  }

  lemma DivModUnique(x: int, m: int, q: int, r: int)
    requires 0 <= r < m && x == m * q + r
    ensures x % m == r && x / m == q
  {
    QuotientUnique(m, q, r, x / m, x % m);
  }

  lemma ModDouble(x: nat, p: nat)
    requires p >= 1
    ensures x % (2 * p) == 2 * ((x / 2) % p) + x % 2
  {
    var c, d := (x / 2) / p, (x / 2) % p;
    assert x / 2 == p * c + d;
    assert x == 2 * (x / 2) + x % 2;
    assert 2 * (p * c) == (2 * p) * c;
    DivModUnique(x, 2 * p, c, 2 * d + x % 2);
  }

  /** Masking with 2^k - 1 is reduction modulo 2^k. */
  lemma {:induction false} AndMask(x: nat, k: nat)
    ensures And(x, Pow2(k) - 1) == x % Pow2(k)
  {
    if k > 0 {
      var p := Pow2(k - 1);
      assert (2 * p - 1) / 2 == p - 1 && (2 * p - 1) % 2 == 1;
      AndMask(x / 2, k - 1);
      ModDouble(x, p);
      if x == 0 { DivModUnique(0, 2 * p, 0, 0); }
    }
  }

  lemma {:induction false} AndSelf(n: nat)
    ensures And(n, n) == n
  {
    if n > 0 {
      AndSelf(n / 2);
    }
  }

  lemma {:induction false} PowerWhenTestPasses(n: nat) returns (k: nat)
    requires PassesSizeCheck(n)
    ensures n == Pow2(k)
  {
    var m := n / 2;
    if n == 1 {
      k := 0;
    } else if n % 2 == 1 {
      assert (n - 1) / 2 == m && (n - 1) % 2 == 0;
      AndSelf(m);
      assert false;
    } else {
      assert (n - 1) / 2 == m - 1;
      k := PowerWhenTestPasses(m);
      k := k + 1;
    }
  }

  /** The size check accepts exactly the powers of two. */
  lemma SizeCheckIffPowerOfTwo(n: nat)
    ensures PassesSizeCheck(n) <==> IsPow2(n)
  {
    if PassesSizeCheck(n) {
      var k := PowerWhenTestPasses(n);
      assert IsPow2(n);
    }
    if IsPow2(n) {
      PowerPassesTest(n);
    }
  }

  lemma PowerPassesTest(n: nat)
    requires IsPow2(n)
    ensures PassesSizeCheck(n)
  {
    var k: nat :| n == Pow2(k);
    AndMask(n, k);
    DivModUnique(n, n, 1, 0);
  }

  lemma {:induction false} Pow2Add(a: nat, b: nat)
    ensures Pow2(a + b) == Pow2(a) * Pow2(b)
  {
    if a > 0 {
      Pow2Add(a - 1, b);
      assert (2 * Pow2(a - 1)) * Pow2(b) == 2 * (Pow2(a - 1) * Pow2(b));
    }
  }

  lemma {:induction false} Pow2Monotone(a: nat, b: nat)
    requires a < b
    ensures 2 * Pow2(a) <= Pow2(b)
  {
    if a < b - 1 {
      Pow2Monotone(a, b - 1);
    }
  }

  lemma Pow2Of30And32()
    ensures Pow2(30) == 0x4000_0000 && Pow2(31) == 0x8000_0000 && Pow2(32) == U32
  {
    assert Pow2(8) == 0x100 by {
      assert Pow2(4) == 0x10;
    }
    Pow2Add(8, 8);
    Pow2Add(16, 8);
    Pow2Add(24, 4);
    assert Pow2(30) == 4 * Pow2(28);
    assert Pow2(32) == 4 * Pow2(30);
  }

  /** x modulo size, for x within one turn of the ring. */
  function Wrap(x: int, size: nat): int {
    if x < 0 then x + size else if x >= size then x - size else x
  }

  /** Through the two's-complement pattern, masking a difference or a sum of positions reduces it modulo the size. */
  lemma MaskedIsModulo(x: int, size: nat)
    requires IsPow2(size) && size < U32 && 0 < x + size && x < 2 * size
    ensures Masked(x, size - 1) == Wrap(x, size) == x % size
  {
    var k := WordExponent(size);
    AndMask(ToU32(x), k);
    U32Mod(x, k);
    DivModUnique(x, size, if x < 0 then -1 else if x >= size then 1 else 0, Wrap(x, size));
  }

  lemma MaskedIsWrap(x: int, size: nat)
    requires IsPow2(size) && size < U32 && 0 < x + size && x < 2 * size
    ensures Masked(x, size - 1) == Wrap(x, size)
  {
    MaskedIsModulo(x, size);
  }

  lemma WordExponent(size: nat) returns (k: nat)
    requires IsPow2(size) && size < U32
    ensures k < 32 && size == Pow2(k)
  {
    k :| size == Pow2(k);
    Pow2Of30And32();
    if k > 32 { Pow2Monotone(32, k); }
  }

  /** Truncation to 32 bits does not change a residue modulo 2^k, k <= 32. */
  lemma U32Mod(x: int, k: nat)
    requires k <= 32
    ensures ToU32(x) % Pow2(k) == x % Pow2(k)
  {
    Pow2Of30And32();
    Pow2Add(k, 32 - k);
    ModMod(x, Pow2(k), Pow2(32 - k), U32);
  }

  lemma ModMod(x: int, a: nat, b: nat, ab: nat)
    requires a > 0 && b > 0 && ab == a * b && ab > 0
    ensures (x % ab) % a == x % a
  {
    var q, r := x / ab, x % ab;
    var i := r / a;
    MulAssoc(a, b, q);
    assert x == ab * q + r;
    assert r == a * i + r % a;
    assert a * (b * q) + a * i == a * (b * q + i) by { MulDistrib(a, b * q, i); }
    DivModUnique(x, a, b * q + i, r % a);
  }

  lemma MulAssoc(a: int, b: int, c: int)
    ensures (a * b) * c == a * (b * c)
  {
  }

  lemma MulDistrib(a: int, b: int, c: int)
    ensures a * b + a * c == a * (b + c)
  {
  }

  /** The signed results the ring computes, `wp - rp`, `wp + toWrite` and `rp + toRead`, fit a LONG. */
  ghost predicate FitsLong(wp: int, rp: int, toWrite: int, toRead: int) {
    -LONG_MAX - 1 <= wp - rp <= LONG_MAX && wp + toWrite <= LONG_MAX && rp + toRead <= LONG_MAX
  }

  /** Positions of a ring, with a write within its free room and a read within its unread bytes. */
  predicate Reachable(size: nat, wp: int, rp: int, toWrite: int, toRead: int) {
    && 0 <= wp < size && 0 <= rp < size
    && 0 <= toWrite <= size - 1 - Wrap(wp - rp, size)
    && 0 <= toRead <= Wrap(wp - rp, size)
  }

  /** No signed result overflows, at any positions and for any write and read that fit, exactly when Size <= 2^30. */
  lemma NoSignedOverflowIff(size: nat)
    requires IsPow2(size) && size < U32
    ensures size <= 0x4000_0000 <==>
            (forall wp, rp, toWrite, toRead | Reachable(size, wp, rp, toWrite, toRead) ::
               FitsLong(wp, rp, toWrite, toRead))
  {
    var k: nat :| size == Pow2(k);
    Pow2Of30And32();
    if k > 30 {
      if k > 31 { Pow2Monotone(31, k); }
      assert Reachable(size, size - 1, size - 1, 1, 0);
      assert !FitsLong(size - 1, size - 1, 1, 0);
    } else if k < 30 {
      Pow2Monotone(k, 30);
    }
  }

  /** A size that the check accepts and that overflows: one byte written to an empty ring of 2^31 at its last position. */
  lemma SignedOverflowHappens()
    ensures PassesSizeCheck(0x8000_0000) && Reachable(0x8000_0000, LONG_MAX, LONG_MAX, 1, 0)
    ensures !FitsLong(LONG_MAX, LONG_MAX, 1, 0)
  {
    Pow2Of30And32();
    assert IsPow2(0x8000_0000) by { assert Pow2(31) == 0x8000_0000; }
    PowerPassesTest(0x8000_0000);
  }
}
