/**
 Unsigned machine words as integers in [0, 2^64): the bitwise operations the
 generator and the hash use, defined on the binary digits, with the algebraic
 laws that make them invertible.
 */
module Words {
  const TWO_32: int := 0x1_0000_0000
  const TWO_63: int := 0x8000_0000_0000_0000
  const TWO_64: int := 0x1_0000_0000_0000_0000

  type U32 = x: int | 0 <= x < 0x1_0000_0000
  type Word = x: int | 0 <= x < 0x1_0000_0000_0000_0000

  function Pow2(k: nat): (p: int)
    ensures p > 0
  {
    if k == 0 then 1 else 2 * Pow2(k - 1)
  }

  lemma {:induction false} Pow2Add(j: nat, k: nat)
    ensures Pow2(j + k) == Pow2(j) * Pow2(k)
  {
    if j > 0 {
      Pow2Add(j - 1, k);
      assert Pow2(j - 1 + k) == Pow2(j - 1) * Pow2(k);
    }
  }

  lemma {:induction false} Pow2Monotone(j: nat, k: nat)
    requires j <= k
    ensures Pow2(j) <= Pow2(k)
    decreases k
  {
    if j < k {
      Pow2Monotone(j, k - 1);
    }
  }

  lemma Pow2Values()
    ensures Pow2(7) == 0x80 && Pow2(17) == 0x2_0000 && Pow2(19) == 0x8_0000 && Pow2(27) == 0x800_0000
    ensures Pow2(30) == 0x4000_0000 && Pow2(31) == 0x8000_0000 && Pow2(32) == TWO_32
    ensures Pow2(45) == 0x2000_0000_0000 && Pow2(57) == 0x200_0000_0000_0000 && Pow2(64) == TWO_64
  {
    assert Pow2(7) == 0x80;
    assert Pow2(12) == 0x1000;
    assert Pow2(17) == 0x2_0000;
    assert Pow2(19) == 0x8_0000;
    assert Pow2(24) == 0x100_0000;
    assert Pow2(27) == 0x800_0000;
    assert Pow2(31) == 0x8000_0000;
    assert Pow2(35) == 0x8_0000_0000;
    assert Pow2(40) == 0x100_0000_0000;
    assert Pow2(45) == 0x2000_0000_0000;
    assert Pow2(50) == 0x4_0000_0000_0000;
    assert Pow2(55) == 0x80_0000_0000_0000;
    assert Pow2(57) == 0x200_0000_0000_0000;
    assert Pow2(61) == 0x2000_0000_0000_0000;
  }

  // Division and remainder.

  /** The remainder is the only residue in range. */
  lemma ModUnique(v: int, m: int, q: int, r: int)
    requires m > 0 && 0 <= r < m && v == m * q + r
    ensures v % m == r && v / m == q
  {
    var d := q - v / m;
    assert m * d == v % m - r by {
      assert m * q == m * (v / m) + m * d;
    }
    assert d < 1 by {
      if d >= 1 {
        MulAtLeast(m, d);
        assert false;
      }
    }
    assert d > -1 by {
      if d <= -1 {
        MulAtLeast(m, -d);
        assert false;
      }
    }
  }

  lemma DivModParts(a: int, m: int)
    requires m > 0
    ensures a == m * (a / m) + a % m && a == (a / m) * m + a % m && 0 <= a % m < m
  {
  }

  lemma {:induction false} MulAtLeast(m: int, d: int)
    requires m > 0 && d >= 1
    ensures m * d >= m && m * d >= d
    decreases d
  {
    if d > 1 {
      MulAtLeast(m, d - 1);
      assert m * d == m * (d - 1) + m;
    }
  }

  lemma MulDistributes(m: int, a: int, b: int)
    ensures m * (a + b) == m * a + m * b
  {
  }

  lemma MulAssociates(m: int, n: int, q: int)
    ensures m * (n * q) == (m * n) * q
  {
  }

  lemma ProductPositive(m: int, n: int)
    requires m > 0 && n > 0
    ensures m * n > 0
  {
  }

  lemma DivDiv(a: int, m: int, n: int)
    requires m > 0 && n > 0
    ensures m * n > 0 && (a / m) / n == a / (m * n)
  {
    ProductPositive(m, n);
    DivDivParts(a, m, n, a / m, a % m, (a / m) / n, (a / m) % n, m * n);
  }

  lemma DivDivParts(a: int, m: int, n: int, b: int, low: int, q: int, r: int, mn: int)
    requires m > 0 && n > 0 && mn == m * n && mn > 0
    requires a == m * b + low && 0 <= low < m && b == n * q + r && 0 <= r < n
    ensures a / mn == q
  {
    MulDistributes(m, n * q, r);
    MulAssociates(m, n, q);
    ComposeBelow(r, low, n, m);
    assert r * m == m * r && n * m == m * n;
    ModUnique(a, mn, q, m * r + low);
  }

  lemma ModAddMultiple(a: int, m: int, k: int)
    requires m > 0
    ensures (a + m * k) % m == a % m
  {
    ModUnique(a + m * k, m, a / m + k, a % m);
  }

  lemma ModMul(a: int, b: int, m: int)
    requires m > 0
    ensures ((a % m) * b) % m == (a * b) % m
  {
    assert a == m * (a / m) + a % m;
    assert a * b == (a % m) * b + m * ((a / m) * b);
    ModAddMultiple((a % m) * b, m, (a / m) * b);
  }

  /** Reducing to the window [-half, m - half) before or after adding b makes no difference. */
  lemma WrapLate(a: int, b: int, half: int, m: int)
    requires m > 0
    ensures ((a + half) % m - half + b + half) % m == (a + b + half) % m
  {
    var q, r := (a + half) / m, (a + half) % m;
    assert a + half == m * q + r;
    ModAddMultiple(r + b, m, q);
  }

  /** Multiplying by a unit modulo m and by its inverse gives back the residue. */
  lemma MulInverse(x: int, p: int, q: int, m: int)
    requires m > 0 && (p * q) % m == 1 && 0 <= x < m
    ensures (((x * p) % m) * q) % m == x
  {
    ModMul(x * p, q, m);
    Reorder(x, p, q);
    ModMul(p * q, x, m);
    SmallMod(x, m);
  }

  lemma Reorder(x: int, p: int, q: int)
    ensures (x * p) * q == (p * q) * x
  {
  }

  lemma SmallMod(x: int, m: int)
    requires 0 <= x < m
    ensures x % m == x && (1 * x) % m == x
  {
    ModUnique(x, m, 0, x);
  }

  // Exclusive or on binary digits.

  function Xor(a: nat, b: nat): (r: nat)
    decreases a + b
  {
    if a == 0 && b == 0 then 0 else 2 * Xor(a / 2, b / 2) + (a + b) % 2
  }

  lemma XorStep(a: nat, b: nat)
    ensures Xor(a, b) / 2 == Xor(a / 2, b / 2)
    ensures Xor(a, b) % 2 == (a + b) % 2
  {
  }

  lemma {:induction false} XorZero(a: nat)
    ensures Xor(a, 0) == a && Xor(0, a) == a && Xor(a, a) == 0
  {
    if a > 0 {
      XorZero(a / 2);
    }
  }

  lemma {:induction false} XorSymmetric(a: nat, b: nat)
    ensures Xor(a, b) == Xor(b, a)
    decreases a + b
  {
    if a + b > 0 {
      XorSymmetric(a / 2, b / 2);
    }
  }

  lemma Parity(p: int, q: int, c: int)
    requires p % 2 == q % 2
    ensures (p + c) % 2 == (q + c) % 2
  {
  }

  lemma SameHalves(x: int, y: int)
    requires x / 2 == y / 2 && x % 2 == y % 2
    ensures x == y
  {
  }

  lemma {:induction false} XorAssociative(a: nat, b: nat, c: nat)
    ensures Xor(Xor(a, b), c) == Xor(a, Xor(b, c))
    decreases a + b + c
  {
    if a + b + c == 0 {
      XorZero(0);
    } else {
      XorAssociative(a / 2, b / 2, c / 2);
      XorAssociativeStep(a, b, c);
    }
  }

  lemma {:induction false} XorAssociativeStep(a: nat, b: nat, c: nat)
    requires Xor(Xor(a / 2, b / 2), c / 2) == Xor(a / 2, Xor(b / 2, c / 2))
    ensures Xor(Xor(a, b), c) == Xor(a, Xor(b, c))
  {
    var ab, bc := Xor(a, b), Xor(b, c);
    XorStep(a, b);
    XorStep(b, c);
    XorStep(ab, c);
    XorStep(a, bc);
    Parity(ab, a + b, c);
    Parity(bc, b + c, a);
    SameHalves(Xor(ab, c), Xor(a, bc));
  }

  /** Applying the same mask twice restores the value. */
  lemma XorUndo(a: nat, b: nat)
    ensures Xor(Xor(a, b), b) == a
    ensures Xor(b, Xor(b, a)) == a
    ensures Xor(b, Xor(a, b)) == a
  {
    XorAssociative(a, b, b);
    XorAssociative(b, b, a);
    XorSymmetric(a, b);
    XorZero(a);
    XorZero(b);
  }

  lemma XorCancel(a: nat, b: nat, c: nat)
    requires Xor(a, c) == Xor(b, c)
    ensures a == b
  {
    XorUndo(a, c);
    XorUndo(b, c);
  }

  lemma {:induction false} XorBelow(a: nat, b: nat, k: nat)
    requires a < Pow2(k) && b < Pow2(k)
    ensures Xor(a, b) < Pow2(k)
  {
    if k > 0 && a + b > 0 {
      XorBelow(a / 2, b / 2, k - 1);
    }
  }

  /** A right shift distributes over exclusive or. */
  lemma {:induction false} XorShiftRight(a: nat, b: nat, k: nat)
    ensures a / Pow2(k) >= 0 && b / Pow2(k) >= 0
    ensures Xor(a, b) / Pow2(k) == Xor(a / Pow2(k), b / Pow2(k))
    decreases k
  {
    DivBelow(a, Pow2(k));
    DivBelow(b, Pow2(k));
    if k > 0 {
      var m := Pow2(k - 1);
      XorStep(a, b);
      XorShiftRight(a / 2, b / 2, k - 1);
      DivDiv(a, 2, m);
      DivDiv(b, 2, m);
      DivDiv(Xor(a, b), 2, m);
    }
  }

  /** Truncation to k bits distributes over exclusive or. */
  lemma {:induction false} XorTruncate(a: nat, b: nat, k: nat)
    ensures Xor(a, b) % Pow2(k) == Xor(a % Pow2(k), b % Pow2(k))
    decreases k
  {
    if k == 0 {
      XorZero(0);
    } else {
      XorTruncate(a / 2, b / 2, k - 1);
      XorTruncateStep(a, b, Pow2(k - 1));
    }
  }

  lemma XorTruncateStep(a: nat, b: nat, m: int)
    requires m > 0
    requires Xor(a / 2, b / 2) % m == Xor((a / 2) % m, (b / 2) % m)
    ensures Xor(a, b) % (2 * m) == Xor(a % (2 * m), b % (2 * m))
  {
    XorStep(a, b);
    SplitMod(a, m);
    SplitMod(b, m);
    SplitMod(Xor(a, b), m);
    XorDigits(a % (2 * m), b % (2 * m), Xor(a, b) % (2 * m), a, b);
  }

  /** A number with the halves and the low digit of an exclusive or is that exclusive or. */
  lemma {:induction false} XorDigits(x: nat, y: nat, z: nat, a: int, b: int)
    requires z / 2 == Xor(x / 2, y / 2)
    requires x % 2 == a % 2 && y % 2 == b % 2 && z % 2 == (a + b) % 2
    ensures z == Xor(x, y)
  {
    XorStep(x, y);
    Parity(x, a, y);
    Parity(y, b, a);
    SameHalves(z, Xor(x, y));
  }

  lemma SplitMod(a: int, m: int)
    requires m > 0
    ensures a % (2 * m) == 2 * ((a / 2) % m) + a % 2
    ensures (a % (2 * m)) / 2 == (a / 2) % m && (a % (2 * m)) % 2 == a % 2
  {
    var q, r := (a / 2) / m, (a / 2) % m;
    assert a / 2 == m * q + r;
    assert a == (2 * m) * q + (2 * r + a % 2);
    ModUnique(a, 2 * m, q, 2 * r + a % 2);
  }

  /** a doubled k times. */
  function Doubled(a: nat, k: nat): (r: nat)
  {
    if k == 0 then a else 2 * Doubled(a, k - 1)
  }

  lemma {:induction false} DoubledIsProduct(a: nat, k: nat)
    ensures Doubled(a, k) == a * Pow2(k)
    decreases k
  {
    if k > 0 {
      DoubledIsProduct(a, k - 1);
      MulAssociates(2, a, Pow2(k - 1));
      MulAssociates(a, 2, Pow2(k - 1));
    }
  }

  /** A left shift (before truncation) distributes over exclusive or. */
  lemma {:induction false} XorDoubled(a: nat, b: nat, k: nat)
    ensures Xor(Doubled(a, k), Doubled(b, k)) == Doubled(Xor(a, b), k)
    decreases k
  {
    if k > 0 {
      XorDoubled(a, b, k - 1);
      XorDouble(Doubled(a, k - 1), Doubled(b, k - 1));
    }
  }

  lemma {:induction false} XorDouble(x: nat, y: nat)
    ensures Xor(2 * x, 2 * y) == 2 * Xor(x, y)
  {
    XorStep(2 * x, 2 * y);
    assert (2 * x) / 2 == x && (2 * y) / 2 == y;
    SameHalves(Xor(2 * x, 2 * y), 2 * Xor(x, y));
  }

  // Shifts and rotations of 64-bit words.

  /** x << k on 64 bits. */
  function ShiftLeft(x: Word, k: nat): Word {
    (x * Pow2(k)) % TWO_64
  }

  /** x >> k. */
  function ShiftRight(x: Word, k: nat): (r: Word) {
    DivBelow(x, Pow2(k));
    x / Pow2(k)
  }

  lemma DivBelow(x: nat, m: int)
    requires m > 0
    ensures 0 <= x / m <= x
  {
    var q := x / m;
    assert x == m * q + x % m;
    if q < 0 {
      MulAtLeast(m, -q);
      assert false;
    }
    if q > 0 {
      MulAtLeast(m, q);
    }
  }

  function Xor64(a: Word, b: Word): Word {
    Pow2Values();
    XorBelow(a, b, 64);
    Xor(a, b)
  }

  /** Modular addition and multiplication, as Go's uint64 operators. */
  function Add64(a: int, b: int): Word {
    (a + b) % TWO_64
  }

  function Mul64(a: int, b: int): Word {
    (a * b) % TWO_64
  }

  /**
   rotl(x, k) for 0 < k < 64. The two shifted parts occupy disjoint bits, so
   the source's bitwise or of them is their sum.
   */
  function RotateLeft(x: Word, k: nat): Word
    requires 0 < k < 64
  {
    RotateBelow(x, k);
    (x % Pow2(64 - k)) * Pow2(k) + x / Pow2(64 - k)
  }

  lemma RotateBelow(x: Word, k: nat)
    requires 0 < k < 64
    ensures 0 <= x / Pow2(64 - k) < Pow2(k)
    ensures 0 <= (x % Pow2(64 - k)) * Pow2(k) + x / Pow2(64 - k) < TWO_64
  {
    var lo, hi := Pow2(64 - k), Pow2(k);
    Pow2Values();
    Pow2Add(64 - k, k);
    assert x < lo * hi;
    QuotientBelow(x, lo, hi);
    ComposeBelow(x % lo, x / lo, lo, hi);
  }

  lemma QuotientBelow(x: nat, m: int, n: int)
    requires m > 0 && n > 0 && x < m * n
    ensures 0 <= x / m < n
  {
    var q := x / m;
    DivBelow(x, m);
    assert x == m * q + x % m;
    MulMonotone(m, n, q);
  }

  lemma MulMonotone(m: int, n: int, q: int)
    requires m > 0
    ensures n <= q ==> m * n <= m * q
  {
  }

  lemma ComposeBelow(high: nat, low: nat, m: int, n: int)
    requires high < m && low < n && n > 0
    ensures 0 <= high * n + low < m * n
  {
    assert high * n <= (m - 1) * n;
  }

  /** Rotating left by k and then by 64 - k is the identity. */
  lemma RotateRoundTrip(x: Word, k: nat)
    requires 0 < k < 64
    ensures RotateLeft(RotateLeft(x, k), 64 - k) == x
  {
    hide Pow2;
    var m, n := Pow2(64 - k), Pow2(k);
    RotateBelow(x, k);
    DivModParts(x, m);
    ModUnique((x % m) * n + x / m, n, x % m, x / m);
  }
}
