/**
 Intn is exactly uniform: among the 2^32 words it may draw, every value below n
 is produced by the same number of accepted words.
 */
module Lemire {
  import opened Words
  import opened Rng

  /** The accepted words that Intn(n) turns into v. */
  ghost function WordsFor(n: U32, v: int): set<U32>
    requires n > 0
  {
    set x: U32 | Accepted(x, n) && Scaled(x, n) == v
  }

  /** The integers in [a, b). */
  function Interval(a: int, b: int): (s: set<int>)
    requires a <= b
    ensures forall x :: x in s <==> a <= x < b
    ensures |s| == b - a
    decreases b - a
  {
    if a == b then {} else Interval(a, b - 1) + {b - 1}
  }

  /** Testing lo < n before computing the threshold never changes which words are kept. */
  lemma EarlyTestIsExact(x: U32, n: U32)
    requires n > 0
    ensures Accepted(x, n) <==> (LowHalf(x, n) >= n || LowHalf(x, n) >= TWO_32 % n)
  {
    ThresholdIsRemainder(n);
  }

  /** The least x with x * n >= a. */
  function CeilDiv(a: nat, n: int): (x: nat)
    requires n > 0
    ensures x * n >= a && (x - 1) * n < a
  {
    CeilDivBounds(a, n);
    (a + n - 1) / n
  }

  lemma CeilDivBounds(a: nat, n: int)
    requires n > 0
    ensures 0 <= (a + n - 1) / n
    ensures ((a + n - 1) / n) * n >= a && ((a + n - 1) / n - 1) * n < a
  {
    var b := a + n - 1;
    var x := b / n;
    DivBelow(b, n);
    assert b == n * x + b % n;
    assert x * n == n * x;
    assert (x - 1) * n == n * x - n;
  }

  /** x * n falls in [a, a + q*n) exactly for the q words from CeilDiv(a, n) on. */
  lemma MultiplesInWindow(x: int, a: nat, q: nat, n: int)
    requires n > 0
    ensures a <= x * n < a + q * n <==> CeilDiv(a, n) <= x < CeilDiv(a, n) + q
  {
    var c := CeilDiv(a, n);
    if x < c {
      ScaleMonotone(x, c - 1, n);
    } else {
      ScaleMonotone(c, x, n);
    }
    assert (c + q) * n == c * n + q * n;
    assert (c + q - 1) * n == (c - 1) * n + q * n;
    if x < c + q {
      ScaleMonotone(x, c + q - 1, n);
    } else {
      ScaleMonotone(c + q, x, n);
    }
  }

  lemma ScaleMonotone(x: int, y: int, n: int)
    requires n > 0 && x <= y
    ensures x * n <= y * n
  {
    assert (y - x) * n >= 0;
    assert y * n == x * n + (y - x) * n;
  }

  lemma Window(m: nat, v: nat, t: nat)
    requires t < TWO_32
    ensures (m % TWO_32 >= t && m / TWO_32 == v) <==> v * TWO_32 + t <= m < v * TWO_32 + TWO_32
  {
  }

  /** A word is accepted with value v exactly when x * n is in v's window of length q * n. */
  lemma AcceptedWindow(x: U32, n: U32, v: nat, q: nat)
    requires n > 0 && v < n && q == TWO_32 / n
    ensures (Accepted(x, n) && Scaled(x, n) == v) <==>
            v * TWO_32 + TWO_32 % n <= x * n < v * TWO_32 + TWO_32 % n + q * n
  {
    ThresholdIsRemainder(n);
    assert TWO_32 == q * n + TWO_32 % n;
    Window(x * n, v, TWO_32 % n);
  }

  /**
   For every n and every v < n, exactly floor(2^32 / n) of the 2^32 words are
   accepted with value v.
   */
  lemma ExactlyUniform(n: U32, v: nat)
    requires n > 0 && v < n
    ensures |WordsFor(n, v)| == TWO_32 / n
  {
    var q := TWO_32 / n;
    DivBelow(TWO_32, n);
    var a := v * TWO_32 + TWO_32 % n;
    var c := CeilDiv(a, n);
    var s := Interval(c, c + q);
    forall x | x in WordsFor(n, v)
      ensures x in s
    {
      AcceptedWindow(x, n, v, q);
      MultiplesInWindow(x, a, q, n);
    }
    forall x | x in s
      ensures x in WordsFor(n, v)
    {
      MultiplesInWindow(x, a, q, n);
      WindowBelow(x, v, q, n);
      AcceptedWindow(x, n, v, q);
    }
    assert WordsFor(n, v) == s;
  }

  lemma WindowBelow(x: int, v: nat, q: nat, n: U32)
    requires n > 0 && v < n && q == TWO_32 / n
    requires x * n < v * TWO_32 + TWO_32 % n + q * n
    ensures x < TWO_32
  {
    assert TWO_32 == q * n + TWO_32 % n;
    if x >= TWO_32 {
      ScaleMonotone(TWO_32, x, n);
      assert false;
    }
  }
}
