/**
 The fixed split of a phase's work: worker k of n owns one contiguous range of
 ants, or of rows, and the ranges tile the whole.
 */
module Partition {
  import opened Words
  import opened Stencil

  /** The lower end of worker k's share of total items split n ways. */
  function Span(k: nat, n: nat, total: nat): (lo: nat)
    requires n > 0
  {
    DivBelow(total * k, n);
    total * k / n
  }

  /** newPool's worker count: GOMAXPROCS clamped to [1, H]. */
  function PoolSize(procs: int, h: int): (n: int)
    ensures n >= 1 && (h >= 1 ==> n <= h)
    ensures 1 <= procs <= h ==> n == procs
  {
    var m := if procs > h then h else procs;
    if m < 1 then 1 else m
  }

  lemma SpanEnds(n: nat, total: nat)
    requires n > 0
    ensures Span(0, n, total) == 0 && Span(n, n, total) == total
  {
    ModUnique(0, n, 0, 0);
    assert total * n == n * total;
    ModUnique(total * n, n, total, 0);
  }

  lemma SpanStep(k: nat, n: nat, total: nat)
    requires n > 0
    ensures Span(k, n, total) <= Span(k + 1, n, total)
  {
    ScaleBoth(total, k, k + 1);
    DivMonotone(total * k, total * (k + 1), n);
  }

  lemma {:induction false} SpanMonotone(j: nat, k: nat, n: nat, total: nat)
    requires n > 0 && j <= k
    ensures Span(j, n, total) <= Span(k, n, total)
    decreases k
  {
    if j < k {
      SpanMonotone(j, k - 1, n, total);
      SpanStep(k - 1, n, total);
    }
  }

  /** The shares are even: each worker gets the whole quotient of the items, and at most one item more. */
  lemma SpanFair(k: nat, n: nat, total: nat)
    requires n > 0
    ensures total / n <= Span(k + 1, n, total) - Span(k, n, total) <= total / n + 1
  {
    var a := total * k;
    MulDistributes(total, k, 1);
    Remainder(a, n);
    Remainder(total, n);
    var q, r := a / n + total / n, a % n + total % n;
    MulDistributes(n, a / n, total / n);
    if r < n {
      ModUnique(a + total, n, q, r);
    } else {
      ModUnique(a + total, n, q + 1, r - n);
    }
  }

  // Bounds in units of work: ants, or cells of whole rows.

  /** The first unit of worker k when rows of the given width are split n ways. */
  function Bound(k: nat, n: nat, rows: nat, width: nat): nat
    requires n > 0
  {
    Span(k, n, rows) * width
  }

  lemma BoundEnds(n: nat, rows: nat, width: nat)
    requires n > 0
    ensures Bound(0, n, rows, width) == 0 && Bound(n, n, rows, width) == rows * width
  {
    SpanEnds(n, rows);
  }

  lemma BoundMonotone(j: nat, k: nat, n: nat, rows: nat, width: nat)
    requires n > 0 && j <= k
    ensures Bound(j, n, rows, width) <= Bound(k, n, rows, width)
  {
    SpanMonotone(j, k, n, rows);
    ScaleBoth(width, Span(j, n, rows), Span(k, n, rows));
  }

  /** Unit i belongs to worker k. */
  predicate Owns(k: nat, i: nat, n: nat, rows: nat, width: nat)
    requires n > 0
  {
    Bound(k, n, rows, width) <= i < Bound(k + 1, n, rows, width)
  }

  /** Every unit has an owner. */
  lemma {:induction false} Owner(i: nat, k: nat, n: nat, rows: nat, width: nat) returns (o: nat)
    requires n > 0 && k <= n && i < Bound(k, n, rows, width)
    ensures o < k && Owns(o, i, n, rows, width)
    decreases k
  {
    BoundEnds(n, rows, width);
    hide Bound;
    if i < Bound(k - 1, n, rows, width) {
      o := Owner(i, k - 1, n, rows, width);
    } else {
      o := k - 1;
    }
  }

  /** No unit has two owners. */
  lemma OwnerUnique(i: nat, j: nat, k: nat, n: nat, rows: nat, width: nat)
    requires n > 0 && Owns(j, i, n, rows, width) && Owns(k, i, n, rows, width)
    ensures j == k
  {
    hide Bound;
    if j < k {
      BoundMonotone(j + 1, k, n, rows, width);
      assert false;
    }
    if k < j {
      BoundMonotone(k + 1, j, n, rows, width);
      assert false;
    }
  }

  /** For any worker count, the ranges tile all units: each has exactly one owner. */
  lemma ExactPartition(i: nat, n: nat, rows: nat, width: nat)
    requires n > 0 && i < rows * width
    ensures exists k: nat :: k < n && Owns(k, i, n, rows, width)
    ensures forall j: nat, k: nat :: Owns(j, i, n, rows, width) && Owns(k, i, n, rows, width) ==> j == k
  {
    BoundEnds(n, rows, width);
    var o := Owner(i, n, n, rows, width);
    hide Owns;
    forall j: nat, k: nat | Owns(j, i, n, rows, width) && Owns(k, i, n, rows, width)
      ensures j == k
    {
      OwnerUnique(i, j, k, n, rows, width);
    }
  }
}
