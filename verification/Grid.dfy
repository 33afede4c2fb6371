/**
 Row-major grids: addressing, sums, and what one spreading step does to a whole
 field, namely a maximum principle and an exact account of how mass can grow.
 */
module Grid {
  import opened Words
  import opened Config
  import opened Stencil

  /** The address of cell (x, y) on a grid of width w. */
  function Idx(w: int, x: int, y: int): int {
    y * w + x
  }

  predicate Inside(w: int, h: int, x: int, y: int) {
    0 <= x < w && 0 <= y < h
  }

  /** Addressing is injective on the grid: column and row come back from the address. */
  lemma IdxRoundTrip(w: int, h: int, x: int, y: int)
    requires Inside(w, h, x, y)
    ensures 0 <= Idx(w, x, y) < w * h
    ensures Idx(w, x, y) % w == x && Idx(w, x, y) / w == y
  {
    ModUnique(y * w + x, w, y, x);
    ScaleBoth(w, y, h - 1);
    assert w * (h - 1) == w * h - w && w * y == y * w;
  }

  /** Every address is the address of the cell in its column and row. */
  lemma IdxCovers(w: int, h: int, i: int)
    requires w > 0 && 0 <= i < w * h
    ensures Inside(w, h, i % w, i / w) && Idx(w, i % w, i / w) == i
  {
    if h <= 0 {
      ProductSign(w, h);
      assert false;
    }
    QuotientBelow(i, w, h);
    assert i == w * (i / w) + i % w;
  }

  lemma ProductSign(w: int, h: int)
    requires w > 0 && h <= 0
    ensures w * h <= 0
  {
    assert w * h == -(w * (-h));
    ScaleBoth(w, 0, -h);
  }

  /** Row y ends where row y + 1 starts, still on the grid. */
  lemma RowFits(w: int, h: int, y: int)
    requires w > 0 && 0 <= y < h
    ensures 0 <= Idx(w, 0, y) && Idx(w, w, y) == Idx(w, 0, y + 1) <= w * h
    ensures Idx(w, 0, 0) == 0 && Idx(w, 0, h) == w * h
  {
    ScaleBoth(w, 0, y);
    ScaleBoth(w, y + 1, h);
    RowOrder(w, y);
    RowOrder(w, y + 1);
    RowOrder(w, h);
  }

  lemma RowOrder(w: int, y: int)
    ensures w * y == y * w && w * (y + 1) == y * w + w
  {
  }

  // Sums.

  function Sum(s: seq<int>): int {
    if |s| == 0 then 0 else Sum(s[..|s| - 1]) + s[|s| - 1]
  }

  lemma SumPush(s: seq<int>, v: int)
    ensures Sum(s + [v]) == Sum(s) + v
  {
    assert (s + [v])[..|s|] == s;
  }

  lemma SumPrefix(s: seq<int>, n: nat)
    requires n < |s|
    ensures Sum(s[..n + 1]) == Sum(s[..n]) + s[n]
  {
    assert s[..n + 1] == s[..n] + [s[n]];
    SumPush(s[..n], s[n]);
  }

  lemma {:induction false} SumUpdate(s: seq<int>, i: nat, v: int)
    requires i < |s|
    ensures Sum(s[i := v]) == Sum(s) + v - s[i]
    decreases |s|
  {
    var n := |s| - 1;
    if i == n {
      assert s[i := v][..n] == s[..n];
    } else {
      assert s[i := v][..n] == s[..n][i := v];
      SumUpdate(s[..n], i, v);
    }
  }

  lemma {:induction false} SumZero(s: seq<int>)
    requires forall i :: 0 <= i < |s| ==> s[i] == 0
    ensures Sum(s) == 0
    decreases |s|
  {
    if |s| > 0 {
      SumZero(s[..|s| - 1]);
    }
  }

  lemma {:induction false} SumPrefixMonotone(f: seq<nat>, m: nat, n: nat)
    requires m <= n <= |f|
    ensures 0 <= Sum(f[..m]) <= Sum(f[..n])
    decreases n
  {
    if m < n {
      SumPrefixMonotone(f, m, n - 1);
      SumPrefix(f, n - 1);
    } else if n > 0 {
      SumPrefixMonotone(f, n - 1, n - 1);
      SumPrefix(f, n - 1);
    }
  }

  // The stencil on a field.

  /** level(x, y): cells outside the grid are empty. */
  function Level(w: int, h: int, f: seq<nat>, x: int, y: int): nat
    requires |f| == w * h
  {
    if Inside(w, h, x, y) then
      IdxRoundTrip(w, h, x, y);
      f[Idx(w, x, y)]
    else 0
  }

  /** The four neighbours of the cell at address i. */
  function Inflow(w: int, h: int, f: seq<nat>, i: nat): nat
    requires w > 0 && |f| == w * h && i < |f|
  {
    var x, y := i % w, i / w;
    Level(w, h, f, x, y - 1) + Level(w, h, f, x, y + 1) + Level(w, h, f, x - 1, y) + Level(w, h, f, x + 1, y)
  }

  lemma InflowParts(w: int, h: int, f: seq<nat>, i: nat, x: int, y: int)
    requires w > 0 && |f| == w * h && i < |f| && x == i % w && y == i / w
    ensures Inflow(w, h, f, i) ==
      Level(w, h, f, x, y - 1) + Level(w, h, f, x, y + 1) + Level(w, h, f, x - 1, y) + Level(w, h, f, x + 1, y)
  {
  }

  /** Cells i and j share an edge. */
  predicate Beside(w: int, i: nat, j: nat)
    requires w > 0
  {
    (i / w == j / w && (i % w == j % w + 1 || j % w == i % w + 1)) ||
    (i % w == j % w && (i / w == j / w + 1 || j / w == i / w + 1))
  }

  /** The field without the cells that are not beside cell i. */
  function Around(w: int, f: seq<nat>, i: nat): (g: seq<nat>)
    requires w > 0
    ensures |g| == |f| && forall j :: 0 <= j < |f| ==> g[j] == if Beside(w, i, j) then f[j] else 0
  {
    seq(|f|, j requires 0 <= j < |f| => if Beside(w, i, j) then f[j] else 0)
  }

  /** One more cell of f, if it is on the grid. */
  function With(w: int, h: int, f: seq<nat>, g: seq<nat>, x: int, y: int): (r: seq<nat>)
    requires |f| == |g| == w * h
    ensures |r| == |g|
  {
    if Inside(w, h, x, y) then IdxRoundTrip(w, h, x, y); g[Idx(w, x, y) := f[Idx(w, x, y)]] else g
  }

  lemma WithAdds(w: int, h: int, f: seq<nat>, g: seq<nat>, x: int, y: int)
    requires |f| == |g| == w * h && (Inside(w, h, x, y) ==> 0 <= Idx(w, x, y) < |g| && g[Idx(w, x, y)] == 0)
    ensures Sum(With(w, h, f, g, x, y)) == Sum(g) + Level(w, h, f, x, y)
  {
    if Inside(w, h, x, y) {
      IdxRoundTrip(w, h, x, y);
      SumUpdate(g, Idx(w, x, y), f[Idx(w, x, y)]);
    }
  }

  lemma WithAt(w: int, h: int, f: seq<nat>, g: seq<nat>, x: int, y: int, j: nat)
    requires w > 0 && |f| == |g| == w * h && j < |g|
    ensures With(w, h, f, g, x, y)[j] == if j % w == x && j / w == y then f[j] else g[j]
  {
    IdxCovers(w, h, j);
    if Inside(w, h, x, y) {
      IdxRoundTrip(w, h, x, y);
    }
  }

  /** What flows in is the sum of the levels of the cells that share an edge with cell i, and of no others. */
  lemma InflowIsAround(w: int, h: int, f: seq<nat>, i: nat)
    requires w > 0 && |f| == w * h && i < |f|
    ensures Inflow(w, h, f, i) == Sum(Around(w, f, i))
  {
    var x, y := i % w, i / w;
    var g0: seq<nat> := seq(|f|, j => 0);
    SumZero(g0);
    InflowParts(w, h, f, i, x, y);
    hide Inflow;
    hide Sum;
    hide Beside;
    AroundIs(w, h, f, i, g0);
    WithFour(w, h, f, g0, x, y);
  }

  lemma WithFour(w: int, h: int, f: seq<nat>, g0: seq<nat>, x: int, y: int)
    requires w > 0 && |f| == |g0| == w * h && forall j :: 0 <= j < |g0| ==> g0[j] == 0
    ensures var g2 := With(w, h, f, With(w, h, f, g0, x, y - 1), x, y + 1);
      Sum(With(w, h, f, With(w, h, f, g2, x - 1, y), x + 1, y)) == Sum(g0) +
      Level(w, h, f, x, y - 1) + Level(w, h, f, x, y + 1) + Level(w, h, f, x - 1, y) + Level(w, h, f, x + 1, y)
  {
    hide *;
    NotYet(w, h, f, g0, x, y);
    var g1 := With(w, h, f, g0, x, y - 1);
    var g2 := With(w, h, f, g1, x, y + 1);
    WithAdds(w, h, f, g0, x, y - 1);
    WithAdds(w, h, f, g1, x, y + 1);
    WithAdds(w, h, f, g2, x - 1, y);
    WithAdds(w, h, f, With(w, h, f, g2, x - 1, y), x + 1, y);
  }

  /** The four cells are four different ones. */
  lemma NotYet(w: int, h: int, f: seq<nat>, g0: seq<nat>, x: int, y: int)
    requires w > 0 && |f| == |g0| == w * h && forall j :: 0 <= j < |g0| ==> g0[j] == 0
    ensures var g1 := With(w, h, f, g0, x, y - 1);
      var g2 := With(w, h, f, g1, x, y + 1);
      var g3 := With(w, h, f, g2, x - 1, y);
      && (Inside(w, h, x, y - 1) ==> 0 <= Idx(w, x, y - 1) < |g0| && g0[Idx(w, x, y - 1)] == 0)
      && (Inside(w, h, x, y + 1) ==> 0 <= Idx(w, x, y + 1) < |g1| && g1[Idx(w, x, y + 1)] == 0)
      && (Inside(w, h, x - 1, y) ==> 0 <= Idx(w, x - 1, y) < |g2| && g2[Idx(w, x - 1, y)] == 0)
      && (Inside(w, h, x + 1, y) ==> 0 <= Idx(w, x + 1, y) < |g3| && g3[Idx(w, x + 1, y)] == 0)
  {
    var g1 := With(w, h, f, g0, x, y - 1);
    var g2 := With(w, h, f, g1, x, y + 1);
    hide With;
    if Inside(w, h, x, y - 1) {
      IdxRoundTrip(w, h, x, y - 1);
    }
    if Inside(w, h, x, y + 1) {
      IdxRoundTrip(w, h, x, y + 1);
      WithAt(w, h, f, g0, x, y - 1, Idx(w, x, y + 1));
    }
    if Inside(w, h, x - 1, y) {
      IdxRoundTrip(w, h, x - 1, y);
      WithAt(w, h, f, g0, x, y - 1, Idx(w, x - 1, y));
      WithAt(w, h, f, g1, x, y + 1, Idx(w, x - 1, y));
    }
    if Inside(w, h, x + 1, y) {
      IdxRoundTrip(w, h, x + 1, y);
      WithAt(w, h, f, g0, x, y - 1, Idx(w, x + 1, y));
      WithAt(w, h, f, g1, x, y + 1, Idx(w, x + 1, y));
      WithAt(w, h, f, g2, x - 1, y, Idx(w, x + 1, y));
    }
  }

  lemma AroundIs(w: int, h: int, f: seq<nat>, i: nat, g0: seq<nat>)
    requires w > 0 && |f| == |g0| == w * h && i < |f| && forall j :: 0 <= j < |g0| ==> g0[j] == 0
    ensures var x, y := i % w, i / w;
      var g2 := With(w, h, f, With(w, h, f, g0, x, y - 1), x, y + 1);
      With(w, h, f, With(w, h, f, g2, x - 1, y), x + 1, y) == Around(w, f, i)
  {
    var x, y := i % w, i / w;
    var g1 := With(w, h, f, g0, x, y - 1);
    var g2 := With(w, h, f, g1, x, y + 1);
    var g3 := With(w, h, f, g2, x - 1, y);
    var g4 := With(w, h, f, g3, x + 1, y);
    hide With;
    forall j | 0 <= j < |f|
      ensures g4[j] == Around(w, f, i)[j]
    {
      WithAt(w, h, f, g0, x, y - 1, j);
      WithAt(w, h, f, g1, x, y + 1, j);
      WithAt(w, h, f, g2, x - 1, y, j);
      WithAt(w, h, f, g3, x + 1, y, j);
    }
  }

  /** The field after spreading, on unbounded integers. */
  function Spread(p: Pheromone, w: int, h: int, f: seq<nat>): (g: seq<nat>)
    requires PheromoneOk(p) && w > 0 && |f| == w * h
    ensures |g| == |f|
  {
    seq(|f|, i requires 0 <= i < |f| => Diffused(p, f[i], Inflow(w, h, f, i)))
  }

  lemma LevelBound(w: int, h: int, f: seq<nat>, x: int, y: int, m: nat)
    requires |f| == w * h
    requires forall i :: 0 <= i < |f| ==> f[i] <= m
    ensures Level(w, h, f, x, y) <= m
  {
    if Inside(w, h, x, y) {
      IdxRoundTrip(w, h, x, y);
    }
  }

  /** On a whole field, a decay step never exceeds the field's maximum, whether its products wrap or not. */
  lemma FieldMaximumPrinciple(p: Pheromone, w: int, h: int, f: seq<nat>, m: nat, i: nat)
    requires PheromoneOk(p) && w > 0 && |f| == w * h && i < |f|
    requires forall j :: 0 <= j < |f| ==> f[j] <= m
    ensures Cell(p, f[i], Inflow(w, h, f, i)) <= m
    ensures Exact(p, f[i], Inflow(w, h, f, i)) <= m
  {
    hide Level;
    var x, y := i % w, i / w;
    LevelBound(w, h, f, x, y - 1, m);
    LevelBound(w, h, f, x, y + 1, m);
    LevelBound(w, h, f, x - 1, y, m);
    LevelBound(w, h, f, x + 1, y, m);
    MaximumPrinciple(p, f[i], Level(w, h, f, x, y - 1), Level(w, h, f, x, y + 1),
      Level(w, h, f, x - 1, y), Level(w, h, f, x + 1, y), m);
  }

  // Mass.

  function Back(f: seq<nat>, d: nat, i: nat): nat
    requires i < |f|
  {
    if i >= d then f[i - d] else 0
  }

  function Ahead(f: seq<nat>, d: nat, i: nat): nat {
    if i + d < |f| then f[i + d] else 0
  }

  lemma RowShift(w: int, y: int)
    ensures (y - 1) * w == y * w - w && (y + 1) * w == y * w + w && y * w == w * y
  {
  }

  lemma VerticalNeighbours(w: int, h: int, f: seq<nat>, i: nat)
    requires w > 0 && |f| == w * h && i < |f|
    ensures Level(w, h, f, i % w, i / w - 1) == Back(f, w, i)
    ensures Level(w, h, f, i % w, i / w + 1) == Ahead(f, w, i)
  {
    IdxCovers(w, h, i);
    var x, y := i % w, i / w;
    RowShift(w, y);
    assert Idx(w, x, y - 1) == i - w && Idx(w, x, y + 1) == i + w;
    if y > 0 {
      IdxRoundTrip(w, h, x, y - 1);
    }
    if y + 1 < h {
      IdxRoundTrip(w, h, x, y + 1);
    } else {
      RowShift(w, h);
      assert y == h - 1;
    }
  }

  lemma HorizontalNeighbours(w: int, h: int, f: seq<nat>, i: nat)
    requires w > 0 && |f| == w * h && i < |f|
    ensures Level(w, h, f, i % w - 1, i / w) <= Back(f, 1, i)
    ensures Level(w, h, f, i % w + 1, i / w) <= Ahead(f, 1, i)
  {
    IdxCovers(w, h, i);
    var x, y := i % w, i / w;
    if x > 0 {
      IdxRoundTrip(w, h, x - 1, y);
    }
    if x + 1 < w {
      IdxRoundTrip(w, h, x + 1, y);
    }
  }

  lemma InflowBound(w: int, h: int, f: seq<nat>, i: nat)
    requires w > 0 && |f| == w * h && i < |f|
    ensures Inflow(w, h, f, i) <= Back(f, w, i) + Ahead(f, w, i) + Back(f, 1, i) + Ahead(f, 1, i)
  {
    VerticalNeighbours(w, h, f, i);
    HorizontalNeighbours(w, h, f, i);
  }

  function Min(a: int, b: int): int {
    if a < b then a else b
  }

  /** The inflow of the first n cells. */
  function InflowTo(w: int, h: int, f: seq<nat>, n: nat): nat
    requires w > 0 && |f| == w * h && n <= |f|
  {
    if n == 0 then 0 else InflowTo(w, h, f, n - 1) + Inflow(w, h, f, n - 1)
  }

  function BackTo(f: seq<nat>, d: nat, n: nat): nat
    requires n <= |f|
  {
    if n == 0 then 0 else BackTo(f, d, n - 1) + Back(f, d, n - 1)
  }

  function AheadTo(f: seq<nat>, d: nat, n: nat): nat
    requires n <= |f|
  {
    if n == 0 then 0 else AheadTo(f, d, n - 1) + Ahead(f, d, n - 1)
  }

  lemma {:induction false} BackSum(f: seq<nat>, d: nat, n: nat)
    requires n <= |f|
    ensures BackTo(f, d, n) == Sum(f[..if n >= d then n - d else 0])
    decreases n
  {
    if n > 0 {
      BackSum(f, d, n - 1);
      if n - 1 >= d {
        SumPrefix(f, n - 1 - d);
      }
    }
  }

  lemma {:induction false} AheadSum(f: seq<nat>, d: nat, n: nat)
    requires n <= |f|
    ensures AheadTo(f, d, n) == Sum(f[..Min(n + d, |f|)]) - Sum(f[..Min(d, |f|)])
    decreases n
  {
    if n > 0 {
      AheadSum(f, d, n - 1);
      if n - 1 + d < |f| {
        SumPrefix(f, n - 1 + d);
      }
    }
  }

  lemma {:induction false} InflowSplits(w: int, h: int, f: seq<nat>, n: nat)
    requires w > 0 && |f| == w * h && n <= |f|
    ensures InflowTo(w, h, f, n) <= BackTo(f, w, n) + AheadTo(f, w, n) + BackTo(f, 1, n) + AheadTo(f, 1, n)
    decreases n
  {
    hide Inflow;
    hide Back;
    hide Ahead;
    if n > 0 {
      InflowSplits(w, h, f, n - 1);
      InflowBound(w, h, f, n - 1);
    }
  }

  lemma ShiftBounds(f: seq<nat>, d: nat)
    ensures BackTo(f, d, |f|) <= Sum(f) && AheadTo(f, d, |f|) <= Sum(f)
  {
    var n := |f|;
    BackSum(f, d, n);
    AheadSum(f, d, n);
    SumPrefixMonotone(f, if n >= d then n - d else 0, n);
    SumPrefixMonotone(f, Min(n + d, n), n);
    SumPrefixMonotone(f, Min(d, n), n);
    assert f[..n] == f;
  }

  /** Every cell is a neighbour of at most four others. */
  lemma TotalInflow(w: int, h: int, f: seq<nat>)
    requires w > 0 && |f| == w * h
    ensures InflowTo(w, h, f, |f|) <= 4 * Sum(f)
  {
    InflowSplits(w, h, f, |f|);
    ShiftBounds(f, w);
    ShiftBounds(f, 1);
  }

  /** A cell gains less than one unit by rounding. */
  lemma CellMass(p: Pheromone, v: nat, inflow: nat)
    requires PheromoneOk(p)
    ensures 4 * p.diffDen * Diffused(p, v, inflow) <=
            4 * p.diffDen * v - 4 * p.diffNum * v + 4 * (p.diffDen - 1) + p.diffNum * inflow
  {
    SpreadWithinOne(p, v, inflow);
    hide Diffused;
  }

  lemma {:induction false} MassTo(p: Pheromone, w: int, h: int, f: seq<nat>, n: nat)
    requires PheromoneOk(p) && w > 0 && |f| == w * h && n <= |f|
    ensures 4 * p.diffDen * Sum(Spread(p, w, h, f)[..n]) <=
            4 * p.diffDen * Sum(f[..n]) - 4 * p.diffNum * Sum(f[..n]) + 4 * (p.diffDen - 1) * n +
            p.diffNum * InflowTo(w, h, f, n)
    decreases n
  {
    if n > 0 {
      hide Inflow;
      hide Diffused;
      hide Sum;
      var g, m := Spread(p, w, h, f), n - 1;
      assert g[m] == Diffused(p, f[m], Inflow(w, h, f, m));
      hide Spread;
      MassTo(p, w, h, f, m);
      SumPrefix(g, m);
      SumPrefix(f, m);
      CellMass(p, f[m], Inflow(w, h, f, m));
      MassStep(p.diffDen, p.diffNum, Sum(g[..m]), g[m], Sum(f[..m]), f[m], m, InflowTo(w, h, f, m), Inflow(w, h, f, m));
    }
  }

  lemma MassStep(dd: int, dn: int, sg: int, g: int, sf: int, f: int, m: int, si: int, i: int)
    requires 4 * dd * sg <= 4 * dd * sf - 4 * dn * sf + 4 * (dd - 1) * m + dn * si
    requires 4 * dd * g <= 4 * dd * f - 4 * dn * f + 4 * (dd - 1) + dn * i
    ensures 4 * dd * (sg + g) <= 4 * dd * (sf + f) - 4 * dn * (sf + f) + 4 * (dd - 1) * (m + 1) + dn * (si + i)
  {
  }

  /**
   Total mass after spreading exceeds the mass before by less than one unit per
   cell: DiffDen * after <= DiffDen * before + (DiffDen - 1) * W * H.
   */
  lemma MassBound(p: Pheromone, w: int, h: int, f: seq<nat>)
    requires PheromoneOk(p) && w > 0 && |f| == w * h
    ensures p.diffDen * Sum(Spread(p, w, h, f)) <= p.diffDen * Sum(f) + (p.diffDen - 1) * |f|
  {
    var g, n := Spread(p, w, h, f), |f|;
    MassTo(p, w, h, f, n);
    TotalInflow(w, h, f);
    assert g[..n] == g && f[..n] == f;
    MassFinish(p.diffDen, p.diffNum, Sum(g), Sum(f), n, InflowTo(w, h, f, n));
  }

  lemma MassFinish(dd: nat, dn: nat, sg: int, sf: int, n: nat, si: nat)
    requires 4 * dd * sg <= 4 * dd * sf - 4 * dn * sf + 4 * (dd - 1) * n + dn * si
    requires si <= 4 * sf
    ensures dd * sg <= dd * sf + (dd - 1) * n
  {
    ScaleBoth(dn, si, 4 * sf);
    assert dn * (4 * sf) == 4 * dn * sf;
  }

  // The same account for the uint64 rule, whose products may wrap.

  /** The field after spreading as decayGrid computes it. */
  function Spread64(p: Pheromone, w: int, h: int, f: seq<nat>): (g: seq<nat>)
    requires PheromoneOk(p) && w > 0 && |f| == w * h
    ensures |g| == |f|
  {
    seq(|f|, i requires 0 <= i < |f| => Diffused64(p, f[i], Inflow(w, h, f, i)))
  }

  /** Every level times the rate, truncated to 64 bits. */
  function Scaled(k: nat, f: seq<nat>): (g: seq<nat>)
    ensures |g| == |f|
  {
    seq(|f|, i requires 0 <= i < |f| => Mul64(f[i], k))
  }

  lemma ScaledLevel(k: nat, w: int, h: int, f: seq<nat>, x: int, y: int)
    requires |f| == w * h
    ensures Level(w, h, Scaled(k, f), x, y) == Mul64(Level(w, h, f, x, y), k)
  {
    if Inside(w, h, x, y) {
      IdxRoundTrip(w, h, x, y);
    }
  }

  /** Truncating the inflow's product gives at most the sum of the truncated products. */
  lemma ScaledInflow(k: nat, w: int, h: int, f: seq<nat>, i: nat)
    requires w > 0 && |f| == w * h && i < |f|
    ensures Mul64(Inflow(w, h, f, i), k) <= Inflow(w, h, Scaled(k, f), i)
  {
    hide *;
    var x, y := i % w, i / w;
    InflowParts(w, h, f, i, x, y);
    InflowParts(w, h, Scaled(k, f), i, x, y);
    ScaledLevel(k, w, h, f, x, y - 1);
    ScaledLevel(k, w, h, f, x, y + 1);
    ScaledLevel(k, w, h, f, x - 1, y);
    ScaledLevel(k, w, h, f, x + 1, y);
    var a, b := Level(w, h, f, x, y - 1), Level(w, h, f, x, y + 1);
    var c, d := Level(w, h, f, x - 1, y), Level(w, h, f, x + 1, y);
    Mul64Splits(a, b, k);
    Mul64Splits(a + b, c, k);
    Mul64Splits(a + b + c, d, k);
  }

  /** One cell's account in the fields' terms. */
  lemma Mass64Cell(p: Pheromone, w: int, h: int, f: seq<nat>, i: nat)
    requires PheromoneOk(p) && w > 0 && |f| == w * h && i < |f| && f[i] < TWO_63
    ensures var g := Scaled(p.diffNum, f);
      4 * (p.diffDen * Spread64(p, w, h, f)[i]) <=
      4 * (p.diffDen * f[i]) - 4 * g[i] + 4 * (p.diffDen - 1) + Inflow(w, h, g, i)
  {
    hide Inflow;
    hide Diffused64;
    hide Mul64;
    Cell64Mass(p, f[i], Inflow(w, h, f, i));
    ScaledInflow(p.diffNum, w, h, f, i);
  }

  /** Adding one cell's account to that of the cells before it. */
  lemma Mass64Step(dd: int, ss: int, s: int, sf: int, f: int, sg: int, g: int, m: int, si: int, i: int)
    requires 4 * (dd * ss) <= 4 * (dd * sf) - 4 * sg + 4 * (dd - 1) * m + si
    requires 4 * (dd * s) <= 4 * (dd * f) - 4 * g + 4 * (dd - 1) + i
    ensures 4 * (dd * (ss + s)) <= 4 * (dd * (sf + f)) - 4 * (sg + g) + 4 * (dd - 1) * (m + 1) + (si + i)
  {
    MulDistributes(dd, ss, s);
    MulDistributes(dd, sf, f);
    MulDistributes(4 * (dd - 1), m, 1);
  }

  lemma InflowToNext(w: int, h: int, f: seq<nat>, m: nat)
    requires w > 0 && |f| == w * h && m < |f|
    ensures InflowTo(w, h, f, m + 1) == InflowTo(w, h, f, m) + Inflow(w, h, f, m)
  {
  }

  lemma Mass64None(p: Pheromone, w: int, h: int, f: seq<nat>)
    requires PheromoneOk(p) && w > 0 && |f| == w * h
    ensures Mass64Holds(p, w, h, f, 0)
  {
  }

  predicate Mass64Holds(p: Pheromone, w: int, h: int, f: seq<nat>, n: nat)
    requires PheromoneOk(p) && w > 0 && |f| == w * h && n <= |f|
  {
    var g := Scaled(p.diffNum, f);
    4 * (p.diffDen * Sum(Spread64(p, w, h, f)[..n])) <=
    4 * (p.diffDen * Sum(f[..n])) - 4 * Sum(g[..n]) + 4 * (p.diffDen - 1) * n + InflowTo(w, h, g, n)
  }

  lemma Mass64Next(p: Pheromone, w: int, h: int, f: seq<nat>, m: nat)
    requires PheromoneOk(p) && w > 0 && |f| == w * h && m < |f| && f[m] < TWO_63 && Mass64Holds(p, w, h, f, m)
    ensures Mass64Holds(p, w, h, f, m + 1)
  {
    var s, g := Spread64(p, w, h, f), Scaled(p.diffNum, f);
    hide Spread64;
    hide Scaled;
    hide Inflow;
    hide InflowTo;
    hide Sum;
    SumPrefix(s, m);
    SumPrefix(f, m);
    SumPrefix(g, m);
    Mass64Cell(p, w, h, f, m);
    InflowToNext(w, h, g, m);
    Mass64Step(p.diffDen, Sum(s[..m]), s[m], Sum(f[..m]), f[m], Sum(g[..m]), g[m], m, InflowTo(w, h, g, m), Inflow(w, h, g, m));
  }

  lemma {:induction false} Mass64To(p: Pheromone, w: int, h: int, f: seq<nat>, n: nat)
    requires PheromoneOk(p) && w > 0 && |f| == w * h && n <= |f|
    requires forall i :: 0 <= i < |f| ==> f[i] < TWO_63
    ensures Mass64Holds(p, w, h, f, n)
    decreases n
  {
    hide *;
    if n == 0 {
      Mass64None(p, w, h, f);
    } else {
      Mass64To(p, w, h, f, n - 1);
      Mass64Next(p, w, h, f, n - 1);
    }
  }

  /**
   The mass bound for the uint64 rule, on every valid parameter set: wrapping
   products never create more than rounding can.
   */
  lemma Mass64Bound(p: Pheromone, w: int, h: int, f: seq<nat>)
    requires PheromoneOk(p) && w > 0 && |f| == w * h
    requires forall i :: 0 <= i < |f| ==> f[i] < TWO_63
    ensures p.diffDen * Sum(Spread64(p, w, h, f)) <= p.diffDen * Sum(f) + (p.diffDen - 1) * |f|
  {
    var s, g, n := Spread64(p, w, h, f), Scaled(p.diffNum, f), |f|;
    Mass64To(p, w, h, f, n);
    TotalInflow(w, h, g);
    assert s[..n] == s && f[..n] == f && g[..n] == g;
    FourTimes(p.diffDen - 1, n);
    hide Sum;
    hide Spread64;
    hide Scaled;
    hide InflowTo;
  }

  lemma {:induction false} SumBelow(a: seq<int>, b: seq<int>)
    requires |a| == |b|
    requires forall i :: 0 <= i < |a| ==> a[i] <= b[i]
    ensures Sum(a) <= Sum(b)
    decreases |a|
  {
    if |a| > 0 {
      SumBelow(a[..|a| - 1], b[..|b| - 1]);
    }
  }

  lemma {:induction false} SumOfSums(a: seq<int>, b: seq<int>, c: seq<int>)
    requires |a| == |b| == |c|
    requires forall i :: 0 <= i < |a| ==> c[i] == a[i] + b[i]
    ensures Sum(c) == Sum(a) + Sum(b)
    decreases |a|
  {
    var n := |a| - 1;
    if n >= 0 {
      SumOfSums(a[..n], b[..n], c[..n]);
    }
  }
}
