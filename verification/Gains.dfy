/**
 Exactly when rounding can create mass, on uint64 as on unbounded integers: on
 grids of at least 15 by 15 the condition is exact, on all others it suffices.
 */
module Gains {
  import opened Words
  import opened Config
  import opened Stencil
  import opened Grid
  import opened Mass
  import opened Orders

  // Sums row by row.

  /** Two patterns of cells with a high level (2) or a low one (1); the other cells are empty (0). */
  datatype Pattern = Weave | Star

  function Code(t: Pattern, x: int, y: int): nat {
    match t
    case Weave =>
      if !(0 <= x < 15 && 0 <= y < 15) || (x + y) % 2 == 1 then 0
      else if x % 2 == 0 && (x - y) % 4 == 0 then 1 else 2
    case Star =>
      if x == 2 && y == 2 then 2
      else if (x == 2 && (y == 0 || y == 4)) || (y == 2 && (x == 0 || x == 4)) then 1
      else if (x == 1 || x == 3) && (y == 1 || y == 3) then 1 else 0
  }

  /** Empty cells whose four neighbours all hold something. */
  predicate Hit(t: Pattern, x: int, y: int) {
    match t
    case Weave => 0 < x < 14 && 0 < y < 14 && (x + y) % 2 == 1
    case Star => (x == 2 && (y == 1 || y == 3)) || (y == 2 && (x == 1 || x == 3))
  }

  /** What a high level gives away. */
  function Price(t: Pattern): nat {
    if t.Weave? then 1 else 3
  }

  /** How much each cell is known to gain or lose. */
  function Shift(t: Pattern, x: int, y: int): int {
    (if Hit(t, x, y) then 1 else 0) - (if Code(t, x, y) == 2 then Price(t) else 0)
  }

  function RowSum(t: Pattern, y: int, n: nat): int {
    if n == 0 then 0 else RowSum(t, y, n - 1) + Shift(t, n - 1, y)
  }

  function Total(t: Pattern, w: nat, n: nat): int {
    if n == 0 then 0 else Total(t, w, n - 1) + RowSum(t, n - 1, w)
  }

  function Shifts(t: Pattern, w: int, h: int): (s: seq<int>)
    requires w > 0 && h > 0
    ensures |s| == w * h && forall i :: 0 <= i < |s| ==> s[i] == Shift(t, i % w, i / w)
  {
    ProductPositive(w, h);
    seq(w * h, i requires 0 <= i < w * h => Shift(t, i % w, i / w))
  }

  /** The sum over x cells of one row, which begins at address k. */
  lemma {:induction false} SumAlongRow(t: Pattern, s: seq<int>, k: nat, x: nat, y: int)
    requires k + x <= |s| && forall i :: k <= i < k + x ==> s[i] == Shift(t, i - k, y)
    ensures Sum(s[..k + x]) == Sum(s[..k]) + RowSum(t, y, x)
  {
    hide Shift;
    if x > 0 {
      SumAlongRow(t, s, k, x - 1, y);
      SumPrefix(s, k + x - 1);
    }
  }

  lemma {:induction false} SumOfRows(t: Pattern, w: int, h: int, y: nat)
    requires w > 0 && h > 0 && y <= h
    ensures 0 <= y * w <= w * h && Sum(Shifts(t, w, h)[..y * w]) == Total(t, w, y)
  {
    hide Shift;
    hide Shifts;
    hide RowSum;
    ProductPositive(w, h);
    if y > 0 {
      SumOfRows(t, w, h, y - 1);
      RowHolds(t, w, h, y - 1);
      assert y * w == (y - 1) * w + w;
      SumAlongRow(t, Shifts(t, w, h), (y - 1) * w, w, y - 1);
      hide Sum;
    } else {
      assert Shifts(t, w, h)[..0] == [];
      assert 0 * w == 0;
    }
  }

  lemma RowHolds(t: Pattern, w: int, h: int, y: nat)
    requires w > 0 && y < h
    ensures 0 <= y * w && y * w + w <= w * h
    ensures forall i :: y * w <= i < y * w + w ==> Shifts(t, w, h)[i] == Shift(t, i - y * w, y)
  {
    hide Shift;
    hide Shifts;
    RowPlace(w, h, w, y);
    forall i | y * w <= i < y * w + w
      ensures Shifts(t, w, h)[i] == Shift(t, i - y * w, y)
    {
      RowPlace(w, h, i - y * w, y);
    }
  }

  lemma RowPlace(w: int, h: int, x: nat, y: nat)
    requires w > 0 && x <= w && y < h
    ensures 0 <= y * w + x <= w * h
    ensures x < w ==> y * w + x < w * h && (y * w + x) % w == x && (y * w + x) / w == y
  {
    ScaleBoth(w, y, h - 1);
    ScaleBoth(y, 0, w);
    DistributeOver(w, h, 1, 0);
    FourTimes(w, y);
    if x < w {
      ModUnique(y * w + x, w, y, x);
    }
  }

  /** Beyond its 15 columns a pattern is empty. */
  lemma {:induction false} RowEnds(t: Pattern, y: int, n: nat)
    requires n >= 15
    ensures RowSum(t, y, n) == RowSum(t, y, 15)
  {
    if n > 15 {
      RowEnds(t, y, n - 1);
    }
  }

  lemma {:induction false} EmptyRow(t: Pattern, y: int, n: nat)
    requires y >= 15
    ensures RowSum(t, y, n) == 0
  {
    if n > 0 {
      EmptyRow(t, y, n - 1);
    }
  }

  lemma {:induction false} RowsEnd(t: Pattern, w: nat, n: nat)
    requires n >= 15
    ensures Total(t, w, n) == Total(t, w, 15)
  {
    if n > 15 {
      RowsEnd(t, w, n - 1);
      EmptyRow(t, n - 1, w);
    }
  }

  lemma {:induction false} StarTo(y: nat, n: nat)
    ensures RowSum(Star, y, n) ==
      if y == 1 || y == 3 then if n < 3 then 0 else 1
      else if y != 2 || n < 2 then 0 else if n == 2 then 1 else if n == 3 then -2 else -1
  {
    if n > 0 {
      StarTo(y, n - 1);
    }
  }

  /** The rows of the weave: its border loses, its odd rows lose one unit and its even rows gain three. */
  function WeaveSum(y: nat, n: nat): int {
    if y == 0 then -((n + 1) / 4)
    else if y == 14 then -((n + 3) / 4)
    else if y % 2 == 1 then if n > 0 && (n % 2 == 0 || n == 15) then -1 else 0
    else n / 4 + if y % 4 == 0 && n % 4 == 2 then 1 else if y % 4 == 2 && n % 4 == 1 then -1 else 0
  }

  lemma {:induction false} WeaveTo(y: nat, n: nat)
    requires y < 15 && n <= 15
    ensures RowSum(Weave, y, n) == WeaveSum(y, n)
  {
    if n > 0 {
      WeaveTo(y, n - 1);
      WeaveStep(y, n - 1);
      hide Shift;
      hide WeaveSum;
    }
  }

  lemma WeaveStep(y: nat, n: nat)
    requires y < 15 && n < 15
    ensures WeaveSum(y, n) + Shift(Weave, n, y) == WeaveSum(y, n + 1)
  {
    if y == 0 {
      WeaveTop(n);
    } else if y == 14 {
      WeaveBottom(n);
    } else if y % 2 == 1 {
      WeaveOdd(y, n);
    } else {
      WeaveEven(y, n);
    }
    hide Shift;
    hide WeaveSum;
  }

  lemma WeaveTop(n: nat)
    requires n < 15
    ensures WeaveSum(0, n) + Shift(Weave, n, 0) == WeaveSum(0, n + 1)
  {
    Quarters(0, n);
  }

  lemma WeaveBottom(n: nat)
    requires n < 15
    ensures WeaveSum(14, n) + Shift(Weave, n, 14) == WeaveSum(14, n + 1)
  {
    Quarters(14, n);
  }

  lemma WeaveOdd(y: nat, n: nat)
    requires y < 15 && y % 2 == 1 && n < 15
    ensures WeaveSum(y, n) + Shift(Weave, n, y) == WeaveSum(y, n + 1)
  {
  }

  lemma Quarters(y: nat, n: nat)
    ensures (n - y) % 4 == 0 <==> n % 4 == y % 4
    ensures (n + 1) / 4 == n / 4 + (if n % 4 == 3 then 1 else 0)
    ensures (n + 1) % 4 == if n % 4 == 3 then 0 else n % 4 + 1
    ensures n % 2 == (n % 4) % 2
  {
  }

  lemma WeaveEven(y: nat, n: nat)
    requires 0 < y < 14 && y % 2 == 0 && n < 15
    ensures WeaveSum(y, n) + Shift(Weave, n, y) == WeaveSum(y, n + 1)
  {
    hide Shift;
    Quarters(y, n);
    if n % 2 == 1 {
      EvenRowGains(y, n);
    } else {
      EvenRowCell(y, n);
    }
  }

  /** Along an even row inside the weave, odd columns gain and every other even column loses. */
  lemma EvenRowGains(y: nat, n: nat)
    requires 0 < y < 14 && y % 2 == 0 && n < 15 && n % 2 == 1
    ensures Shift(Weave, n, y) == 1
  {
  }

  lemma EvenRowCell(y: nat, n: nat)
    requires 0 < y < 14 && y % 2 == 0 && n < 15 && n % 2 == 0
    ensures Shift(Weave, n, y) == if n % 4 == y % 4 then 0 else -1
  {
    Quarters(y, n);
    assert (n + y) % 2 == 0;
  }

  /** The total of the first n rows of a pattern. */
  function PatternSum(t: Pattern, n: nat): int {
    match t
    case Weave => if n == 0 then 0 else if n >= 15 then 3 else if n % 2 == 1 then n - 5 else n - 7
    case Star => if n < 2 then 0 else if n == 3 then 0 else 1
  }

  lemma {:induction false} TotalTo(t: Pattern, w: nat, n: nat)
    requires w >= 15 && n <= 15
    ensures Total(t, w, n) == PatternSum(t, n)
  {
    hide RowSum;
    hide PatternSum;
    if n > 0 {
      TotalTo(t, w, n - 1);
      RowEnds(t, n - 1, w);
      if t.Weave? {
        NextWeaveRow(n - 1);
      } else {
        StarTo(n - 1, 15);
        NextStarRow(n - 1);
      }
    } else {
      PatternSumEnds(t);
    }
  }

  lemma NextWeaveRow(y: nat)
    requires y < 15
    ensures PatternSum(Weave, y + 1) == PatternSum(Weave, y) + RowSum(Weave, y, 15)
  {
    WeaveTo(y, 15);
    hide RowSum;
  }

  lemma NextStarRow(y: nat)
    requires RowSum(Star, y, 15) == if y == 1 || y == 3 then 1 else if y == 2 then -1 else 0
    ensures PatternSum(Star, y + 1) == PatternSum(Star, y) + RowSum(Star, y, 15)
  {
    hide RowSum;
  }

  lemma PatternSumEnds(t: Pattern)
    ensures PatternSum(t, 0) == 0 && PatternSum(t, 15) > 0
  {
  }

  /** On every grid that holds a pattern, what is gained exceeds what is lost. */
  lemma PatternGains(t: Pattern, w: int, h: int)
    requires w >= 15 && h >= 15
    ensures Sum(Shifts(t, w, h)) > 0
  {
    hide *;
    SumOfRows(t, w, h, h);
    FourTimes(h, w);
    assert Shifts(t, w, h)[..h * w] == Shifts(t, w, h);
    RowsEnd(t, w, h);
    TotalTo(t, w, 15);
    PatternSumEnds(t);
  }

  // A pattern of levels gains.

  /** The level that each code stands for. */
  function Value(c: nat, low: nat, high: nat): nat {
    if c == 0 then 0 else if c == 1 then low else high
  }

  function PatternField(t: Pattern, w: int, h: int, low: nat, high: nat): (f: seq<nat>)
    requires w > 0 && h > 0
    ensures |f| == w * h && forall i :: 0 <= i < |f| ==> f[i] == Value(Code(t, i % w, i / w), low, high)
  {
    ProductPositive(w, h);
    seq(w * h, i requires 0 <= i < w * h => Value(Code(t, i % w, i / w), low, high))
  }

  lemma CodeOutside(t: Pattern, x: int, y: int)
    requires !(0 <= x < 15 && 0 <= y < 15)
    ensures Code(t, x, y) == 0
  {
  }

  lemma PatternLevel(t: Pattern, w: int, h: int, low: nat, high: nat, x: int, y: int)
    requires w >= 15 && h >= 15
    ensures Level(w, h, PatternField(t, w, h, low, high), x, y) == Value(Code(t, x, y), low, high)
  {
    if Inside(w, h, x, y) {
      IdxRoundTrip(w, h, x, y);
    } else {
      CodeOutside(t, x, y);
    }
    hide Code;
  }

  /** Around a hit all four cells hold something: three of the weave's are high, one of the star's. */
  lemma AroundHit(t: Pattern, x: int, y: int, low: nat, high: nat)
    requires Hit(t, x, y)
    ensures Code(t, x, y) == 0
    ensures Value(Code(t, x, y - 1), low, high) + Value(Code(t, x, y + 1), low, high) +
      Value(Code(t, x - 1, y), low, high) + Value(Code(t, x + 1, y), low, high) ==
      if t.Weave? then 3 * high + low else high + 3 * low
  {
    if t.Weave? {
      WeaveAround(x, y);
    }
  }

  /** One of two cells holds a low level and the other a high one. */
  predicate Mixed(c: nat, d: nat) {
    (c == 1 && d == 2) || (c == 2 && d == 1)
  }

  lemma WeaveOddCell(i: int, j: int)
    requires 0 <= 2 * i + 1 < 15 && 0 <= 2 * j + 1 < 15
    ensures Code(Weave, 2 * i + 1, 2 * j + 1) == 2
  {
  }

  lemma WeaveLow(i: int, j: int, q: int)
    requires 0 <= 2 * i < 15 && 0 <= 2 * j < 15 && i == j + 2 * q
    ensures Code(Weave, 2 * i, 2 * j) == 1
  {
    assert 2 * i - 2 * j == 4 * q;
  }

  lemma WeaveHigh(i: int, j: int, q: int)
    requires 0 <= 2 * i < 15 && 0 <= 2 * j < 15 && i == j + 2 * q + 1
    ensures Code(Weave, 2 * i, 2 * j) == 2
  {
    assert 2 * i - 2 * j == 4 * q + 2;
  }

  lemma AboveAndBelow(i: int, j: int)
    requires 0 < 2 * i < 14 && 0 < 2 * j + 1 < 14
    ensures var x, y := 2 * i, 2 * j + 1;
      Code(Weave, x - 1, y) == Code(Weave, x + 1, y) == 2 && Mixed(Code(Weave, x, y - 1), Code(Weave, x, y + 1))
  {
    hide Code;
    WeaveOddCell(i - 1, j);
    WeaveOddCell(i, j);
    var q := (i - j) / 2;
    if i == j + 2 * q {
      WeaveLow(i, j, q);
      WeaveHigh(i, j + 1, q - 1);
    } else {
      WeaveHigh(i, j, q);
      WeaveLow(i, j + 1, q);
    }
  }

  lemma LeftAndRight(i: int, j: int)
    requires 0 < 2 * i + 1 < 14 && 0 < 2 * j < 14
    ensures var x, y := 2 * i + 1, 2 * j;
      Code(Weave, x, y - 1) == Code(Weave, x, y + 1) == 2 && Mixed(Code(Weave, x - 1, y), Code(Weave, x + 1, y))
  {
    hide Code;
    WeaveOddCell(i, j - 1);
    WeaveOddCell(i, j);
    var q := (i - j) / 2;
    if i == j + 2 * q {
      WeaveLow(i, j, q);
      WeaveHigh(i + 1, j, q);
    } else {
      WeaveHigh(i, j, q);
      WeaveLow(i + 1, j, q + 1);
    }
  }

  lemma WeaveAround(x: int, y: int)
    requires Hit(Weave, x, y)
    ensures if x % 2 == 0
      then Code(Weave, x - 1, y) == Code(Weave, x + 1, y) == 2 && Mixed(Code(Weave, x, y - 1), Code(Weave, x, y + 1))
      else Code(Weave, x, y - 1) == Code(Weave, x, y + 1) == 2 && Mixed(Code(Weave, x - 1, y), Code(Weave, x + 1, y))
  {
    hide Code;
    hide Mixed;
    if x % 2 == 0 {
      AboveAndBelow(x / 2, y / 2);
    } else {
      LeftAndRight(x / 2, y / 2);
    }
  }

  /** Levels for which a pattern works: a high one costs its price, a low one nothing, and a hit gains. */
  predicate Works(p: Pheromone, t: Pattern, low: nat, high: nat)
    requires PheromoneOk(p)
  {
    && InRange(p, low) && InRange(p, high)
    && Out64(p, low) == 0 && Out64(p, high) == Price(t)
    && Share64(p, if t.Weave? then 3 * high + low else high + 3 * low) >= 1
  }

  lemma PatternInflow(t: Pattern, w: int, h: int, low: nat, high: nat, i: nat)
    requires w >= 15 && h >= 15 && i < w * h && Hit(t, i % w, i / w)
    ensures Inflow(w, h, PatternField(t, w, h, low, high), i) == if t.Weave? then 3 * high + low else high + 3 * low
  {
    hide *;
    var x, y := i % w, i / w;
    InflowParts(w, h, PatternField(t, w, h, low, high), i, x, y);
    PatternLevel(t, w, h, low, high, x, y - 1);
    PatternLevel(t, w, h, low, high, x, y + 1);
    PatternLevel(t, w, h, low, high, x - 1, y);
    PatternLevel(t, w, h, low, high, x + 1, y);
    AroundHit(t, x, y, low, high);
  }

  lemma PatternCell(p: Pheromone, t: Pattern, w: int, h: int, low: nat, high: nat, i: nat)
    requires PheromoneOk(p) && w >= 15 && h >= 15 && i < w * h && Works(p, t, low, high)
    ensures var f := PatternField(t, w, h, low, high);
      Diffused64(p, f[i], Inflow(w, h, f, i)) >= f[i] + Shift(t, i % w, i / w)
  {
    var f, x, y := PatternField(t, w, h, low, high), i % w, i / w;
    NothingIsShared(p);
    TopBounds(p, low);
    TopBounds(p, high);
    if Hit(t, x, y) {
      PatternInflow(t, w, h, low, high, i);
      AroundHit(t, x, y, low, high);
    }
    assert f[i] == Value(Code(t, x, y), low, high);
    hide Hit;
    hide Code;
    hide Inflow;
    hide PatternField;
    SpreadIs(p, f[i], Inflow(w, h, f, i));
    hide Diffused64;
    hide Out64;
    hide Share64;
  }

  lemma PatternFieldGains(p: Pheromone, t: Pattern, w: int, h: int, low: nat, high: nat)
    requires PheromoneOk(p) && w >= 15 && h >= 15 && Works(p, t, low, high)
    ensures var f := PatternField(t, w, h, low, high); Held(p, f) && Sum(Spread64(p, w, h, f)) > Sum(f)
  {
    var f, d := PatternField(t, w, h, low, high), Shifts(t, w, h);
    var g := Spread64(p, w, h, f);
    var least := seq(|f|, i requires 0 <= i < |f| => f[i] + d[i]);
    hide Code;
    hide Shift;
    hide Sum;
    forall i | 0 <= i < |f|
      ensures least[i] <= g[i]
    {
      PatternCell(p, t, w, h, low, high, i);
    }
    PatternGains(t, w, h);
    hide Spread64;
    hide Shifts;
    SumOfSums(f, d, least);
    SumBelow(least, g);
  }

  // The condition.

  /** The largest level a grid can hold that gives nothing away. */
  function KeptTop(p: Pheromone): (b: nat)
    requires PheromoneOk(p) && p.diffNum < p.diffDen
    ensures b <= 2 * p.max && b * p.diffNum < p.diffDen
    ensures b < 2 * p.max ==> (b + 1) * p.diffNum >= p.diffDen
  {
    if 2 * p.max * p.diffNum < p.diffDen then 2 * p.max
    else
      LeastFits(2 * p.max, p.diffNum, p.diffDen);
      Least(p.diffNum, p.diffDen) - 1
  }

  /** Partial spreading: three topmost levels and the largest kept one do not make up a unit for each neighbour. */
  predicate RoundsDown(p: Pheromone)
    requires PheromoneOk(p) && p.diffNum < p.diffDen
  {
    (3 * (2 * p.max) + KeptTop(p)) * p.diffNum < 4 * p.diffDen
  }

  /** Total spreading: no level wraps, or the carries of as many levels as can wrap and carry stay below one unit. */
  predicate CarriesLost(p: Pheromone)
    requires PheromoneOk(p) && p.diffNum == p.diffDen
  {
    || 2 * p.max * p.diffNum < TWO_64
    || 4 * Carry(p.diffNum) < p.diffNum
    || (2 * p.max == Turn(p.diffNum) && 3 * Carry(p.diffNum) < p.diffNum)
  }

  // Where no field gains.

  function Outs(p: Pheromone, f: seq<nat>): (g: seq<nat>)
    requires PheromoneOk(p)
    ensures |g| == |f|
  {
    seq(|f|, i requires 0 <= i < |f| => Out64(p, f[i]))
  }

  /** Four neighbours never bring more than a quarter of what they give away. */
  ghost predicate BringsNoMore(p: Pheromone)
    requires PheromoneOk(p)
  {
    forall n: nat, s: nat, w: nat, e: nat :: AllInRange(p, 0, n, s, w, e) ==>
      4 * Share64(p, n + s + w + e) <= Out64(p, n) + Out64(p, s) + Out64(p, w) + Out64(p, e)
  }

  lemma OutsLevel(p: Pheromone, w: int, h: int, f: seq<nat>, x: int, y: int)
    requires PheromoneOk(p) && |f| == w * h && Held(p, f)
    ensures Level(w, h, Outs(p, f), x, y) == Out64(p, Level(w, h, f, x, y)) && InRange(p, Level(w, h, f, x, y))
  {
    NothingIsShared(p);
    hide Out64;
    if Inside(w, h, x, y) {
      IdxRoundTrip(w, h, x, y);
    }
  }

  lemma FourBringNoMore(p: Pheromone, n: nat, s: nat, w: nat, e: nat)
    requires PheromoneOk(p) && BringsNoMore(p) && InRange(p, n) && InRange(p, s) && InRange(p, w) && InRange(p, e)
    ensures 4 * Share64(p, n + s + w + e) <= Out64(p, n) + Out64(p, s) + Out64(p, w) + Out64(p, e)
  {
    hide Out64;
    hide Share64;
    assert AllInRange(p, 0, n, s, w, e);
  }

  lemma ShareOfOuts(p: Pheromone, w: int, h: int, f: seq<nat>, i: nat)
    requires PheromoneOk(p) && w > 0 && |f| == w * h && Held(p, f) && i < |f| && BringsNoMore(p)
    ensures 4 * Share64(p, Inflow(w, h, f, i)) <= Inflow(w, h, Outs(p, f), i)
  {
    hide *;
    var x, y := i % w, i / w;
    InflowParts(w, h, f, i, x, y);
    InflowParts(w, h, Outs(p, f), i, x, y);
    OutsLevel(p, w, h, f, x, y - 1);
    OutsLevel(p, w, h, f, x, y + 1);
    OutsLevel(p, w, h, f, x - 1, y);
    OutsLevel(p, w, h, f, x + 1, y);
    FourBringNoMore(p, Level(w, h, f, x, y - 1), Level(w, h, f, x, y + 1), Level(w, h, f, x - 1, y), Level(w, h, f, x + 1, y));
  }

  lemma {:induction false} BringsNoMoreTo(p: Pheromone, w: int, h: int, f: seq<nat>, n: nat)
    requires PheromoneOk(p) && w > 0 && |f| == w * h && Held(p, f) && n <= |f| && BringsNoMore(p)
    ensures 4 * Sum(Spread64(p, w, h, f)[..n]) + 4 * Sum(Outs(p, f)[..n]) <= 4 * Sum(f[..n]) + InflowTo(w, h, Outs(p, f), n)
    decreases n
  {
    hide Sum;
    if n > 0 {
      var m := n - 1;
      BringsNoMoreTo(p, w, h, f, m);
      SumPrefix(Spread64(p, w, h, f), m);
      SumPrefix(Outs(p, f), m);
      SumPrefix(f, m);
      ShareOfOuts(p, w, h, f, m);
      TopBounds(p, f[m]);
      SpreadIs(p, f[m], Inflow(w, h, f, m));
      hide Inflow;
      hide BringsNoMore;
      hide Diffused64;
      hide Out64;
      hide Share64;
      assert Spread64(p, w, h, f)[m] == Diffused64(p, f[m], Inflow(w, h, f, m)) && Outs(p, f)[m] == Out64(p, f[m]);
      hide Spread64;
      hide Outs;
    } else {
      assert Spread64(p, w, h, f)[..0] == [] && Outs(p, f)[..0] == [] && f[..0] == [];
      SumZero([]);
    }
  }

  lemma FieldNeverGains(p: Pheromone, w: int, h: int, f: seq<nat>)
    requires PheromoneOk(p) && w > 0 && |f| == w * h && Held(p, f) && BringsNoMore(p)
    ensures Sum(Spread64(p, w, h, f)) <= Sum(f)
  {
    hide *;
    BringsNoMoreTo(p, w, h, f, |f|);
    var g, o := Spread64(p, w, h, f), Outs(p, f);
    assert g[..|f|] == g && o[..|f|] == o && f[..|f|] == f;
    TotalInflow(w, h, o);
  }

  /** A product below 2^64 gives its quotient. */
  lemma OutSmall(p: Pheromone, v: nat)
    requires PheromoneOk(p) && v * p.diffNum < TWO_64
    ensures Out64(p, v) == v * p.diffNum / p.diffDen
  {
    Mul64Small(v, p.diffNum);
    hide Mul64;
  }

  lemma OutAtMost(p: Pheromone, v: nat, q: nat)
    requires PheromoneOk(p) && v * p.diffNum < (q + 1) * p.diffDen
    ensures Out64(p, v) <= q
  {
    Mul64AtMost(v, p.diffNum);
    FourTimes(q + 1, p.diffDen);
    QuotientBelow(Mul64(v, p.diffNum), p.diffDen, q + 1);
    hide Mul64;
  }

  lemma OutAtLeast(p: Pheromone, v: nat, q: nat)
    requires PheromoneOk(p) && q * p.diffDen <= v * p.diffNum < TWO_64
    ensures Out64(p, v) >= q
  {
    OutSmall(p, v);
    FourTimes(q, p.diffDen);
    QuotientAtLeast(v * p.diffNum, p.diffDen, q);
    hide Out64;
  }

  /** The products are small where rounding only loses. */
  lemma RoundedProduct(p: Pheromone, v: nat, k: nat)
    requires PheromoneOk(p) && p.diffNum < p.diffDen && RoundsDown(p) && v <= k * (2 * p.max)
    ensures 3 * (v * p.diffNum) < 4 * (k * p.diffDen) || k == 0
  {
    var m: nat, dn: nat, dd: nat := 2 * p.max, p.diffNum, p.diffDen;
    ScaleBoth(dn, 3 * m, 3 * m + KeptTop(p));
    hide KeptTop;
    FourTimes(dn, 3 * m);
    FourTimes(dn, 3 * m + KeptTop(p));
    MulAssociates(3, m, dn);
    assert 3 * (m * dn) < 4 * dd;
    ScaleBoth(dn, v, k * m);
    FourTimes(dn, v);
    FourTimes(dn, k * m);
    MulAssociates(k, m, dn);
    if k > 0 {
      ScaleBoth(k, 3 * (m * dn) + 1, 4 * dd);
      MulDistributes(k, 3 * (m * dn), 1);
      MulAssociates(k, 3, m * dn);
      MulAssociates(3, k, m * dn);
      FourTimes(k, 3);
      MulAssociates(k, 4, dd);
      MulAssociates(4, k, dd);
      FourTimes(k, 4);
    }
  }

  lemma GivesNothing(p: Pheromone, v: nat)
    requires PheromoneOk(p) && p.diffNum < p.diffDen && RoundsDown(p) && InRange(p, v) && Out64(p, v) == 0
    ensures v <= KeptTop(p)
  {
    RoundedProduct(p, v, 1);
    if v > KeptTop(p) {
      ScaleBoth(p.diffNum, KeptTop(p) + 1, v);
      FourTimes(p.diffNum, KeptTop(p) + 1);
      FourTimes(p.diffNum, v);
      OutAtLeast(p, v, 1);
      assert false;
    }
  }

  lemma RoundedShare(p: Pheromone, n: nat, s: nat, w: nat, e: nat)
    requires PheromoneOk(p) && p.diffNum < p.diffDen && RoundsDown(p) && AllInRange(p, 0, n, s, w, e)
    ensures 4 * Share64(p, n + s + w + e) <= Out64(p, n) + Out64(p, s) + Out64(p, w) + Out64(p, e)
  {
    if Out64(p, n) > 0 && Out64(p, s) > 0 && Out64(p, w) > 0 && Out64(p, e) > 0 {
      FourUnits(p, n + s + w + e);
    } else {
      LowFour(p, n, s, w, e);
      OutAtMost(p, n + s + w + e, 3);
    }
    hide Out64;
    hide RoundsDown;
  }

  lemma FourUnits(p: Pheromone, i: nat)
    requires PheromoneOk(p) && p.diffNum < p.diffDen && RoundsDown(p) && i <= 8 * p.max
    ensures Share64(p, i) <= 1
  {
    RoundedProduct(p, i, 4);
    hide RoundsDown;
    OutAtMost(p, i, 7);
    hide Out64;
  }

  lemma LowFour(p: Pheromone, n: nat, s: nat, w: nat, e: nat)
    requires PheromoneOk(p) && p.diffNum < p.diffDen && RoundsDown(p) && AllInRange(p, 0, n, s, w, e)
    requires Out64(p, n) == 0 || Out64(p, s) == 0 || Out64(p, w) == 0 || Out64(p, e) == 0
    ensures (n + s + w + e) * p.diffNum < 4 * p.diffDen
  {
    if Out64(p, n) == 0 {
      GivesNothing(p, n);
    } else if Out64(p, s) == 0 {
      GivesNothing(p, s);
    } else if Out64(p, w) == 0 {
      GivesNothing(p, w);
    } else {
      GivesNothing(p, e);
    }
    hide Out64;
    var i, t := n + s + w + e, 3 * (2 * p.max) + KeptTop(p);
    assert i <= t;
    hide KeptTop;
    ScaleBoth(p.diffNum, i, t);
    FourTimes(p.diffNum, i);
    FourTimes(p.diffNum, t);
  }

  // Total spreading: what is given away is the level without its turn.

  /** The parameters that fade as p spreads. */
  function Fading(p: Pheromone): (q: Pheromone)
    requires PheromoneOk(p)
    ensures PheromoneOk(q) && q.max == p.max
  {
    p.(evapNum := p.diffNum, evapDen := p.diffDen)
  }

  lemma OutIsFaded(p: Pheromone, v: nat)
    requires PheromoneOk(p)
    ensures Out64(p, v) == Faded64(Fading(p), v)
  {
  }

  lemma OutIsRest(p: Pheromone, v: nat)
    requires PheromoneOk(p) && p.diffNum == p.diffDen && InRange(p, v) && TWO_64 <= 2 * p.max * p.diffNum
    ensures Out64(p, v) == if v < Turn(p.diffNum) then v else v - Turn(p.diffNum)
    ensures Turn(p.diffNum) <= 2 * p.max < 2 * Turn(p.diffNum)
  {
    OutIsFaded(p, v);
    FadesToRest(Fading(p), v);
    TurnFacts(Fading(p));
    hide Out64;
    hide Faded64;
  }

  /** Every level that wraps carries over. */
  function Wrapped(p: Pheromone, v: nat): nat
    requires PheromoneOk(p) && p.diffNum == p.diffDen && p.diffNum > 0
  {
    if v < Turn(p.diffNum) then 0 else 1
  }

  /** A sum of rests and turns, as a product modulo 2^64. */
  lemma CarriedMod(i: nat, d: nat, t: nat, y: nat)
    requires 0 < d < TWO_32 && i == Turn(d) * t + y
    ensures Mul64(i, d) <= y * d + t * Carry(d)
  {
    var k, r := Turn(d), Carry(d);
    assert k * d == TWO_64 + r;
    hide Turn;
    hide Carry;
    CarriedProduct(i, d, k, t, y, r);
    ModAddMultiple(y * d + t * r, TWO_64, t);
    ScaleBoth(y, 0, d);
    ScaleBoth(t, 0, r);
    Remainder(y * d + t * r, TWO_64);
    DivBelow(y * d + t * r, TWO_64);
  }

  lemma CarriedOut(p: Pheromone, i: nat, t: nat, y: nat)
    requires PheromoneOk(p) && p.diffNum == p.diffDen && i == Turn(p.diffNum) * t + y
    requires t * Carry(p.diffNum) < p.diffNum
    ensures Out64(p, i) <= y
  {
    var d: nat := p.diffNum;
    CarriedMod(i, d, t, y);
    MulDistributes(d, y, 1);
    FourTimes(d, y);
    FourTimes(d, y + 1);
    QuotientBelow(Mul64(i, d), d, y + 1);
    hide Mul64;
  }

  lemma TurnsOfFour(k: nat, a: nat, b: nat, c: nat, d: nat)
    ensures k * a + k * b + k * c + k * d == k * (a + b + c + d)
  {
  }

  lemma OutAndTurn(p: Pheromone, v: nat)
    requires PheromoneOk(p) && p.diffNum == p.diffDen && InRange(p, v) && TWO_64 <= 2 * p.max * p.diffNum
    ensures v == Turn(p.diffNum) * Wrapped(p, v) + Out64(p, v)
    ensures 2 * p.max == Turn(p.diffNum) && Wrapped(p, v) == 1 ==> Out64(p, v) == 0
  {
    OutIsRest(p, v);
    hide Out64;
    hide Turn;
  }

  lemma CarriedShare(p: Pheromone, n: nat, s: nat, w: nat, e: nat)
    requires PheromoneOk(p) && p.diffNum == p.diffDen && CarriesLost(p) && AllInRange(p, 0, n, s, w, e)
    requires TWO_64 <= 2 * p.max * p.diffNum
    ensures 4 * Share64(p, n + s + w + e) <= Out64(p, n) + Out64(p, s) + Out64(p, w) + Out64(p, e)
  {
    var d: nat, k, r := p.diffNum, Turn(p.diffNum), Carry(p.diffNum);
    OutAndTurn(p, n);
    OutAndTurn(p, s);
    OutAndTurn(p, w);
    OutAndTurn(p, e);
    var y := Out64(p, n) + Out64(p, s) + Out64(p, w) + Out64(p, e);
    var t := Wrapped(p, n) + Wrapped(p, s) + Wrapped(p, w) + Wrapped(p, e);
    TurnsOfFour(k, Wrapped(p, n), Wrapped(p, s), Wrapped(p, w), Wrapped(p, e));
    assert t <= 4 && (t == 4 ==> Wrapped(p, n) == Wrapped(p, s) == Wrapped(p, w) == Wrapped(p, e) == 1);
    hide Wrapped;
    hide Carry;
    hide Turn;
    hide Out64;
    CarriesOfFour(p, n + s + w + e, t, y);
  }

  lemma CarriesOfFour(p: Pheromone, i: nat, t: nat, y: nat)
    requires PheromoneOk(p) && p.diffNum == p.diffDen && CarriesLost(p) && TWO_64 <= 2 * p.max * p.diffNum
    requires i == Turn(p.diffNum) * t + y && t <= 4 && (2 * p.max == Turn(p.diffNum) && t == 4 ==> y == 0)
    ensures 4 * Share64(p, i) <= y
  {
    var d: nat, r := p.diffNum, Carry(p.diffNum);
    if 4 * r < d {
      ScaleBoth(r, t, 4);
      FourTimes(r, t);
      FourTimes(r, 4);
      CarriedOut(p, i, t, y);
    } else if t <= 3 {
      ScaleBoth(r, t, 3);
      FourTimes(r, t);
      FourTimes(r, 3);
      CarriedOut(p, i, t, y);
    } else {
      hide Turn;
      hide Carry;
      CarriedMod(i, d, 4, 0);
      QuotientBelow(Mul64(i, d), d, 4);
      FourTimes(d, 4);
      hide Mul64;
    }
  }

  lemma UnwrappedShare(p: Pheromone, n: nat, s: nat, w: nat, e: nat)
    requires PheromoneOk(p) && p.diffNum == p.diffDen && AllInRange(p, 0, n, s, w, e)
    requires 2 * p.max * p.diffNum < TWO_64
    ensures 4 * Share64(p, n + s + w + e) <= Out64(p, n) + Out64(p, s) + Out64(p, w) + Out64(p, e)
  {
    OutOfLevel(p, n);
    OutOfLevel(p, s);
    OutOfLevel(p, w);
    OutOfLevel(p, e);
    var i := n + s + w + e;
    MulDistributes(p.diffDen, i, 1);
    FourTimes(p.diffDen, i);
    FourTimes(p.diffDen, i + 1);
    OutAtMost(p, i, i);
    hide Out64;
  }

  lemma OutOfLevel(p: Pheromone, v: nat)
    requires PheromoneOk(p) && p.diffNum == p.diffDen && InRange(p, v) && 2 * p.max * p.diffNum < TWO_64
    ensures Out64(p, v) == v
  {
    BoundedProduct(v, 2 * p.max, p.diffNum);
    OutSmall(p, v);
    PortionWhole(v, p.diffDen);
  }

  /** Parameters under which no field gains, on unbounded integers. */
  predicate GainFree(p: Pheromone)
    requires PheromoneOk(p)
  {
    p.diffNum == p.diffDen || RoundsDown(p)
  }

  /** Parameters under which no field gains, on uint64. */
  predicate GainFree64(p: Pheromone)
    requires PheromoneOk(p)
  {
    if p.diffNum == p.diffDen then CarriesLost(p) else RoundsDown(p)
  }

  lemma GainFreeBrings(p: Pheromone)
    requires PheromoneOk(p) && GainFree64(p)
    ensures BringsNoMore(p)
  {
    hide Out64;
    hide Share64;
    hide RoundsDown;
    forall n: nat, s: nat, w: nat, e: nat | AllInRange(p, 0, n, s, w, e)
      ensures 4 * Share64(p, n + s + w + e) <= Out64(p, n) + Out64(p, s) + Out64(p, w) + Out64(p, e)
    {
      if p.diffNum < p.diffDen {
        RoundedShare(p, n, s, w, e);
      } else if 2 * p.max * p.diffNum < TWO_64 {
        UnwrappedShare(p, n, s, w, e);
      } else {
        CarriedShare(p, n, s, w, e);
      }
    }
  }

  lemma RoundsDownIsExact(p: Pheromone, w: int, h: int, f: seq<nat>)
    requires PheromoneOk(p) && p.diffNum < p.diffDen && RoundsDown(p) && w > 0 && |f| == w * h && Held(p, f)
    ensures Spread64(p, w, h, f) == Spread(p, w, h, f)
  {
    RoundedProduct(p, 4 * (2 * p.max), 4);
    hide RoundsDown;
    hide Spread;
    hide Spread64;
    SmallFieldIsExact(p, w, h, f, 2 * p.max);
  }

  /** On every grid no field gains if the condition holds. */
  lemma GainFreeNeverGains(p: Pheromone, w: int, h: int)
    requires PheromoneOk(p) && w > 0 && h > 0
    ensures GainFree(p) ==> NeverGains(p, w, h)
    ensures GainFree64(p) ==> NeverGains64(p, w, h)
  {
    hide Spread;
    hide Spread64;
    hide RoundsDown;
    hide CarriesLost;
    hide Held;
    if GainFree64(p) {
      GainFreeBrings(p);
      hide BringsNoMore;
      forall f: seq<nat> | |f| == w * h && Held(p, f)
        ensures Sum(Spread64(p, w, h, f)) <= Sum(f)
      {
        FieldNeverGains(p, w, h, f);
      }
    }
    if GainFree(p) {
      forall f: seq<nat> | |f| == w * h && Held(p, f)
        ensures Sum(Spread(p, w, h, f)) <= Sum(f)
      {
        if p.diffNum == p.diffDen {
          TotalSpreadNeverGains(p, w, h, f);
        } else {
          RoundsDownIsExact(p, w, h, f);
        }
      }
    }
  }

  // Where some field gains.

  /** The largest level a grid can hold that gives away less than two units. */
  function OneTop(p: Pheromone): (a: nat)
    requires PheromoneOk(p) && 0 < p.diffNum < p.diffDen
    ensures a <= 2 * p.max && a * p.diffNum < 2 * p.diffDen
    ensures a < 2 * p.max ==> (a + 1) * p.diffNum >= 2 * p.diffDen
  {
    var t: nat, dn: nat := 2 * p.diffDen - 1, p.diffNum;
    Remainder(t, dn);
    DivBelow(t, dn);
    FourTimes(dn, t / dn);
    FourTimes(dn, t / dn + 1);
    MulDistributes(dn, t / dn, 1);
    if 2 * p.max < t / dn then
      ScaleBoth(dn, 2 * p.max, t / dn);
      FourTimes(dn, 2 * p.max);
      2 * p.max
    else t / dn
  }

  lemma RateIsPositive(p: Pheromone)
    requires PheromoneOk(p) && p.diffNum < p.diffDen && !RoundsDown(p)
    ensures p.diffNum > 0 && 2 * p.max * p.diffNum >= p.diffDen && KeptTop(p) < 2 * p.max
  {
    var dn: nat, m: nat, b := p.diffNum, 2 * p.max, KeptTop(p);
    hide KeptTop;
    FourTimes(3 * m + b, dn);
    if dn == 0 {
      assert false;
    }
    if m * dn < p.diffDen {
      ScaleBoth(dn, 3 * m + b, 4 * m);
      FourTimes(dn, 4 * m);
      MulAssociates(4, m, dn);
      assert false;
    }
  }

  /** Three of the topmost levels that give one unit away and one that gives none make up four units. */
  lemma TopsMakeFour(p: Pheromone)
    requires PheromoneOk(p) && p.diffNum < p.diffDen && !RoundsDown(p)
    ensures p.diffNum > 0 && p.diffDen <= OneTop(p) * p.diffNum
    ensures 4 * p.diffDen <= (3 * OneTop(p) + KeptTop(p)) * p.diffNum < 8 * p.diffDen
  {
    RateIsPositive(p);
    var dn: nat, dd: nat, m: nat, a, b := p.diffNum, p.diffDen, 2 * p.max, OneTop(p), KeptTop(p);
    assert a < m ==> (a + 1) * dn >= 2 * dd;
    assert (b + 1) * dn >= dd;
    hide OneTop;
    hide KeptTop;
    MulDistributes(dn, a, 1);
    MulDistributes(dn, b, 1);
    MulDistributes(dn, 3 * a, b);
    FourTimes(dn, a);
    FourTimes(dn, b);
    FourTimes(dn, a + 1);
    FourTimes(dn, b + 1);
    FourTimes(dn, 3 * a + b);
    MulAssociates(3, a, dn);
    FourTimes(dn, 3 * a);
    if a < m && 4 * dn > 3 * dd {
      SteepRate(dn, dd, a, b);
    }
  }

  lemma SteepRate(dn: nat, dd: nat, a: nat, b: nat)
    requires dn < dd && 4 * dn > 3 * dd && (a + 1) * dn >= 2 * dd && (b + 1) * dn >= dd
    ensures 3 * (a * dn) + b * dn >= 4 * dd
  {
    if a <= 1 {
      ScaleBoth(dn, a + 1, 2);
      FourTimes(dn, a + 1);
      assert false;
    }
    if b == 0 {
      assert false;
    }
    ScaleBoth(dn, 2, a);
    ScaleBoth(dn, 1, b);
    FourTimes(dn, a);
    FourTimes(dn, b);
  }

  /** Partial spreading: the weave of those two levels works, and its products are small. */
  lemma WeaveWorks(p: Pheromone)
    requires PheromoneOk(p) && p.diffNum < p.diffDen && !RoundsDown(p)
    ensures p.diffNum > 0 && Works(p, Weave, KeptTop(p), OneTop(p))
  {
    TopsMakeFour(p);
    var a, b := OneTop(p), KeptTop(p);
    hide OneTop;
    hide KeptTop;
    OutAtMost(p, b, 0);
    OutAtMost(p, a, 1);
    OutAtLeast(p, a, 1);
    OutAtLeast(p, 3 * a + b, 4);
    hide Out64;
    hide RoundsDown;
  }

  /** On the levels of a weave no product wraps. */
  lemma WeaveIsSmall(p: Pheromone, w: int, h: int)
    requires PheromoneOk(p) && 0 < p.diffNum < p.diffDen && w > 0 && h > 0
    ensures var f := PatternField(Weave, w, h, KeptTop(p), OneTop(p)); Spread64(p, w, h, f) == Spread(p, w, h, f)
  {
    var a, b := OneTop(p), KeptTop(p);
    var m := if a < b then b else a;
    hide OneTop;
    hide KeptTop;
    var f := PatternField(Weave, w, h, b, a);
    hide PatternField;
    hide Code;
    hide Spread;
    hide Spread64;
    MulAssociates(4, m, p.diffNum);
    SmallFieldIsExact(p, w, h, f, m);
  }

  lemma RoundingGains(p: Pheromone, w: int, h: int)
    requires PheromoneOk(p) && w >= 15 && h >= 15 && p.diffNum < p.diffDen && !RoundsDown(p)
    ensures !NeverGains(p, w, h) && !NeverGains64(p, w, h)
  {
    WeaveWorks(p);
    PatternFieldGains(p, Weave, w, h, KeptTop(p), OneTop(p));
    WeaveIsSmall(p, w, h);
    hide PatternField;
    hide Works;
    hide Spread;
    hide Spread64;
    hide RoundsDown;
    hide KeptTop;
    hide OneTop;
    hide Held;
  }

  /** The product of c turns and y more with DiffNum, when the carries are known to fit. */
  lemma TurnsAndRest(p: Pheromone, c: nat, y: nat)
    requires PheromoneOk(p) && p.diffNum == p.diffDen && c <= 4 && y <= 3
    requires 4 * p.diffNum <= y * p.diffNum + c * Carry(p.diffNum)
    ensures Share64(p, Turn(p.diffNum) * c + y) >= 1
  {
    var d: nat, k, r := p.diffNum, Turn(p.diffNum), Carry(p.diffNum);
    assert k * d == TWO_64 + r;
    hide Turn;
    hide Carry;
    var i := k * c + y;
    CarriedProduct(i, d, k, c, y, r);
    ScaleBoth(r, c, 4);
    FourTimes(r, c);
    ScaleBoth(d, y, 3);
    FourTimes(d, y);
    ModUnique(i * d, TWO_64, c, y * d + c * r);
    QuotientAtLeast(Mul64(i, d), d, 4);
    hide Mul64;
  }

  lemma ThreeTurns(p: Pheromone)
    requires PheromoneOk(p) && p.diffNum == p.diffDen && 3 * Carry(p.diffNum) >= p.diffNum
    ensures Share64(p, 3 + 3 * Turn(p.diffNum)) >= 1
  {
    TurnsAndRest(p, 3, 3);
    hide Share64;
    hide Turn;
    hide Carry;
    assert Turn(p.diffNum) * 3 + 3 == 3 + 3 * Turn(p.diffNum);
  }

  /** One level of three units among turns. */
  lemma StarWorks(p: Pheromone)
    requires PheromoneOk(p) && p.diffNum == p.diffDen && TWO_64 <= 2 * p.max * p.diffNum
    requires 3 * Carry(p.diffNum) >= p.diffNum
    ensures Works(p, Star, Turn(p.diffNum), 3)
  {
    var k := Turn(p.diffNum);
    OutIsRest(p, 0);
    OutIsRest(p, k);
    OutIsRest(p, 3);
    ThreeTurns(p);
    hide Out64;
    hide Share64;
    hide Carry;
    hide Turn;
  }

  /** Turns, and turns with one unit more. */
  lemma TurnedWeaveWorks(p: Pheromone)
    requires PheromoneOk(p) && p.diffNum == p.diffDen && TWO_64 <= 2 * p.max * p.diffNum
    requires 4 * Carry(p.diffNum) >= p.diffNum && Turn(p.diffNum) < 2 * p.max
    ensures Works(p, Weave, Turn(p.diffNum), Turn(p.diffNum) + 1)
  {
    var k := Turn(p.diffNum);
    OutIsRest(p, k);
    OutIsRest(p, k + 1);
    TurnsAndRest(p, 4, 3);
    hide Out64;
    hide Share64;
    hide Carry;
    assert k * 4 + 3 == 3 * (k + 1) + k;
  }

  lemma CarryGains(p: Pheromone, w: int, h: int)
    requires PheromoneOk(p) && w >= 15 && h >= 15 && p.diffNum == p.diffDen && !CarriesLost(p)
    ensures !NeverGains64(p, w, h)
  {
    var k := Turn(p.diffNum);
    if 3 * Carry(p.diffNum) >= p.diffNum {
      StarWorks(p);
      PatternFieldGains(p, Star, w, h, k, 3);
    } else {
      OutIsRest(p, 0);
      TurnedWeaveWorks(p);
      PatternFieldGains(p, Weave, w, h, k, k + 1);
    }
    hide PatternField;
    hide Spread64;
    hide Held;
  }

  /**
   On every grid of at least 15 by 15, some field the grid can hold gains exactly if
   the condition fails: on unbounded integers as on uint64.
   */
  lemma GainsExactly(p: Pheromone, w: int, h: int)
    requires PheromoneOk(p) && w >= 15 && h >= 15
    ensures NeverGains(p, w, h) <==> GainFree(p)
    ensures NeverGains64(p, w, h) <==> GainFree64(p)
  {
    hide NeverGains;
    hide NeverGains64;
    hide RoundsDown;
    hide CarriesLost;
    GainFreeNeverGains(p, w, h);
    if p.diffNum < p.diffDen {
      if !RoundsDown(p) {
        RoundingGains(p, w, h);
      }
    } else if !CarriesLost(p) {
      CarryGains(p, w, h);
    }
  }

  /** With the highest rate and ceiling, wrapping creates mass that unbounded integers never would. */
  lemma WrappingCreatesMass(w: int, h: int)
    requires w >= 15 && h >= 15
    ensures PheromoneOk(WRAPPING) && NeverGains(WRAPPING, w, h) && !NeverGains64(WRAPPING, w, h)
  {
    hide NeverGains;
    hide NeverGains64;
    assert 0x1_0000_0002 * 0xFFFF_FFFF == 0x1_0000_0000_FFFF_FFFE;
    TurnUnique(0xFFFF_FFFF, 0x1_0000_0002);
    assert Carry(0xFFFF_FFFF) == 0xFFFF_FFFE;
    hide Turn;
    hide Carry;
    GainsExactly(WRAPPING, w, h);
  }

  lemma Corner64Cell(p: Pheromone, w: int, h: int, v: nat, i: nat)
    requires PheromoneOk(p) && w > 0 && h > 0 && i < w * h && v < TWO_63
    ensures var k := Out64(p, v);
      k <= v && Spread64(p, w, h, CornerField(w, h, v))[i] <= CornerAfter(w * h, w, v - k, k / 4)[i]
  {
    CornerInflow(w, h, v, i);
    NothingIsShared(p);
    SpreadIs(p, v, 0);
    SpreadIs(p, 0, v);
    SpreadIs(p, 0, 0);
    hide Inflow;
    hide Diffused64;
    hide Out64;
    IdxCovers(w, h, i);
    if BesideCorner(i % w, i / w) {
      BesideAddress(w, i);
    }
  }

  /** A corner level that moves at all loses mass on uint64 too, whether its product wraps or not. */
  lemma CornerLoses64(p: Pheromone, w: int, h: int, v: nat)
    requires PheromoneOk(p) && w > 0 && h > 0 && v < TWO_63 && Out64(p, v) > 0
    ensures Sum(Spread64(p, w, h, CornerField(w, h, v))) < Sum(CornerField(w, h, v))
  {
    var f, k := CornerField(w, h, v), Out64(p, v);
    SpreadIs(p, v, 0);
    hide Out64;
    hide CornerAfter;
    forall i | 0 <= i < |f|
      ensures Spread64(p, w, h, f)[i] <= CornerAfter(w * h, w, v - k, k / 4)[i]
    {
      Corner64Cell(p, w, h, v, i);
    }
    hide Spread64;
    CornerShrinks(w, h, v, k, Spread64(p, w, h, f));
  }
}
