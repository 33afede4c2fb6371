/**
 One cell of the evaporation and diffusion step, in fixed point: the rule on
 unbounded integers, the same rule on uint64, and when the two agree.
 */
module Stencil {
  import opened Words
  import opened Config

  /** floor(v * num / den). */
  function Portion(v: nat, num: nat, den: nat): (r: nat)
    requires den > 0
  {
    DivBelow(v * num, den);
    v * num / den
  }

  /** What a cell holds after spreading, before evaporation, on unbounded integers. */
  function Diffused(p: Pheromone, v: nat, inflow: nat): (r: nat)
    requires PheromoneOk(p)
  {
    PortionAtMost(v, p.diffNum, p.diffDen);
    v - Portion(v, p.diffNum, p.diffDen) + Portion(inflow, p.diffNum, p.diffDen) / 4
  }

  /** The whole cell rule on unbounded integers: spread, evaporate, saturate. */
  function Exact(p: Pheromone, v: nat, inflow: nat): (r: U32)
    requires PheromoneOk(p)
  {
    var e := Portion(Diffused(p, v, inflow), p.evapNum, p.evapDen);
    if e > p.max then p.max else e
  }

  /** What a cell holds after spreading as decayGrid computes it, every operation modulo 2^64. */
  function Diffused64(p: Pheromone, v: nat, inflow: nat): Word
    requires PheromoneOk(p)
  {
    (v - Mul64(v, p.diffNum) / p.diffDen + (Mul64(inflow, p.diffNum) / p.diffDen) / 4) % TWO_64
  }

  /** The cell rule as decayGrid computes it. */
  function Cell(p: Pheromone, v: nat, inflow: nat): (r: U32)
    requires PheromoneOk(p)
    ensures r <= p.max
  {
    var spread := Diffused64(p, v, inflow);
    DivBelow(Mul64(spread, p.evapNum), p.evapDen);
    var e := Mul64(spread, p.evapNum) / p.evapDen;
    if e > p.max then p.max else e
  }

  lemma PortionAtMost(v: nat, num: nat, den: nat)
    requires den > 0 && num <= den
    ensures Portion(v, num, den) <= v
  {
    ScaleBoth(v, num, den);
    assert den * (v + 1) == v * den + den;
    QuotientBelow(v * num, den, v + 1);
  }

  lemma ScaleBoth(a: nat, b: nat, c: nat)
    requires b <= c
    ensures a * b <= a * c
  {
    assert a * (c - b) >= 0;
    assert a * c == a * b + a * (c - b);
  }

  /** No product of the rule exceeds 64 bits for these operands. */
  predicate NoWrap(p: Pheromone, v: nat, inflow: nat)
    requires PheromoneOk(p)
  {
    v * p.diffNum < TWO_64 && inflow * p.diffNum < TWO_64 && Diffused(p, v, inflow) * p.evapNum < TWO_64
  }

  /** Without a wrapping product, uint64 arithmetic computes the exact rule. */
  lemma NoWrapIsExact(p: Pheromone, v: nat, inflow: nat)
    requires PheromoneOk(p) && NoWrap(p, v, inflow)
    requires Diffused(p, v, inflow) < TWO_64
    ensures Cell(p, v, inflow) == Exact(p, v, inflow)
  {
    Mul64Small(v, p.diffNum);
    Mul64Small(inflow, p.diffNum);
    var d := Diffused(p, v, inflow);
    ModUnique(d, TWO_64, 0, d);
    Mul64Small(d, p.evapNum);
  }

  lemma Mul64Small(a: nat, b: nat)
    requires a * b < TWO_64
    ensures Mul64(a, b) == a * b
  {
    ModUnique(a * b, TWO_64, 0, a * b);
  }

  lemma PortionMonotone(v: nat, w: nat, num: nat, den: nat)
    requires den > 0 && v <= w
    ensures Portion(v, num, den) <= Portion(w, num, den)
  {
    ScaleBoth(num, v, w);
    DivMonotone(v * num, w * num, den);
  }

  lemma DivMonotone(a: nat, b: nat, m: int)
    requires m > 0 && a <= b
    ensures a / m <= b / m
  {
    DivBelow(b, m);
    assert m * (b / m + 1) == m * (b / m) + m;
    assert b == m * (b / m) + b % m;
    QuotientBelow(a, m, b / m + 1);
  }

  /** What a cell keeps grows with what it held. */
  lemma KeptMonotone(v: nat, w: nat, num: nat, den: nat)
    requires den > 0 && num <= den && v <= w
    ensures v - Portion(v, num, den) <= w - Portion(w, num, den)
    decreases w - v
  {
    if v < w {
      KeptMonotone(v, w - 1, num, den);
      KeptStep(w - 1, num, den);
    }
  }

  lemma KeptStep(v: nat, num: nat, den: nat)
    requires den > 0 && num <= den
    ensures Portion(v + 1, num, den) <= Portion(v, num, den) + 1
  {
    assert (v + 1) * num == v * num + num;
    DivMonotone((v + 1) * num, v * num + den, den);
    ModUnique(v * num + den, den, v * num / den + 1, (v * num) % den);
  }

  /** Four neighbours at level m return exactly what a cell at level m gives away. */
  lemma QuarterOfFour(m: nat, num: nat, den: nat)
    requires den > 0
    ensures Portion(4 * m, num, den) / 4 == Portion(m, num, den)
  {
    assert (4 * m) * num == 4 * (m * num);
    DivDiv(4 * (m * num), 4, den);
    DivDiv(4 * (m * num), den, 4);
    assert (4 * (m * num)) / 4 == m * num;
    assert 4 * den == den * 4;
  }

  /** Truncating a product to 64 bits never raises it. */
  lemma Mul64AtMost(a: nat, b: nat)
    ensures Mul64(a, b) <= a * b
  {
    ScaleBoth(a, 0, b);
    Remainder(a * b, TWO_64);
    DivBelow(a * b, TWO_64);
  }

  /** For any level below 2^63 spreading does not wrap around, although its products may. */
  lemma Diffused64Is(p: Pheromone, v: nat, inflow: nat)
    requires PheromoneOk(p) && v < TWO_63
    ensures var out, share := Mul64(v, p.diffNum) / p.diffDen, (Mul64(inflow, p.diffNum) / p.diffDen) / 4;
      0 <= out <= v && 0 <= share && Diffused64(p, v, inflow) == v - out + share
  {
    var g, h, dd: nat := Mul64(v, p.diffNum), Mul64(inflow, p.diffNum), p.diffDen;
    Mul64AtMost(v, p.diffNum);
    DivMonotone(g, v * p.diffNum, dd);
    PortionAtMost(v, p.diffNum, dd);
    DivBelow(g, dd);
    DivBelow(h, dd);
    hide Mul64;
    SmallMod(v - g / dd + (h / dd) / 4, TWO_64);
  }

  lemma Mul64Splits(a: nat, b: nat, k: nat)
    ensures Mul64(a + b, k) <= Mul64(a, k) + Mul64(b, k)
  {
    MulDistributes(k, a, b);
    FourTimes(k, a);
    FourTimes(k, b);
    FourTimes(k, a + b);
    ModSplits(a * k, b * k, TWO_64);
  }

  lemma ModSplits(x: int, y: int, m: int)
    requires m > 0
    ensures (x + y) % m <= x % m + y % m
  {
    var r := x % m + y % m;
    Remainder(x, m);
    Remainder(y, m);
    if r < m {
      ModUnique(x + y, m, x / m + y / m, r);
    } else {
      ModUnique(x + y, m, x / m + y / m + 1, r - m);
    }
  }

  /** The floors of a cell, with every product named. */
  lemma FloorBounds(v: int, u: int, out: int, share: int, g: int, h: int, q: int, ra: int, rb: int, dd: int)
    requires g == out + ra && ra <= dd - 1 && h == q + rb && rb >= 0 && 4 * share <= q && u == v - out + share
    ensures 4 * u <= 4 * v - 4 * g + 4 * (dd - 1) + h
  {
  }

  /** What a cell holds after spreading, multiplied out, in terms of the truncated products. */
  lemma Cell64Mass(p: Pheromone, v: nat, inflow: nat)
    requires PheromoneOk(p) && v < TWO_63
    ensures 4 * (p.diffDen * Diffused64(p, v, inflow)) <=
      4 * (p.diffDen * v) - 4 * Mul64(v, p.diffNum) + 4 * (p.diffDen - 1) + Mul64(inflow, p.diffNum)
  {
    var g, h, dd: nat := Mul64(v, p.diffNum), Mul64(inflow, p.diffNum), p.diffDen;
    Diffused64Is(p, v, inflow);
    var u := Diffused64(p, v, inflow);
    hide Diffused64;
    hide Mul64;
    Remainder(g, dd);
    Remainder(h, dd);
    var out, q := g / dd, h / dd;
    DivBelow(h, dd);
    QuarterProduct(dd, q);
    DistributeOver(dd, v, out, q / 4);
    FloorBounds(dd * v, dd * u, dd * out, dd * (q / 4), g, h, dd * q, g % dd, h % dd, dd);
  }

  /** Evaporation and the ceiling only lower what spreading left. */
  lemma CellAtMost(p: Pheromone, v: nat, inflow: nat)
    requires PheromoneOk(p)
    ensures Cell(p, v, inflow) <= Diffused64(p, v, inflow)
  {
    var u := Diffused64(p, v, inflow);
    hide Diffused64;
    Mul64AtMost(u, p.evapNum);
    DivMonotone(Mul64(u, p.evapNum), u * p.evapNum, p.evapDen);
    PortionAtMost(u, p.evapNum, p.evapDen);
    hide Mul64;
  }

  /** Small products do not wrap. */
  lemma SmallCellIsExact(p: Pheromone, v: nat, inflow: nat, m: nat)
    requires PheromoneOk(p) && v <= m && inflow <= 4 * m && m < TWO_63 && 4 * m * p.diffNum < TWO_64
    ensures Diffused64(p, v, inflow) == Diffused(p, v, inflow)
  {
    Diffused64Is(p, v, inflow);
    hide Diffused64;
    BoundedProduct(v, 4 * m, p.diffNum);
    BoundedProduct(inflow, 4 * m, p.diffNum);
    Mul64Small(v, p.diffNum);
    Mul64Small(inflow, p.diffNum);
    hide Mul64;
  }

  /** A level whose product does not wrap loses exactly its portion, and a wrapping inflow only brings less. */
  lemma Diffused64AtMost(p: Pheromone, v: nat, inflow: nat)
    requires PheromoneOk(p) && v < TWO_63 && v * p.diffNum < TWO_64
    ensures Diffused64(p, v, inflow) <= Diffused(p, v, inflow)
  {
    var dn: nat, dd: nat := p.diffNum, p.diffDen;
    Diffused64Is(p, v, inflow);
    hide Diffused64;
    Mul64Small(v, dn);
    Mul64AtMost(inflow, dn);
    DivMonotone(Mul64(inflow, dn), inflow * dn, dd);
    DivBelow(Mul64(inflow, dn), dd);
    hide Mul64;
    DivMonotone(Mul64(inflow, dn) / dd, inflow * dn / dd, 4);
  }

  lemma ExactPrinciple(p: Pheromone, v: nat, n: nat, s: nat, w: nat, e: nat, m: nat)
    requires PheromoneOk(p)
    requires v <= m && n <= m && s <= m && w <= m && e <= m
    ensures Diffused(p, v, n + s + w + e) <= m
    ensures Exact(p, v, n + s + w + e) <= m
  {
    KeptMonotone(v, m, p.diffNum, p.diffDen);
    PortionMonotone(n + s + w + e, 4 * m, p.diffNum, p.diffDen);
    DivMonotone(Portion(n + s + w + e, p.diffNum, p.diffDen), Portion(4 * m, p.diffNum, p.diffDen), 4);
    QuarterOfFour(m, p.diffNum, p.diffDen);
    PortionAtMost(Diffused(p, v, n + s + w + e), p.evapNum, p.evapDen);
  }

  /**
   Discrete maximum principle, for the uint64 rule and every valid parameter set: a
   new level never exceeds the largest of the five levels it is computed from,
   although products may wrap. The same holds for the rule on unbounded integers.
   */
  lemma MaximumPrinciple(p: Pheromone, v: nat, n: nat, s: nat, w: nat, e: nat, m: nat)
    requires PheromoneOk(p)
    requires v <= m && n <= m && s <= m && w <= m && e <= m
    ensures Cell(p, v, n + s + w + e) <= m
    ensures Exact(p, v, n + s + w + e) <= m
  {
    ExactPrinciple(p, v, n, s, w, e, m);
    if m < p.max {
      BoundedProduct(v, TWO_32, p.diffNum);
      Diffused64AtMost(p, v, n + s + w + e);
      CellAtMost(p, v, n + s + w + e);
    }
    hide Diffused64;
    hide Diffused;
    hide Exact;
  }

  /** The bound is attained: a uniform field is a fixed point of spreading. */
  lemma UniformFieldIsStable(p: Pheromone, m: nat)
    requires PheromoneOk(p)
    ensures Diffused(p, m, 4 * m) == m
  {
    QuarterOfFour(m, p.diffNum, p.diffDen);
    PortionAtMost(m, p.diffNum, p.diffDen);
  }

  /** Levels decayGrid can read: a saturated grid cell plus a saturated deposit. */
  predicate InRange(p: Pheromone, v: int) {
    0 <= v <= 2 * p.max
  }

  /** The bounds on the parameters under which decayGrid never wraps. */
  predicate FitsWord(p: Pheromone) {
    8 * p.max * p.diffNum < TWO_64 && 2 * p.max * p.evapNum < TWO_64
  }

  lemma BoundedProduct(v: nat, m: nat, k: nat)
    requires v <= m && m * k < TWO_64
    ensures v * k < TWO_64
  {
    ScaleBoth(k, v, m);
    assert k * v == v * k && k * m == m * k;
  }

  lemma FitsWordMeansNoWrap(p: Pheromone, v: nat, n: nat, s: nat, w: nat, e: nat)
    requires PheromoneOk(p) && FitsWord(p)
    requires InRange(p, v) && InRange(p, n) && InRange(p, s) && InRange(p, w) && InRange(p, e)
    ensures NoWrap(p, v, n + s + w + e)
    ensures Cell(p, v, n + s + w + e) == Exact(p, v, n + s + w + e)
  {
    var m: nat := 2 * p.max;
    ExactPrinciple(p, v, n, s, w, e, m);
    hide Diffused;
    hide Portion;
    BoundedProduct(v, 8 * p.max, p.diffNum);
    BoundedProduct(n + s + w + e, 8 * p.max, p.diffNum);
    BoundedProduct(Diffused(p, v, n + s + w + e), m, p.evapNum);
    hide Cell;
    hide Exact;
    NoWrapIsExact(p, v, n + s + w + e);
  }

  /** Parameters that pass Validate and wrap: spreading everything at the highest rate and ceiling. */
  const WRAPPING := Pheromone(1, 1, 1, 1, 0xFFFF_FFFF, 0xFFFF_FFFF, 0xFFFF_FFFF)

  /** Wrapping changes levels: a lone cell at 2 * Max should give everything away and keeps Max. */
  lemma WrappingChangesLevels()
    ensures PheromoneOk(WRAPPING) && InRange(WRAPPING, 2 * WRAPPING.max)
    ensures Exact(WRAPPING, 2 * WRAPPING.max, 0) == 0 && Cell(WRAPPING, 2 * WRAPPING.max, 0) == WRAPPING.max
    ensures IdealNum(WRAPPING, 2 * WRAPPING.max, 0) == 0
  {
    var m := 0x1_FFFF_FFFE;
    assert m * 0xFFFF_FFFF == 0xFFFF_FFFF * m == 0x1_FFFF_FFFC_0000_0002;
    PortionWhole(m, 0xFFFF_FFFF);
    PortionZero(0xFFFF_FFFF, 0xFFFF_FFFF);
    PortionZero(1, 1);
  }

  /**
   The parameter bounds are exact: no product wraps, for any levels the grid
   can hold, if and only if 8*Max*DiffNum and 2*Max*EvapNum fit 64 bits.
   */
  lemma NoWrapExactlyWhenFits(p: Pheromone)
    requires PheromoneOk(p)
    ensures FitsWord(p) <==>
      forall v, n, s, w, e ::
        InRange(p, v) && InRange(p, n) && InRange(p, s) && InRange(p, w) && InRange(p, e) ==>
        NoWrap(p, v, n + s + w + e)
  {
    hide NoWrap;
    hide FitsWord;
    if FitsWord(p) {
      forall v, n, s, w, e |
        InRange(p, v) && InRange(p, n) && InRange(p, s) && InRange(p, w) && InRange(p, e)
        ensures NoWrap(p, v, n + s + w + e)
      {
        FitsWordMeansNoWrap(p, v, n, s, w, e);
      }
    } else {
      TopmostWraps(p);
      var m := 2 * p.max;
      assert InRange(p, m);
      assert m + m + m + m == 4 * m;
    }
  }

  /** At the topmost level the bounds are attained. */
  lemma TopmostWraps(p: Pheromone)
    requires PheromoneOk(p) && !FitsWord(p)
    ensures !NoWrap(p, 2 * p.max, 4 * (2 * p.max))
  {
    UniformFieldIsStable(p, 2 * p.max);
    hide Diffused;
    assert 4 * (2 * p.max) * p.diffNum == 8 * p.max * p.diffNum;
  }

  // The rule against the formula it approximates.

  /**
   The untruncated rule (v - v*d + inflow*d/4) * e, with d = DiffNum/DiffDen and
   e = EvapNum/EvapDen, as a numerator over IdealDen.
   */
  function IdealNum(p: Pheromone, v: nat, inflow: nat): int {
    IdealSpread(p, v, inflow) * p.evapNum
  }

  function IdealSpread(p: Pheromone, v: nat, inflow: nat): int {
    4 * p.diffDen * v - 4 * p.diffNum * v + p.diffNum * inflow
  }

  function IdealDen(p: Pheromone): int {
    4 * p.diffDen * p.evapDen
  }

  /** The two floors of a cell and the division by four, with every product named. */
  lemma SpreadBounds(a: int, b: int, out: int, inn: int, v: int, d: int, q: int, ra: int, rb: int, rq: int, dd: int)
    requires a == out + ra && 0 <= ra < dd && b == inn + rb && 0 <= rb < dd
    requires inn == 4 * q + rq && 0 <= rq <= 3 * dd && d == v - out + q
    ensures 4 * v - 4 * a + b - 4 * dd < 4 * d <= 4 * v - 4 * a + b + 4 * dd - 4
  {
  }

  lemma QuarterProduct(dd: nat, inn: nat)
    ensures dd * inn == 4 * (dd * (inn / 4)) + dd * (inn % 4) && 0 <= dd * (inn % 4) <= 3 * dd
  {
    MulDistributes(dd, 4 * (inn / 4), inn % 4);
    ScaleBoth(dd, 0, inn % 4);
    ScaleBoth(dd, inn % 4, 3);
  }

  lemma DistributeOver(k: int, a: int, b: int, c: int)
    ensures k * (a - b + c) == k * a - k * b + k * c
  {
  }

  lemma FourTimes(m: int, n: int)
    ensures 4 * m * n == 4 * (m * n) && m * n == n * m
  {
  }

  lemma SpreadParts(dn: int, dd: nat, v: int, inflow: int, out: int, inn: nat, d: int, ra: int, rb: int)
    requires v * dn == dd * out + ra && 0 <= ra < dd && inflow * dn == dd * inn + rb && 0 <= rb < dd
    requires d == v - out + inn / 4
    ensures 4 * dd * v - 4 * dn * v + dn * inflow - 4 * dd < 4 * dd * d
    ensures 4 * dd * d <= 4 * dd * v - 4 * dn * v + dn * inflow + 4 * dd - 4
  {
    var q := inn / 4;
    QuarterProduct(dd, inn);
    FourTimes(dd, v);
    FourTimes(dn, v);
    FourTimes(dn, inflow);
    FourTimes(dd, d);
    DistributeOver(dd, v, out, q);
    SpreadBounds(v * dn, inflow * dn, dd * out, dd * inn, dd * v, dd * d, dd * q, ra, rb, dd * (inn % 4), dd);
  }

  /** Spreading is less than one unit away from its untruncated value, on either side. */
  lemma SpreadWithinOne(p: Pheromone, v: nat, inflow: nat)
    requires PheromoneOk(p)
    ensures var d := 4 * p.diffDen;
      IdealSpread(p, v, inflow) - d < d * Diffused(p, v, inflow) <= IdealSpread(p, v, inflow) + d - 4
  {
    var dn: nat, dd: nat := p.diffNum, p.diffDen;
    var out, inn, d := Portion(v, dn, dd), Portion(inflow, dn, dd), Diffused(p, v, inflow);
    Remainder(v * dn, dd);
    Remainder(inflow * dn, dd);
    assert out == v * dn / dd && inn == inflow * dn / dd && d == v - out + inn / 4;
    hide Portion;
    hide Diffused;
    SpreadParts(dn, dd, v, inflow, out, inn, d, v * dn % dd, inflow * dn % dd);
  }

  lemma Remainder(a: int, m: int)
    requires m > 0
    ensures a == m * (a / m) + a % m && 0 <= a % m < m
  {
  }

  /** x % m is below m, scaled by d. */
  lemma ScaledRemainder(d: nat, r: nat, ed: nat)
    requires d > 0 && r < ed
    ensures 0 <= d * r <= d * ed - d
  {
    ScaleBoth(d, 0, r);
    ScaleBoth(d, r, ed - 1);
    MulDistributes(d, ed, -1);
  }

  lemma GapScaled(num: int, d: nat, x: nat, en: nat, ed: nat)
    requires d > 0 && en <= ed && ed > 0 && num - d < d * x < num + d
    ensures num * en - d * ed < (d * x) * en < num * en + d * ed
  {
    var gap := d * x - num;
    ScaleBoth(d, en, ed);
    ProductPositive(d, ed);
    assert (num + gap) * en == num * en + gap * en;
    if en > 0 {
      GapBound(gap, d, en);
    }
  }

  lemma FadeProducts(d: int, x: int, en: int, ed: int, e: int, r: int)
    requires x * en == ed * e + r
    ensures (d * x) * en == (d * ed) * e + d * r
  {
    MulAssociates(d, x, en);
    MulAssociates(d, ed, e);
    MulDistributes(d, ed * e, r);
  }

  /** The rest is linear in the products. */
  lemma FadeBounds(scaled: int, kept: int, rest: int, num: int, unit: int)
    requires scaled == kept + rest && 0 <= rest < unit && num - unit < scaled < num + unit
    ensures num - 2 * unit < kept < num + unit
  {
  }

  lemma PortionParts(x: nat, en: nat, ed: nat)
    requires ed > 0
    ensures x * en == ed * Portion(x, en, ed) + x * en % ed && 0 <= x * en % ed < ed
  {
    Remainder(x * en, ed);
  }

  /** Dividing once more loses less than one further unit. */
  lemma FadeWithin(num: int, d: nat, x: nat, en: nat, ed: nat)
    requires d > 0 && ed > 0 && en <= ed && num - d < d * x < num + d
    ensures num * en - 2 * (d * ed) < (d * ed) * Portion(x, en, ed) < num * en + d * ed
  {
    hide *;
    PortionParts(x, en, ed);
    var e, r := Portion(x, en, ed), x * en % ed;
    FadeProducts(d, x, en, ed, e, r);
    ScaledRemainder(d, r, ed);
    GapScaled(num, d, x, en, ed);
    FadeBounds((d * x) * en, (d * ed) * e, d * r, num * en, d * ed);
  }

  lemma GapBound(gap: int, d: int, en: int)
    requires -d < gap < d && en > 0
    ensures -(d * en) < gap * en < d * en
  {
    assert (d - gap) * en > 0 && (d + gap) * en > 0;
  }

  /**
   The cell rule tracks the untruncated formula: below the ceiling it is less than
   two units under it and less than one unit over it, whatever the levels.
   */
  lemma TracksTheFormula(p: Pheromone, v: nat, inflow: nat)
    requires PheromoneOk(p)
    ensures IdealDen(p) * Exact(p, v, inflow) < IdealNum(p, v, inflow) + IdealDen(p)
    ensures Exact(p, v, inflow) == p.max || IdealNum(p, v, inflow) - 2 * IdealDen(p) < IdealDen(p) * Exact(p, v, inflow)
  {
    SpreadWithinOne(p, v, inflow);
    var x, d := Diffused(p, v, inflow), 4 * p.diffDen;
    hide Diffused;
    hide IdealSpread;
    FadeWithin(IdealSpread(p, v, inflow), d, x, p.evapNum, p.evapDen);
    var e := Portion(x, p.evapNum, p.evapDen);
    hide Portion;
    ProductPositive(d, p.evapDen);
    if e > p.max {
      ScaleBoth(IdealDen(p), p.max, e);
    }
  }

  /** Where no product wraps, so does the rule on uint64. */
  lemma CellTracksTheFormula(p: Pheromone, v: nat, n: nat, s: nat, w: nat, e: nat)
    requires PheromoneOk(p) && FitsWord(p)
    requires InRange(p, v) && InRange(p, n) && InRange(p, s) && InRange(p, w) && InRange(p, e)
    ensures var i, c := n + s + w + e, Cell(p, v, n + s + w + e);
      IdealDen(p) * c < IdealNum(p, v, i) + IdealDen(p) &&
      (c == p.max || IdealNum(p, v, i) - 2 * IdealDen(p) < IdealDen(p) * c)
  {
    hide *;
    FitsWordMeansNoWrap(p, v, n, s, w, e);
    TracksTheFormula(p, v, n + s + w + e);
  }

  // Evaporating before or after spreading.

  function SpreadThenEvaporate(p: Pheromone, v: nat, n: nat, s: nat, w: nat, e: nat): nat
    requires PheromoneOk(p)
  {
    Faded(p, Diffused(p, v, n + s + w + e))
  }

  function Faded(p: Pheromone, v: nat): nat
    requires PheromoneOk(p)
  {
    Portion(v, p.evapNum, p.evapDen)
  }

  function EvaporateThenSpread(p: Pheromone, v: nat, n: nat, s: nat, w: nat, e: nat): nat
    requires PheromoneOk(p)
  {
    Diffused(p, Faded(p, v), Faded(p, n) + Faded(p, s) + Faded(p, w) + Faded(p, e))
  }

  /** The two orders agree on these five levels. */
  ghost predicate Agree(p: Pheromone, v: nat, n: nat, s: nat, w: nat, e: nat)
    requires PheromoneOk(p)
  {
    SpreadThenEvaporate(p, v, n, s, w, e) == EvaporateThenSpread(p, v, n, s, w, e)
  }

  /** One order leaves something on these five levels and the other nothing. */
  predicate OneOrderSurvives(p: Pheromone, v: nat, n: nat, s: nat, w: nat, e: nat)
    requires PheromoneOk(p)
  {
    (SpreadThenEvaporate(p, v, n, s, w, e) == 0) != (EvaporateThenSpread(p, v, n, s, w, e) == 0)
  }

  /** Spreading commutes with evaporation on every five levels a grid can hold. */
  ghost predicate Commutes(p: Pheromone)
    requires PheromoneOk(p)
  {
    forall v: nat, n: nat, s: nat, w: nat, e: nat ::
      InRange(p, v) && InRange(p, n) && InRange(p, s) && InRange(p, w) && InRange(p, e) ==> Agree(p, v, n, s, w, e)
  }

  lemma PortionZero(num: nat, den: nat)
    requires den > 0
    ensures Portion(0, num, den) == 0 && Portion(num, 0, den) == 0
  {
    ModUnique(0, den, 0, 0);
  }

  lemma PortionWhole(v: nat, den: nat)
    requires den > 0
    ensures Portion(v, den, den) == v
  {
    ModUnique(v * den, den, v, 0);
  }

  /** The quotient is at least q once q full divisors fit. */
  lemma QuotientAtLeast(x: nat, m: int, q: nat)
    requires m > 0 && m * q <= x
    ensures q <= x / m
  {
    ModUnique(m * q, m, q, 0);
    DivMonotone(m * q, x, m);
  }

  lemma PortionIs(v: nat, num: nat, den: nat, q: nat)
    requires den > 0 && q * den <= v * num < q * den + den
    ensures Portion(v, num, den) == q
  {
    ModUnique(v * num, den, q, v * num - q * den);
  }

  /** The least level whose portion is not zero. */
  function Least(num: nat, den: nat): (v: nat)
    requires 0 < num <= den
    ensures v > 0 && v * num >= den && (v - 1) * num < den
  {
    var b := den + num - 1;
    Remainder(b, num);
    DivBelow(b, num);
    QuotientAtLeast(b, num, 1);
    FourTimes(num, b / num);
    assert (b / num - 1) * num == (b / num) * num - num;
    b / num
  }

  /** At the least level the portion is one, below it zero. */
  lemma LeastPortion(num: nat, den: nat, v: nat)
    requires 0 < num < den
    ensures Portion(Least(num, den), num, den) == 1
    ensures v < Least(num, den) ==> Portion(v, num, den) == 0
  {
    var m := Least(num, den);
    assert (m - 1) * num == m * num - num;
    PortionIs(m, num, den, 1);
    if v < m {
      ScaleBoth(num, v, m - 1);
      FourTimes(num, v);
      FourTimes(num, m - 1);
      PortionIs(v, num, den, 0);
    }
  }

  /** No level a grid can hold gives anything away. */
  predicate NeverMoves(p: Pheromone) {
    2 * p.max * p.diffNum < p.diffDen
  }

  /** Levels a grid can hold fade to nothing; under total spreading the topmost may be left over. */
  predicate FadesAway(p: Pheromone) {
    if p.diffNum == p.diffDen then (2 * p.max - 1) * p.evapNum < p.evapDen else 2 * p.max * p.evapNum < p.evapDen
  }

  // Where the two orders agree.

  lemma SmallPortion(v: nat, m: nat, num: nat, den: nat)
    requires den > 0 && v <= m && m * num < den
    ensures Portion(v, num, den) == 0
  {
    ScaleBoth(num, v, m);
    FourTimes(num, v);
    FourTimes(num, m);
    PortionIs(v, num, den, 0);
  }

  /** Four neighbours below the least moving level give nothing. */
  lemma SmallQuarter(inflow: nat, m: nat, num: nat, den: nat)
    requires den > 0 && inflow <= 4 * m && m * num < den
    ensures Portion(inflow, num, den) / 4 == 0
  {
    PortionMonotone(inflow, 4 * m, num, den);
    QuarterOfFour(m, num, den);
    SmallPortion(m, m, num, den);
  }

  lemma StillCell(p: Pheromone, v: nat, inflow: nat)
    requires PheromoneOk(p) && NeverMoves(p) && v <= 2 * p.max && inflow <= 4 * (2 * p.max)
    ensures Diffused(p, v, inflow) == v
  {
    SmallPortion(v, 2 * p.max, p.diffNum, p.diffDen);
    SmallQuarter(inflow, 2 * p.max, p.diffNum, p.diffDen);
  }

  lemma FadedAtMost(p: Pheromone, v: nat)
    requires PheromoneOk(p)
    ensures Faded(p, v) <= v
  {
    PortionAtMost(v, p.evapNum, p.evapDen);
  }

  lemma AgreeWhenStill(p: Pheromone, v: nat, n: nat, s: nat, w: nat, e: nat)
    requires PheromoneOk(p) && NeverMoves(p)
    requires InRange(p, v) && InRange(p, n) && InRange(p, s) && InRange(p, w) && InRange(p, e)
    ensures Agree(p, v, n, s, w, e)
  {
    FadedAtMost(p, v);
    FadedAtMost(p, n);
    FadedAtMost(p, s);
    FadedAtMost(p, w);
    FadedAtMost(p, e);
    hide Faded;
    hide Diffused;
    hide NeverMoves;
    StillCell(p, v, n + s + w + e);
    StillCell(p, Faded(p, v), Faded(p, n) + Faded(p, s) + Faded(p, w) + Faded(p, e));
  }

  lemma AgreeWhenNothingFades(p: Pheromone, v: nat, n: nat, s: nat, w: nat, e: nat)
    requires PheromoneOk(p) && p.evapNum == p.evapDen
    ensures Agree(p, v, n, s, w, e)
  {
    PortionWhole(Diffused(p, v, n + s + w + e), p.evapDen);
    PortionWhole(v, p.evapDen);
    PortionWhole(n, p.evapDen);
    PortionWhole(s, p.evapDen);
    PortionWhole(w, p.evapDen);
    PortionWhole(e, p.evapDen);
    hide Portion;
    hide Diffused;
  }

  lemma NothingSpreads(p: Pheromone)
    requires PheromoneOk(p)
    ensures Diffused(p, 0, 0) == 0
  {
    PortionZero(p.diffNum, p.diffDen);
  }

  lemma AgreeWhenAllFades(p: Pheromone, v: nat, n: nat, s: nat, w: nat, e: nat)
    requires PheromoneOk(p) && 2 * p.max * p.evapNum < p.evapDen
    requires InRange(p, v) && InRange(p, n) && InRange(p, s) && InRange(p, w) && InRange(p, e)
    ensures Agree(p, v, n, s, w, e)
  {
    var m, en, ed := 2 * p.max, p.evapNum, p.evapDen;
    ExactPrinciple(p, v, n, s, w, e, m);
    hide Diffused;
    SmallPortion(Diffused(p, v, n + s + w + e), m, en, ed);
    SmallPortion(v, m, en, ed);
    SmallPortion(n, m, en, ed);
    SmallPortion(s, m, en, ed);
    SmallPortion(w, m, en, ed);
    SmallPortion(e, m, en, ed);
    NothingSpreads(p);
    hide Portion;
  }

  /** Under total spreading a cell takes a quarter of its neighbours' levels and keeps nothing. */
  lemma TotalSpread(p: Pheromone, v: nat, inflow: nat)
    requires PheromoneOk(p) && p.diffNum == p.diffDen
    ensures Diffused(p, v, inflow) == inflow / 4
  {
    PortionWhole(v, p.diffDen);
    PortionWhole(inflow, p.diffDen);
    hide Portion;
  }

  /** Only the topmost level leaves anything, namely one unit. */
  lemma TopmostFades(p: Pheromone, x: nat)
    requires PheromoneOk(p) && x <= 2 * p.max
    requires (2 * p.max - 1) * p.evapNum < p.evapDen <= 2 * p.max * p.evapNum && p.evapNum < p.evapDen
    ensures Faded(p, x) == if x == 2 * p.max then 1 else 0
  {
    var m, en: nat, ed: nat := 2 * p.max, p.evapNum, p.evapDen;
    assert (m - 1) * en == m * en - en;
    if x == m {
      PortionIs(m, en, ed, 1);
    } else {
      SmallPortion(x, m - 1, en, ed);
    }
  }

  lemma AgreeWhenOneUnitStays(p: Pheromone, v: nat, n: nat, s: nat, w: nat, e: nat)
    requires PheromoneOk(p) && p.diffNum == p.diffDen && p.evapNum < p.evapDen
    requires (2 * p.max - 1) * p.evapNum < p.evapDen <= 2 * p.max * p.evapNum
    requires InRange(p, v) && InRange(p, n) && InRange(p, s) && InRange(p, w) && InRange(p, e)
    ensures Agree(p, v, n, s, w, e)
  {
    TotalSpread(p, v, n + s + w + e);
    TotalSpread(p, Faded(p, v), Faded(p, n) + Faded(p, s) + Faded(p, w) + Faded(p, e));
    TopmostFades(p, (n + s + w + e) / 4);
    TopmostFades(p, n);
    TopmostFades(p, s);
    TopmostFades(p, w);
    TopmostFades(p, e);
    hide Faded;
    hide Diffused;
  }

  lemma AgreeOnRange(p: Pheromone, v: nat, n: nat, s: nat, w: nat, e: nat)
    requires PheromoneOk(p) && (p.evapNum == p.evapDen || NeverMoves(p) || FadesAway(p))
    requires InRange(p, v) && InRange(p, n) && InRange(p, s) && InRange(p, w) && InRange(p, e)
    ensures Agree(p, v, n, s, w, e)
  {
    hide Agree;
    if p.evapNum == p.evapDen {
      AgreeWhenNothingFades(p, v, n, s, w, e);
    } else if NeverMoves(p) {
      AgreeWhenStill(p, v, n, s, w, e);
    } else if 2 * p.max * p.evapNum < p.evapDen {
      AgreeWhenAllFades(p, v, n, s, w, e);
    } else {
      AgreeWhenOneUnitStays(p, v, n, s, w, e);
    }
  }

  // Where they do not.

  /** A level that moves at once, alone: after spreading it fades to nothing, before spreading to one. */
  lemma LoneCellDisagrees(p: Pheromone)
    requires PheromoneOk(p) && 0 < p.diffNum < p.diffDen && 0 < p.evapNum < p.evapDen
    requires Least(p.diffNum, p.diffDen) <= Least(p.evapNum, p.evapDen)
    ensures OneOrderSurvives(p, Least(p.evapNum, p.evapDen), 0, 0, 0, 0)
  {
    var v, dn: nat, dd: nat, en: nat, ed: nat := Least(p.evapNum, p.evapDen), p.diffNum, p.diffDen, p.evapNum, p.evapDen;
    LeastPortion(dn, dd, 1);
    PortionMonotone(Least(dn, dd), v, dn, dd);
    PortionAtMost(v, dn, dd);
    PortionZero(dn, dd);
    PortionZero(en, ed);
    LeastPortion(en, ed, v - Portion(v, dn, dd));
    LeastMoves(dn, dd);
    LeastPortion(dn, dd, 1);
    hide Portion;
    hide Least;
  }

  lemma LeastMoves(num: nat, den: nat)
    requires 0 < num < den
    ensures Least(num, den) > 1
  {
  }

  /** A level just too low to survive, fed one unit by four neighbours that fade below moving. */
  lemma FedCellDisagrees(p: Pheromone)
    requires PheromoneOk(p) && 0 < p.diffNum < p.diffDen && 0 < p.evapNum < p.evapDen
    requires Least(p.evapNum, p.evapDen) < Least(p.diffNum, p.diffDen)
    ensures var v, m := Least(p.evapNum, p.evapDen) - 1, Least(p.diffNum, p.diffDen); OneOrderSurvives(p, v, m, m, m, m)
  {
    var dn: nat, dd: nat, en: nat, ed: nat := p.diffNum, p.diffDen, p.evapNum, p.evapDen;
    var v, m := Least(en, ed) - 1, Least(dn, dd);
    LeastPortion(dn, dd, v);
    QuarterOfFour(m, dn, dd);
    LeastPortion(en, ed, v);
    PortionBelow(m, en, ed);
    var f := Portion(m, en, ed);
    LeastPortion(dn, dd, f);
    QuarterOfFour(f, dn, dd);
    PortionZero(dn, dd);
    hide Portion;
    hide Least;
    assert f + f + f + f == 4 * f && m + m + m + m == 4 * m;
  }

  lemma PortionBelow(v: nat, num: nat, den: nat)
    requires 0 < v && num < den
    ensures Portion(v, num, den) < v
  {
    ScaleBoth(v, num, den - 1);
    assert v * (den - 1) == v * den - v && den * v == v * den;
    QuotientBelow(v * num, den, v);
  }

  /** Total spreading in terms of what each neighbour fades to. */
  lemma TotalSpreadOrders(p: Pheromone, n: nat, s: nat, w: nat, e: nat)
    requires PheromoneOk(p) && p.diffNum == p.diffDen
    ensures SpreadThenEvaporate(p, 0, n, s, w, e) == Faded(p, (n + s + w + e) / 4)
    ensures EvaporateThenSpread(p, 0, n, s, w, e) == (Faded(p, n) + Faded(p, s) + Faded(p, w) + Faded(p, e)) / 4
  {
    TotalSpread(p, 0, n + s + w + e);
    TotalSpread(p, Faded(p, 0), Faded(p, n) + Faded(p, s) + Faded(p, w) + Faded(p, e));
    hide Faded;
    hide Diffused;
  }

  /** Total spreading: levels around the least surviving one lose their remainders when faded first. */
  lemma TotalSpreadDisagrees(p: Pheromone) returns (n: nat, s: nat, w: nat, e: nat)
    requires PheromoneOk(p) && p.diffNum == p.diffDen && 0 < p.evapNum < p.evapDen && !FadesAway(p)
    ensures InRange(p, n) && InRange(p, s) && InRange(p, w) && InRange(p, e) && OneOrderSurvives(p, 0, n, s, w, e)
    ensures var m := Least(p.evapNum, p.evapDen); n <= m + 1 && s <= m + 1 && w <= m + 1 && e <= m + 1 && n + s + w + e <= 4 * m
  {
    var en: nat, ed: nat := p.evapNum, p.evapDen;
    var v := Least(en, ed);
    LeastMoves(en, ed);
    LeastFits(2 * p.max - 1, en, ed);
    hide Least;
    LeastPortion(en, ed, v - 1);
    LeastPortion(en, ed, 1);
    LeastPortion(en, ed, 0);
    NextPortion(en, ed);
    hide Portion;
    if Faded(p, v + 1) == 1 {
      n, s, w, e := v - 1, v, v, v + 1;
    } else {
      n, s, w, e := 0, 2, 2, 3;
    }
    TotalSpreadOrders(p, n, s, w, e);
    hide SpreadThenEvaporate;
    hide EvaporateThenSpread;
  }

  /** The least level is no larger than any level with a portion. */
  lemma LeastFits(m: nat, num: nat, den: nat)
    requires 0 < num <= den && m * num >= den
    ensures Least(num, den) <= m
  {
    var v := Least(num, den);
    FourTimes(num, m);
    FourTimes(num, v - 1);
    if v > m {
      ScaleBoth(num, m, v - 1);
      assert false;
    }
  }

  /** One level further up leaves one unit, or two when the least level is 2. */
  lemma NextPortion(num: nat, den: nat)
    requires 0 < num < den
    ensures var v := Least(num, den); Portion(v + 1, num, den) == 1 || (v == 2 && Portion(v + 1, num, den) == 2)
  {
    var v := Least(num, den);
    assert (v - 1) * num == v * num - num && (v + 1) * num == v * num + num;
    if (v + 1) * num < 2 * den {
      PortionIs(v + 1, num, den, 1);
    } else {
      PortionIs(v + 1, num, den, 2);
      if v > 2 {
        ScaleBoth(num, 2, v - 1);
        FourTimes(num, v - 1);
        assert false;
      }
      LeastMoves(num, den);
    }
  }

  /**
   "Scaling after spreading equals spreading after scaling" is false under
   truncation. On the levels a grid can hold it is true exactly when nothing
   evaporates, when no such level is large enough to spread, or when they all fade
   away (all but the topmost, under total spreading).
   */
  lemma CommutesExactly(p: Pheromone)
    requires PheromoneOk(p)
    ensures Commutes(p) <==> p.evapNum == p.evapDen || NeverMoves(p) || FadesAway(p)
  {
    hide Agree;
    hide Least;
    if p.evapNum == p.evapDen || NeverMoves(p) || FadesAway(p) {
      forall v: nat, n: nat, s: nat, w: nat, e: nat |
        InRange(p, v) && InRange(p, n) && InRange(p, s) && InRange(p, w) && InRange(p, e)
        ensures Agree(p, v, n, s, w, e)
      {
        AgreeOnRange(p, v, n, s, w, e);
      }
    } else if p.diffNum == p.diffDen {
      TotalSpreadBreaks(p);
    } else {
      SlowSpreadDisagrees(p);
    }
  }

  /** One order that survives alone is enough. */
  lemma SurvivorDisagrees(p: Pheromone, v: nat, n: nat, s: nat, w: nat, e: nat)
    requires PheromoneOk(p) && OneOrderSurvives(p, v, n, s, w, e)
    requires InRange(p, v) && InRange(p, n) && InRange(p, s) && InRange(p, w) && InRange(p, e)
    ensures !Commutes(p)
  {
    hide SpreadThenEvaporate;
    hide EvaporateThenSpread;
    assert !Agree(p, v, n, s, w, e);
  }

  lemma TotalSpreadBreaks(p: Pheromone)
    requires PheromoneOk(p) && p.diffNum == p.diffDen && p.evapNum < p.evapDen && !FadesAway(p)
    ensures !Commutes(p)
  {
    ScaleBoth(2 * p.max - 1, 0, p.evapNum);
    hide OneOrderSurvives;
    hide Commutes;
    hide Least;
    var n, s, w, e := TotalSpreadDisagrees(p);
    SurvivorDisagrees(p, 0, n, s, w, e);
  }

  lemma SlowSpreadDisagrees(p: Pheromone)
    requires PheromoneOk(p) && p.diffNum < p.diffDen && p.evapNum < p.evapDen && !NeverMoves(p) && !FadesAway(p)
    ensures !Commutes(p)
  {
    var m := 2 * p.max;
    LeastFits(m, p.diffNum, p.diffDen);
    LeastFits(m, p.evapNum, p.evapDen);
    hide Least;
    hide OneOrderSurvives;
    hide Commutes;
    var a, b := Least(p.evapNum, p.evapDen), Least(p.diffNum, p.diffDen);
    if b <= a {
      LoneCellDisagrees(p);
      SurvivorDisagrees(p, a, 0, 0, 0, 0);
    } else {
      FedCellDisagrees(p);
      SurvivorDisagrees(p, a - 1, b, b, b, b);
    }
  }

  /** The parameters of the bundled scenarios. */
  const SCENARIO := Pheromone(60000, 30000, 97, 100, 12, 100, 1_000_000)

  /** With them, a level of 1 between four of 9 ends at 1 when spread first and at 0 when faded first. */
  lemma ScenarioDoesNotCommute()
    ensures PheromoneOk(SCENARIO)
    ensures SpreadThenEvaporate(SCENARIO, 1, 9, 9, 9, 9) == 1 && EvaporateThenSpread(SCENARIO, 1, 9, 9, 9, 9) == 0
    ensures !Commutes(SCENARIO)
  {
    assert Portion(1, 12, 100) == 0 && Portion(36, 12, 100) == 4 && Portion(2, 97, 100) == 1;
    assert Portion(1, 97, 100) == 0 && Portion(9, 97, 100) == 8 && Portion(0, 12, 100) == 0 && Portion(32, 12, 100) == 3;
    hide Portion;
    assert !Agree(SCENARIO, 1, 9, 9, 9, 9);
    hide Agree;
    assert InRange(SCENARIO, 1) && InRange(SCENARIO, 9);
  }
}
