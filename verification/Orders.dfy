/**
 Evaporating before or after spreading, on uint64: exactly when the two orders
 leave the same level in a cell.
 */
module Orders {
  import opened Words
  import opened Config
  import opened Stencil

  /** v * EvapNum / EvapDen as decayGrid computes it. */
  function Faded64(p: Pheromone, v: nat): Word
    requires PheromoneOk(p)
  {
    DivBelow(Mul64(v, p.evapNum), p.evapDen);
    Mul64(v, p.evapNum) / p.evapDen
  }

  /** What decayGrid takes out of a cell at level v. */
  function Out64(p: Pheromone, v: nat): nat
    requires PheromoneOk(p)
  {
    DivBelow(Mul64(v, p.diffNum), p.diffDen);
    Mul64(v, p.diffNum) / p.diffDen
  }

  /** What decayGrid gives a cell whose neighbours add up to inflow. */
  function Share64(p: Pheromone, inflow: nat): nat
    requires PheromoneOk(p)
  {
    Out64(p, inflow) / 4
  }

  /** The order of the code. */
  function SpreadFirst(p: Pheromone, v: nat, n: nat, s: nat, w: nat, e: nat): Word
    requires PheromoneOk(p)
  {
    Faded64(p, Diffused64(p, v, n + s + w + e))
  }

  /** The order its comment says is the same. */
  function FadedFirst(p: Pheromone, v: nat, n: nat, s: nat, w: nat, e: nat): Word
    requires PheromoneOk(p)
  {
    Diffused64(p, Faded64(p, v), Faded64(p, n) + Faded64(p, s) + Faded64(p, w) + Faded64(p, e))
  }

  /** What is stored of a computed level. */
  function Stored(p: Pheromone, x: nat): U32 {
    if x > p.max then p.max else x
  }

  predicate AllInRange(p: Pheromone, v: nat, n: nat, s: nat, w: nat, e: nat) {
    InRange(p, v) && InRange(p, n) && InRange(p, s) && InRange(p, w) && InRange(p, e)
  }

  /** The two orders compute the same level from every five levels a grid can hold. */
  ghost predicate Commutes64(p: Pheromone)
    requires PheromoneOk(p)
  {
    forall v: nat, n: nat, s: nat, w: nat, e: nat :: AllInRange(p, v, n, s, w, e) ==>
      SpreadFirst(p, v, n, s, w, e) == FadedFirst(p, v, n, s, w, e)
  }

  /** The cell that decayGrid stores is the one it would store if it faded first. */
  ghost predicate CellsCommute(p: Pheromone)
    requires PheromoneOk(p)
  {
    forall v: nat, n: nat, s: nat, w: nat, e: nat :: AllInRange(p, v, n, s, w, e) ==>
      Cell(p, v, n + s + w + e) == Stored(p, FadedFirst(p, v, n, s, w, e))
  }

  // The condition.

  /** The least level whose product with k wraps. */
  function Turn(k: nat): (r: nat)
    requires 0 < k < TWO_32
    ensures TWO_64 <= r * k < TWO_64 + k && TWO_32 < r
  {
    TurnIs(k);
    (TWO_64 + k - 1) / k
  }

  lemma TurnIs(k: nat)
    requires 0 < k < TWO_32
    ensures var r := (TWO_64 + k - 1) / k; TWO_64 <= r * k < TWO_64 + k && TWO_32 < r
  {
    var r := (TWO_64 + k - 1) / k;
    Remainder(TWO_64 + k - 1, k);
    FourTimes(k, r);
    if r <= TWO_32 {
      ScaleBoth(k, r, TWO_32);
      assert false;
    }
  }

  /** The neighbours' largest total up to 8 * Max whose product with DiffNum has wrapped j times at most. */
  function FullestInflow(p: Pheromone, j: nat): (r: nat)
  {
    if p.diffNum == 0 then 8 * p.max
    else
      DivBelow((j + 1) * TWO_64 - 1, p.diffNum);
      var r := ((j + 1) * TWO_64 - 1) / p.diffNum;
      if r > 8 * p.max then 8 * p.max else r
  }

  /** At the highest level and the fullest inflows, the product with EvapNum does not wrap. */
  predicate PeaksFit(p: Pheromone)
    requires PheromoneOk(p)
  {
    forall j: nat :: j < 8 ==> Diffused64(p, 2 * p.max, FullestInflow(p, j)) * p.evapNum < TWO_64
  }

  /** Wrapping takes the same amount off a level in both products, and what is cut off carries nothing over. */
  predicate InStep(p: Pheromone)
    requires PheromoneOk(p) && p.evapNum > 0
  {
    && p.diffNum == p.evapNum
    && (forall v: nat :: v <= 2 * p.max ==> Out64(p, v) == Out64(p, v % Turn(p.evapNum)))
    && (forall i: nat :: i <= 8 * p.max ==> Share64(p, i) == Share64(p, i % Turn(p.evapNum)))
  }

  /** Nothing evaporates, although products may wrap. */
  predicate Lasts64(p: Pheromone)
    requires PheromoneOk(p)
  {
    p.evapNum == p.evapDen && if 2 * p.max * p.evapNum < TWO_64 then PeaksFit(p) else InStep(p)
  }

  /** All levels fade to nothing; under total spreading the topmost may be left over if no product wraps. */
  predicate FadesAway64(p: Pheromone)
  {
    2 * p.max * p.evapNum < p.evapDen ||
    (p.diffNum == p.diffDen && (2 * p.max - 1) * p.evapNum < p.evapDen && 8 * p.max * p.diffNum < TWO_64)
  }

  lemma SpreadIs(p: Pheromone, v: nat, inflow: nat)
    requires PheromoneOk(p) && v < TWO_63
    ensures Out64(p, v) <= v && Diffused64(p, v, inflow) == v - Out64(p, v) + Share64(p, inflow)
  {
    Diffused64Is(p, v, inflow);
    hide Diffused64;
    hide Mul64;
  }

  lemma StoredIsCell(p: Pheromone, v: nat, n: nat, s: nat, w: nat, e: nat)
    requires PheromoneOk(p)
    ensures Cell(p, v, n + s + w + e) == Stored(p, SpreadFirst(p, v, n, s, w, e))
  {
    hide Diffused64;
    hide Mul64;
  }

  // Where no product wraps, both orders are those on unbounded integers.

  lemma Faded64Small(p: Pheromone, v: nat)
    requires PheromoneOk(p) && v * p.evapNum < TWO_64
    ensures Faded64(p, v) == Faded(p, v)
  {
    Mul64Small(v, p.evapNum);
    hide Mul64;
  }

  lemma Diffused64Small(p: Pheromone, v: nat, inflow: nat)
    requires PheromoneOk(p) && v < TWO_63 && v * p.diffNum < TWO_64 && inflow * p.diffNum < TWO_64
    ensures Diffused64(p, v, inflow) == Diffused(p, v, inflow)
  {
    Diffused64Is(p, v, inflow);
    hide Diffused64;
    Mul64Small(v, p.diffNum);
    Mul64Small(inflow, p.diffNum);
    hide Mul64;
  }

  lemma SmallFade(p: Pheromone, v: nat, m: nat)
    requires PheromoneOk(p) && v <= m && m * p.evapNum < TWO_64
    ensures Faded64(p, v) == Faded(p, v) <= v
  {
    BoundedProduct(v, m, p.evapNum);
    Faded64Small(p, v);
    FadedAtMost(p, v);
    hide Faded64;
    hide Faded;
  }

  lemma SmallSpreadFirst(p: Pheromone, v: nat, i: nat, m: nat)
    requires PheromoneOk(p) && v < TWO_63 && v * p.diffNum < TWO_64 && i * p.diffNum < TWO_64
    requires Diffused(p, v, i) <= m && m * p.evapNum < TWO_64
    ensures Faded64(p, Diffused64(p, v, i)) == Faded(p, Diffused(p, v, i))
  {
    hide *;
    Diffused64Small(p, v, i);
    SmallFade(p, Diffused(p, v, i), m);
  }

  lemma SmallFadedFirst(p: Pheromone, v: nat, n: nat, s: nat, w: nat, e: nat, m: nat)
    requires PheromoneOk(p) && v <= m && n <= m && s <= m && w <= m && e <= m && m < TWO_63
    requires m * p.evapNum < TWO_64 && m * p.diffNum < TWO_64 && (n + s + w + e) * p.diffNum < TWO_64
    ensures Diffused64(p, Faded64(p, v), Faded64(p, n) + Faded64(p, s) + Faded64(p, w) + Faded64(p, e)) ==
      Diffused(p, Faded(p, v), Faded(p, n) + Faded(p, s) + Faded(p, w) + Faded(p, e))
  {
    hide *;
    SmallFade(p, v, m);
    SmallFade(p, n, m);
    SmallFade(p, s, m);
    SmallFade(p, w, m);
    SmallFade(p, e, m);
    BoundedProduct(Faded(p, v), m, p.diffNum);
    BoundedProduct(Faded(p, n) + Faded(p, s) + Faded(p, w) + Faded(p, e), n + s + w + e, p.diffNum);
    Diffused64Small(p, Faded(p, v), Faded(p, n) + Faded(p, s) + Faded(p, w) + Faded(p, e));
  }

  lemma SmallOrders(p: Pheromone, v: nat, n: nat, s: nat, w: nat, e: nat, m: nat)
    requires PheromoneOk(p) && v <= m && n <= m && s <= m && w <= m && e <= m && m < TWO_63
    requires m * p.evapNum < TWO_64 && m * p.diffNum < TWO_64 && (n + s + w + e) * p.diffNum < TWO_64
    ensures SpreadFirst(p, v, n, s, w, e) == SpreadThenEvaporate(p, v, n, s, w, e)
    ensures FadedFirst(p, v, n, s, w, e) == EvaporateThenSpread(p, v, n, s, w, e)
  {
    hide Faded64;
    hide Faded;
    hide Diffused64;
    hide Diffused;
    hide Exact;
    ExactPrinciple(p, v, n, s, w, e, m);
    BoundedProduct(v, m, p.diffNum);
    SmallSpreadFirst(p, v, n + s + w + e, m);
    SmallFadedFirst(p, v, n, s, w, e, m);
  }

  // Where the two orders agree.

  lemma StillSpread(p: Pheromone, v: nat, inflow: nat)
    requires PheromoneOk(p) && NeverMoves(p) && v <= 2 * p.max && inflow <= 8 * p.max
    ensures Diffused64(p, v, inflow) == v
  {
    FourTimes(2 * p.max, p.diffNum);
    SmallCellIsExact(p, v, inflow, 2 * p.max);
    StillCell(p, v, inflow);
    hide Diffused64;
    hide Diffused;
  }

  lemma Faded64AtMost(p: Pheromone, v: nat)
    requires PheromoneOk(p)
    ensures Faded64(p, v) <= v
  {
    Mul64AtMost(v, p.evapNum);
    DivMonotone(Mul64(v, p.evapNum), v * p.evapNum, p.evapDen);
    PortionAtMost(v, p.evapNum, p.evapDen);
    hide Mul64;
  }

  lemma OrdersWhenStill(p: Pheromone, v: nat, n: nat, s: nat, w: nat, e: nat)
    requires PheromoneOk(p) && NeverMoves(p) && AllInRange(p, v, n, s, w, e)
    ensures SpreadFirst(p, v, n, s, w, e) == FadedFirst(p, v, n, s, w, e)
  {
    hide Faded64;
    hide Diffused64;
    hide NeverMoves;
    Faded64AtMost(p, v);
    Faded64AtMost(p, n);
    Faded64AtMost(p, s);
    Faded64AtMost(p, w);
    Faded64AtMost(p, e);
    StillSpread(p, v, n + s + w + e);
    StillSpread(p, Faded64(p, v), Faded64(p, n) + Faded64(p, s) + Faded64(p, w) + Faded64(p, e));
  }

  lemma FadesToNothing(p: Pheromone, v: nat, m: nat)
    requires PheromoneOk(p) && v <= m && m * p.evapNum < p.evapDen
    ensures Faded64(p, v) == 0
  {
    BoundedProduct(v, m, p.evapNum);
    Faded64Small(p, v);
    SmallPortion(v, m, p.evapNum, p.evapDen);
    hide Faded64;
    hide Portion;
  }

  lemma NothingSpreads64(p: Pheromone)
    requires PheromoneOk(p)
    ensures Diffused64(p, 0, 0) == 0
  {
    Diffused64Small(p, 0, 0);
    NothingSpreads(p);
    hide Diffused64;
    hide Diffused;
  }

  lemma SpreadFades(p: Pheromone, v: nat, n: nat, s: nat, w: nat, e: nat)
    requires PheromoneOk(p) && AllInRange(p, v, n, s, w, e) && 2 * p.max * p.evapNum < p.evapDen
    ensures SpreadFirst(p, v, n, s, w, e) == 0
  {
    var m: nat := 2 * p.max;
    var d: nat := Diffused64(p, v, n + s + w + e);
    hide Faded64;
    if p.evapNum == 0 {
      hide Diffused64;
      FadesToNothing(p, d, d);
    } else {
      ScaleBoth(m, 1, p.evapNum);
      BoundedProduct(v, TWO_32, p.diffNum);
      Diffused64AtMost(p, v, n + s + w + e);
      ExactPrinciple(p, v, n, s, w, e, m);
      hide Diffused64;
      hide Diffused;
      FadesToNothing(p, d, m);
    }
  }

  lemma OrdersWhenAllFades(p: Pheromone, v: nat, n: nat, s: nat, w: nat, e: nat)
    requires PheromoneOk(p) && AllInRange(p, v, n, s, w, e) && 2 * p.max * p.evapNum < p.evapDen
    ensures SpreadFirst(p, v, n, s, w, e) == FadedFirst(p, v, n, s, w, e)
  {
    var m: nat := 2 * p.max;
    SpreadFades(p, v, n, s, w, e);
    hide SpreadFirst;
    hide Faded64;
    hide Diffused64;
    FadesToNothing(p, v, m);
    FadesToNothing(p, n, m);
    FadesToNothing(p, s, m);
    FadesToNothing(p, w, m);
    FadesToNothing(p, e, m);
    NothingSpreads64(p);
  }

  lemma OrdersWhenOneUnitStays(p: Pheromone, v: nat, n: nat, s: nat, w: nat, e: nat)
    requires PheromoneOk(p) && AllInRange(p, v, n, s, w, e) && FadesAway64(p) && p.evapDen <= 2 * p.max * p.evapNum
    ensures SpreadFirst(p, v, n, s, w, e) == FadedFirst(p, v, n, s, w, e)
  {
    var m: nat := 2 * p.max;
    ScaleBoth(p.evapNum, 1, m - 1);
    FourTimes(p.evapNum, m - 1);
    assert (m - 1) * p.evapNum == m * p.evapNum - p.evapNum;
    BoundedProduct(m, 8 * p.max, p.diffNum);
    BoundedProduct(n + s + w + e, 8 * p.max, p.diffNum);
    hide SpreadFirst;
    hide FadedFirst;
    SmallOrders(p, v, n, s, w, e, m);
    AgreeWhenOneUnitStays(p, v, n, s, w, e);
    hide SpreadThenEvaporate;
    hide EvaporateThenSpread;
  }

  // Where nothing evaporates.

  lemma FadesNot(p: Pheromone, v: nat)
    requires PheromoneOk(p) && p.evapNum == p.evapDen && v * p.evapNum < TWO_64
    ensures Faded64(p, v) == v
  {
    Faded64Small(p, v);
    PortionWhole(v, p.evapDen);
    hide Faded64;
    hide Portion;
  }

  /** A product that wraps once at most. */
  lemma WrapsOnce(a: nat, b: nat)
    requires a * b < 2 * TWO_64
    ensures Mul64(a, b) == if a * b < TWO_64 then a * b else a * b - TWO_64
  {
    if a * b < TWO_64 {
      Mul64Small(a, b);
    } else {
      ModUnique(a * b, TWO_64, 1, a * b - TWO_64);
    }
  }

  lemma TopBounds(p: Pheromone, v: nat)
    requires PheromoneOk(p) && v <= 2 * p.max
    ensures v < 2 * TWO_32 && v < TWO_63 && v * p.diffNum < 2 * TWO_64 && v * p.evapNum < 2 * TWO_64
  {
    ScaleBoth(v, p.diffNum, TWO_32);
    ScaleBoth(v, p.evapNum, TWO_32);
  }

  /** Taking d steps of at most dd each off a product takes d units at most off its quotient. */
  lemma QuotientDrops(a: nat, b: nat, d: nat, dd: nat)
    requires dd > 0 && b <= a + d * dd
    ensures b / dd <= a / dd + d
  {
    DivMonotone(b, a + d * dd, dd);
    FourTimes(d, dd);
    Remainder(a, dd);
    MulDistributes(dd, a / dd, d);
    ModUnique(a + d * dd, dd, a / dd + d, a % dd);
  }

  /** If the topmost product wraps, the topmost level keeps the most. */
  lemma TopKeepsMost(p: Pheromone, v: nat)
    requires PheromoneOk(p) && v <= 2 * p.max && TWO_64 <= 2 * p.max * p.diffNum
    ensures v - Out64(p, v) <= 2 * p.max - Out64(p, 2 * p.max)
  {
    var m: nat, dn: nat, dd: nat := 2 * p.max, p.diffNum, p.diffDen;
    TopBounds(p, m);
    TopBounds(p, v);
    WrapsOnce(m, dn);
    WrapsOnce(v, dn);
    hide Mul64;
    ScaleBoth(m - v, dn, dd);
    DistributeOver(dn, m, v, 0);
    FourTimes(m - v, dn);
    FourTimes(dn, m);
    FourTimes(dn, v);
    QuotientDrops(Mul64(v, dn), Mul64(m, dn), m - v, dd);
  }

  /** How often the product of an inflow with DiffNum wraps. */
  function Turns(p: Pheromone, inflow: nat): (j: nat)
    requires inflow <= 8 * p.max
    ensures j < 8 && j * TWO_64 <= inflow * p.diffNum < (j + 1) * TWO_64
  {
    ScaleBoth(inflow, p.diffNum, TWO_32);
    Remainder(inflow * p.diffNum, TWO_64);
    DivBelow(inflow * p.diffNum, TWO_64);
    inflow * p.diffNum / TWO_64
  }

  lemma FullestIs(p: Pheromone, inflow: nat, j: nat)
    requires inflow <= 8 * p.max && j * TWO_64 <= inflow * p.diffNum < (j + 1) * TWO_64
    ensures var f := FullestInflow(p, j); inflow <= f <= 8 * p.max
    ensures inflow * p.diffNum <= FullestInflow(p, j) * p.diffNum < (j + 1) * TWO_64
  {
    var f, dn: nat, t := FullestInflow(p, j), p.diffNum, (j + 1) * TWO_64;
    if dn > 0 {
      var q := (t - 1) / dn;
      Remainder(t - 1, dn);
      FourTimes(dn, q);
      FourTimes(dn, inflow);
      QuotientAtLeast(t - 1, dn, inflow);
      ScaleBoth(dn, f, q);
      ScaleBoth(dn, inflow, f);
      FourTimes(dn, f);
    }
  }

  /** No inflow brings more than the fullest one with as many turns. */
  lemma FullestBringsMost(p: Pheromone, inflow: nat)
    requires PheromoneOk(p) && inflow <= 8 * p.max
    ensures Share64(p, inflow) <= Share64(p, FullestInflow(p, Turns(p, inflow)))
  {
    var j := Turns(p, inflow);
    var f := FullestInflow(p, j);
    FullestIs(p, inflow, j);
    hide FullestInflow;
    hide Turns;
    ModUnique(inflow * p.diffNum, TWO_64, j, inflow * p.diffNum - j * TWO_64);
    ModUnique(f * p.diffNum, TWO_64, j, f * p.diffNum - j * TWO_64);
    DivMonotone(Mul64(inflow, p.diffNum), Mul64(f, p.diffNum), p.diffDen);
    hide Mul64;
    DivMonotone(Out64(p, inflow), Out64(p, f), 4);
  }

  /** Under the condition no level a cell can hold after spreading wraps when it is multiplied by EvapNum. */
  lemma SpreadFits(p: Pheromone, v: nat, n: nat, s: nat, w: nat, e: nat)
    requires PheromoneOk(p) && AllInRange(p, v, n, s, w, e) && 2 * p.max * p.evapNum < TWO_64 && PeaksFit(p)
    ensures Diffused64(p, v, n + s + w + e) * p.evapNum < TWO_64
  {
    var m: nat, i := 2 * p.max, n + s + w + e;
    TopBounds(p, m);
    if m * p.diffNum < TWO_64 {
      BoundedProduct(v, m, p.diffNum);
      Diffused64AtMost(p, v, i);
      ExactPrinciple(p, v, n, s, w, e, m);
      hide Diffused64;
      hide Diffused;
      BoundedProduct(Diffused64(p, v, i), m, p.evapNum);
    } else {
      TopKeepsMost(p, v);
      FullestBringsMost(p, i);
      var j := Turns(p, i);
      SpreadIs(p, v, i);
      SpreadIs(p, m, FullestInflow(p, j));
      hide Diffused64;
      hide FullestInflow;
      hide Out64;
      hide Share64;
      BoundedProduct(Diffused64(p, v, i), Diffused64(p, m, FullestInflow(p, j)), p.evapNum);
    }
  }

  lemma OrdersWhenPeaksFit(p: Pheromone, v: nat, n: nat, s: nat, w: nat, e: nat)
    requires PheromoneOk(p) && AllInRange(p, v, n, s, w, e) && p.evapNum == p.evapDen
    requires 2 * p.max * p.evapNum < TWO_64 && PeaksFit(p)
    ensures SpreadFirst(p, v, n, s, w, e) == FadedFirst(p, v, n, s, w, e)
  {
    SpreadFits(p, v, n, s, w, e);
    hide PeaksFit;
    hide Diffused64;
    hide Faded64;
    FadesNot(p, Diffused64(p, v, n + s + w + e));
    LevelLasts(p, v);
    LevelLasts(p, n);
    LevelLasts(p, s);
    LevelLasts(p, w);
    LevelLasts(p, e);
  }

  lemma LevelLasts(p: Pheromone, v: nat)
    requires PheromoneOk(p) && InRange(p, v) && p.evapNum == p.evapDen && 2 * p.max * p.evapNum < TWO_64
    ensures Faded64(p, v) == v
  {
    BoundedProduct(v, 2 * p.max, p.evapNum);
    FadesNot(p, v);
  }

  // Where nothing evaporates and levels wrap: fading takes one turn off.

  predicate Turning(p: Pheromone) {
    PheromoneOk(p) && p.evapNum == p.evapDen && TWO_64 <= 2 * p.max * p.evapNum
  }

  lemma TurnFacts(p: Pheromone)
    requires Turning(p)
    ensures p.evapNum > 0x8000_0000
    ensures var k := Turn(p.evapNum); k <= 2 * p.max < 2 * k
  {
    var en: nat, m: nat := p.evapNum, 2 * p.max;
    if en <= 0x8000_0000 {
      ScaleBoth(m, en, 0x8000_0000);
      assert false;
    }
    if m < Turn(en) {
      BelowTurn(en, m);
      assert false;
    }
  }

  lemma FadedTurns(p: Pheromone, x: nat)
    requires Turning(p) && x * p.evapNum < 2 * TWO_64
    ensures var k := Turn(p.evapNum); Faded64(p, x) == if x < k then x else x - k
  {
    var en: nat := p.evapNum;
    var k := Turn(en);
    if x < k {
      BelowTurn(en, x);
      FadesNot(p, x);
    } else {
      ScaleBoth(en, k, x);
      FourTimes(en, x);
      FourTimes(en, k);
      WrapsOnce(x, en);
      DistributeOver(en, x, k, 0);
      ModUnique(x * en - TWO_64, en, x - k, k * en - TWO_64);
    }
  }

  /** At most half a level, rounded up, is kept when DiffNum is more than half of DiffDen. */
  lemma HalfGoes(p: Pheromone, y: nat)
    requires PheromoneOk(p) && p.diffDen < 2 * p.diffNum && y * p.diffNum < TWO_64
    ensures 2 * Out64(p, y) + 1 >= y
  {
    var dn: nat, dd: nat := p.diffNum, p.diffDen;
    Mul64Small(y, dn);
    hide Mul64;
    ScaleBoth(y / 2, dd, 2 * dn);
    FourTimes(y / 2, dd);
    MulAssociates(y / 2, 2, dn);
    FourTimes(dn, 2 * (y / 2));
    FourTimes(dn, y);
    ScaleBoth(dn, 2 * (y / 2), y);
    FourTimes(y / 2, 2);
    QuotientAtLeast(y * dn, dd, y / 2);
  }

  /** An inflow brings less than a quarter of any m whose product with DiffDen exceeds 64 bits. */
  lemma ShareBelow(p: Pheromone, i: nat, m: nat)
    requires PheromoneOk(p) && TWO_64 <= m * p.diffDen
    ensures 4 * Share64(p, i) < m
  {
    FourTimes(m, p.diffDen);
    if m == 0 {
      assert false;
    }
    QuotientBelow(Mul64(i, p.diffNum), p.diffDen, m);
    hide Mul64;
  }

  lemma BelowTurn(k: nat, y: nat)
    requires 0 < k < TWO_32 && y < Turn(k)
    ensures y * k < TWO_64
  {
    ScaleBoth(k, y, Turn(k) - 1);
    FourTimes(k, y);
    FourTimes(k, Turn(k));
    DistributeOver(k, Turn(k), 1, 0);
  }

  lemma ThreeQuarters(y: nat, out: nat, share: nat, k: nat)
    requires 2 * out + 1 >= y && y < k && 4 * share < k
    ensures y - out + share <= k / 2 + k / 4
  {
  }

  /** What spreading leaves of a level below one turn is below one turn. */
  lemma SpreadBelowTurn(p: Pheromone, y: nat, i: nat)
    requires Turning(p) && p.diffNum == p.evapNum && y < Turn(p.evapNum)
    ensures var k := Turn(p.evapNum); y - Out64(p, y) + Share64(p, i) <= k / 2 + k / 4
  {
    var en: nat, k := p.evapNum, Turn(p.evapNum);
    TurnFacts(p);
    BelowTurn(en, y);
    HalfGoes(p, y);
    TurnOfDen(p);
    hide Turn;
    ShareBelow(p, i, k);
    hide Out64;
    hide Share64;
    ThreeQuarters(y, Out64(p, y), Share64(p, i), k);
  }

  lemma TurnOfDen(p: Pheromone)
    requires Turning(p)
    ensures TWO_64 <= Turn(p.evapNum) * p.diffDen || p.diffDen < p.evapNum
  {
    if p.evapNum <= p.diffDen {
      ScaleBoth(Turn(p.evapNum), p.evapNum, p.diffDen);
    }
  }

  lemma ModTurn(x: nat, k: nat)
    requires x < 2 * k
    ensures x % k == if x < k then x else x - k
  {
    if x < k {
      SmallMod(x, k);
    } else {
      ModUnique(x, k, 1, x - k);
    }
  }

  lemma FadesToRest(p: Pheromone, v: nat)
    requires Turning(p) && InRange(p, v)
    ensures Faded64(p, v) == v % Turn(p.evapNum) == if v < Turn(p.evapNum) then v else v - Turn(p.evapNum)
  {
    TurnFacts(p);
    TopBounds(p, v);
    FadedTurns(p, v);
    ModTurn(v, Turn(p.evapNum));
  }

  lemma SumOfRests(n: nat, s: nat, w: nat, e: nat, k: nat)
    requires k > 0
    ensures n % k + s % k + w % k + e % k <= n + s + w + e
    ensures (n % k + s % k + w % k + e % k) % k == (n + s + w + e) % k
  {
    Remainder(n, k);
    Remainder(s, k);
    Remainder(w, k);
    Remainder(e, k);
    DivBelow(n, k);
    DivBelow(s, k);
    DivBelow(w, k);
    DivBelow(e, k);
    var q := n / k + s / k + w / k + e / k;
    ScaleBoth(k, 0, q);
    MulDistributes(k, n / k, s / k);
    MulDistributes(k, n / k + s / k, w / k);
    MulDistributes(k, n / k + s / k + w / k, e / k);
    ModAddMultiple(n % k + s % k + w % k + e % k, k, q);
  }

  /** Spread and then faded: the rest of the level and of the inflow alone count. */
  lemma SpreadFirstTurns(p: Pheromone, v: nat, i: nat)
    requires Turning(p) && InRange(p, v) && i <= 8 * p.max && InStep(p)
    ensures var y := v % Turn(p.evapNum); Out64(p, y) <= y && Faded64(p, Diffused64(p, v, i)) == y - Out64(p, y) + Share64(p, i)
  {
    var en: nat, k := p.evapNum, Turn(p.evapNum);
    var y := v % k;
    TurnFacts(p);
    ModTurn(v, k);
    assert Out64(p, v) == Out64(p, y);
    hide InStep;
    SpreadBelowTurn(p, y, i);
    TopBounds(p, v);
    SpreadIs(p, v, i);
    SpreadIs(p, y, i);
    var d: nat := Diffused64(p, v, i);
    hide Out64;
    hide Share64;
    hide Diffused64;
    var x: nat := y - Out64(p, y) + Share64(p, i);
    TurnProduct(en, k, x);
    FadedTurns(p, d);
  }

  lemma ScaledParts(en: nat, k: nat, x: nat)
    ensures en * (4 * x) == 4 * (x * en) && en * (3 * k) == 3 * (k * en) && (k + x) * en == k * en + x * en
  {
  }

  lemma TurnProduct(en: nat, k: nat, x: nat)
    requires TWO_64 <= k * en < TWO_64 + en && en < TWO_32 && x <= k / 2 + k / 4
    ensures x * en < 2 * TWO_64 && (k + x) * en < 2 * TWO_64
  {
    ScaleBoth(en, 4 * x, 3 * k);
    ScaledParts(en, k, x);
  }

  lemma SameShare(p: Pheromone, i: nat, f: nat)
    requires Turning(p) && InStep(p) && f <= i <= 8 * p.max && f % Turn(p.evapNum) == i % Turn(p.evapNum)
    ensures Share64(p, i) == Share64(p, f)
  {
    hide Share64;
    hide Turn;
  }

  lemma FadedSum(p: Pheromone, n: nat, s: nat, w: nat, e: nat)
    requires Turning(p) && InRange(p, n) && InRange(p, s) && InRange(p, w) && InRange(p, e)
    ensures var f := Faded64(p, n) + Faded64(p, s) + Faded64(p, w) + Faded64(p, e);
      f <= n + s + w + e && f % Turn(p.evapNum) == (n + s + w + e) % Turn(p.evapNum)
  {
    FadesToRest(p, n);
    FadesToRest(p, s);
    FadesToRest(p, w);
    FadesToRest(p, e);
    hide Faded64;
    SumOfRests(n, s, w, e, Turn(p.evapNum));
    hide Turn;
  }

  lemma OrdersWhenInStep(p: Pheromone, v: nat, n: nat, s: nat, w: nat, e: nat)
    requires Turning(p) && AllInRange(p, v, n, s, w, e) && InStep(p)
    ensures SpreadFirst(p, v, n, s, w, e) == FadedFirst(p, v, n, s, w, e)
  {
    var i, f := n + s + w + e, Faded64(p, n) + Faded64(p, s) + Faded64(p, w) + Faded64(p, e);
    FadesToRest(p, v);
    FadedSum(p, n, s, w, e);
    hide Turn;
    hide Faded64;
    SameShare(p, i, f);
    SpreadFirstTurns(p, v, i);
    hide InStep;
    TopBounds(p, Faded64(p, v));
    SpreadIs(p, Faded64(p, v), f);
    hide Diffused64;
    hide Out64;
    hide Share64;
  }

  /** Parameters under which the order makes no difference. */
  predicate OrderFree(p: Pheromone)
    requires PheromoneOk(p)
  {
    NeverMoves(p) || FadesAway64(p) || Lasts64(p)
  }

  lemma OrdersAgree(p: Pheromone, v: nat, n: nat, s: nat, w: nat, e: nat)
    requires PheromoneOk(p) && OrderFree(p) && AllInRange(p, v, n, s, w, e)
    ensures SpreadFirst(p, v, n, s, w, e) == FadedFirst(p, v, n, s, w, e)
  {
    hide PeaksFit;
    hide InStep;
    hide AllInRange;
    hide SpreadFirst;
    hide FadedFirst;
    if NeverMoves(p) {
      OrdersWhenStill(p, v, n, s, w, e);
    } else if 2 * p.max * p.evapNum < p.evapDen {
      OrdersWhenAllFades(p, v, n, s, w, e);
    } else if FadesAway64(p) {
      OrdersWhenOneUnitStays(p, v, n, s, w, e);
    } else if 2 * p.max * p.evapNum < TWO_64 {
      OrdersWhenPeaksFit(p, v, n, s, w, e);
    } else {
      OrdersWhenInStep(p, v, n, s, w, e);
    }
  }

  // Where they do not.

  /** The two orders store different levels. */
  predicate Differ(p: Pheromone, v: nat, n: nat, s: nat, w: nat, e: nat)
    requires PheromoneOk(p)
  {
    AllInRange(p, v, n, s, w, e) &&
    Stored(p, SpreadFirst(p, v, n, s, w, e)) != Stored(p, FadedFirst(p, v, n, s, w, e))
  }

  lemma OneWitness(p: Pheromone, v: nat, n: nat, s: nat, w: nat, e: nat)
    requires PheromoneOk(p) && Differ(p, v, n, s, w, e)
    ensures !CellsCommute(p)
  {
    StoredIsCell(p, v, n, s, w, e);
    hide Stored;
    hide SpreadFirst;
    hide FadedFirst;
    hide Cell;
    hide AllInRange;
  }

  /** Levels whose products are small and of which one order leaves nothing. */
  lemma SmallWitness(p: Pheromone, v: nat, n: nat, s: nat, w: nat, e: nat, m: nat)
    requires PheromoneOk(p) && AllInRange(p, v, n, s, w, e) && OneOrderSurvives(p, v, n, s, w, e)
    requires v <= m && n <= m && s <= m && w <= m && e <= m && m <= TWO_32 && (n + s + w + e) * p.diffNum < TWO_64
    ensures !CellsCommute(p)
  {
    ScaleBoth(m, p.evapNum, TWO_32 - 1);
    ScaleBoth(m, p.diffNum, TWO_32 - 1);
    SmallOrders(p, v, n, s, w, e, m);
    hide SpreadFirst;
    hide FadedFirst;
    hide SpreadThenEvaporate;
    hide EvaporateThenSpread;
    OneWitness(p, v, n, s, w, e);
  }

  lemma LeastAtMostDen(num: nat, den: nat)
    requires 0 < num <= den
    ensures Least(num, den) <= den
  {
    ScaleBoth(den, 1, num);
    LeastFits(den, num, den);
  }

  /** Four times the least moving level gives a small product. */
  lemma FourLeastSmall(num: nat, den: nat)
    requires 0 < num <= den < TWO_32
    ensures (4 * Least(num, den)) * num < TWO_64
  {
    var m := Least(num, den);
    FourTimes(m, num);
    FourTimes(num, m);
    DistributeOver(num, m, 1, 0);
    FourTimes(num, m - 1);
  }

  lemma SlowSpreadOrders(p: Pheromone)
    requires PheromoneOk(p) && p.diffNum < p.diffDen && p.evapNum < p.evapDen && !NeverMoves(p) && !FadesAway64(p)
    ensures !CellsCommute(p)
  {
    var m := 2 * p.max;
    LeastFits(m, p.diffNum, p.diffDen);
    LeastFits(m, p.evapNum, p.evapDen);
    LeastAtMostDen(p.diffNum, p.diffDen);
    LeastAtMostDen(p.evapNum, p.evapDen);
    FourLeastSmall(p.diffNum, p.diffDen);
    hide Least;
    hide CellsCommute;
    var a, b := Least(p.evapNum, p.evapDen), Least(p.diffNum, p.diffDen);
    if b <= a {
      LoneCellDisagrees(p);
      hide OneOrderSurvives;
      SmallWitness(p, a, 0, 0, 0, 0, a);
    } else {
      FedCellDisagrees(p);
      hide OneOrderSurvives;
      SmallWitness(p, a - 1, b, b, b, b, b);
    }
  }

  /** What four neighbours at level m bring once their product has wrapped is less than m. */
  lemma WrappedShare(p: Pheromone, m: nat)
    requires PheromoneOk(p) && p.diffNum == p.diffDen && TWO_64 <= (4 * m) * p.diffNum && m <= TWO_63
    ensures Diffused64(p, 0, 4 * m) < m
  {
    var dd: nat, x := p.diffDen, (4 * m) * p.diffNum;
    SpreadIs(p, 0, 4 * m);
    Remainder(x, TWO_64);
    QuotientAtLeast(x, TWO_64, 1);
    assert Mul64(4 * m, dd) <= x - TWO_64 < (4 * m) * dd;
    hide Mul64;
    hide Diffused64;
    FourTimes(4 * m, dd);
    QuotientBelow(Mul64(4 * m, dd), dd, 4 * m);
  }

  /** Four neighbours at the least level that fades to one unit, whose product with DiffNum wraps. */
  lemma FourLeastWrap(p: Pheromone)
    requires PheromoneOk(p) && p.diffNum == p.diffDen && 0 < p.evapNum < p.evapDen
    requires Least(p.evapNum, p.evapDen) <= 2 * p.max && TWO_64 <= (4 * Least(p.evapNum, p.evapDen)) * p.diffNum
    ensures !CellsCommute(p)
  {
    var en: nat, ed: nat := p.evapNum, p.evapDen;
    var m := Least(en, ed);
    LeastAtMostDen(en, ed);
    WrappedShare(p, m);
    var d := Diffused64(p, 0, 4 * m);
    LeastPortion(en, ed, d);
    LeastPortion(en, ed, 0);
    LeastMoves(en, ed);
    hide Least;
    ScaleBoth(m, en, TWO_32 - 1);
    SmallFade(p, d, m);
    SmallFade(p, m, m);
    SmallFade(p, 0, m);
    TotalSpread(p, 0, 4);
    Diffused64Small(p, 0, 4);
    hide Diffused;
    hide Diffused64;
    hide Faded64;
    hide Portion;
    hide CellsCommute;
    assert m + m + m + m == 4 * m;
    OneWitness(p, 0, m, m, m, m);
  }

  lemma TotalSpreadOrders64(p: Pheromone)
    requires PheromoneOk(p) && p.diffNum == p.diffDen && p.evapNum < p.evapDen && !FadesAway64(p)
    ensures !CellsCommute(p)
  {
    var en: nat, ed: nat, m: nat := p.evapNum, p.evapDen, 2 * p.max;
    LeastFits(m, en, ed);
    LeastAtMostDen(en, ed);
    var v := Least(en, ed);
    if TWO_64 <= (4 * v) * p.diffNum {
      FourLeastWrap(p);
    } else {
      FourTimes(m, p.diffNum);
      assert v != m;
      ScaleBoth(en, v, m - 1);
      FourTimes(en, v);
      FourTimes(en, m - 1);
      var n, s, w, e := TotalSpreadDisagrees(p);
      hide Least;
      hide OneOrderSurvives;
      hide CellsCommute;
      BoundedProduct(n + s + w + e, 4 * v, p.diffNum);
      SmallWitness(p, 0, n, s, w, e, v + 1);
    }
  }

  /** Any total of four levels can be spread over four neighbours, the first as high as possible. */
  lemma FourLevels(p: Pheromone, i: nat) returns (n: nat, s: nat, w: nat, e: nat)
    requires i <= 8 * p.max
    ensures InRange(p, n) && InRange(p, s) && InRange(p, w) && InRange(p, e)
    ensures n + s + w + e == i && (n == i || n == 2 * p.max)
  {
    var m: nat := 2 * p.max;
    n := if i < m then i else m;
    s := if i - n < m then i - n else m;
    w := if i - n - s < m then i - n - s else m;
    e := i - n - s - w;
  }

  /** A level that wraps when it is multiplied by EvapNum, although none that a grid holds does. */
  lemma PeakDisagrees(p: Pheromone, j: nat)
    requires PheromoneOk(p) && p.evapNum == p.evapDen && 2 * p.max * p.evapNum < TWO_64
    requires j < 8 && TWO_64 <= Diffused64(p, 2 * p.max, FullestInflow(p, j)) * p.evapNum
    ensures !CellsCommute(p)
  {
    var m: nat, f := 2 * p.max, FullestInflow(p, j);
    var d := Diffused64(p, m, f);
    PeakIsClose(p, f);
    hide FullestInflow;
    hide Diffused64;
    var n, s, w, e := FourLevels(p, f);
    LevelLasts(p, m);
    LevelLasts(p, n);
    LevelLasts(p, s);
    LevelLasts(p, w);
    LevelLasts(p, e);
    WrappedFade(p, d);
    hide Faded64;
    hide CellsCommute;
    OneWitness(p, m, n, s, w, e);
  }

  lemma PeakIsClose(p: Pheromone, f: nat)
    requires PheromoneOk(p) && 2 * p.max * p.evapNum < TWO_64 <= Diffused64(p, 2 * p.max, f) * p.evapNum
    requires f <= 8 * p.max
    ensures 2 * p.max < Diffused64(p, 2 * p.max, f) < 2 * p.max + p.max
  {
    var m: nat := 2 * p.max;
    var d := Diffused64(p, m, f);
    TopBounds(p, m);
    if d <= m {
      BoundedProduct(d, m, p.evapNum);
      assert false;
    }
    if m * p.diffNum < TWO_64 {
      var n, s, w, e := FourLevels(p, f);
      Diffused64AtMost(p, m, f);
      ExactPrinciple(p, m, n, s, w, e, m);
      assert false;
    }
    SpreadIs(p, m, f);
    hide Diffused64;
    ScaleBoth(m, p.diffNum, p.diffDen);
    ShareBelow(p, f, m);
    hide Share64;
  }

  lemma WrappedFade(p: Pheromone, d: nat)
    requires PheromoneOk(p) && p.evapNum == p.evapDen && 2 * p.max * p.evapNum < TWO_64 <= d * p.evapNum
    requires 2 * p.max < d < 2 * p.max + p.max
    ensures Faded64(p, d) < p.max
  {
    var en: nat, m: nat := p.evapNum, 2 * p.max;
    Remainder(d * en, TWO_64);
    QuotientAtLeast(d * en, TWO_64, 1);
    assert Mul64(d, en) <= d * en - TWO_64;
    hide Mul64;
    DistributeOver(en, d, m, 0);
    FourTimes(en, d);
    FourTimes(en, m);
    FourTimes(en, d - m);
    ScaleBoth(en, d - m, p.max);
    QuotientBelow(Mul64(d, en), en, p.max);
  }

  // Levels that wrap when they fade, against levels that wrap when they spread.

  lemma NothingIsShared(p: Pheromone)
    requires PheromoneOk(p)
    ensures Out64(p, 0) == 0 && Share64(p, 0) == 0 && Faded64(p, 0) == 0
  {
    Mul64Small(0, p.diffNum);
    Mul64Small(0, p.evapNum);
    PortionZero(p.diffNum, p.diffDen);
    PortionZero(p.evapNum, p.evapDen);
  }

  /** One turn, alone: it fades to nothing, and what it leaves when it spreads first does not. */
  lemma OneTurnLeaves(p: Pheromone)
    requires Turning(p) && 0 < Out64(p, Turn(p.evapNum)) < Turn(p.evapNum)
    ensures !CellsCommute(p)
  {
    var k := Turn(p.evapNum);
    TurnFacts(p);
    TopBounds(p, k);
    FadesToRest(p, k);
    NothingIsShared(p);
    SpreadIs(p, k, 0);
    SpreadIs(p, 0, 0);
    var d := k - Out64(p, k);
    FadesToRest(p, d);
    hide Out64;
    hide Share64;
    hide Diffused64;
    hide Faded64;
    hide Turn;
    hide CellsCommute;
    OneWitness(p, k, 0, 0, 0, 0);
  }

  /** One turn beside an empty cell that takes a quarter of it. */
  lemma OneTurnSpreads(p: Pheromone)
    requires Turning(p) && Out64(p, Turn(p.evapNum)) == Turn(p.evapNum)
    ensures !CellsCommute(p)
  {
    var k := Turn(p.evapNum);
    TurnFacts(p);
    FadesToRest(p, k);
    NothingIsShared(p);
    SpreadIs(p, 0, k);
    SpreadIs(p, 0, 0);
    FadesToRest(p, k / 4);
    FadesToRest(p, 0);
    hide Out64;
    hide Diffused64;
    hide Faded64;
    hide Turn;
    hide CellsCommute;
    OneWitness(p, 0, k, 0, 0, 0);
  }

  /** If one turn gives nothing away, the two products wrap together. */
  lemma SameTurn(p: Pheromone)
    requires Turning(p) && !NeverMoves(p) && Out64(p, Turn(p.evapNum)) == 0
    ensures p.diffNum == p.evapNum
  {
    var k, dn: nat, en: nat := Turn(p.evapNum), p.diffNum, p.evapNum;
    TurnFacts(p);
    TopBounds(p, k);
    WrapsOnce(k, dn);
    Remainder(Mul64(k, dn), p.diffDen);
    assert Mul64(k, dn) < p.diffDen;
    hide Mul64;
    hide Out64;
    if dn == 0 {
      assert false;
    }
    ScaleBoth(k, 1, dn);
    if dn < en {
      ScaleBoth(k, dn, en - 1);
      FourTimes(k, en - 1);
      DistributeOver(k, en, 1, 0);
      assert false;
    }
    if en < dn {
      ScaleBoth(k, en, dn - 1);
      DistributeOver(k, dn, 1, 0);
      assert false;
    }
  }

  /** What a level above one turn gives away, given what the rest does. */
  lemma OutAboveTurn(p: Pheromone, v: nat)
    requires Turning(p) && p.diffNum == p.evapNum && InRange(p, v) && Turn(p.evapNum) <= v
    ensures var y := v - Turn(p.evapNum); Out64(p, y) <= Out64(p, v) <= Out64(p, y) + 1 && Out64(p, v) <= y
  {
    var k, dn: nat, dd: nat := Turn(p.evapNum), p.diffNum, p.diffDen;
    var y := v - k;
    TurnFacts(p);
    TopBounds(p, v);
    BelowTurn(dn, y);
    Mul64Small(y, dn);
    WrapsOnce(v, dn);
    DistributeOver(dn, v, k, 0);
    FourTimes(dn, v);
    FourTimes(dn, k);
    FourTimes(dn, y);
    ScaleBoth(dn, k, v);
    hide Mul64;
    var a, b := y * dn, v * dn - TWO_64;
    DivMonotone(a, b, dd);
    QuotientDrops(a, b, 1, dd);
    ScaleBoth(y + 1, dn, dd);
    assert (y + 1) * dn == a + dn;
    FourTimes(y + 1, dd);
    QuotientBelow(b, dd, y + 1);
  }

  lemma LevelOutOfStep(p: Pheromone, v: nat)
    requires Turning(p) && p.diffNum == p.evapNum && InRange(p, v) && Out64(p, v) != Out64(p, v % Turn(p.evapNum))
    ensures !CellsCommute(p)
  {
    var k := Turn(p.evapNum);
    TurnFacts(p);
    FadesToRest(p, v);
    assert k <= v;
    var y := v - k;
    OutAboveTurn(p, v);
    TopBounds(p, v);
    NothingIsShared(p);
    SpreadIs(p, v, 0);
    SpreadIs(p, y, 0);
    FadesToRest(p, v - Out64(p, v));
    hide Out64;
    hide Share64;
    hide Diffused64;
    hide Faded64;
    hide Turn;
    hide CellsCommute;
    OneWitness(p, v, 0, 0, 0, 0);
  }

  /** Four neighbours that bring another amount once they have faded. */
  lemma SharesDiffer(p: Pheromone, n: nat, s: nat, w: nat, e: nat)
    requires Turning(p) && p.diffNum == p.evapNum && AllInRange(p, 0, n, s, w, e)
    requires Share64(p, n + s + w + e) != Share64(p, Faded64(p, n) + Faded64(p, s) + Faded64(p, w) + Faded64(p, e))
    ensures !CellsCommute(p)
  {
    var i, f := n + s + w + e, Faded64(p, n) + Faded64(p, s) + Faded64(p, w) + Faded64(p, e);
    ScaleBoth(2 * p.max, p.evapNum, p.diffDen);
    ShareBelow(p, i, 2 * p.max);
    ShareBelow(p, f, 2 * p.max);
    NothingIsShared(p);
    SpreadIs(p, 0, i);
    SpreadIs(p, 0, f);
    TurnFacts(p);
    FadesToRest(p, Share64(p, i));
    hide Out64;
    hide Share64;
    hide Diffused64;
    hide Faded64;
    hide Turn;
    hide CellsCommute;
    OneWitness(p, 0, n, s, w, e);
  }

  lemma InflowOutOfStep(p: Pheromone, i: nat)
    requires Turning(p) && p.diffNum == p.evapNum && i <= 8 * p.max
    requires Share64(p, i) != Share64(p, i % Turn(p.evapNum))
    ensures !CellsCommute(p)
    decreases i
  {
    var n, s, w, e := FourLevels(p, i);
    var f := Faded64(p, n) + Faded64(p, s) + Faded64(p, w) + Faded64(p, e);
    hide CellsCommute;
    if Share64(p, i) != Share64(p, f) {
      SharesDiffer(p, n, s, w, e);
    } else {
      hide Share64;
      FadedSum(p, n, s, w, e);
      TurnFacts(p);
      SmallShare(i, Turn(p.evapNum));
      FadesToRest(p, n);
      FadesToRest(p, s);
      FadesToRest(p, w);
      FadesToRest(p, e);
      hide Faded64;
      hide Turn;
      InflowOutOfStep(p, f);
    }
  }

  lemma SmallShare(i: nat, k: nat)
    ensures i < k ==> i % k == i
  {
    if i < k {
      SmallMod(i, k);
    }
  }

  lemma TurningOrders(p: Pheromone)
    requires Turning(p) && !NeverMoves(p) && !InStep(p)
    ensures !CellsCommute(p)
  {
    var k := Turn(p.evapNum);
    TurnFacts(p);
    TopBounds(p, k);
    SpreadIs(p, k, 0);
    hide Diffused64;
    hide CellsCommute;
    hide Out64;
    hide Share64;
    if 0 < Out64(p, k) < k {
      OneTurnLeaves(p);
    } else if Out64(p, k) == k {
      OneTurnSpreads(p);
    } else {
      SameTurn(p);
      if v: nat :| v <= 2 * p.max && Out64(p, v) != Out64(p, v % k) {
        LevelOutOfStep(p, v);
      } else {
        var i: nat :| i <= 8 * p.max && Share64(p, i) != Share64(p, i % k);
        InflowOutOfStep(p, i);
      }
    }
  }

  lemma OrdersDisagree(p: Pheromone)
    requires PheromoneOk(p) && !OrderFree(p)
    ensures !CellsCommute(p)
  {
    hide CellsCommute;
    hide NeverMoves;
    hide FadesAway64;
    hide InStep;
    hide Diffused64;
    if p.evapNum < p.evapDen {
      if p.diffNum < p.diffDen {
        SlowSpreadOrders(p);
      } else {
        TotalSpreadOrders64(p);
      }
    } else if 2 * p.max * p.evapNum < TWO_64 {
      var j: nat :| j < 8 && TWO_64 <= Diffused64(p, 2 * p.max, FullestInflow(p, j)) * p.evapNum;
      PeakDisagrees(p, j);
    } else {
      TurningOrders(p);
    }
  }

  /**
   "Scaling after spreading equals spreading after scaling", as decayGrid computes
   both on uint64, and on every levels a grid can hold. It is true, of the level
   computed as of the level stored, exactly when no level is large enough to spread,
   when all of them fade away, or when nothing evaporates and wrapping does no harm.
   */
  lemma OrdersCommuteExactly(p: Pheromone)
    requires PheromoneOk(p)
    ensures Commutes64(p) <==> OrderFree(p)
    ensures CellsCommute(p) <==> OrderFree(p)
  {
    if OrderFree(p) {
      forall v: nat, n: nat, s: nat, w: nat, e: nat | AllInRange(p, v, n, s, w, e)
        ensures SpreadFirst(p, v, n, s, w, e) == FadedFirst(p, v, n, s, w, e)
      {
        OrdersAgree(p, v, n, s, w, e);
      }
      hide OrderFree;
      CommutesStored(p);
    } else {
      OrdersDisagree(p);
      hide OrderFree;
      if Commutes64(p) {
        CommutesStored(p);
      }
    }
  }

  lemma CommutesStored(p: Pheromone)
    requires PheromoneOk(p) && Commutes64(p)
    ensures CellsCommute(p)
  {
    hide SpreadFirst;
    hide FadedFirst;
    hide Cell;
    hide Stored;
    forall v: nat, n: nat, s: nat, w: nat, e: nat | AllInRange(p, v, n, s, w, e)
      ensures Cell(p, v, n + s + w + e) == Stored(p, FadedFirst(p, v, n, s, w, e))
    {
      StoredIsCell(p, v, n, s, w, e);
    }
  }

  // The condition at closer range.

  /** If no product of a level with DiffNum wraps, peaks are no higher than levels. */
  lemma PeaksAreLevels(p: Pheromone)
    requires PheromoneOk(p) && 2 * p.max * p.diffNum < TWO_64 && 2 * p.max * p.evapNum < TWO_64
    ensures PeaksFit(p)
  {
    forall j: nat | j < 8
      ensures Diffused64(p, 2 * p.max, FullestInflow(p, j)) * p.evapNum < TWO_64
    {
      if TWO_64 <= Diffused64(p, 2 * p.max, FullestInflow(p, j)) * p.evapNum {
        LowPeak(p, FullestInflow(p, j));
        assert false;
      }
    }
  }

  lemma LowPeak(p: Pheromone, f: nat)
    requires PheromoneOk(p) && 2 * p.max * p.diffNum < TWO_64 && 2 * p.max * p.evapNum < TWO_64 && f <= 8 * p.max
    ensures Diffused64(p, 2 * p.max, f) * p.evapNum < TWO_64
  {
    hide Diffused64;
    hide Diffused;
    hide Exact;
    var m: nat := 2 * p.max;
    var n, s, w, e := FourLevels(p, f);
    Diffused64AtMost(p, m, f);
    ExactPrinciple(p, m, n, s, w, e, m);
    BoundedProduct(Diffused64(p, m, f), m, p.evapNum);
  }

  /** As long as no product of a level with DiffNum wraps, four comparisons decide. */
  lemma OrdersCommuteSimply(p: Pheromone)
    requires PheromoneOk(p)
    ensures 2 * p.max * p.diffNum < TWO_64 ==>
      (Commutes64(p) <==> NeverMoves(p) || FadesAway64(p) || (p.evapNum == p.evapDen && 2 * p.max * p.evapNum < TWO_64))
  {
    OrdersCommuteExactly(p);
    hide Commutes64;
    hide CellsCommute;
    hide NeverMoves;
    hide FadesAway64;
    if 2 * p.max * p.diffNum < TWO_64 && 2 * p.max * p.evapNum < TWO_64 {
      PeaksAreLevels(p);
    }
    hide PeaksFit;
  }

  /** If all fade on uint64, all fade; if no product wraps, conversely. */
  lemma FadesAwayRelates(p: Pheromone)
    requires PheromoneOk(p)
    ensures FadesAway64(p) ==> FadesAway(p)
    ensures FitsWord(p) && FadesAway(p) ==> FadesAway64(p)
  {
    DistributeOver(p.evapNum, 2 * p.max, 1, 0);
    FourTimes(p.evapNum, 2 * p.max);
    FourTimes(p.evapNum, 2 * p.max - 1);
  }

  /** Orders that agree on uint64 agree on unbounded integers, and where nothing wraps conversely. */
  lemma CommutesOnUnbounded(p: Pheromone)
    requires PheromoneOk(p)
    ensures Commutes64(p) ==> Commutes(p)
    ensures FitsWord(p) ==> (Commutes64(p) <==> Commutes(p))
  {
    OrdersCommuteSimply(p);
    OrdersCommuteExactly(p);
    CommutesExactly(p);
    FadesAwayRelates(p);
    hide Commutes64;
    hide Commutes;
    hide CellsCommute;
    hide PeaksFit;
    hide InStep;
    hide FadesAway;
    hide FadesAway64;
    if FitsWord(p) {
      ScaleBoth(p.diffNum, 2 * p.max, 8 * p.max);
      FourTimes(p.diffNum, 2 * p.max);
      FourTimes(p.diffNum, 8 * p.max);
    }
  }

  /** Parameters that pass Validate, under which nothing evaporates and levels wrap. */
  const NO_FADE := Pheromone(1, 1, 0xFFFF_FFFF, 0xFFFF_FFFF, 1, 2, 0xFFFF_FFFF)

  lemma NoFadeFades()
    ensures Faded64(NO_FADE, 0xFFFF_FFFF) == 0xFFFF_FFFF && Faded64(NO_FADE, 0x1_FFFF_FFFE) == 0xFFFF_FFFC
  {
    assert 0xFFFF_FFFF * 0xFFFF_FFFF == 0xFFFF_FFFE_0000_0001;
    assert 0x1_0000_0002 * 0xFFFF_FFFF == 0x1_0000_0000_FFFF_FFFE;
    assert 0x1_FFFF_FFFE * 0xFFFF_FFFF == 0x1_FFFF_FFFC_0000_0002;
    hide Faded64;
    FadesNot(NO_FADE, 0xFFFF_FFFF);
    TurnUnique(0xFFFF_FFFF, 0x1_0000_0002);
    hide Turn;
    FadedTurns(NO_FADE, 0x1_FFFF_FFFE);
  }

  /** With them half of a level spreads. */
  lemma NoFadeSpreads(v: nat)
    requires v < TWO_63
    ensures Diffused64(NO_FADE, v, 0) == v - v / 2
  {
    SpreadIs(NO_FADE, v, 0);
    NothingIsShared(NO_FADE);
    Mul64Small(v, 1);
    hide Diffused64;
    hide Mul64;
    hide Share64;
  }

  /** On unbounded integers the two orders agree with them; on uint64 a lone cell at 2 * Max tells them apart. */
  lemma NoFadeDoesNotCommute()
    ensures PheromoneOk(NO_FADE) && Commutes(NO_FADE) && !Commutes64(NO_FADE)
    ensures InRange(NO_FADE, 2 * NO_FADE.max)
    ensures SpreadFirst(NO_FADE, 2 * NO_FADE.max, 0, 0, 0, 0) == 4294967295
    ensures FadedFirst(NO_FADE, 2 * NO_FADE.max, 0, 0, 0, 0) == 2147483646
  {
    CommutesExactly(NO_FADE);
    NoFadeFades();
    NoFadeSpreads(0x1_FFFF_FFFE);
    NoFadeSpreads(0xFFFF_FFFC);
    NothingIsShared(NO_FADE);
    hide Commutes;
    hide Faded64;
    hide Diffused64;
    assert AllInRange(NO_FADE, 0x1_FFFF_FFFE, 0, 0, 0, 0);
    assert SpreadFirst(NO_FADE, 0x1_FFFF_FFFE, 0, 0, 0, 0) == 4294967295;
    assert FadedFirst(NO_FADE, 0x1_FFFF_FFFE, 0, 0, 0, 0) == 2147483646;
  }

  /** With the bundled parameters, a level of 1 between four of 9 is stored as 1, and would be as 0 if it faded first. */
  lemma ScenarioOrders()
    ensures SpreadFirst(SCENARIO, 1, 9, 9, 9, 9) == 1 && FadedFirst(SCENARIO, 1, 9, 9, 9, 9) == 0
    ensures !Commutes64(SCENARIO) && !CellsCommute(SCENARIO)
  {
    hide *;
    ScenarioDoesNotCommute();
    ScenarioIsSmall();
    ScenarioWitness();
  }

  lemma ScenarioIsSmall()
    ensures SpreadFirst(SCENARIO, 1, 9, 9, 9, 9) == SpreadThenEvaporate(SCENARIO, 1, 9, 9, 9, 9)
    ensures FadedFirst(SCENARIO, 1, 9, 9, 9, 9) == EvaporateThenSpread(SCENARIO, 1, 9, 9, 9, 9)
  {
    hide SpreadFirst;
    hide FadedFirst;
    hide SpreadThenEvaporate;
    hide EvaporateThenSpread;
    SmallOrders(SCENARIO, 1, 9, 9, 9, 9, 9);
  }

  lemma ScenarioWitness()
    requires SpreadFirst(SCENARIO, 1, 9, 9, 9, 9) == 1 && FadedFirst(SCENARIO, 1, 9, 9, 9, 9) == 0
    ensures !Commutes64(SCENARIO) && !CellsCommute(SCENARIO)
  {
    hide SpreadFirst;
    hide FadedFirst;
    assert AllInRange(SCENARIO, 1, 9, 9, 9, 9);
    OneWitness(SCENARIO, 1, 9, 9, 9, 9);
    hide CellsCommute;
  }

  // Both products wrapping in step, when everything spreads and nothing evaporates.

  /** What is left over when one turn's product has wrapped. */
  function Carry(k: nat): (r: nat)
    requires 0 < k < TWO_32
    ensures r < k
  {
    Turn(k) * k - TWO_64
  }

  predicate AllTurns(p: Pheromone) {
    Turning(p) && p.diffNum == p.diffDen && p.diffNum == p.evapNum
  }

  lemma CarriesStaySmall(p: Pheromone, i: nat)
    requires AllTurns(p) && i <= 8 * p.max
    requires ((8 * p.max + 1) / Turn(p.evapNum)) * Carry(p.evapNum) < p.evapNum
    ensures Out64(p, i) == i % Turn(p.evapNum)
  {
    var en: nat, k, r := p.evapNum, Turn(p.evapNum), Carry(p.evapNum);
    var u, t, y := (8 * p.max + 1) / k, i / k, i % k;
    Remainder(i, k);
    DivBelow(i, k);
    Remainder(8 * p.max + 1, k);
    assert TWO_64 <= k * en && k * en - TWO_64 == r;
    hide Turn;
    hide Carry;
    FourTimes(k, t);
    if y == k - 1 {
      FourTimes(k, t + 1);
      MulDistributes(k, t, 1);
      QuotientAtLeast(8 * p.max + 1, k, t + 1);
      ScaleBoth(r, t + 1, u);
      FourTimes(r, t + 1);
      MulDistributes(r, t, 1);
    } else {
      QuotientAtLeast(8 * p.max + 1, k, t);
      ScaleBoth(r, t, u);
      ScaleBoth(en, y, k - 2);
      FourTimes(en, k - 2);
      DistributeOver(en, k, 2, 0);
    }
    FourTimes(r, u);
    FourTimes(r, t);
    FourTimes(en, y);
    FourTimes(en, k);
    CarriedProduct(i, en, k, t, y, r);
    ScaleBoth(t, 0, r);
    ScaleBoth(y, 0, en);
    DistributeOver(en, k, 1, 0);
    FourTimes(en, k - 1);
    ModUnique(i * en, TWO_64, t, y * en + t * r);
    ModUnique(y * en + t * r, en, y, t * r);
  }

  lemma CarriedProduct(i: nat, en: nat, k: nat, t: nat, y: nat, r: nat)
    requires i == k * t + y && k * en == TWO_64 + r
    ensures i * en == TWO_64 * t + (y * en + t * r)
  {
    assert i * en == (k * en) * t + y * en;
    assert (TWO_64 + r) * t == TWO_64 * t + r * t;
  }

  lemma RestOfTurn(p: Pheromone, y: nat)
    requires AllTurns(p) && y < Turn(p.evapNum)
    ensures Out64(p, y) == y
  {
    BelowTurn(p.evapNum, y);
    FadesNot(p, y);
  }

  /** The fewest turns whose carries add up to one unit fit into the inflows if the most turns do. */
  lemma FewestTurns(q: nat, r: nat, en: nat) returns (u: nat)
    requires r < en <= q * r
    ensures 1 < u <= q && en <= u * r < en + r
  {
    FourTimes(q, r);
    if r == 0 {
      assert false;
    }
    LeastFits(q, r, en);
    u := Least(r, en);
    DistributeOver(r, u, 1, 0);
    FourTimes(r, u);
    FourTimes(r, u - 1);
    hide Least;
  }

  /** One level under as many turns as make a carry: everything is cut off. */
  lemma CutOff(p: Pheromone, u: nat)
    requires AllTurns(p) && u > 0
    requires var r := Carry(p.evapNum); p.evapNum <= u * r < p.evapNum + r
    ensures Turn(p.evapNum) * u > 0 && Out64(p, Turn(p.evapNum) * u - 1) == 0
  {
    var en: nat, k, r := p.evapNum, Turn(p.evapNum), Carry(p.evapNum);
    assert k * en == TWO_64 + r;
    hide Turn;
    hide Carry;
    ScaleBoth(k, 1, u);
    var i: nat := k * u - 1;
    CarriedProduct(k * u, en, k, u, 0, r);
    FourTimes(i, en);
    FourTimes(k * u, en);
    DistributeOver(en, k * u, 1, 0);
    ModUnique(i * en, TWO_64, u, u * r - en);
    assert Mul64(i, en) < en;
    hide Mul64;
    QuotientBelow(Mul64(i, en), en, 1);
  }

  lemma CarryBreaks(p: Pheromone)
    requires AllTurns(p) && p.evapNum <= ((8 * p.max + 1) / Turn(p.evapNum)) * Carry(p.evapNum)
    ensures !InStep(p)
  {
    var en: nat, k, m: nat := p.evapNum, Turn(p.evapNum), 8 * p.max + 1;
    Remainder(m, k);
    DivBelow(m, k);
    var q: nat := m / k;
    var u := FewestTurns(q, Carry(en), en);
    CutOff(p, u);
    RestOfTurn(p, k - 1);
    hide Turn;
    hide Carry;
    hide Out64;
    var i: nat := k * u - 1;
    ScaleBoth(k, u, q);
    DistributeOver(k, u, 1, 0);
    ModUnique(i, k, u - 1, k - 1);
    assert Share64(p, i) == 0 && Share64(p, i % k) > 0;
  }

  /** When everything spreads, wrapping does no harm exactly if all the carries together stay below one unit. */
  lemma InStepUnderTotalSpread(p: Pheromone)
    requires AllTurns(p)
    ensures InStep(p) <==> ((8 * p.max + 1) / Turn(p.evapNum)) * Carry(p.evapNum) < p.evapNum
  {
    var k := Turn(p.evapNum);
    if ((8 * p.max + 1) / k) * Carry(p.evapNum) < p.evapNum {
      forall v: nat | v <= 8 * p.max
        ensures Out64(p, v) == v % k == Out64(p, v % k)
      {
        CarriesStaySmall(p, v);
        Remainder(v, k);
        RestOfTurn(p, v % k);
      }
      hide Out64;
      hide Turn;
    } else {
      CarryBreaks(p);
    }
  }

  lemma TurnUnique(k: nat, q: nat)
    requires 0 < k < TWO_32 && TWO_64 <= q * k < TWO_64 + k
    ensures q == Turn(k)
  {
    if q < Turn(k) {
      BelowTurn(k, q);
      assert false;
    }
    if Turn(k) < q {
      ScaleBoth(k, Turn(k), q - 1);
      FourTimes(k, Turn(k));
      FourTimes(k, q - 1);
      FourTimes(k, q);
      DistributeOver(k, q, 1, 0);
      assert false;
    }
  }

  /** Parameters that pass Validate, under which both products wrap in step. */
  const IN_STEP := Pheromone(1, 1, 0xFFFF_0001, 0xFFFF_0001, 0xFFFF_0001, 0xFFFF_0001, 0xFFFF_FFFF)

  /** So levels may wrap in both products and the two orders still agree everywhere. */
  lemma WrappingMayCommute()
    ensures PheromoneOk(IN_STEP) && Commutes64(IN_STEP) && TWO_64 <= 2 * IN_STEP.max * IN_STEP.evapNum
  {
    hide Commutes64;
    hide CellsCommute;
    hide InStep;
    var k := 0x1_0001_0000;
    assert k * 0xFFFF_0001 == 0x1_0000_0000_0001_0000;
    TurnUnique(0xFFFF_0001, k);
    hide Turn;
    InStepUnderTotalSpread(IN_STEP);
    OrdersCommuteExactly(IN_STEP);
  }
}
