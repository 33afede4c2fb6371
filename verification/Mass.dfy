/**
 Whether spreading conserves a field's mass: exactly when no level it holds is
 large enough to move. Rounding destroys mass at the edges and can create it inside.
 */
module Mass {
  import opened Words
  import opened Config
  import opened Stencil
  import opened Grid

  /** Every cell holds a level decay can read. */
  predicate Held(p: Pheromone, f: seq<nat>) {
    forall i :: 0 <= i < |f| ==> InRange(p, f[i])
  }

  /** Spreading keeps the total of every field a w by h grid can hold. */
  ghost predicate Conserves(p: Pheromone, w: int, h: int)
    requires PheromoneOk(p) && w > 0
  {
    forall f: seq<nat> :: |f| == w * h && Held(p, f) ==> Sum(Spread(p, w, h, f)) == Sum(f)
  }

  /** The same for fields of any level. */
  ghost predicate ConservesAnyLevel(p: Pheromone, w: int, h: int)
    requires PheromoneOk(p) && w > 0
  {
    forall f: seq<nat> :: |f| == w * h ==> Sum(Spread(p, w, h, f)) == Sum(f)
  }

  /** Spreading never increases the total of any field a w by h grid can hold. */
  ghost predicate NeverGains(p: Pheromone, w: int, h: int)
    requires PheromoneOk(p) && w > 0
  {
    forall f: seq<nat> :: |f| == w * h && Held(p, f) ==> Sum(Spread(p, w, h, f)) <= Sum(f)
  }

  /** Conservation for the uint64 rule. */
  ghost predicate Conserves64(p: Pheromone, w: int, h: int)
    requires PheromoneOk(p) && w > 0
  {
    forall f: seq<nat> :: |f| == w * h && Held(p, f) ==> Sum(Spread64(p, w, h, f)) == Sum(f)
  }

  ghost predicate NeverGains64(p: Pheromone, w: int, h: int)
    requires PheromoneOk(p) && w > 0
  {
    forall f: seq<nat> :: |f| == w * h && Held(p, f) ==> Sum(Spread64(p, w, h, f)) <= Sum(f)
  }

  /** Where no product can wrap, the uint64 rule spreads exactly. */
  lemma SmallFieldIsExact(p: Pheromone, w: int, h: int, f: seq<nat>, m: nat)
    requires PheromoneOk(p) && w > 0 && |f| == w * h && m < TWO_63 && 4 * m * p.diffNum < TWO_64
    requires forall i :: 0 <= i < |f| ==> f[i] <= m
    ensures Spread64(p, w, h, f) == Spread(p, w, h, f)
  {
    forall i | 0 <= i < |f|
      ensures Spread64(p, w, h, f)[i] == Spread(p, w, h, f)[i]
    {
      InflowAtMost(w, h, f, i, m);
      hide Inflow;
      hide Diffused;
      hide Diffused64;
      SmallCellIsExact(p, f[i], Inflow(w, h, f, i), m);
    }
  }

  // Still fields.

  lemma InflowAtMost(w: int, h: int, f: seq<nat>, i: nat, m: nat)
    requires w > 0 && |f| == w * h && i < |f| && forall j :: 0 <= j < |f| ==> f[j] <= m
    ensures Inflow(w, h, f, i) <= 4 * m
  {
    hide Level;
    var x, y := i % w, i / w;
    LevelBound(w, h, f, x, y - 1, m);
    LevelBound(w, h, f, x, y + 1, m);
    LevelBound(w, h, f, x - 1, y, m);
    LevelBound(w, h, f, x + 1, y, m);
  }

  /** Where no level can move, spreading changes nothing. */
  lemma StillField(p: Pheromone, w: int, h: int, f: seq<nat>)
    requires PheromoneOk(p) && w > 0 && |f| == w * h && Held(p, f) && NeverMoves(p)
    ensures Spread(p, w, h, f) == f
  {
    forall i | 0 <= i < |f|
      ensures Spread(p, w, h, f)[i] == f[i]
    {
      InflowAtMost(w, h, f, i, 2 * p.max);
      hide Inflow;
      hide Diffused;
      StillCell(p, f[i], Inflow(w, h, f, i));
    }
  }

  /** Without a rate, spreading changes nothing at any level. */
  lemma NoRateField(p: Pheromone, w: int, h: int, f: seq<nat>)
    requires PheromoneOk(p) && w > 0 && |f| == w * h && p.diffNum == 0
    ensures Spread(p, w, h, f) == f
  {
    forall i | 0 <= i < |f|
      ensures Spread(p, w, h, f)[i] == f[i]
    {
      PortionZero(f[i], p.diffDen);
      PortionZero(Inflow(w, h, f, i), p.diffDen);
    }
  }

  // A corner always loses.

  /** One level in the corner, nothing elsewhere. */
  function CornerField(w: int, h: int, v: nat): (f: seq<nat>)
    requires w > 0 && h > 0
    ensures |f| == w * h > 0 && f[0] == v && forall i :: 0 < i < |f| ==> f[i] == 0
  {
    ProductPositive(w, h);
    seq(w * h, i => if i == 0 then v else 0)
  }

  lemma CornerLevel(w: int, h: int, v: nat, x: int, y: int)
    requires w > 0 && h > 0
    ensures Level(w, h, CornerField(w, h, v), x, y) == if x == 0 && y == 0 then v else 0
  {
    if Inside(w, h, x, y) {
      IdxRoundTrip(w, h, x, y);
      IdxRoundTrip(w, h, 0, 0);
    }
  }

  predicate BesideCorner(x: int, y: int) {
    (x == 1 && y == 0) || (x == 0 && y == 1)
  }

  lemma CornerInflow(w: int, h: int, v: nat, i: nat)
    requires w > 0 && h > 0 && i < w * h
    ensures Inflow(w, h, CornerField(w, h, v), i) == if BesideCorner(i % w, i / w) then v else 0
  {
    hide Level;
    hide CornerField;
    var f, x, y := CornerField(w, h, v), i % w, i / w;
    IdxCovers(w, h, i);
    InflowParts(w, h, f, i, x, y);
    hide Inflow;
    CornerLevel(w, h, v, x, y - 1);
    CornerLevel(w, h, v, x, y + 1);
    CornerLevel(w, h, v, x - 1, y);
    CornerLevel(w, h, v, x + 1, y);
    hide Idx;
  }

  /** The corner keeps v - k; its at most two neighbours, at addresses 1 and w, get a quarter of k each. */
  function CornerAfter(n: nat, w: nat, v: int, q: int): (s: seq<int>)
    requires n > 0
    ensures |s| == n
  {
    seq(n, i => if i == 0 then v else if i == 1 || i == w then q else 0)
  }

  lemma CornerSum(n: nat, w: nat, v: int, q: nat)
    requires n > 0 && w > 0
    ensures Sum(CornerAfter(n, w, v, q)) <= v + 2 * q
  {
    var z := seq(n, i => 0);
    SumZero(z);
    SumUpdate(z, 0, v);
    var a := z[0 := v];
    var b := if n > 1 then a[1 := q] else a;
    if n > 1 {
      SumUpdate(a, 1, q);
    }
    var c := if 1 < w < n then b[w := q] else b;
    if 1 < w < n {
      SumUpdate(b, w, q);
    }
    assert c == CornerAfter(n, w, v, q);
  }

  lemma CornerCell(p: Pheromone, w: int, h: int, v: nat, i: nat)
    requires PheromoneOk(p) && w > 0 && h > 0 && i < w * h
    ensures var k := Portion(v, p.diffNum, p.diffDen);
      k <= v && Spread(p, w, h, CornerField(w, h, v))[i] <= CornerAfter(w * h, w, v - k, k / 4)[i]
  {
    CornerInflow(w, h, v, i);
    PortionAtMost(v, p.diffNum, p.diffDen);
    PortionZero(p.diffNum, p.diffDen);
    hide Inflow;
    hide Portion;
    IdxCovers(w, h, i);
    if BesideCorner(i % w, i / w) {
      BesideAddress(w, i);
    }
  }

  lemma BesideAddress(w: int, i: nat)
    requires w > 0 && BesideCorner(i % w, i / w)
    ensures i == 1 || i == w
    ensures i != 0
  {
    assert i == w * (i / w) + i % w;
  }

  /** A corner that gives k away and whose neighbours get a quarter of k each at most loses mass. */
  lemma CornerShrinks(w: int, h: int, v: nat, k: nat, g: seq<nat>)
    requires w > 0 && h > 0 && 0 < k <= v && |g| == w * h > 0
    requires forall i :: 0 <= i < |g| ==> g[i] <= CornerAfter(w * h, w, v - k, k / 4)[i]
    ensures Sum(g) < Sum(CornerField(w, h, v))
  {
    hide CornerAfter;
    hide CornerField;
    SumBelow(g, CornerAfter(w * h, w, v - k, k / 4));
    CornerSum(w * h, w, v - k, k / 4);
    OnlyFirst(CornerField(w, h, v));
  }

  /** A corner level that moves at all loses mass: it gives k and gets back at most k / 2. */
  lemma CornerLoses(p: Pheromone, w: int, h: int, v: nat)
    requires PheromoneOk(p) && w > 0 && h > 0 && Portion(v, p.diffNum, p.diffDen) > 0
    ensures Sum(Spread(p, w, h, CornerField(w, h, v))) < Sum(CornerField(w, h, v))
  {
    var f, k := CornerField(w, h, v), Portion(v, p.diffNum, p.diffDen);
    PortionAtMost(v, p.diffNum, p.diffDen);
    hide Portion;
    hide CornerAfter;
    forall i | 0 <= i < |f|
      ensures Spread(p, w, h, f)[i] <= CornerAfter(w * h, w, v - k, k / 4)[i]
    {
      CornerCell(p, w, h, v, i);
    }
    hide Spread;
    CornerShrinks(w, h, v, k, Spread(p, w, h, f));
  }

  lemma OnlyFirst(f: seq<nat>)
    requires |f| > 0 && forall i :: 0 < i < |f| ==> f[i] == 0
    ensures Sum(f) == f[0]
  {
    var z := f[0 := 0];
    SumZero(z);
    SumUpdate(z, 0, f[0]);
    assert z[0 := f[0]] == f;
  }

  /**
   "A correct conservative diffusion stencil": on every grid, the total of every
   field it can hold is kept exactly when no level up to 2 * Max is large enough
   to move, that is 2 * Max * DiffNum < DiffDen.
   */
  lemma ConservesExactlyWhenStill(p: Pheromone, w: int, h: int)
    requires PheromoneOk(p) && w > 0 && h > 0
    ensures Conserves(p, w, h) <==> NeverMoves(p)
    ensures Conserves64(p, w, h) <==> NeverMoves(p)
  {
    hide Spread;
    hide Spread64;
    if NeverMoves(p) {
      forall f: seq<nat> | |f| == w * h && Held(p, f)
        ensures Sum(Spread(p, w, h, f)) == Sum(f) == Sum(Spread64(p, w, h, f))
      {
        StillField(p, w, h, f);
        SmallFieldIsExact(p, w, h, f, 2 * p.max);
      }
    } else {
      LeastMover(p, w, h);
    }
  }

  /** The least level that moves, alone in the corner, is lost under both rules. */
  lemma LeastMover(p: Pheromone, w: int, h: int)
    requires PheromoneOk(p) && w > 0 && h > 0 && !NeverMoves(p)
    ensures var f := CornerField(w, h, Least(p.diffNum, p.diffDen));
      Held(p, f) && Sum(Spread(p, w, h, f)) < Sum(f) && Sum(Spread64(p, w, h, f)) < Sum(f)
  {
    var dn: nat, dd: nat := p.diffNum, p.diffDen;
    if dn == 0 {
      assert false;
    }
    LeastFits(2 * p.max, dn, dd);
    var v := Least(dn, dd);
    assert (v - 1) * dn == v * dn - dn;
    hide Least;
    PortionPositive(v, dn, dd);
    CornerLoses(p, w, h, v);
    FourTimes(v, dn);
    assert 4 * v * dn == 4 * (v * dn);
    SmallFieldIsExact(p, w, h, CornerField(w, h, v), v);
    hide Spread;
    hide Spread64;
  }

  lemma PortionPositive(v: nat, num: nat, den: nat)
    requires den > 0 && v * num >= den
    ensures Portion(v, num, den) > 0
  {
    QuotientAtLeast(v * num, den, 1);
  }

  /** For fields of any level, conservation means that nothing spreads at all. */
  lemma ConservesAnyLevelExactlyWithoutRate(p: Pheromone, w: int, h: int)
    requires PheromoneOk(p) && w > 0 && h > 0
    ensures ConservesAnyLevel(p, w, h) <==> p.diffNum == 0
  {
    if p.diffNum == 0 {
      forall f: seq<nat> | |f| == w * h
        ensures Sum(Spread(p, w, h, f)) == Sum(f)
      {
        NoRateField(p, w, h, f);
      }
    } else {
      ScaleBoth(p.diffDen, 1, p.diffNum);
      PortionPositive(p.diffDen, p.diffNum, p.diffDen);
      hide Spread;
      CornerLoses(p, w, h, p.diffDen);
    }
  }

  // Fields that gain.

  lemma {:induction false} TotalSpreadTo(p: Pheromone, w: int, h: int, f: seq<nat>, n: nat)
    requires PheromoneOk(p) && w > 0 && |f| == w * h && p.diffNum == p.diffDen && n <= |f|
    ensures 4 * Sum(Spread(p, w, h, f)[..n]) <= InflowTo(w, h, f, n)
    decreases n
  {
    hide Inflow;
    if n > 0 {
      var m := n - 1;
      TotalSpreadTo(p, w, h, f, m);
      SumPrefix(Spread(p, w, h, f), m);
      PortionWhole(f[m], p.diffDen);
      PortionWhole(Inflow(w, h, f, m), p.diffDen);
    }
  }

  /** The witness of growth: a centre that gives three units away, corners that give none, zero elsewhere. */
  function Witness(m: nat, c: nat, x: int, y: int): nat {
    if x == 1 && y == 1 then c else if (x == 0 || x == 2) && (y == 0 || y == 2) then m else 0
  }

  function WitnessField(w: int, h: int, m: nat, c: nat): (f: seq<nat>)
    requires w >= 3 && h >= 3
    ensures |f| == w * h
  {
    ScaleBoth(w, 0, h);
    seq(w * h, i requires 0 <= i < w * h => Witness(m, c, i % w, i / w))
  }

  /** The least level that gives at least three units away gives exactly three. */
  function Centre(dn: nat, dd: nat): (c: nat)
    requires 0 < dn < dd
    ensures 3 * dd <= c * dn < 3 * dd + dn
  {
    var b := 3 * dd + dn - 1;
    DivBelow(b, dn);
    assert b == dn * (b / dn) + b % dn;
    assert (b / dn) * dn == dn * (b / dn);
    b / dn
  }

  /** The largest level that gives nothing away. */
  function LargestKept(dn: nat, dd: nat): (m: nat)
    requires 0 < dn < dd
    ensures m > 0
  {
    LeastMoves(dn, dd);
    Least(dn, dd) - 1
  }

  /** Two of the largest levels that give nothing away make up one whole unit. */
  lemma TwoCorners(dn: nat, dd: nat)
    requires 0 < dn < dd
    ensures 2 * (LargestKept(dn, dd) * dn) >= dd && LargestKept(dn, dd) * dn < dd
  {
    var m := LargestKept(dn, dd);
    assert (m + 1) * dn == m * dn + dn;
    hide Least;
    ScaleBoth(dn, 1, m);
    FourTimes(dn, m);
  }

  lemma WitnessLevel(w: int, h: int, m: nat, c: nat, x: int, y: int)
    requires w >= 3 && h >= 3
    ensures Level(w, h, WitnessField(w, h, m, c), x, y) == Witness(m, c, x, y)
  {
    if Inside(w, h, x, y) {
      IdxRoundTrip(w, h, x, y);
    }
  }

  predicate BesideCentre(x: int, y: int) {
    (x == 1 && (y == 0 || y == 2)) || (y == 1 && (x == 0 || x == 2))
  }

  /** The level each cell keeps at least, relative to what it held. */
  function Gain(x: int, y: int): int {
    if x == 1 && y == 1 then -3 else if BesideCentre(x, y) then 1 else 0
  }

  /** Between two corners and beside the centre, four units of inflow round up to a whole one. */
  lemma BesideGains(p: Pheromone, inflow: nat)
    requires PheromoneOk(p) && 0 < p.diffNum < p.diffDen
    requires inflow == Centre(p.diffNum, p.diffDen) + 2 * LargestKept(p.diffNum, p.diffDen)
    ensures Diffused(p, 0, inflow) >= 1
  {
    var m, c := LargestKept(p.diffNum, p.diffDen), Centre(p.diffNum, p.diffDen);
    TwoCorners(p.diffNum, p.diffDen);
    PortionZero(p.diffNum, p.diffDen);
    assert inflow * p.diffNum == c * p.diffNum + 2 * (m * p.diffNum);
    assert p.diffDen * 4 == 4 * p.diffDen;
    QuotientAtLeast(inflow * p.diffNum, p.diffDen, 4);
    QuotientAtLeast(Portion(inflow, p.diffNum, p.diffDen), 4, 1);
  }

  /** A cell keeps all but what it gives away. */
  lemma KeepsAtLeast(p: Pheromone, v: nat, inflow: nat, out: nat)
    requires PheromoneOk(p) && v * p.diffNum < p.diffDen * (out + 1)
    ensures Diffused(p, v, inflow) >= v - out
  {
    QuotientBelow(v * p.diffNum, p.diffDen, out + 1);
    DivBelow(Portion(inflow, p.diffNum, p.diffDen), 4);
  }

  lemma WitnessAround(m: nat, c: nat, x: int, y: int)
    requires BesideCentre(x, y)
    ensures Witness(m, c, x, y - 1) + Witness(m, c, x, y + 1) + Witness(m, c, x - 1, y) + Witness(m, c, x + 1, y) == c + 2 * m
    ensures Witness(m, c, x, y) == 0 && Gain(x, y) == 1
  {
  }

  lemma BesideInflow(w: int, h: int, m: nat, c: nat, i: nat)
    requires w >= 3 && h >= 3 && i < w * h && BesideCentre(i % w, i / w)
    ensures Inflow(w, h, WitnessField(w, h, m, c), i) == c + 2 * m
  {
    hide *;
    var f, x, y := WitnessField(w, h, m, c), i % w, i / w;
    InflowParts(w, h, f, i, x, y);
    WitnessAround(m, c, x, y);
    WitnessLevel(w, h, m, c, x, y - 1);
    WitnessLevel(w, h, m, c, x, y + 1);
    WitnessLevel(w, h, m, c, x - 1, y);
    WitnessLevel(w, h, m, c, x + 1, y);
  }

  /** Away from the centre's neighbours, a cell keeps what the witness gives it. */
  lemma RestKeeps(p: Pheromone, x: int, y: int, inflow: nat)
    requires PheromoneOk(p) && 0 < p.diffNum < p.diffDen && !BesideCentre(x, y)
    ensures var v := Witness(LargestKept(p.diffNum, p.diffDen), Centre(p.diffNum, p.diffDen), x, y);
      Diffused(p, v, inflow) >= v + Gain(x, y)
  {
    TwoCorners(p.diffNum, p.diffDen);
    var m, c := LargestKept(p.diffNum, p.diffDen), Centre(p.diffNum, p.diffDen);
    hide LargestKept;
    hide Centre;
    hide Diffused;
    assert p.diffDen * 1 == p.diffDen && p.diffDen * 4 == 4 * p.diffDen;
    if x == 1 && y == 1 {
      KeepsAtLeast(p, c, inflow, 3);
    } else {
      KeepsAtLeast(p, Witness(m, c, x, y), inflow, 0);
    }
  }

  lemma WitnessCell(p: Pheromone, w: int, h: int, i: nat)
    requires PheromoneOk(p) && w >= 3 && h >= 3 && 0 < p.diffNum < p.diffDen && i < w * h
    ensures var m, c := LargestKept(p.diffNum, p.diffDen), Centre(p.diffNum, p.diffDen);
      Spread(p, w, h, WitnessField(w, h, m, c))[i] >= Witness(m, c, i % w, i / w) + Gain(i % w, i / w)
  {
    hide Inflow;
    hide Diffused;
    hide LargestKept;
    hide Centre;
    var m, c := LargestKept(p.diffNum, p.diffDen), Centre(p.diffNum, p.diffDen);
    var f, x, y := WitnessField(w, h, m, c), i % w, i / w;
    if BesideCentre(x, y) {
      BesideInflow(w, h, m, c, i);
      WitnessAround(m, c, x, y);
      BesideGains(p, c + 2 * m);
    } else {
      RestKeeps(p, x, y, Inflow(w, h, f, i));
    }
  }

  /** Plus one at each of a, b, c, d and minus three at k. */
  function Deltas(n: nat, k: nat, a: nat, b: nat, c: nat, d: nat): (s: seq<int>)
    requires k < n && a < n && b < n && c < n && d < n
    ensures |s| == n
  {
    var z := seq(n, i => 0);
    z[k := -3][a := 1][b := 1][c := 1][d := 1]
  }

  lemma SumDeltas(n: nat, k: nat, a: nat, b: nat, c: nat, d: nat)
    requires k < n && a < n && b < n && c < n && d < n
    requires k != a && k != b && k != c && k != d && a != b && a != c && a != d && b != c && b != d && c != d
    ensures Sum(Deltas(n, k, a, b, c, d)) == 1
  {
    var z := seq(n, i => 0);
    SumZero(z);
    hide Sum;
    SumUpdate(z, k, -3);
    var z1 := z[k := -3];
    SumUpdate(z1, a, 1);
    var z2 := z1[a := 1];
    SumUpdate(z2, b, 1);
    var z3 := z2[b := 1];
    SumUpdate(z3, c, 1);
    SumUpdate(z3[c := 1], d, 1);
  }

  /** The gains of the whole field, cell by cell. */
  function Gains(w: int, h: int): (t: seq<int>)
    requires w >= 3 && h >= 3
    ensures |t| == w * h && forall i :: 0 <= i < |t| ==> t[i] == Gain(i % w, i / w)
  {
    ScaleBoth(w, 0, h);
    seq(w * h, i requires 0 <= i < w * h => Gain(i % w, i / w))
  }

  lemma GainsAt(w: int, h: int, i: nat)
    requires w >= 3 && h >= 3 && i < w * h
    ensures Gain(i % w, i / w) ==
      if i == Idx(w, 1, 1) then -3
      else if i == Idx(w, 1, 0) || i == Idx(w, 1, 2) || i == Idx(w, 0, 1) || i == Idx(w, 2, 1) then 1 else 0
  {
    IdxCovers(w, h, i);
    IdxRoundTrip(w, h, 1, 1);
    IdxRoundTrip(w, h, 1, 0);
    IdxRoundTrip(w, h, 1, 2);
    IdxRoundTrip(w, h, 0, 1);
    IdxRoundTrip(w, h, 2, 1);
    hide Idx;
  }

  lemma GainsSum(w: int, h: int)
    requires w >= 3 && h >= 3
    ensures Sum(Gains(w, h)) == 1
  {
    var k, a, b, c, d := Idx(w, 1, 1), Idx(w, 1, 0), Idx(w, 1, 2), Idx(w, 0, 1), Idx(w, 2, 1);
    IdxRoundTrip(w, h, 1, 1);
    IdxRoundTrip(w, h, 1, 0);
    IdxRoundTrip(w, h, 1, 2);
    IdxRoundTrip(w, h, 0, 1);
    IdxRoundTrip(w, h, 2, 1);
    var t := Deltas(w * h, k, a, b, c, d);
    SumDeltas(w * h, k, a, b, c, d);
    hide Sum;
    hide Gain;
    forall i | 0 <= i < w * h
      ensures t[i] == Gains(w, h)[i]
    {
      GainsAt(w, h, i);
    }
    assert t == Gains(w, h);
  }

  lemma WitnessGrows(p: Pheromone, w: int, h: int)
    requires PheromoneOk(p) && w >= 3 && h >= 3 && 0 < p.diffNum < p.diffDen
    ensures var f := WitnessField(w, h, LargestKept(p.diffNum, p.diffDen), Centre(p.diffNum, p.diffDen));
      Sum(Spread(p, w, h, f)) > Sum(f)
  {
    var f := WitnessField(w, h, LargestKept(p.diffNum, p.diffDen), Centre(p.diffNum, p.diffDen));
    var t, g := Gains(w, h), Spread(p, w, h, f);
    var low := seq(|f|, i requires 0 <= i < |f| => f[i] + t[i]);
    forall i | 0 <= i < |f|
      ensures low[i] <= g[i]
    {
      WitnessCell(p, w, h, i);
    }
    GainsSum(w, h);
    hide Spread;
    hide Gain;
    hide Witness;
    hide Gains;
    SumOfSums(f, t, low);
    SumBelow(low, g);
  }

  /** The centre is the least level with three units to give, so it fits whenever some level has them. */
  lemma CentreFits(dn: nat, dd: nat, m: nat)
    requires 0 < dn < dd && 3 * dd <= m * dn
    ensures Centre(dn, dd) <= m && LargestKept(dn, dd) <= m
  {
    LeastFits(m, dn, dd);
    var c := Centre(dn, dd);
    FourTimes(dn, m);
    FourTimes(dn, c - 1);
    assert (c - 1) * dn == c * dn - dn;
    if c > m {
      ScaleBoth(dn, m, c - 1);
      assert false;
    }
  }

  lemma TotalSpreadNeverGains(p: Pheromone, w: int, h: int, f: seq<nat>)
    requires PheromoneOk(p) && w > 0 && |f| == w * h && p.diffNum == p.diffDen
    ensures Sum(Spread(p, w, h, f)) <= Sum(f)
  {
    TotalSpreadTo(p, w, h, f, |f|);
    assert Spread(p, w, h, f)[..|f|] == Spread(p, w, h, f);
    TotalInflow(w, h, f);
    hide Spread;
  }

  /**
   Rounding creates mass: on every grid of at least 3 by 3 some field the grid can
   hold gains, as soon as the rate is partial and some level has three units to give.
   */
  lemma SomeFieldGains(p: Pheromone, w: int, h: int)
    requires PheromoneOk(p) && w >= 3 && h >= 3
    requires p.diffNum < p.diffDen && 3 * p.diffDen <= 2 * p.max * p.diffNum
    ensures !NeverGains(p, w, h) && !NeverGains64(p, w, h)
  {
    CentreFits(p.diffNum, p.diffDen, 2 * p.max);
    WitnessGrows(p, w, h);
    WitnessIsSmall(p, w, h);
    hide Spread;
    hide Spread64;
  }

  /** The witness holds levels the grid can hold, and none of them wraps. */
  lemma WitnessIsSmall(p: Pheromone, w: int, h: int)
    requires PheromoneOk(p) && w >= 3 && h >= 3 && 0 < p.diffNum < p.diffDen
    requires Centre(p.diffNum, p.diffDen) <= 2 * p.max && LargestKept(p.diffNum, p.diffDen) <= 2 * p.max
    ensures var f := WitnessField(w, h, LargestKept(p.diffNum, p.diffDen), Centre(p.diffNum, p.diffDen));
      Held(p, f) && Spread64(p, w, h, f) == Spread(p, w, h, f)
  {
    var dn: nat, m, c := p.diffNum, LargestKept(p.diffNum, p.diffDen), Centre(p.diffNum, p.diffDen);
    TwoCorners(p.diffNum, p.diffDen);
    var top := if m > c then m else c;
    assert 4 * top * dn == 4 * (top * dn);
    hide LargestKept;
    hide Centre;
    SmallFieldIsExact(p, w, h, WitnessField(w, h, m, c), top);
    hide Spread;
    hide Spread64;
  }

  /** With the rate and the ceiling of the bundled scenarios, mass is lost on every grid and created on all but thin ones. */
  lemma ScenarioMass(w: int, h: int)
    requires w > 0 && h > 0
    ensures PheromoneOk(SCENARIO) && !Conserves64(SCENARIO, w, h)
    ensures w >= 3 && h >= 3 ==> !NeverGains64(SCENARIO, w, h)
  {
    ConservesExactlyWhenStill(SCENARIO, w, h);
    hide Conserves64;
    hide NeverGains64;
    if w >= 3 && h >= 3 {
      SomeFieldGains(SCENARIO, w, h);
    }
  }
}
