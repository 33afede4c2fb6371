/**
 The world newWorld builds from a config, and the result a run reports.
 */
module Start {
  import opened Config
  import opened Rng
  import opened Stencil
  import opened Grid
  import opened Colony

  predicate InWall(rs: seq<Rect>, x: int, y: int) {
    exists k :: 0 <= k < |rs| && Covers(rs[k], x, y)
  }

  lemma CellsNatural(c: Config)
    requires ValidConfig(c)
    ensures c.width * c.height >= 0
  {
    ScaleBoth(c.width, 0, c.height);
  }

  function WallGrid(c: Config): (g: seq<bool>)
    requires ValidConfig(c)
    ensures |g| == c.width * c.height
  {
    CellsNatural(c);
    seq(c.width * c.height, i requires 0 <= i < c.width * c.height => InWall(c.walls, i % c.width, i / c.width))
  }

  /** The units the piles put on cell (x, y). */
  function UnitsAt(fs: seq<FoodPile>, x: int, y: int): int {
    if |fs| == 0 then 0 else
    var f := fs[|fs| - 1];
    UnitsAt(fs[..|fs| - 1], x, y) + (if f.at.x == x && f.at.y == y then f.amount else 0)
  }

  /** The units of every cell, before they are squeezed into Go ints. */
  function UnitGrid(c: Config, fs: seq<FoodPile>): (g: seq<int>)
    requires ValidConfig(c)
    ensures |g| == c.width * c.height
  {
    CellsNatural(c);
    seq(c.width * c.height, i requires 0 <= i < c.width * c.height => UnitsAt(fs, i % c.width, i / c.width))
  }

  /** Food as newWorld adds it up, wrapping like Go's int. */
  function FoodGrid(c: Config, fs: seq<FoodPile>): (g: seq<Int64>)
    requires ValidConfig(c)
    ensures |g| == c.width * c.height
  {
    CellsNatural(c);
    seq(c.width * c.height, i requires 0 <= i < c.width * c.height => Wrapped(UnitGrid(c, fs)[i]))
  }

  /** All the food the config places. */
  function TotalFood(fs: seq<FoodPile>): int {
    if |fs| == 0 then 0 else TotalFood(fs[..|fs| - 1]) + fs[|fs| - 1].amount
  }

  function PilePoints(fs: seq<FoodPile>): (ps: seq<Point>)
    ensures |ps| == |fs| && forall i :: 0 <= i < |fs| ==> ps[i] == fs[i].at
  {
    seq(|fs|, i requires 0 <= i < |fs| => fs[i].at)
  }

  function NewEnv(c: Config, rules: Rules): (e: Env)
    requires ValidConfig(c)
    ensures EnvOk(e)
  {
    var e := Env(c.width, c.height, c.nest, WallGrid(c), PilePoints(c.food), c.pheromone, c.movement, rules);
    NestIsOpen(c, e);
    e
  }

  lemma NestIsOpen(c: Config, e: Env)
    requires ValidConfig(c) && e.w == c.width && e.h == c.height && e.walls == WallGrid(c)
    ensures Passable(e, c.nest.x, c.nest.y)
  {
    IdxRoundTrip(c.width, c.height, c.nest.x, c.nest.y);
    forall k | 0 <= k < |c.walls|
      ensures !Covers(c.walls[k], c.nest.x, c.nest.y)
    {
      assert WallOk(c, c.walls[k]);
    }
  }

  /** Ant i as newWorld makes it: on the nest, with its own stream. */
  ghost function NewAnt(c: Config, i: nat): Ant
  {
    Ant(i, c.nest.x, c.nest.y, Draw(SeedRng(AntSeed(c.seed, i)), 8).value, false, false, 0, [], AntStream(c.seed, i))
  }

  /** The heading of ant i is the top three bits of its generator's first output. */
  lemma HeadingIs(c: Config, i: nat)
    ensures NewAnt(c, i).dir == Output(SeedRng(AntSeed(c.seed, i))) / 0x1_0000_0000 / 0x2000_0000
    ensures NewAnt(c, i).rng == NextState(SeedRng(AntSeed(c.seed, i)))
  {
    TopThreeBits(SeedRng(AntSeed(c.seed, i)));
    hide AntSeed;
    hide SeedRng;
    hide Draw;
    hide Output;
    hide NextState;
  }

  /** Every ant starts on the nest, searching, with no steps behind it. */
  lemma NewAntIs(c: Config, i: nat)
    ensures var a := NewAnt(c, i);
      && a.id == i && a.x == c.nest.x && a.y == c.nest.y && !a.hasFood && !a.blocked && a.steps == 0 && a.trail == []
  {
    hide Draw;
    hide AntStream;
  }

  ghost function NewWorld(c: Config): (w: World)
    requires ValidConfig(c)
  {
    CellsNatural(c);
    var n := c.width * c.height;
    World(seq(c.antCount, i requires 0 <= i < c.antCount => NewAnt(c, i)),
          seq(c.antCount, i => Intent(0, 0, 0, false)),
          FoodGrid(c, c.food), Zeros(n), Zeros(n), Zeros(n), Zeros(n), Zeros(n), Zeros(n), 0, Wrapped(TotalFood(c.food)))
  }

  lemma {:induction false} NoPileAt(fs: seq<FoodPile>, x: int, y: int)
    requires forall k :: 0 <= k < |fs| ==> !PileAt(fs[k], x, y)
    ensures UnitsAt(fs, x, y) == 0
    decreases |fs|
  {
    if |fs| > 0 {
      NoPileAt(fs[..|fs| - 1], x, y);
    }
  }

  lemma {:induction false} OnePileAt(fs: seq<FoodPile>, x: int, y: int, k: nat)
    requires k < |fs| && OnlyPileAt(fs, k, x, y)
    ensures UnitsAt(fs, x, y) == fs[k].amount
    decreases |fs|
  {
    var n := |fs| - 1;
    if k < n {
      OnePileAt(fs[..n], x, y, k);
    } else {
      NoPileAt(fs[..n], x, y);
    }
  }

  predicate PileAt(f: FoodPile, x: int, y: int) {
    f.at.x == x && f.at.y == y
  }

  /** Pile k lies on (x, y) and no other does. */
  predicate OnlyPileAt(fs: seq<FoodPile>, k: nat, x: int, y: int)
    requires k < |fs|
  {
    PileAt(fs[k], x, y) && forall j :: 0 <= j < |fs| && j != k ==> !PileAt(fs[j], x, y)
  }

  /** Cell (x, y) starts with nothing if no pile lies there, and with the pile's amount if exactly one does. */
  lemma NewFood(c: Config, x: int, y: int)
    requires ValidConfig(c) && 0 <= x < c.width && 0 <= y < c.height
    ensures 0 <= y * c.width + x < |NewWorld(c).food|
    ensures (forall k :: 0 <= k < |c.food| ==> !PileAt(c.food[k], x, y)) ==> NewWorld(c).food[y * c.width + x] == 0
    ensures forall k: nat :: k < |c.food| && OnlyPileAt(c.food, k, x, y) ==> NewWorld(c).food[y * c.width + x] == c.food[k].amount
  {
    hide NewWorld;
    hide FoodGrid;
    hide ValidConfig;
    hide Wrapped;
    hide UnitsAt;
    CellsNatural(c);
    IdxRoundTrip(c.width, c.height, x, y);
    FoodAt(c, Idx(c.width, x, y));
    if forall k :: 0 <= k < |c.food| ==> !PileAt(c.food[k], x, y) {
      NoPileAt(c.food, x, y);
      WrappedFits(0);
    }
    forall k: nat | k < |c.food| && OnlyPileAt(c.food, k, x, y)
      ensures Wrapped(UnitsAt(c.food, x, y)) == c.food[k].amount
    {
      hide PileAt;
      OnePileAt(c.food, x, y, k);
      WrappedFits(c.food[k].amount);
    }
  }

  lemma FoodAt(c: Config, i: nat)
    requires ValidConfig(c) && i < c.width * c.height
    ensures |NewWorld(c).food| == c.width * c.height
    ensures NewWorld(c).food[i] == Wrapped(UnitsAt(c.food, i % c.width, i / c.width))
  {
    hide Wrapped;
    hide UnitsAt;
    hide TotalFood;
    hide NewAnt;
  }

  /** Nothing is marked, collected or carried at first, and every ant is where it should be. */
  lemma NewWorldIs(c: Config)
    requires ValidConfig(c)
    ensures var w, n := NewWorld(c), c.width * c.height;
      && |w.ants| == c.antCount && w.collected == 0 && w.foodLeft == Wrapped(TotalFood(c.food))
      && |w.pheroFood| == |w.pheroHome| == |w.food| == n
      && (forall i :: 0 <= i < n ==> w.pheroFood[i] == 0 && w.pheroHome[i] == 0)
      && forall i: nat :: i < c.antCount ==>
           var a := w.ants[i];
           && a.id == i && a.x == c.nest.x && a.y == c.nest.y && !a.hasFood && a.steps == 0 && a.trail == []
           && a.dir == Output(SeedRng(AntSeed(c.seed, i))) / 0x1_0000_0000 / 0x2000_0000
  {
    var w := NewWorld(c);
    hide Wrapped;
    hide TotalFood;
    hide FoodGrid;
    hide NewAnt;
    forall i: nat | i < c.antCount
      ensures w.ants[i] == NewAnt(c, i)
    {
    }
    forall i: nat | i < c.antCount
      ensures var a := w.ants[i];
        && a.id == i && a.x == c.nest.x && a.y == c.nest.y && !a.hasFood && a.steps == 0 && a.trail == []
        && a.dir == Output(SeedRng(AntSeed(c.seed, i))) / 0x1_0000_0000 / 0x2000_0000
    {
      HeadingIs(c, i);
      NewAntIs(c, i);
    }
  }

  /** A valid config starts in a world that satisfies the tick-boundary invariant. */
  lemma NewWorldOk(c: Config, rules: Rules)
    requires ValidConfig(c)
    ensures Ok(NewEnv(c, rules), NewWorld(c))
  {
  }

  /** The number of ticks a run performs when cancelled after limit of them. */
  function TicksRun(c: Config, limit: nat): (t: nat)
    requires ValidConfig(c)
  {
    if c.ticks < limit then c.ticks else limit
  }

  /** Every draw of the ticks the run performs ends; the program would hang in Intn otherwise. */
  ghost predicate StreamsLive(c: Config, limit: nat)
    requires ValidConfig(c)
  {
    forall i: nat :: i < c.antCount ==> Live(AntStream(c.seed, i), c.movement.randomDen, TicksRun(c, limit))
  }

  /** The world after a run of t ticks. */
  ghost function WorldAt(c: Config, rules: Rules, t: nat): (w: World)
    requires ValidConfig(c)
    ensures Ok(NewEnv(c, rules), w) && |w.ants| == c.antCount
  {
    NewWorldOk(c, rules);
    Run(NewEnv(c, rules), NewWorld(c), t)
  }

  // The wall grid while newWorld's loops are filling it in.

  /** The first k rectangles are filled in. */
  predicate Walled(c: Config, g: seq<bool>, k: nat)
    requires ValidConfig(c) && k <= |c.walls|
  {
    |g| == c.width * c.height && forall i :: 0 <= i < |g| ==> g[i] == InWall(c.walls[..k], i % c.width, i / c.width)
  }

  /** The rows of r above y have been added to before. */
  predicate RowsFilled(c: Config, g: seq<bool>, before: seq<bool>, r: Rect, y: int)
    requires ValidConfig(c)
  {
    |g| == |before| == c.width * c.height && forall i :: 0 <= i < |g| ==>
      (g[i] <==> before[i] || (Covers(r, i % c.width, i / c.width) && i / c.width < y))
  }

  /** The cells of row y of r left of x have been added to row. */
  predicate CellsFilled(c: Config, g: seq<bool>, row: seq<bool>, r: Rect, y: int, x: int)
    requires ValidConfig(c)
  {
    |g| == |row| == c.width * c.height && forall i :: 0 <= i < |g| ==>
      (g[i] <==> row[i] || (Covers(r, i % c.width, i / c.width) && i / c.width == y && i % c.width < x))
  }

  lemma WalledNone(c: Config, g: seq<bool>)
    requires ValidConfig(c) && |g| == c.width * c.height && forall i :: 0 <= i < |g| ==> !g[i]
    ensures Walled(c, g, 0)
  {
  }

  lemma WalledAll(c: Config, g: seq<bool>)
    requires ValidConfig(c) && Walled(c, g, |c.walls|)
    ensures g == WallGrid(c)
  {
    assert c.walls[..|c.walls|] == c.walls;
  }

  lemma NothingFilled(c: Config, g: seq<bool>, r: Rect, y: int)
    requires ValidConfig(c) && |g| == c.width * c.height
    ensures RowsFilled(c, g, g, r, r.y) && CellsFilled(c, g, g, r, y, r.x)
  {
  }

  lemma CellFilled(c: Config, g: seq<bool>, row: seq<bool>, r: Rect, y: int, x: int)
    requires ValidConfig(c) && WallOk(c, r) && Covers(r, x, y) && CellsFilled(c, g, row, r, y, x)
    ensures 0 <= Idx(c.width, x, y) < |g|
    ensures CellsFilled(c, g[Idx(c.width, x, y) := true], row, r, y, x + 1)
  {
    IdxRoundTrip(c.width, c.height, x, y);
    var g' := g[Idx(c.width, x, y) := true];
    forall i | 0 <= i < |g|
      ensures g'[i] <==> row[i] || (Covers(r, i % c.width, i / c.width) && i / c.width == y && i % c.width < x + 1)
    {
      IdxCovers(c.width, c.height, i);
    }
  }

  lemma RowFilled(c: Config, g: seq<bool>, row: seq<bool>, before: seq<bool>, r: Rect, y: int, x: int)
    requires ValidConfig(c) && RowsFilled(c, row, before, r, y) && CellsFilled(c, g, row, r, y, x) && x >= Plus(r.x, r.w)
    ensures RowsFilled(c, g, before, r, y + 1)
  {
  }

  /** A far edge that wraps around leaves y past it at once: such a wall passes Validate and covers nothing. */
  lemma RectFilled(c: Config, g: seq<bool>, before: seq<bool>, k: nat, y: int)
    requires ValidConfig(c) && k < |c.walls| && Walled(c, before, k)
    requires RowsFilled(c, g, before, c.walls[k], y) && y >= Plus(c.walls[k].y, c.walls[k].h)
    ensures Walled(c, g, k + 1)
  {
    forall i | 0 <= i < |g|
      ensures g[i] == InWall(c.walls[..k + 1], i % c.width, i / c.width)
    {
      InWallPush(c.walls, k, i % c.width, i / c.width);
    }
  }

  lemma InWallPush(rs: seq<Rect>, k: nat, x: int, y: int)
    requires k < |rs|
    ensures InWall(rs[..k + 1], x, y) <==> InWall(rs[..k], x, y) || Covers(rs[k], x, y)
  {
    var a, b := rs[..k], rs[..k + 1];
    if InWall(a, x, y) {
      var j :| 0 <= j < |a| && Covers(a[j], x, y);
      assert Covers(b[j], x, y);
    }
    if Covers(rs[k], x, y) {
      assert Covers(b[k], x, y);
    }
  }

  /** Adding a pile changes exactly its own cell. */
  lemma UnitGridPush(c: Config, fs: seq<FoodPile>, k: nat)
    requires ValidConfig(c) && k < |fs| && InGrid(c, fs[k].at)
    ensures 0 <= Idx(c.width, fs[k].at.x, fs[k].at.y) < c.width * c.height
    ensures UnitGrid(c, fs[..k + 1]) ==
      var i, g := Idx(c.width, fs[k].at.x, fs[k].at.y), UnitGrid(c, fs[..k]); g[i := g[i] + fs[k].amount]
  {
    var f := fs[k];
    IdxRoundTrip(c.width, c.height, f.at.x, f.at.y);
    var i, g := Idx(c.width, f.at.x, f.at.y), UnitGrid(c, fs[..k]);
    var h, g' := UnitGrid(c, fs[..k + 1]), g[i := g[i] + f.amount];
    assert fs[..k + 1][..k] == fs[..k];
    forall j | 0 <= j < |g|
      ensures h[j] == g'[j]
    {
      IdxCovers(c.width, c.height, j);
    }
    assert h == g';
  }

  /** The same for the wrapped counts: one wrapping addition. */
  lemma FoodGridPush(c: Config, fs: seq<FoodPile>, k: nat)
    requires ValidConfig(c) && k < |fs| && InGrid(c, fs[k].at)
    ensures 0 <= Idx(c.width, fs[k].at.x, fs[k].at.y) < c.width * c.height
    ensures FoodGrid(c, fs[..k + 1]) ==
      var i, g := Idx(c.width, fs[k].at.x, fs[k].at.y), FoodGrid(c, fs[..k]); g[i := Plus(g[i], fs[k].amount)]
  {
    UnitGridPush(c, fs, k);
    hide UnitGrid;
    hide Idx;
    var i, u := Idx(c.width, fs[k].at.x, fs[k].at.y), UnitGrid(c, fs[..k]);
    PlusWrapped(u[i], fs[k].amount);
    hide Wrapped;
    hide Plus;
    var g := FoodGrid(c, fs[..k]);
    assert FoodGrid(c, fs[..k + 1]) == g[i := Plus(g[i], fs[k].amount)];
  }

  lemma FoodGridEmpty(c: Config, fs: seq<FoodPile>)
    requires ValidConfig(c)
    ensures forall i :: 0 <= i < c.width * c.height ==> UnitGrid(c, fs[..0])[i] == 0 && FoodGrid(c, fs[..0])[i] == 0
    ensures TotalFood(fs[..0]) == 0
  {
  }

  lemma TotalFoodPush(fs: seq<FoodPile>, k: nat)
    requires k < |fs|
    ensures TotalFood(fs[..k + 1]) == TotalFood(fs[..k]) + fs[k].amount
    ensures Wrapped(TotalFood(fs[..k + 1])) == Plus(Wrapped(TotalFood(fs[..k])), fs[k].amount)
  {
    assert fs[..k + 1][..k] == fs[..k];
    PlusWrapped(TotalFood(fs[..k]), fs[k].amount);
  }
}
