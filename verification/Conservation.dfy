/**
 Food is conserved: over every run, delivered, carried and remaining units add
 up to what the config placed, modulo 2^64 always, and exactly if and only if
 the config places fewer than 2^63 units.
 */
module Conservation {
  import opened Words
  import opened Config
  import opened Grid
  import opened Colony
  import opened Start
  import opened Commits
  import opened Ticks
  import opened Results

  function CarryFlags(ants: seq<Ant>): (f: seq<int>)
    ensures |f| == |ants|
  {
    seq(|ants|, i requires 0 <= i < |ants| => if ants[i].hasFood then 1 else 0)
  }

  lemma {:induction false} CarryingIsSum(ants: seq<Ant>)
    ensures Carrying(ants) == Sum(CarryFlags(ants))
    decreases |ants|
  {
    if |ants| > 0 {
      var n := |ants| - 1;
      assert CarryFlags(ants)[..n] == CarryFlags(ants[..n]);
      CarryingIsSum(ants[..n]);
    }
  }

  lemma CarryingUpdate(ants: seq<Ant>, i: nat, a: Ant)
    requires i < |ants|
    ensures Carrying(ants[i := a]) ==
      Carrying(ants) + (if a.hasFood then 1 else 0) - (if ants[i].hasFood then 1 else 0)
  {
    CarryingIsSum(ants);
    CarryingIsSum(ants[i := a]);
    SumUpdate(CarryFlags(ants), i, if a.hasFood then 1 else 0);
    assert CarryFlags(ants[i := a]) == CarryFlags(ants)[i := if a.hasFood then 1 else 0];
  }

  /** The books balance modulo 2^64, as Go's counters can. */
  predicate Balanced(w: World, total: int) {
    && Wrapped(w.collected + Carrying(w.ants) + w.foodLeft) == Wrapped(total)
    && w.foodLeft == Wrapped(Sum(w.food))
  }

  /** The books balance, and nothing is negative. */
  predicate Exact(w: World, total: int) {
    && w.collected + Carrying(w.ants) + w.foodLeft == total
    && w.foodLeft == Sum(w.food)
    && w.collected >= 0 && forall c :: 0 <= c < |w.food| ==> w.food[c] >= 0
  }

  lemma WrappedSum(a: int, b: int)
    ensures Wrapped(a + Wrapped(b)) == Wrapped(a + b)
  {
    WrapLate(b, a, TWO_63, TWO_64);
    hide Wrapped;
    assert Wrapped(Wrapped(b) + a) == Wrapped(b + a);
  }

  // One commit iteration.

  /** How an iteration changes the counts: a pickup, a drop, or neither. */
  datatype Event = Pickup(c: nat) | Drop | Neither

  predicate Happens(e: Event, w: World, r: World) {
    match e
    case Pickup(c) =>
      && c < |w.food| && w.food[c] > 0 && r.food == w.food[c := w.food[c] - 1]
      && r.foodLeft == Plus(w.foodLeft, -1) && r.collected == w.collected
      && Carrying(r.ants) == Carrying(w.ants) + 1
    case Drop =>
      && r.food == w.food && r.foodLeft == w.foodLeft && r.collected == Plus(w.collected, 1)
      && Carrying(r.ants) == Carrying(w.ants) - 1
    case Neither =>
      r.food == w.food && r.foodLeft == w.foodLeft && r.collected == w.collected && Carrying(r.ants) == Carrying(w.ants)
  }

  lemma CommitOneAnts(env: Env, w: World, i: nat)
    requires Ready(env, w) && i < |w.ants|
    ensures CommitOne(env, w, i).ants == w.ants[i := CommitOne(env, w, i).ants[i]]
  {
    hide Key;
    hide Mark;
  }

  lemma CommitOneHappens(env: Env, w: World, i: nat) returns (e: Event)
    requires Ready(env, w) && i < |w.ants|
    ensures Happens(e, w, CommitOne(env, w, i))
  {
    CommitOneEffect(env, w, i);
    var r, c := CommitOne(env, w, i), Target(env, w, i);
    CarryingUpdate(w.ants, i, r.ants[i]);
    CommitOneAnts(env, w, i);
    hide CommitOne;
    hide Carrying;
    hide Plus;
    var a := w.ants[i];
    e := if !a.hasFood && w.food[c] > 0 then Pickup(c)
         else if a.hasFood && !r.ants[i].hasFood then Drop else Neither;
  }

  lemma BalancedStep(e: Event, w: World, r: World, total: int)
    requires Happens(e, w, r) && Balanced(w, total)
    ensures Balanced(r, total)
  {
    hide Carrying;
    hide Sum;
    match e
    case Pickup(c) =>
      SumUpdate(w.food, c, w.food[c] - 1);
      WrappedSum(w.collected + Carrying(w.ants) + 1, w.foodLeft - 1);
      PlusWrapped(Sum(w.food), -1);
    case Drop =>
      WrappedSum(Carrying(w.ants) - 1 + w.foodLeft, w.collected + 1);
    case Neither =>
  }

  lemma ExactStep(e: Event, w: World, r: World, total: int)
    requires Happens(e, w, r) && Exact(w, total) && total < TWO_63
    ensures Exact(r, total)
  {
    FoodNatural(w.food);
    hide Carrying;
    hide Sum;
    match e
    case Pickup(c) =>
      SumUpdate(w.food, c, w.food[c] - 1);
      FoodNatural(r.food);
    case Drop =>
    case Neither =>
  }

  lemma {:induction false} FoodNatural(f: seq<int>)
    requires forall i :: 0 <= i < |f| ==> f[i] >= 0
    ensures Sum(f) >= 0
    decreases |f|
  {
    if |f| > 0 {
      FoodNatural(f[..|f| - 1]);
    }
  }

  // The commit phase, the tick and the run.

  lemma {:induction false} CommitBalanced(env: Env, w: World, n: nat, total: int)
    requires Ready(env, w) && n <= |w.ants|
    ensures Balanced(w, total) ==> Balanced(CommitTo(env, w, n), total)
    ensures Exact(w, total) && total < TWO_63 ==> Exact(CommitTo(env, w, n), total)
    decreases n
  {
    hide CommitOne;
    hide Balanced;
    hide Exact;
    hide Happens;
    hide Ready;
    if n > 0 {
      CommitBalanced(env, w, n - 1, total);
      var v := CommitTo(env, w, n - 1);
      var e := CommitOneHappens(env, v, n - 1);
      var r := CommitOne(env, v, n - 1);
      if Balanced(v, total) {
        BalancedStep(e, v, r, total);
      }
      if Exact(v, total) && total < TWO_63 {
        ExactStep(e, v, r, total);
      }
    }
  }

  /** Only carrying, collected and the food counts matter for the books. */
  lemma SameBooks(v: World, w: World, total: int)
    requires Carrying(v.ants) == Carrying(w.ants) && v.food == w.food
    requires v.collected == w.collected && v.foodLeft == w.foodLeft
    ensures Balanced(v, total) <==> Balanced(w, total)
    ensures Exact(v, total) <==> Exact(w, total)
  {
  }

  lemma SenseCarries(env: Env, w: World)
    requires Shaped(env, w) && Faced(w)
    ensures Carrying(Sense(env, w).ants) == Carrying(w.ants)
  {
    hide SensedIntent;
    CarryingIsSum(w.ants);
    CarryingIsSum(Sense(env, w).ants);
    assert CarryFlags(Sense(env, w).ants) == CarryFlags(w.ants);
  }

  lemma TickBalanced(env: Env, w: World, total: int)
    requires Ok(env, w)
    ensures Balanced(w, total) ==> Balanced(Tick(env, w), total)
    ensures Exact(w, total) && total < TWO_63 ==> Exact(Tick(env, w), total)
  {
    SenseReady(env, w);
    var s := Sense(env, w);
    SenseCarries(env, w);
    hide SensedIntent;
    hide Carrying;
    SameBooks(s, w, total);
    hide Sense;
    hide Balanced;
    hide Exact;
    CommitBalanced(env, s, |s.ants|, total);
    hide CommitTo;
    hide DecayCells;
    SameBooks(Commit(env, s), Tick(env, w), total);
  }

  lemma {:induction false} RunBalanced(env: Env, w: World, t: nat, total: int)
    requires Ok(env, w)
    ensures Balanced(w, total) ==> Balanced(Run(env, w, t), total)
    ensures Exact(w, total) && total < TWO_63 ==> Exact(Run(env, w, t), total)
    decreases t
  {
    hide Tick;
    hide Ok;
    hide Balanced;
    hide Exact;
    if t > 0 {
      RunBalanced(env, w, t - 1, total);
      TickBalanced(env, Run(env, w, t - 1), total);
    }
  }

  // The initial world.

  lemma EmptyGridSum(c: Config)
    requires ValidConfig(c)
    ensures Sum(UnitGrid(c, c.food[..0])) == TotalFood(c.food[..0])
  {
    FoodGridEmpty(c, c.food);
    SumZero(UnitGrid(c, c.food[..0]));
  }

  /** One more pile adds its amount to the sum. */
  lemma UnitGridSumStep(c: Config, k: nat)
    requires ValidConfig(c) && k < |c.food|
    ensures Sum(UnitGrid(c, c.food[..k + 1])) == Sum(UnitGrid(c, c.food[..k])) + c.food[k].amount
  {
    assert FoodOk(c, c.food[k]);
    UnitGridPush(c, c.food, k);
    hide UnitGrid;
    hide Sum;
    hide ValidConfig;
    var g, i := UnitGrid(c, c.food[..k]), Idx(c.width, c.food[k].at.x, c.food[k].at.y);
    SumUpdate(g, i, g[i] + c.food[k].amount);
  }

  /** The piles' amounts, cell by cell, sum to the configured total. */
  lemma {:induction false} UnitGridSum(c: Config, k: nat)
    requires ValidConfig(c) && k <= |c.food|
    ensures Sum(UnitGrid(c, c.food[..k])) == TotalFood(c.food[..k])
    decreases k
  {
    hide *;
    if k == 0 {
      EmptyGridSum(c);
    } else {
      UnitGridSum(c, k - 1);
      UnitGridSumStep(c, k - 1);
      TotalFoodPush(c.food, k - 1);
    }
  }

  lemma {:induction false} WrappedCells(u: seq<int>, g: seq<Int64>)
    requires |u| == |g| && forall i :: 0 <= i < |u| ==> g[i] == Wrapped(u[i])
    ensures Wrapped(Sum(g)) == Wrapped(Sum(u))
    decreases |u|
  {
    if |u| > 0 {
      var n := |u| - 1;
      WrappedCells(u[..n], g[..n]);
      WrappedSum(Sum(g[..n]), u[n]);
      WrappedSum(u[n], Sum(g[..n]));
      WrappedSum(u[n], Sum(u[..n]));
      hide Wrapped;
    }
  }

  /** A cell's units are part of the total. */
  lemma {:induction false} UnitsBelow(fs: seq<FoodPile>, x: int, y: int)
    requires forall i :: 0 <= i < |fs| ==> fs[i].amount > 0
    ensures 0 <= UnitsAt(fs, x, y) <= TotalFood(fs)
    decreases |fs|
  {
    if |fs| > 0 {
      UnitsBelow(fs[..|fs| - 1], x, y);
    }
  }

  lemma {:induction false} NobodyCarries(ants: seq<Ant>)
    requires forall i :: 0 <= i < |ants| ==> !ants[i].hasFood
    ensures Carrying(ants) == 0
    decreases |ants|
  {
    if |ants| > 0 {
      NobodyCarries(ants[..|ants| - 1]);
    }
  }

  lemma NewWorldBooks(c: Config)
    requires ValidConfig(c)
    ensures var w := NewWorld(c);
      && w.collected == 0 && Carrying(w.ants) == 0 && w.foodLeft == Wrapped(TotalFood(c.food))
      && w.food == FoodGrid(c, c.food)
  {
    NobodyCarries(NewWorld(c).ants);
    hide Carrying;
    hide TotalFood;
    hide FoodGrid;
    hide ValidConfig;
    hide Wrapped;
  }

  lemma FoodGridSum(c: Config)
    requires ValidConfig(c)
    ensures Wrapped(Sum(FoodGrid(c, c.food))) == Wrapped(TotalFood(c.food))
  {
    UnitGridSum(c, |c.food|);
    assert c.food[..|c.food|] == c.food;
    hide UnitGrid;
    hide TotalFood;
    hide Sum;
    hide Wrapped;
    hide ValidConfig;
    WrappedCells(UnitGrid(c, c.food), FoodGrid(c, c.food));
  }

  lemma NewWorldBalanced(c: Config)
    requires ValidConfig(c)
    ensures Balanced(NewWorld(c), TotalFood(c.food))
  {
    NewWorldBooks(c);
    FoodGridSum(c);
    WrappedSum(0, TotalFood(c.food));
    hide *;
    BooksBalance(NewWorld(c), TotalFood(c.food));
  }

  lemma BooksBalance(w: World, total: int)
    requires w.collected == 0 && Carrying(w.ants) == 0 && w.foodLeft == Wrapped(total)
    requires Wrapped(Sum(w.food)) == Wrapped(total)
    ensures Balanced(w, total)
  {
    hide Carrying;
    hide Sum;
  }

  lemma PositiveAmounts(c: Config)
    requires ValidConfig(c)
    ensures forall i :: 0 <= i < |c.food| ==> c.food[i].amount > 0
  {
    forall i | 0 <= i < |c.food|
      ensures c.food[i].amount > 0
    {
      assert FoodOk(c, c.food[i]);
    }
  }

  /** When the total fits, no cell wraps. */
  lemma UnitsFit(c: Config)
    requires ValidConfig(c) && TotalFood(c.food) < TWO_63
    ensures FoodGrid(c, c.food) == UnitGrid(c, c.food)
    ensures forall i :: 0 <= i < |UnitGrid(c, c.food)| ==> UnitGrid(c, c.food)[i] >= 0
    ensures TotalFood(c.food) >= 0
  {
    var g, u := FoodGrid(c, c.food), UnitGrid(c, c.food);
    PositiveAmounts(c);
    UnitsBelow(c.food, 0, 0);
    hide ValidConfig;
    hide TotalFood;
    hide UnitsAt;
    hide Wrapped;
    forall i | 0 <= i < |g|
      ensures g[i] == u[i] >= 0
    {
      UnitsBelow(c.food, i % c.width, i / c.width);
      WrappedFits(u[i]);
    }
    assert g == u;
  }

  lemma NewWorldExact(c: Config)
    requires ValidConfig(c) && TotalFood(c.food) < TWO_63
    ensures Exact(NewWorld(c), TotalFood(c.food))
  {
    hide *;
    NewWorldBooks(c);
    UnitsFit(c);
    UnitGridSum(c, |c.food|);
    assert c.food[..|c.food|] == c.food;
    WrappedFits(TotalFood(c.food));
    ExactBooks(NewWorld(c), TotalFood(c.food));
  }

  lemma ExactBooks(w: World, total: int)
    requires w.collected == 0 && Carrying(w.ants) == 0 && w.foodLeft == total && Sum(w.food) == total
    requires forall c :: 0 <= c < |w.food| ==> w.food[c] >= 0
    ensures Exact(w, total)
  {
    hide Carrying;
    hide Sum;
  }

  // What a run keeps.

  /** A cell's count is as it was, or between zero and what it was. */
  predicate NotOverdrawn(before: int, now: int) {
    if before <= 0 then now == before else 0 <= now <= before
  }

  predicate NoneOverdrawn(before: seq<Int64>, now: seq<Int64>) {
    |before| == |now| && forall i :: 0 <= i < |now| ==> NotOverdrawn(before[i], now[i])
  }

  lemma {:induction false} RunFood(env: Env, w: World, t: nat, i: nat)
    requires Ok(env, w) && i < env.w * env.h
    ensures NotOverdrawn(w.food[i], Run(env, w, t).food[i])
    decreases t
  {
    hide Tick;
    if t > 0 {
      RunFood(env, w, t - 1, i);
      TickFood(env, Run(env, w, t - 1), i);
    }
  }

  /**
   After any number of ticks of any engine, on every valid config: collected +
   carrying + left agrees with the food the config placed modulo 2^64, what is left
   is what lies on the grid, and no cell is overdrawn.
   */
  lemma FoodConserved(c: Config, rules: Rules, t: nat)
    requires ValidConfig(c)
    ensures var w := WorldAt(c, rules, t);
      && Wrapped(w.collected + Carrying(w.ants) + w.foodLeft) == Wrapped(TotalFood(c.food))
      && w.foodLeft == Wrapped(Sum(w.food))
      && NoneOverdrawn(NewWorld(c).food, w.food)
  {
    hide *;
    WorldBalanced(c, rules, t);
    WorldFood(c, rules, t);
    BalancedMeans(WorldAt(c, rules, t), TotalFood(c.food));
  }

  lemma BalancedMeans(w: World, total: int)
    requires Balanced(w, total)
    ensures Wrapped(w.collected + Carrying(w.ants) + w.foodLeft) == Wrapped(total)
    ensures w.foodLeft == Wrapped(Sum(w.food))
  {
  }

  lemma WorldFood(c: Config, rules: Rules, t: nat)
    requires ValidConfig(c)
    ensures NoneOverdrawn(NewWorld(c).food, WorldAt(c, rules, t).food)
  {
    NewWorldOk(c, rules);
    hide NotOverdrawn;
    hide Run;
    var w, r := NewWorld(c), WorldAt(c, rules, t);
    forall i | 0 <= i < |r.food|
      ensures NotOverdrawn(w.food[i], r.food[i])
    {
      RunFood(NewEnv(c, rules), w, t, i);
    }
  }

  lemma WorldBalanced(c: Config, rules: Rules, t: nat)
    requires ValidConfig(c)
    ensures Balanced(WorldAt(c, rules, t), TotalFood(c.food))
    ensures TotalFood(c.food) < TWO_63 ==> Exact(WorldAt(c, rules, t), TotalFood(c.food))
  {
    NewWorldOk(c, rules);
    NewWorldBalanced(c);
    if TotalFood(c.food) < TWO_63 {
      NewWorldExact(c);
    }
    hide Balanced;
    hide Exact;
    hide NewWorld;
    hide NewEnv;
    hide Run;
    hide TotalFood;
    hide ValidConfig;
    hide Ok;
    RunBalanced(NewEnv(c, rules), NewWorld(c), t, TotalFood(c.food));
  }

  /**
   The counts are exact and natural at every tick of every run if and only if the
   configured total fits a Go int.
   */
  lemma FoodExactlyConserved(c: Config, rules: Rules)
    requires ValidConfig(c)
    ensures (forall t: nat :: Exact(WorldAt(c, rules, t), TotalFood(c.food))) <==> TotalFood(c.food) < TWO_63
  {
    if TotalFood(c.food) < TWO_63 {
      forall t: nat
        ensures Exact(WorldAt(c, rules, t), TotalFood(c.food))
      {
        WorldBalanced(c, rules, t);
      }
    } else {
      InitialTotal(c, rules);
      assert !Exact(WorldAt(c, rules, 0), TotalFood(c.food));
    }
  }

  lemma InitialTotal(c: Config, rules: Rules)
    requires ValidConfig(c)
    ensures Exact(WorldAt(c, rules, 0), TotalFood(c.food)) ==> TotalFood(c.food) < TWO_63
  {
    NewWorldOk(c, rules);
    RunZero(NewEnv(c, rules), NewWorld(c));
    NobodyCarries(NewWorld(c).ants);
    hide Run;
    hide FoodGrid;
    hide TotalFood;
    hide Sum;
    hide Carrying;
  }

  /** Two piles of 2^63 - 1 on one cell pass Validate and leave that cell, and the count of all food, at -2. */
  const OVERFLOWING := Config(1, "", 0, 2, 2, 1, 1, Point(0, 0), [],
    [FoodPile(Point(1, 1), 0x7FFF_FFFF_FFFF_FFFF), FoodPile(Point(1, 1), 0x7FFF_FFFF_FFFF_FFFF)],
    Pheromone(1, 1, 1, 1, 0, 1, 1), Movement(0, 1))

  lemma OverflowingPiles()
    ensures ValidConfig(OVERFLOWING) && TotalFood(OVERFLOWING.food) == TWO_64 - 2
    ensures NewWorld(OVERFLOWING).food[3] == -2 && NewWorld(OVERFLOWING).foodLeft == -2
  {
    var fs := OVERFLOWING.food;
    assert fs[..1][..0] == [] && fs[..1][0] == fs[0];
    assert TotalFood(fs[..1]) == fs[0].amount;
    assert UnitsAt(fs[..1], 1, 1) == fs[0].amount;
    assert UnitGrid(OVERFLOWING, fs)[3] == UnitsAt(fs, 1, 1);
  }
}
