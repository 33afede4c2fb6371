/**
 What one commit phase does to a single ant, a single cell of food and a single
 cell of deposits, although the loop handles the ants one at a time.
 */
module Commits {
  import opened Words
  import opened Config
  import opened Grid
  import opened Colony

  /** The cell ant i intends to stand on. */
  function Target(env: Env, w: World, i: nat): (c: nat)
    requires Ready(env, w) && i < |w.ants|
    ensures c < env.w * env.h
  {
    IdxRoundTrip(env.w, env.h, w.intents[i].nx, w.intents[i].ny);
    Idx(env.w, w.intents[i].nx, w.intents[i].ny)
  }

  /** The ant as its own commit iteration leaves it. */
  function AntAfter(env: Env, w: World, i: nat): Ant
    requires Ready(env, w) && i < |w.ants|
  {
    CommitOne(env, CommitTo(env, w, i), i).ants[i]
  }

  /** A commit iteration touches its own ant only. */
  lemma CommitOneOthers(env: Env, w: World, i: nat, j: nat)
    requires Ready(env, w) && i < |w.ants| && j < |w.ants| && j != i
    ensures CommitOne(env, w, i).ants[j] == w.ants[j]
  {
  }

  lemma {:induction false} CommitUntouched(env: Env, w: World, n: nat, j: nat)
    requires Ready(env, w) && n <= j < |w.ants|
    ensures CommitTo(env, w, n).ants[j] == w.ants[j]
    decreases n
  {
    hide CommitOne;
    hide Ready;
    if n > 0 {
      CommitUntouched(env, w, n - 1, j);
      CommitOneOthers(env, CommitTo(env, w, n - 1), n - 1, j);
    }
  }

  lemma {:induction false} CommitSettled(env: Env, w: World, n: nat, j: nat)
    requires Ready(env, w) && j < n <= |w.ants|
    ensures CommitTo(env, w, n).ants[j] == AntAfter(env, w, j)
    decreases n
  {
    hide CommitOne;
    hide Ready;
    if n > j + 1 {
      CommitSettled(env, w, n - 1, j);
      CommitOneOthers(env, CommitTo(env, w, n - 1), n - 1, j);
    }
  }

  /** An iteration in terms of its own ant and cell. */
  lemma CommitOneEffect(env: Env, w: World, i: nat)
    requires Ready(env, w) && i < |w.ants|
    ensures var a, b, r := w.ants[i], CommitOne(env, w, i).ants[i], CommitOne(env, w, i);
      var n, c := w.intents[i], Target(env, w, i);
      var picks, drops := !a.hasFood && w.food[c] > 0, a.hasFood && n.nx == env.nest.x && n.ny == env.nest.y;
      && b.x == n.nx && b.y == n.ny && b.rng == a.rng && b.id == a.id
      && b.hasFood == (picks || (a.hasFood && !drops))
      && b.dir == (if picks || drops then Turn(n.dir, 4) else n.dir)
      && b.steps == (if (picks || drops) && env.rules.anchored then 0 else a.steps + 1)
      && r.food == (if picks then w.food[c := w.food[c] - 1] else w.food)
      && r.foodLeft == (if picks then Plus(w.foodLeft, -1) else w.foodLeft)
      && r.collected == (if drops then Plus(w.collected, 1) else w.collected)
  {
    hide Key;
    hide Falloff;
    hide AddSat;
  }

  lemma CommitOneMarks(env: Env, w: World, i: nat)
    requires Ready(env, w) && i < |w.ants|
    ensures var r := CommitOne(env, w, i);
      var b, c, max := r.ants[i], Target(env, w, i), env.pheromone.max;
      && r.depFood == (if b.hasFood then w.depFood[c := AddSat(w.depFood[c], Mark(env, b), max)] else w.depFood)
      && r.depHome == (if b.hasFood then w.depHome else w.depHome[c := AddSat(w.depHome[c], Mark(env, b), max)])
  {
    hide Key;
    hide AddSat;
    hide Mark;
  }

  // Conflict resolution.

  /** How many of the first n ants are searching and head for cell c. */
  function Seekers(env: Env, w: World, c: nat, n: nat): nat
    requires Ready(env, w) && n <= |w.ants|
  {
    if n == 0 then 0
    else Seekers(env, w, c, n - 1) + (if !w.ants[n - 1].hasFood && Target(env, w, n - 1) == c then 1 else 0)
  }

  /** What a cell holds after so many ants have tried to take a unit: a count that is not positive is never touched. */
  function Left(food: int, seekers: nat): int {
    if food > seekers then food - seekers else if food > 0 then 0 else food
  }

  lemma LeftPositive(food: int, seekers: nat)
    ensures Left(food, seekers) > 0 <==> seekers < food
  {
  }

  /** One more seeker takes one more unit, if there is one. */
  lemma LeftNext(food: int, seekers: nat)
    ensures Left(food, seekers + 1) == (if Left(food, seekers) > 0 then Left(food, seekers) - 1 else Left(food, seekers))
  {
  }

  /** An iteration changes the count of cell c exactly when a searching ant arrives there and finds food. */
  lemma CommitOneFood(env: Env, w: World, i: nat, c: nat)
    requires Ready(env, w) && i < |w.ants| && c < env.w * env.h
    ensures CommitOne(env, w, i).food[c] ==
      if !w.ants[i].hasFood && Target(env, w, i) == c && w.food[c] > 0 then w.food[c] - 1 else w.food[c]
  {
    CommitOneEffect(env, w, i);
    hide CommitOne;
  }

  lemma TargetSame(env: Env, v: World, w: World, i: nat)
    requires Ready(env, v) && Ready(env, w) && i < |v.ants| && i < |w.ants| && v.intents == w.intents
    ensures Target(env, v, i) == Target(env, w, i)
  {
  }

  lemma SeekersNext(env: Env, w: World, c: nat, n: nat)
    requires Ready(env, w) && n < |w.ants|
    ensures Seekers(env, w, c, n + 1) ==
      Seekers(env, w, c, n) + (if !w.ants[n].hasFood && Target(env, w, n) == c then 1 else 0)
  {
  }

  /** After n commits a cell has lost one unit per seeker, as long as it lasted. */
  lemma {:induction false} FoodAfter(env: Env, w: World, n: nat, c: nat)
    requires Ready(env, w) && n <= |w.ants| && c < env.w * env.h
    ensures CommitTo(env, w, n).food[c] == Left(w.food[c], Seekers(env, w, c, n))
    decreases n
  {
    hide *;
    if n == 0 {
      FoodBefore(env, w, c);
    } else {
      FoodAfter(env, w, n - 1, c);
      FoodAfterStep(env, w, n - 1, c);
    }
  }

  lemma FoodBefore(env: Env, w: World, c: nat)
    requires Ready(env, w) && c < env.w * env.h
    ensures CommitTo(env, w, 0).food[c] == Left(w.food[c], Seekers(env, w, c, 0))
  {
    hide CommitOne;
  }

  lemma ReadyFood(env: Env, w: World)
    requires Ready(env, w)
    ensures |w.food| == env.w * env.h && |w.intents| == |w.ants|
  {
  }

  lemma FoodAfterStep(env: Env, w: World, n: nat, c: nat)
    requires Ready(env, w) && n < |w.ants| && c < env.w * env.h
    requires CommitTo(env, w, n).food[c] == Left(w.food[c], Seekers(env, w, c, n))
    ensures CommitTo(env, w, n + 1).food[c] == Left(w.food[c], Seekers(env, w, c, n + 1))
  {
    ReadyFood(env, w);
    hide CommitOne;
    hide Ready;
    hide Left;
    hide Seekers;
    hide Target;
    var v := CommitTo(env, w, n);
    CommitUntouched(env, w, n, n);
    CommitOneFood(env, v, n, c);
    TargetSame(env, v, w, n);
    SeekersNext(env, w, c, n);
    LeftNext(w.food[c], Seekers(env, w, c, n));
  }

  lemma {:induction false} SeekersGrow(env: Env, w: World, c: nat, m: nat, n: nat)
    requires Ready(env, w) && m <= n <= |w.ants|
    ensures Seekers(env, w, c, m) <= Seekers(env, w, c, n)
    decreases n
  {
    hide Ready;
    if m < n {
      SeekersGrow(env, w, c, m, n - 1);
    }
  }

  /** Ant i picks up food in this commit: fewer searching ants come before it than its cell has units. */
  predicate Picks(env: Env, w: World, i: nat)
    requires Ready(env, w) && i < |w.ants|
  {
    var c := Target(env, w, i);
    !w.ants[i].hasFood && Seekers(env, w, c, i) < w.food[c]
  }

  /** Ant i delivers food in this commit. */
  predicate Delivers(env: Env, w: World, i: nat)
    requires Ready(env, w) && i < |w.ants|
  {
    w.ants[i].hasFood && w.intents[i].nx == env.nest.x && w.intents[i].ny == env.nest.y
  }

  lemma CommitIs(env: Env, w: World, i: nat)
    requires Ready(env, w) && i < |w.ants|
    ensures Commit(env, w).ants[i] == CommitOne(env, CommitTo(env, w, i), i).ants[i]
    ensures CommitTo(env, w, i).ants[i] == w.ants[i] && CommitTo(env, w, i).intents == w.intents
  {
    hide CommitOne;
    hide Ready;
    CommitSettled(env, w, |w.ants|, i);
    CommitUntouched(env, w, i, i);
  }

  /** What the whole commit phase does to one ant, from the world it started in. */
  lemma CommitAnt(env: Env, w: World, i: nat)
    requires Ready(env, w) && i < |w.ants|
    ensures var a, r, n := w.ants[i], Commit(env, w).ants[i], w.intents[i];
      var switches := Picks(env, w, i) || Delivers(env, w, i);
      && r.x == n.nx && r.y == n.ny && r.rng == a.rng && r.id == a.id
      && r.hasFood == (if switches then !a.hasFood else a.hasFood)
      && r.dir == (if switches then Turn(n.dir, 4) else n.dir)
      && r.steps == (if switches && env.rules.anchored then 0 else a.steps + 1)
  {
    ReadyFood(env, w);
    hide CommitOne;
    hide CommitTo;
    hide Commit;
    hide Ready;
    hide Left;
    hide Seekers;
    hide Target;
    hide Turn;
    var v := CommitTo(env, w, i);
    CommitIs(env, w, i);
    CommitOneEffect(env, v, i);
    TargetSame(env, v, w, i);
    FoodAfter(env, w, i, Target(env, w, i));
    LeftPositive(w.food[Target(env, w, i)], Seekers(env, w, Target(env, w, i), i));
  }

  /**
   Of the searching ants that reach a cell in one commit, exactly the lowest
   indexed ones take its food, one unit each, until it runs out; carrying ants
   drop exactly on the nest.
   */
  lemma PickupsByIndex(env: Env, w: World, i: nat)
    requires Ready(env, w) && i < |w.ants|
    ensures var c := Target(env, w, i);
      Commit(env, w).ants[i].hasFood <==>
        if w.ants[i].hasFood then !(w.intents[i].nx == env.nest.x && w.intents[i].ny == env.nest.y)
        else Seekers(env, w, c, i) < w.food[c]
    ensures var c := Target(env, w, i);
      Commit(env, w).food[c] == Left(w.food[c], Seekers(env, w, c, |w.ants|))
  {
    hide CommitTo;
    hide Ready;
    hide Left;
    hide Seekers;
    hide Target;
    CommitAnt(env, w, i);
    FoodAfter(env, w, |w.ants|, Target(env, w, i));
  }

  // Deposits.

  function Capped(v: int, max: U32): int {
    if v > max then max else v
  }

  /** Ant i ends its commit on cell c, carrying or searching as asked. */
  predicate Here(env: Env, w: World, c: nat, food: bool, i: nat)
    requires Ready(env, w) && i < |w.ants|
  {
    AntAfter(env, w, i).hasFood == food && Target(env, w, i) == c
  }

  /** The marks the first n ants leave on cell c of the food grid, or of the home grid. */
  function Marks(env: Env, w: World, c: nat, food: bool, n: nat): nat
    requires Ready(env, w) && n <= |w.ants|
  {
    if n == 0 then 0
    else Marks(env, w, c, food, n - 1) + (if Here(env, w, c, food, n - 1) then Mark(env, AntAfter(env, w, n - 1)) else 0)
  }

  lemma AddSatCapped(v: nat, b: U32, max: U32)
    ensures AddSat(Capped(v, max), b, max) == Capped(v + b, max)
  {
  }

  /** The saturating additions, one ant at a time, amount to one capped sum. */
  lemma {:induction false} DepositsAfter(env: Env, w: World, n: nat, c: nat)
    requires Ready(env, w) && n <= |w.ants| && c < env.w * env.h && w.depFood[c] == 0 && w.depHome[c] == 0
    ensures CommitTo(env, w, n).depFood[c] == Capped(Marks(env, w, c, true, n), env.pheromone.max)
    ensures CommitTo(env, w, n).depHome[c] == Capped(Marks(env, w, c, false, n), env.pheromone.max)
    decreases n
  {
    hide CommitOne;
    hide Mark;
    hide AddSat;
    if n > 0 {
      var v := CommitTo(env, w, n - 1);
      var a := AntAfter(env, w, n - 1);
      DepositsAfter(env, w, n - 1, c);
      CommitOneMarks(env, v, n - 1);
      assert Target(env, v, n - 1) == Target(env, w, n - 1);
      AddSatCapped(Marks(env, w, c, true, n - 1), Mark(env, a), env.pheromone.max);
      AddSatCapped(Marks(env, w, c, false, n - 1), Mark(env, a), env.pheromone.max);
    }
  }

  /** How many of the first n ants end on cell c carrying, or searching. */
  function Standing(env: Env, w: World, c: nat, food: bool, n: nat): nat
    requires Ready(env, w) && n <= |w.ants|
  {
    if n == 0 then 0
    else Standing(env, w, c, food, n - 1) + (if Here(env, w, c, food, n - 1) then 1 else 0)
  }

  /** The configured deposit on either grid. */
  function Amount(env: Env, food: bool): nat {
    if food then env.pheromone.depositFood else env.pheromone.depositHome
  }

  lemma MarkIsAmount(env: Env, a: Ant)
    requires !env.rules.anchored
    ensures Mark(env, a) == Amount(env, a.hasFood)
  {
  }

  lemma OneMore(k: nat, n: nat)
    ensures k * (n + 1) == k * n + k
  {
  }

  lemma {:induction false} MarksAreEqual(env: Env, w: World, c: nat, food: bool, n: nat)
    requires Ready(env, w) && n <= |w.ants| && !env.rules.anchored
    ensures Marks(env, w, c, food, n) == Amount(env, food) * Standing(env, w, c, food, n)
    decreases n
  {
    hide AntAfter;
    hide Mark;
    hide Ready;
    hide Target;
    if n > 0 {
      MarksAreEqual(env, w, c, food, n - 1);
      MarkIsAmount(env, AntAfter(env, w, n - 1));
      OneMore(Amount(env, food), Standing(env, w, c, food, n - 1));
      hide Amount;
    }
  }

  /**
   Closed form of a commit's deposits on a clean buffer: the capped sum of the
   marks, which without falloff is min(Max, amount * number of ants).
   */
  lemma DepositsClosedForm(env: Env, w: World, c: nat)
    requires Ready(env, w) && c < env.w * env.h && w.depFood[c] == 0 && w.depHome[c] == 0
    ensures var n, r, max := |w.ants|, Commit(env, w), env.pheromone.max;
      && r.depFood[c] == Capped(Marks(env, w, c, true, n), max)
      && r.depHome[c] == Capped(Marks(env, w, c, false, n), max)
    ensures !env.rules.anchored ==>
      var n, r, max := |w.ants|, Commit(env, w), env.pheromone.max;
      && r.depFood[c] == Capped(Amount(env, true) * Standing(env, w, c, true, n), max)
      && r.depHome[c] == Capped(Amount(env, false) * Standing(env, w, c, false, n), max)
  {
    hide CommitTo;
    hide AntAfter;
    hide Marks;
    hide Standing;
    hide Amount;
    DepositsAfter(env, w, |w.ants|, c);
    if !env.rules.anchored {
      MarksAreEqual(env, w, c, true, |w.ants|);
      MarksAreEqual(env, w, c, false, |w.ants|);
    }
  }

  // The same sums over the ants as the commit leaves them.

  /** Ant a stands on cell c, carrying or searching as asked. */
  predicate StandsOn(env: Env, a: Ant, c: nat, food: bool) {
    a.hasFood == food && Idx(env.w, a.x, a.y) == c
  }

  /** What the ants that stand on cell c mark it with. */
  function MarksOn(env: Env, ants: seq<Ant>, c: nat, food: bool): nat {
    if |ants| == 0 then 0 else
    var a := ants[|ants| - 1];
    MarksOn(env, ants[..|ants| - 1], c, food) + (if StandsOn(env, a, c, food) then Mark(env, a) else 0)
  }

  /** How many ants stand on cell c. */
  function CountOn(env: Env, ants: seq<Ant>, c: nat, food: bool): nat {
    if |ants| == 0 then 0 else
    CountOn(env, ants[..|ants| - 1], c, food) + (if StandsOn(env, ants[|ants| - 1], c, food) then 1 else 0)
  }

  lemma AntAfterIs(env: Env, w: World, i: nat)
    requires Ready(env, w) && i < |w.ants|
    ensures AntAfter(env, w, i) == Commit(env, w).ants[i]
    ensures forall c: nat, food :: Here(env, w, c, food, i) <==> StandsOn(env, Commit(env, w).ants[i], c, food)
  {
    CommitIs(env, w, i);
    CommitAnt(env, w, i);
    hide Commit;
    hide CommitOne;
    hide CommitTo;
    hide Picks;
    hide Delivers;
    hide Ready;
  }

  lemma OnNext(env: Env, ants: seq<Ant>, c: nat, food: bool, n: nat)
    requires n < |ants|
    ensures MarksOn(env, ants[..n + 1], c, food) ==
      MarksOn(env, ants[..n], c, food) + (if StandsOn(env, ants[n], c, food) then Mark(env, ants[n]) else 0)
    ensures CountOn(env, ants[..n + 1], c, food) ==
      CountOn(env, ants[..n], c, food) + (if StandsOn(env, ants[n], c, food) then 1 else 0)
  {
    assert ants[..n + 1][..n] == ants[..n];
  }

  lemma HereNext(env: Env, w: World, c: nat, food: bool, n: nat)
    requires Ready(env, w) && n < |w.ants|
    ensures Marks(env, w, c, food, n + 1) ==
      Marks(env, w, c, food, n) + (if Here(env, w, c, food, n) then Mark(env, AntAfter(env, w, n)) else 0)
    ensures Standing(env, w, c, food, n + 1) == Standing(env, w, c, food, n) + (if Here(env, w, c, food, n) then 1 else 0)
  {
  }

  lemma NoneOn(env: Env, w: World, c: nat, food: bool)
    requires Ready(env, w)
    ensures Marks(env, w, c, food, 0) == MarksOn(env, Commit(env, w).ants[..0], c, food)
    ensures Standing(env, w, c, food, 0) == CountOn(env, Commit(env, w).ants[..0], c, food)
  {
    hide Commit;
  }

  lemma {:induction false} MarksAreFinal(env: Env, w: World, c: nat, food: bool, n: nat)
    requires Ready(env, w) && n <= |w.ants|
    ensures Marks(env, w, c, food, n) == MarksOn(env, Commit(env, w).ants[..n], c, food)
    ensures Standing(env, w, c, food, n) == CountOn(env, Commit(env, w).ants[..n], c, food)
    decreases n
  {
    hide *;
    if n == 0 {
      NoneOn(env, w, c, food);
    } else {
      MarksAreFinal(env, w, c, food, n - 1);
      HereNext(env, w, c, food, n - 1);
      OnNext(env, Commit(env, w).ants, c, food, n - 1);
      AntAfterIs(env, w, n - 1);
    }
  }

  /** On cell c, both deposits are the capped sums of what the given ants mark it with. */
  predicate DepositsMatch(env: Env, w: World, ants: seq<Ant>, c: nat)
    requires c < |w.depFood| && c < |w.depHome|
  {
    var max := env.pheromone.max;
    && w.depFood[c] == Capped(MarksOn(env, ants, c, true), max)
    && w.depHome[c] == Capped(MarksOn(env, ants, c, false), max)
    && (!env.rules.anchored ==>
          && w.depFood[c] == Capped(Amount(env, true) * CountOn(env, ants, c, true), max)
          && w.depHome[c] == Capped(Amount(env, false) * CountOn(env, ants, c, false), max))
  }

  lemma ReadyDeposits(env: Env, w: World)
    requires Ready(env, w)
    ensures |w.depFood| == |w.depHome| == env.w * env.h
  {
  }

  /** A commit on a clean cell leaves what the ants that end there mark it with. */
  lemma DepositsOfAnts(env: Env, w: World, c: nat)
    requires Ready(env, w) && c < env.w * env.h && w.depFood[c] == 0 && w.depHome[c] == 0
    ensures c < |Commit(env, w).depFood| && c < |Commit(env, w).depHome|
    ensures DepositsMatch(env, Commit(env, w), Commit(env, w).ants, c)
  {
    var r, n := Commit(env, w), |w.ants|;
    ReadyDeposits(env, r);
    hide Commit;
    hide Ready;
    hide Marks;
    hide Standing;
    hide MarksOn;
    hide CountOn;
    hide Capped;
    hide Amount;
    DepositsClosedForm(env, w, c);
    MarksAreFinal(env, w, c, true, n);
    MarksAreFinal(env, w, c, false, n);
    assert r.ants[..n] == r.ants;
  }
}
