/**
 A blocked ant gets free: with no wandering, an ant off the nest leaves its cell
 within two ticks exactly when its cone or the reversed cone has an open cell.
 */
module Freedom {
  import opened Config
  import opened Rng
  import opened Grid
  import opened Colony
  import opened Start
  import opened Ticks

  predicate OnNest(env: Env, a: Ant) {
    a.x == env.nest.x && a.y == env.nest.y
  }

  predicate Hungry(env: Env, w: World, i: nat)
    requires Ok(env, w) && i < |w.ants|
  {
    var a := w.ants[i];
    IdxRoundTrip(env.w, env.h, a.x, a.y);
    !a.hasFood && !OnNest(env, a) ==> w.food[Idx(env.w, a.x, a.y)] <= 0
  }

  /** A searching ant off the nest never stands on food. */
  predicate NoneOnFood(env: Env, w: World)
    requires Ok(env, w)
  {
    forall i :: 0 <= i < |w.ants| ==> Hungry(env, w, i)
  }

  lemma TickHungry(env: Env, w: World, i: nat)
    requires Ok(env, w) && i < |w.ants|
    ensures Hungry(env, Tick(env, w), i)
  {
    TickAnt(env, w, i);
    hide Tick;
    hide Ok;
    hide Decision;
  }

  /** The invariant holds at every tick of every run, whatever the rules. */
  lemma NeverStandsOnFood(c: Config, rules: Rules, t: nat)
    requires ValidConfig(c)
    ensures NoneOnFood(NewEnv(c, rules), WorldAt(c, rules, t))
  {
    NewWorldOk(c, rules);
    var env, w := NewEnv(c, rules), WorldAt(c, rules, t);
    if t > 0 {
      var v := WorldAt(c, rules, t - 1);
      assert w == Tick(env, v);
      hide Tick;
      hide Ok;
      forall i | 0 <= i < |w.ants|
        ensures Hungry(env, w, i)
      {
        TickHungry(env, v, i);
      }
    }
  }

  /** With RandomNum = 0, one tick moves an ant exactly when its cone is open; otherwise it turns around. */
  lemma GreedyTick(env: Env, w: World, i: nat)
    requires Ok(env, w) && i < |w.ants| && env.movement.randomNum == 0
    ensures var a, n := w.ants[i], Decision(env, w, i);
      if Open(env, a.x, a.y, a.dir) then n.nx != a.x || n.ny != a.y
      else n == Intent(a.x, a.y, Turn(a.dir, 4), true)
  {
    var a := w.ants[i];
    var roll := Draw(a.rng, env.movement.randomDen);
    GreedyDecision(env, if a.hasFood then w.pheroHome else w.pheroFood, w.food, a.x, a.y, a.dir, a.hasFood,
      roll.value, Draw(roll.rest, 3).value);
    hide Decide;
    hide Draw;
    hide Open;
  }

  predicate SamePlace(a: Ant, b: Ant) {
    a.x == b.x && a.y == b.y
  }

  /** Facing the walls, an ant off the nest stays in state and turns around. */
  lemma BlockedTick(env: Env, w: World, i: nat)
    requires Ok(env, w) && i < |w.ants| && env.movement.randomNum == 0
    requires Hungry(env, w, i) && !OnNest(env, w.ants[i])
    requires !Open(env, w.ants[i].x, w.ants[i].y, w.ants[i].dir)
    ensures SamePlace(Tick(env, w).ants[i], w.ants[i])
    ensures Tick(env, w).ants[i].dir == Turn(w.ants[i].dir, 4)
    ensures Tick(env, w).ants[i].hasFood == w.ants[i].hasFood
  {
    GreedyTick(env, w, i);
    TickAnt(env, w, i);
    hide Tick;
    hide Ok;
    hide Open;
    hide Decision;
  }

  lemma OpenTick(env: Env, w: World, i: nat)
    requires Ok(env, w) && i < |w.ants| && env.movement.randomNum == 0
    ensures !SamePlace(Tick(env, w).ants[i], w.ants[i]) <==> Open(env, w.ants[i].x, w.ants[i].y, w.ants[i].dir)
  {
    GreedyTick(env, w, i);
    TickAnt(env, w, i);
    hide Tick;
    hide Ok;
    hide Open;
    hide Decision;
  }

  /** After one of the next two ticks the ant stands elsewhere. */
  ghost predicate Leaves(env: Env, w: World, i: nat)
    requires Ok(env, w) && i < |w.ants|
  {
    !SamePlace(Tick(env, w).ants[i], w.ants[i]) || !SamePlace(Tick(env, Tick(env, w)).ants[i], w.ants[i])
  }

  lemma LeavesWithinTwo(env: Env, w: World, i: nat)
    requires Ok(env, w) && i < |w.ants| && env.movement.randomNum == 0
    requires Hungry(env, w, i) && !OnNest(env, w.ants[i])
    ensures var a := w.ants[i];
      Leaves(env, w, i) <==> Open(env, a.x, a.y, a.dir) || Open(env, a.x, a.y, Turn(a.dir, 4))
  {
    var a := w.ants[i];
    OpenTick(env, w, i);
    if !Open(env, a.x, a.y, a.dir) {
      BlockedTick(env, w, i);
      OpenTick(env, Tick(env, w), i);
    }
    hide Tick;
    hide Ok;
    hide Open;
  }

  /**
   In every reachable world with RandomNum = 0, an ant off the nest leaves its cell
   within two ticks if and only if its cone or the reversed cone has an open cell.
   */
  lemma BlockedAntsGetFree(c: Config, rules: Rules, t: nat, i: nat)
    requires ValidConfig(c) && c.movement.randomNum == 0 && i < c.antCount
    requires !OnNest(NewEnv(c, rules), WorldAt(c, rules, t).ants[i])
    ensures var env, w := NewEnv(c, rules), WorldAt(c, rules, t);
      var a := w.ants[i];
      Leaves(env, w, i) <==> Open(env, a.x, a.y, a.dir) || Open(env, a.x, a.y, Turn(a.dir, 4))
  {
    NeverStandsOnFood(c, rules, t);
    LeavesWithinTwo(NewEnv(c, rules), WorldAt(c, rules, t), i);
    hide Leaves;
    hide Open;
    hide Ok;
  }
}
