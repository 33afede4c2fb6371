/**
 Anchored rules (gradient, scent): an ant's Steps is at least the walking
 distance from its anchor, so a deposit never promises to be closer than it is.
 */
module Geodesic {
  import opened Words
  import opened Config
  import opened Stencil
  import opened Rng
  import opened Colony
  import opened Start
  import opened Ticks

  datatype Place = Place(x: int, y: int)

  /** A walk of at most n eight-neighbour steps over open cells joins (ax, ay) to (x, y). */
  ghost predicate Within(env: Env, ax: int, ay: int, x: int, y: int, n: nat)
    requires |env.walls| == env.w * env.h
    decreases n
  {
    Passable(env, x, y) &&
    if n == 0 then ax == x && ay == y
    else Within(env, ax, ay, x, y, n - 1) ||
         exists d :: 0 <= d < 8 && Within(env, ax, ay, x - DX[d], y - DY[d], n - 1)
  }

  /** The cell of ant i's last anchor event: the nest at first, then wherever it last picked up or dropped. */
  ghost function Anchor(env: Env, w: World, t: nat, i: nat): Place
    requires Ok(env, w) && i < |w.ants|
    decreases t
  {
    if t == 0 then Place(env.nest.x, env.nest.y)
    else
      var a, r := Run(env, w, t - 1).ants[i], Run(env, w, t).ants[i];
      if r.hasFood != a.hasFood then Place(r.x, r.y) else Anchor(env, w, t - 1, i)
  }

  /** A decision moves to the same or a neighbouring cell. */
  lemma DecisionIsStep(env: Env, w: World, i: nat)
    requires Ok(env, w) && i < |w.ants|
    ensures OneStep(w.ants[i].x, w.ants[i].y, Decision(env, w, i))
  {
    var a := w.ants[i];
    var roll := Draw(a.rng, env.movement.randomDen);
    var pick := Draw(roll.rest, 3);
    hide Draw;
    DecideIsStep(env, if a.hasFood then w.pheroHome else w.pheroFood, w.food, a.x, a.y, a.dir, a.hasFood,
      roll.value, pick.value);
    hide Decide;
  }

  predicate OneStep(x: int, y: int, n: Intent) {
    (n.nx == x && n.ny == y) || exists d :: 0 <= d < 8 && n.nx == x + DX[d] && n.ny == y + DY[d]
  }

  lemma StepIsStep(env: Env, x: int, y: int, d: int)
    requires |env.walls| == env.w * env.h && Heading(d)
    ensures OneStep(x, y, Step(env, x, y, d))
  {
  }

  lemma DecideIsStep(env: Env, trail: Levels, food: seq<int>, x: int, y: int, dir: int, hasFood: bool, roll: U32, pick: int)
    requires EnvOk(env) && |trail| == |food| == env.w * env.h && Heading(dir) && 0 <= pick < 3
    ensures OneStep(x, y, Decide(env, trail, food, x, y, dir, hasFood, roll, pick))
  {
    hide Step;
    hide Best;
    hide Scores;
    forall d | Heading(d)
      ensures OneStep(x, y, Step(env, x, y, d))
    {
      StepIsStep(env, x, y, d);
    }
    hide OneStep;
    assert OneStep(x, y, Intent(x, y, Turn(dir, 4), true)) by {
      StayIsStep(x, y, Turn(dir, 4));
    }
  }

  lemma StayIsStep(x: int, y: int, d: int)
    ensures OneStep(x, y, Intent(x, y, d, true))
  {
  }

  /** Ant i stands within Steps walking steps of its anchor, and a searching ant's anchor is the nest. */
  ghost predicate Anchored(env: Env, w: World, t: nat, i: nat)
    requires Ok(env, w) && i < |w.ants|
  {
    var a, p := Run(env, w, t).ants[i], Anchor(env, w, t, i);
    && Within(env, p.x, p.y, a.x, a.y, a.steps)
    && (!a.hasFood ==> p == Place(env.nest.x, env.nest.y))
  }

  /** Staying or stepping to an open neighbour lengthens the walk by at most one. */
  lemma WithinStep(env: Env, ax: int, ay: int, x: int, y: int, n: nat, next: Intent)
    requires |env.walls| == env.w * env.h && Within(env, ax, ay, x, y, n)
    requires OneStep(x, y, next) && Passable(env, next.nx, next.ny)
    ensures Within(env, ax, ay, next.nx, next.ny, n + 1)
  {
    hide Passable;
    if next.nx != x || next.ny != y {
      var d :| 0 <= d < 8 && next.nx == x + DX[d] && next.ny == y + DY[d];
      assert Within(env, ax, ay, next.nx - DX[d], next.ny - DY[d], n);
    }
  }

  lemma AnchorStep(env: Env, w: World, t: nat, i: nat)
    requires Ok(env, w) && i < |w.ants|
    ensures var a, r := Run(env, w, t).ants[i], Run(env, w, t + 1).ants[i];
      Anchor(env, w, t + 1, i) == if r.hasFood != a.hasFood then Place(r.x, r.y) else Anchor(env, w, t, i)
  {
    hide Run;
    hide Ok;
  }

  lemma WithinHere(env: Env, x: int, y: int, n: nat)
    requires |env.walls| == env.w * env.h && Passable(env, x, y)
    ensures Within(env, x, y, x, y, n)
    decreases n
  {
    hide Passable;
    if n > 0 {
      WithinHere(env, x, y, n - 1);
    }
  }

  lemma AnchoredStep(env: Env, w: World, t: nat, i: nat)
    requires Ok(env, w) && i < |w.ants| && env.rules.anchored && Anchored(env, w, t, i)
    ensures Anchored(env, w, t + 1, i)
  {
    hide Run;
    hide Tick;
    hide Within;
    hide Anchor;
    hide Decision;
    hide OneStep;
    hide Passable;
    hide Destination;
    var v, p := Run(env, w, t), Anchor(env, w, t, i);
    assert |env.walls| == env.w * env.h;
    hide Ok;
    RunStep(env, w, t);
    TickAnt(env, v, i);
    DecisionIsStep(env, v, i);
    AnchorStep(env, w, t, i);
    var a, r, n := v.ants[i], Tick(env, v).ants[i], Decision(env, v, i);
    WithinStep(env, p.x, p.y, a.x, a.y, a.steps, n);
    WithinHere(env, r.x, r.y, r.steps);
  }

  /** In every reachable state of an anchored engine. */
  lemma {:induction false} StepsCoverTheWalk(env: Env, w: World, t: nat, i: nat)
    requires Ok(env, w) && i < |w.ants| && env.rules.anchored && Anchored(env, w, 0, i)
    ensures Anchored(env, w, t, i)
    decreases t
  {
    hide Ok;
    hide Anchored;
    if t > 0 {
      StepsCoverTheWalk(env, w, t - 1, i);
      AnchoredStep(env, w, t - 1, i);
    }
  }

  lemma NewAntAnchored(c: Config, rules: Rules, i: nat)
    requires ValidConfig(c) && i < c.antCount
    ensures Ok(NewEnv(c, rules), NewWorld(c)) && Anchored(NewEnv(c, rules), NewWorld(c), 0, i)
  {
    NewWorldOk(c, rules);
  }

  // What that means for the deposits.

  lemma WithinOpen(env: Env, ax: int, ay: int, x: int, y: int, m: nat, n: nat)
    requires |env.walls| == env.w * env.h && m <= n && Within(env, ax, ay, x, y, m)
    ensures Within(env, ax, ay, x, y, n)
    decreases n
  {
    if m < n {
      WithinOpen(env, ax, ay, x, y, m, n - 1);
      WithinPassable(env, ax, ay, x, y, m);
    }
  }

  lemma WithinPassable(env: Env, ax: int, ay: int, x: int, y: int, n: nat)
    requires |env.walls| == env.w * env.h && Within(env, ax, ay, x, y, n)
    ensures Passable(env, x, y)
  {
  }

  /** d is the walking distance from (ax, ay) to (x, y). */
  ghost predicate Distance(env: Env, ax: int, ay: int, x: int, y: int, d: nat)
    requires |env.walls| == env.w * env.h
  {
    Within(env, ax, ay, x, y, d) && forall n: nat :: Within(env, ax, ay, x, y, n) ==> d <= n
  }

  /** A longer walk never earns a larger deposit. */
  lemma FalloffMonotone(base: U32, d: nat, steps: nat)
    requires d <= steps
    ensures Falloff(base, steps) <= Falloff(base, d)
  {
    var j, k := d / HALF_LIFE, steps / HALF_LIFE;
    assert j <= k;
    Pow2Monotone(j, k);
    DivBelow(base, Pow2(j));
    DivBelow(base, Pow2(k));
    if k < 32 {
      SmallerQuotient(base, Pow2(j), Pow2(k));
    }
    if d == 0 || d / HALF_LIFE == 0 {
      assert Pow2(0) == 1;
    }
  }

  /** A deposit halves, rounding down, with every 16 further steps; the cut-off at 32 halvings changes nothing. */
  lemma FalloffHalves(base: U32, steps: nat)
    ensures Falloff(base, steps + HALF_LIFE) == Falloff(base, steps) / 2
  {
    var k := steps / HALF_LIFE;
    assert (steps + HALF_LIFE) / HALF_LIFE == k + 1;
    Pow2Values();
    DivDiv(base, Pow2(k), 2);
    assert Pow2(k + 1) == Pow2(k) * 2;
    assert Pow2(0) == 1;
    if k == 31 {
      QuotientBelow(base, Pow2(31), 2);
    }
  }

  lemma SmallerQuotient(a: nat, m: nat, n: nat)
    requires 0 < m <= n
    ensures a / n <= a / m
  {
    DivBelow(a, n);
    var q := a / n;
    assert a == n * q + a % n;
    ScaleBoth(q, m, n);
    assert q * n == n * q && q * m == m * q;
    QuotientAtLeast(a, m, q);
  }

  /** The anchor of ant i after t ticks of a run. */
  ghost function AnchorAt(c: Config, rules: Rules, t: nat, i: nat): Place
    requires ValidConfig(c) && i < c.antCount
  {
    NewWorldOk(c, rules);
    Anchor(NewEnv(c, rules), NewWorld(c), t, i)
  }

  /** A searching ant's anchor is the nest, and Steps bounds the walk from the anchor. */
  lemma StepsBoundTheWalk(c: Config, rules: Rules, t: nat, i: nat)
    requires ValidConfig(c) && rules.anchored && i < c.antCount
    ensures var env, a, p := NewEnv(c, rules), WorldAt(c, rules, t).ants[i], AnchorAt(c, rules, t, i);
      && Within(env, p.x, p.y, a.x, a.y, a.steps)
      && (!a.hasFood ==> p == Place(c.nest.x, c.nest.y))
  {
    var env, w := NewEnv(c, rules), NewWorld(c);
    NewAntAnchored(c, rules, i);
    StepsCoverTheWalk(env, w, t, i);
    hide Run;
    hide NewWorld;
    hide Ok;
    hide Within;
    hide Anchor;
  }

  /**
   Every deposit of a gradient or scent run is at most the base deposit halved once
   per 16 cells of walking distance between the ant's anchor and its cell.
   */
  lemma DepositsRespectDistance(c: Config, rules: Rules, t: nat, i: nat, d: nat)
    requires ValidConfig(c) && rules.anchored && i < c.antCount
    requires var env, a, p := NewEnv(c, rules), WorldAt(c, rules, t).ants[i], AnchorAt(c, rules, t, i);
      Distance(env, p.x, p.y, a.x, a.y, d)
    ensures var env, a := NewEnv(c, rules), WorldAt(c, rules, t).ants[i];
      && d <= a.steps
      && Mark(env, a) <= Falloff(if a.hasFood then c.pheromone.depositFood else c.pheromone.depositHome, d)
  {
    StepsBoundTheWalk(c, rules, t, i);
    var a := WorldAt(c, rules, t).ants[i];
    hide WorldAt;
    hide AnchorAt;
    hide Falloff;
    hide Within;
    FalloffMonotone(c.pheromone.depositFood, d, a.steps);
    FalloffMonotone(c.pheromone.depositHome, d, a.steps);
  }
}
