/**
 Where an ant goes next, in terms of the map it walks on: which cells are open,
 what it smells, which of the three headings it takes, and how wandering picks one.
 */
module Choices {
  import opened Words
  import opened Config
  import opened Rng
  import opened Grid
  import opened Colony
  import opened Start
  import opened Ticks

  // The plane.

  /** Headings go clockwise from north: 1, 2 and 3 lead east, 5, 6 and 7 west; y grows southward. */
  lemma Compass(d: int)
    requires Heading(d)
    ensures DX[d] == (if 1 <= d <= 3 then 1 else if d >= 5 then -1 else 0)
    ensures DY[d] == (if d == 7 || d <= 1 then -1 else if 3 <= d <= 5 then 1 else 0)
  {
  }

  /** Cheb is the king's distance: a cell is within n of p exactly if it lies in the square around p. */
  lemma WithinSquare(x: int, y: int, p: Point, n: nat)
    ensures Cheb(x, y, p) <= n <==> p.x - n <= x <= p.x + n && p.y - n <= y <= p.y + n
  {
  }

  /** The rectangle covers the cell, if its far edges are Go ints at all. */
  predicate OnWall(r: Rect, x: int, y: int) {
    && r.x <= x < r.x + r.w && r.y <= y < r.y + r.h
    && r.x + r.w < TWO_63 && r.y + r.h < TWO_63
  }

  lemma WallCovers(c: Config, r: Rect, x: int, y: int)
    requires WallOk(c, r)
    ensures Covers(r, x, y) <==> OnWall(r, x, y)
  {
    EdgeWraps(r.x, r.w);
    EdgeWraps(r.y, r.h);
    hide Plus;
  }

  lemma EdgeWraps(a: Int64, b: Int64)
    requires a >= 0 && b > 0
    ensures Plus(a, b) == if a + b < TWO_63 then a + b else a + b - TWO_64
  {
    if a + b < TWO_63 {
      WrappedFits(a + b);
    } else {
      ModUnique(a + b + TWO_63, TWO_64, 1, a + b - TWO_63);
    }
  }

  /** In the world of a config, a cell can be entered exactly if it is on the grid and under no wall. */
  lemma OpenCells(c: Config, rules: Rules, x: int, y: int)
    requires ValidConfig(c)
    ensures Passable(NewEnv(c, rules), x, y) <==>
      0 <= x < c.width && 0 <= y < c.height && forall k :: 0 <= k < |c.walls| ==> !OnWall(c.walls[k], x, y)
  {
    forall k | 0 <= k < |c.walls|
      ensures Covers(c.walls[k], x, y) <==> OnWall(c.walls[k], x, y)
    {
      WallCovers(c, c.walls[k], x, y);
    }
    hide Covers;
    hide OnWall;
    if Inside(c.width, c.height, x, y) {
      IdxRoundTrip(c.width, c.height, x, y);
    }
  }

  // What an ant smells.

  /** Pile k still holds food and lies within 24 cells. */
  predicate InScent(env: Env, food: seq<int>, x: int, y: int, k: nat)
    requires EnvOk(env) && |food| == env.w * env.h && k < |env.piles|
  {
    var p := env.piles[k];
    IdxRoundTrip(env.w, env.h, p.x, p.y);
    food[Idx(env.w, p.x, p.y)] > 0 && Cheb(x, y, p) <= 24
  }

  /** Pile k is in scent, none in scent is nearer, and no earlier one is as near. */
  predicate NearestInScent(env: Env, food: seq<int>, x: int, y: int, k: nat)
    requires EnvOk(env) && |food| == env.w * env.h && k < |env.piles|
  {
    InScent(env, food, x, y, k) &&
    forall j: nat :: j < |env.piles| && InScent(env, food, x, y, j) ==>
      Cheb(x, y, env.piles[k]) <= Cheb(x, y, env.piles[j]) &&
      (j < k ==> Cheb(x, y, env.piles[k]) < Cheb(x, y, env.piles[j]))
  }

  /** A searching ant of the scent rules smells the nearest live pile, the earliest of equals; no other ant smells anything. */
  lemma SmellsNearest(env: Env, food: seq<int>, x: int, y: int, hasFood: bool)
    requires EnvOk(env) && |food| == env.w * env.h
    ensures var s := Smelled(env, food, x, y, hasFood);
      && (s.NoScent? <==> hasFood || !env.rules.smell || forall k: nat :: k < |env.piles| ==> !InScent(env, food, x, y, k))
      && (s.At? ==> exists k: nat :: k < |env.piles| && NearestInScent(env, food, x, y, k) && s.p == env.piles[k])
  {
    NearestIsFirst(env, food, x, y, |env.piles|);
    var s := Smelled(env, food, x, y, hasFood);
    hide NearestScent;
    forall k: nat | k < |env.piles|
      ensures InScent(env, food, x, y, k) <==> Smellable(env, food, x, y, k)
    {
    }
    hide EnvOk;
    hide Cheb;
    hide InScent;
    hide Smellable;
    if s.At? {
      var k: nat :| k < |env.piles| && FirstNearest(env, food, x, y, |env.piles|, k) && s.p == env.piles[k];
      assert NearestInScent(env, food, x, y, k);
    }
  }

  /** Of the engines only scent lets its ants smell food, and only while they search. */
  lemma EngineScents(c: Config, food: seq<int>, x: int, y: int, hasFood: bool)
    requires ValidConfig(c) && |food| == c.width * c.height
    ensures Smelled(NewEnv(c, PLAIN), food, x, y, hasFood).NoScent? && Smelled(NewEnv(c, NO_TRAIL), food, x, y, hasFood).NoScent?
    ensures Smelled(NewEnv(c, GRADIENT), food, x, y, hasFood).NoScent?
    ensures Smelled(NewEnv(c, SCENT), food, x, y, false).NoScent? <==>
      forall k: nat :: k < |NewEnv(c, SCENT).piles| ==> !InScent(NewEnv(c, SCENT), food, x, y, k)
  {
    EnvIs(c, PLAIN);
    EnvIs(c, NO_TRAIL);
    EnvIs(c, GRADIENT);
    EnvIs(c, SCENT);
    hide NewEnv;
    hide InScent;
    SmellsNearest(NewEnv(c, SCENT), food, x, y, false);
    hide NearestScent;
  }

  /** What an ant is drawn to: the nest when it carries, otherwise what it smells. */
  function Lure(env: Env, food: seq<int>, x: int, y: int, hasFood: bool): Scent
    requires EnvOk(env) && |food| == env.w * env.h
  {
    if hasFood then At(env.nest) else Smelled(env, food, x, y, hasFood)
  }

  // The choice.

  /** The three headings: straight on, one eighth to the left, one eighth to the right. */
  function Ahead(dir: int, k: nat): (d: int)
    requires Heading(dir) && k < 3
    ensures Heading(d)
  {
    if k == 0 then dir else if k == 1 then (if dir == 0 then 7 else dir - 1) else (if dir == 7 then 0 else dir + 1)
  }

  lemma ConeIsAhead(dir: int, k: nat)
    requires Heading(dir) && k < 3
    ensures Cone(dir)[k] == Ahead(dir, k)
  {
  }

  function Opposite(dir: int): (d: int)
    requires Heading(dir)
    ensures Heading(d)
  {
    if dir < 4 then dir + 4 else dir - 4
  }

  /** Heading k of the cone leads to a cell that can be entered. */
  predicate Enters(env: Env, x: int, y: int, dir: int, k: nat)
    requires |env.walls| == env.w * env.h && Heading(dir) && k < 3
  {
    Passable(env, x + DX[Ahead(dir, k)], y + DY[Ahead(dir, k)])
  }

  /** Heading k of the cone leads closer to what the ant is drawn to. */
  predicate Nears(x: int, y: int, dir: int, lure: Scent, k: nat)
    requires Heading(dir) && k < 3
  {
    lure.At? && Cheb(x + DX[Ahead(dir, k)], y + DY[Ahead(dir, k)], lure.p) < Cheb(x, y, lure.p)
  }

  /** The trail on the cell that heading k of the cone leads to, if it can be entered. */
  function TrailOn(env: Env, trail: Levels, x: int, y: int, dir: int, k: nat): nat
    requires |env.walls| == |trail| == env.w * env.h && Heading(dir) && k < 3
  {
    var nx, ny := x + DX[Ahead(dir, k)], y + DY[Ahead(dir, k)];
    if Passable(env, nx, ny) then IdxRoundTrip(env.w, env.h, nx, ny); trail[Idx(env.w, nx, ny)] else 0
  }

  /**
   A heading with trail t against one with trail u: among equals in nearing the lure
   the one with more trail wins, one that nears it may have up to bonus less than one
   that does not, and what is still even goes to the earlier one.
   */
  predicate Beats(t: nat, nears: bool, u: nat, other: bool, bonus: nat, earlier: bool) {
    if nears == other then t > u || (t == u && earlier)
    else if nears then t + bonus > u || (t + bonus == u && earlier)
    else t > u + bonus || (t == u + bonus && earlier)
  }

  /** Heading k is open and beats the other open ones. */
  predicate Leads(env: Env, trail: Levels, x: int, y: int, dir: int, lure: Scent, bonus: nat, k: nat)
    requires |env.walls| == |trail| == env.w * env.h && Heading(dir) && k < 3
  {
    Enters(env, x, y, dir, k) &&
    forall j: nat :: j < 3 && j != k && Enters(env, x, y, dir, j) ==>
      Beats(TrailOn(env, trail, x, y, dir, k), Nears(x, y, dir, lure, k),
        TrailOn(env, trail, x, y, dir, j), Nears(x, y, dir, lure, j), bonus, k < j)
  }

  /** n is a step along heading k of the cone. */
  predicate Takes(x: int, y: int, dir: int, k: nat, n: Intent)
    requires Heading(dir) && k < 3
  {
    n == Intent(x + DX[Ahead(dir, k)], y + DY[Ahead(dir, k)], Ahead(dir, k), false)
  }

  /** n is a step along the leading heading, or a turn on the spot if all three are closed. */
  predicate Chosen(env: Env, trail: Levels, x: int, y: int, dir: int, lure: Scent, bonus: nat, n: Intent)
    requires |env.walls| == |trail| == env.w * env.h && Heading(dir)
  {
    if forall k: nat :: k < 3 ==> !Enters(env, x, y, dir, k) then n == Intent(x, y, Opposite(dir), true)
    else exists k: nat :: k < 3 && Leads(env, trail, x, y, dir, lure, bonus, k) && Takes(x, y, dir, k, n)
  }

  /** n is a step along heading k whatever it leads to, or, if that is closed, a turn on the spot away from it. */
  predicate Wanders(env: Env, x: int, y: int, dir: int, k: nat, n: Intent)
    requires |env.walls| == env.w * env.h && Heading(dir) && k < 3
  {
    if Enters(env, x, y, dir, k) then Takes(x, y, dir, k, n) else n == Intent(x, y, Opposite(Ahead(dir, k)), true)
  }

  lemma TurnsAround(dir: int)
    requires Heading(dir)
    ensures Turn(dir, 4) == Opposite(dir)
  {
  }

  lemma StepTakes(env: Env, x: int, y: int, dir: int, k: nat)
    requires |env.walls| == env.w * env.h && Heading(dir) && k < 3
    ensures Wanders(env, x, y, dir, k, Step(env, x, y, Cone(dir)[k]))
  {
    ConeIsAhead(dir, k);
    hide Passable;
    hide Cone;
  }

  /** Draws below RandomNum wander: 0 goes straight on, 1 left, 2 right. */
  lemma WandererGoes(env: Env, trail: Levels, food: seq<int>, x: int, y: int, dir: int, hasFood: bool, roll: U32, pick: int)
    requires EnvOk(env) && |trail| == |food| == env.w * env.h && Heading(dir) && 0 <= pick < 3
    requires roll < env.movement.randomNum
    ensures Wanders(env, x, y, dir, pick, Decide(env, trail, food, x, y, dir, hasFood, roll, pick))
  {
    StepTakes(env, x, y, dir, pick);
    hide Wanders;
    hide Step;
    hide Cone;
  }

  /** What a heading is worth to the scan. */
  lemma ScoreIs(env: Env, trail: Levels, food: seq<int>, x: int, y: int, dir: int, hasFood: bool, k: nat)
    requires EnvOk(env) && |trail| == |food| == env.w * env.h && Heading(dir) && k < 3
    ensures var s := Scores(env, trail, Smelled(env, food, x, y, hasFood), x, y, hasFood, dir)[k];
      if Enters(env, x, y, dir, k) then
        s == TrailOn(env, trail, x, y, dir, k) +
          (if Nears(x, y, dir, Lure(env, food, x, y, hasFood), k) then env.pheromone.max / 4 else 0)
      else s == -1
  {
    ConeIsAhead(dir, k);
    hide NearestScent;
    hide Cheb;
    hide Cone;
    hide Ahead;
    hide Idx;
  }

  /** The first maximum of three bids beats the other open ones. */
  lemma MaximumBeats(s: seq<int>, open: seq<bool>, trail: seq<nat>, nears: seq<bool>, bonus: nat)
    requires |s| == |open| == |trail| == |nears| == 3
    requires forall k :: 0 <= k < 3 ==> s[k] == if open[k] then trail[k] + (if nears[k] then bonus else 0) else -1
    ensures var b := Best(s);
      if b < 0 then forall k :: 0 <= k < 3 ==> !open[k]
      else open[b] && forall j :: 0 <= j < 3 && j != b && open[j] ==> Beats(trail[b], nears[b], trail[j], nears[j], bonus, b < j)
  {
    BestIsFirstMaximum(s);
    hide Best;
  }

  /** What the three headings of the cone offer. */
  function Opens(env: Env, x: int, y: int, dir: int): (o: seq<bool>)
    requires |env.walls| == env.w * env.h && Heading(dir)
    ensures |o| == 3 && forall k: nat :: k < 3 ==> o[k] == Enters(env, x, y, dir, k)
  {
    [Enters(env, x, y, dir, 0), Enters(env, x, y, dir, 1), Enters(env, x, y, dir, 2)]
  }

  function Trails(env: Env, trail: Levels, x: int, y: int, dir: int): (t: seq<nat>)
    requires |env.walls| == |trail| == env.w * env.h && Heading(dir)
    ensures |t| == 3 && forall k: nat :: k < 3 ==> t[k] == TrailOn(env, trail, x, y, dir, k)
  {
    [TrailOn(env, trail, x, y, dir, 0), TrailOn(env, trail, x, y, dir, 1), TrailOn(env, trail, x, y, dir, 2)]
  }

  function Nearings(x: int, y: int, dir: int, lure: Scent): (n: seq<bool>)
    requires Heading(dir)
    ensures |n| == 3 && forall k: nat :: k < 3 ==> n[k] == Nears(x, y, dir, lure, k)
  {
    [Nears(x, y, dir, lure, 0), Nears(x, y, dir, lure, 1), Nears(x, y, dir, lure, 2)]
  }

  lemma BeatsIsLeads(env: Env, trail: Levels, x: int, y: int, dir: int, lure: Scent, bonus: nat, b: nat)
    requires |env.walls| == |trail| == env.w * env.h && Heading(dir) && b < 3
    requires var o, t, n := Opens(env, x, y, dir), Trails(env, trail, x, y, dir), Nearings(x, y, dir, lure);
      o[b] && forall j :: 0 <= j < 3 && j != b && o[j] ==> Beats(t[b], n[b], t[j], n[j], bonus, b < j)
    ensures Leads(env, trail, x, y, dir, lure, bonus, b)
  {
    hide Enters;
    hide TrailOn;
    hide Nears;
    hide Beats;
    hide Opens;
    hide Trails;
    hide Nearings;
    var o := Opens(env, x, y, dir);
    assert forall j: nat :: j < 3 ==> (Enters(env, x, y, dir, j) <==> o[j]);
  }

  lemma ScoresOffer(env: Env, trail: Levels, food: seq<int>, x: int, y: int, dir: int, hasFood: bool)
    requires EnvOk(env) && |trail| == |food| == env.w * env.h && Heading(dir)
    ensures |env.walls| == env.w * env.h
    ensures var s := Scores(env, trail, Smelled(env, food, x, y, hasFood), x, y, hasFood, dir);
      var o, t, n := Opens(env, x, y, dir), Trails(env, trail, x, y, dir), Nearings(x, y, dir, Lure(env, food, x, y, hasFood));
      forall k :: 0 <= k < 3 ==> s[k] == if o[k] then t[k] + (if n[k] then env.pheromone.max / 4 else 0) else -1
  {
    hide *;
    EnvWalls(env);
    ScoreIs(env, trail, food, x, y, dir, hasFood, 0);
    ScoreIs(env, trail, food, x, y, dir, hasFood, 1);
    ScoreIs(env, trail, food, x, y, dir, hasFood, 2);
  }

  /** The first maximum leads. */
  lemma MaximumLeads(env: Env, trail: Levels, food: seq<int>, x: int, y: int, dir: int, hasFood: bool)
    requires EnvOk(env) && |trail| == |food| == env.w * env.h && Heading(dir)
    ensures |env.walls| == env.w * env.h
    ensures var b := Best(Scores(env, trail, Smelled(env, food, x, y, hasFood), x, y, hasFood, dir));
      if b < 0 then forall k: nat :: k < 3 ==> !Enters(env, x, y, dir, k)
      else Leads(env, trail, x, y, dir, Lure(env, food, x, y, hasFood), env.pheromone.max / 4, b)
  {
    hide *;
    ScoresOffer(env, trail, food, x, y, dir, hasFood);
    var lure, s := Lure(env, food, x, y, hasFood), Scores(env, trail, Smelled(env, food, x, y, hasFood), x, y, hasFood, dir);
    MaximumBeats(s, Opens(env, x, y, dir), Trails(env, trail, x, y, dir), Nearings(x, y, dir, lure), env.pheromone.max / 4);
    if Best(s) >= 0 {
      BeatsIsLeads(env, trail, x, y, dir, lure, env.pheromone.max / 4, Best(s));
    }
  }

  /**
   An ant that does not wander takes the open heading with the most trail, where a
   heading that nears its lure is worth a quarter of Max more; ties go to straight on,
   then left. If all three are closed it stays and turns around.
   */
  lemma GreedyGoes(env: Env, trail: Levels, food: seq<int>, x: int, y: int, dir: int, hasFood: bool, roll: U32, pick: int)
    requires EnvOk(env) && |trail| == |food| == env.w * env.h && Heading(dir) && 0 <= pick < 3
    requires roll >= env.movement.randomNum
    ensures Chosen(env, trail, x, y, dir, Lure(env, food, x, y, hasFood), env.pheromone.max / 4,
      Decide(env, trail, food, x, y, dir, hasFood, roll, pick))
  {
    hide EnvOk;
    hide Best;
    hide Scores;
    hide Enters;
    hide Beats;
    hide Lure;
    hide Smelled;
    hide Step;
    hide Decide;
    hide Takes;
    hide Cone;
    hide Turn;
    EnvWalls(env);
    MaximumLeads(env, trail, food, x, y, dir, hasFood);
    GreedyIs(env, trail, food, x, y, dir, hasFood, roll, pick);
    var b := Best(Scores(env, trail, Smelled(env, food, x, y, hasFood), x, y, hasFood, dir));
    if b >= 0 {
      StepTakes(env, x, y, dir, b);
    } else {
      TurnsAround(dir);
    }
  }

  /** Of the open headings, k is the first with the most trail. */
  predicate Strongest(env: Env, trail: Levels, x: int, y: int, dir: int, k: nat)
    requires |env.walls| == |trail| == env.w * env.h && Heading(dir) && k < 3
  {
    Enters(env, x, y, dir, k) &&
    forall j: nat :: j < 3 && Enters(env, x, y, dir, j) ==>
      TrailOn(env, trail, x, y, dir, j) <= TrailOn(env, trail, x, y, dir, k) &&
      (j < k ==> TrailOn(env, trail, x, y, dir, j) < TrailOn(env, trail, x, y, dir, k))
  }

  /** A searching ant that smells nothing and does not wander follows the trail. */
  lemma SearcherFollowsTrail(env: Env, trail: Levels, food: seq<int>, x: int, y: int, dir: int, roll: U32, pick: int)
    requires EnvOk(env) && |trail| == |food| == env.w * env.h && Heading(dir) && 0 <= pick < 3
    requires roll >= env.movement.randomNum && Smelled(env, food, x, y, false).NoScent?
    requires exists k: nat :: k < 3 && Enters(env, x, y, dir, k)
    ensures exists k: nat ::
      k < 3 && Strongest(env, trail, x, y, dir, k) && Takes(x, y, dir, k, Decide(env, trail, food, x, y, dir, false, roll, pick))
  {
    GreedyGoes(env, trail, food, x, y, dir, false, roll, pick);
    EnvWalls(env);
    hide EnvOk;
    hide Smelled;
    hide Decide;
    hide Enters;
    hide TrailOn;
    hide Takes;
    var n := Decide(env, trail, food, x, y, dir, false, roll, pick);
    var k: nat :| k < 3 && Leads(env, trail, x, y, dir, NoScent, env.pheromone.max / 4, k) && Takes(x, y, dir, k, n);
    assert Strongest(env, trail, x, y, dir, k);
  }

  // The same in a run.

  lemma DecisionIs(env: Env, w: World, i: nat)
    requires Ok(env, w) && i < |w.ants|
    ensures Shaped(env, w) && Heading(w.ants[i].dir)
    ensures var a, den := w.ants[i], env.movement.randomDen;
      Decision(env, w, i) == Decide(env, if a.hasFood then w.pheroHome else w.pheroFood, w.food, a.x, a.y, a.dir, a.hasFood,
        Draw(a.rng, den).value, Draw(Draw(a.rng, den).rest, 3).value)
  {
    OkFaced(env, w);
    hide Decide;
    hide Draw;
    hide Ok;
  }

  /** n is what the ant does about its two draws: the first decides whether it wanders, the second where to. */
  predicate Goes(env: Env, w: World, a: Ant, roll: U32, pick: int, num: U32, nest: Point, bonus: nat, n: Intent)
    requires Shaped(env, w) && Heading(a.dir) && 0 <= pick < 3
  {
    if roll < num then Wanders(env, a.x, a.y, a.dir, pick, n)
    else if a.hasFood then Chosen(env, w.pheroHome, a.x, a.y, a.dir, At(nest), bonus, n)
    else Chosen(env, w.pheroFood, a.x, a.y, a.dir, Smelled(env, w.food, a.x, a.y, false), bonus, n)
  }

  lemma DecideGoes(env: Env, w: World, a: Ant, roll: U32, pick: int)
    requires Shaped(env, w) && Heading(a.dir) && 0 <= pick < 3
    ensures Goes(env, w, a, roll, pick, env.movement.randomNum, env.nest, env.pheromone.max / 4,
      Decide(env, if a.hasFood then w.pheroHome else w.pheroFood, w.food, a.x, a.y, a.dir, a.hasFood, roll, pick))
  {
    var trail := if a.hasFood then w.pheroHome else w.pheroFood;
    if roll < env.movement.randomNum {
      WandererGoes(env, trail, w.food, a.x, a.y, a.dir, a.hasFood, roll, pick);
    } else {
      GreedyGoes(env, trail, w.food, a.x, a.y, a.dir, a.hasFood, roll, pick);
    }
    hide EnvOk;
    hide Decide;
    hide Chosen;
    hide Wanders;
    hide Smelled;
  }

  /** Where ant i stands one tick later, and how it faces unless it picked up or dropped. */
  lemma GoesInTick(env: Env, w: World, i: nat)
    requires Ok(env, w) && i < |w.ants|
    ensures Shaped(env, w) && Heading(w.ants[i].dir)
    ensures var a, r, n, den := w.ants[i], Tick(env, w).ants[i], Decision(env, w, i), env.movement.randomDen;
      && Goes(env, w, a, Draw(a.rng, den).value, Draw(Draw(a.rng, den).rest, 3).value,
           env.movement.randomNum, env.nest, env.pheromone.max / 4, n)
      && r.x == n.nx && r.y == n.ny && (r.hasFood == a.hasFood ==> r.dir == n.dir)
  {
    var a, den := w.ants[i], env.movement.randomDen;
    TickAnt(env, w, i);
    DecisionIs(env, w, i);
    hide Ok;
    hide Tick;
    hide Shaped;
    hide Decision;
    hide Decide;
    hide Goes;
    hide Draw;
    DecideGoes(env, w, a, Draw(a.rng, den).value, Draw(Draw(a.rng, den).rest, 3).value);
  }

  /**
   In every tick of every run an ant wanders when its first draw below RandomDen is
   below RandomNum, and otherwise follows the home trail and the nest when it carries,
   the food trail and what it smells when it searches, for a quarter of the config's Max.
   */
  lemma RunChoice(c: Config, rules: Rules, t: nat, i: nat)
    requires ValidConfig(c) && i < c.antCount
    ensures var env, w := NewEnv(c, rules), WorldAt(c, rules, t); Shaped(env, w) && Heading(w.ants[i].dir)
    ensures var env, w := NewEnv(c, rules), WorldAt(c, rules, t);
      var a, r, n, den := w.ants[i], WorldAt(c, rules, t + 1).ants[i], Decision(env, w, i), c.movement.randomDen;
      && Goes(env, w, a, Draw(a.rng, den).value, Draw(Draw(a.rng, den).rest, 3).value,
           c.movement.randomNum, c.nest, c.pheromone.max / 4, n)
      && r.x == n.nx && r.y == n.ny && (r.hasFood == a.hasFood ==> r.dir == n.dir)
  {
    GoesInTick(NewEnv(c, rules), WorldAt(c, rules, t), i);
    WorldNext(c, rules, t);
    EnvIs(c, rules);
    hide Ok;
    hide Tick;
    hide WorldAt;
    hide NewEnv;
    hide Decision;
    hide Goes;
    hide Draw;
  }

  lemma WorldNext(c: Config, rules: Rules, t: nat)
    requires ValidConfig(c)
    ensures WorldAt(c, rules, t + 1) == Tick(NewEnv(c, rules), WorldAt(c, rules, t))
    ensures WorldAt(c, rules, 0) == NewWorld(c)
  {
    NewWorldOk(c, rules);
    RunStep(NewEnv(c, rules), NewWorld(c), t);
    RunZero(NewEnv(c, rules), NewWorld(c));
    hide Run;
    hide NewWorld;
    hide Ok;
    hide Tick;
  }

  lemma EnvIs(c: Config, rules: Rules)
    requires ValidConfig(c)
    ensures var env := NewEnv(c, rules);
      && env.w == c.width && env.h == c.height && env.nest == c.nest && env.pheromone == c.pheromone
      && env.movement == c.movement && env.rules == rules && |env.piles| == |c.food|
      && forall k :: 0 <= k < |c.food| ==> env.piles[k] == c.food[k].at
  {
  }
}
