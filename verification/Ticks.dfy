/**
 One tick seen from a single ant and from a single cell of food, and what a
 choice among headings means.
 */
module Ticks {
  import opened Words
  import opened Config
  import opened Rng
  import opened Grid
  import opened Colony
  import opened Commits

  /** What ant i decides in the tick that starts from w. */
  ghost function Decision(env: Env, w: World, i: nat): (n: Intent)
    requires Ok(env, w) && i < |w.ants|
    ensures IntentOk(env, n)
  {
    SenseReady(env, w);
    Sense(env, w).intents[i]
  }

  ghost function Destination(env: Env, w: World, i: nat): (c: nat)
    requires Ok(env, w) && i < |w.ants|
    ensures c < env.w * env.h
  {
    var n := Decision(env, w, i);
    IdxRoundTrip(env.w, env.h, n.nx, n.ny);
    Idx(env.w, n.nx, n.ny)
  }

  lemma TickIsCommit(env: Env, w: World)
    requires Ok(env, w)
    ensures Ready(env, Sense(env, w))
    ensures Tick(env, w).ants == Commit(env, Sense(env, w)).ants && Tick(env, w).food == Commit(env, Sense(env, w)).food
  {
    SenseReady(env, w);
    hide Sense;
    hide CommitTo;
    hide DecayCells;
  }

  /** Sensing decides and leaves everything the commit looks at alone. */
  lemma SenseIsDecision(env: Env, w: World, i: nat)
    requires Ok(env, w) && i < |w.ants|
    ensures var s := Sense(env, w);
      && Ready(env, s) && s.intents[i] == Decision(env, w, i) && s.food == w.food && |s.ants| == |w.ants|
      && s.ants[i] == SensedAnt(env, w.ants[i]) && Target(env, s, i) == Destination(env, w, i)
  {
    SenseReady(env, w);
    hide SensedAnt;
    hide SensedIntent;
    hide Ok;
  }

  lemma SensedSame(env: Env, a: Ant)
    requires EnvOk(env)
    ensures var r := SensedAnt(env, a); r.hasFood == a.hasFood && r.steps == a.steps && r.id == a.id
    ensures SensedAnt(env, a).rng == Advance(a.rng, env.movement.randomDen)
  {
  }

  lemma OkShaped(env: Env, w: World)
    requires Ok(env, w)
    ensures EnvOk(env) && |w.food| == env.w * env.h
  {
  }

  /** An ant that finds nothing to pick up leaves an empty cell behind. */
  lemma NothingLeft(env: Env, w: World, i: nat)
    requires Ready(env, w) && i < |w.ants| && !w.ants[i].hasFood && !Picks(env, w, i)
    ensures Commit(env, w).food[Target(env, w, i)] <= 0
  {
    var c := Target(env, w, i);
    FoodAfter(env, w, |w.ants|, c);
    SeekersGrow(env, w, c, i, |w.ants|);
    hide CommitTo;
    hide Ready;
    hide Seekers;
    hide Target;
  }

  /** Where ant i ends its tick and in which state. */
  lemma TickAnt(env: Env, w: World, i: nat)
    requires Ok(env, w) && i < |w.ants|
    ensures var a, r, n := w.ants[i], Tick(env, w).ants[i], Decision(env, w, i);
      && r.x == n.nx && r.y == n.ny
      && r.dir == (if r.hasFood == a.hasFood then n.dir else Turn(n.dir, 4))
      && r.steps == (if r.hasFood == a.hasFood || !env.rules.anchored then a.steps + 1 else 0)
      && (a.hasFood ==> (r.hasFood <==> !(n.nx == env.nest.x && n.ny == env.nest.y)))
      && (!a.hasFood && w.food[Destination(env, w, i)] <= 0 ==> !r.hasFood)
      && (!a.hasFood && !r.hasFood ==> Tick(env, w).food[Destination(env, w, i)] <= 0)
  {
    TickIsCommit(env, w);
    OkShaped(env, w);
    hide Ok;
    hide EnvOk;
    hide Tick;
    hide Sense;
    hide SensedAnt;
    hide Commit;
    hide Decision;
    hide Destination;
    hide Ready;
    hide Seekers;
    hide Target;
    hide Turn;
    var s := Sense(env, w);
    SenseIsDecision(env, w, i);
    SensedSame(env, w.ants[i]);
    CommitAnt(env, s, i);
    if !w.ants[i].hasFood && !Picks(env, s, i) {
      NothingLeft(env, s, i);
    }
  }

  lemma CommitOneRecords(env: Env, w: World, i: nat)
    requires Ready(env, w) && i < |w.ants|
    ensures var a, b, n := w.ants[i], CommitOne(env, w, i).ants[i], w.intents[i];
      b.blocked == n.blocked && b.trail == (if env.rules.trail then a.trail + [Key(n.nx, n.ny)] else a.trail)
  {
    hide Key;
    hide Falloff;
    hide AddSat;
  }

  /** The key of the cell an ant ends on is appended to its history, if the rules keep one. */
  lemma TickRecords(env: Env, w: World, i: nat)
    requires Ok(env, w) && i < |w.ants|
    ensures var a, r, n := w.ants[i], Tick(env, w).ants[i], Decision(env, w, i);
      && r.id == a.id && r.blocked == n.blocked
      && r.trail == (if env.rules.trail then a.trail + [Key(r.x, r.y)] else a.trail)
  {
    TickIsCommit(env, w);
    TickAnt(env, w, i);
    SenseIsDecision(env, w, i);
    OkShaped(env, w);
    SensedRecords(env, w.ants[i]);
    hide Ok;
    hide Tick;
    hide Sense;
    hide SensedAnt;
    hide Commit;
    hide CommitOne;
    hide CommitTo;
    hide Decision;
    hide Ready;
    hide Key;
    var s := Sense(env, w);
    CommitIs(env, s, i);
    CommitAnt(env, s, i);
    CommitOneRecords(env, CommitTo(env, s, i), i);
  }

  lemma SensedRecords(env: Env, a: Ant)
    requires EnvOk(env)
    ensures SensedAnt(env, a).trail == a.trail && SensedAnt(env, a).id == a.id
  {
    hide Advance;
  }

  /** Food on a cell only ever decreases, down to zero; a count that is not positive never changes. */
  lemma TickFood(env: Env, w: World, c: nat)
    requires Ok(env, w) && c < env.w * env.h
    ensures w.food[c] > 0 ==> 0 <= Tick(env, w).food[c] <= w.food[c]
    ensures w.food[c] <= 0 ==> Tick(env, w).food[c] == w.food[c]
  {
    TickIsCommit(env, w);
    var s := Sense(env, w);
    assert s.food == w.food;
    hide Sense;
    hide Tick;
    hide Ok;
    hide CommitTo;
    FoodAfter(env, s, |s.ants|, c);
    hide Seekers;
  }

  // Choosing a heading.

  /** The scan keeps the first of the most attractive open headings, or none if all are closed. */
  lemma {:induction false} BestIsFirstMaximum(s: seq<int>)
    ensures Best(s) < 0 <==> forall k :: 0 <= k < |s| ==> s[k] < 0
    ensures Best(s) >= 0 ==> s[Best(s)] >= 0
    ensures Best(s) >= 0 ==> forall k :: 0 <= k < |s| ==> s[k] <= s[Best(s)]
    ensures Best(s) >= 0 ==> forall k :: 0 <= k < Best(s) ==> s[k] < s[Best(s)]
    decreases |s|
  {
    if |s| > 0 {
      var n := |s| - 1;
      BestIsFirstMaximum(s[..n]);
      var b := Best(s[..n]);
      forall k | 0 <= k < n
        ensures s[k] == s[..n][k]
      {
      }
    }
  }

  /** The k-th cell of the three-cell cone ahead can be entered. */
  predicate OpenAt(env: Env, x: int, y: int, d: int, k: nat)
    requires |env.walls| == env.w * env.h && Heading(d) && k < 3
  {
    Passable(env, x + DX[Cone(d)[k]], y + DY[Cone(d)[k]])
  }

  /** Some cell of the cone can be entered. */
  predicate Open(env: Env, x: int, y: int, d: int)
    requires |env.walls| == env.w * env.h && Heading(d)
  {
    exists k :: 0 <= k < 3 && OpenAt(env, x, y, d, k)
  }

  /** A step into an open cell leaves the current one. */
  lemma StepsMove(env: Env, x: int, y: int, d: int)
    requires |env.walls| == env.w * env.h && Heading(d) && Passable(env, x + DX[d], y + DY[d])
    ensures Step(env, x, y, d).nx != x || Step(env, x, y, d).ny != y
  {
    assert DX[d] != 0 || DY[d] != 0;
    hide Passable;
  }

  lemma EnvWalls(env: Env)
    requires EnvOk(env)
    ensures |env.walls| == env.w * env.h
  {
  }

  lemma ScoreOpen(env: Env, trail: Levels, scent: Scent, x: int, y: int, hasFood: bool, dir: int, k: nat)
    requires EnvOk(env) && |trail| == env.w * env.h && Heading(dir) && k < 3
    ensures Scores(env, trail, scent, x, y, hasFood, dir)[k] >= 0 <==> OpenAt(env, x, y, dir, k)
  {
    hide Score;
    hide Cone;
    hide Passable;
    assert Scores(env, trail, scent, x, y, hasFood, dir)[k] == Score(env, trail, scent, x, y, hasFood, Cone(dir)[k]);
  }

  /** The best heading is negative exactly when the cone is closed, and otherwise open. */
  lemma BestIsOpen(env: Env, trail: Levels, scent: Scent, x: int, y: int, hasFood: bool, dir: int)
    requires EnvOk(env) && |trail| == env.w * env.h && Heading(dir)
    ensures var b := Best(Scores(env, trail, scent, x, y, hasFood, dir));
      && (b >= 0 <==> Open(env, x, y, dir))
      && (b >= 0 ==> OpenAt(env, x, y, dir, b))
  {
    EnvWalls(env);
    hide EnvOk;
    hide OpenAt;
    hide Scores;
    hide Best;
    var s := Scores(env, trail, scent, x, y, hasFood, dir);
    BestIsFirstMaximum(s);
    forall k | 0 <= k < 3
      ensures s[k] >= 0 <==> OpenAt(env, x, y, dir, k)
    {
      ScoreOpen(env, trail, scent, x, y, hasFood, dir, k);
    }
    if Open(env, x, y, dir) {
      var k :| 0 <= k < 3 && OpenAt(env, x, y, dir, k);
      assert s[k] >= 0;
    }
  }

  /** An ant that does not wander moves exactly when its cone is open; otherwise it stays and turns around. */
  lemma GreedyDecision(env: Env, trail: Levels, food: seq<int>, x: int, y: int, dir: int, hasFood: bool, roll: U32, pick: int)
    requires EnvOk(env) && |trail| == |food| == env.w * env.h && Heading(dir) && 0 <= pick < 3
    requires roll >= env.movement.randomNum
    ensures var n := Decide(env, trail, food, x, y, dir, hasFood, roll, pick);
      if Open(env, x, y, dir) then n.nx != x || n.ny != y else n == Intent(x, y, Turn(dir, 4), true)
  {
    hide Smelled;
    hide Best;
    hide Scores;
    hide Open;
    hide Step;
    hide Cone;
    hide Passable;
    EnvWalls(env);
    hide EnvOk;
    var scent := Smelled(env, food, x, y, hasFood);
    BestIsOpen(env, trail, scent, x, y, hasFood, dir);
    var b := Best(Scores(env, trail, scent, x, y, hasFood, dir));
    if b >= 0 {
      StepsMove(env, x, y, Cone(dir)[b]);
    }
  }

  // What attracts an ant.

  /** Pile k still holds food and is near enough to smell. */
  predicate Smellable(env: Env, food: seq<int>, x: int, y: int, k: nat)
    requires EnvOk(env) && |food| == env.w * env.h && k < |env.piles|
  {
    var p := env.piles[k];
    IdxRoundTrip(env.w, env.h, p.x, p.y);
    food[Idx(env.w, p.x, p.y)] > 0 && Cheb(x, y, p) <= SCENT_RADIUS
  }

  /** Among the first n piles, k is smellable, none is nearer, and no earlier one is as near. */
  predicate FirstNearest(env: Env, food: seq<int>, x: int, y: int, n: nat, k: nat)
    requires EnvOk(env) && |food| == env.w * env.h && k < n <= |env.piles|
  {
    Smellable(env, food, x, y, k) &&
    forall j: nat :: j < n && Smellable(env, food, x, y, j) ==>
      Cheb(x, y, env.piles[k]) <= Cheb(x, y, env.piles[j]) &&
      (j < k ==> Cheb(x, y, env.piles[k]) < Cheb(x, y, env.piles[j]))
  }

  /** One step of the scan. */
  lemma NearestUnfold(env: Env, food: seq<int>, x: int, y: int, n: nat)
    requires EnvOk(env) && |food| == env.w * env.h && 0 < n <= |env.piles|
    ensures var prior, p := NearestScent(env, food, x, y, n - 1), env.piles[n - 1];
      NearestScent(env, food, x, y, n) ==
      if Smellable(env, food, x, y, n - 1) && (prior.NoScent? || Cheb(x, y, p) < Cheb(x, y, prior.p)) then At(p) else prior
  {
    hide Cheb;
  }

  /** s is a nearest smellable pile among the first n, the earliest of equals, or none if there is none. */
  predicate IsNearest(env: Env, food: seq<int>, x: int, y: int, n: nat, s: Scent)
    requires EnvOk(env) && |food| == env.w * env.h && n <= |env.piles|
  {
    && (s.NoScent? <==> forall k: nat :: k < n ==> !Smellable(env, food, x, y, k))
    && (s.At? ==> exists k: nat :: k < n && FirstNearest(env, food, x, y, n, k) && s.p == env.piles[k])
  }

  /** One more pile that cannot be smelled, or is no nearer, leaves the first nearest one in place. */
  lemma StillFirst(env: Env, food: seq<int>, x: int, y: int, n: nat, k: nat)
    requires EnvOk(env) && |food| == env.w * env.h && k < n < |env.piles| && FirstNearest(env, food, x, y, n, k)
    requires !Smellable(env, food, x, y, n) || Cheb(x, y, env.piles[k]) <= Cheb(x, y, env.piles[n])
    ensures Smellable(env, food, x, y, k) && FirstNearest(env, food, x, y, n + 1, k)
  {
    hide EnvOk;
    hide Smellable;
    hide Cheb;
  }

  /** A pile that cannot be smelled, or is no nearer, changes nothing. */
  lemma NearestKept(env: Env, food: seq<int>, x: int, y: int, n: nat, s: Scent)
    requires EnvOk(env) && |food| == env.w * env.h && n < |env.piles| && IsNearest(env, food, x, y, n, s)
    requires !Smellable(env, food, x, y, n) || (s.At? && Cheb(x, y, s.p) <= Cheb(x, y, env.piles[n]))
    ensures IsNearest(env, food, x, y, n + 1, s)
  {
    hide EnvOk;
    hide Smellable;
    hide Cheb;
    hide FirstNearest;
    if s.At? {
      var k: nat :| k < n && FirstNearest(env, food, x, y, n, k) && s.p == env.piles[k];
      StillFirst(env, food, x, y, n, k);
    }
  }

  /** A smellable pile that is nearer than the nearest so far is the first nearest one. */
  lemma NowFirst(env: Env, food: seq<int>, x: int, y: int, n: nat, s: Scent)
    requires EnvOk(env) && |food| == env.w * env.h && n < |env.piles| && IsNearest(env, food, x, y, n, s)
    requires Smellable(env, food, x, y, n) && (s.At? ==> Cheb(x, y, env.piles[n]) < Cheb(x, y, s.p))
    ensures FirstNearest(env, food, x, y, n + 1, n)
  {
    hide EnvOk;
    hide Smellable;
    hide Cheb;
  }

  /** A smellable pile replaces none, or one that is farther away. */
  lemma NearestReplaced(env: Env, food: seq<int>, x: int, y: int, n: nat, s: Scent)
    requires EnvOk(env) && |food| == env.w * env.h && n < |env.piles| && IsNearest(env, food, x, y, n, s)
    requires Smellable(env, food, x, y, n) && (s.At? ==> Cheb(x, y, env.piles[n]) < Cheb(x, y, s.p))
    ensures IsNearest(env, food, x, y, n + 1, At(env.piles[n]))
  {
    hide EnvOk;
    NowFirst(env, food, x, y, n, s);
    hide Smellable;
    hide Cheb;
    hide FirstNearest;
  }

  lemma NearestOfNone(env: Env, food: seq<int>, x: int, y: int)
    requires EnvOk(env) && |food| == env.w * env.h
    ensures IsNearest(env, food, x, y, 0, NearestScent(env, food, x, y, 0))
  {
    hide EnvOk;
    hide Smellable;
    hide FirstNearest;
  }

  /** The scan finds the nearest smellable pile, the earliest of equals, or none if there is none. */
  lemma {:induction false} NearestIsFirst(env: Env, food: seq<int>, x: int, y: int, n: nat)
    requires EnvOk(env) && |food| == env.w * env.h && n <= |env.piles|
    ensures IsNearest(env, food, x, y, n, NearestScent(env, food, x, y, n))
    decreases n
  {
    hide *;
    if n == 0 {
      NearestOfNone(env, food, x, y);
    } else {
      NearestIsFirst(env, food, x, y, n - 1);
      NearestUnfold(env, food, x, y, n);
      var prior := NearestScent(env, food, x, y, n - 1);
      if Smellable(env, food, x, y, n - 1) && (prior.NoScent? || Cheb(x, y, env.piles[n - 1]) < Cheb(x, y, prior.p)) {
        NearestReplaced(env, food, x, y, n - 1, prior);
      } else {
        NearestKept(env, food, x, y, n - 1, prior);
      }
    }
  }

  /** Heading d leads to an open cell closer to t. */
  predicate Approaches(env: Env, x: int, y: int, d: int, t: Point)
    requires |env.walls| == env.w * env.h && Heading(d)
  {
    Passable(env, x + DX[d], y + DY[d]) && Cheb(x + DX[d], y + DY[d], t) < Cheb(x, y, t)
  }

  /** What the ant is drawn to: the nest when it carries, the pile it smells when it searches. */
  predicate DrawnTo(env: Env, food: seq<int>, x: int, y: int, hasFood: bool, t: Point)
    requires EnvOk(env) && |food| == env.w * env.h
  {
    if hasFood then t == env.nest else Smelled(env, food, x, y, hasFood) == At(t)
  }

  /** The trail on the cell that heading d leads to. */
  function TrailAhead(env: Env, trail: Levels, x: int, y: int, d: int): nat
    requires EnvOk(env) && |trail| == env.w * env.h && Heading(d)
  {
    if Passable(env, x + DX[d], y + DY[d]) then
      IdxRoundTrip(env.w, env.h, x + DX[d], y + DY[d]);
      trail[Idx(env.w, x + DX[d], y + DY[d])]
    else 0
  }

  /** A heading scores its trail, plus a quarter of Max if it approaches the target. */
  lemma PullScore(env: Env, trail: Levels, food: seq<int>, x: int, y: int, hasFood: bool, d: int, t: Point)
    requires EnvOk(env) && |trail| == |food| == env.w * env.h && Heading(d) && DrawnTo(env, food, x, y, hasFood, t)
    ensures Score(env, trail, Smelled(env, food, x, y, hasFood), x, y, hasFood, d) ==
      if Passable(env, x + DX[d], y + DY[d]) then
        TrailAhead(env, trail, x, y, d) + (if Approaches(env, x, y, d, t) then env.pheromone.max / 4 else 0)
      else -1
  {
    hide NearestScent;
    hide Cheb;
    if Passable(env, x + DX[d], y + DY[d]) {
      IdxRoundTrip(env.w, env.h, x + DX[d], y + DY[d]);
    }
  }

  /** What the three headings of the cone offer. */
  datatype Offers = Offers(open: seq<bool>, near: seq<bool>, trail: seq<nat>)

  function OffersOf(env: Env, trail: Levels, x: int, y: int, dir: int, t: Point): (o: Offers)
    requires EnvOk(env) && |trail| == env.w * env.h && Heading(dir)
    ensures |o.open| == |o.near| == |o.trail| == 3
    ensures forall k :: 0 <= k < 3 && o.near[k] ==> o.open[k]
  {
    var c := Cone(dir);
    Offers(seq(3, k requires 0 <= k < 3 => OpenAt(env, x, y, dir, k)),
           seq(3, k requires 0 <= k < 3 => Approaches(env, x, y, c[k], t)),
           seq(3, k requires 0 <= k < 3 => TrailAhead(env, trail, x, y, c[k])))
  }

  /** No open heading that leads elsewhere has enough trail to outbid heading k, which leads nearer. */
  predicate Wins(o: Offers, bias: nat, k: nat)
    requires |o.open| == |o.near| == |o.trail| == 3 && k < 3
  {
    o.near[k] && forall j :: 0 <= j < 3 && o.open[j] && !o.near[j] ==>
      if j < k then o.trail[j] < o.trail[k] + bias else o.trail[j] <= o.trail[k] + bias
  }

  /** The scores of the cone: the trail, plus the bias on headings that lead nearer. */
  predicate Bids(s: seq<int>, o: Offers, bias: nat) {
    && |s| == |o.open| == |o.near| == |o.trail| == 3
    && forall k :: 0 <= k < 3 ==>
         (o.near[k] ==> o.open[k]) &&
         s[k] == if o.open[k] then o.trail[k] + (if o.near[k] then bias else 0) else -1
  }

  /** The first maximum leads nearer exactly when some heading wins. */
  lemma FirstMaximumWins(s: seq<int>, o: Offers, bias: nat)
    requires Bids(s, o, bias)
    ensures (Best(s) >= 0 && o.near[Best(s)]) <==> exists k :: 0 <= k < 3 && Wins(o, bias, k)
  {
    BestIsFirstMaximum(s);
    hide Best;
    var b := Best(s);
    if b >= 0 && o.near[b] {
      assert Wins(o, bias, b);
    }
    if exists k :: 0 <= k < 3 && Wins(o, bias, k) {
      var k :| 0 <= k < 3 && Wins(o, bias, k);
      assert s[k] >= 0;
    }
  }

  lemma ScoresAreBids(env: Env, trail: Levels, food: seq<int>, x: int, y: int, dir: int, hasFood: bool, t: Point)
    requires EnvOk(env) && |trail| == |food| == env.w * env.h && Heading(dir) && DrawnTo(env, food, x, y, hasFood, t)
    ensures Bids(Scores(env, trail, Smelled(env, food, x, y, hasFood), x, y, hasFood, dir),
                 OffersOf(env, trail, x, y, dir, t), env.pheromone.max / 4)
  {
    hide Smelled;
    hide Score;
    hide Cone;
    hide Passable;
    hide TrailAhead;
    hide Approaches;
    hide DrawnTo;
    var s, o := Scores(env, trail, Smelled(env, food, x, y, hasFood), x, y, hasFood, dir), OffersOf(env, trail, x, y, dir, t);
    forall k | 0 <= k < 3
      ensures s[k] == if o.open[k] then o.trail[k] + (if o.near[k] then env.pheromone.max / 4 else 0) else -1
    {
      PullScore(env, trail, food, x, y, hasFood, Cone(dir)[k], t);
    }
  }

  /** The intended cell is closer to t. */
  predicate Closer(x: int, y: int, n: Intent, t: Point) {
    Cheb(n.nx, n.ny, t) < Cheb(x, y, t)
  }

  lemma StepCloser(env: Env, x: int, y: int, d: int, t: Point)
    requires |env.walls| == env.w * env.h && Heading(d) && Passable(env, x + DX[d], y + DY[d])
    ensures Closer(x, y, Step(env, x, y, d), t) <==> Approaches(env, x, y, d, t)
  {
    hide Cheb;
  }

  /** The decision of an ant that does not wander. */
  lemma GreedyIs(env: Env, trail: Levels, food: seq<int>, x: int, y: int, dir: int, hasFood: bool, roll: U32, pick: int)
    requires EnvOk(env) && |trail| == |food| == env.w * env.h && Heading(dir) && 0 <= pick < 3
    requires roll >= env.movement.randomNum
    ensures var b := Best(Scores(env, trail, Smelled(env, food, x, y, hasFood), x, y, hasFood, dir));
      Decide(env, trail, food, x, y, dir, hasFood, roll, pick) ==
      if b < 0 then Intent(x, y, Turn(dir, 4), true) else Step(env, x, y, Cone(dir)[b])
  {
    hide Smelled;
    hide Scores;
    hide Best;
    hide Cone;
    hide Step;
    hide Turn;
  }

  lemma StaysFar(x: int, y: int, d: int, t: Point)
    ensures !Closer(x, y, Intent(x, y, d, true), t)
  {
  }

  /** A step into an open cell of the cone gets closer exactly when the heading leads nearer. */
  lemma OfferCloser(env: Env, trail: Levels, x: int, y: int, dir: int, t: Point, k: nat)
    requires EnvOk(env) && |trail| == env.w * env.h && Heading(dir) && k < 3 && OpenAt(env, x, y, dir, k)
    ensures Closer(x, y, Step(env, x, y, Cone(dir)[k]), t) <==> OffersOf(env, trail, x, y, dir, t).near[k]
  {
    StepCloser(env, x, y, Cone(dir)[k], t);
    hide Closer;
    hide Step;
    hide Cone;
    hide Passable;
    hide Approaches;
    hide TrailAhead;
  }

  /** The greedy choice gets closer exactly when its best heading leads nearer. */
  lemma GreedyCloser(env: Env, trail: Levels, food: seq<int>, x: int, y: int, dir: int, hasFood: bool,
                     roll: U32, pick: int, t: Point)
    requires EnvOk(env) && |trail| == |food| == env.w * env.h && Heading(dir) && 0 <= pick < 3
    requires roll >= env.movement.randomNum
    ensures var b := Best(Scores(env, trail, Smelled(env, food, x, y, hasFood), x, y, hasFood, dir));
      Closer(x, y, Decide(env, trail, food, x, y, dir, hasFood, roll, pick), t) <==>
      b >= 0 && OffersOf(env, trail, x, y, dir, t).near[b]
  {
    hide *;
    var b := Best(Scores(env, trail, Smelled(env, food, x, y, hasFood), x, y, hasFood, dir));
    EnvWalls(env);
    GreedyIs(env, trail, food, x, y, dir, hasFood, roll, pick);
    BestIsOpen(env, trail, Smelled(env, food, x, y, hasFood), x, y, hasFood, dir);
    if b >= 0 {
      OfferCloser(env, trail, x, y, dir, t, b);
    } else {
      StaysFar(x, y, Turn(dir, 4), t);
    }
  }

  /**
   An ant that does not wander gets closer to the nest, or to the pile it smells,
   exactly when some heading that leads nearer is not outbid: a heading that leads
   elsewhere needs a quarter of Max more trail to win, and strictly more when it
   comes later in the cone.
   */
  lemma PulledToTarget(env: Env, trail: Levels, food: seq<int>, x: int, y: int, dir: int, hasFood: bool,
                       roll: U32, pick: int, t: Point)
    requires EnvOk(env) && |trail| == |food| == env.w * env.h && Heading(dir) && 0 <= pick < 3
    requires roll >= env.movement.randomNum && DrawnTo(env, food, x, y, hasFood, t)
    ensures Closer(x, y, Decide(env, trail, food, x, y, dir, hasFood, roll, pick), t) <==>
      exists k :: 0 <= k < 3 && Wins(OffersOf(env, trail, x, y, dir, t), env.pheromone.max / 4, k)
  {
    hide *;
    ScoresAreBids(env, trail, food, x, y, dir, hasFood, t);
    FirstMaximumWins(Scores(env, trail, Smelled(env, food, x, y, hasFood), x, y, hasFood, dir),
      OffersOf(env, trail, x, y, dir, t), env.pheromone.max / 4);
    GreedyCloser(env, trail, food, x, y, dir, hasFood, roll, pick, t);
  }

  // Turning around.

  /** A decision that moves goes one step along its heading. */
  lemma MovesAlong(env: Env, trail: Levels, food: seq<int>, x: int, y: int, dir: int, hasFood: bool, roll: U32, pick: int)
    requires EnvOk(env) && |trail| == |food| == env.w * env.h && Heading(dir) && 0 <= pick < 3
    ensures var n := Decide(env, trail, food, x, y, dir, hasFood, roll, pick);
      n.nx != x || n.ny != y ==> Heading(n.dir) && n.nx == x + DX[n.dir] && n.ny == y + DY[n.dir]
  {
    hide Smelled;
    hide Scores;
    hide Best;
    hide Passable;
  }

  lemma DecisionMovesAlong(env: Env, w: World, i: nat)
    requires Ok(env, w) && i < |w.ants|
    ensures var a, n := w.ants[i], Decision(env, w, i);
      n.nx != a.x || n.ny != a.y ==> n.nx == a.x + DX[n.dir] && n.ny == a.y + DY[n.dir]
  {
    var a := w.ants[i];
    var roll := Draw(a.rng, env.movement.randomDen);
    var pick := Draw(roll.rest, 3);
    hide Draw;
    MovesAlong(env, if a.hasFood then w.pheroHome else w.pheroFood, w.food, a.x, a.y, a.dir, a.hasFood,
      roll.value, pick.value);
    hide Decide;
  }

  /** Turning around and stepping leads back. */
  lemma StepsBack(x: int, y: int, nx: int, ny: int, d: int)
    requires Heading(d) && nx == x + DX[d] && ny == y + DY[d]
    ensures nx + DX[Turn(d, 4)] == x && ny + DY[Turn(d, 4)] == y
  {
  }

  lemma AheadIsOpen(env: Env, x: int, y: int, d: int)
    requires |env.walls| == env.w * env.h && Heading(d) && Passable(env, x + DX[d], y + DY[d])
    ensures Open(env, x, y, d)
  {
    hide Passable;
    assert Cone(d)[0] == d;
    assert OpenAt(env, x, y, d, 0);
  }

  lemma FacesBack(env: Env, a: Ant, r: Ant, n: Intent)
    requires |env.walls| == env.w * env.h && Passable(env, a.x, a.y) && Heading(n.dir)
    requires n.nx == a.x + DX[n.dir] && n.ny == a.y + DY[n.dir]
    requires r.x == n.nx && r.y == n.ny && r.dir == Turn(n.dir, 4)
    ensures r.x + DX[r.dir] == a.x && r.y + DY[r.dir] == a.y && Open(env, r.x, r.y, r.dir)
  {
    hide Passable;
    hide Open;
    StepsBack(a.x, a.y, n.nx, n.ny, n.dir);
    AheadIsOpen(env, r.x, r.y, r.dir);
  }

  lemma AntIsOpen(env: Env, w: World, i: nat)
    requires Ok(env, w) && i < |w.ants|
    ensures |env.walls| == env.w * env.h && Passable(env, w.ants[i].x, w.ants[i].y)
  {
    assert AntOk(env, w.ants[i]);
  }

  lemma TickFaces(env: Env, w: World, i: nat)
    requires Ok(env, w) && i < |w.ants| && Tick(env, w).ants[i].hasFood != w.ants[i].hasFood
    ensures var r, n := Tick(env, w).ants[i], Decision(env, w, i);
      r.x == n.nx && r.y == n.ny && r.dir == Turn(n.dir, 4) && Heading(n.dir)
  {
    hide Tick;
    hide Decision;
    hide Destination;
    hide Ok;
    hide Turn;
    hide Passable;
    TickAnt(env, w, i);
  }

  /** An ant that arrives and picks up or drops food faces the cell it came from, so it is not boxed in. */
  lemma SwitchedFacesBack(env: Env, w: World, i: nat)
    requires Ok(env, w) && i < |w.ants|
    requires var a, r := w.ants[i], Tick(env, w).ants[i]; r.hasFood != a.hasFood && (r.x != a.x || r.y != a.y)
    ensures var a, r := w.ants[i], Tick(env, w).ants[i];
      r.x + DX[r.dir] == a.x && r.y + DY[r.dir] == a.y && Open(env, r.x, r.y, r.dir)
  {
    hide *;
    AntIsOpen(env, w, i);
    TickFaces(env, w, i);
    DecisionMovesAlong(env, w, i);
    FacesBack(env, w.ants[i], Tick(env, w).ants[i], Decision(env, w, i));
  }
}
