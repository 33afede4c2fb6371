/**
 The array-backed engines: flatgrid, the serial phases of parallel and nogc,
 and scent. They differ only in their rules and in who calls the ranges.
 */
module Flat {
  import opened Words
  import opened Config
  import opened Rng
  import opened Stencil
  import opened Grid
  import opened Colony
  import opened Ants
  import opened Start
  import opened Results
  import Hash

  class FlatWorld {
    const env: Env
    const ants: seq<AntObject>
    const walls: array<bool>
    const food: array<Int64>
    const intents: array<Intent>

    var pheroFood: array<U32>
    var pheroHome: array<U32>
    var depFood: array<U32>
    var depHome: array<U32>
    var nextFood: array<U32>
    var nextHome: array<U32>

    var collected: Int64
    var foodLeft: Int64

    ghost function Grids(): set<array<U32>>
      reads this
    {
      {pheroFood, pheroHome, depFood, depHome, nextFood, nextHome}
    }

    ghost predicate Valid()
      reads this, walls
    {
      && EnvOk(env) && walls.Length == env.w * env.h && walls[..] == env.walls
      && food.Length == pheroFood.Length == pheroHome.Length == depFood.Length == depHome.Length
         == nextFood.Length == nextHome.Length == env.w * env.h
      && intents.Length == |ants|
      && pheroFood != pheroHome && pheroFood != depFood && pheroFood != depHome
      && pheroFood != nextFood && pheroFood != nextHome && pheroHome != depFood && pheroHome != depHome
      && pheroHome != nextFood && pheroHome != nextHome && depFood != depHome && depFood != nextFood
      && depFood != nextHome && depHome != nextFood && depHome != nextHome && nextFood != nextHome
      && (food as object) !in Grids()
      && Distinct(ants)
    }

    ghost function View(): World
      reads this, Grids(), food, intents, ants, Generators(ants)
    {
      World(Views(ants), intents[..], food[..], pheroFood[..], pheroHome[..], depFood[..], depHome[..],
            nextFood[..], nextHome[..], collected, foodLeft)
    }

    method PassableAt(x: int, y: int) returns (ok: bool)
      requires Valid()
      ensures ok == Passable(env, x, y)
    {
      if x < 0 || y < 0 || x >= env.w || y >= env.h {
        return false;
      }
      IdxRoundTrip(env.w, env.h, x, y);
      assert walls[..][Idx(env.w, x, y)] == env.walls[Idx(env.w, x, y)];
      return !walls[Idx(env.w, x, y)];
    }

    method StepTo(x: int, y: int, d: int) returns (n: Intent)
      requires Valid() && Heading(d)
      ensures n == Step(env, x, y, d)
    {
      var ok := PassableAt(x + DX[d], y + DY[d]);
      if !ok {
        return Intent(x, y, Turn(d, 4), true);
      }
      return Intent(x + DX[d], y + DY[d], d, false);
    }

    method NearestPile(x: int, y: int) returns (best: Scent)
      requires Valid()
      ensures best == NearestScent(env, food[..], x, y, |env.piles|)
    {
      best := NoScent;
      for n := 0 to |env.piles|
        invariant best == NearestScent(env, food[..], x, y, n)
      {
        var p := env.piles[n];
        IdxRoundTrip(env.w, env.h, p.x, p.y);
        if food[Idx(env.w, p.x, p.y)] <= 0 {
          continue;
        }
        var d := Cheb(x, y, p);
        if d > SCENT_RADIUS {
          continue;
        }
        if best.NoScent? || d < Cheb(x, y, best.p) {
          best := At(p);
        }
      }
    }

    method ScoreAt(trail: array<U32>, scent: Scent, x: int, y: int, hasFood: bool, d: int) returns (score: int)
      requires Valid() && trail in Grids() && Heading(d)
      ensures score == Score(env, trail[..], scent, x, y, hasFood, d)
    {
      var nx, ny := x + DX[d], y + DY[d];
      var open := PassableAt(nx, ny);
      if !open {
        return -1;
      }
      IdxRoundTrip(env.w, env.h, nx, ny);
      score := trail[Idx(env.w, nx, ny)] as int;
      if hasFood && Cheb(nx, ny, env.nest) < Cheb(x, y, env.nest) {
        score := score + env.pheromone.max / 4;
      }
      if !hasFood && scent.At? && Cheb(nx, ny, scent.p) < Cheb(x, y, scent.p) {
        score := score + env.pheromone.max / 4;
      }
    }

    method BestHeading(trail: array<U32>, scent: Scent, x: int, y: int, hasFood: bool, dir: int) returns (best: int)
      requires Valid() && trail in Grids() && Heading(dir)
      ensures best == Best(Scores(env, trail[..], scent, x, y, hasFood, dir))
    {
      hide Score;
      var cand := Cone(dir);
      ghost var s := Scores(env, trail[..], scent, x, y, hasFood, dir);
      best := -1;
      var bestScore := 0;
      for k := 0 to 3
        invariant best == Best(s[..k])
        invariant best >= 0 ==> bestScore == s[best]
      {
        assert s[..k + 1][..k] == s[..k];
        var score := ScoreAt(trail, scent, x, y, hasFood, cand[k]);
        if score >= 0 && (best < 0 || score > bestScore) {
          best, bestScore := k, score;
        }
      }
      assert s[..3] == s;
    }

    /** The part of chooseMove after its two draws. */
    method DecideMove(a: AntObject, roll: U32, wanderPick: int) returns (n: Intent)
      requires Valid() && Heading(a.dir) && 0 <= wanderPick < 3
      ensures n == Decide(env, if a.hasFood then pheroHome[..] else pheroFood[..], food[..], a.x, a.y, a.dir, a.hasFood,
                          roll, wanderPick)
    {
      hide Scores;
      hide Best;
      hide NearestScent;
      var trail := pheroFood;
      if a.hasFood {
        trail := pheroHome;
      }
      var cand := Cone(a.dir);
      if roll < env.movement.randomNum {
        n := StepTo(a.x, a.y, cand[wanderPick]);
        return;
      }
      var scent := NoScent;
      if env.rules.smell && !a.hasFood {
        scent := NearestPile(a.x, a.y);
      }
      var best := BestHeading(trail, scent, a.x, a.y, a.hasFood, a.dir);
      if best < 0 {
        return Intent(a.x, a.y, Turn(a.dir, 4), true);
      }
      n := StepTo(a.x, a.y, cand[best]);
    }

    /** chooseMove: two draws, unconditionally, then the decision. */
    method ChooseMove(a: AntObject) returns (n: Intent)
      requires Valid() && a in ants && Heading(a.dir) && DrawsEnd(a.rng.s, env.movement.randomDen)
      modifies a.rng
      ensures a.rng.s == Advance(old(a.rng.s), env.movement.randomDen)
      ensures n == SensedIntent(env, old(View()), old(a.View()))
    {
      hide Decide;
      hide Draw;
      var roll := a.rng.Intn(env.movement.randomDen);
      var wanderPick := a.rng.Intn(3);
      n := DecideMove(a, roll, wanderPick);
    }

    lemma ViewShaped()
      requires Valid()
      ensures Shaped(env, View()) && intents.Length == |ants| && Distinct(ants)
      ensures food.Length == env.w * env.h && (food as object) !in Grids()
    {
    }

    lemma DenPositive()
      requires Valid()
      ensures env.movement.randomDen > 0
    {
    }

    lemma ViewAnts()
      ensures |View().ants| == |ants|
    {
    }

    lemma ViewAnt(i: nat)
      requires i < |ants|
      ensures |View().ants| == |ants| && View().ants[i] == ants[i].View() && View().ants[i].dir == ants[i].dir
    {
    }

    /** One iteration of senseRange. */
    method SenseAnt(i: nat)
      requires Valid() && i < |ants| && Heading(ants[i].dir) && DrawsEnd(ants[i].rng.s, env.movement.randomDen)
      modifies intents, ants[i].rng
      ensures Valid() && Heading(old(View()).ants[i].dir)
      ensures View() == SenseItem(env, old(View()), i)
      ensures forall j :: 0 <= j < |ants| && j != i ==> ants[j].rng.s == old(ants[j].rng.s)
    {
      hide SensedIntent;
      hide Advance;
      hide DrawsEnd;
      ViewShaped();
      hide Valid;
      ghost var w := View();
      assert ants[i].View() == w.ants[i];
      var n := ChooseMove(ants[i]);
      intents[i] := n;
      assert Views(ants) == w.ants[i := ants[i].View()];
      assert ants[i].View() == SensedAnt(env, w.ants[i]);
    }

    /** Sensing ant i extends the sensed range by one. */
    method SenseNext(i: nat, ghost w: World, ghost lo: nat)
      requires Valid() && lo <= i < |ants| && |w.ants| == |ants| && Shaped(env, w) && Faced(w)
      requires View() == SenseRange(env, w, lo, i) && DrawsEnd(ants[i].rng.s, env.movement.randomDen)
      modifies intents, ants[i].rng
      ensures Valid() && View() == SenseRange(env, w, lo, i + 1)
      ensures forall j :: 0 <= j < |ants| && j != i ==> ants[j].rng.s == old(ants[j].rng.s)
    {
      hide *;
      RangeExtends(env, w, View(), lo, i);
      ViewAnt(i);
      SenseAnt(i);
    }

    /** senseRange: the ants [lo, hi) fill their intents and advance their generators. */
    method SenseAnts(lo: nat, hi: nat)
      requires Valid() && lo <= hi <= |ants| && Faced(View())
      requires forall i :: lo <= i < hi ==> DrawsEnd(ants[i].rng.s, env.movement.randomDen)
      modifies intents, Generators(ants)
      ensures Valid()
      ensures View() == SenseRange(env, old(View()), lo, hi)
    {
      hide *;
      ghost var w := View();
      ViewShaped();
      DenPositive();
      ViewAnts();
      EmptyRange(env, w, lo);
      for i := lo to hi
        invariant Valid() && View() == SenseRange(env, w, lo, i)
        invariant forall j :: i <= j < hi ==> DrawsEnd(ants[j].rng.s, env.movement.randomDen)
      {
        GeneratorIn(ants, i);
        SenseNext(i, w, lo);
      }
    }

    method Move(i: nat)
      requires Valid() && i < |ants| && Ready(env, View())
      modifies ants[i]
      ensures Valid()
      ensures View() == Colony.MoveAnt(env, old(View()), i)
    {
      ViewShaped();
      hide Valid;
      hide Moved;
      hide Ready;
      ghost var w := View();
      assert intents[i] == w.intents[i];
      Ants.MoveAnt(ants, i, env, intents[i]);
      hide Views;
    }

    /** Ant i takes one unit from its cell. */
    method PickUp(i: nat, cell: nat)
      requires Valid() && i < |ants| && cell < food.Length && food[cell] > 0
      modifies ants[i], food, this`foodLeft
      ensures Valid()
      ensures var w := old(View());
        View() == w.(ants := w.ants[i := Switched(env, w.ants[i])], food := w.food[cell := w.food[cell] - 1],
                     foodLeft := Plus(w.foodLeft, -1))
    {
      hide Switched;
      ViewShaped();
      food[cell] := food[cell] - 1;
      foodLeft := Plus(foodLeft, -1);
      SwitchAnt(ants, i, env);
      hide Views;
    }

    /** Ant i delivers its unit. */
    method Deliver(i: nat)
      requires Valid() && i < |ants|
      modifies ants[i], this`collected
      ensures Valid()
      ensures var w := old(View());
        View() == w.(ants := w.ants[i := Switched(env, w.ants[i])], collected := Plus(w.collected, 1))
    {
      hide Switched;
      collected := Plus(collected, 1);
      SwitchAnt(ants, i, env);
      hide Views;
    }

    method ExchangeFood(i: nat)
      requires Valid() && i < |ants| && Ready(env, View()) && Inside(env.w, env.h, ants[i].x, ants[i].y)
      modifies ants[i], food, this`collected, this`foodLeft
      ensures Valid()
      ensures View() == Exchange(env, old(View()), i)
    {
      ViewShaped();
      hide Switched;
      hide Ready;
      hide Valid;
      ghost var w := View();
      var a := ants[i];
      assert a.View() == w.ants[i];
      IdxRoundTrip(env.w, env.h, a.x, a.y);
      var cell := Idx(env.w, a.x, a.y);
      assert food[cell] == w.food[cell];
      if !a.hasFood {
        if food[cell] > 0 {
          PickUp(i, cell);
        }
      } else if a.x == env.nest.x && a.y == env.nest.y {
        Deliver(i);
      }
    }

    method MarkAnt(i: nat)
      requires Valid() && i < |ants| && Ready(env, View()) && Inside(env.w, env.h, ants[i].x, ants[i].y)
      modifies depFood, depHome
      ensures Valid()
      ensures View() == MarkCell(env, old(View()), i)
    {
      ghost var w := View();
      var a := ants[i];
      assert a.View() == w.ants[i];
      IdxRoundTrip(env.w, env.h, a.x, a.y);
      var cell := Idx(env.w, a.x, a.y);
      if a.hasFood {
        depFood[cell] := AddSat(depFood[cell], Deposit(env, env.pheromone.depositFood, a.steps), env.pheromone.max);
      } else {
        depHome[cell] := AddSat(depHome[cell], Deposit(env, env.pheromone.depositHome, a.steps), env.pheromone.max);
      }
      assert Views(ants) == w.ants;
    }

    /** One iteration of the commit loop. */
    method CommitAnt(i: nat)
      requires Valid() && i < |ants| && Ready(env, View())
      modifies ants[i], food, depFood, depHome, this`collected, this`foodLeft
      ensures Valid()
      ensures View() == CommitOne(env, old(View()), i)
    {
      Move(i);
      assert ants[i].View() == View().ants[i];
      ExchangeFood(i);
      assert ants[i].View() == View().ants[i];
      MarkAnt(i);
    }

    method CommitAll()
      requires Valid() && Ready(env, View())
      modifies ants, food, depFood, depHome, this`collected, this`foodLeft
      ensures Valid()
      ensures View() == Commit(env, old(View()))
    {
      hide CommitOne;
      ghost var w := View();
      for i := 0 to |ants|
        invariant Valid()
        invariant View() == CommitTo(env, w, i)
      {
        CommitAnt(i);
      }
    }

    method LevelAt(cur: array<U32>, dep: array<U32>, x: int, y: int) returns (v: nat)
      requires Valid() && cur.Length == dep.Length == env.w * env.h
      ensures v == Level(env.w, env.h, Added(cur[..], dep[..]), x, y)
    {
      if x < 0 || y < 0 || x >= env.w || y >= env.h {
        return 0;
      }
      IdxRoundTrip(env.w, env.h, x, y);
      var i := Idx(env.w, x, y);
      return cur[i] as int + dep[i] as int;
    }

    /** The body of decayGrid for one cell: the level to store. */
    method CellLevel(cur: array<U32>, dep: array<U32>, x: int, y: int) returns (level: U32)
      requires Valid() && cur.Length == dep.Length == env.w * env.h && Inside(env.w, env.h, x, y)
      ensures 0 <= Idx(env.w, x, y) < env.w * env.h
      ensures level == NewLevel(env, cur[..], dep[..], Idx(env.w, x, y))
    {
      hide Level;
      var p := env.pheromone;
      IdxRoundTrip(env.w, env.h, x, y);
      var i := Idx(env.w, x, y);
      ghost var f := Added(cur[..], dep[..]);
      var v: nat := cur[i] as int + dep[i] as int;
      var up := LevelAt(cur, dep, x, y - 1);
      var down := LevelAt(cur, dep, x, y + 1);
      var left := LevelAt(cur, dep, x - 1, y);
      var right := LevelAt(cur, dep, x + 1, y);
      var inflow := up + down + left + right;
      assert inflow == Inflow(env.w, env.h, f, i);
      var out := Mul64(v, p.diffNum) / p.diffDen;
      var u := (v - out + (Mul64(inflow, p.diffNum) / p.diffDen) / 4) % TWO_64;
      var e: int := Mul64(u, p.evapNum) / p.evapDen;
      if e > p.max {
        e := p.max;
      }
      assert e == Cell(p, v, inflow);
      level := e;
    }

    /** One iteration of decayGrid: a level of zero is not written. */
    method DecayCell(cur: array<U32>, dep: array<U32>, next: array<U32>, x: int, y: int)
      requires Valid() && cur.Length == dep.Length == next.Length == env.w * env.h
      requires next != cur && next != dep && Inside(env.w, env.h, x, y)
      modifies next
      ensures 0 <= Idx(env.w, x, y) < next.Length
      ensures next[..] == old(next[..])[Idx(env.w, x, y) :=
        Written(env, cur[..], dep[..], old(next[..]), Idx(env.w, x, y))]
    {
      hide NewLevel;
      var level := CellLevel(cur, dep, x, y);
      if level != 0 {
        next[Idx(env.w, x, y)] := level;
      }
    }

    /** decayGrid on the rows [y0, y1). */
    method DecayGrid(cur: array<U32>, dep: array<U32>, next: array<U32>, y0: nat, y1: nat)
      requires Valid() && cur.Length == dep.Length == next.Length == env.w * env.h
      requires next != cur && next != dep && y0 <= y1 <= env.h
      modifies next
      ensures next[..] == Decayed(env, cur[..], dep[..], old(next[..]), y0 * env.w, y1 * env.w)
    {
      hide Written;
      ghost var before := next[..];
      assert next[..] == Decayed(env, cur[..], dep[..], before, y0 * env.w, y0 * env.w);
      for y := y0 to y1
        invariant next[..] == Decayed(env, cur[..], dep[..], before, y0 * env.w, y * env.w)
      {
        for x := 0 to env.w
          invariant next[..] == Decayed(env, cur[..], dep[..], before, y0 * env.w, y * env.w + x)
        {
          ghost var now := next[..];
          DecayCell(cur, dep, next, x, y);
          RowStart(y0, y);
          DecayedStep(env, cur[..], dep[..], before, now, y0 * env.w, y * env.w + x);
        }
        assert y * env.w + env.w == (y + 1) * env.w;
      }
    }

    lemma RowStart(y0: nat, y: nat)
      requires y0 <= y && env.w > 0
      ensures 0 <= y0 * env.w <= y * env.w
    {
      ScaleBoth(env.w, 0, y0);
      ScaleBoth(env.w, y0, y);
    }

    /** decayRows: the rows [y0, y1) of both grids. */
    method DecayRows(y0: nat, y1: nat)
      requires Valid() && y0 <= y1 <= env.h
      modifies nextFood, nextHome
      ensures Valid()
      ensures View() == DecayCells(env, old(View()), y0 * env.w, y1 * env.w)
    {
      hide Decayed;
      DecayGrid(pheroFood, depFood, nextFood, y0, y1);
      DecayGrid(pheroHome, depHome, nextHome, y0, y1);
    }

    /** newWorld. */
    constructor (c: Config, rules: Rules)
      requires ValidConfig(c)
      ensures Valid() && env == NewEnv(c, rules) && View() == NewWorld(c)
      ensures fresh(this) && fresh(food) && fresh(intents) && fresh(ants) && fresh(Generators(ants))
      ensures fresh(pheroFood) && fresh(pheroHome) && fresh(depFood) && fresh(depHome) && fresh(nextFood) && fresh(nextHome)
    {
      hide FoodGrid;
      hide WallGrid;
      hide NewAnt;
      hide EnvOk;
      CellsNatural(c);
      var n := c.width * c.height;
      var walls := BuildWalls(c);
      var food, left := BuildFood(c);
      var intents := BlankIntents(c.antCount);
      var pf, ph, df, dh, nf, nh := BlankGrids(n);
      var ants := BuildAnts(c);
      this.env, this.walls, this.food, this.ants, this.intents := NewEnv(c, rules), walls, food, ants, intents;
      pheroFood, pheroHome, depFood, depHome, nextFood, nextHome := pf, ph, df, dh, nf, nh;
      collected, foodLeft := 0, left;
      new;
      hide Distinct;
      hide ValidConfig;
      assert View() == NewWorld(c);
    }

    // The serial tick and the run.

    method ClearGrid(a: array<U32>)
      requires a.Length == env.w * env.h
      modifies a
      ensures a[..] == Zeros(a.Length)
    {
      for i := 0 to a.Length
        invariant forall j :: 0 <= j < i ==> a[j] == 0
      {
        a[i] := 0;
      }
    }

    method SwapGrids()
      requires Valid()
      modifies this`pheroFood, this`pheroHome, this`nextFood, this`nextHome
      ensures Valid() && Grids() == old(Grids())
      ensures View() == Swap(old(View()))
      ensures depFood == old(depFood) && depHome == old(depHome)
    {
      pheroFood, nextFood := nextFood, pheroFood;
      pheroHome, nextHome := nextHome, pheroHome;
    }

    method ClearScratch()
      requires Valid()
      modifies depFood, depHome, nextFood, nextHome
      ensures Valid()
      ensures View() == Colony.Clear(old(View()))
    {
      hide Zeros;
      ClearGrid(depFood);
      ClearGrid(depHome);
      ClearGrid(nextFood);
      ClearGrid(nextHome);
    }

    method DecayAll()
      requires Valid()
      modifies this`pheroFood, this`pheroHome, this`nextFood, this`nextHome, Grids()
      ensures Valid() && Grids() == old(Grids())
      ensures View() == Decay(env, old(View()))
    {
      hide DecayCells;
      hide Swap;
      hide Colony.Clear;
      assert 0 * env.w == 0 && env.h * env.w == env.w * env.h;
      DecayRows(0, env.h);
      SwapGrids();
      ClearScratch();
    }

    /** sense over all ants. */
    method SenseAll(ghost left: nat)
      requires Valid() && left > 0 && AllLive(ants, env.movement.randomDen, left) && Faced(View())
      modifies intents, Generators(ants)
      ensures Valid() && AllLive(ants, env.movement.randomDen, left - 1)
      ensures View() == Sense(env, old(View()))
    {
      ghost var den := env.movement.randomDen;
      ghost var w := View();
      forall i | 0 <= i < |ants|
        ensures DrawsEnd(ants[i].rng.s, den) && Live(Advance(ants[i].rng.s, den), den, left - 1)
      {
        LiveStep(ants[i].rng.s, den, left);
      }
      hide DrawsEnd;
      hide Live;
      hide Advance;
      hide SensedIntent;
      SenseAnts(0, |ants|);
      forall i | 0 <= i < |ants|
        ensures Live(ants[i].rng.s, den, left - 1)
      {
        assert View().ants[i] == SensedAnt(env, w.ants[i]);
      }
    }

    /** One tick: sense, commit, decay. */
    method TickOnce(ghost left: nat)
      requires Valid() && left > 0 && AllLive(ants, env.movement.randomDen, left) && Ok(env, View())
      modifies this, Grids(), food, intents, ants, Generators(ants)
      ensures Valid() && AllLive(ants, env.movement.randomDen, left - 1) && Grids() == old(Grids())
      ensures Ok(env, View()) && View() == Tick(env, old(View()))
    {
      hide Sense;
      hide Commit;
      hide Decay;
      ghost var w := View();
      OkFaced(env, w);
      TickSteps(env, w);
      hide Ok;
      hide Tick;
      hide Ready;
      SenseAll(left);
      CommitAll();
      assert AllLive(ants, env.movement.randomDen, left - 1);
      DecayAll();
    }

    // result().

    method Summary(c: Config, ticksRun: nat, engine: string, wallNs: int, allocs: Word, heapBytes: Word)
        returns (r: Result)
      requires Valid()
      ensures DeterministicEqual(r, Reported(c, old(View()), ticksRun)) && r.engine == engine
    {
      hide CellsHash;
      hide CellsTotal;
      hide AntsHash;
      hide Carrying;
      hide DeterministicEqual;
      hide Reported;
      ghost var w := View();
      var carrying, ah := SummariseAnts(ants, w.ants);
      var gh, total := SummariseGrids(env.w, env.h, pheroFood, pheroHome);
      r := Finish(c, w, ticksRun, collected, foodLeft, carrying, total, ah, gh, engine, wallNs, allocs, heapBytes);
    }

    /** The tick loop of Run: up to ticks ticks, cut short after limit of them. */
    method RunTicks(ticks: nat, limit: nat) returns (t: nat)
      requires Valid() && AllLive(ants, env.movement.randomDen, if ticks < limit then ticks else limit) && Ok(env, View())
      modifies this, Grids(), food, intents, ants, Generators(ants)
      ensures Valid() && t == if ticks < limit then ticks else limit
      ensures View() == Run(env, old(View()), t)
    {
      hide Ok;
      hide Run;
      hide Tick;
      hide Valid;
      DenPositive();
      hide AllLive;
      ghost var w, n := View(), if ticks < limit then ticks else limit;
      RunZero(env, w);
      t := 0;
      while t < ticks && t < limit
        invariant t <= n
        invariant Valid() && AllLive(ants, env.movement.randomDen, n - t) && Grids() == old(Grids())
        invariant View() == Run(env, w, t)
      {
        TickOnce(n - t);
        RunStep(env, w, t);
        t := t + 1;
      }
    }
  }

  // newWorld.

  method SummariseRow(w: int, h: int, pf: array<U32>, ph: array<U32>, y: nat, gh0: Word, total0: Word)
      returns (gh: Word, total: Word)
    requires pf.Length == ph.Length && 0 <= Idx(w, 0, y) && Idx(w, w, y) <= pf.Length && w > 0
    requires Folded(pf[..], ph[..], Idx(w, 0, y), gh0, total0)
    ensures Folded(pf[..], ph[..], Idx(w, w, y), gh, total)
  {
    hide Folded;
    hide Hash.HashBytes;
    hide CellBytes;
    hide Add64;
    gh, total := gh0, total0;
    for x := 0 to w
      invariant Folded(pf[..], ph[..], Idx(w, x, y), gh, total)
    {
      var i := Idx(w, x, y);
      FoldedPush(pf[..], ph[..], i, gh, total);
      gh := HashCell(gh, pf[i], ph[i]);
      total := Add64(total, pf[i] as int + ph[i] as int);
    }
  }

  /** The grid loop of result(): fold both grids, row by row. */
  method SummariseGrids(w: int, h: int, pf: array<U32>, ph: array<U32>) returns (gh: Word, total: Word)
    requires w > 0 && h > 0 && pf.Length == ph.Length == w * h
    ensures Folded(pf[..], ph[..], pf.Length, gh, total)
  {
    hide Folded;
    hide Idx;
    gh, total := Hash.OFFSET, 0;
    RowFits(w, h, 0);
    FoldedEmpty(pf[..], ph[..]);
    for y := 0 to h
      invariant Folded(pf[..], ph[..], Idx(w, 0, y), gh, total)
    {
      RowFits(w, h, y);
      gh, total := SummariseRow(w, h, pf, ph, y, gh, total);
    }
  }

  method BlankGrid(n: nat) returns (a: array<U32>)
    ensures fresh(a) && a.Length == n && a[..] == Zeros(n)
  {
    a := new U32[n](i => 0);
  }

  method BlankGrids(n: nat) returns (a: array<U32>, b: array<U32>, c: array<U32>, d: array<U32>, e: array<U32>, f: array<U32>)
    ensures fresh({a, b, c, d, e, f}) && a.Length == b.Length == c.Length == d.Length == e.Length == f.Length == n
    ensures a[..] == b[..] == c[..] == d[..] == e[..] == f[..] == Zeros(n)
    ensures a != b && a != c && a != d && a != e && a != f && b != c && b != d && b != e && b != f
    ensures c != d && c != e && c != f && d != e && d != f && e != f
  {
    hide Zeros;
    a := BlankGrid(n);
    b := BlankGrid(n);
    c := BlankGrid(n);
    d := BlankGrid(n);
    e := BlankGrid(n);
    f := BlankGrid(n);
  }

  method BuildWalls(c: Config) returns (g: array<bool>)
    requires ValidConfig(c)
    ensures fresh(g) && g.Length == c.width * c.height && g[..] == WallGrid(c)
  {
    hide Walled;
    CellsNatural(c);
    g := new bool[c.width * c.height](i => false);
    WalledNone(c, g[..]);
    for k := 0 to |c.walls|
      invariant Walled(c, g[..], k)
    {
      BuildWall(c, g, k);
    }
    WalledAll(c, g[..]);
  }

  /** The nested loops over one wall rectangle. */
  method BuildWall(c: Config, g: array<bool>, k: nat)
    requires ValidConfig(c) && k < |c.walls| && g.Length == c.width * c.height && Walled(c, g[..], k)
    modifies g
    ensures Walled(c, g[..], k + 1)
  {
    hide Walled;
    hide RowsFilled;
    hide CellsFilled;
    var r := c.walls[k];
    assert WallOk(c, r);
    ghost var before := g[..];
    NothingFilled(c, before, r, r.y);
    var y: int := r.y;
    while y < Plus(r.y, r.h)
      invariant r.y <= y
      invariant RowsFilled(c, g[..], before, r, y)
    {
      ghost var row := g[..];
      NothingFilled(c, row, r, y);
      var x: int := r.x;
      while x < Plus(r.x, r.w)
        invariant r.x <= x
        invariant CellsFilled(c, g[..], row, r, y, x)
      {
        CellFilled(c, g[..], row, r, y, x);
        g[Idx(c.width, x, y)] := true;
        x := x + 1;
      }
      RowFilled(c, g[..], row, before, r, y, x);
      y := y + 1;
    }
    RectFilled(c, g[..], before, k, y);
  }

  method BuildFood(c: Config) returns (g: array<Int64>, left: Int64)
    requires ValidConfig(c)
    ensures fresh(g) && g.Length == c.width * c.height && g[..] == FoodGrid(c, c.food)
    ensures left == Wrapped(TotalFood(c.food))
  {
    CellsNatural(c);
    FoodGridEmpty(c, c.food);
    hide FoodGrid;
    hide TotalFood;
    g := new Int64[c.width * c.height](i => 0);
    left := 0;
    for k := 0 to |c.food|
      invariant g[..] == FoodGrid(c, c.food[..k]) && left == Wrapped(TotalFood(c.food[..k]))
    {
      var f := c.food[k];
      assert FoodOk(c, f);
      FoodGridPush(c, c.food, k);
      TotalFoodPush(c.food, k);
      var i := Idx(c.width, f.at.x, f.at.y);
      g[i] := Plus(g[i], f.amount);
      left := Plus(left, f.amount);
    }
    assert c.food[..|c.food|] == c.food;
  }

  lemma NewDraws(c: Config, rules: Rules, limit: nat, w: FlatWorld)
    requires ValidConfig(c) && StreamsLive(c, limit) && w.Valid() && w.env == NewEnv(c, rules) && w.View() == NewWorld(c)
    ensures AllLive(w.ants, w.env.movement.randomDen, TicksRun(c, limit))
  {
    hide NewWorld;
    hide AllLive;
    hide Views;
    hide StreamsLive;
    NewAntsLive(c, limit, w.ants);
  }

  /** Run: at most c.ticks ticks, fewer when cancelled; the result is the specification's. */
  method RunFlat(c: Config, rules: Rules, limit: nat, engine: string, wallNs: int, allocs: Word, heapBytes: Word)
      returns (r: Result)
    requires ValidConfig(c) && StreamsLive(c, limit)
    ensures DeterministicEqual(r, Expected(c, rules, limit)) && r.engine == engine
  {
    hide NewEnv;
    hide NewWorld;
    hide Ok;
    hide Run;
    hide DeterministicEqual;
    hide Reported;
    NewWorldOk(c, rules);
    var w := new FlatWorld(c, rules);
    NewDraws(c, rules, limit, w);
    var ticksRun := w.RunTicks(c.ticks, limit);
    r := w.Summary(c, ticksRun, engine, wallNs, allocs, heapBytes);
  }
}
