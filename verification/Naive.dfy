/**
 The map-backed engines: naive, and gradient under anchored rules. Every grid
 is a map keyed by "x,y" strings; absent keys read as zero.
 */
module Naive {
  import opened Words
  import opened Config
  import opened Rng
  import opened Stencil
  import opened Grid
  import opened Colony
  import opened Keys
  import opened Ants
  import opened Start
  import opened Results
  import Hash

  type LevelMap = map<string, U32>

  class NaiveWorld {
    const env: Env
    const ants: seq<AntObject>
    const walls: map<string, bool>
    const intents: array<Intent>

    var food: map<string, Int64>
    var pheroFood: LevelMap
    var pheroHome: LevelMap
    var depFood: LevelMap
    var depHome: LevelMap
    var nextFood: LevelMap
    var nextHome: LevelMap

    var collected: Int64
    var foodLeft: Int64

    ghost predicate Valid()
    {
      && EnvOk(env) && !env.rules.smell && GridOf(env.w, env.h, walls, false) == env.walls
      && intents.Length == |ants| && Distinct(ants)
    }

    ghost function Levels(m: LevelMap): (g: seq<U32>)
      requires Valid()
      ensures |g| == env.w * env.h
    {
      GridOf(env.w, env.h, m, 0)
    }

    ghost function View(): World
      requires Valid()
      reads this, intents, ants, Generators(ants)
    {
      World(Views(ants), intents[..], GridOf(env.w, env.h, food, 0), Levels(pheroFood), Levels(pheroHome),
            Levels(depFood), Levels(depHome), Levels(nextFood), Levels(nextHome), collected, foodLeft)
    }

    lemma ViewShaped()
      requires Valid()
      ensures Shaped(env, View())
    {
    }

    // Phase A.

    method PassableAt(x: int, y: int) returns (ok: bool)
      requires Valid()
      ensures ok == Passable(env, x, y)
    {
      hide Key;
      if x < 0 || y < 0 || x >= env.w || y >= env.h {
        return false;
      }
      GridRead(env.w, env.h, walls, false, x, y);
      return !Get(walls, Key(x, y), false);
    }

    method StepTo(x: int, y: int, d: int) returns (n: Intent)
      requires Valid() && Heading(d)
      ensures n == Step(env, x, y, d)
    {
      var ok := PassableAt(x + DX[d], y + DY[d]);
      if !ok {
        return Intent(x, y, Turn(d, 4), true);
      }
      return Intent(x + DX[d], y + DY[d], d, false);
    }

    method ScoreAt(trail: LevelMap, x: int, y: int, hasFood: bool, d: int) returns (score: int)
      requires Valid() && Heading(d)
      ensures score == Score(env, Levels(trail), NoScent, x, y, hasFood, d)
    {
      hide Key;
      var nx, ny := x + DX[d], y + DY[d];
      var open := PassableAt(nx, ny);
      if !open {
        return -1;
      }
      GridRead(env.w, env.h, trail, 0, nx, ny);
      score := Get(trail, Key(nx, ny), 0) as int;
      if hasFood && Cheb(nx, ny, env.nest) < Cheb(x, y, env.nest) {
        score := score + env.pheromone.max / 4;
      }
    }

    method BestHeading(trail: LevelMap, x: int, y: int, hasFood: bool, dir: int) returns (best: int)
      requires Valid() && Heading(dir)
      ensures best == Best(Scores(env, Levels(trail), NoScent, x, y, hasFood, dir))
    {
      hide Score;
      var cand := Cone(dir);
      ghost var s := Scores(env, Levels(trail), NoScent, x, y, hasFood, dir);
      best := -1;
      var bestScore := 0;
      for k := 0 to 3
        invariant best == Best(s[..k])
        invariant best >= 0 ==> bestScore == s[best]
      {
        assert s[..k + 1][..k] == s[..k];
        var score := ScoreAt(trail, x, y, hasFood, cand[k]);
        if score >= 0 && (best < 0 || score > bestScore) {
          best, bestScore := k, score;
        }
      }
      assert s[..3] == s;
    }

    /** The part of chooseMove after its two draws. */
    method DecideMove(a: AntObject, roll: U32, wanderPick: int) returns (n: Intent)
      requires Valid() && Heading(a.dir) && 0 <= wanderPick < 3
      ensures n == Decide(env, if a.hasFood then Levels(pheroHome) else Levels(pheroFood), GridOf(env.w, env.h, food, 0),
                          a.x, a.y, a.dir, a.hasFood, roll, wanderPick)
    {
      hide Scores;
      hide Best;
      var trail := pheroFood;
      if a.hasFood {
        trail := pheroHome;
      }
      var cand := Cone(a.dir);
      if roll < env.movement.randomNum {
        n := StepTo(a.x, a.y, cand[wanderPick]);
        return;
      }
      var best := BestHeading(trail, a.x, a.y, a.hasFood, a.dir);
      if best < 0 {
        return Intent(a.x, a.y, Turn(a.dir, 4), true);
      }
      n := StepTo(a.x, a.y, cand[best]);
    }

    /** chooseMove: two draws, unconditionally, then the decision. */
    method ChooseMove(a: AntObject) returns (n: Intent)
      requires Valid() && a in ants && Heading(a.dir) && DrawsEnd(a.rng.s, env.movement.randomDen)
      modifies a.rng
      ensures a.rng.s == Advance(old(a.rng.s), env.movement.randomDen)
      ensures n == SensedIntent(env, old(View()), old(a.View()))
    {
      hide Decide;
      hide Draw;
      hide GridOf;
      var roll := a.rng.Intn(env.movement.randomDen);
      var wanderPick := a.rng.Intn(3);
      n := DecideMove(a, roll, wanderPick);
    }

    /** One iteration of the sense loop. */
    method SenseAnt(i: nat)
      requires Valid() && i < |ants| && Heading(ants[i].dir) && DrawsEnd(ants[i].rng.s, env.movement.randomDen)
      modifies intents, ants[i].rng
      ensures Valid() && Shaped(env, old(View())) && Heading(old(View()).ants[i].dir)
      ensures View() == SenseItem(env, old(View()), i)
      ensures forall j :: 0 <= j < |ants| && j != i ==> ants[j].rng.s == old(ants[j].rng.s)
    {
      hide SensedIntent;
      hide Advance;
      hide DrawsEnd;
      hide GridOf;
      ViewShaped();
      ghost var w := View();
      assert ants[i].View() == w.ants[i];
      var n := ChooseMove(ants[i]);
      intents[i] := n;
      assert Views(ants) == w.ants[i := ants[i].View()];
      assert ants[i].View() == SensedAnt(env, w.ants[i]);
    }

    /** The sense loop. */
    method SenseAnts()
      requires Valid() && Faced(View())
      requires forall i :: 0 <= i < |ants| ==> DrawsEnd(ants[i].rng.s, env.movement.randomDen)
      modifies intents, Generators(ants)
      ensures Valid() && Shaped(env, old(View()))
      ensures View() == Sense(env, old(View()))
    {
      hide DrawsEnd;
      hide GridOf;
      ghost var w := View();
      ViewShaped();
      hide Shaped;
      hide SenseItem;
      hide SenseRange;
      EmptyRange(env, w, 0);
      for i := 0 to |ants|
        invariant Valid()
        invariant View() == SenseRange(env, w, 0, i)
        invariant forall j :: i <= j < |ants| ==> DrawsEnd(ants[j].rng.s, env.movement.randomDen)
      {
        RangeExtends(env, w, View(), 0, i);
        assert ants[i].View() == View().ants[i];
        SenseAnt(i);
      }
    }

    method SenseAll(ghost left: nat)
      requires Valid() && Faced(View()) && left > 0 && AllLive(ants, env.movement.randomDen, left)
      modifies intents, Generators(ants)
      ensures Valid() && AllLive(ants, env.movement.randomDen, left - 1)
      ensures View() == Sense(env, old(View()))
    {
      ghost var den := env.movement.randomDen;
      ghost var w := View();
      forall i | 0 <= i < |ants|
        ensures DrawsEnd(ants[i].rng.s, den) && Live(Advance(ants[i].rng.s, den), den, left - 1)
      {
        LiveStep(ants[i].rng.s, den, left);
      }
      hide DrawsEnd;
      hide Live;
      hide Advance;
      hide SensedIntent;
      hide GridOf;
      SenseAnts();
      forall i | 0 <= i < |ants|
        ensures Live(ants[i].rng.s, den, left - 1)
      {
        assert View().ants[i] == SensedAnt(env, w.ants[i]);
      }
    }

    // Phase B.

    method Move(i: nat)
      requires Valid() && i < |ants| && Ready(env, View())
      modifies ants[i]
      ensures Valid()
      ensures View() == Colony.MoveAnt(env, old(View()), i)
    {
      hide GridOf;
      hide Moved;
      hide Ready;
      ghost var w := View();
      assert intents[i] == w.intents[i];
      Ants.MoveAnt(ants, i, env, intents[i]);
      hide Views;
    }

    /** Ant i takes one of the n units of its cell. */
    method PickUp(i: nat, k: string, n: Int64)
      requires Valid() && i < |ants| && n > 0
      modifies ants[i], this`food, this`foodLeft
      ensures Valid() && food == old(food)[k := n - 1]
      ensures var w := old(View());
        View() == w.(ants := w.ants[i := Switched(env, w.ants[i])], food := GridOf(env.w, env.h, food, 0),
                     foodLeft := Plus(w.foodLeft, -1))
    {
      hide Switched;
      hide GridOf;
      food := food[k := n - 1];
      foodLeft := Plus(foodLeft, -1);
      SwitchAnt(ants, i, env);
      hide Views;
    }

    /** Ant i delivers its unit. */
    method Deliver(i: nat)
      requires Valid() && i < |ants|
      modifies ants[i], this`collected
      ensures Valid()
      ensures var w := old(View());
        View() == w.(ants := w.ants[i := Switched(env, w.ants[i])], collected := Plus(w.collected, 1))
    {
      hide Switched;
      hide GridOf;
      collected := Plus(collected, 1);
      SwitchAnt(ants, i, env);
      hide Views;
    }

    method ExchangeFood(i: nat)
      requires Valid() && i < |ants| && Ready(env, View()) && Inside(env.w, env.h, ants[i].x, ants[i].y)
      modifies ants[i], this`food, this`collected, this`foodLeft
      ensures Valid()
      ensures View() == Exchange(env, old(View()), i)
    {
      hide Key;
      hide GridOf;
      hide Get;
      hide Switched;
      hide Ready;
      ghost var w := View();
      var a := ants[i];
      assert a.View() == w.ants[i];
      hide Views;
      var k := Key(a.x, a.y);
      var left := Get(food, k, 0);
      GridRead(env.w, env.h, food, 0, a.x, a.y);
      if !a.hasFood {
        if left > 0 {
          GridWrite(env.w, env.h, food, 0, a.x, a.y, left - 1);
          PickUp(i, k, left);
        }
      } else if a.x == env.nest.x && a.y == env.nest.y {
        Deliver(i);
      }
    }

    method MarkAnt(i: nat)
      requires Valid() && i < |ants| && Ready(env, View()) && Inside(env.w, env.h, ants[i].x, ants[i].y)
      modifies this`depFood, this`depHome
      ensures Valid()
      ensures View() == MarkCell(env, old(View()), i)
    {
      hide Key;
      hide GridOf;
      hide Get;
      ghost var w := View();
      var a := ants[i];
      assert a.View() == w.ants[i];
      var k := Key(a.x, a.y);
      if a.hasFood {
        GridRead(env.w, env.h, depFood, 0, a.x, a.y);
        var v := AddSat(Get(depFood, k, 0), Deposit(env, env.pheromone.depositFood, a.steps), env.pheromone.max);
        GridWrite(env.w, env.h, depFood, 0, a.x, a.y, v);
        depFood := depFood[k := v];
      } else {
        GridRead(env.w, env.h, depHome, 0, a.x, a.y);
        var v := AddSat(Get(depHome, k, 0), Deposit(env, env.pheromone.depositHome, a.steps), env.pheromone.max);
        GridWrite(env.w, env.h, depHome, 0, a.x, a.y, v);
        depHome := depHome[k := v];
      }
    }

    method CommitAnt(i: nat)
      requires Valid() && i < |ants| && Ready(env, View())
      modifies ants[i], this`food, this`depFood, this`depHome, this`collected, this`foodLeft
      ensures Valid()
      ensures View() == CommitOne(env, old(View()), i)
    {
      hide GridOf;
      Move(i);
      assert ants[i].View() == View().ants[i];
      ExchangeFood(i);
      assert ants[i].View() == View().ants[i];
      MarkAnt(i);
    }

    method CommitAll()
      requires Valid() && Ready(env, View())
      modifies ants, this`food, this`depFood, this`depHome, this`collected, this`foodLeft
      ensures Valid()
      ensures View() == Commit(env, old(View()))
    {
      hide CommitOne;
      hide GridOf;
      ghost var w := View();
      for i := 0 to |ants|
        invariant Valid()
        invariant View() == CommitTo(env, w, i)
      {
        CommitAnt(i);
      }
    }

    // Phase C.

    method LevelAt(cur: LevelMap, dep: LevelMap, x: int, y: int) returns (v: nat)
      requires Valid()
      ensures v == Level(env.w, env.h, Added(Levels(cur), Levels(dep)), x, y)
    {
      hide Key;
      if x < 0 || y < 0 || x >= env.w || y >= env.h {
        return 0;
      }
      GridRead(env.w, env.h, cur, 0, x, y);
      GridRead(env.w, env.h, dep, 0, x, y);
      var k := Key(x, y);
      return Get(cur, k, 0) as int + Get(dep, k, 0) as int;
    }

    /** The body of decayGrid for one cell: the level to store. */
    method CellLevel(cur: LevelMap, dep: LevelMap, x: int, y: int) returns (level: U32)
      requires Valid() && Inside(env.w, env.h, x, y)
      ensures 0 <= Idx(env.w, x, y) < env.w * env.h
      ensures level == NewLevel(env, Levels(cur), Levels(dep), Idx(env.w, x, y))
    {
      hide Level;
      hide Key;
      hide Get;
      hide GridOf;
      var p := env.pheromone;
      IdxRoundTrip(env.w, env.h, x, y);
      GridRead(env.w, env.h, cur, 0, x, y);
      GridRead(env.w, env.h, dep, 0, x, y);
      var k := Key(x, y);
      ghost var f := Added(Levels(cur), Levels(dep));
      var v: nat := Get(cur, k, 0) as int + Get(dep, k, 0) as int;
      var up := LevelAt(cur, dep, x, y - 1);
      var down := LevelAt(cur, dep, x, y + 1);
      var left := LevelAt(cur, dep, x - 1, y);
      var right := LevelAt(cur, dep, x + 1, y);
      var inflow := up + down + left + right;
      assert inflow == Inflow(env.w, env.h, f, Idx(env.w, x, y));
      var out := Mul64(v, p.diffNum) / p.diffDen;
      var u := (v - out + (Mul64(inflow, p.diffNum) / p.diffDen) / 4) % TWO_64;
      var e: int := Mul64(u, p.evapNum) / p.evapDen;
      if e > p.max {
        e := p.max;
      }
      assert e == Cell(p, v, inflow);
      level := e;
    }

    method DecayCell(cur: LevelMap, dep: LevelMap, next: LevelMap, x: int, y: int) returns (r: LevelMap)
      requires Valid() && Inside(env.w, env.h, x, y)
      ensures 0 <= Idx(env.w, x, y) < env.w * env.h
      ensures Levels(r) == Levels(next)[Idx(env.w, x, y) :=
        Written(env, Levels(cur), Levels(dep), Levels(next), Idx(env.w, x, y))]
    {
      hide Key;
      hide GridOf;
      hide NewLevel;
      r := next;
      var level := CellLevel(cur, dep, x, y);
      if level != 0 {
        GridWrite(env.w, env.h, next, 0, x, y, level);
        r := next[Key(x, y) := level];
      }
    }

    method DecayGrid(cur: LevelMap, dep: LevelMap, next: LevelMap) returns (r: LevelMap)
      requires Valid()
      ensures Levels(r) == Decayed(env, Levels(cur), Levels(dep), Levels(next), 0, env.w * env.h)
    {
      hide Written;
      hide GridOf;
      hide Idx;
      r := next;
      RowFits(env.w, env.h, 0);
      assert Levels(r) == Decayed(env, Levels(cur), Levels(dep), Levels(next), 0, 0);
      for y := 0 to env.h
        invariant Levels(r) == Decayed(env, Levels(cur), Levels(dep), Levels(next), 0, Idx(env.w, 0, y))
      {
        RowFits(env.w, env.h, y);
        r := DecayRow(cur, dep, next, r, y);
      }
    }

    method DecayRow(cur: LevelMap, dep: LevelMap, ghost next: LevelMap, before: LevelMap, y: nat) returns (r: LevelMap)
      requires Valid() && y < env.h
      requires Levels(before) == Decayed(env, Levels(cur), Levels(dep), Levels(next), 0, Idx(env.w, 0, y))
      ensures Levels(r) == Decayed(env, Levels(cur), Levels(dep), Levels(next), 0, Idx(env.w, env.w, y))
    {
      hide Written;
      hide GridOf;
      RowFits(env.w, env.h, y);
      r := before;
      for x := 0 to env.w
        invariant Levels(r) == Decayed(env, Levels(cur), Levels(dep), Levels(next), 0, Idx(env.w, x, y))
      {
        ghost var now := Levels(r);
        r := DecayCell(cur, dep, r, x, y);
        DecayedStep(env, Levels(cur), Levels(dep), Levels(next), now, 0, Idx(env.w, x, y));
      }
    }

    method DecayAll()
      requires Valid()
      modifies this`pheroFood, this`pheroHome, this`depFood, this`depHome, this`nextFood, this`nextHome
      ensures Valid()
      ensures View() == Decay(env, old(View()))
    {
      hide GridOf;
      hide Decayed;
      hide Zeros;
      hide Decay;
      ghost var w := View();
      ViewShaped();
      DecayIs(env, w);
      hide Shaped;
      nextFood := DecayGrid(pheroFood, depFood, nextFood);
      nextHome := DecayGrid(pheroHome, depHome, nextHome);
      pheroFood, nextFood := nextFood, pheroFood;
      pheroHome, nextHome := nextHome, pheroHome;
      GridEmpty(env.w, env.h);
      depFood, depHome, nextFood, nextHome := map[], map[], map[], map[];
    }

    method TickOnce(ghost left: nat)
      requires Valid() && Ok(env, View()) && left > 0 && AllLive(ants, env.movement.randomDen, left)
      modifies this, intents, ants, Generators(ants)
      ensures Valid() && AllLive(ants, env.movement.randomDen, left - 1)
      ensures Ok(env, View()) && View() == Tick(env, old(View()))
    {
      hide Sense;
      hide Commit;
      hide Decay;
      hide GridOf;
      ghost var w := View();
      OkFaced(env, w);
      TickSteps(env, w);
      hide Ok;
      hide Tick;
      hide Ready;
      SenseAll(left);
      CommitAll();
      DecayAll();
    }

    // newWorld and Run.

    /** newWorld. */
    constructor (c: Config, rules: Rules)
      requires ValidConfig(c) && !rules.smell
      ensures Valid() && env == NewEnv(c, rules) && View() == NewWorld(c)
      ensures fresh(this) && fresh(intents) && fresh(ants) && fresh(Generators(ants))
    {
      hide FoodGrid;
      hide WallGrid;
      hide NewAnt;
      hide GridOf;
      hide EnvOk;
      hide Zeros;
      CellsNatural(c);
      GridEmpty(c.width, c.height);
      var walls := BuildWalls(c);
      var food, left := BuildFood(c);
      var ants := BuildAnts(c);
      var intents := BlankIntents(c.antCount);
      this.env, this.walls, this.ants, this.intents := NewEnv(c, rules), walls, ants, intents;
      this.food := food;
      pheroFood, pheroHome, depFood, depHome, nextFood, nextHome := map[], map[], map[], map[], map[], map[];
      collected, foodLeft := 0, left;
    }

    /** The tick loop of Run: up to ticks ticks, cut short after limit of them. */
    method RunTicks(ticks: nat, limit: nat) returns (t: nat)
      requires Valid() && AllLive(ants, env.movement.randomDen, if ticks < limit then ticks else limit) && Ok(env, View())
      modifies this, intents, ants, Generators(ants)
      ensures Valid() && t == if ticks < limit then ticks else limit
      ensures View() == Run(env, old(View()), t)
    {
      hide Ok;
      hide Run;
      hide Tick;
      hide AllLive;
      hide GridOf;
      ghost var w, n := View(), if ticks < limit then ticks else limit;
      RunZero(env, w);
      t := 0;
      while t < ticks && t < limit
        invariant t <= n
        invariant Valid() && AllLive(ants, env.movement.randomDen, n - t)
        invariant View() == Run(env, w, t)
      {
        TickOnce(n - t);
        RunStep(env, w, t);
        t := t + 1;
      }
    }

    method SummariseRow(y: nat, gh0: Word, total0: Word) returns (gh: Word, total: Word)
      requires Valid() && y < env.h && 0 <= Idx(env.w, 0, y) && Idx(env.w, env.w, y) <= env.w * env.h
      requires Folded(Levels(pheroFood), Levels(pheroHome), Idx(env.w, 0, y), gh0, total0)
      ensures Folded(Levels(pheroFood), Levels(pheroHome), Idx(env.w, env.w, y), gh, total)
    {
      hide Folded;
      hide Hash.HashBytes;
      hide CellBytes;
      hide Add64;
      hide Key;
      hide GridOf;
      hide Get;
      gh, total := gh0, total0;
      ghost var pf, ph := Levels(pheroFood), Levels(pheroHome);
      for x := 0 to env.w
        invariant Folded(pf, ph, Idx(env.w, x, y), gh, total)
      {
        var k := Key(x, y);
        var fv, hv := Get(pheroFood, k, 0), Get(pheroHome, k, 0);
        GridRead(env.w, env.h, pheroFood, 0, x, y);
        GridRead(env.w, env.h, pheroHome, 0, x, y);
        FoldedPush(pf, ph, Idx(env.w, x, y), gh, total);
        gh := HashCell(gh, fv, hv);
        total := Add64(total, fv as int + hv as int);
      }
    }

    method SummariseGrids() returns (gh: Word, total: Word)
      requires Valid()
      ensures Folded(Levels(pheroFood), Levels(pheroHome), env.w * env.h, gh, total)
    {
      hide Folded;
      hide Idx;
      hide GridOf;
      gh, total := Hash.OFFSET, 0;
      RowFits(env.w, env.h, 0);
      ghost var pf, ph := Levels(pheroFood), Levels(pheroHome);
      FoldedEmpty(pf, ph);
      for y := 0 to env.h
        invariant Folded(pf, ph, Idx(env.w, 0, y), gh, total)
      {
        RowFits(env.w, env.h, y);
        gh, total := SummariseRow(y, gh, total);
      }
    }

    method Summary(c: Config, ticksRun: nat, engine: string, wallNs: int, allocs: Word, heapBytes: Word)
        returns (r: Result)
      requires Valid()
      ensures DeterministicEqual(r, Reported(c, old(View()), ticksRun)) && r.engine == engine
    {
      hide CellsHash;
      hide CellsTotal;
      hide AntsHash;
      hide Carrying;
      hide DeterministicEqual;
      hide Reported;
      hide GridOf;
      ghost var w := View();
      var carrying, ah := SummariseAnts(ants, w.ants);
      var gh, total := SummariseGrids();
      r := Finish(c, w, ticksRun, collected, foodLeft, carrying, total, ah, gh, engine, wallNs, allocs, heapBytes);
    }
  }

  method BuildWalls(c: Config) returns (m: map<string, bool>)
    requires ValidConfig(c)
    ensures c.width * c.height >= 0 && GridOf(c.width, c.height, m, false) == WallGrid(c)
  {
    hide Walled;
    CellsNatural(c);
    m := map[];
    WalledNone(c, GridOf(c.width, c.height, m, false));
    hide GridOf;
    for k := 0 to |c.walls|
      invariant Walled(c, GridOf(c.width, c.height, m, false), k)
    {
      m := BuildWall(c, m, k);
    }
    WalledAll(c, GridOf(c.width, c.height, m, false));
  }

  /** The nested loops over one wall rectangle. */
  method BuildWall(c: Config, m0: map<string, bool>, k: nat) returns (m: map<string, bool>)
    requires ValidConfig(c) && k < |c.walls| && c.width * c.height >= 0
    requires Walled(c, GridOf(c.width, c.height, m0, false), k)
    ensures Walled(c, GridOf(c.width, c.height, m, false), k + 1)
  {
    hide Key;
    hide GridOf;
    hide Walled;
    hide RowsFilled;
    hide CellsFilled;
    var r := c.walls[k];
    assert WallOk(c, r);
    ghost var before := GridOf(c.width, c.height, m0, false);
    NothingFilled(c, before, r, r.y);
    m := m0;
    var y: int := r.y;
    while y < Plus(r.y, r.h)
      invariant r.y <= y
      invariant RowsFilled(c, GridOf(c.width, c.height, m, false), before, r, y)
    {
      ghost var row := GridOf(c.width, c.height, m, false);
      NothingFilled(c, row, r, y);
      var x: int := r.x;
      while x < Plus(r.x, r.w)
        invariant r.x <= x
        invariant CellsFilled(c, GridOf(c.width, c.height, m, false), row, r, y, x)
      {
        CellFilled(c, GridOf(c.width, c.height, m, false), row, r, y, x);
        GridWrite(c.width, c.height, m, false, x, y, true);
        m := m[Key(x, y) := true];
        x := x + 1;
      }
      RowFilled(c, GridOf(c.width, c.height, m, false), row, before, r, y, x);
      y := y + 1;
    }
    RectFilled(c, GridOf(c.width, c.height, m, false), before, k, y);
  }

  method BuildFood(c: Config) returns (m: map<string, Int64>, left: Int64)
    requires ValidConfig(c)
    ensures c.width * c.height >= 0 && GridOf(c.width, c.height, m, 0) == FoodGrid(c, c.food)
    ensures left == Wrapped(TotalFood(c.food))
  {
    hide Key;
    CellsNatural(c);
    m := map[];
    left := 0;
    FoodGridEmpty(c, c.food);
    assert GridOf(c.width, c.height, m, 0) == FoodGrid(c, c.food[..0]);
    hide GridOf;
    hide FoodGrid;
    hide TotalFood;
    hide Get;
    for k := 0 to |c.food|
      invariant GridOf(c.width, c.height, m, 0) == FoodGrid(c, c.food[..k]) && left == Wrapped(TotalFood(c.food[..k]))
    {
      var f := c.food[k];
      assert FoodOk(c, f);
      FoodGridPush(c, c.food, k);
      TotalFoodPush(c.food, k);
      var key := Key(f.at.x, f.at.y);
      GridRead(c.width, c.height, m, 0, f.at.x, f.at.y);
      GridWrite(c.width, c.height, m, 0, f.at.x, f.at.y, Plus(Get(m, key, 0), f.amount));
      m := m[key := Plus(Get(m, key, 0), f.amount)];
      left := Plus(left, f.amount);
    }
    assert c.food[..|c.food|] == c.food;
  }

  lemma NewDraws(c: Config, rules: Rules, limit: nat, w: NaiveWorld)
    requires ValidConfig(c) && StreamsLive(c, limit) && w.Valid() && w.env == NewEnv(c, rules) && w.View() == NewWorld(c)
    ensures AllLive(w.ants, w.env.movement.randomDen, TicksRun(c, limit))
  {
    hide NewWorld;
    hide AllLive;
    hide Views;
    hide StreamsLive;
    NewAntsLive(c, limit, w.ants);
  }

  /** Run: at most c.ticks ticks, fewer when cancelled; the result is the specification's. */
  method RunNaive(c: Config, rules: Rules, limit: nat, engine: string, wallNs: int, allocs: Word, heapBytes: Word)
      returns (r: Result)
    requires ValidConfig(c) && StreamsLive(c, limit) && !rules.smell
    ensures DeterministicEqual(r, Expected(c, rules, limit)) && r.engine == engine
  {
    hide NewEnv;
    hide NewWorld;
    hide Ok;
    hide Run;
    hide DeterministicEqual;
    hide Reported;
    hide GridOf;
    NewWorldOk(c, rules);
    var w := new NaiveWorld(c, rules);
    NewDraws(c, rules, limit, w);
    var ticksRun := w.RunTicks(c.ticks, limit);
    r := w.Summary(c, ticksRun, engine, wallNs, allocs, heapBytes);
  }
}
