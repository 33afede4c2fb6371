/**
 Pheromone over whole runs: levels never exceed Max, no 64-bit step wraps when
 the parameters fit, a field without deposits never rises, and one decay phase
 creates less than one unit of mass per cell.
 */
module Fields {
  import opened Config
  import opened Stencil
  import opened Grid
  import opened Colony
  import opened Start
  import opened Commits

  predicate AtMost(g: Levels, m: int) {
    forall i :: 0 <= i < |g| ==> g[i] <= m
  }

  /** Both fields are within the configured ceiling. */
  predicate Bounded(env: Env, w: World) {
    AtMost(w.pheroFood, env.pheromone.max) && AtMost(w.pheroHome, env.pheromone.max)
  }

  /** The world a tick's decay phase starts from. */
  ghost function BeforeDecay(env: Env, w: World): (r: World)
    requires Ok(env, w)
    ensures Ready(env, r)
  {
    SenseReady(env, w);
    Commit(env, Sense(env, w))
  }

  lemma CommitOneKeepsFields(env: Env, w: World, i: nat)
    requires Ready(env, w) && i < |w.ants|
    ensures var r := CommitOne(env, w, i);
      && r.pheroFood == w.pheroFood && r.pheroHome == w.pheroHome && r.nextFood == w.nextFood && r.nextHome == w.nextHome
  {
    hide Key;
    hide Mark;
  }

  lemma {:induction false} CommitKeepsFields(env: Env, w: World, n: nat)
    requires Ready(env, w) && n <= |w.ants|
    ensures var r := CommitTo(env, w, n);
      && r.pheroFood == w.pheroFood && r.pheroHome == w.pheroHome && r.nextFood == w.nextFood && r.nextHome == w.nextHome
    decreases n
  {
    hide CommitOne;
    hide Ready;
    if n > 0 {
      CommitKeepsFields(env, w, n - 1);
      CommitOneKeepsFields(env, CommitTo(env, w, n - 1), n - 1);
    }
  }

  /** Before decay the fields are the tick's starting fields, deposits are within Max and the write buffers are zero. */
  lemma DecayInputs(env: Env, w: World)
    requires Ok(env, w)
    ensures var b := BeforeDecay(env, w);
      && b.pheroFood == w.pheroFood && b.pheroHome == w.pheroHome
      && AtMost(b.depFood, env.pheromone.max) && AtMost(b.depHome, env.pheromone.max)
      && b.nextFood == Zeros(env.w * env.h) && b.nextHome == Zeros(env.w * env.h)
  {
    SenseReady(env, w);
    var s := Sense(env, w);
    CommitKeepsFields(env, s, |s.ants|);
    forall c | 0 <= c < env.w * env.h
      ensures Commit(env, s).depFood[c] <= env.pheromone.max && Commit(env, s).depHome[c] <= env.pheromone.max
    {
      DepositsAfter(env, s, |s.ants|, c);
    }
  }

  lemma SensedIsClean(env: Env, w: World)
    requires Ok(env, w)
    ensures var s := Sense(env, w);
      Ready(env, s) && forall c :: 0 <= c < env.w * env.h ==> s.depFood[c] == 0 && s.depHome[c] == 0
  {
    SenseReady(env, w);
  }

  /**
   In every tick of every run, what decay reads as deposits is, cell by cell, the
   capped sum of the marks of the ants that stand there: min(Max, amount * ants)
   without falloff. Cells are clean when a commit starts.
   */
  lemma RunDeposits(c: Config, rules: Rules, t: nat, i: nat)
    requires ValidConfig(c) && i < c.width * c.height
    ensures var env, b := NewEnv(c, rules), BeforeDecay(NewEnv(c, rules), WorldAt(c, rules, t));
      i < |b.depFood| && i < |b.depHome| && DepositsMatch(env, b, b.ants, i)
  {
    var env, w := NewEnv(c, rules), WorldAt(c, rules, t);
    SensedIsClean(env, w);
    hide Run;
    hide Ok;
    hide Sense;
    hide Commit;
    hide DepositsMatch;
    hide Ready;
    DepositsOfAnts(env, Sense(env, w), i);
  }

  /** What the decay phase leaves in a field, given clean write buffers: the stencil of the old levels. */
  lemma FieldsAfterTick(env: Env, w: World, i: nat)
    requires Ok(env, w) && i < env.w * env.h
    ensures var b, r := BeforeDecay(env, w), Tick(env, w);
      && r.pheroFood[i] == NewLevel(env, b.pheroFood, b.depFood, i)
      && r.pheroHome[i] == NewLevel(env, b.pheroHome, b.depHome, i)
  {
    DecayInputs(env, w);
    TickIsDecay(env, w);
    hide Tick;
    hide BeforeDecay;
    hide NewLevel;
  }

  lemma TickIsDecay(env: Env, w: World)
    requires Ok(env, w)
    ensures Tick(env, w) == Decay(env, BeforeDecay(env, w))
  {
    hide Sense;
    hide Commit;
    hide Decay;
  }

  lemma TickBounded(env: Env, w: World)
    requires Ok(env, w)
    ensures Bounded(env, Tick(env, w))
  {
    forall i | 0 <= i < env.w * env.h
      ensures Tick(env, w).pheroFood[i] <= env.pheromone.max && Tick(env, w).pheroHome[i] <= env.pheromone.max
    {
      FieldsAfterTick(env, w, i);
    }
    hide Tick;
  }

  /** At every tick of every run, no cell of either field exceeds Max. */
  lemma LevelsStayBounded(c: Config, rules: Rules, t: nat)
    requires ValidConfig(c)
    ensures Bounded(NewEnv(c, rules), WorldAt(c, rules, t))
  {
    NewWorldOk(c, rules);
    if t > 0 {
      TickBounded(NewEnv(c, rules), WorldAt(c, rules, t - 1));
    }
    hide Tick;
  }

  lemma InflowOfFour(env: Env, f: seq<nat>, i: nat, m: nat) returns (n: nat, s: nat, w: nat, e: nat)
    requires EnvOk(env) && |f| == env.w * env.h && i < |f|
    requires forall j :: 0 <= j < |f| ==> f[j] <= m
    ensures n <= m && s <= m && w <= m && e <= m && Inflow(env.w, env.h, f, i) == n + s + w + e
  {
    hide Level;
    var x, y := i % env.w, i / env.w;
    n, s := Level(env.w, env.h, f, x, y - 1), Level(env.w, env.h, f, x, y + 1);
    w, e := Level(env.w, env.h, f, x - 1, y), Level(env.w, env.h, f, x + 1, y);
    LevelBound(env.w, env.h, f, x, y - 1, m);
    LevelBound(env.w, env.h, f, x, y + 1, m);
    LevelBound(env.w, env.h, f, x - 1, y, m);
    LevelBound(env.w, env.h, f, x + 1, y, m);
  }

  /** On grids and deposits within Max, and parameters that fit a word, the stencil is exact. */
  lemma StencilIsExact(env: Env, cur: Levels, dep: Levels, i: nat)
    requires EnvOk(env) && |cur| == |dep| == env.w * env.h && i < |cur| && FitsWord(env.pheromone)
    requires AtMost(cur, env.pheromone.max) && AtMost(dep, env.pheromone.max)
    ensures var f := Added(cur, dep);
      && NoWrap(env.pheromone, f[i], Inflow(env.w, env.h, f, i))
      && NewLevel(env, cur, dep, i) == Exact(env.pheromone, f[i], Inflow(env.w, env.h, f, i))
  {
    var f := Added(cur, dep);
    forall j | 0 <= j < |f|
      ensures f[j] <= 2 * env.pheromone.max
    {
      assert cur[j] <= env.pheromone.max && dep[j] <= env.pheromone.max;
    }
    var n, s, w, e := InflowOfFour(env, f, i, 2 * env.pheromone.max);
    FitsWordMeansNoWrap(env.pheromone, f[i], n, s, w, e);
  }

  /**
   In every tick of every run, if 8*Max*DiffNum and 2*Max*EvapNum fit 64 bits then
   no product of the stencil wraps and both fields are the exact ones.
   */
  lemma RunsNeverWrap(c: Config, rules: Rules, t: nat, i: nat)
    requires ValidConfig(c) && FitsWord(c.pheromone) && i < c.width * c.height
    ensures var env, w := NewEnv(c, rules), WorldAt(c, rules, t);
      var b, r := BeforeDecay(env, w), WorldAt(c, rules, t + 1);
      var f, h := Added(b.pheroFood, b.depFood), Added(b.pheroHome, b.depHome);
      && r.pheroFood[i] == Exact(c.pheromone, f[i], Inflow(env.w, env.h, f, i))
      && r.pheroHome[i] == Exact(c.pheromone, h[i], Inflow(env.w, env.h, h, i))
  {
    var env, w := NewEnv(c, rules), WorldAt(c, rules, t);
    NewWorldOk(c, rules);
    LevelsStayBounded(c, rules, t);
    DecayInputs(env, w);
    FieldsAfterTick(env, w, i);
    var b := BeforeDecay(env, w);
    StencilIsExact(env, b.pheroFood, b.depFood, i);
    StencilIsExact(env, b.pheroHome, b.depHome, i);
    hide Tick;
    hide BeforeDecay;
    hide NewLevel;
    hide Exact;
  }

  /** Without deposits the maximum of a field never grows, on every valid parameter set. */
  lemma QuietFieldNeverRises(env: Env, cur: Levels, dep: Levels, m: nat, i: nat)
    requires EnvOk(env) && |cur| == |dep| == env.w * env.h && i < |cur| && AtMost(cur, m)
    requires forall j :: 0 <= j < |dep| ==> dep[j] == 0
    ensures NewLevel(env, cur, dep, i) <= m
  {
    var f := Added(cur, dep);
    forall j | 0 <= j < |f|
      ensures f[j] <= m
    {
      assert cur[j] <= m && dep[j] == 0;
    }
    FieldMaximumPrinciple(env.pheromone, env.w, env.h, f, m, i);
  }

  /** The mass of next is at most the mass decay read plus less than one unit per cell. */
  predicate MassWithin(env: Env, cur: Levels, dep: Levels, next: Levels)
    requires |cur| == |dep|
  {
    env.pheromone.diffDen * Sum(next) <=
    env.pheromone.diffDen * Sum(Added(cur, dep)) + (env.pheromone.diffDen - 1) * |cur|
  }

  lemma NewLevelAtMost(env: Env, cur: Levels, dep: Levels, i: nat)
    requires EnvOk(env) && |cur| == |dep| == env.w * env.h && i < |cur|
    ensures NewLevel(env, cur, dep, i) <= Spread64(env.pheromone, env.w, env.h, Added(cur, dep))[i]
  {
    var f := Added(cur, dep);
    CellAtMost(env.pheromone, f[i], Inflow(env.w, env.h, f, i));
    hide Cell;
    hide Diffused64;
    hide Inflow;
  }

  lemma DecayMass(env: Env, cur: Levels, dep: Levels, next: Levels)
    requires EnvOk(env) && |cur| == |dep| == |next| == env.w * env.h
    requires forall j :: 0 <= j < |next| ==> next[j] == NewLevel(env, cur, dep, j)
    ensures MassWithin(env, cur, dep, next)
  {
    var p, f := env.pheromone, Added(cur, dep);
    var g := Spread64(p, env.w, env.h, f);
    hide NewLevel;
    hide Spread64;
    forall j | 0 <= j < |next|
      ensures next[j] <= g[j]
    {
      NewLevelAtMost(env, cur, dep, j);
    }
    SumBelow(next, g);
    Mass64Bound(p, env.w, env.h, f);
    ScaleSum(p.diffDen, Sum(next), Sum(g));
  }

  lemma ScaleSum(k: nat, a: int, b: int)
    requires a <= b
    ensures k * a <= k * b
  {
    ScaleBoth(k, 0, b - a);
    assert k * b == k * a + k * (b - a);
  }

  lemma TickMass(env: Env, w: World)
    requires Ok(env, w)
    ensures var b, r := BeforeDecay(env, w), Tick(env, w);
      MassWithin(env, b.pheroFood, b.depFood, r.pheroFood) && MassWithin(env, b.pheroHome, b.depHome, r.pheroHome)
  {
    var b, r := BeforeDecay(env, w), Tick(env, w);
    forall i | 0 <= i < env.w * env.h
      ensures r.pheroFood[i] == NewLevel(env, b.pheroFood, b.depFood, i)
      ensures r.pheroHome[i] == NewLevel(env, b.pheroHome, b.depHome, i)
    {
      FieldsAfterTick(env, w, i);
    }
    hide Tick;
    hide BeforeDecay;
    hide NewLevel;
    hide MassWithin;
    DecayMass(env, b.pheroFood, b.depFood, r.pheroFood);
    DecayMass(env, b.pheroHome, b.depHome, r.pheroHome);
  }

  /** In every tick of every run each field's total grows by less than its deposits plus one unit per cell. */
  lemma RunMass(c: Config, rules: Rules, t: nat)
    requires ValidConfig(c)
    ensures var env, b, r := NewEnv(c, rules), BeforeDecay(NewEnv(c, rules), WorldAt(c, rules, t)), WorldAt(c, rules, t + 1);
      MassWithin(env, b.pheroFood, b.depFood, r.pheroFood) && MassWithin(env, b.pheroHome, b.depHome, r.pheroHome)
  {
    NewWorldOk(c, rules);
    hide Tick;
    hide BeforeDecay;
    hide MassWithin;
    TickMass(NewEnv(c, rules), WorldAt(c, rules, t));
  }
}
