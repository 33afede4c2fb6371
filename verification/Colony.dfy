/**
 The simulation as mathematics: what one sense, commit and decay phase does to
 the whole memory of a world, whatever the engine stores it in.
 */
module Colony {
  import opened Words
  import opened Config
  import opened Rng
  import opened Stencil
  import opened Grid

  /** What distinguishes the engines' simulations from one another. */
  datatype Rules = Rules(
    trail: bool,     // ants keep the string history of their cells
    anchored: bool,  // Steps restarts at pickup and drop-off and scales deposits
    smell: bool)     // searching ants are drawn to the nearest live pile

  const PLAIN := Rules(true, false, false)      // naive, flatgrid, parallel
  const NO_TRAIL := Rules(false, false, false)  // nogc
  const GRADIENT := Rules(true, true, false)
  const SCENT := Rules(true, true, true)

  /** The part of a world that never changes during a run. */
  datatype Env = Env(
    w: int, h: int, nest: Point, walls: seq<bool>, piles: seq<Point>,
    pheromone: Pheromone, movement: Movement, rules: Rules)

  datatype Ant = Ant(
    id: nat, x: int, y: int, dir: int, hasFood: bool, blocked: bool, steps: nat, trail: seq<string>, rng: State)

  datatype Intent = Intent(nx: int, ny: int, dir: int, blocked: bool)

  type Levels = seq<U32>

  datatype World = World(
    ants: seq<Ant>, intents: seq<Intent>, food: seq<Int64>,
    pheroFood: Levels, pheroHome: Levels, depFood: Levels, depHome: Levels, nextFood: Levels, nextHome: Levels,
    collected: Int64, foodLeft: Int64)

  predicate EnvOk(env: Env) {
    && env.w > 0 && env.h > 0 && |env.walls| == env.w * env.h
    && Passable(env, env.nest.x, env.nest.y)
    && (forall i :: 0 <= i < |env.piles| ==> Inside(env.w, env.h, env.piles[i].x, env.piles[i].y))
    && PheromoneOk(env.pheromone) && MovementOk(env.movement)
  }

  /** All grids have one cell per grid position and every ant has an intent slot. */
  predicate Shaped(env: Env, w: World) {
    && EnvOk(env) && |w.intents| == |w.ants|
    && |w.food| == |w.pheroFood| == |w.pheroHome| == |w.depFood| == |w.depHome|
       == |w.nextFood| == |w.nextHome| == env.w * env.h
  }

  // Movement.

  const DX: seq<int> := [0, 1, 1, 1, 0, -1, -1, -1]
  const DY: seq<int> := [-1, -1, 0, 1, 1, 1, 0, -1]

  const SCENT_RADIUS := 24
  const HALF_LIFE := 16

  predicate Heading(d: int) {
    0 <= d < 8
  }

  /** (d + k) & 7. */
  function Turn(d: int, k: nat): (r: int)
    ensures Heading(r)
  {
    (d + k) % 8
  }

  predicate Passable(env: Env, x: int, y: int)
    requires |env.walls| == env.w * env.h
  {
    Inside(env.w, env.h, x, y) && (IdxRoundTrip(env.w, env.h, x, y); !env.walls[Idx(env.w, x, y)])
  }

  function Abs(v: int): nat {
    if v < 0 then -v else v
  }

  function Cheb(x: int, y: int, p: Point): nat {
    if Abs(x - p.x) > Abs(y - p.y) then Abs(x - p.x) else Abs(y - p.y)
  }

  /** step: move along d, or stay and turn around. */
  function Step(env: Env, x: int, y: int, d: int): Intent
    requires |env.walls| == env.w * env.h && Heading(d)
  {
    if Passable(env, x + DX[d], y + DY[d]) then Intent(x + DX[d], y + DY[d], d, false)
    else Intent(x, y, Turn(d, 4), true)
  }

  /** The candidate headings: straight on, left, right. */
  function Cone(d: int): (c: seq<int>)
    requires Heading(d)
    ensures |c| == 3 && forall k :: 0 <= k < 3 ==> Heading(c[k])
  {
    [d, Turn(d, 7), Turn(d, 1)]
  }

  datatype Scent = NoScent | At(p: Point)

  /** nearestScent over the first n piles. */
  function NearestScent(env: Env, food: seq<int>, x: int, y: int, n: nat): (s: Scent)
    requires EnvOk(env) && |food| == env.w * env.h && n <= |env.piles|
    ensures s.At? ==> Cheb(x, y, s.p) <= SCENT_RADIUS
  {
    if n == 0 then NoScent else
    var best := NearestScent(env, food, x, y, n - 1);
    var p := env.piles[n - 1];
    IdxRoundTrip(env.w, env.h, p.x, p.y);
    if food[Idx(env.w, p.x, p.y)] <= 0 || Cheb(x, y, p) > SCENT_RADIUS then best
    else if best.NoScent? || Cheb(x, y, p) < Cheb(x, y, best.p) then At(p)
    else best
  }

  /** What a searching ant smells under the given rules. */
  function Smelled(env: Env, food: seq<int>, x: int, y: int, hasFood: bool): Scent
    requires EnvOk(env) && |food| == env.w * env.h
  {
    if env.rules.smell && !hasFood then NearestScent(env, food, x, y, |env.piles|) else NoScent
  }

  /** The attraction of heading d, or -1 when its cell cannot be entered. */
  function Score(env: Env, trail: Levels, scent: Scent, x: int, y: int, hasFood: bool, d: int): (s: int)
    requires EnvOk(env) && |trail| == env.w * env.h && Heading(d)
    ensures s >= 0 <==> Passable(env, x + DX[d], y + DY[d])
  {
    var nx, ny := x + DX[d], y + DY[d];
    if !Passable(env, nx, ny) then -1
    else
      IdxRoundTrip(env.w, env.h, nx, ny);
      trail[Idx(env.w, nx, ny)] +
      (if hasFood && Cheb(nx, ny, env.nest) < Cheb(x, y, env.nest) then env.pheromone.max / 4 else 0) +
      (if !hasFood && scent.At? && Cheb(nx, ny, scent.p) < Cheb(x, y, scent.p) then env.pheromone.max / 4 else 0)
  }

  /** The scan of the cone: keep the best so far, replace it only by a strictly better one. */
  function Best(s: seq<int>): (b: int)
    ensures -1 <= b < |s|
  {
    if |s| == 0 then -1 else
    var n := |s| - 1;
    var b := Best(s[..n]);
    if s[n] >= 0 && (b < 0 || s[n] > s[b]) then n else b
  }

  function Scores(env: Env, trail: Levels, scent: Scent, x: int, y: int, hasFood: bool, dir: int): (s: seq<int>)
    requires EnvOk(env) && |trail| == env.w * env.h && Heading(dir)
    ensures |s| == 3
    ensures forall k :: 0 <= k < 3 ==> s[k] == Score(env, trail, scent, x, y, hasFood, Cone(dir)[k])
  {
    var c := Cone(dir);
    [Score(env, trail, scent, x, y, hasFood, c[0]), Score(env, trail, scent, x, y, hasFood, c[1]),
     Score(env, trail, scent, x, y, hasFood, c[2])]
  }

  /** chooseMove once its two draws are known. */
  function Decide(env: Env, trail: Levels, food: seq<int>, x: int, y: int, dir: int, hasFood: bool,
                  roll: U32, pick: int): Intent
    requires EnvOk(env) && |trail| == |food| == env.w * env.h && Heading(dir) && 0 <= pick < 3
  {
    if roll < env.movement.randomNum then Step(env, x, y, Cone(dir)[pick])
    else
      var b := Best(Scores(env, trail, Smelled(env, food, x, y, hasFood), x, y, hasFood, dir));
      if b < 0 then Intent(x, y, Turn(dir, 4), true)
      else Step(env, x, y, Cone(dir)[b])
  }

  // Phase A.

  ghost function SensedAnt(env: Env, a: Ant): Ant
    requires EnvOk(env)
  {
    a.(rng := Advance(a.rng, env.movement.randomDen))
  }

  ghost function SensedIntent(env: Env, w: World, a: Ant): Intent
    requires Shaped(env, w) && Heading(a.dir)
  {
    var roll := Draw(a.rng, env.movement.randomDen);
    var pick := Draw(roll.rest, 3);
    Decide(env, if a.hasFood then w.pheroHome else w.pheroFood, w.food, a.x, a.y, a.dir, a.hasFood, roll.value, pick.value)
  }

  /** Every ant faces one of the eight headings. */
  predicate Faced(w: World) {
    forall i :: 0 <= i < |w.ants| ==> Heading(w.ants[i].dir)
  }

  /** senseRange: ants [lo, hi) decide and advance their generators. */
  ghost function SenseRange(env: Env, w: World, lo: int, hi: int): (r: World)
    requires Shaped(env, w) && Faced(w)
    ensures Shaped(env, r) && |r.ants| == |w.ants|
  {
    w.(ants := seq(|w.ants|, i requires 0 <= i < |w.ants| =>
         if lo <= i < hi then SensedAnt(env, w.ants[i]) else w.ants[i]),
       intents := seq(|w.ants|, i requires 0 <= i < |w.ants| =>
         if lo <= i < hi then SensedIntent(env, w, w.ants[i]) else w.intents[i]))
  }

  /** One iteration of senseRange, on ant i. */
  ghost function SenseItem(env: Env, mem: World, i: nat): (r: World)
    requires Shaped(env, mem) && i < |mem.ants| && Heading(mem.ants[i].dir)
    ensures Shaped(env, r) && |r.ants| == |mem.ants|
  {
    mem.(ants := mem.ants[i := SensedAnt(env, mem.ants[i])],
         intents := mem.intents[i := SensedIntent(env, mem, mem.ants[i])])
  }

  /** One item writes one ant and one intent, with the values the phase's start determines. */
  lemma SensedItem(env: Env, w: World, mem: World, i: nat)
    requires Shaped(env, w) && Faced(w) && Shaped(env, mem) && i < |mem.ants| == |w.ants|
    requires mem == w.(ants := mem.ants, intents := mem.intents) && mem.ants[i] == w.ants[i]
    ensures SenseItem(env, mem, i) ==
      mem.(ants := mem.ants[i := SensedAnt(env, w.ants[i])], intents := mem.intents[i := SensedIntent(env, w, w.ants[i])])
  {
    hide Decide;
    hide Draw;
  }

  lemma EmptyRange(env: Env, w: World, lo: nat)
    requires Shaped(env, w) && Faced(w)
    ensures SenseRange(env, w, lo, lo) == w
  {
    assert SenseRange(env, w, lo, lo).ants == w.ants && SenseRange(env, w, lo, lo).intents == w.intents;
  }

  lemma RangeExtends(env: Env, w: World, v: World, lo: nat, i: nat)
    requires Shaped(env, w) && Faced(w) && lo <= i < |w.ants| && Shaped(env, v) && v == SenseRange(env, w, lo, i)
    ensures Heading(v.ants[i].dir)
    ensures SenseItem(env, v, i) == SenseRange(env, w, lo, i + 1)
  {
    hide SensedAnt;
    hide SensedIntent;
    SensedItem(env, w, v, i);
    hide SenseItem;
    var r, q := v.ants[i := SensedAnt(env, w.ants[i])], v.intents[i := SensedIntent(env, w, w.ants[i])];
    assert r == SenseRange(env, w, lo, i + 1).ants;
    assert q == SenseRange(env, w, lo, i + 1).intents;
  }

  ghost function Sense(env: Env, w: World): (r: World)
    requires Shaped(env, w) && Faced(w)
    ensures Shaped(env, r) && |r.ants| == |w.ants|
  {
    SenseRange(env, w, 0, |w.ants|)
  }

  // Phase B.

  function AddSat(a: U32, b: U32, max: U32): U32 {
    if a + b > max then max else a + b
  }

  /** falloff: halve the deposit every HALF_LIFE steps. */
  function Falloff(base: U32, steps: nat): (r: U32)
    ensures r <= base
  {
    if steps <= 0 then base
    else if steps / HALF_LIFE >= 32 then 0
    else
      DivBelow(base, Pow2(steps / HALF_LIFE));
      base / Pow2(steps / HALF_LIFE)
  }

  function Deposit(env: Env, base: U32, steps: nat): (r: U32)
    ensures r <= base
  {
    if env.rules.anchored then Falloff(base, steps) else base
  }

  /** The amount an ant marks its cell with. */
  function Mark(env: Env, a: Ant): U32 {
    Deposit(env, if a.hasFood then env.pheromone.depositFood else env.pheromone.depositHome, a.steps)
  }

  function Digits(n: nat): (s: string)
    ensures |s| > 0
  {
    if n < 10 then ["0123456789"[n]] else Digits(n / 10) + ["0123456789"[n % 10]]
  }

  function Decimal(n: int): (s: string)
    ensures |s| > 0
  {
    if n < 0 then "-" + Digits(-n) else Digits(n)
  }

  /** The "x,y" string of a cell: naive's map key and every engine's trail entry. */
  function Key(x: int, y: int): string {
    Decimal(x) + "," + Decimal(y)
  }

  predicate IntentOk(env: Env, n: Intent)
    requires |env.walls| == env.w * env.h
  {
    Passable(env, n.nx, n.ny) && Heading(n.dir)
  }

  predicate Ready(env: Env, w: World) {
    Shaped(env, w) && forall i :: 0 <= i < |w.intents| ==> IntentOk(env, w.intents[i])
  }

  function Moved(env: Env, a: Ant, n: Intent): Ant {
    a.(x := n.nx, y := n.ny, dir := n.dir, blocked := n.blocked, steps := a.steps + 1,
       trail := if env.rules.trail then a.trail + [Key(n.nx, n.ny)] else a.trail)
  }

  predicate PicksUp(env: Env, w: World, a: Ant)
    requires Shaped(env, w) && Inside(env.w, env.h, a.x, a.y)
  {
    IdxRoundTrip(env.w, env.h, a.x, a.y);
    !a.hasFood && w.food[Idx(env.w, a.x, a.y)] > 0
  }

  predicate Drops(env: Env, a: Ant) {
    a.hasFood && a.x == env.nest.x && a.y == env.nest.y
  }

  /** An ant that swaps between searching and carrying turns around; anchored rules restart its steps. */
  function Switched(env: Env, a: Ant): Ant {
    a.(hasFood := !a.hasFood, dir := Turn(a.dir, 4), steps := if env.rules.anchored then 0 else a.steps)
  }

  /** Ant i moves to its intended cell. */
  function MoveAnt(env: Env, w: World, i: nat): (r: World)
    requires Ready(env, w) && i < |w.ants|
    ensures Ready(env, r) && |r.ants| == |w.ants| && r.intents == w.intents
    ensures Inside(env.w, env.h, r.ants[i].x, r.ants[i].y)
  {
    w.(ants := w.ants[i := Moved(env, w.ants[i], w.intents[i])])
  }

  /** Ant i picks up or drops food where it stands. */
  function Exchange(env: Env, w: World, i: nat): (r: World)
    requires Ready(env, w) && i < |w.ants| && Inside(env.w, env.h, w.ants[i].x, w.ants[i].y)
    ensures Ready(env, r) && |r.ants| == |w.ants| && r.intents == w.intents
    ensures r.ants[i].x == w.ants[i].x && r.ants[i].y == w.ants[i].y
  {
    var a := w.ants[i];
    IdxRoundTrip(env.w, env.h, a.x, a.y);
    var cell := Idx(env.w, a.x, a.y);
    if PicksUp(env, w, a) then
      w.(ants := w.ants[i := Switched(env, a)], food := w.food[cell := w.food[cell] - 1], foodLeft := Plus(w.foodLeft, -1))
    else if Drops(env, a) then
      w.(ants := w.ants[i := Switched(env, a)], collected := Plus(w.collected, 1))
    else w
  }

  /** Ant i marks the cell it stands on. */
  function MarkCell(env: Env, w: World, i: nat): (r: World)
    requires Ready(env, w) && i < |w.ants| && Inside(env.w, env.h, w.ants[i].x, w.ants[i].y)
    ensures Ready(env, r) && r.ants == w.ants && r.intents == w.intents
  {
    var a := w.ants[i];
    IdxRoundTrip(env.w, env.h, a.x, a.y);
    var cell := Idx(env.w, a.x, a.y);
    if a.hasFood then
      w.(depFood := w.depFood[cell := AddSat(w.depFood[cell], Mark(env, a), env.pheromone.max)])
    else
      w.(depHome := w.depHome[cell := AddSat(w.depHome[cell], Mark(env, a), env.pheromone.max)])
  }

  /** One iteration of the commit loop: move, exchange food, mark. */
  function CommitOne(env: Env, w: World, i: nat): (r: World)
    requires Ready(env, w) && i < |w.ants|
    ensures Ready(env, r) && |r.ants| == |w.ants| && r.intents == w.intents
  {
    MarkCell(env, Exchange(env, MoveAnt(env, w, i), i), i)
  }

  /** The first n ants commit, in ascending order. */
  function CommitTo(env: Env, w: World, n: nat): (r: World)
    requires Ready(env, w) && n <= |w.ants|
    ensures Ready(env, r) && |r.ants| == |w.ants| && r.intents == w.intents
  {
    if n == 0 then w else CommitOne(env, CommitTo(env, w, n - 1), n - 1)
  }

  function Commit(env: Env, w: World): (r: World)
    requires Ready(env, w)
    ensures Ready(env, r) && |r.ants| == |w.ants| && r.intents == w.intents
  {
    CommitTo(env, w, |w.ants|)
  }

  // Phase C.

  /** The levels decayGrid reads: the grid plus this tick's deposits. */
  function Added(cur: Levels, dep: Levels): (f: seq<nat>)
    requires |cur| == |dep|
    ensures |f| == |cur|
  {
    seq(|cur|, i requires 0 <= i < |cur| => var level: nat := cur[i]; level + dep[i])
  }

  /** The new level of cell i. */
  function NewLevel(env: Env, cur: Levels, dep: Levels, i: nat): (r: U32)
    requires EnvOk(env) && |cur| == |dep| == env.w * env.h && i < |cur|
    ensures r <= env.pheromone.max
  {
    var f := Added(cur, dep);
    Cell(env.pheromone, f[i], Inflow(env.w, env.h, f, i))
  }

  /** decayGrid writes only non-zero levels: a zero leaves the write buffer as it was. */
  function Written(env: Env, cur: Levels, dep: Levels, next: Levels, i: nat): U32
    requires EnvOk(env) && |cur| == |dep| == |next| == env.w * env.h && i < |cur|
  {
    var v := NewLevel(env, cur, dep, i);
    if v != 0 then v else next[i]
  }

  /** decayGrid on the cells [lo, hi). */
  function Decayed(env: Env, cur: Levels, dep: Levels, next: Levels, lo: int, hi: int): (r: Levels)
    requires EnvOk(env) && |cur| == |dep| == |next| == env.w * env.h
    ensures |r| == |cur|
  {
    seq(|cur|, i requires 0 <= i < |cur| => if lo <= i < hi then Written(env, cur, dep, next, i) else next[i])
  }

  /** Writing the next cell in address order extends the decayed range by one. */
  lemma DecayedStep(env: Env, cur: Levels, dep: Levels, before: Levels, now: Levels, lo: nat, i: nat)
    requires EnvOk(env) && |cur| == |dep| == |before| == env.w * env.h && lo <= i < |cur|
    requires now == Decayed(env, cur, dep, before, lo, i)
    ensures now[i := Written(env, cur, dep, now, i)] == Decayed(env, cur, dep, before, lo, i + 1)
  {
    assert now[i] == before[i];
  }

  /** decayRows: the cells [lo, hi) of both grids. */
  function DecayCells(env: Env, w: World, lo: int, hi: int): (r: World)
    requires Shaped(env, w)
    ensures Shaped(env, r) && r.ants == w.ants
  {
    w.(nextFood := Decayed(env, w.pheroFood, w.depFood, w.nextFood, lo, hi),
       nextHome := Decayed(env, w.pheroHome, w.depHome, w.nextHome, lo, hi))
  }

  function Swap(w: World): World {
    w.(pheroFood := w.nextFood, nextFood := w.pheroFood, pheroHome := w.nextHome, nextHome := w.pheroHome)
  }

  function Zeros(n: nat): (z: Levels)
    ensures |z| == n && forall i :: 0 <= i < n ==> z[i] == 0
  {
    seq(n, i => 0)
  }

  function Clear(w: World): World {
    w.(depFood := Zeros(|w.depFood|), depHome := Zeros(|w.depHome|),
       nextFood := Zeros(|w.nextFood|), nextHome := Zeros(|w.nextHome|))
  }

  function Decay(env: Env, w: World): (r: World)
    requires Shaped(env, w)
    ensures Shaped(env, r) && r.ants == w.ants
  {
    Clear(Swap(DecayCells(env, w, 0, env.w * env.h)))
  }

  /** The three steps of decay at once. */
  lemma DecayIs(env: Env, w: World)
    requires Shaped(env, w)
    ensures var n, z := env.w * env.h, Zeros(env.w * env.h);
      Decay(env, w) == w.(
        pheroFood := Decayed(env, w.pheroFood, w.depFood, w.nextFood, 0, n),
        pheroHome := Decayed(env, w.pheroHome, w.depHome, w.nextHome, 0, n),
        depFood := z, depHome := z, nextFood := z, nextHome := z)
  {
    hide Decayed;
    hide Zeros;
  }

  // The tick and the run.

  predicate AntOk(env: Env, a: Ant)
    requires |env.walls| == env.w * env.h
  {
    Passable(env, a.x, a.y) && Heading(a.dir)
  }

  /** What holds at every tick boundary: ants on open cells, scratch buffers clean. */
  predicate Ok(env: Env, w: World) {
    && Shaped(env, w)
    && (forall i :: 0 <= i < |w.ants| ==> AntOk(env, w.ants[i]))
    && Clean(w)
  }

  predicate Clean(w: World) {
    && w.depFood == Zeros(|w.depFood|) && w.depHome == Zeros(|w.depHome|)
    && w.nextFood == Zeros(|w.nextFood|) && w.nextHome == Zeros(|w.nextHome|)
  }

  lemma StepOk(env: Env, x: int, y: int, d: int)
    requires |env.walls| == env.w * env.h && Heading(d) && Passable(env, x, y)
    ensures IntentOk(env, Step(env, x, y, d))
  {
  }

  /** An ant's decision always names a cell it may enter. */
  lemma DecideOk(env: Env, trail: Levels, food: seq<int>, x: int, y: int, dir: int, hasFood: bool, roll: U32, pick: int)
    requires EnvOk(env) && |trail| == |food| == env.w * env.h && Heading(dir) && 0 <= pick < 3
    requires Passable(env, x, y)
    ensures IntentOk(env, Decide(env, trail, food, x, y, dir, hasFood, roll, pick))
  {
    hide Step;
    hide Scores;
    hide Best;
    forall d | Heading(d)
      ensures IntentOk(env, Step(env, x, y, d))
    {
      StepOk(env, x, y, d);
    }
  }

  lemma SenseReady(env: Env, w: World)
    requires Ok(env, w)
    ensures Ready(env, Sense(env, w))
  {
    forall i | 0 <= i < |w.ants|
      ensures IntentOk(env, SensedIntent(env, w, w.ants[i]))
    {
      var a := w.ants[i];
      var roll := Draw(a.rng, env.movement.randomDen);
      DecideOk(env, if a.hasFood then w.pheroHome else w.pheroFood, w.food, a.x, a.y, a.dir, a.hasFood,
        roll.value, Draw(roll.rest, 3).value);
    }
  }

  ghost function Tick(env: Env, w: World): (r: World)
    requires Ok(env, w)
    ensures Ok(env, r) && |r.ants| == |w.ants|
  {
    SenseReady(env, w);
    var s := Sense(env, w);
    var c := Commit(env, s);
    CommitKeeps(env, s, |s.ants|);
    Decay(env, c)
  }

  lemma CommitOneKeeps(env: Env, w: World, i: nat)
    requires Ready(env, w) && i < |w.ants|
    ensures AntOk(env, CommitOne(env, w, i).ants[i])
    ensures forall j :: 0 <= j < |w.ants| && j != i ==> CommitOne(env, w, i).ants[j] == w.ants[j]
  {
    hide Key;
    hide Mark;
    hide Passable;
  }

  /** Commit leaves every committed ant on its intended open cell. */
  lemma {:induction false} CommitKeeps(env: Env, w: World, n: nat)
    requires Ready(env, w) && n <= |w.ants|
    requires forall i :: 0 <= i < |w.ants| ==> AntOk(env, w.ants[i])
    ensures forall i :: 0 <= i < |w.ants| ==> AntOk(env, CommitTo(env, w, n).ants[i])
    decreases n
  {
    hide CommitOne;
    hide Ready;
    hide AntOk;
    if n > 0 {
      CommitKeeps(env, w, n - 1);
      CommitOneKeeps(env, CommitTo(env, w, n - 1), n - 1);
    }
  }

  lemma OkFaced(env: Env, w: World)
    requires Ok(env, w)
    ensures Shaped(env, w) && Faced(w)
  {
  }

  lemma TickSteps(env: Env, w: World)
    requires Ok(env, w)
    ensures Ready(env, Sense(env, w)) && Tick(env, w) == Decay(env, Commit(env, Sense(env, w)))
  {
    SenseReady(env, w);
    hide Ok;
    hide Ready;
    hide Sense;
    hide Commit;
    hide Decay;
  }

  ghost function Run(env: Env, w: World, t: nat): (r: World)
    requires Ok(env, w)
    ensures Ok(env, r) && |r.ants| == |w.ants|
  {
    if t == 0 then w else Tick(env, Run(env, w, t - 1))
  }

  lemma RunZero(env: Env, w: World)
    requires Ok(env, w)
    ensures Run(env, w, 0) == w
  {
  }

  lemma RunStep(env: Env, w: World, t: nat)
    requires Ok(env, w)
    ensures Run(env, w, t + 1) == Tick(env, Run(env, w, t))
  {
  }
}
