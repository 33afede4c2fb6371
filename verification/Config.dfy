/**
 The simulation's input and its validation. A config that passes Validate is
 the only precondition every engine has.
 */
module Config {
  import opened Words

  /** Go's int on a 64-bit platform. */
  type Int64 = x: int | -0x8000_0000_0000_0000 <= x < 0x8000_0000_0000_0000

  datatype Point = Point(x: Int64, y: Int64)
  datatype Rect = Rect(x: Int64, y: Int64, w: Int64, h: Int64)
  datatype FoodPile = FoodPile(at: Point, amount: Int64)
  datatype Pheromone = Pheromone(
    depositFood: U32, depositHome: U32, evapNum: U32, evapDen: U32, diffNum: U32, diffDen: U32, max: U32)
  datatype Movement = Movement(randomNum: U32, randomDen: U32)
  datatype Config = Config(
    version: Int64, name: string, seed: Word, width: Int64, height: Int64, ticks: Int64, antCount: Int64,
    nest: Point, walls: seq<Rect>, food: seq<FoodPile>, pheromone: Pheromone, movement: Movement)

  /** The Go int with the same 64 low bits as v. */
  function Wrapped(v: int): Int64 {
    (v + TWO_63) % TWO_64 - TWO_63
  }

  /** Addition of Go ints, wrapping on overflow. */
  function Plus(a: Int64, b: Int64): Int64 {
    Wrapped(a + b)
  }

  /** Wrapping early or late makes no difference. */
  lemma PlusWrapped(a: int, b: Int64)
    ensures Plus(Wrapped(a), b) == Wrapped(a + b)
  {
    WrapLate(a, b, TWO_63, TWO_64);
  }

  lemma WrappedFits(v: int)
    ensures Wrapped(v) == v <==> -TWO_63 <= v < TWO_63
  {
    if -TWO_63 <= v < TWO_63 {
      ModUnique(v + TWO_63, TWO_64, 0, v + TWO_63);
    }
  }

  predicate InGrid(c: Config, p: Point) {
    p.x >= 0 && p.y >= 0 && p.x < c.width && p.y < c.height
  }

  predicate Covers(r: Rect, x: int, y: int) {
    r.x <= x < Plus(r.x, r.w) && r.y <= y < Plus(r.y, r.h)
  }

  predicate Contains(r: Rect, p: Point) {
    Covers(r, p.x, p.y)
  }

  predicate WallOk(c: Config, r: Rect) {
    && r.w > 0 && r.h > 0
    && r.x >= 0 && r.y >= 0 && Plus(r.x, r.w) <= c.width && Plus(r.y, r.h) <= c.height
    && !Contains(r, c.nest)
  }

  predicate FoodOk(c: Config, f: FoodPile) {
    && f.amount > 0 && InGrid(c, f.at)
    && forall j :: 0 <= j < |c.walls| ==> !Contains(c.walls[j], f.at)
  }

  predicate PheromoneOk(p: Pheromone) {
    p.evapDen > 0 && p.evapNum <= p.evapDen && p.diffDen > 0 && p.diffNum <= p.diffDen && p.max > 0
  }

  predicate MovementOk(m: Movement) {
    m.randomDen > 0 && m.randomNum <= m.randomDen
  }

  /** What the rest of the simulation relies on. */
  predicate ValidConfig(c: Config) {
    && c.version == 1 && c.width > 0 && c.height > 0 && c.ticks >= 0 && c.antCount > 0
    && InGrid(c, c.nest)
    && (forall i :: 0 <= i < |c.walls| ==> WallOk(c, c.walls[i]))
    && (forall i :: 0 <= i < |c.food| ==> FoodOk(c, c.food[i]))
    && PheromoneOk(c.pheromone) && MovementOk(c.movement)
  }

  datatype Problem =
    | BadVersion | BadSize | BadTicks | BadAntCount | NestOutside
    | WallSize(i: nat) | WallEscapes(i: nat) | WallOnNest(i: nat)
    | FoodAmount(i: nat) | FoodOutside(i: nat) | FoodInWall(i: nat, j: nat)
    | BadEvaporation | BadDiffusion | BadMax | BadRandom

  /** What each message of Validate reports. */
  predicate Has(c: Config, e: Problem) {
    match e
    case BadVersion => c.version != 1
    case BadSize => c.width <= 0 || c.height <= 0
    case BadTicks => c.ticks < 0
    case BadAntCount => c.antCount <= 0
    case NestOutside => c.width > 0 && c.height > 0 && !InGrid(c, c.nest)
    case WallSize(i) => i < |c.walls| && (c.walls[i].w <= 0 || c.walls[i].h <= 0)
    case WallEscapes(i) => i < |c.walls| &&
      (c.walls[i].x < 0 || c.walls[i].y < 0 || Plus(c.walls[i].x, c.walls[i].w) > c.width ||
       Plus(c.walls[i].y, c.walls[i].h) > c.height)
    case WallOnNest(i) => i < |c.walls| && Contains(c.walls[i], c.nest)
    case FoodAmount(i) => i < |c.food| && c.food[i].amount <= 0
    case FoodOutside(i) => i < |c.food| && !InGrid(c, c.food[i].at)
    case FoodInWall(i, j) => i < |c.food| && j < |c.walls| && Contains(c.walls[j], c.food[i].at)
    case BadEvaporation => c.pheromone.evapDen == 0 || c.pheromone.evapNum > c.pheromone.evapDen
    case BadDiffusion => c.pheromone.diffDen == 0 || c.pheromone.diffNum > c.pheromone.diffDen
    case BadMax => c.pheromone.max == 0
    case BadRandom => c.movement.randomDen == 0 || c.movement.randomNum > c.movement.randomDen
  }

  function Report(c: Config, e: Problem): (errs: seq<Problem>)
    ensures forall x :: x in errs <==> x == e && Has(c, e)
  {
    if Has(c, e) then [e] else []
  }

  lemma ProblemMeansInvalid(c: Config, e: Problem)
    requires ValidConfig(c)
    ensures !Has(c, e)
  {
  }

  lemma WallClear(c: Config, i: nat)
    requires i < |c.walls|
    requires !Has(c, WallSize(i)) && !Has(c, WallEscapes(i)) && !Has(c, WallOnNest(i))
    ensures WallOk(c, c.walls[i])
  {
  }

  lemma FoodClear(c: Config, i: nat)
    requires i < |c.food|
    requires !Has(c, FoodAmount(i)) && !Has(c, FoodOutside(i))
    requires forall j: nat :: j < |c.walls| ==> !Has(c, FoodInWall(i, j))
    ensures FoodOk(c, c.food[i])
  {
    forall j | 0 <= j < |c.walls|
      ensures !Contains(c.walls[j], c.food[i].at)
    {
      assert !Has(c, FoodInWall(i, j));
    }
  }

  lemma HeaderClear(c: Config)
    requires !Has(c, BadVersion) && !Has(c, BadSize) && !Has(c, BadTicks) && !Has(c, BadAntCount)
    requires !Has(c, NestOutside) && !Has(c, BadEvaporation) && !Has(c, BadDiffusion)
    requires !Has(c, BadMax) && !Has(c, BadRandom)
    ensures c.version == 1 && c.width > 0 && c.height > 0 && c.ticks >= 0 && c.antCount > 0 && InGrid(c, c.nest)
    ensures PheromoneOk(c.pheromone) && MovementOk(c.movement)
  {
  }

  /** A config is valid exactly when no message applies to it. */
  lemma ValidMeansNoProblem(c: Config)
    ensures ValidConfig(c) <==> forall e :: !Has(c, e)
  {
    if ValidConfig(c) {
      forall e
        ensures !Has(c, e)
      {
        ProblemMeansInvalid(c, e);
      }
    }
    if forall e :: !Has(c, e) {
      hide Has;
      HeaderClear(c);
      forall i | 0 <= i < |c.walls|
        ensures WallOk(c, c.walls[i])
      {
        WallClear(c, i);
      }
      forall i | 0 <= i < |c.food|
        ensures FoodOk(c, c.food[i])
      {
        FoodClear(c, i);
      }
    }
  }

  // Which part of Validate reports a problem: header, walls, food or parameters.

  predicate OfWall(e: Problem, n: nat) {
    match e
    case WallSize(i) => i < n
    case WallEscapes(i) => i < n
    case WallOnNest(i) => i < n
    case _ => false
  }

  predicate OfFood(e: Problem, n: nat) {
    match e
    case FoodAmount(i) => i < n
    case FoodOutside(i) => i < n
    case FoodInWall(i, _) => i < n
    case _ => false
  }

  predicate OfHeader(e: Problem) {
    e.BadVersion? || e.BadSize? || e.BadTicks? || e.BadAntCount? || e.NestOutside?
  }

  predicate OfParameters(e: Problem) {
    e.BadEvaporation? || e.BadDiffusion? || e.BadMax? || e.BadRandom?
  }

  lemma Parts(c: Config, e: Problem)
    requires Has(c, e)
    ensures OfHeader(e) || OfWall(e, |c.walls|) || OfFood(e, |c.food|) || OfParameters(e)
  {
  }

  method CheckWalls(c: Config) returns (errs: seq<Problem>)
    ensures forall e :: e in errs <==> Has(c, e) && OfWall(e, |c.walls|)
  {
    hide Has;
    errs := [];
    for i := 0 to |c.walls|
      invariant forall e :: e in errs <==> Has(c, e) && OfWall(e, i)
    {
      errs := errs + Report(c, WallSize(i)) + Report(c, WallEscapes(i)) + Report(c, WallOnNest(i));
    }
  }

  method CheckFood(c: Config) returns (errs: seq<Problem>)
    ensures forall e :: e in errs <==> Has(c, e) && OfFood(e, |c.food|)
  {
    errs := [];
    for i := 0 to |c.food|
      invariant forall e :: e in errs <==> Has(c, e) && OfFood(e, i)
    {
      var more := CheckPile(c, i);
      errs := errs + more;
    }
  }

  method CheckPile(c: Config, i: nat) returns (errs: seq<Problem>)
    requires i < |c.food|
    ensures forall e :: e in errs <==> Has(c, e) && OfFood(e, i + 1) && !OfFood(e, i)
  {
    errs := Report(c, FoodAmount(i)) + Report(c, FoodOutside(i));
    for j := 0 to |c.walls|
      invariant forall e :: e in errs <==>
        Has(c, e) && OfFood(e, i + 1) && !OfFood(e, i) && (e.FoodInWall? ==> e.j < j)
    {
      errs := errs + Report(c, FoodInWall(i, j));
    }
  }

  method CheckHeader(c: Config) returns (errs: seq<Problem>)
    ensures forall e :: e in errs <==> Has(c, e) && OfHeader(e)
  {
    hide Has;
    errs := Report(c, BadVersion) + Report(c, BadSize) + Report(c, BadTicks) +
      Report(c, BadAntCount) + Report(c, NestOutside);
  }

  method CheckParameters(c: Config) returns (errs: seq<Problem>)
    ensures forall e :: e in errs <==> Has(c, e) && OfParameters(e)
  {
    hide Has;
    errs := Report(c, BadEvaporation) + Report(c, BadDiffusion) + Report(c, BadMax) + Report(c, BadRandom);
  }

  /** Validate collects exactly the problems the config has; none means valid. */
  method Validate(c: Config) returns (errs: seq<Problem>)
    ensures forall e :: e in errs <==> Has(c, e)
    ensures errs == [] <==> ValidConfig(c)
  {
    hide Has;
    hide ValidConfig;
    hide OfHeader;
    hide OfWall;
    hide OfFood;
    hide OfParameters;
    var header := CheckHeader(c);
    var walls := CheckWalls(c);
    var food := CheckFood(c);
    var parameters := CheckParameters(c);
    errs := header + walls + food + parameters;
    forall e | Has(c, e)
      ensures e in errs
    {
      Parts(c, e);
    }
    ValidMeansNoProblem(c);
    if errs != [] {
      assert Has(c, errs[0]);
    }
  }

  // Where validity ends.

  /** The smallest valid config, and one with room for a wall and a pile. */
  const SMALLEST := Config(1, "", 0, 1, 1, 0, 1, Point(0, 0), [], [], Pheromone(0, 0, 0, 1, 0, 1, 1), Movement(0, 1))
  const ROOM := SMALLEST.(width := 3, height := 2, walls := [Rect(1, 0, 1, 2)], food := [FoodPile(Point(2, 1), 1)])

  /** Each number of the smallest config can go no further in the direction that Validate forbids. */
  lemma SmallestIsValid()
    ensures ValidConfig(SMALLEST)
    ensures ValidConfig(SMALLEST.(pheromone := Pheromone(0, 0, 1, 1, 1, 1, 1), movement := Movement(1, 1)))
    ensures !ValidConfig(SMALLEST.(version := 0)) && !ValidConfig(SMALLEST.(version := 2))
    ensures !ValidConfig(SMALLEST.(width := 0)) && !ValidConfig(SMALLEST.(height := 0))
    ensures !ValidConfig(SMALLEST.(ticks := -1)) && !ValidConfig(SMALLEST.(antCount := 0))
    ensures !ValidConfig(SMALLEST.(nest := Point(1, 0))) && !ValidConfig(SMALLEST.(nest := Point(0, 1)))
    ensures !ValidConfig(SMALLEST.(nest := Point(-1, 0))) && !ValidConfig(SMALLEST.(nest := Point(0, -1)))
    ensures !ValidConfig(SMALLEST.(pheromone := Pheromone(0, 0, 0, 0, 0, 1, 1)))
    ensures !ValidConfig(SMALLEST.(pheromone := Pheromone(0, 0, 2, 1, 0, 1, 1)))
    ensures !ValidConfig(SMALLEST.(pheromone := Pheromone(0, 0, 0, 1, 0, 0, 1)))
    ensures !ValidConfig(SMALLEST.(pheromone := Pheromone(0, 0, 0, 1, 2, 1, 1)))
    ensures !ValidConfig(SMALLEST.(pheromone := Pheromone(0, 0, 0, 1, 0, 1, 0)))
    ensures !ValidConfig(SMALLEST.(movement := Movement(0, 0))) && !ValidConfig(SMALLEST.(movement := Movement(2, 1)))
  {
  }

  lemma WallsOfRoom()
    ensures WallOk(ROOM, Rect(1, 0, 1, 2)) && WallOk(ROOM, Rect(0, 1, 3, 1))
    ensures !WallOk(ROOM, Rect(1, 0, 0, 1)) && !WallOk(ROOM, Rect(1, 0, 1, 0))
    ensures !WallOk(ROOM, Rect(-1, 1, 1, 1)) && !WallOk(ROOM, Rect(1, -1, 1, 1))
    ensures !WallOk(ROOM, Rect(1, 0, 3, 1)) && !WallOk(ROOM, Rect(1, 0, 1, 3)) && !WallOk(ROOM, Rect(0, 0, 1, 1))
  {
    assert Plus(1, 1) == 2 && Plus(0, 2) == 2 && Plus(0, 3) == 3 && Plus(1, 3) == 4 && Plus(0, 1) == 1;
    hide Plus;
  }

  lemma PilesOfRoom()
    ensures FoodOk(ROOM, FoodPile(Point(2, 1), 1)) && FoodOk(ROOM, FoodPile(Point(0, 1), 1))
    ensures !FoodOk(ROOM, FoodPile(Point(2, 1), 0)) && !FoodOk(ROOM, FoodPile(Point(3, 1), 1))
    ensures !FoodOk(ROOM, FoodPile(Point(2, 2), 1)) && !FoodOk(ROOM, FoodPile(Point(1, 1), 1))
  {
    assert Plus(1, 1) == 2 && Plus(0, 2) == 2;
    hide Plus;
    assert ROOM.walls[0] == Rect(1, 0, 1, 2);
  }

  /** Walls and piles of the room, inside and one step beyond what Validate allows. */
  lemma RoomIsValid()
    ensures ValidConfig(ROOM) && ValidConfig(ROOM.(walls := [Rect(0, 1, 3, 1)], food := []))
    ensures !ValidConfig(ROOM.(walls := [Rect(1, 0, 3, 1)], food := []))
    ensures !ValidConfig(ROOM.(walls := [Rect(0, 0, 1, 1)], food := []))
    ensures !ValidConfig(ROOM.(food := [FoodPile(Point(1, 1), 1)])) && !ValidConfig(ROOM.(food := [FoodPile(Point(2, 1), 0)]))
  {
    WallsOfRoom();
    PilesOfRoom();
    RoomWith(ROOM.walls, []);
    RoomWith([Rect(0, 1, 3, 1)], []);
    RoomWith([Rect(1, 0, 3, 1)], []);
    RoomWith([Rect(0, 0, 1, 1)], []);
    RoomFood(FoodPile(Point(2, 1), 1));
    RoomFood(FoodPile(Point(1, 1), 1));
    RoomFood(FoodPile(Point(2, 1), 0));
    assert ROOM.(food := [FoodPile(Point(2, 1), 1)]) == ROOM;
    hide WallOk;
    hide FoodOk;
    hide ValidConfig;
  }

  lemma RoomWith(walls: seq<Rect>, food: seq<FoodPile>)
    requires |walls| == 1 && |food| == 0
    ensures ValidConfig(ROOM.(walls := walls, food := food)) <==> WallOk(ROOM, walls[0])
  {
    assert WallOk(ROOM.(walls := walls, food := food), walls[0]) <==> WallOk(ROOM, walls[0]);
    hide WallOk;
  }

  lemma RoomFood(f: FoodPile)
    ensures ValidConfig(ROOM.(food := [f])) <==> FoodOk(ROOM, f)
  {
    WallsOfRoom();
    var c := ROOM.(food := [f]);
    assert c.food[0] == f && c.walls[0] == Rect(1, 0, 1, 2);
    assert WallOk(c, c.walls[0]) <==> WallOk(ROOM, c.walls[0]);
    assert FoodOk(c, f) <==> FoodOk(ROOM, f);
    hide WallOk;
    hide FoodOk;
  }
}
