/**
 The deterministic result of a run: counters, ordered hash folds and the
 checksum over them.
 */
module Results {
  import opened Words
  import opened Config
  import opened Hash
  import opened Colony
  import opened Start

  datatype Result = Result(
    engine: string,
    configHash: Word, seed: Word, ticks: Int64, ticksRun: nat, foodCollected: Int64, foodRemaining: Int64,
    antsCarrying: Int32, totalPheromone: Word, antPosHash: Word, gridHash: Word, stateChecksum: Word,
    wallNs: int, allocs: Word, heapBytes: Word)

  /** The fields ComputeChecksum folds in. */
  function ResultFields(r: Result): seq<Word> {
    [r.configHash, r.seed, U64(r.ticks), U64(r.ticksRun), U64(r.foodCollected), U64(r.foodRemaining),
     U64(r.antsCarrying), r.totalPheromone, r.antPosHash, r.gridHash]
  }

  function Checksum(r: Result): Word {
    HashBytes(OFFSET, Encode(ResultFields(r)))
  }

  method ComputeChecksum(r: Result) returns (q: Result)
    ensures q == r.(stateChecksum := Checksum(r))
  {
    assert OFFSET == HashBytes(OFFSET, Encode([]));
    var h := FoldAll(OFFSET, [], ResultFields(r));
    assert [] + ResultFields(r) == ResultFields(r);
    q := r.(stateChecksum := h);
  }

  /** Equal in everything but the engine's name and the observational counters. */
  predicate DeterministicEqual(r: Result, o: Result) {
    && r.configHash == o.configHash && r.seed == o.seed && r.ticks == o.ticks && r.ticksRun == o.ticksRun
    && r.foodCollected == o.foodCollected && r.foodRemaining == o.foodRemaining
    && r.antsCarrying == o.antsCarrying && r.totalPheromone == o.totalPheromone
    && r.antPosHash == o.antPosHash && r.gridHash == o.gridHash && r.stateChecksum == o.stateChecksum
  }

  /** Two results whose encodings differ in a single byte have different checksums. */
  lemma ChecksumSeesOneByte(a: Result, b: Result, k: nat, v: Byte)
    requires k < |Encode(ResultFields(a))| && v != Encode(ResultFields(a))[k]
    requires Encode(ResultFields(b)) == Encode(ResultFields(a))[k := v]
    ensures Checksum(a) != Checksum(b)
  {
    OneByteChangesHash(OFFSET, Encode(ResultFields(a)), k, v);
  }

  // The folds of result().

  function AntBytes(a: Ant): seq<Byte> {
    LowBytes(U64(a.id), 8) + LowBytes(U64(a.x), 8) + LowBytes(U64(a.y), 8) + LowBytes(U64(a.dir), 8) +
    [if a.hasFood then 1 else 0]
  }

  function AntsHash(ants: seq<Ant>): Word {
    if |ants| == 0 then OFFSET else HashBytes(AntsHash(ants[..|ants| - 1]), AntBytes(ants[|ants| - 1]))
  }

  function Carrying(ants: seq<Ant>): nat {
    if |ants| == 0 then 0 else Carrying(ants[..|ants| - 1]) + (if ants[|ants| - 1].hasFood then 1 else 0)
  }

  /** The source counts carrying ants in an int32. */
  type Int32 = x: int | -0x8000_0000 <= x < 0x8000_0000

  function Wrapped32(v: int): Int32 {
    (v + 0x8000_0000) % TWO_32 - 0x8000_0000
  }

  lemma Wrapped32Next(n: int)
    ensures Wrapped32(Wrapped32(n) + 1) == Wrapped32(n + 1)
  {
    WrapLate(n, 1, 0x8000_0000, TWO_32);
  }

  function CellBytes(f: U32, h: U32): seq<Byte> {
    LowBytes(f, 4) + LowBytes(h, 4)
  }

  /** The hash of the first n cells in row-major order, both grids interleaved. */
  function CellsHash(pf: Levels, ph: Levels, n: nat): Word
    requires n <= |pf| && n <= |ph|
  {
    if n == 0 then OFFSET else HashBytes(CellsHash(pf, ph, n - 1), CellBytes(pf[n - 1], ph[n - 1]))
  }

  /** The uint64 total of the first n cells. */
  function CellsTotal(pf: Levels, ph: Levels, n: nat): Word
    requires n <= |pf| && n <= |ph|
  {
    if n == 0 then 0 else Add64(CellsTotal(pf, ph, n - 1), pf[n - 1] as int + ph[n - 1] as int)
  }

  /** What a run of t ticks reports, up to the engine's name and its counters. */
  ghost function Reported(c: Config, w: World, t: nat): (r: Result)
    requires |w.pheroFood| == |w.pheroHome|
  {
    var n := |w.pheroFood|;
    var r := Result("", HashBytes(OFFSET, Encode(Fields(c))), c.seed, c.ticks, t, w.collected, w.foodLeft,
      Wrapped32(Carrying(w.ants)), CellsTotal(w.pheroFood, w.pheroHome, n), AntsHash(w.ants),
      CellsHash(w.pheroFood, w.pheroHome, n), 0, 0, 0, 0);
    r.(stateChecksum := Checksum(r))
  }

  /** The result of the simulation on c under the given rules, cancelled after limit ticks. */
  ghost function Expected(c: Config, rules: Rules, limit: nat): Result
    requires ValidConfig(c)
  {
    Reported(c, WorldAt(c, rules, TicksRun(c, limit)), TicksRun(c, limit))
  }

  method HashAnt(h0: Word, id: nat, x: int, y: int, dir: int, hasFood: bool, ghost a: Ant) returns (h: Word)
    requires a.id == id && a.x == x && a.y == y && a.dir == dir && a.hasFood == hasFood
    ensures h == HashBytes(h0, AntBytes(a))
  {
    hide HashBytes;
    hide LowBytes;
    hide U64;
    h := HashU64(h0, U64(id));
    h := HashU64(h, U64(x));
    HashConcat(h0, LowBytes(U64(id), 8), LowBytes(U64(x), 8));
    ghost var s := LowBytes(U64(id), 8) + LowBytes(U64(x), 8);
    h := HashU64(h, U64(y));
    HashConcat(h0, s, LowBytes(U64(y), 8));
    s := s + LowBytes(U64(y), 8);
    h := HashU64(h, U64(dir));
    HashConcat(h0, s, LowBytes(U64(dir), 8));
    s := s + LowBytes(U64(dir), 8);
    var f: Byte := 0;
    if hasFood {
      f := 1;
    }
    HashPush(h, f);
    HashConcat(h0, s, [f]);
    h := HashByte(h, f);
  }

  method HashCell(h0: Word, f: U32, g: U32) returns (h: Word)
    ensures h == HashBytes(h0, CellBytes(f, g))
  {
    hide HashBytes;
    hide LowBytes;
    h := HashU32(h0, f);
    h := HashU32(h, g);
    HashConcat(h0, LowBytes(f, 4), LowBytes(g, 4));
  }

  /** carrying and ah summarise the first n ants. */
  ghost predicate Summarised(v: seq<Ant>, n: int, carrying: Int32, ah: Word) {
    0 <= n <= |v| && carrying == Wrapped32(Carrying(v[..n])) && ah == AntsHash(v[..n])
  }

  lemma SummarisedEmpty(v: seq<Ant>)
    ensures Summarised(v, 0, 0, OFFSET)
  {
    assert v[..0] == [];
  }

  lemma SummarisedPush(v: seq<Ant>, n: nat, carrying: Int32, ah: Word)
    requires Summarised(v, n, carrying, ah) && n < |v|
    ensures Summarised(v, n + 1, if v[n].hasFood then Wrapped32(carrying + 1) else carrying, HashBytes(ah, AntBytes(v[n])))
  {
    hide HashBytes;
    hide AntBytes;
    assert v[..n + 1][..n] == v[..n];
    Wrapped32Next(Carrying(v[..n]));
    hide Wrapped32;
  }

  lemma SummarisedAll(v: seq<Ant>, carrying: Int32, ah: Word)
    requires Summarised(v, |v|, carrying, ah)
    ensures carrying == Wrapped32(Carrying(v)) && ah == AntsHash(v)
  {
    assert v[..|v|] == v;
  }

  /** The last lines of result() and Run: fill in the record and fold its checksum. */
  method Finish(c: Config, ghost w: World, ticksRun: nat, collected: Int64, foodLeft: Int64, carrying: Int32,
                total: Word, ah: Word, gh: Word, engine: string, wallNs: int, allocs: Word, heapBytes: Word)
      returns (r: Result)
    requires |w.pheroFood| == |w.pheroHome| && w.collected == collected && w.foodLeft == foodLeft
    requires carrying == Wrapped32(Carrying(w.ants)) && ah == AntsHash(w.ants)
    requires gh == CellsHash(w.pheroFood, w.pheroHome, |w.pheroFood|)
    requires total == CellsTotal(w.pheroFood, w.pheroHome, |w.pheroFood|)
    ensures DeterministicEqual(r, Reported(c, w, ticksRun)) && r.engine == engine
  {
    hide CellsHash;
    hide CellsTotal;
    hide AntsHash;
    hide Carrying;
    hide HashBytes;
    hide Encode;
    hide Fields;
    hide U64;
    var ch := CanonicalHash(c);
    r := Result(engine, ch, c.seed, c.ticks, ticksRun, collected, foodLeft, carrying, total, ah, gh, 0,
      wallNs, allocs, heapBytes);
    r := ComputeChecksum(r);
  }

  /** gh and total summarise the first n cells. */
  ghost predicate Folded(pf: Levels, ph: Levels, n: int, gh: Word, total: Word) {
    0 <= n <= |pf| && n <= |ph| && gh == CellsHash(pf, ph, n) && total == CellsTotal(pf, ph, n)
  }

  lemma FoldedEmpty(pf: Levels, ph: Levels)
    ensures Folded(pf, ph, 0, OFFSET, 0)
  {
  }

  lemma FoldedPush(pf: Levels, ph: Levels, n: nat, gh: Word, total: Word)
    requires Folded(pf, ph, n, gh, total) && n < |pf| && n < |ph|
    ensures Folded(pf, ph, n + 1, HashBytes(gh, CellBytes(pf[n], ph[n])), Add64(total, pf[n] as int + ph[n] as int))
  {
    hide HashBytes;
    hide CellBytes;
    hide Add64;
  }
}
