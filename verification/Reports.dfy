/**
 What a result says about the run: which bytes its hashes and its checksum read,
 and what each of its counters counts.
 */
module Reports {
  import opened Words
  import opened Config
  import opened Grid
  import opened Hash
  import opened Colony
  import opened Start
  import opened Commits
  import opened Ticks
  import opened Results
  import opened Conservation
  import Choices

  // The checksum.

  /** The ten words that ComputeChecksum reads, one after the other. */
  lemma ChecksumReads(r: Result)
    ensures var s := Encode(ResultFields(r));
      && |s| == 80
      && FieldAt(s, 0) == r.configHash && FieldAt(s, 1) == r.seed && FieldAt(s, 2) == U64(r.ticks)
      && FieldAt(s, 3) == U64(r.ticksRun) && FieldAt(s, 4) == U64(r.foodCollected)
      && FieldAt(s, 5) == U64(r.foodRemaining) && FieldAt(s, 6) == U64(r.antsCarrying)
      && FieldAt(s, 7) == r.totalPheromone && FieldAt(s, 8) == r.antPosHash && FieldAt(s, 9) == r.gridHash
  {
    hide FieldAt;
    hide Encode;
    hide U64;
    WordsRead(ResultFields(r));
  }

  lemma WordsRead(ws: seq<Word>)
    ensures forall i: nat :: i < |ws| ==> FieldAt(Encode(ws), i) == ws[i]
  {
    forall i: nat | i < |ws|
      ensures FieldAt(Encode(ws), i) == ws[i]
    {
      EncodeAt(ws, i);
    }
  }

  /** Two results agree on everything the source calls deterministic, the checksum aside. */
  predicate SameState(a: Result, b: Result) {
    a.(engine := b.engine, stateChecksum := b.stateChecksum, wallNs := b.wallNs, allocs := b.allocs, heapBytes := b.heapBytes) == b
  }

  /** The checksum reads the same bytes of two results exactly if they agree on all ten deterministic fields. */
  lemma ChecksumInputs(a: Result, b: Result)
    requires a.ticksRun < TWO_63 && b.ticksRun < TWO_63
    ensures Encode(ResultFields(a)) == Encode(ResultFields(b)) <==> SameState(a, b)
    ensures SameState(a, b) ==> Checksum(a) == Checksum(b)
  {
    ChecksumReads(a);
    ChecksumReads(b);
    hide FieldAt;
    SignedRoundTrip(a.ticks);
    SignedRoundTrip(b.ticks);
    SignedRoundTrip(a.ticksRun);
    SignedRoundTrip(b.ticksRun);
    SignedRoundTrip(a.foodCollected);
    SignedRoundTrip(b.foodCollected);
    SignedRoundTrip(a.foodRemaining);
    SignedRoundTrip(b.foodRemaining);
    SignedRoundTrip(a.antsCarrying);
    SignedRoundTrip(b.antsCarrying);
    hide U64;
    hide Signed;
    hide Encode;
    hide HashBytes;
  }

  /** DeterministicEqual ignores the engine's name and the observational counters, and nothing else. */
  lemma EqualUpToCounters(a: Result, b: Result)
    ensures DeterministicEqual(a, b) <==> SameState(a, b) && a.stateChecksum == b.stateChecksum
  {
  }

  // The hash of the ants.

  /** The ants' records in ascending order. */
  function AntRecords(ants: seq<Ant>): (s: seq<Byte>)
    ensures |s| == 33 * |ants|
  {
    if |ants| == 0 then [] else AntRecords(ants[..|ants| - 1]) + AntBytes(ants[|ants| - 1])
  }

  lemma {:induction false} AntsHashIs(ants: seq<Ant>)
    ensures AntsHash(ants) == HashBytes(OFFSET, AntRecords(ants))
    decreases |ants|
  {
    hide AntBytes;
    if |ants| > 0 {
      var n := |ants| - 1;
      AntsHashIs(ants[..n]);
      HashConcat(OFFSET, AntRecords(ants[..n]), AntBytes(ants[n]));
      hide HashBytes;
    }
  }

  lemma {:induction false} AntRecordAt(ants: seq<Ant>, i: nat)
    requires i < |ants|
    ensures AntRecords(ants)[33 * i..33 * i + 33] == AntBytes(ants[i])
    decreases |ants|
  {
    hide AntBytes;
    var n := |ants| - 1;
    if i < n {
      AntRecordAt(ants[..n], i);
      assert AntRecords(ants)[33 * i..33 * i + 33] == AntRecords(ants[..n])[33 * i..33 * i + 33];
    }
  }

  /** One more word at the end of a stream of n words. */
  lemma WordPushed(s: seq<Byte>, w: Word, n: nat)
    requires |s| == 8 * n
    ensures FieldAt(s + LowBytes(w, 8), n) == w
    ensures forall i: nat :: i < n ==> FieldAt(s + LowBytes(w, 8), i) == FieldAt(s, i)
  {
    hide Join;
    FieldTail(s, LowBytes(w, 8), n);
    LastField(w);
    hide FieldAt;
    forall i: nat | i < n
      ensures FieldAt(s + LowBytes(w, 8), i) == FieldAt(s, i)
    {
      FieldHead(s, LowBytes(w, 8), i);
    }
  }

  /** An ant's record: four words, its number, column, row and heading, and one byte for its state. */
  lemma AntBytesAt(a: Ant)
    ensures var s := AntBytes(a);
      && |s| == 33 && FieldAt(s, 0) == U64(a.id) && FieldAt(s, 1) == U64(a.x) && FieldAt(s, 2) == U64(a.y)
      && FieldAt(s, 3) == U64(a.dir) && s[32] == (if a.hasFood then 1 else 0)
  {
    hide FieldAt;
    hide LowBytes;
    hide U64;
    var s1 := LowBytes(U64(a.id), 8);
    WordPushed([], U64(a.id), 0);
    assert [] + s1 == s1;
    var s2 := s1 + LowBytes(U64(a.x), 8);
    WordPushed(s1, U64(a.x), 1);
    var s3 := s2 + LowBytes(U64(a.y), 8);
    WordPushed(s2, U64(a.y), 2);
    var s4 := s3 + LowBytes(U64(a.dir), 8);
    WordPushed(s3, U64(a.dir), 3);
    var flag: seq<Byte> := [if a.hasFood then 1 else 0];
    FieldHead(s4, flag, 0);
    FieldHead(s4, flag, 1);
    FieldHead(s4, flag, 2);
    FieldHead(s4, flag, 3);
  }

  // The hash of the grids.

  /** The first n cells' records in row-major order. */
  function CellRecords(pf: Levels, ph: Levels, n: nat): (s: seq<Byte>)
    requires n <= |pf| && n <= |ph|
    ensures |s| == 8 * n
  {
    if n == 0 then [] else CellRecords(pf, ph, n - 1) + CellBytes(pf[n - 1], ph[n - 1])
  }

  lemma {:induction false} CellsHashIs(pf: Levels, ph: Levels, n: nat)
    requires n <= |pf| && n <= |ph|
    ensures CellsHash(pf, ph, n) == HashBytes(OFFSET, CellRecords(pf, ph, n))
    decreases n
  {
    hide CellBytes;
    if n > 0 {
      CellsHashIs(pf, ph, n - 1);
      HashConcat(OFFSET, CellRecords(pf, ph, n - 1), CellBytes(pf[n - 1], ph[n - 1]));
      hide HashBytes;
    }
  }

  lemma JoinsBack(v: U32)
    ensures Join(LowBytes(v, 4)) == v
  {
    Pow2Values();
    JoinBytes(v, 4);
  }

  lemma CellBytesAt(f: U32, h: U32)
    ensures var s := CellBytes(f, h); |s| == 8 && Join(s[..4]) == f && Join(s[4..]) == h
  {
    hide Join;
    hide LowBytes;
    JoinsBack(f);
    JoinsBack(h);
    assert CellBytes(f, h)[..4] == LowBytes(f, 4) && CellBytes(f, h)[4..] == LowBytes(h, 4);
  }

  /** The record of cell i: its level on the food trail, then on the home trail. */
  lemma {:induction false} CellRecordAt(pf: Levels, ph: Levels, n: nat, i: nat)
    requires i < n <= |pf| && n <= |ph|
    ensures var s := CellRecords(pf, ph, n)[8 * i..8 * i + 8]; Join(s[..4]) == pf[i] && Join(s[4..]) == ph[i]
    decreases n
  {
    hide Join;
    hide CellBytes;
    var s, t := CellRecords(pf, ph, n - 1), CellBytes(pf[n - 1], ph[n - 1]);
    if i < n - 1 {
      CellRecordAt(pf, ph, n - 1, i);
      assert (s + t)[8 * i..8 * i + 8] == s[8 * i..8 * i + 8];
    } else {
      CellBytesAt(pf[i], ph[i]);
      assert (s + t)[8 * i..8 * i + 8] == t;
    }
  }

  /** The total of both fields, modulo 2^64. */
  lemma {:induction false} CellsTotalIs(pf: Levels, ph: Levels, n: nat)
    requires n <= |pf| && n <= |ph|
    ensures CellsTotal(pf, ph, n) == (Sum(pf[..n]) + Sum(ph[..n])) % TWO_64
    decreases n
  {
    if n > 0 {
      CellsTotalIs(pf, ph, n - 1);
      SumPrefix(pf, n - 1);
      SumPrefix(ph, n - 1);
      hide Sum;
      TotalNext(Sum(pf[..n - 1]) + Sum(ph[..n - 1]), pf[n - 1] as int + ph[n - 1] as int);
    }
  }

  lemma TotalNext(a: int, b: int)
    ensures Add64(a % TWO_64, b) == (a + b) % TWO_64
  {
    ModAddMultiple(a % TWO_64 + b, TWO_64, a / TWO_64);
  }

  // The counters.

  /** The ants that carry food. */
  function Carriers(ants: seq<Ant>): set<nat> {
    set i: nat | i < |ants| && ants[i].hasFood
  }

  lemma {:induction false} CarryingIs(ants: seq<Ant>)
    ensures Carrying(ants) == |Carriers(ants)|
    decreases |ants|
  {
    if |ants| > 0 {
      var n := |ants| - 1;
      CarryingIs(ants[..n]);
      if ants[n].hasFood {
        assert Carriers(ants) == Carriers(ants[..n]) + {n};
      } else {
        assert Carriers(ants) == Carriers(ants[..n]);
      }
    }
  }

  /** The first n ants that carry food and decide to be on the nest. */
  ghost function ArriversTo(env: Env, w: World, n: nat): set<nat>
    requires Ok(env, w) && n <= |w.ants|
  {
    set i: nat | i < n && w.ants[i].hasFood && Decision(env, w, i).nx == env.nest.x && Decision(env, w, i).ny == env.nest.y
  }

  /** The carriers whose decision in this tick is the nest. */
  ghost function Arrivers(env: Env, w: World): set<nat>
    requires Ok(env, w)
  {
    ArriversTo(env, w, |w.ants|)
  }

  lemma {:induction false} ArriversBelow(env: Env, w: World, n: nat)
    requires Ok(env, w) && n < |w.ants|
    ensures var d := Decision(env, w, n);
      |ArriversTo(env, w, n + 1)| ==
      |ArriversTo(env, w, n)| + (if w.ants[n].hasFood && d.nx == env.nest.x && d.ny == env.nest.y then 1 else 0)
  {
    hide Decision;
    hide Ok;
    var d := Decision(env, w, n);
    if w.ants[n].hasFood && d.nx == env.nest.x && d.ny == env.nest.y {
      assert ArriversTo(env, w, n + 1) == ArriversTo(env, w, n) + {n};
    } else {
      assert ArriversTo(env, w, n + 1) == ArriversTo(env, w, n);
    }
  }

  /** One commit iteration counts one delivery exactly if its ant carries and reaches the nest. */
  lemma CommitOneCollects(env: Env, v: World, n: nat)
    requires Ready(env, v) && n < |v.ants|
    ensures CommitOne(env, v, n).collected ==
      if v.ants[n].hasFood && v.intents[n].nx == env.nest.x && v.intents[n].ny == env.nest.y then Plus(v.collected, 1)
      else v.collected
  {
    CommitOneEffect(env, v, n);
    hide CommitOne;
    hide Ready;
    hide Target;
  }

  /** The state and the decision of ant n when its turn to commit comes. */
  lemma TurnToCommit(env: Env, w: World, n: nat)
    requires Ok(env, w) && n < |w.ants|
    ensures Ready(env, Sense(env, w)) && |Sense(env, w).ants| == |w.ants|
    ensures var v := CommitTo(env, Sense(env, w), n);
      v.ants[n].hasFood == w.ants[n].hasFood && v.intents[n] == Decision(env, w, n)
  {
    SenseReady(env, w);
    SenseIsDecision(env, w, n);
    SensedCarries(env, w, n);
    CommitUntouched(env, Sense(env, w), n, n);
    hide Sense;
    hide Decision;
    hide Ok;
    hide Ready;
    hide CommitOne;
  }

  lemma CountNext(c: int, a: nat, b: nat)
    requires b == a || b == a + 1
    ensures Wrapped(c + b) == if b == a then Wrapped(c + a) else Plus(Wrapped(c + a), 1)
  {
    PlusWrapped(c + a, 1);
  }

  lemma CommitToNext(env: Env, w: World, n: nat)
    requires Ready(env, w) && n <= |w.ants|
    ensures CommitTo(env, w, n) == if n == 0 then w else CommitOne(env, CommitTo(env, w, n - 1), n - 1)
  {
    hide CommitOne;
    hide Ready;
  }

  lemma {:induction false} CommitCollects(env: Env, w: World, n: nat)
    requires Ok(env, w) && n <= |w.ants|
    ensures Ready(env, Sense(env, w)) && |Sense(env, w).ants| == |w.ants|
    ensures CommitTo(env, Sense(env, w), n).collected == Wrapped(w.collected + |ArriversTo(env, w, n)|)
    decreases n
  {
    hide *;
    SenseReady(env, w);
    SenseCounts(env, w);
    CommitToNext(env, Sense(env, w), n);
    if n == 0 {
      NoArrivers(env, w);
    } else {
      CommitCollects(env, w, n - 1);
      TurnToCommit(env, w, n - 1);
      CommitOneCollects(env, CommitTo(env, Sense(env, w), n - 1), n - 1);
      ArriversBelow(env, w, n - 1);
      CountNext(w.collected, |ArriversTo(env, w, n - 1)|, |ArriversTo(env, w, n)|);
    }
  }

  lemma NoArrivers(env: Env, w: World)
    requires Ok(env, w)
    ensures w.collected == Wrapped(w.collected + |ArriversTo(env, w, 0)|)
  {
    assert ArriversTo(env, w, 0) == {};
    WrappedFits(w.collected);
    hide Ok;
    hide Decision;
  }

  lemma SenseCounts(env: Env, w: World)
    requires Ok(env, w)
    ensures Shaped(env, w) && Faced(w) && Sense(env, w).collected == w.collected && |Sense(env, w).ants| == |w.ants|
  {
    OkFaced(env, w);
    hide Ok;
  }

  lemma SensedCarries(env: Env, w: World, i: nat)
    requires Ok(env, w) && i < |w.ants|
    ensures |Sense(env, w).ants| == |w.ants| && Sense(env, w).ants[i].hasFood == w.ants[i].hasFood
  {
    SenseIsDecision(env, w, i);
    OkShaped(env, w);
    SensedSame(env, w.ants[i]);
  }

  lemma DecayKeepsCount(env: Env, w: World)
    requires Shaped(env, w)
    ensures Decay(env, w).collected == w.collected
  {
    DecayIs(env, w);
    hide Decay;
    hide Decayed;
    hide Zeros;
  }

  /** A tick collects one unit per carrier whose decision is the nest. */
  lemma TickCollects(env: Env, w: World)
    requires Ok(env, w)
    ensures Tick(env, w).collected == Wrapped(w.collected + |Arrivers(env, w)|)
  {
    hide *;
    OkFaced(env, w);
    CommitCollects(env, w, |w.ants|);
    TickSteps(env, w);
    CommitAll(env, Sense(env, w));
    DecayKeepsCount(env, Commit(env, Sense(env, w)));
    ArriversAll(env, w);
  }

  lemma ArriversAll(env: Env, w: World)
    requires Ok(env, w)
    ensures Arrivers(env, w) == ArriversTo(env, w, |w.ants|)
  {
    hide Ok;
    hide ArriversTo;
  }

  lemma CommitAll(env: Env, w: World)
    requires Ready(env, w)
    ensures Commit(env, w) == CommitTo(env, w, |w.ants|) && Shaped(env, Commit(env, w))
  {
    hide CommitTo;
    hide Shaped;
  }

  /** All deliveries of the first t ticks. */
  ghost function Deliveries(c: Config, rules: Rules, t: nat): nat
    requires ValidConfig(c)
  {
    if t == 0 then 0 else Deliveries(c, rules, t - 1) + |Arrivers(NewEnv(c, rules), WorldAt(c, rules, t - 1))|
  }

  lemma {:induction false} CollectedIs(c: Config, rules: Rules, t: nat)
    requires ValidConfig(c)
    ensures WorldAt(c, rules, t).collected == Wrapped(Deliveries(c, rules, t))
    decreases t
  {
    hide Ok;
    hide Tick;
    hide NewEnv;
    hide WorldAt;
    hide Arrivers;
    hide ValidConfig;
    if t == 0 {
      NewWorldBooks(c);
      Choices.WorldNext(c, rules, 0);
      WrappedFits(0);
    } else {
      CollectedIs(c, rules, t - 1);
      Choices.WorldNext(c, rules, t - 1);
      var d := |Arrivers(NewEnv(c, rules), WorldAt(c, rules, t - 1))|;
      TickCollects(NewEnv(c, rules), WorldAt(c, rules, t - 1));
      WrappedSum(d, Deliveries(c, rules, t - 1));
    }
    hide Wrapped;
  }

  /** The words of a result, as the world gives them. */
  lemma ReportedIs(c: Config, w: World, t: nat)
    requires |w.pheroFood| == |w.pheroHome|
    ensures var r, n := Reported(c, w, t), |w.pheroFood|;
      && r.seed == c.seed && r.ticks == c.ticks && r.ticksRun == t
      && r.foodCollected == w.collected && r.foodRemaining == w.foodLeft && r.antsCarrying == Wrapped32(Carrying(w.ants))
      && r.totalPheromone == CellsTotal(w.pheroFood, w.pheroHome, n) && r.configHash == HashBytes(OFFSET, Encode(Fields(c)))
      && r.antPosHash == AntsHash(w.ants) && r.gridHash == CellsHash(w.pheroFood, w.pheroHome, n)
      && r.stateChecksum == HashBytes(OFFSET, Encode(ResultFields(r)))
  {
    hide Encode;
    hide HashBytes;
    hide Fields;
    hide AntsHash;
    hide CellsHash;
    hide CellsTotal;
    hide Carrying;
    hide Wrapped32;
    hide U64;
  }

  lemma RunIsReported(c: Config, rules: Rules, limit: nat)
    requires ValidConfig(c)
    ensures var t := TicksRun(c, limit); var w := WorldAt(c, rules, t);
      t == Min(c.ticks, limit) && |w.pheroFood| == |w.pheroHome| == c.width * c.height && Expected(c, rules, limit) == Reported(c, w, t)
  {
    GridSizes(c, rules, TicksRun(c, limit));
    hide WorldAt;
    hide Reported;
  }

  lemma GridSizes(c: Config, rules: Rules, t: nat)
    requires ValidConfig(c)
    ensures var w := WorldAt(c, rules, t); |w.pheroFood| == |w.pheroHome| == c.width * c.height
  {
    Choices.EnvIs(c, rules);
    hide NewEnv;
    hide Run;
    hide NewWorld;
  }

  /** The counters of a run cancelled after limit ticks: deliveries, what lies on the grid, carriers, and the sum of both fields. */
  lemma ReportCounts(c: Config, rules: Rules, limit: nat)
    requires ValidConfig(c)
    ensures var t := TicksRun(c, limit);
      var r, w := Expected(c, rules, limit), WorldAt(c, rules, t);
      && t == Min(c.ticks, limit) && r.seed == c.seed && r.ticks == c.ticks && r.ticksRun == t
      && r.foodCollected == Wrapped(Deliveries(c, rules, t))
      && r.foodRemaining == Wrapped(Sum(w.food))
      && r.antsCarrying == Wrapped32(|Carriers(w.ants)|)
      && (|Carriers(w.ants)| < 0x8000_0000 ==> r.antsCarrying == |Carriers(w.ants)|)
      && Wrapped(r.foodCollected + |Carriers(w.ants)| + r.foodRemaining) == Wrapped(TotalFood(c.food))
      && r.totalPheromone == (Sum(w.pheroFood) + Sum(w.pheroHome)) % TWO_64
  {
    hide *;
    var t := TicksRun(c, limit);
    var w := WorldAt(c, rules, t);
    RunIsReported(c, rules, limit);
    ReportedIs(c, w, t);
    CollectedIs(c, rules, t);
    FoodConserved(c, rules, t);
    CarryingIs(w.ants);
    CountFits(|Carriers(w.ants)|);
    FieldTotal(w.pheroFood, w.pheroHome);
  }

  lemma CountFits(n: nat)
    ensures n < 0x8000_0000 ==> Wrapped32(n) == n
  {
  }

  lemma FieldTotal(pf: Levels, ph: Levels)
    requires |pf| == |ph|
    ensures CellsTotal(pf, ph, |pf|) == (Sum(pf) + Sum(ph)) % TWO_64
  {
    CellsTotalIs(pf, ph, |pf|);
    assert pf[..|pf|] == pf && ph[..|pf|] == ph;
    hide CellsTotal;
    hide Sum;
  }

  /** The hashes of a run cancelled after limit ticks: of the config, of the ants in order, of the cells in order. */
  lemma ReportHashes(c: Config, rules: Rules, limit: nat)
    requires ValidConfig(c)
    ensures var r, w := Expected(c, rules, limit), WorldAt(c, rules, TicksRun(c, limit));
      && r.configHash == HashBytes(OFFSET, Encode(Fields(c)))
      && r.antPosHash == HashBytes(OFFSET, AntRecords(w.ants))
      && |w.pheroFood| == |w.pheroHome| == c.width * c.height
      && r.gridHash == HashBytes(OFFSET, CellRecords(w.pheroFood, w.pheroHome, |w.pheroFood|))
      && r.stateChecksum == HashBytes(OFFSET, Encode(ResultFields(r)))
  {
    hide *;
    var t := TicksRun(c, limit);
    var w := WorldAt(c, rules, t);
    RunIsReported(c, rules, limit);
    ReportedIs(c, w, t);
    AntsHashIs(w.ants);
    CellsHashIs(w.pheroFood, w.pheroHome, |w.pheroFood|);
  }
}
