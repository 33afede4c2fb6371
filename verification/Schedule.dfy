/**
 Whole schedules of the worker pool: they cannot get stuck, they all end after
 the same number of steps, and they all end in the serial engine's world.
 */
module Schedule {
  import opened Stencil
  import opened Grid
  import opened Colony
  import opened Partition
  import opened Progress
  import opened Pool

  // A measure that every step lowers by exactly one.

  /** Steps worker j still has to take in the current phase: its units and its Done. */
  function LeftOf(p: Plan, ph: Phase, k: nat, ws: seq<Worker>, j: nat): int
    requires PlanOk(p) && |ws| == p.n && j < p.n
  {
    if j >= k then Items(p, ph, j) + 1
    else if ws[j].Busy? then Items(p, ph, j) - ws[j].item + 1
    else 0
  }

  function Lefts(p: Plan, ph: Phase, k: nat, ws: seq<Worker>): (f: seq<int>)
    requires PlanOk(p) && |ws| == p.n
    ensures |f| == p.n
  {
    seq(p.n, j requires 0 <= j < p.n => LeftOf(p, ph, k, ws, j))
  }

  /** Sends, worker steps and the wake-up still to come in this phase. */
  function PhaseLeft(p: Plan, ph: Phase, k: nat, ws: seq<Worker>): int
    requires PlanOk(p) && |ws| == p.n
  {
    p.n - k + Sum(Lefts(p, ph, k, ws)) + 1
  }

  function PhaseCost(p: Plan, ph: Phase): int
    requires PlanOk(p)
  {
    p.n + Total(p, ph) + p.n + 1
  }

  function TickCost(p: Plan): int
    requires PlanOk(p)
  {
    1 + PhaseCost(p, SensePhase) + |p.start.ants| + 1 + PhaseCost(p, DecayPhase) + 2
  }

  function AliveFlags(ws: seq<Worker>): (f: seq<int>)
    ensures |f| == |ws|
  {
    seq(|ws|, j requires 0 <= j < |ws| => if ws[j].Exited? then 0 else 1)
  }

  function StopCost(p: Plan): int {
    1 + p.n + p.n
  }

  /** The steps of the ticks after the current one, and of stopping the pool. */
  function Later(p: Plan, tick: nat): int
    requires PlanOk(p)
  {
    (p.ticks - tick - 1) * TickCost(p) + StopCost(p)
  }

  /** What remains after the current phase. */
  function AfterPhase(p: Plan, ph: Phase, tick: nat): int
    requires PlanOk(p)
  {
    if ph.SensePhase? then |p.start.ants| + 1 + PhaseCost(p, DecayPhase) + 2 + Later(p, tick)
    else 2 + Later(p, tick)
  }

  function Remaining(p: Plan, s: State): int
    requires PlanOk(p) && |s.workers| == p.n
  {
    match s.coord
    case AtTick => TickCost(p) + Later(p, s.tick)
    case Sending(ph, k) => PhaseLeft(p, ph, k, s.workers) + AfterPhase(p, ph, s.tick)
    case Committing(i) => |p.start.ants| - i + 1 + PhaseCost(p, DecayPhase) + 2 + Later(p, s.tick)
    case Swapping => 2 + Later(p, s.tick)
    case Clearing => 1 + Later(p, s.tick)
    case Stopping(k) => p.n - k + Sum(AliveFlags(s.workers))
  }

  // The whole phase is worth its cost.

  function Needs(p: Plan, ph: Phase, m: nat): (f: seq<int>)
    requires PlanOk(p) && m <= p.n
    ensures |f| == m
  {
    seq(m, j requires 0 <= j < m => Items(p, ph, j) + 1)
  }

  lemma {:induction false} NeedsSum(p: Plan, ph: Phase, m: nat)
    requires PlanOk(p) && m <= p.n
    ensures Sum(Needs(p, ph, m)) == (if ph.SensePhase? then Lo(SplitOf(p, ph), m) else 2 * Lo(SplitOf(p, ph), m)) + m
    decreases m
  {
    hide Ok;
    hide Bound;
    var sp := SplitOf(p, ph);
    BoundEnds(sp.n, sp.rows, sp.width);
    if m > 0 {
      NeedsSum(p, ph, m - 1);
      assert Needs(p, ph, m)[..m - 1] == Needs(p, ph, m - 1);
    }
  }

  /** The units of all ranges add up to the whole phase, whatever the worker count. */
  lemma FreshPhase(p: Plan, ph: Phase, ws: seq<Worker>)
    requires PlanOk(p) && |ws| == p.n
    ensures PhaseLeft(p, ph, 0, ws) == PhaseCost(p, ph)
  {
    var sp := SplitOf(p, ph);
    NeedsSum(p, ph, p.n);
    BoundEnds(sp.n, sp.rows, sp.width);
    hide Ok;
    hide Items;
    assert Lefts(p, ph, 0, ws) == Needs(p, ph, p.n);
  }

  lemma FinishedPhase(p: Plan, ph: Phase, ws: seq<Worker>)
    requires PlanOk(p) && |ws| == p.n && Idle(ws)
    ensures PhaseLeft(p, ph, p.n, ws) == 1
  {
    hide Ok;
    hide Items;
    SumZero(Lefts(p, ph, p.n, ws));
  }

  lemma SendLeft(p: Plan, ph: Phase, k: nat, ws: seq<Worker>)
    requires PlanOk(p) && |ws| == p.n && k < p.n
    ensures PhaseLeft(p, ph, k + 1, ws[k := Busy(ph, 0)]) == PhaseLeft(p, ph, k, ws) - 1
  {
    hide Ok;
    hide Items;
    assert Lefts(p, ph, k + 1, ws[k := Busy(ph, 0)]) == Lefts(p, ph, k, ws);
  }

  lemma WorkLeft(p: Plan, ph: Phase, sent: nat, ws: seq<Worker>, k: nat, w: Worker)
    requires PlanOk(p) && |ws| == p.n && k < p.n && k < sent && ws[k].Busy?
    requires (w.Busy? && w.item == ws[k].item + 1) || (w.Receiving? && ws[k].item == Items(p, ph, k))
    ensures PhaseLeft(p, ph, sent, ws[k := w]) == PhaseLeft(p, ph, sent, ws) - 1
  {
    hide Ok;
    hide Items;
    var f := Lefts(p, ph, sent, ws);
    SumUpdate(f, k, f[k] - 1);
    assert Lefts(p, ph, sent, ws[k := w]) == f[k := f[k] - 1];
  }

  lemma ExitLeft(ws: seq<Worker>, k: nat)
    requires k < |ws| && !ws[k].Exited?
    ensures Sum(AliveFlags(ws[k := Exited])) == Sum(AliveFlags(ws)) - 1
  {
    var f := AliveFlags(ws);
    SumUpdate(f, k, 0);
    assert AliveFlags(ws[k := Exited]) == f[k := 0];
  }

  lemma {:induction false} AllAlive(ws: seq<Worker>)
    requires Idle(ws)
    ensures Sum(AliveFlags(ws)) == |ws|
    decreases |ws|
  {
    if |ws| > 0 {
      var n := |ws| - 1;
      assert AliveFlags(ws)[..n] == AliveFlags(ws[..n]);
      AllAlive(ws[..n]);
    }
  }

  lemma LaterStep(p: Plan, tick: nat)
    requires PlanOk(p)
    ensures TickCost(p) + Later(p, tick + 1) == Later(p, tick)
  {
    hide Ok;
    var a, b := p.ticks - tick - 1, TickCost(p);
    hide TickCost;
    assert (a - 1) * b + b == a * b;
  }

  lemma LaterLast(p: Plan)
    requires PlanOk(p)
    ensures TickCost(p) + Later(p, p.ticks) == StopCost(p)
  {
    hide Ok;
    var b := TickCost(p);
    hide TickCost;
    assert (-1) * b + b == 0;
  }

  lemma WorkerStepCounts(p: Plan, s: State, l: Label)
    requires PlanOk(p) && Inv(p, s) && Enabled(p, s, l) && (l.Work? || l.Done?)
    ensures |Apply(p, s, l).workers| == p.n
    ensures Remaining(p, Apply(p, s, l)) == Remaining(p, s) - 1
  {
    hide Ok;
    hide Items;
    hide DoItem;
    hide AfterPhase;
    hide PhaseLeft;
    hide Base;
    hide Underway;
    hide InPhase;
    hide BusyCount;
    var k := l.k;
    WorkingMeansSending(p, s, k);
    hide Inv;
    var w := if l.Work? then Busy(s.coord.phase, s.workers[k].item + 1) else Receiving;
    WorkLeft(p, s.coord.phase, s.coord.k, s.workers, k, w);
  }

  lemma WakeCounts(p: Plan, s: State)
    requires PlanOk(p) && Inv(p, s) && Enabled(p, s, Wake)
    ensures |Apply(p, s, Wake).workers| == p.n
    ensures Remaining(p, Apply(p, s, Wake)) == Remaining(p, s) - 1
  {
    hide Ok;
    hide Base;
    hide Underway;
    hide Items;
    hide Later;
    hide PhaseCost;
    ZeroMeansIdle(s.workers);
    assert Idle(s.workers);
    FinishedPhase(p, s.coord.phase, s.workers);
    hide PhaseLeft;
  }

  /** Every step of every schedule lowers the number of remaining steps by exactly one. */
  lemma StepCounts(p: Plan, s: State, l: Label)
    requires PlanOk(p) && Inv(p, s) && Enabled(p, s, l)
    ensures |Apply(p, s, l).workers| == p.n
    ensures Remaining(p, Apply(p, s, l)) == Remaining(p, s) - 1
  {
    if l.Work? || l.Done? {
      WorkerStepCounts(p, s, l);
    } else if l.Wake? {
      WakeCounts(p, s);
    } else {
      CoordinatorStepCounts(p, s, l);
    }
  }

  lemma CoordinatorStepCounts(p: Plan, s: State, l: Label)
    requires PlanOk(p) && Inv(p, s) && Enabled(p, s, l) && !l.Work? && !l.Done? && !l.Wake?
    ensures |Apply(p, s, l).workers| == p.n
    ensures Remaining(p, Apply(p, s, l)) == Remaining(p, s) - 1
  {
    hide Ok;
    hide Base;
    hide Committed;
    hide Underway;
    hide BusyCount;
    hide Later;
    hide PhaseLeft;
    hide PhaseCost;
    hide StopCost;
    match l
    case Start => FreshPhase(p, SensePhase, s.workers); StartCounts(p);
    case Send => SendLeft(p, s.coord.phase, s.coord.k, s.workers);
    case CommitNext =>
    case StartDecay => FreshPhase(p, DecayPhase, s.workers);
    case SwapGrids =>
    case ClearGrids => LaterStep(p, s.tick);
    case BeginStop => LaterLast(p); AllAlive(s.workers); StopCounts(p);
    case Close =>
    case Exit(k) => ExitLeft(s.workers, k);
  }

  lemma StartCounts(p: Plan)
    requires PlanOk(p)
    ensures TickCost(p) == 1 + PhaseCost(p, SensePhase) + |p.start.ants| + 1 + PhaseCost(p, DecayPhase) + 2
  {
  }

  lemma StopCounts(p: Plan)
    ensures StopCost(p) == 1 + p.n + p.n
  {
  }

  // Deadlock freedom.

  /** The pool has been stopped and every worker has left. */
  predicate Final(p: Plan, s: State) {
    s.coord == Stopping(p.n) && forall j :: 0 <= j < |s.workers| ==> s.workers[j].Exited?
  }

  lemma FinalIsStuck(p: Plan, s: State, l: Label)
    requires PlanOk(p) && Final(p, s)
    ensures !Enabled(p, s, l)
  {
  }

  /** While a phase is being waited for, some worker can move or the wait is over. */
  lemma WaitingMoves(p: Plan, s: State) returns (l: Label)
    requires PlanOk(p) && Inv(p, s) && s.coord.Sending? && s.coord.k == p.n
    ensures Enabled(p, s, l)
  {
    hide Ok;
    hide Base;
    hide Underway;
    hide Items;
    if s.wg == 0 {
      l := Wake;
    } else {
      if forall j :: 0 <= j < p.n ==> !s.workers[j].Busy? {
        IdleCountsZero(s.workers);
        assert false;
      }
      var k :| 0 <= k < p.n && s.workers[k].Busy?;
      l := if s.workers[k].item < Items(p, s.coord.phase, k) then Work(k) else Done(k);
    }
  }

  lemma StoppingMoves(p: Plan, s: State) returns (l: Label)
    requires PlanOk(p) && Inv(p, s) && s.coord.Stopping? && !Final(p, s)
    ensures Enabled(p, s, l)
  {
    hide Ok;
    hide Base;
    if s.coord.k < p.n {
      l := Close;
    } else {
      var k :| 0 <= k < p.n && !s.workers[k].Exited?;
      l := Exit(k);
    }
  }

  lemma SendingMoves(p: Plan, s: State)
    requires PlanOk(p) && Inv(p, s) && s.coord.Sending? && s.coord.k != p.n
    ensures Enabled(p, s, Send)
  {
    hide Ok;
    hide Base;
    hide Underway;
    hide BusyCount;
  }

  lemma SerialMoves(p: Plan, s: State) returns (l: Label)
    requires PlanOk(p) && Inv(p, s) && !s.coord.Sending? && !s.coord.Stopping?
    ensures Enabled(p, s, l)
  {
    hide Ok;
    hide Base;
    hide Committed;
    hide DecayCells;
    hide Swap;
    hide CommitTo;
    hide Sensed;
    match s.coord
    case AtTick => l := if s.tick < p.ticks then Start else BeginStop;
    case Committing(i) => l := if i < |p.start.ants| then CommitNext else StartDecay;
    case Swapping => l := SwapGrids;
    case Clearing => l := ClearGrids;
  }

  /** The pool never deadlocks: some step is enabled in every reachable state but the last. */
  lemma NeverStuck(p: Plan, s: State) returns (l: Label)
    requires PlanOk(p) && Inv(p, s) && !Final(p, s)
    ensures Enabled(p, s, l)
  {
    hide Final;
    hide Inv;
    hide Enabled;
    if s.coord.Sending? && s.coord.k == p.n {
      l := WaitingMoves(p, s);
    } else if s.coord.Sending? {
      SendingMoves(p, s);
      l := Send;
    } else if s.coord.Stopping? {
      l := StoppingMoves(p, s);
    } else {
      l := SerialMoves(p, s);
    }
  }

  // Schedules.

  /** The steps can be taken one after the other from s. */
  ghost predicate Possible(p: Plan, s: State, steps: seq<Label>)
    requires PlanOk(p)
    decreases |steps|
  {
    |steps| == 0 || (Enabled(p, s, steps[0]) && Possible(p, Apply(p, s, steps[0]), steps[1..]))
  }

  ghost function After(p: Plan, s: State, steps: seq<Label>): State
    requires PlanOk(p) && Possible(p, s, steps)
    decreases |steps|
  {
    if |steps| == 0 then s else After(p, Apply(p, s, steps[0]), steps[1..])
  }

  lemma InitialInvariant(p: Plan)
    requires PlanOk(p)
    ensures Inv(p, Initial(p))
  {
  }

  /** In every state any schedule reaches, the invariant holds and the step count is exact. */
  lemma {:induction false} ReachableInvariant(p: Plan, s: State, steps: seq<Label>)
    requires PlanOk(p) && Inv(p, s) && Possible(p, s, steps)
    ensures Inv(p, After(p, s, steps)) && |After(p, s, steps).workers| == |s.workers| == p.n
    ensures |steps| + Remaining(p, After(p, s, steps)) == Remaining(p, s)
    decreases |steps|
  {
    assert |s.workers| == p.n;
    hide Inv;
    hide Enabled;
    hide Apply;
    hide Remaining;
    hide Ok;
    if |steps| > 0 {
      StepKeepsInvariant(p, s, steps[0]);
      StepCounts(p, s, steps[0]);
      ReachableInvariant(p, Apply(p, s, steps[0]), steps[1..]);
    }
  }

  /** The WaitGroup counter is exact, and the serial code only runs with every worker out of the world. */
  lemma BarrierHolds(p: Plan, steps: seq<Label>)
    requires PlanOk(p) && Possible(p, Initial(p), steps)
    ensures var s := After(p, Initial(p), steps);
      && s.wg == (if s.coord.Sending? then p.n - s.coord.k + BusyCount(s.workers) else 0)
      && (!s.coord.Sending? ==> forall j :: 0 <= j < |s.workers| ==> !s.workers[j].Busy?)
  {
    hide Ok;
    hide Underway;
    hide Base;
    InitialInvariant(p);
    ReachableInvariant(p, Initial(p), steps);
  }

  lemma BoundaryWorld(p: Plan, s: State)
    requires PlanOk(p) && Inv(p, s) && (s.coord.AtTick? || s.coord.Stopping?)
    ensures s.mem == Run(p.env, p.start, s.tick) && (s.coord.Stopping? ==> s.tick == p.ticks)
  {
    hide Ok;
    hide Run;
  }

  /** At every tick boundary, under every schedule, the world is the serial engine's. */
  lemma TickBoundaryIsSerial(p: Plan, steps: seq<Label>)
    requires PlanOk(p) && Possible(p, Initial(p), steps)
    ensures var s := After(p, Initial(p), steps);
      s.coord.AtTick? || s.coord.Stopping? ==> s.mem == Run(p.env, p.start, s.tick)
  {
    InitialInvariant(p);
    ReachableInvariant(p, Initial(p), steps);
    hide Inv;
    hide Run;
    hide Ok;
    var s := After(p, Initial(p), steps);
    if s.coord.AtTick? || s.coord.Stopping? {
      BoundaryWorld(p, s);
    }
  }

  /** The steps of a whole run: every complete schedule takes exactly this many. */
  function RunLength(p: Plan): int
    requires PlanOk(p)
  {
    p.ticks * TickCost(p) + StopCost(p)
  }

  lemma InitialRemaining(p: Plan)
    requires PlanOk(p)
    ensures Remaining(p, Initial(p)) == RunLength(p)
  {
    hide Ok;
    var b := TickCost(p);
    hide TickCost;
    hide StopCost;
    assert b + (p.ticks - 1) * b == p.ticks * b;
  }

  /** Whatever the state, later ticks and stopping cost a natural number of steps. */
  lemma LaterNatural(p: Plan, tick: nat)
    requires PlanOk(p)
    ensures PhaseCost(p, SensePhase) >= 0 && PhaseCost(p, DecayPhase) >= 0 && TickCost(p) >= 0
    ensures tick < p.ticks ==> Later(p, tick) >= 0
    ensures TickCost(p) + Later(p, p.ticks) >= 0
  {
    ScaleBoth(p.env.w, 0, p.env.h);
    LaterLast(p);
    hide Ok;
    if tick < p.ticks {
      ScaleBoth(TickCost(p), 0, p.ticks - tick - 1);
      hide TickCost;
      assert TickCost(p) * (p.ticks - tick - 1) == (p.ticks - tick - 1) * TickCost(p);
    }
  }

  /** The number of remaining steps is never negative, so no schedule is longer than a run. */
  lemma RemainingNatural(p: Plan, s: State)
    requires PlanOk(p) && Inv(p, s)
    ensures Remaining(p, s) >= 0
  {
    hide Ok;
    hide Base;
    hide Committed;
    hide Underway;
    hide BusyCount;
    hide DecayCells;
    LaterNatural(p, s.tick);
    CountNatural(AliveFlags(s.workers));
    if s.coord.Sending? {
      LeftsNatural(p, s.coord.phase, s.coord.k, s.workers);
    }
    hide Later;
    hide TickCost;
    hide PhaseCost;
    hide InPhase;
    hide Lefts;
  }

  lemma LeftsNatural(p: Plan, ph: Phase, k: nat, ws: seq<Worker>)
    requires PlanOk(p) && |ws| == p.n && InPhase(p, ph, k, ws)
    ensures Sum(Lefts(p, ph, k, ws)) >= 0
  {
    hide Ok;
    hide Items;
    CountNatural(Lefts(p, ph, k, ws));
  }

  /** No schedule can go on forever. */
  lemma SchedulesAreFinite(p: Plan, steps: seq<Label>)
    requires PlanOk(p) && Possible(p, Initial(p), steps)
    ensures |steps| <= RunLength(p)
  {
    InitialInvariant(p);
    ReachableInvariant(p, Initial(p), steps);
    InitialRemaining(p);
    RemainingNatural(p, After(p, Initial(p), steps));
    hide Remaining;
    hide RunLength;
  }

  /**
   Every schedule that has gone as far as it can, for any number of workers, has
   taken exactly RunLength steps and left the world of the serial engine.
   */
  lemma EveryScheduleIsSerial(p: Plan, steps: seq<Label>)
    requires PlanOk(p) && Possible(p, Initial(p), steps)
    requires forall l :: !Enabled(p, After(p, Initial(p), steps), l)
    ensures Final(p, After(p, Initial(p), steps))
    ensures After(p, Initial(p), steps).mem == Run(p.env, p.start, p.ticks)
    ensures |steps| == RunLength(p)
  {
    hide Inv;
    hide Enabled;
    hide Remaining;
    hide RunLength;
    hide Run;
    hide Ok;
    var s := After(p, Initial(p), steps);
    InitialInvariant(p);
    ReachableInvariant(p, Initial(p), steps);
    InitialRemaining(p);
    if !Final(p, s) {
      var l := NeverStuck(p, s);
      assert false;
    }
    FinalRemaining(p, s);
    BoundaryWorld(p, s);
  }

  lemma FinalRemaining(p: Plan, s: State)
    requires PlanOk(p) && Final(p, s) && |s.workers| == p.n
    ensures Remaining(p, s) == 0
  {
    hide Ok;
    SumZero(AliveFlags(s.workers));
  }

  // Workers do not interfere.

  lemma SensingUnique(env: Env, sp: Split, w: World, pos: seq<nat>, a: World, b: World)
    requires Sensing(env, sp, w, pos, a) && Sensing(env, sp, w, pos, b)
    ensures a == b
  {
    hide SensedAnt;
    hide SensedIntent;
    hide Lo;
    hide Mine;
    forall i | 0 <= i < |w.ants|
      ensures a.ants[i] == b.ants[i] && a.intents[i] == b.intents[i]
    {
      var k := MineSome(sp, i);
      assert SensedAt(env, w, a, i, i < Lo(sp, k) + pos[k]);
      assert SensedAt(env, w, b, i, i < Lo(sp, k) + pos[k]);
    }
    assert a.ants == b.ants && a.intents == b.intents;
  }

  lemma DecayingUnique(env: Env, sp: Split, w: World, pos: seq<nat>, a: World, b: World)
    requires Decaying(env, sp, w, pos, a) && Decaying(env, sp, w, pos, b)
    ensures a == b
  {
    hide Written;
    hide Lo;
    hide Mine;
    forall c | 0 <= c < |w.nextFood|
      ensures a.nextFood[c] == b.nextFood[c] && a.nextHome[c] == b.nextHome[c]
    {
      var k := MineSome(sp, c);
      assert DecayedAt(env, w, a, c, c < Lo(sp, k) + pos[k], c + Size(sp, k) < Lo(sp, k) + pos[k]);
      assert DecayedAt(env, w, b, c, c < Lo(sp, k) + pos[k], c + Size(sp, k) < Lo(sp, k) + pos[k]);
    }
    assert a.nextFood == b.nextFood && a.nextHome == b.nextHome;
  }

  /** The memory of a phase is determined by how far each worker has got, not by the order. */
  lemma MemoryIsAFunctionOfPositions(p: Plan, ph: Phase, t: nat, pos: seq<nat>, a: World, b: World)
    requires PlanOk(p) && Underway(p, ph, t, pos, a) && Underway(p, ph, t, pos, b)
    ensures a == b
  {
    hide Base;
    hide Committed;
    hide Sensing;
    hide Decaying;
    hide SplitOf;
    hide PlanOk;
    match ph
    case SensePhase => SensingUnique(p.env, SplitOf(p, ph), Base(p, t), pos, a, b);
    case DecayPhase => DecayingUnique(p.env, SplitOf(p, ph), Committed(p, t), pos, a, b);
  }

  /** Where the memory stands after one more unit of work. */
  lemma UnderwayNow(p: Plan, s: State)
    requires PlanOk(p) && Inv(p, s) && s.coord.Sending?
    ensures Underway(p, s.coord.phase, s.tick, Positions(p, s.coord.phase, s.coord.k, s.workers), s.mem)
  {
    hide Ok;
    hide Underway;
    hide Positions;
  }

  /** Steps of two different workers commute. */
  lemma WorkersCommute(p: Plan, s: State, j: nat, k: nat)
    requires PlanOk(p) && Inv(p, s) && j != k && Enabled(p, s, Work(j)) && Enabled(p, s, Work(k))
    ensures Enabled(p, Apply(p, s, Work(j)), Work(k)) && Enabled(p, Apply(p, s, Work(k)), Work(j))
    ensures Apply(p, Apply(p, s, Work(j)), Work(k)) == Apply(p, Apply(p, s, Work(k)), Work(j))
  {
    hide Inv;
    hide Items;
    hide DoItem;
    hide Underway;
    hide Positions;
    hide Ok;
    WorkingMeansSending(p, s, j);
    WorkingMeansSending(p, s, k);
    var a, b := Apply(p, s, Work(j)), Apply(p, s, Work(k));
    KeepWork(p, s, j);
    KeepWork(p, s, k);
    KeepWork(p, a, k);
    KeepWork(p, b, j);
    var a', b' := Apply(p, a, Work(k)), Apply(p, b, Work(j));
    assert a'.workers == b'.workers;
    UnderwayNow(p, a');
    UnderwayNow(p, b');
    MemoryIsAFunctionOfPositions(p, s.coord.phase, s.tick, Positions(p, s.coord.phase, s.coord.k, a'.workers), a'.mem, b'.mem);
  }
}
