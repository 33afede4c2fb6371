/**
 The worker pool of the parallel and nogc engines as a step machine: a
 coordinator that runs the ticks, n workers fed over one channel each, and a
 WaitGroup counter. Any enabled step may happen next; one worker step senses
 one ant or writes one cell.
 */
module Pool {
  import opened Grid
  import opened Colony
  import opened Progress

  datatype Phase = SensePhase | DecayPhase

  datatype Worker =
    | Receiving                     // blocked on its channel
    | Busy(phase: Phase, item: nat) // about to do the item-th unit of its range
    | Exited                        // its channel was closed

  datatype Coordinator =
    | AtTick                        // between two ticks
    | Sending(phase: Phase, k: nat) // inside run: k sends done, then wg.Wait
    | Committing(i: nat)            // serial: i ants committed
    | Swapping
    | Clearing
    | Stopping(k: nat)              // k channels closed

  /** A run: the world it starts from, the worker count and the number of ticks it performs. */
  datatype Plan = Plan(env: Env, start: World, n: nat, ticks: nat)

  datatype State = State(tick: nat, coord: Coordinator, workers: seq<Worker>, wg: int, mem: World)

  datatype Label =
    | Start | Send | Work(k: nat) | Done(k: nat) | Wake
    | CommitNext | StartDecay | SwapGrids | ClearGrids | BeginStop | Close | Exit(k: nat)

  predicate PlanOk(p: Plan) {
    Ok(p.env, p.start) && p.n > 0
  }

  /** How a phase's work is split: ants one by one, cells by whole rows. */
  function SplitOf(p: Plan, ph: Phase): (sp: Split)
    requires PlanOk(p)
    ensures sp.n == p.n
    ensures ph.SensePhase? ==> sp.rows * sp.width == |p.start.ants|
    ensures ph.DecayPhase? ==> sp.rows * sp.width == p.env.w * p.env.h
  {
    match ph
    case SensePhase => Split(p.n, |p.start.ants|, 1)
    case DecayPhase => Split(p.n, p.env.h, p.env.w)
  }

  /** The units of work in worker k's range: each cell counts once per grid. */
  function Items(p: Plan, ph: Phase, k: nat): nat
    requires PlanOk(p) && k < p.n
  {
    if ph.SensePhase? then Size(SplitOf(p, ph), k) else 2 * Size(SplitOf(p, ph), k)
  }

  function Total(p: Plan, ph: Phase): nat
    requires PlanOk(p)
  {
    if ph.SensePhase? then |p.start.ants| else 2 * (p.env.w * p.env.h)
  }

  ghost function Initial(p: Plan): State
  {
    State(0, AtTick, seq(p.n, i => Receiving), 0, p.start)
  }

  // Steps.

  predicate Enabled(p: Plan, s: State, l: Label)
    requires PlanOk(p)
  {
    && |s.workers| == p.n
    && match l
       case Start => s.coord.AtTick? && s.tick < p.ticks
       case Send => s.coord.Sending? && s.coord.k < p.n && s.workers[s.coord.k].Receiving?
       case Work(k) => k < p.n && s.workers[k].Busy? && s.workers[k].item < Items(p, s.workers[k].phase, k)
       case Done(k) => k < p.n && s.workers[k].Busy? && s.workers[k].item == Items(p, s.workers[k].phase, k)
       case Wake => s.coord.Sending? && s.coord.k == p.n && s.wg == 0
       case CommitNext => s.coord.Committing? && s.coord.i < |s.mem.ants|
       case StartDecay => s.coord.Committing? && s.coord.i == |s.mem.ants|
       case SwapGrids => s.coord.Swapping?
       case ClearGrids => s.coord.Clearing?
       case BeginStop => s.coord.AtTick? && s.tick == p.ticks
       case Close => s.coord.Stopping? && s.coord.k < p.n
       case Exit(k) => k < p.n && s.coord.Stopping? && k < s.coord.k && s.workers[k].Receiving?
  }

  /** The effect of one unit of work. The guards only make it total: the invariant implies them. */
  ghost function DoItem(p: Plan, mem: World, ph: Phase, k: nat, item: nat): World
    requires PlanOk(p) && k < p.n
  {
    var sp := SplitOf(p, ph);
    match ph
    case SensePhase =>
      var i := Lo(sp, k) + item;
      if Shaped(p.env, mem) && i < |mem.ants| && Heading(mem.ants[i].dir) then SenseItem(p.env, mem, i) else mem
    case DecayPhase =>
      if Shaped(p.env, mem) && item < 2 * Size(sp, k) then DecayItem(p.env, sp, mem, k, item) else mem
  }

  ghost function DoCommit(p: Plan, mem: World, i: nat): World {
    if Ready(p.env, mem) && i < |mem.ants| then CommitOne(p.env, mem, i) else mem
  }

  ghost function Apply(p: Plan, s: State, l: Label): State
    requires PlanOk(p) && Enabled(p, s, l)
  {
    match l
    case Start => s.(coord := Sending(SensePhase, 0), wg := s.wg + p.n)
    case Send => s.(coord := Sending(s.coord.phase, s.coord.k + 1),
                    workers := s.workers[s.coord.k := Busy(s.coord.phase, 0)])
    case Work(k) =>
      var b := s.workers[k];
      s.(workers := s.workers[k := Busy(b.phase, b.item + 1)], mem := DoItem(p, s.mem, b.phase, k, b.item))
    case Done(k) => s.(workers := s.workers[k := Receiving], wg := s.wg - 1)
    case Wake => s.(coord := if s.coord.phase.SensePhase? then Committing(0) else Swapping)
    case CommitNext => s.(coord := Committing(s.coord.i + 1), mem := DoCommit(p, s.mem, s.coord.i))
    case StartDecay => s.(coord := Sending(DecayPhase, 0), wg := s.wg + p.n)
    case SwapGrids => s.(coord := Clearing, mem := Swap(s.mem))
    case ClearGrids => s.(coord := AtTick, tick := s.tick + 1, mem := Colony.Clear(s.mem))
    case BeginStop => s.(coord := Stopping(0))
    case Close => s.(coord := Stopping(s.coord.k + 1))
    case Exit(k) => s.(workers := s.workers[k := Exited])
  }

  // The invariant.

  /** The world the serial engine has after t ticks. */
  ghost function Base(p: Plan, t: nat): (w: World)
    requires PlanOk(p)
    ensures Ok(p.env, w) && |w.ants| == |p.start.ants|
  {
    Run(p.env, p.start, t)
  }

  ghost function Sensed(p: Plan, t: nat): (w: World)
    requires PlanOk(p)
    ensures Ready(p.env, w) && |w.ants| == |p.start.ants|
  {
    SenseReady(p.env, Base(p, t));
    Sense(p.env, Base(p, t))
  }

  ghost function Committed(p: Plan, t: nat): (w: World)
    requires PlanOk(p)
    ensures Ready(p.env, w) && |w.ants| == |p.start.ants|
  {
    Commit(p.env, Sensed(p, t))
  }

  lemma BaseStep(p: Plan, t: nat)
    requires PlanOk(p)
    ensures Base(p, t + 1) == Decay(p.env, Committed(p, t))
  {
  }

  predicate IsBusy(w: Worker) {
    w.Busy?
  }

  function BusyFlags(ws: seq<Worker>): (f: seq<int>)
    ensures |f| == |ws|
  {
    seq(|ws|, j requires 0 <= j < |ws| => if IsBusy(ws[j]) then 1 else 0)
  }

  /** How many workers are inside a phase. */
  function BusyCount(ws: seq<Worker>): int {
    Sum(BusyFlags(ws))
  }

  predicate Idle(ws: seq<Worker>) {
    forall j :: 0 <= j < |ws| ==> ws[j].Receiving?
  }

  /** After k sends: the first k workers are in the phase or back, the others have not been woken. */
  predicate InPhase(p: Plan, ph: Phase, k: nat, ws: seq<Worker>)
    requires PlanOk(p) && |ws| == p.n
  {
    && (forall j :: 0 <= j < p.n && j < k ==>
         ws[j].Receiving? || (ws[j].Busy? && ws[j].phase == ph && ws[j].item <= Items(p, ph, j)))
    && (forall j :: k <= j < p.n ==> ws[j].Receiving?)
  }

  /** How much of each worker's range has been done. */
  function Positions(p: Plan, ph: Phase, k: nat, ws: seq<Worker>): (pos: seq<nat>)
    requires PlanOk(p) && |ws| == p.n
    ensures |pos| == p.n
  {
    seq(p.n, j requires 0 <= j < p.n => if ws[j].Busy? then ws[j].item else if j < k then Items(p, ph, j) else 0)
  }

  ghost predicate Underway(p: Plan, ph: Phase, t: nat, pos: seq<nat>, mem: World)
    requires PlanOk(p)
  {
    match ph
    case SensePhase => Sensing(p.env, SplitOf(p, ph), Base(p, t), pos, mem)
    case DecayPhase => Decaying(p.env, SplitOf(p, ph), Committed(p, t), pos, mem)
  }

  ghost predicate Inv(p: Plan, s: State)
    requires PlanOk(p)
  {
    && s.tick <= p.ticks && |s.workers| == p.n
    && match s.coord
       case AtTick => Idle(s.workers) && s.wg == 0 && s.mem == Base(p, s.tick)
       case Sending(ph, k) =>
         && s.tick < p.ticks && k <= p.n && InPhase(p, ph, k, s.workers)
         && s.wg == p.n - k + BusyCount(s.workers)
         && Underway(p, ph, s.tick, Positions(p, ph, k, s.workers), s.mem)
       case Committing(i) =>
         && s.tick < p.ticks && Idle(s.workers) && s.wg == 0 && i <= |p.start.ants|
         && s.mem == CommitTo(p.env, Sensed(p, s.tick), i)
       case Swapping =>
         && s.tick < p.ticks && Idle(s.workers) && s.wg == 0
         && s.mem == DecayCells(p.env, Committed(p, s.tick), 0, p.env.w * p.env.h)
       case Clearing =>
         && s.tick < p.ticks && Idle(s.workers) && s.wg == 0
         && s.mem == Swap(DecayCells(p.env, Committed(p, s.tick), 0, p.env.w * p.env.h))
       case Stopping(k) =>
         && s.tick == p.ticks && k <= p.n && s.wg == 0 && s.mem == Base(p, s.tick)
         && forall j :: 0 <= j < p.n ==> s.workers[j].Receiving? || (s.workers[j].Exited? && j < k)
  }

  // Counting workers.

  lemma {:induction false} IdleCountsZero(ws: seq<Worker>)
    requires forall j :: 0 <= j < |ws| ==> !ws[j].Busy?
    ensures BusyCount(ws) == 0
  {
    SumZero(BusyFlags(ws));
  }

  lemma CountUpdate(ws: seq<Worker>, k: nat, w: Worker)
    requires k < |ws|
    ensures BusyCount(ws[k := w]) ==
      BusyCount(ws) + (if w.Busy? then 1 else 0) - (if ws[k].Busy? then 1 else 0)
  {
    var f := BusyFlags(ws);
    SumUpdate(f, k, if w.Busy? then 1 else 0);
    assert BusyFlags(ws[k := w]) == f[k := if w.Busy? then 1 else 0];
  }

  lemma {:induction false} CountNatural(f: seq<int>)
    requires forall j :: 0 <= j < |f| ==> f[j] >= 0
    ensures Sum(f) >= 0
    ensures forall j :: 0 <= j < |f| ==> f[j] <= Sum(f)
    decreases |f|
  {
    if |f| > 0 {
      CountNatural(f[..|f| - 1]);
      forall j | 0 <= j < |f|
        ensures f[j] <= Sum(f)
      {
        if j < |f| - 1 {
          assert f[..|f| - 1][j] == f[j];
        }
      }
    }
  }

  /** A busy worker keeps the WaitGroup counter positive. */
  lemma BusyPositive(ws: seq<Worker>, k: nat)
    requires k < |ws| && ws[k].Busy?
    ensures BusyCount(ws) >= 1
  {
    CountNatural(BusyFlags(ws));
    assert BusyFlags(ws)[k] == 1;
  }

  /** A zero counter means that no worker is inside the phase. */
  lemma ZeroMeansIdle(ws: seq<Worker>)
    requires BusyCount(ws) <= 0
    ensures forall j :: 0 <= j < |ws| ==> !ws[j].Busy?
  {
    forall j | 0 <= j < |ws|
      ensures !ws[j].Busy?
    {
      if ws[j].Busy? {
        BusyPositive(ws, j);
      }
    }
  }

  // Every step keeps the invariant.

  lemma PhaseStarts(p: Plan, ph: Phase, t: nat, ws: seq<Worker>, mem: World)
    requires PlanOk(p) && |ws| == p.n && Idle(ws)
    requires mem == (if ph.SensePhase? then Base(p, t) else Committed(p, t))
    ensures InPhase(p, ph, 0, ws) && BusyCount(ws) == 0
    ensures Underway(p, ph, t, Positions(p, ph, 0, ws), mem)
  {
    IdleCountsZero(ws);
    hide Base;
    hide Committed;
    var pos := Positions(p, ph, 0, ws);
    if ph.SensePhase? {
      SensingStart(p.env, SplitOf(p, ph), mem, pos);
    } else {
      DecayingStart(p.env, SplitOf(p, ph), mem, pos);
    }
  }

  lemma KeepStart(p: Plan, s: State)
    requires PlanOk(p) && Inv(p, s) && Enabled(p, s, Start)
    ensures Inv(p, Apply(p, s, Start))
  {
    hide Base;
    hide Underway;
    PhaseStarts(p, SensePhase, s.tick, s.workers, s.mem);
  }

  lemma CommitEnds(p: Plan, s: State)
    requires PlanOk(p) && Inv(p, s) && Enabled(p, s, StartDecay)
    ensures s.mem == Committed(p, s.tick)
  {
    hide Sensed;
    hide CommitOne;
  }

  lemma KeepStartDecay(p: Plan, s: State)
    requires PlanOk(p) && Inv(p, s) && Enabled(p, s, StartDecay)
    ensures Inv(p, Apply(p, s, StartDecay))
  {
    hide Ok;
    hide Base;
    hide Sensed;
    hide Committed;
    hide CommitTo;
    hide Underway;
    hide InPhase;
    hide BusyCount;
    hide Positions;
    CommitEnds(p, s);
    PhaseStarts(p, DecayPhase, s.tick, s.workers, s.mem);
  }

  lemma KeepSend(p: Plan, s: State)
    requires PlanOk(p) && Inv(p, s) && Enabled(p, s, Send)
    ensures Inv(p, Apply(p, s, Send))
  {
    hide Base;
    hide Underway;
    var ph, k := s.coord.phase, s.coord.k;
    CountUpdate(s.workers, k, Busy(ph, 0));
    assert Positions(p, ph, k + 1, s.workers[k := Busy(ph, 0)]) == Positions(p, ph, k, s.workers);
  }

  /** Advancing or releasing one woken worker keeps the others where they are. */
  lemma InPhaseUpdate(p: Plan, ph: Phase, sent: nat, ws: seq<Worker>, k: nat, w: Worker)
    requires PlanOk(p) && |ws| == p.n && InPhase(p, ph, sent, ws) && k < p.n && k < sent
    requires w.Receiving? || (w.Busy? && w.phase == ph && w.item <= Items(p, ph, k))
    ensures InPhase(p, ph, sent, ws[k := w])
  {
    hide Items;
    hide Ok;
  }

  lemma PositionsUpdate(p: Plan, ph: Phase, sent: nat, ws: seq<Worker>, k: nat, w: Worker)
    requires PlanOk(p) && |ws| == p.n && k < p.n && k < sent && !w.Exited?
    ensures Positions(p, ph, sent, ws[k := w]) ==
      Positions(p, ph, sent, ws)[k := if w.Busy? then w.item else Items(p, ph, k)]
  {
    hide Items;
    hide Ok;
  }

  lemma KeepDone(p: Plan, s: State, k: nat)
    requires PlanOk(p) && Inv(p, s) && Enabled(p, s, Done(k))
    ensures Inv(p, Apply(p, s, Done(k)))
  {
    hide Ok;
    hide Base;
    hide Underway;
    hide Items;
    hide BusyCount;
    WorkingMeansSending(p, s, k);
    var ph, sent := s.coord.phase, s.coord.k;
    CountUpdate(s.workers, k, Receiving);
    InPhaseUpdate(p, ph, sent, s.workers, k, Receiving);
    PositionsUpdate(p, ph, sent, s.workers, k, Receiving);
    var pos := Positions(p, ph, sent, s.workers);
    assert pos[k := Items(p, ph, k)] == pos;
    hide InPhase;
    hide Positions;
  }

  /** A worker only works while the coordinator is inside run. */
  lemma WorkingMeansSending(p: Plan, s: State, k: nat)
    requires PlanOk(p) && Inv(p, s) && k < p.n && s.workers[k].Busy?
    ensures s.coord.Sending? && k < s.coord.k && s.workers[k].phase == s.coord.phase
  {
    hide Base;
    hide Underway;
  }

  lemma SenseItemStep(p: Plan, t: nat, pos: seq<nat>, mem: World, k: nat)
    requires PlanOk(p) && |pos| == p.n && k < p.n && pos[k] < Items(p, SensePhase, k) && Underway(p, SensePhase, t, pos, mem)
    ensures Underway(p, SensePhase, t, pos[k := pos[k] + 1], DoItem(p, mem, SensePhase, k, pos[k]))
  {
    hide Ok;
    hide Base;
    hide Sensing;
    hide SenseItem;
    hide Lo;
    hide Shaped;
    hide Mine;
    var sp := SplitOf(p, SensePhase);
    MineRange(sp, k, 0);
    SensingReady(p.env, sp, Base(p, t), pos, mem, k);
    SensingStep(p.env, sp, Base(p, t), pos, mem, k);
  }

  lemma DecayItemStep(p: Plan, t: nat, pos: seq<nat>, mem: World, k: nat)
    requires PlanOk(p) && |pos| == p.n && k < p.n && pos[k] < Items(p, DecayPhase, k) && Underway(p, DecayPhase, t, pos, mem)
    ensures Underway(p, DecayPhase, t, pos[k := pos[k] + 1], DoItem(p, mem, DecayPhase, k, pos[k]))
  {
    hide Ok;
    hide Committed;
    hide Decaying;
    hide DecayItem;
    hide Lo;
    hide Shaped;
    hide Mine;
    var sp := SplitOf(p, DecayPhase);
    MineRange(sp, k, 0);
    DecayingStep(p.env, sp, Committed(p, t), pos, mem, k);
  }

  lemma ItemStep(p: Plan, ph: Phase, t: nat, pos: seq<nat>, mem: World, k: nat)
    requires PlanOk(p) && |pos| == p.n && k < p.n && pos[k] < Items(p, ph, k) && Underway(p, ph, t, pos, mem)
    ensures Underway(p, ph, t, pos[k := pos[k] + 1], DoItem(p, mem, ph, k, pos[k]))
  {
    hide PlanOk;
    hide Items;
    hide Underway;
    hide DoItem;
    match ph
    case SensePhase => SenseItemStep(p, t, pos, mem, k);
    case DecayPhase => DecayItemStep(p, t, pos, mem, k);
  }

  lemma KeepWork(p: Plan, s: State, k: nat)
    requires PlanOk(p) && Inv(p, s) && Enabled(p, s, Work(k))
    ensures Inv(p, Apply(p, s, Work(k)))
  {
    hide Ok;
    hide Base;
    hide Underway;
    hide DoItem;
    hide Items;
    hide BusyCount;
    WorkingMeansSending(p, s, k);
    var ph, sent, b := s.coord.phase, s.coord.k, s.workers[k];
    var pos, next := Positions(p, ph, sent, s.workers), Busy(ph, b.item + 1);
    ItemStep(p, ph, s.tick, pos, s.mem, k);
    CountUpdate(s.workers, k, next);
    InPhaseUpdate(p, ph, sent, s.workers, k, next);
    PositionsUpdate(p, ph, sent, s.workers, k, next);
    hide InPhase;
    hide Positions;
  }

  lemma PhaseEnds(p: Plan, ph: Phase, t: nat, ws: seq<Worker>, mem: World)
    requires PlanOk(p) && |ws| == p.n && Idle(ws)
    requires Underway(p, ph, t, Positions(p, ph, p.n, ws), mem)
    ensures ph.SensePhase? ==> mem == Sensed(p, t)
    ensures ph.DecayPhase? ==> mem == DecayCells(p.env, Committed(p, t), 0, p.env.w * p.env.h)
  {
    var sp, pos := SplitOf(p, ph), Positions(p, ph, p.n, ws);
    forall k | 0 <= k < p.n
      ensures pos[k] == Items(p, ph, k)
    {
    }
    hide Base;
    hide Committed;
    if ph.SensePhase? {
      hide Sensing;
      SensingEnd(p.env, sp, Base(p, t), pos, mem);
    } else {
      hide Decaying;
      DecayingEnd(p.env, sp, Committed(p, t), pos, mem);
    }
  }

  lemma KeepWake(p: Plan, s: State)
    requires PlanOk(p) && Inv(p, s) && Enabled(p, s, Wake)
    ensures Inv(p, Apply(p, s, Wake))
  {
    ZeroMeansIdle(s.workers);
    assert Idle(s.workers);
    PhaseEnds(p, s.coord.phase, s.tick, s.workers, s.mem);
    assert CommitTo(p.env, Sensed(p, s.tick), 0) == Sensed(p, s.tick);
  }

  lemma KeepCommit(p: Plan, s: State)
    requires PlanOk(p) && Inv(p, s) && Enabled(p, s, CommitNext)
    ensures Inv(p, Apply(p, s, CommitNext))
  {
    hide Sensed;
    hide CommitOne;
  }

  lemma KeepSwap(p: Plan, s: State)
    requires PlanOk(p) && Inv(p, s) && Enabled(p, s, SwapGrids)
    ensures Inv(p, Apply(p, s, SwapGrids))
  {
    hide Ok;
    hide Base;
    hide Committed;
    hide Underway;
    hide InPhase;
    hide BusyCount;
    hide DecayCells;
    hide Swap;
  }

  lemma DecayIsSwapThenClear(p: Plan, t: nat)
    requires PlanOk(p)
    ensures Colony.Clear(Swap(DecayCells(p.env, Committed(p, t), 0, p.env.w * p.env.h))) == Base(p, t + 1)
  {
    BaseStep(p, t);
    hide Ok;
    hide Base;
    hide Committed;
    hide DecayCells;
    hide Swap;
    hide Colony.Clear;
  }

  lemma KeepClear(p: Plan, s: State)
    requires PlanOk(p) && Inv(p, s) && Enabled(p, s, ClearGrids)
    ensures Inv(p, Apply(p, s, ClearGrids))
  {
    hide Ok;
    hide Base;
    hide Committed;
    hide Underway;
    hide InPhase;
    hide BusyCount;
    hide DecayCells;
    hide Swap;
    hide Colony.Clear;
    DecayIsSwapThenClear(p, s.tick);
  }

  lemma KeepStop(p: Plan, s: State, l: Label)
    requires PlanOk(p) && Inv(p, s) && Enabled(p, s, l) && (l.BeginStop? || l.Close? || l.Exit?)
    ensures Inv(p, Apply(p, s, l))
  {
    hide Base;
    hide Committed;
    hide Underway;
    hide BusyCount;
    hide InPhase;
  }

  /** Every step, whichever worker takes it, keeps the invariant. */
  lemma StepKeepsInvariant(p: Plan, s: State, l: Label)
    requires PlanOk(p) && Inv(p, s) && Enabled(p, s, l)
    ensures Inv(p, Apply(p, s, l))
  {
    hide Inv;
    hide Enabled;
    hide Apply;
    match l
    case Start => KeepStart(p, s);
    case Send => KeepSend(p, s);
    case Work(k) => KeepWork(p, s, k);
    case Done(k) => KeepDone(p, s, k);
    case Wake => KeepWake(p, s);
    case CommitNext => KeepCommit(p, s);
    case StartDecay => KeepStartDecay(p, s);
    case SwapGrids => KeepSwap(p, s);
    case ClearGrids => KeepClear(p, s);
    case BeginStop => KeepStop(p, s, l);
    case Close => KeepStop(p, s, l);
    case Exit(_) => KeepStop(p, s, l);
  }
}
