/**
 The engines compute the same simulation: maps or arrays, serial or pooled
 under any schedule and worker count, with or without trails.
 */
module Engines {
  import opened Config
  import opened Colony
  import opened Start
  import opened Results
  import opened Partition
  import Pool
  import Schedule
  import Trail
  import Flat
  import Naive

  /** naive and flatgrid (and gradient, on either container) report the same result. */
  method NaiveAgreesWithFlat(c: Config, rules: Rules, limit: nat) returns (naive: Result, flat: Result)
    requires ValidConfig(c) && StreamsLive(c, limit) && !rules.smell
    ensures DeterministicEqual(naive, flat)
    ensures DeterministicEqual(flat, Expected(c, rules, limit))
  {
    hide Expected;
    naive := Naive.RunNaive(c, rules, limit, "naive", 0, 0, 0);
    flat := Flat.RunFlat(c, rules, limit, "flatgrid", 0, 0, 0);
  }

  /** The run of a pooled engine on GOMAXPROCS = procs processors, cancelled after limit ticks. */
  ghost function PlanFor(c: Config, rules: Rules, procs: int, limit: nat): (p: Pool.Plan)
    requires ValidConfig(c)
    ensures Pool.PlanOk(p)
  {
    NewWorldOk(c, rules);
    Pool.Plan(NewEnv(c, rules), NewWorld(c), PoolSize(procs, c.height), TicksRun(c, limit))
  }

  /**
   parallel: for every worker count, every complete schedule of the pool reports
   what the serial engine reports.
   */
  lemma ParallelAgrees(c: Config, rules: Rules, procs: int, limit: nat, steps: seq<Pool.Label>)
    requires ValidConfig(c)
    requires Schedule.Possible(PlanFor(c, rules, procs, limit), Pool.Initial(PlanFor(c, rules, procs, limit)), steps)
    requires var p := PlanFor(c, rules, procs, limit);
      forall l :: !Pool.Enabled(p, Schedule.After(p, Pool.Initial(p), steps), l)
    ensures var p := PlanFor(c, rules, procs, limit);
      var w := Schedule.After(p, Pool.Initial(p), steps).mem;
      |w.pheroFood| == |w.pheroHome| && Reported(c, w, TicksRun(c, limit)) == Expected(c, rules, limit)
  {
    hide Reported;
    hide Pool.Enabled;
    hide Pool.Initial;
    hide NewEnv;
    hide NewWorld;
    hide Run;
    hide PoolSize;
    Schedule.EveryScheduleIsSerial(PlanFor(c, rules, procs, limit), steps);
  }

  /** nogc: the pooled engine without trails reports what the engines with trails report. */
  lemma NogcAgrees(c: Config, procs: int, limit: nat, steps: seq<Pool.Label>)
    requires ValidConfig(c)
    requires Schedule.Possible(PlanFor(c, NO_TRAIL, procs, limit), Pool.Initial(PlanFor(c, NO_TRAIL, procs, limit)), steps)
    requires var p := PlanFor(c, NO_TRAIL, procs, limit);
      forall l :: !Pool.Enabled(p, Schedule.After(p, Pool.Initial(p), steps), l)
    ensures var p := PlanFor(c, NO_TRAIL, procs, limit);
      var w := Schedule.After(p, Pool.Initial(p), steps).mem;
      |w.pheroFood| == |w.pheroHome| && Reported(c, w, TicksRun(c, limit)) == Expected(c, PLAIN, limit)
  {
    ParallelAgrees(c, NO_TRAIL, procs, limit, steps);
    hide Expected;
    Trail.ResultTrailFree(c, PLAIN, limit);
  }
}
