/**
 Each ant's generator depends on the seed, its index and the tick alone: not on
 walls, food, pheromone, the wander rate, the rules or the other ants.
 */
module Streams {
  import opened Words
  import opened Config
  import opened Rng
  import opened Colony
  import opened Start
  import opened Commits
  import opened Ticks

  lemma TickAdvances(env: Env, w: World, i: nat)
    requires Ok(env, w) && env.movement.randomDen > 0 && i < |w.ants|
    ensures Tick(env, w).ants[i].rng == Advance(w.ants[i].rng, env.movement.randomDen)
    ensures Tick(env, w).ants[i].id == w.ants[i].id
  {
    TickIsCommit(env, w);
    SenseIsDecision(env, w, i);
    OkShaped(env, w);
    SensedSame(env, w.ants[i]);
    hide *;
    CommitAnt(env, Sense(env, w), i);
  }

  lemma AdvanceByZero(s: State, den: U32)
    requires den > 0
    ensures AdvanceBy(s, den, 0) == s
  {
  }

  lemma {:induction false} RunAdvances(env: Env, w: World, t: nat, i: nat)
    requires Ok(env, w) && env.movement.randomDen > 0 && i < |w.ants|
    ensures Run(env, w, t).ants[i].rng == AdvanceBy(w.ants[i].rng, env.movement.randomDen, t)
    decreases t
  {
    hide Run;
    hide Tick;
    hide Ok;
    hide Advance;
    hide AdvanceBy;
    AdvanceByZero(w.ants[i].rng, env.movement.randomDen);
    RunZero(env, w);
    if t > 0 {
      RunAdvances(env, w, t - 1, i);
      RunStep(env, w, t - 1);
      TickAdvances(env, Run(env, w, t - 1), i);
      AdvanceByStep(w.ants[i].rng, env.movement.randomDen, t - 1);
    }
  }

  /** Two runs that share the seed and RandomDen draw the same numbers for ant i at every tick. */
  lemma StreamsDoNotInterfere(a: Config, b: Config, ra: Rules, rb: Rules, t: nat, i: nat)
    requires ValidConfig(a) && ValidConfig(b) && i < a.antCount && i < b.antCount
    requires a.seed == b.seed && a.movement.randomDen == b.movement.randomDen
    ensures WorldAt(a, ra, t).ants[i].rng == WorldAt(b, rb, t).ants[i].rng
    ensures WorldAt(a, ra, t).ants[i].rng == AdvanceBy(AntStream(a.seed, i), a.movement.randomDen, t)
  {
    hide *;
    WorldStream(a, ra, t, i);
    WorldStream(b, rb, t, i);
  }

  /** Ant i's generator after t ticks, from the seed, the index and RandomDen. */
  lemma WorldStream(c: Config, rules: Rules, t: nat, i: nat)
    requires ValidConfig(c) && i < c.antCount
    ensures i < |WorldAt(c, rules, t).ants| && c.movement.randomDen > 0
    ensures WorldAt(c, rules, t).ants[i].rng == AdvanceBy(AntStream(c.seed, i), c.movement.randomDen, t)
  {
    NewWorldOk(c, rules);
    assert NewWorld(c).ants[i].rng == AntStream(c.seed, i);
    hide Run;
    hide NewWorld;
    hide AntStream;
    hide Ok;
    hide AdvanceBy;
    RunAdvances(NewEnv(c, rules), NewWorld(c), t, i);
  }
}
