/**
 How strong a mark is: the configured deposit, halved under the anchored rules once
 per 16 steps since the ant's last anchor event, and what that leaves on a cell.
 */
module Marks {
  import opened Words
  import opened Config
  import opened Grid
  import opened Colony
  import opened Start
  import opened Commits
  import opened Fields
  import Choices

  /** base / 2^(steps / 16). */
  function Faint(base: U32, steps: nat): (r: nat)
    ensures r <= base
  {
    DivBelow(base, Pow2(steps / 16));
    base / Pow2(steps / 16)
  }

  /** For every number of steps a deposit is the base divided by 2^(steps / 16): the base itself for the first sixteen. */
  lemma FalloffIs(base: U32, steps: nat)
    ensures Falloff(base, steps) == Faint(base, steps)
    ensures steps < 16 ==> Falloff(base, steps) == base
  {
    if steps / 16 == 0 {
      assert Pow2(0) == 1;
    }
    if steps / 16 >= 32 {
      Pow2Values();
      Pow2Monotone(32, steps / 16);
      SmallQuotient(base, Pow2(steps / 16));
    }
  }

  lemma SmallQuotient(a: nat, m: int)
    requires a < m
    ensures a / m == 0
  {
    ModUnique(a, m, 0, a);
  }

  /** The configured deposit of an ant in its state. */
  function Base(p: Pheromone, food: bool): U32 {
    if food then p.depositFood else p.depositHome
  }

  /** The mark of one ant. */
  lemma MarkIs(env: Env, a: Ant)
    ensures Mark(env, a) ==
      if env.rules.anchored then Faint(Base(env.pheromone, a.hasFood), a.steps) else Base(env.pheromone, a.hasFood)
  {
    FalloffIs(Base(env.pheromone, a.hasFood), a.steps);
    hide Faint;
    hide Falloff;
  }

  /** The engines' marks: only gradient and scent let them fade with the steps. */
  lemma EngineMarks(c: Config, a: Ant)
    requires ValidConfig(c)
    ensures Mark(NewEnv(c, PLAIN), a) == Mark(NewEnv(c, NO_TRAIL), a) == Base(c.pheromone, a.hasFood)
    ensures Mark(NewEnv(c, GRADIENT), a) == Mark(NewEnv(c, SCENT), a) == Faint(Base(c.pheromone, a.hasFood), a.steps)
  {
    Choices.EnvIs(c, PLAIN);
    Choices.EnvIs(c, NO_TRAIL);
    Choices.EnvIs(c, GRADIENT);
    Choices.EnvIs(c, SCENT);
    hide NewEnv;
    hide Mark;
    hide Faint;
    MarkIs(NewEnv(c, PLAIN), a);
    MarkIs(NewEnv(c, NO_TRAIL), a);
    MarkIs(NewEnv(c, GRADIENT), a);
    MarkIs(NewEnv(c, SCENT), a);
  }

  /** Ant a is on cell i of a grid of width w, carrying or searching as asked. */
  predicate IsOn(w: int, a: Ant, i: nat, food: bool) {
    a.hasFood == food && a.y * w + a.x == i
  }

  /** What the ants on cell i leave there together. */
  function SumOn(w: int, ants: seq<Ant>, i: nat, food: bool, base: U32, anchored: bool): nat {
    if |ants| == 0 then 0 else
    var a := ants[|ants| - 1];
    SumOn(w, ants[..|ants| - 1], i, food, base, anchored) +
    (if IsOn(w, a, i, food) then (if anchored then Faint(base, a.steps) else base) else 0)
  }

  lemma {:induction false} MarksAreLeft(env: Env, ants: seq<Ant>, i: nat, food: bool)
    ensures MarksOn(env, ants, i, food) == SumOn(env.w, ants, i, food, Base(env.pheromone, food), env.rules.anchored)
    decreases |ants|
  {
    hide Mark;
    hide Faint;
    if |ants| > 0 {
      MarksAreLeft(env, ants[..|ants| - 1], i, food);
      MarkIs(env, ants[|ants| - 1]);
    }
  }

  lemma BeforeDecayAnts(env: Env, w: World)
    requires Ok(env, w)
    ensures BeforeDecay(env, w).ants == Tick(env, w).ants
  {
    TickIsDecay(env, w);
    hide Tick;
    hide BeforeDecay;
    hide DecayCells;
  }

  /**
   What decay reads as deposits on cell i in any tick of any run: over the ants that
   the tick leaves there, the sum of their configured deposits, each halved once per 16
   steps under the anchored rules, and at most Max.
   */
  lemma RunMarks(c: Config, rules: Rules, t: nat, i: nat)
    requires ValidConfig(c) && i < c.width * c.height
    ensures var b, ants := BeforeDecay(NewEnv(c, rules), WorldAt(c, rules, t)), WorldAt(c, rules, t + 1).ants;
      var food := SumOn(c.width, ants, i, true, c.pheromone.depositFood, rules.anchored);
      var home := SumOn(c.width, ants, i, false, c.pheromone.depositHome, rules.anchored);
      && i < |b.depFood| && i < |b.depHome|
      && b.depFood[i] == Min(food, c.pheromone.max) && b.depHome[i] == Min(home, c.pheromone.max)
  {
    var env, w := NewEnv(c, rules), WorldAt(c, rules, t);
    Choices.WorldNext(c, rules, t);
    Choices.EnvIs(c, rules);
    BeforeDecayAnts(env, w);
    RunDeposits(c, rules, t, i);
    hide BeforeDecay;
    hide WorldAt;
    hide NewEnv;
    hide Tick;
    hide Ok;
    hide SumOn;
    hide MarksOn;
    hide CountOn;
    var ants := WorldAt(c, rules, t + 1).ants;
    MarksAreLeft(env, ants, i, true);
    MarksAreLeft(env, ants, i, false);
  }
}
