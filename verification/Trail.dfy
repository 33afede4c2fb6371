/**
 Deleting Ant.Trail (nogc) is invisible: a run without it is the run with it,
 trails erased, and reports the same result.
 */
module Trail {
  import opened Words
  import opened Config
  import opened Rng
  import opened Colony
  import opened Start
  import opened Results
  import Hash

  function Bare(a: Ant): Ant {
    a.(trail := [])
  }

  function BareAnts(ants: seq<Ant>): (r: seq<Ant>)
    ensures |r| == |ants|
  {
    seq(|ants|, i requires 0 <= i < |ants| => Bare(ants[i]))
  }

  function Erase(w: World): World {
    w.(ants := BareAnts(w.ants))
  }

  /** The same simulation without trails. */
  function Trailless(env: Env): Env {
    env.(rules := env.rules.(trail := false))
  }

  lemma SmelledErased(env: Env, food: seq<int>, x: int, y: int, n: nat)
    requires EnvOk(env) && |food| == env.w * env.h && n <= |env.piles|
    ensures NearestScent(Trailless(env), food, x, y, n) == NearestScent(env, food, x, y, n)
    decreases n
  {
    if n > 0 {
      SmelledErased(env, food, x, y, n - 1);
    }
  }

  lemma DecideErased(env: Env, trail: Levels, food: seq<int>, x: int, y: int, dir: int, hasFood: bool, roll: U32, pick: int)
    requires EnvOk(env) && |trail| == |food| == env.w * env.h && Heading(dir) && 0 <= pick < 3
    ensures Decide(Trailless(env), trail, food, x, y, dir, hasFood, roll, pick) ==
            Decide(env, trail, food, x, y, dir, hasFood, roll, pick)
  {
    SmelledErased(env, food, x, y, |env.piles|);
    hide NearestScent;
    var scent := Smelled(env, food, x, y, hasFood);
    forall d | Heading(d)
      ensures Score(Trailless(env), trail, scent, x, y, hasFood, d) == Score(env, trail, scent, x, y, hasFood, d)
      ensures Step(Trailless(env), x, y, d) == Step(env, x, y, d)
    {
    }
    hide Score;
    hide Step;
    assert Scores(Trailless(env), trail, scent, x, y, hasFood, dir) == Scores(env, trail, scent, x, y, hasFood, dir);
  }

  lemma SenseErased(env: Env, w: World)
    requires Shaped(env, w) && Faced(w)
    ensures Sense(Trailless(env), Erase(w)) == Erase(Sense(env, w))
  {
    var e, v := Trailless(env), Erase(w);
    forall i | 0 <= i < |w.ants|
      ensures SensedIntent(e, v, v.ants[i]) == SensedIntent(env, w, w.ants[i])
      ensures SensedAnt(e, v.ants[i]) == Bare(SensedAnt(env, w.ants[i]))
    {
      var a := w.ants[i];
      var roll := Draw(a.rng, env.movement.randomDen);
      DecideErased(env, if a.hasFood then w.pheroHome else w.pheroFood, w.food, a.x, a.y, a.dir, a.hasFood,
        roll.value, Draw(roll.rest, 3).value);
    }
    hide SensedIntent;
    hide SensedAnt;
    assert Sense(e, v).ants == Erase(Sense(env, w)).ants;
    assert Sense(e, v).intents == Erase(Sense(env, w)).intents;
  }

  lemma BareUpdate(ants: seq<Ant>, i: nat, a: Ant)
    requires i < |ants|
    ensures BareAnts(ants[i := a]) == BareAnts(ants)[i := Bare(a)]
  {
  }

  lemma CommitOneErased(env: Env, w: World, i: nat)
    requires Ready(env, w) && i < |w.ants|
    ensures Ready(Trailless(env), Erase(w))
    ensures CommitOne(Trailless(env), Erase(w), i) == Erase(CommitOne(env, w, i))
  {
    hide Key;
    hide Falloff;
    var e := Trailless(env);
    var m := MoveAnt(env, w, i);
    BareUpdate(w.ants, i, m.ants[i]);
    assert MoveAnt(e, Erase(w), i) == Erase(m);
    var x := Exchange(env, m, i);
    BareUpdate(m.ants, i, x.ants[i]);
    assert Exchange(e, Erase(m), i) == Erase(x);
    assert MarkCell(e, Erase(x), i) == Erase(MarkCell(env, x, i));
  }

  lemma {:induction false} CommitErased(env: Env, w: World, n: nat)
    requires Ready(env, w) && n <= |w.ants|
    ensures Ready(Trailless(env), Erase(w))
    ensures CommitTo(Trailless(env), Erase(w), n) == Erase(CommitTo(env, w, n))
    decreases n
  {
    hide CommitOne;
    if n > 0 {
      CommitErased(env, w, n - 1);
      CommitOneErased(env, CommitTo(env, w, n - 1), n - 1);
    }
  }

  lemma DecayErased(env: Env, w: World)
    requires Shaped(env, w)
    ensures Decay(Trailless(env), Erase(w)) == Erase(Decay(env, w))
  {
    var e := Trailless(env);
    var n := env.w * env.h;
    assert Decayed(e, w.pheroFood, w.depFood, w.nextFood, 0, n) == Decayed(env, w.pheroFood, w.depFood, w.nextFood, 0, n);
    assert Decayed(e, w.pheroHome, w.depHome, w.nextHome, 0, n) == Decayed(env, w.pheroHome, w.depHome, w.nextHome, 0, n);
  }

  lemma OkErased(env: Env, w: World)
    requires Ok(env, w)
    ensures Ok(Trailless(env), Erase(w))
  {
  }

  lemma TickErased(env: Env, w: World)
    requires Ok(env, w)
    ensures Ok(Trailless(env), Erase(w))
    ensures Tick(Trailless(env), Erase(w)) == Erase(Tick(env, w))
  {
    OkErased(env, w);
    var s := Sense(env, w);
    SenseReady(env, w);
    SenseErased(env, w);
    CommitErased(env, s, |s.ants|);
    DecayErased(env, Commit(env, s));
    hide Sense;
    hide CommitTo;
    hide Decay;
    hide Ok;
    hide Trailless;
    assert Commit(Trailless(env), Erase(s)) == Erase(Commit(env, s));
  }

  /** For any number of ticks, the trail-free run is the erased run. */
  lemma {:induction false} RunErased(env: Env, w: World, t: nat)
    requires Ok(env, w)
    ensures Ok(Trailless(env), Erase(w))
    ensures Run(Trailless(env), Erase(w), t) == Erase(Run(env, w, t))
    decreases t
  {
    hide Run;
    hide Tick;
    hide Ok;
    hide Erase;
    hide Trailless;
    OkErased(env, w);
    RunZero(env, w);
    RunZero(Trailless(env), Erase(w));
    if t > 0 {
      RunErased(env, w, t - 1);
      TickErased(env, Run(env, w, t - 1));
      RunStep(env, w, t - 1);
      RunStep(Trailless(env), Erase(w), t - 1);
    }
  }

  lemma BareBytes(a: Ant)
    ensures AntBytes(Bare(a)) == AntBytes(a)
  {
  }

  lemma {:induction false} SummaryErased(ants: seq<Ant>)
    ensures AntsHash(BareAnts(ants)) == AntsHash(ants) && Carrying(BareAnts(ants)) == Carrying(ants)
    decreases |ants|
  {
    hide Hash.HashBytes;
    hide AntBytes;
    if |ants| > 0 {
      var n := |ants| - 1;
      assert BareAnts(ants)[..n] == BareAnts(ants[..n]);
      SummaryErased(ants[..n]);
      BareBytes(ants[n]);
    }
  }

  /** The result does not depend on whether trails are kept. */
  lemma ResultTrailFree(c: Config, rules: Rules, limit: nat)
    requires ValidConfig(c)
    ensures Expected(c, rules.(trail := false), limit) == Expected(c, rules, limit)
  {
    var env, w, t := NewEnv(c, rules), NewWorld(c), TicksRun(c, limit);
    NewWorldOk(c, rules);
    NewWorldOk(c, rules.(trail := false));
    assert Trailless(env) == NewEnv(c, rules.(trail := false));
    assert BareAnts(w.ants) == w.ants;
    RunErased(env, w, t);
    SummaryErased(Run(env, w, t).ants);
  }
}
