/**
 The colony's ants as heap objects, shared by the array and the map engines.
 */
module Ants {
  import opened Words
  import opened Config
  import opened Rng
  import Colony
  import opened Start
  import opened Results
  import Hash

  /** One heap-allocated ant. The source's Home field is never read and is not kept. */
  class AntObject {
    const id: nat
    const rng: Generator
    var hasFood: bool
    var x: int
    var blocked: bool
    var y: int
    var dir: int
    var steps: nat
    var trail: seq<string>

    constructor (id: nat, x: int, y: int, dir: int, rng: Generator)
      ensures this.id == id && this.rng == rng && this.x == x && this.y == y && this.dir == dir
      ensures !hasFood && !blocked && steps == 0 && trail == []
    {
      this.id, this.rng, this.x, this.y, this.dir := id, rng, x, y, dir;
      hasFood, blocked, steps, trail := false, false, 0, [];
    }

    ghost function View(): Colony.Ant
      reads this, rng
    {
      Colony.Ant(id, x, y, dir, hasFood, blocked, steps, trail, rng.s)
    }

    /** The first lines of the commit loop. */
    method MoveTo(env: Colony.Env, n: Colony.Intent)
      modifies this
      ensures View() == Colony.Moved(env, old(View()), n)
    {
      x, y, dir, blocked := n.nx, n.ny, n.dir, n.blocked;
      steps := steps + 1;
      if env.rules.trail {
        trail := trail + [Colony.Key(x, y)];
      }
    }

    /** Picking up or dropping turns the ant around; anchored rules restart its steps. */
    method Switch(env: Colony.Env)
      modifies this
      ensures View() == Colony.Switched(env, old(View()))
    {
      hasFood := !hasFood;
      dir := Colony.Turn(dir, 4);
      if env.rules.anchored {
        steps := 0;
      }
    }
  }

  /** Ants and their generators are pairwise different objects. */
  ghost predicate Distinct(ants: seq<AntObject>) {
    forall i, j :: 0 <= i < j < |ants| ==> ants[i] != ants[j] && ants[i].rng != ants[j].rng
  }

  ghost function Generators(ants: seq<AntObject>): set<Generator> {
    set i | 0 <= i < |ants| :: ants[i].rng
  }

  lemma GeneratorIn(ants: seq<AntObject>, i: nat)
    requires i < |ants|
    ensures ants[i].rng in Generators(ants)
  {
  }

  ghost function Views(ants: seq<AntObject>): (v: seq<Colony.Ant>)
    reads ants, Generators(ants)
    ensures |v| == |ants|
  {
    seq(|ants|, i requires 0 <= i < |ants| reads ants, Generators(ants) => ants[i].View())
  }

  /** The draws of every ant's next t ticks end. */
  ghost predicate AllLive(ants: seq<AntObject>, den: U32, t: nat)
    requires den > 0
    reads Generators(ants)
  {
    forall i :: 0 <= i < |ants| ==> Live(ants[i].rng.s, den, t)
  }

  /** One ant of newWorld: its own generator, then the draw of its heading. */
  method BuildAnt(c: Config, i: nat) returns (a: AntObject)
    ensures fresh(a) && fresh(a.rng) && a.View() == NewAnt(c, i)
  {
    hide AntSeed;
    hide SeedRng;
    hide Draw;
    var rng := new Generator(AntSeed(c.seed, i));
    PowerOfTwoNeverRejects(rng.s);
    var dir := rng.Intn(8);
    a := new AntObject(i, c.nest.x, c.nest.y, dir, rng);
  }

  /** The loop of newWorld that makes the ants. */
  method BuildAnts(c: Config) returns (ants: seq<AntObject>)
    requires ValidConfig(c)
    ensures |ants| == c.antCount && Distinct(ants)
    ensures forall i :: 0 <= i < |ants| ==> fresh(ants[i]) && fresh(ants[i].rng)
    ensures Views(ants) == seq(c.antCount, i requires 0 <= i < c.antCount => NewAnt(c, i))
  {
    hide NewAnt;
    ants := [];
    for i := 0 to c.antCount
      invariant |ants| == i && Distinct(ants)
      invariant forall j :: 0 <= j < |ants| ==> fresh(ants[j]) && fresh(ants[j].rng)
      invariant forall j :: 0 <= j < |ants| ==> ants[j].View() == NewAnt(c, j)
    {
      var a := BuildAnt(c, i);
      ants := ants + [a];
    }
  }

  /** The ants of a new world draw from the streams their seeds name. */
  lemma NewAntsLive(c: Config, limit: nat, ants: seq<AntObject>)
    requires ValidConfig(c) && StreamsLive(c, limit) && Views(ants) == NewWorld(c).ants
    ensures AllLive(ants, c.movement.randomDen, TicksRun(c, limit))
  {
    hide Live;
    hide AntStream;
    forall i | 0 <= i < |ants|
      ensures Live(ants[i].rng.s, c.movement.randomDen, TicksRun(c, limit))
    {
      assert ants[i].View() == Views(ants)[i] == NewAnt(c, i);
      assert ants[i].View().rng == AntStream(c.seed, i);
    }
  }

  method BlankIntents(n: nat) returns (a: array<Colony.Intent>)
    ensures fresh(a) && a.Length == n && a[..] == seq(n, i => Colony.Intent(0, 0, 0, false))
  {
    a := new Colony.Intent[n](i => Colony.Intent(0, 0, 0, false));
  }

  /** The ant at index i moves; the others are untouched. */
  method MoveAnt(ants: seq<AntObject>, i: nat, env: Colony.Env, n: Colony.Intent)
    requires Distinct(ants) && i < |ants|
    modifies ants[i]
    ensures Views(ants) == old(Views(ants))[i := Colony.Moved(env, old(Views(ants))[i], n)]
  {
    ghost var v := Views(ants);
    assert ants[i].View() == v[i];
    ants[i].MoveTo(env, n);
    assert ants[i].View() == Colony.Moved(env, v[i], n);
    hide Colony.Moved;
  }

  /** The ant at index i picks up or drops; the others are untouched. */
  method SwitchAnt(ants: seq<AntObject>, i: nat, env: Colony.Env)
    requires Distinct(ants) && i < |ants|
    modifies ants[i]
    ensures Views(ants) == old(Views(ants))[i := Colony.Switched(env, old(Views(ants))[i])]
  {
    ghost var v := Views(ants);
    assert ants[i].View() == v[i];
    ants[i].Switch(env);
    assert ants[i].View() == Colony.Switched(env, v[i]);
    hide Colony.Switched;
  }

  /** The ant loop of result(): count the carriers and fold every ant, in order. */
  method SummariseAnts(ants: seq<AntObject>, ghost v: seq<Colony.Ant>) returns (carrying: Int32, ah: Word)
    requires |v| == |ants| && forall i :: 0 <= i < |ants| ==> ants[i].View() == v[i]
    ensures carrying == Wrapped32(Carrying(v)) && ah == AntsHash(v)
  {
    hide Summarised;
    hide Hash.HashBytes;
    hide AntBytes;
    hide Wrapped32;
    hide Carrying;
    hide AntsHash;
    carrying, ah := 0, Hash.OFFSET;
    SummarisedEmpty(v);
    for i := 0 to |ants|
      invariant Summarised(v, i, carrying, ah)
    {
      SummarisedPush(v, i, carrying, ah);
      var a := ants[i];
      assert a.View() == v[i];
      if a.hasFood {
        carrying := Wrapped32(carrying + 1);
      }
      ah := HashAnt(ah, a.id, a.x, a.y, a.dir, a.hasFood, v[i]);
    }
    SummarisedAll(v, carrying, ah);
  }
}
