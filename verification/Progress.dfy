/**
 What the shared memory looks like while the workers are part-way through a
 phase, whatever the order in which they advance.
 */
module Progress {
  import opened Colony
  import opened Partition

  /** rows * width units of work split over n workers by whole rows. */
  datatype Split = Split(n: nat, rows: nat, width: nat)

  function Lo(sp: Split, k: nat): nat
    requires sp.n > 0
  {
    Bound(k, sp.n, sp.rows, sp.width)
  }

  predicate Mine(sp: Split, k: nat, i: nat)
    requires sp.n > 0
  {
    k < sp.n && Owns(k, i, sp.n, sp.rows, sp.width)
  }

  lemma MineRange(sp: Split, k: nat, i: nat)
    requires sp.n > 0 && k < sp.n
    ensures Mine(sp, k, i) <==> Lo(sp, k) <= i < Lo(sp, k + 1)
    ensures Lo(sp, k) <= Lo(sp, k + 1) <= sp.rows * sp.width
  {
    BoundMonotone(k, k + 1, sp.n, sp.rows, sp.width);
    BoundMonotone(k + 1, sp.n, sp.n, sp.rows, sp.width);
    BoundEnds(sp.n, sp.rows, sp.width);
  }

  lemma MineUnique(sp: Split, j: nat, k: nat, i: nat)
    requires sp.n > 0 && Mine(sp, j, i) && Mine(sp, k, i)
    ensures j == k
  {
    OwnerUnique(i, j, k, sp.n, sp.rows, sp.width);
  }

  lemma MineSome(sp: Split, i: nat) returns (k: nat)
    requires sp.n > 0 && i < sp.rows * sp.width
    ensures Mine(sp, k, i)
  {
    BoundEnds(sp.n, sp.rows, sp.width);
    k := Owner(i, sp.n, sp.n, sp.rows, sp.width);
  }

  // Sensing.

  /** Ant i has been sensed in mem, or is as it was in w. */
  ghost predicate SensedAt(env: Env, w: World, mem: World, i: nat, done: bool)
    requires Shaped(env, w) && Faced(w)
  {
    i < |w.ants| && |mem.ants| == |mem.intents| == |w.ants| &&
    mem.ants[i] == (if done then SensedAnt(env, w.ants[i]) else w.ants[i]) &&
    mem.intents[i] == (if done then SensedIntent(env, w, w.ants[i]) else w.intents[i])
  }

  /** Worker k has sensed the first pos[k] ants of its range; nothing else has changed since w. */
  ghost predicate Sensing(env: Env, sp: Split, w: World, pos: seq<nat>, mem: World) {
    && Shaped(env, w) && Faced(w) && sp.n > 0 && |pos| == sp.n && sp.rows * sp.width == |w.ants|
    && |mem.ants| == |mem.intents| == |w.ants|
    && mem == w.(ants := mem.ants, intents := mem.intents)
    && forall k: nat, i: nat :: Mine(sp, k, i) ==> SensedAt(env, w, mem, i, i < Lo(sp, k) + pos[k])
  }

  lemma SensingStart(env: Env, sp: Split, w: World, pos: seq<nat>)
    requires Shaped(env, w) && Faced(w) && sp.n > 0 && |pos| == sp.n && sp.rows * sp.width == |w.ants|
    requires forall k :: 0 <= k < sp.n ==> pos[k] == 0
    ensures Sensing(env, sp, w, pos, w)
  {
    forall k: nat, i: nat | Mine(sp, k, i)
      ensures SensedAt(env, w, w, i, i < Lo(sp, k) + pos[k])
    {
      MineRange(sp, k, i);
    }
  }

  lemma SensingReady(env: Env, sp: Split, w: World, pos: seq<nat>, mem: World, k: nat)
    requires Sensing(env, sp, w, pos, mem) && k < sp.n && Lo(sp, k) + pos[k] < Lo(sp, k + 1)
    ensures Shaped(env, mem) && Lo(sp, k) + pos[k] < |mem.ants|
    ensures mem.ants[Lo(sp, k) + pos[k]] == w.ants[Lo(sp, k) + pos[k]]
    ensures Heading(mem.ants[Lo(sp, k) + pos[k]].dir)
  {
    hide SensedAnt;
    hide SensedIntent;
    var i := Lo(sp, k) + pos[k];
    MineRange(sp, k, i);
    assert SensedAt(env, w, mem, i, i < Lo(sp, k) + pos[k]);
  }

  lemma SensingStep(env: Env, sp: Split, w: World, pos: seq<nat>, mem: World, k: nat)
    requires Sensing(env, sp, w, pos, mem) && k < sp.n && Lo(sp, k) + pos[k] < Lo(sp, k + 1)
    requires Shaped(env, mem) && Lo(sp, k) + pos[k] < |mem.ants| && Heading(mem.ants[Lo(sp, k) + pos[k]].dir)
    ensures Sensing(env, sp, w, pos[k := pos[k] + 1], SenseItem(env, mem, Lo(sp, k) + pos[k]))
  {
    var i := Lo(sp, k) + pos[k];
    SensingReady(env, sp, w, pos, mem, k);
    MineRange(sp, k, i);
    SensedItem(env, w, mem, i);
    hide SensedAnt;
    hide SensedIntent;
    hide SenseItem;
    hide SensedAt;
    hide Mine;
    hide Lo;
    var mem', pos' := SenseItem(env, mem, i), pos[k := pos[k] + 1];
    forall j: nat, c: nat | Mine(sp, j, c)
      ensures SensedAt(env, w, mem', c, c < Lo(sp, j) + pos'[j])
    {
      if c == i {
        MineUnique(sp, j, k, i);
        SensedHere(env, w, mem, mem', i);
      } else {
        SensedElsewhere(env, w, mem, mem', i, c, c < Lo(sp, j) + pos[j]);
      }
    }
  }

  lemma SensedHere(env: Env, w: World, mem: World, mem': World, i: nat)
    requires Shaped(env, w) && Faced(w) && i < |mem.ants| == |mem.intents| == |w.ants|
    requires mem' == mem.(ants := mem.ants[i := SensedAnt(env, w.ants[i])],
                          intents := mem.intents[i := SensedIntent(env, w, w.ants[i])])
    ensures SensedAt(env, w, mem', i, true)
  {
    hide SensedAnt;
    hide SensedIntent;
  }

  lemma SensedElsewhere(env: Env, w: World, mem: World, mem': World, i: nat, c: nat, done: bool)
    requires Shaped(env, w) && Faced(w) && i < |mem.ants| == |mem.intents| == |w.ants| && c != i
    requires mem' == mem.(ants := mem.ants[i := SensedAnt(env, w.ants[i])],
                          intents := mem.intents[i := SensedIntent(env, w, w.ants[i])])
    requires SensedAt(env, w, mem, c, done)
    ensures SensedAt(env, w, mem', c, done)
  {
    hide SensedAnt;
    hide SensedIntent;
  }

  /** When every worker has finished, the whole phase has been performed, as the serial loop does it. */
  lemma SensingEnd(env: Env, sp: Split, w: World, pos: seq<nat>, mem: World)
    requires Sensing(env, sp, w, pos, mem)
    requires forall k :: 0 <= k < sp.n ==> pos[k] == Lo(sp, k + 1) - Lo(sp, k)
    ensures mem == Sense(env, w)
  {
    hide SensedAnt;
    hide SensedIntent;
    forall i | 0 <= i < |w.ants|
      ensures mem.ants[i] == Sense(env, w).ants[i] && mem.intents[i] == Sense(env, w).intents[i]
    {
      var k := MineSome(sp, i);
      MineRange(sp, k, i);
      assert SensedAt(env, w, mem, i, i < Lo(sp, k) + pos[k]);
    }
    assert mem.ants == Sense(env, w).ants && mem.intents == Sense(env, w).intents;
  }

  /** A worker's loop on its own: n items from ant lo on. */
  ghost function SenseItems(env: Env, w: World, lo: nat, n: nat): (r: World)
    requires Shaped(env, w) && Faced(w) && lo + n <= |w.ants|
    ensures Shaped(env, r) && Faced(r) && |r.ants| == |w.ants|
    decreases n
  {
    if n == 0 then w
    else
      var v := SenseItems(env, w, lo, n - 1);
      ItemFaced(env, v, lo + n - 1);
      SenseItem(env, v, lo + n - 1)
  }

  lemma ItemFaced(env: Env, v: World, i: nat)
    requires Shaped(env, v) && Faced(v) && i < |v.ants|
    ensures Faced(SenseItem(env, v, i))
  {
    hide SensedIntent;
  }

  /** That loop is senseRange on the ants [lo, lo + n). */
  lemma {:induction false} SenseItemsAreRange(env: Env, w: World, lo: nat, n: nat)
    requires Shaped(env, w) && Faced(w) && lo + n <= |w.ants|
    ensures SenseItems(env, w, lo, n) == SenseRange(env, w, lo, lo + n)
    decreases n
  {
    hide Shaped;
    hide SenseItem;
    hide SenseRange;
    if n == 0 {
      EmptyRange(env, w, lo);
    } else {
      SenseItemsAreRange(env, w, lo, n - 1);
      RangeExtends(env, w, SenseItems(env, w, lo, n - 1), lo, lo + n - 1);
    }
  }

  // Decaying: each worker goes through its cells of the food grid, then of the home grid.

  function Size(sp: Split, k: nat): nat
    requires sp.n > 0 && k < sp.n
  {
    MineRange(sp, k, 0);
    Lo(sp, k + 1) - Lo(sp, k)
  }

  /** One iteration of decayRows by worker k. */
  function DecayItem(env: Env, sp: Split, mem: World, k: nat, item: nat): (r: World)
    requires Shaped(env, mem) && sp.n > 0 && k < sp.n && sp.rows * sp.width == env.w * env.h && item < 2 * Size(sp, k)
    ensures Shaped(env, r) && r.ants == mem.ants
  {
    MineRange(sp, k, 0);
    if item < Size(sp, k) then
      var c := Lo(sp, k) + item;
      mem.(nextFood := mem.nextFood[c := Written(env, mem.pheroFood, mem.depFood, mem.nextFood, c)])
    else
      var c := Lo(sp, k) + item - Size(sp, k);
      mem.(nextHome := mem.nextHome[c := Written(env, mem.pheroHome, mem.depHome, mem.nextHome, c)])
  }

  ghost predicate DecayedAt(env: Env, w: World, mem: World, c: nat, food: bool, home: bool)
    requires Shaped(env, w)
  {
    c < |w.nextFood| && |mem.nextFood| == |mem.nextHome| == |w.nextFood| &&
    mem.nextFood[c] == (if food then Written(env, w.pheroFood, w.depFood, w.nextFood, c) else w.nextFood[c]) &&
    mem.nextHome[c] == (if home then Written(env, w.pheroHome, w.depHome, w.nextHome, c) else w.nextHome[c])
  }

  ghost predicate Decaying(env: Env, sp: Split, w: World, pos: seq<nat>, mem: World) {
    && Shaped(env, w) && sp.n > 0 && |pos| == sp.n && sp.rows * sp.width == env.w * env.h
    && |mem.nextFood| == |mem.nextHome| == |w.nextFood|
    && mem == w.(nextFood := mem.nextFood, nextHome := mem.nextHome)
    && forall k: nat, c: nat :: Mine(sp, k, c) ==>
         DecayedAt(env, w, mem, c, c < Lo(sp, k) + pos[k], c + Size(sp, k) < Lo(sp, k) + pos[k])
  }

  lemma DecayingStart(env: Env, sp: Split, w: World, pos: seq<nat>)
    requires Shaped(env, w) && sp.n > 0 && |pos| == sp.n && sp.rows * sp.width == env.w * env.h
    requires forall k :: 0 <= k < sp.n ==> pos[k] == 0
    ensures Decaying(env, sp, w, pos, w)
  {
    hide Written;
    forall k: nat, c: nat | Mine(sp, k, c)
      ensures DecayedAt(env, w, w, c, c < Lo(sp, k) + pos[k], c + Size(sp, k) < Lo(sp, k) + pos[k])
    {
      MineRange(sp, k, c);
    }
  }

  lemma DecayingStep(env: Env, sp: Split, w: World, pos: seq<nat>, mem: World, k: nat)
    requires Decaying(env, sp, w, pos, mem) && k < sp.n && pos[k] < 2 * Size(sp, k)
    ensures Shaped(env, mem)
    ensures Decaying(env, sp, w, pos[k := pos[k] + 1], DecayItem(env, sp, mem, k, pos[k]))
  {
    MineRange(sp, k, 0);
    var m := Size(sp, k);
    var i := if pos[k] < m then Lo(sp, k) + pos[k] else Lo(sp, k) + pos[k] - m;
    MineRange(sp, k, i);
    var mem', pos' := DecayItem(env, sp, mem, k, pos[k]), pos[k := pos[k] + 1];
    assert DecayedAt(env, w, mem, i, i < Lo(sp, k) + pos[k], i + Size(sp, k) < Lo(sp, k) + pos[k]);
    ItemTarget(env, sp, w, mem, k, pos[k], i);
    hide NewLevel;
    hide Written;
    hide Mine;
    hide Lo;
    hide DecayItem;
    forall j: nat, c: nat | Mine(sp, j, c)
      ensures DecayedAt(env, w, mem', c, c < Lo(sp, j) + pos'[j], c + Size(sp, j) < Lo(sp, j) + pos'[j])
    {
      MineRange(sp, j, c);
      assert DecayedAt(env, w, mem, c, c < Lo(sp, j) + pos[j], c + Size(sp, j) < Lo(sp, j) + pos[j]);
      if c == i {
        MineUnique(sp, j, k, i);
      }
    }
  }

  /** One item writes one cell of one grid, with the value the old grids determine. */
  lemma ItemTarget(env: Env, sp: Split, w: World, mem: World, k: nat, item: nat, i: nat)
    requires Shaped(env, w) && Shaped(env, mem) && sp.n > 0 && k < sp.n && sp.rows * sp.width == env.w * env.h
    requires mem == w.(nextFood := mem.nextFood, nextHome := mem.nextHome)
    requires item < 2 * Size(sp, k) && i < |w.nextFood|
    requires i == if item < Size(sp, k) then Lo(sp, k) + item else Lo(sp, k) + item - Size(sp, k)
    requires item < Size(sp, k) ==> mem.nextFood[i] == w.nextFood[i]
    requires item >= Size(sp, k) ==> mem.nextHome[i] == w.nextHome[i]
    ensures DecayItem(env, sp, mem, k, item) ==
      if item < Size(sp, k) then mem.(nextFood := mem.nextFood[i := Written(env, w.pheroFood, w.depFood, w.nextFood, i)])
      else mem.(nextHome := mem.nextHome[i := Written(env, w.pheroHome, w.depHome, w.nextHome, i)])
  {
    hide NewLevel;
  }

  lemma DecayingEnd(env: Env, sp: Split, w: World, pos: seq<nat>, mem: World)
    requires Decaying(env, sp, w, pos, mem)
    requires forall k :: 0 <= k < sp.n ==> pos[k] == 2 * Size(sp, k)
    ensures mem == DecayCells(env, w, 0, env.w * env.h)
  {
    hide Written;
    var r := DecayCells(env, w, 0, env.w * env.h);
    forall c | 0 <= c < |w.nextFood|
      ensures mem.nextFood[c] == r.nextFood[c] && mem.nextHome[c] == r.nextHome[c]
    {
      var k := MineSome(sp, c);
      MineRange(sp, k, c);
      assert DecayedAt(env, w, mem, c, c < Lo(sp, k) + pos[k], c + Size(sp, k) < Lo(sp, k) + pos[k]);
    }
    assert mem.nextFood == r.nextFood && mem.nextHome == r.nextHome;
  }

  /** Both grids, decayed from worker k's first cell up to f and up to h. */
  function DecayedTo(env: Env, w: World, lo: nat, f: nat, h: nat): (r: World)
    requires Shaped(env, w)
    ensures Shaped(env, r)
  {
    w.(nextFood := Decayed(env, w.pheroFood, w.depFood, w.nextFood, lo, f),
       nextHome := Decayed(env, w.pheroHome, w.depHome, w.nextHome, lo, h))
  }

  /** A worker's loop on its own, item by item: the food grid, then the home grid. */
  function DecayItems(env: Env, sp: Split, w: World, k: nat, n: nat): (r: World)
    requires Shaped(env, w) && sp.n > 0 && k < sp.n && sp.rows * sp.width == env.w * env.h && n <= 2 * Size(sp, k)
    ensures Shaped(env, r)
    decreases n
  {
    if n == 0 then w else DecayItem(env, sp, DecayItems(env, sp, w, k, n - 1), k, n - 1)
  }

  /** How far both grids have got after n items. */
  function DecayedAfter(env: Env, sp: Split, w: World, k: nat, n: nat): (r: World)
    requires Shaped(env, w) && sp.n > 0 && k < sp.n
    ensures Shaped(env, r)
  {
    if n < Size(sp, k) then DecayedTo(env, w, Lo(sp, k), Lo(sp, k) + n, Lo(sp, k))
    else DecayedTo(env, w, Lo(sp, k), Lo(sp, k + 1), Lo(sp, k) + n - Size(sp, k))
  }

  lemma {:induction false} DecayItemsReach(env: Env, sp: Split, w: World, k: nat, n: nat)
    requires Shaped(env, w) && sp.n > 0 && k < sp.n && sp.rows * sp.width == env.w * env.h && n <= 2 * Size(sp, k)
    ensures DecayItems(env, sp, w, k, n) == DecayedAfter(env, sp, w, k, n)
    decreases n
  {
    hide Shaped;
    hide DecayItem;
    hide DecayedTo;
    hide Lo;
    if n == 0 {
      NothingDecayed(env, w, Lo(sp, k));
      SizeIs(sp, k);
    } else {
      DecayItemsReach(env, sp, w, k, n - 1);
      ItemExtends(env, sp, w, DecayItems(env, sp, w, k, n - 1), k, n - 1);
      SizeIs(sp, k);
    }
  }

  /** The whole loop is decayRows on the worker's rows. */
  lemma DecayItemsAreRows(env: Env, sp: Split, w: World, k: nat)
    requires Shaped(env, w) && sp.n > 0 && k < sp.n && sp.rows * sp.width == env.w * env.h
    ensures DecayItems(env, sp, w, k, 2 * Size(sp, k)) == DecayCells(env, w, Lo(sp, k), Lo(sp, k + 1))
  {
    DecayItemsReach(env, sp, w, k, 2 * Size(sp, k));
    SizeIs(sp, k);
    BothDecayed(env, w, Lo(sp, k), Lo(sp, k + 1));
    hide Shaped;
    hide DecayedTo;
    hide DecayCells;
    hide Lo;
    hide DecayItems;
  }

  lemma SizeIs(sp: Split, k: nat)
    requires sp.n > 0 && k < sp.n
    ensures Lo(sp, k) + Size(sp, k) == Lo(sp, k + 1)
  {
  }

  lemma BothDecayed(env: Env, w: World, lo: nat, hi: nat)
    requires Shaped(env, w)
    ensures DecayedTo(env, w, lo, hi, hi) == DecayCells(env, w, lo, hi)
  {
  }

  lemma NothingDecayed(env: Env, w: World, lo: nat)
    requires Shaped(env, w)
    ensures DecayedTo(env, w, lo, lo, lo) == w
  {
    hide Written;
    assert Decayed(env, w.pheroFood, w.depFood, w.nextFood, lo, lo) == w.nextFood;
    assert Decayed(env, w.pheroHome, w.depHome, w.nextHome, lo, lo) == w.nextHome;
  }

  lemma ItemExtends(env: Env, sp: Split, w: World, v: World, k: nat, item: nat)
    requires Shaped(env, w) && Shaped(env, v) && sp.n > 0 && k < sp.n && sp.rows * sp.width == env.w * env.h
    requires item < 2 * Size(sp, k)
    requires v == if item < Size(sp, k) then DecayedTo(env, w, Lo(sp, k), Lo(sp, k) + item, Lo(sp, k))
                  else DecayedTo(env, w, Lo(sp, k), Lo(sp, k + 1), Lo(sp, k) + item - Size(sp, k))
    ensures DecayItem(env, sp, v, k, item) ==
      if item < Size(sp, k) then DecayedTo(env, w, Lo(sp, k), Lo(sp, k) + item + 1, Lo(sp, k))
      else DecayedTo(env, w, Lo(sp, k), Lo(sp, k + 1), Lo(sp, k) + item + 1 - Size(sp, k))
  {
    MineRange(sp, k, 0);
    hide Lo;
    hide Written;
    hide Decayed;
    var lo := Lo(sp, k);
    if item < Size(sp, k) {
      DecayedStep(env, w.pheroFood, w.depFood, w.nextFood, v.nextFood, lo, lo + item);
    } else {
      DecayedStep(env, w.pheroHome, w.depHome, w.nextHome, v.nextHome, lo, lo + item - Size(sp, k));
    }
  }
}
