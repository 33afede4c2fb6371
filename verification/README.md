# Ant-colony engines: verified model

The repository simulates an ant colony on a grid, several times over. `naive` keeps every grid in a
map keyed by the string "x,y"; `flatgrid` keeps it in an array addressed by `y*W+x`; `parallel` runs
two of the three phases of a tick on a pool of workers; `nogc` drops a history nobody reads; `gradient`
and `scent` change how much an ant deposits and what a searching ant smells. The whole point of the
repository is that the faster engines compute exactly what the slow one computes. Its tests compare
checksums on a few scenarios; this project proves the claim for every valid config, every number of
ticks, every worker count and every schedule, together with what the simulation itself promises. For the
two imperative engines it presumes that the draws of the ticks performed end, without which the program
itself would not return.

How the files fit together:

- `Words`, `Config`, `Rng`, `Lemire`, `Rejected`, `Stencil`, `Orders`, `Grid`, `Mass`, `Gains`, `Hash`:
  machine words, validation, the generator, bounded draws, a seed with a rejected draw, one cell of decay,
  evaporating before or after spreading, whole fields, conservation of mass, where rounding creates it, and
  hashing.
- `Colony`, `Start`, `Results`, `Reports`: one tick as a function from worlds to worlds (`Tick`), the initial
  world, the reported result and what its numbers and hashes stand for. `Rules` says which engine's simulation is meant: with or without trails,
  with or without anchored deposits, with or without smell.
- `Ants`, `Flat`, `Keys`, `Naive`: the imperative engines. `FlatWorld` is a class over heap arrays and
  ant objects (flatgrid, the serial parts and the worker ranges of parallel and nogc, and scent);
  `NaiveWorld` is a class over maps (naive and gradient). Every method states its new state as a
  function of the old one, through the same abstract `World`, so the two classes are coupled cell by
  cell.
- `Partition`, `Progress`, `Pool`, `Schedule`: the worker pool as a step machine. A step is one send,
  one ant sensed, one cell written, one `Done`, the wake-up, one ant committed, the swap, the clear, or
  a step of shutting down. Any enabled step may come next.
- `Trail`, `Engines`: erasing trails changes nothing, and the engines agree.
- `Choices`, `Marks`, `Commits`, `Conservation`, `Streams`, `Fields`, `Ticks`, `Freedom`, `Geodesic`: where an ant
  goes, what it leaves behind, and what holds over runs.
- `Literals`, `Seeds`, `Golden`: particular values. The seeds and headings of two ants of one config, and the
  two hashes recorded for the scenario "tiny", which the definitions yield.

Three comments in the repository claim more than the code does; each has its exact condition here, the first
two over the levels a grid can hold, the third over all non-zero generator states, with an input of the
program that shows the failure.

- `internal/engine/naive/tick.go:212-214` says scaling after spreading equals spreading after scaling. On the
  uint64 arithmetic of the code, and for all levels up to 2*Max, that holds exactly when no such level is
  large enough to spread, when all of them fade away, or when nothing evaporates and wrapping does no harm
  (`Orders.OrdersCommuteExactly`; the same condition decides whether the stored cells agree). As long as
  2*Max*DiffNum fits 64 bits the last case is that 2*Max*EvapNum fits too (`Orders.OrdersCommuteSimply`).
  With the parameters of the bundled scenarios it fails at a level of 1 between four of 9
  (`Orders.ScenarioOrders`). On unbounded integers the condition is simpler (`Stencil.CommutesExactly`), and
  not sufficient for the code (`Orders.NoFadeDoesNotCommute`).
- `docs/journal/02-correction-blocked.md:60-62` calls the stencil conservative. On every grid it keeps the
  total of every field exactly when 2*Max*DiffNum < DiffDen, that is, when it moves nothing at all
  (`Mass.ConservesExactlyWhenStill`; `Mass.ConservesAnyLevelExactlyWithoutRate` for unbounded levels). A corner
  that moves loses mass, and rounding can also create it (`Mass.SomeFieldGains`; exactly when, on all but small
  grids, is `Gains.GainsExactly`), but never as much as one unit per cell, even when products wrap
  (`Grid.Mass64Bound`). The bundled scenarios do both (`Mass.ScenarioMass`).
- `internal/engine/naive/tick.go:46-54` says exactly two draws are consumed per ant and tick. That is two
  calls of `Intn`. A call is sure to consume one word exactly when its bound divides 2^32
  (`Rng.FirstWordKeptExactlyForDivisors`); 3 does not, so whatever RandomDen is some state makes a tick
  consume a third word (`Rng.TwoWordsNeverGuaranteed`), and a tick consumes two exactly when its first word
  passes RandomDen's threshold and its second is not zero (`Rng.TwoWordsExactly`). With Seed 87650048 and the
  bundled RandomDen of 100, ant 0 consumes three words in the first tick (`Rejected.UnluckyTick`). What
  the comment concludes still holds: the position in the stream is a function of the seed, the ant and the tick alone
  (`Streams.StreamsDoNotInterfere`).

`Validate` adds Go ints, so a wall whose far edge wraps past 2^63 passes it; such a wall covers no cell in
any engine, and every theorem below includes it (`Config.Plus`, `Start.RectFilled`). Amounts of food wrap in
the same way, already in newWorld: two piles of 2^63-1 on one cell leave it at -2
(`Conservation.OverflowingPiles`). The books balance modulo 2^64 on every config, and exactly if and only if
the config places fewer than 2^63 units (`Conservation.FoodExactlyConserved`).

`Validate` bounds neither `Max*DiffNum` nor `Max*EvapNum`, so decay is modelled on uint64 with
wrap-around. `Stencil.NoWrapExactlyWhenFits` says for which parameters no product can wrap, and
`Stencil.WrappingChangesLevels` gives parameters and a level where wrapping changes the result. The maximum
principle and the mass bound hold whether products wrap or not; `Gains.WrappingCreatesMass` gives parameters
under which wrapping creates mass that unbounded integers never would.

## Model

| member | source | states |
|---|---|---|
| Schedule.EveryScheduleIsSerial | internal/engine/parallel/pool.go:27-71 | Whatever the worker count, a schedule that cannot be continued has shut the pool down, left exactly the world of the serial run, and taken a number of steps that depends on the config only. |
| Schedule.TickBoundaryIsSerial | internal/engine/parallel/tick.go:5-25 | Between any two ticks of any schedule, ants, generator states, all grids and counters are those of the serial engine. |
| Schedule.ReachableInvariant | internal/engine/parallel/pool.go:41-64 | Every state any schedule reaches satisfies the pool's invariant, and steps taken plus steps left is constant. |
| Pool.StepKeepsInvariant | internal/engine/parallel/pool.go:41-71 | Each of the coordinator's and workers' steps keeps the invariant: the counter equals unsent phases plus busy workers, and the memory is exactly what each worker's progress says. |
| Schedule.BarrierHolds | internal/engine/parallel/pool.go:56-64 | In every reachable state the WaitGroup counter is exact, and outside a phase no worker is inside the world, so commit, swap and clear run alone. |
| Schedule.NeverStuck | internal/engine/parallel/pool.go:41-71 | No deadlock: in every state that satisfies the invariant some step is enabled, except when every worker has left. |
| Schedule.FinalIsStuck | internal/engine/parallel/pool.go:66-71 | Once every worker has left no step is enabled, so a run that has stopped stays stopped. |
| Schedule.StepCounts | internal/engine/parallel/pool.go:41-71 | Every step of every schedule lowers the remaining work (unsent phases, unfinished items, pending Dones, later ticks) by exactly one. |
| Schedule.SchedulesAreFinite | internal/engine/parallel/pool.go:56-64 | No schedule is longer than the fixed length of a run, so every phase ends. |
| Schedule.WorkersCommute | internal/engine/parallel/tick.go:15-25 | Items of two different workers can be performed in either order, with the same state afterwards. |
| Schedule.MemoryIsAFunctionOfPositions | internal/engine/parallel/tick.go:173-197 | Part-way through a phase the memory depends on how far each worker is, never on the order in which they got there. |
| Schedule.FreshPhase | internal/engine/parallel/pool.go:73-77 | The items of all workers add up to the whole phase, for any worker count. |
| Pool.ZeroMeansIdle | internal/engine/parallel/pool.go:56-64 | When the counter is zero no worker is busy, which is what Wait relies on. |
| Partition.ExactPartition | internal/engine/parallel/pool.go:73-77 | The ranges tile all ants, and all cells row by row: every unit has one owner and no unit has two. |
| Partition.SpanEnds | internal/engine/parallel/pool.go:73-77 | The first range starts at 0 and the last ends at the total. |
| Partition.PoolSize | internal/engine/parallel/pool.go:27-33 | The worker count is at least one, never more than the rows, and the requested one when that is in range. |
| Partition.SpanFair | internal/engine/parallel/pool.go:73-77 | Every worker gets the quotient of the items by the workers, and at most one item more. |
| Progress.SensingStep | internal/engine/parallel/tick.go:19-25 | Sensing one more ant of one worker's range keeps the description of the half-finished phase, whatever the others have done. |
| Progress.SensingEnd | internal/engine/parallel/tick.go:15-25 | When every worker has finished its ants, the memory is what the serial sense loop leaves. |
| Progress.DecayingStep | internal/engine/parallel/tick.go:161-197 | Writing one more cell keeps the description of the half-finished phase: the value depends on the old grids only. |
| Progress.DecayingEnd | internal/engine/parallel/tick.go:145-166 | When every worker has finished its rows, both write buffers are what the serial loop leaves. |
| Progress.SenseItemsAreRange | internal/engine/parallel/tick.go:21-25 | A worker's items, one ant at a time, amount to senseRange on its whole range. |
| Progress.DecayItemsAreRows | internal/engine/parallel/tick.go:161-166 | A worker's items, cell by cell over the food grid and then the home grid, amount to decayRows on its rows. |
| Engines.NaiveAgreesWithFlat | internal/simcore/result.go:49-64 | On every valid config and any early stop, if the draws of the ticks performed end, the map engine and the array engine return DeterministicEqual results, both those of the specification. |
| Engines.ParallelAgrees | internal/engine/parallel/parallel.go:182-222 | For every GOMAXPROCS and every complete schedule, the pooled engine's final world reports exactly what the serial engine reports. |
| Engines.NogcAgrees | internal/engine/nogc/nogc.go:167-207 | The pooled engine without trails reports exactly what the engines with trails report. |
| Trail.RunErased | internal/engine/nogc/tick.go:98-129 | For any number of ticks, running without trails equals running with them and erasing them afterwards. |
| Trail.ResultTrailFree | internal/engine/nogc/output.go:7-48 | The expected result does not depend on whether trails are kept. |
| Keys.KeyParse | internal/engine/naive/naive.go:105-105 | Decimal print and parse round trip: every key gives back its two coordinates, negative ones included. |
| Keys.KeyInjective | internal/engine/naive/naive.go:102-105 | Two different cells never share a map key. |
| Keys.KeysPrinted | internal/engine/naive/naive.go:105-105 | Two keys, character by character. |
| Keys.GridWrite | internal/engine/naive/naive.go:82-95 | Storing under one key changes exactly one cell of the grid the map stands for. |
| Grid.IdxRoundTrip | internal/engine/flatgrid/flatgrid.go:91-93 | An address is on the grid and gives back its column and row. |
| Grid.IdxCovers | internal/engine/flatgrid/flatgrid.go:91-93 | Every address belongs to a cell of the grid. |
| Flat.FlatWorld.constructor | internal/engine/flatgrid/flatgrid.go:110-163 | newWorld on arrays establishes the initial world, with pairwise distinct fresh grids. |
| Flat.FlatWorld.ChooseMove | internal/engine/flatgrid/tick.go:21-60 | Two draws, then the move the specification decides on the current grids. |
| Flat.FlatWorld.NearestPile | internal/engine/scent/tick.go:104-127 | The loop over the piles returns the value of the scan that `Ticks.NearestIsFirst` characterises. |
| Flat.FlatWorld.SenseAnts | internal/engine/parallel/tick.go:19-25 | The ants of a range get exactly their intents and advance exactly their generators; nothing else changes. |
| Flat.FlatWorld.CommitAnt | internal/engine/flatgrid/tick.go:94-127 | One iteration moves the ant, exchanges food and marks the cell, in that order, on the heap. |
| Flat.FlatWorld.CommitAll | internal/engine/flatgrid/tick.go:94-127 | The serial loop commits all ants in ascending order. |
| Flat.FlatWorld.DecayGrid | internal/engine/parallel/tick.go:168-197 | A band of rows of one grid gets the stencil of the old grid, with the write skipped at zero; every other cell is untouched. |
| Flat.FlatWorld.DecayRows | internal/engine/parallel/tick.go:161-166 | A band of rows of both grids, and nothing else. |
| Flat.FlatWorld.DecayAll | internal/engine/flatgrid/tick.go:139-154 | Decay, swap and clear: the six buffers are the same six distinct arrays afterwards. |
| Flat.FlatWorld.TickOnce | internal/engine/flatgrid/tick.go:7-11 | One tick on arrays, whose own draws end, is the specification's tick, and leaves ants on open cells and all scratch buffers clean. |
| Flat.FlatWorld.RunTicks | internal/engine/flatgrid/flatgrid.go:166-201 | The loop performs the configured number of ticks, or fewer when stopped, and ends in the specification's world, if the draws of those ticks end. |
| Flat.FlatWorld.Summary | internal/engine/flatgrid/output.go:7-48 | result() on arrays reports the counters, ordered folds and checksum of the world. |
| Flat.RunFlat | internal/engine/flatgrid/flatgrid.go:166-201 | A whole run on arrays returns the specification's result, if the draws of the ticks it performs end. |
| Naive.NaiveWorld.constructor | internal/engine/naive/naive.go:116-174 | newWorld on maps establishes the same initial world. |
| Naive.NaiveWorld.ChooseMove | internal/engine/naive/tick.go:30-93 | Two draws, then the move the specification decides on the grids the maps stand for. |
| Naive.NaiveWorld.CommitAnt | internal/engine/naive/tick.go:127-162 | One commit iteration on maps is the specification's. |
| Naive.NaiveWorld.DecayAll | internal/engine/naive/tick.go:172-237 | Decay on maps, with absent keys read as zero and zeros not stored, is the specification's. |
| Naive.NaiveWorld.TickOnce | internal/engine/naive/tick.go:16-20 | One tick on maps, whose own draws end, is the specification's tick, cell by cell. |
| Naive.RunNaive | internal/engine/naive/naive.go:181-216 | A whole run on maps returns the specification's result, if the draws of the ticks it performs end. |
| Ants.BuildAnts | internal/engine/naive/naive.go:155-172 | The ants are distinct objects on the nest, each with its own generator and a drawn heading. |
| Ants.SummariseAnts | internal/engine/naive/output.go:11-26 | The loop counts the carriers and folds every ant in ascending order. |
| Colony.Tick | internal/engine/naive/tick.go:5-20 | A tick that starts with ants on open cells and clean scratch buffers ends that way. |
| Colony.DecideOk | internal/engine/naive/tick.go:65-101 | Every decision, greedy or wandering, names an open cell and a heading. |
| Choices.RunChoice | internal/engine/naive/tick.go:30-93 | In every tick of every run an ant wanders exactly when its first draw below RandomDen is below RandomNum; otherwise a carrier follows the home trail and the nest, a searcher the food trail and what it smells, for a bonus of Max/4; and it stands one tick later where that leads. |
| Choices.GreedyGoes | internal/engine/scent/tick.go:71-102 | An ant that does not wander takes the open heading with the most trail. One that nears its lure counts a quarter of Max more; among headings that both near it, or both do not, the trail decides; what is still even goes to straight on, then left. If all three are closed it stays and turns around. |
| Choices.SearcherFollowsTrail | internal/engine/flatgrid/tick.go:40-59 | A searching ant that smells nothing and does not wander steps along the first open heading whose cell has the most trail. |
| Choices.WandererGoes | internal/engine/naive/tick.go:65-69 | A wandering ant goes straight on for 0, one eighth left for 1, one eighth right for 2; if that cell is closed it stays and faces the opposite of that heading. |
| Choices.SmellsNearest | internal/engine/scent/tick.go:71-75 | A searching ant of the scent rules smells the earliest of the nearest piles that hold food within 24 cells, and nothing exactly when there is none; carriers and other rules smell nothing. |
| Choices.EngineScents | internal/engine/scent/tick.go:71-75 | Under the rules of naive, nogc and gradient no ant smells anything. |
| Choices.OpenCells | internal/engine/naive/tick.go:103-108 | In the world of a config a cell can be entered exactly if it is on the grid and no wall covers it; a wall whose far edge overflows covers nothing. |
| Choices.WithinSquare | internal/engine/naive/tick.go:110-123 | cheb is the king's distance: within n exactly inside the square of half side n. |
| Choices.Compass | internal/engine/naive/naive.go:108-114 | The eight headings run clockwise from north, with y growing southward. |
| Flat.BuildWall | internal/engine/flatgrid/flatgrid.go:134-140 | The nested loops over one rectangle add exactly its cells to the walls, none at all when its far edge wraps. |
| Naive.BuildWall | internal/engine/naive/naive.go:142-148 | The same on the map of walls. |
| Flat.BuildFood | internal/engine/flatgrid/flatgrid.go:141-145 | The loop over the piles leaves on every cell, and in the total, what they add up to as wrapping Go ints. |
| Naive.BuildFood | internal/engine/naive/naive.go:149-153 | The same on the map of food. |
| Start.NewWorldOk | internal/engine/naive/naive.go:116-174 | A config that passes Validate starts in a world that satisfies the tick-boundary invariant. |
| Start.NewWorldIs | internal/engine/naive/naive.go:116-174 | At the start both fields are empty, nothing is collected, the config's total is left, and each ant stands on the nest, searching, facing the top three bits of its generator's first output. |
| Start.NewFood | internal/engine/naive/naive.go:149-153 | A cell starts empty if no pile lies there, and with the pile's amount if exactly one does. |
| Choices.EnvIs | internal/engine/naive/naive.go:116-141 | The size, nest, parameters and piles of a run are those of the config, the piles in their order. |
| Conservation.FoodConserved | internal/engine/naive/tick.go:141-152 | At every tick of every valid config, collected plus carried plus remaining food agrees with what the config placed modulo 2^64, the remainder is the wrapped sum of the grid, and no cell is overdrawn: a count that is not positive never changes, any other stays between zero and its start. |
| Conservation.FoodExactlyConserved | internal/engine/naive/output.go:40-50 | The three counts add up exactly and are natural at every tick if and only if the configured total is below 2^63. |
| Conservation.OverflowingPiles | internal/engine/naive/naive.go:149-153 | A config that passes Validate and starts with -2 units on a cell and in the total. |
| Conservation.FoodGridSum | internal/engine/naive/naive.go:149-153 | Piles on the same cell add up, wrapping; the grid's sum and the configured total agree modulo 2^64. |
| Commits.PickupsByIndex | internal/engine/naive/tick.go:127-152 | At a cell with n units, exactly the n lowest-indexed of the searching ants that arrive pick one up; all others stay searching; carriers drop exactly on the nest. |
| Commits.CommitAnt | internal/engine/naive/tick.go:127-162 | Position, heading, state and Steps of one ant after the whole commit, from the world it started in: it switches exactly when it is early enough for its cell's food or delivers. |
| Fields.RunDeposits | internal/engine/naive/tick.go:154-170 | In every tick of every run, what decay reads as deposits on a cell is min(Max, sum of the marks of the ants that stand there): without falloff min(Max, amount times ants), with it the capped sum of falloffs. |
| Marks.RunMarks | internal/engine/gradient/tick.go:166-171 | In every tick of every run, what decay reads as deposits on a cell is the sum, over the ants the tick leaves there in the same state, of their configured deposit, under the anchored rules divided by 2^(steps/16); at most Max. |
| Marks.FalloffIs | internal/engine/scent/tick.go:221-230 | A deposit is the base for fewer than 16 steps, and base / 2^(steps/16) for every number of steps. |
| Marks.EngineMarks | internal/engine/gradient/tick.go:166-170 | Only gradient and scent let marks fade with the steps; in the other engines a mark is the configured deposit. |
| Commits.DepositsClosedForm | internal/engine/naive/tick.go:154-170 | The same for one commit on a clean cell: the saturating additions, one ant at a time, leave the capped sum of the marks. |
| Commits.DepositsAfter | internal/engine/gradient/tick.go:156-211 | The same closed form after any prefix of the ants, on both deposit grids. |
| Streams.StreamsDoNotInterfere | internal/engine/naive/tick.go:46-54 | Two runs that share Seed and RandomDen have the same generator state for ant i after t ticks, whatever walls, food, pheromone, RandomNum, ant count and rules they have. |
| Fields.LevelsStayBounded | internal/engine/flatgrid/tick.go:167-184 | In every reachable world no cell of either field exceeds Max. |
| Fields.FieldsAfterTick | internal/engine/flatgrid/tick.go:137-185 | The write buffers are zero before decay, so the skipped writes still leave exactly the stencil of the old levels in every cell. |
| Fields.RunsNeverWrap | internal/engine/flatgrid/tick.go:156-185 | If 8*Max*DiffNum and 2*Max*EvapNum fit 64 bits, every cell of every tick of every run is the unbounded-integer stencil. |
| Fields.QuietFieldNeverRises | internal/engine/flatgrid/tick.go:156-185 | Without deposits the maximum of a field never grows, on every valid parameter set. |
| Fields.RunMass | internal/engine/flatgrid/tick.go:156-195 | In every tick of every run of every valid config, DiffDen times a field's new total is at most DiffDen times what decay read plus (DiffDen-1)*W*H, although products may wrap. |
| Stencil.MaximumPrinciple | internal/engine/flatgrid/tick.go:167-184 | Under the uint64 rule and every valid parameter set, a new level is at most the largest of the five levels it was computed from; so too on unbounded integers. |
| Stencil.CellTracksTheFormula | docs/journal/02-correction-blocked.md:60-62 | Where no product can wrap, the uint64 cell rule on levels up to 2*Max stays less than two units below and one unit above the untruncated formula (v - d*v + d*inflow/4) * e, or saturates at Max. |
| Stencil.TracksTheFormula | docs/journal/02-correction-blocked.md:60-62 | The same distances for the rule on unbounded integers, at any levels. |
| Stencil.NoWrapExactlyWhenFits | internal/config/load.go:80-93 | No product of the stencil can wrap, for any levels a grid can hold, if and only if the two parameter bounds hold. |
| Stencil.WrappingChangesLevels | internal/config/load.go:80-93 | Parameters that pass Validate and a level where the uint64 rule yields Max, and the unbounded rule and the untruncated formula 0. |
| Orders.OrdersCommuteExactly | internal/engine/naive/tick.go:212-222 | On uint64 and all levels up to 2*Max, spreading commutes with evaporation, in the computed level and equally in the stored one, exactly when 2*Max*DiffNum < DiffDen; or every such level fades to zero (under total spreading all but the topmost, if 8*Max*DiffNum fits 64 bits); or EvapNum = EvapDen and either no level spreading can leave wraps, at the topmost level and the fullest inflows, or both products wrap in step. |
| Orders.OrdersCommuteSimply | internal/engine/naive/tick.go:212-222 | If 2*Max*DiffNum fits 64 bits, the third case is that EvapNum = EvapDen and 2*Max*EvapNum fits. |
| Orders.InStepUnderTotalSpread | internal/engine/naive/tick.go:212-222 | If everything spreads, nothing evaporates and levels wrap, both products wrap in step exactly when the carries of as many turns as fit into 8*Max+1 add up to less than EvapNum. |
| Orders.WrappingMayCommute | internal/config/load.go:80-93 | Parameters that pass Validate, under which both products wrap and the two orders still agree on all levels. |
| Orders.NoFadeDoesNotCommute | internal/config/load.go:80-93 | Parameters that pass Validate, under which nothing evaporates, the two orders agree on unbounded integers and differ on uint64 at a lone level of 2*Max. |
| Orders.CommutesOnUnbounded | internal/engine/naive/tick.go:212-222 | Orders that agree on uint64 agree on unbounded integers, and conversely where no product can wrap. |
| Stencil.CommutesExactly | internal/engine/naive/tick.go:212-214 | On unbounded integers, which is what the comment argues about, and all levels up to 2*Max: exactly when EvapNum = EvapDen, or 2*Max*DiffNum < DiffDen, or every such level (all but the topmost when DiffNum = DiffDen) fades to zero. |
| Orders.ScenarioOrders | internal/config/scenarios/tiny.json:43-51 | With the bundled parameters the two orders leave 1 and 0 at five given levels, on uint64 and so in the stored cell. |
| Grid.Mass64Bound | internal/engine/flatgrid/tick.go:156-195 | For spreading as decayGrid computes it on uint64, on any field of levels below 2^63: DiffDen * after <= DiffDen * before + (DiffDen-1)*W*H. |
| Grid.MassBound | internal/engine/flatgrid/tick.go:156-195 | The same bound for spreading on unbounded integers, on any field. |
| Mass.ConservesExactlyWhenStill | docs/journal/02-correction-blocked.md:60-62 | On every grid, spreading (on uint64 as on unbounded integers) keeps the total of every field with levels up to 2*Max exactly when 2*Max*DiffNum < DiffDen. |
| Mass.ConservesAnyLevelExactlyWithoutRate | docs/journal/02-correction-blocked.md:60-62 | On every grid, spreading keeps the total of every field of any level exactly when DiffNum = 0. |
| Gains.CornerLoses64 | internal/engine/flatgrid/tick.go:156-195 | On uint64 a lone level below 2^63 in the corner that moves at all loses mass, whether its product wraps or not: the edge takes what has no neighbour. |
| Mass.CornerLoses | internal/engine/flatgrid/tick.go:156-195 | The same on unbounded integers, at any level. |
| Mass.SomeFieldGains | internal/engine/flatgrid/tick.go:167-175 | On every grid of at least 3 by 3 some field with levels up to 2*Max gains, on uint64 as on unbounded integers, once DiffNum < DiffDen and 3*DiffDen <= 2*Max*DiffNum. |
| Gains.GainsExactly | internal/engine/flatgrid/tick.go:167-175 | On every grid of at least 15 by 15, no field with levels up to 2*Max gains exactly when (partial spreading) three times 2*Max and the largest level that gives nothing away, times DiffNum, stay below 4*DiffDen, or (total spreading) always on unbounded integers, and on uint64 if no level wraps or the carries of wrapping levels are lost. |
| Gains.GainFreeNeverGains | internal/engine/flatgrid/tick.go:167-175 | The same conditions rule out gains on every grid of any size, for both rules. |
| Gains.WrappingCreatesMass | internal/config/load.go:80-93 | Parameters that pass Validate, under which no field gains on unbounded integers and some field does on uint64. |
| Mass.ScenarioMass | internal/config/scenarios/tiny.json:43-51 | With the bundled parameters the stencil is not conservative on any grid, and gains on every grid of at least 3 by 3. |
| Grid.FieldMaximumPrinciple | internal/engine/flatgrid/tick.go:156-185 | The maximum principle on a whole field, with empty cells outside the grid, for the uint64 rule and the unbounded one. |
| Grid.InflowIsAround | internal/engine/flatgrid/tick.go:160-166 | What flows into a cell is the sum of exactly the cells that share an edge with it. |
| Ticks.BestIsFirstMaximum | internal/engine/naive/tick.go:71-87 | The scan keeps the first of the most attractive open headings, and none exactly when all are closed. |
| Ticks.NearestIsFirst | internal/engine/scent/tick.go:104-127 | The scan over the piles finds a nearest one that holds food within the radius, the earliest of equals, and none exactly when there is none. |
| Ticks.PulledToTarget | internal/engine/scent/tick.go:77-101 | On any trail, an ant that does not wander gets strictly closer to the nest (carrying) or to the pile it smells (searching) exactly when some open heading of its cone that leads closer is not outbid by Max/4 more trail on one that does not. |
| Ticks.TickAnt | internal/engine/naive/tick.go:127-152 | Position, heading, state and Steps of one ant after a whole tick, from its decision alone. |
| Ticks.TickRecords | internal/engine/naive/tick.go:127-139 | A tick appends the key of the cell the ant ends on to its history, if the rules keep one. |
| Ticks.TickFood | internal/engine/naive/tick.go:141-147 | Food on a cell never grows and never goes negative. |
| Ticks.SwitchedFacesBack | internal/engine/naive/tick.go:141-152 | An ant that moves and then picks up or drops food faces the cell it came from, so it is not boxed in at the next tick. |
| Freedom.NeverStandsOnFood | internal/engine/naive/tick.go:141-152 | In every reachable world a searching ant off the nest stands on a cell without food to take. |
| Freedom.BlockedAntsGetFree | internal/engine/naive/tick.go:38-44 | With RandomNum = 0, a reachable ant off the nest leaves its cell within two ticks if and only if its cone or the reversed cone has an open cell. |
| Geodesic.StepsBoundTheWalk | internal/engine/gradient/tick.go:127-172 | In every reachable world of gradient and scent, a walk of at most Steps open cells joins the ant's anchor to its cell, and a searching ant's anchor is the nest. |
| Geodesic.DepositsRespectDistance | internal/engine/scent/tick.go:161-237 | A deposit is at most the base deposit halved once per 16 cells of walking distance from the anchor. |
| Geodesic.FalloffMonotone | internal/engine/gradient/tick.go:174-203 | More steps never earn a larger deposit. |
| Geodesic.FalloffHalves | internal/engine/scent/tick.go:208-237 | Sixteen further steps halve a deposit, rounding down, for every number of steps; the cut-off at 32 halvings changes no value. |
| Rng.NextInvertible | internal/simcore/rng.go:44-55 | The xoshiro step has an explicit inverse on every state. |
| Rng.OutputInjective | internal/simcore/rng.go:42-46 | The output scrambler is injective in the state word it reads. |
| Rng.MixInvertible | internal/simcore/rng.go:14-22 | The SplitMix64 finaliser has an explicit inverse. |
| Rng.SeedGuardNeverFires | internal/simcore/rng.go:24-40 | No seed expands to the all-zero state, so the guard is never taken. |
| Rng.NeverZero | internal/simcore/rng.go:35-40 | No seeded generator ever reaches the all-zero fixed point. |
| Rng.StateAfterInjective | internal/simcore/rng.go:44-55 | Different states stay different however many words are drawn from both. |
| Rng.AntSeedInjective | internal/engine/naive/naive.go:160-162 | The seeds of all ants are pairwise distinct. |
| Rng.AntMasks | internal/engine/naive/naive.go:162-162 | Ant 0's mask is 0x632BE59BD9B4E019, each further one is larger by 0x9E3779B97F4A7C15, modulo 2^64. |
| Seeds.SecondSeed | internal/engine/naive/naive.go:162-162 | For Seed 87650048, the seed of the second ant as a literal. |
| Seeds.Headings | internal/engine/naive/naive.go:160-172 | For a config with that seed the first ant starts facing north-east and the second west. |
| Rng.AntStreamsDistinct | internal/engine/naive/naive.go:160-172 | All ants start from different non-zero generator states, also after the draw of the heading. |
| Rng.FirstWordKeptExactlyForDivisors | internal/simcore/rng.go:57-73 | Every non-zero state has its first word kept by Intn(n) exactly when n divides 2^32; then no word is ever rejected. |
| Rng.TwoWordsExactly | internal/engine/naive/tick.go:46-54 | A tick's two draws consume two words exactly when the first passes RandomDen's threshold and the second is not zero; in any case they advance the generator by the number of words consumed. |
| Rng.TwoWordsNeverGuaranteed | internal/engine/naive/tick.go:46-54 | For every RandomDen, a non-zero state, not necessarily one a seed leads to, from which the two draws consume at least three words. |
| Rejected.FirstDrawRejected | internal/simcore/rng.go:60-71 | For Seed 87650048, ant 0's generator starts its first tick with a word that Intn(100) rejects. |
| Rejected.UnluckyTick | internal/engine/naive/tick.go:46-54 | A config that passes Validate, with the bundled parameters, whose first tick consumes exactly three words for ant 0. |
| Rng.PowerOfTwoNeverRejects | internal/simcore/rng.go:57-73 | Intn(8) always ends after exactly one word. |
| Rng.Rejections | internal/simcore/rng.go:60-71 | The word Intn keeps is accepted and every earlier one is not. |
| Rng.DrawIs | internal/simcore/rng.go:57-73 | A bounded draw is x * n / 2^32 for the first word x whose product has a low half of at least 2^32 mod n, and leaves the generator just after it. |
| Rng.Generator.constructor | internal/simcore/rng.go:24-40 | The seeding loop produces the state the specification names. |
| Rng.Generator.Next | internal/simcore/rng.go:44-55 | The in-place updates produce the specified output and successor state. |
| Rng.Generator.Intn | internal/simcore/rng.go:57-73 | The loop with its lazy threshold returns the first accepted word, scaled, and leaves the state just after it. |
| Lemire.ExactlyUniform | internal/simcore/rng.go:57-73 | For every n and every v < n, exactly floor(2^32/n) of the 2^32 words are accepted with result v. |
| Rng.ThresholdIsRemainder | internal/simcore/rng.go:64-65 | (-n) % n on 32 bits is 2^32 mod n. |
| Lemire.EarlyTestIsExact | internal/simcore/rng.go:62-71 | The test lo < n before the threshold never changes which words are accepted. |
| Hash.HashU64 | internal/simcore/hash.go:22-29 | The loop folds the eight bytes, lowest first. |
| Hash.HashU32 | internal/simcore/hash.go:31-38 | The loop folds the four bytes, lowest first. |
| Hash.OneByteChangesHash | internal/simcore/hash.go:15-20 | Two streams of equal length that differ in exactly one byte never have the same hash. |
| Hash.HashBytesInjectiveState | internal/simcore/hash.go:15-20 | Each FNV-1a step is a bijection of the state, so folding the same bytes keeps different states apart. |
| Hash.CanonicalHash | internal/config/hash.go:10-58 | The closures and loops fold exactly the encoding of the listed fields. |
| Hash.EncodingIsExact | internal/config/hash.go:10-58 | Two configs have the same byte stream if and only if they agree on everything but Name and Version. |
| Hash.EncodeAt | internal/simcore/hash.go:22-29 | Each 64-bit field can be read back from the stream. |
| Hash.HeadReads | internal/config/hash.go:22-30 | The first eight words of the stream are the seed, width, height, ticks, ants, the nest and the number of walls. |
| Hash.WallReads | internal/config/hash.go:30-36 | Wall k takes the words 8+4k to 11+4k: x, y, width, height. |
| Hash.PileReads | internal/config/hash.go:37-42 | After the walls come the number of piles and three words for each. |
| Hash.TailReads | internal/config/hash.go:44-55 | The last nine words are the parameters, in the listed order. |
| Golden.TinyConfigHash | test/testdata/golden/tiny.json:3-3 | The definitions give the scenario "tiny" the recorded config hash. |
| Golden.TinyChecksum | test/testdata/golden/tiny.json:3-13 | The definitions give a result with the recorded values the recorded checksum. |
| Results.ComputeChecksum | internal/simcore/result.go:31-47 | The checksum is the fold of the stream that `Reports.ChecksumReads` describes; nothing else in the result changes. |
| Results.ChecksumSeesOneByte | internal/simcore/result.go:31-47 | Results whose encodings differ in one byte have different checksums. |
| Reports.ChecksumReads | internal/simcore/result.go:31-47 | The checksum reads ten words: config hash, seed, ticks, ticks run, collected, remaining, carrying, pheromone, ant hash, grid hash. |
| Reports.ChecksumInputs | internal/simcore/result.go:31-47 | It reads the same bytes of two results if and only if they agree on all ten deterministic fields. |
| Reports.EqualUpToCounters | internal/simcore/result.go:49-64 | DeterministicEqual ignores the engine's name and the three observational counters, and nothing else. |
| Reports.AntsHashIs | internal/engine/naive/output.go:11-26 | The ant hash is the fold of the ants' records, one after the other. |
| Reports.AntRecordAt | internal/engine/naive/output.go:11-26 | The records stand in ascending order of the ants, 33 bytes each. |
| Reports.AntBytesAt | internal/engine/naive/output.go:17-25 | A record is four words, the ant's number, column, row and heading, and one byte for its state. |
| Reports.CellsHashIs | internal/engine/naive/output.go:28-38 | The grid hash is the fold of the cells' records. |
| Reports.CellRecordAt | internal/engine/naive/output.go:28-38 | The record of cell i, in row-major order, is its food trail and then its home trail, four bytes each. |
| Reports.ReportCounts | internal/engine/naive/output.go:40-50 | A run stopped after limit ticks reports the deliveries of its ticks, the food on the grid, the number of carriers, which together agree with the configured total modulo 2^64, and the sum of both fields modulo 2^64. |
| Reports.ReportHashes | internal/engine/naive/output.go:40-50 | Its hashes are those of the config, of the ants' records and of the cells' records of its last world, and of its ten words. |
| Reports.TickCollects | internal/engine/naive/tick.go:148-152 | A tick adds one to the collected count for each carrier whose decision is the nest. |
| Config.Validate | internal/config/load.go:34-103 | The collected messages are exactly the problems the config has, and there are none if and only if the config is valid. |
| Config.ValidMeansNoProblem | internal/config/load.go:34-111 | Validity, as the engines rely on it, is the absence of every listed problem. |
| Config.SmallestIsValid | internal/config/load.go:40-103 | The smallest config is valid, and each of its numbers one step further is not. |
| Config.RoomIsValid | internal/config/load.go:53-79 | Walls and piles at the edge of what is allowed, and one step beyond. |

## Left out

- The HTTP/SSE server, its authentication and compression, the command-line tools and the JavaScript front end: input and output only.
- JSON decoding, scenario files and defaults: the model starts from a config value; `Config.Validate` is modelled.
- Snapshots, `scale` and the observer: read-only copies for the UI that do not change the world.
- The engine registry, `Variant` and the benchmark tables: reporting.
- Wall time, allocation counts and heap bytes: parameters that are copied into the result and that DeterministicEqual ignores.
- Contexts: cancellation is an arbitrary bound on the number of ticks performed (`limit`), checked between ticks as the source does.
- The Go memory model below channels and WaitGroup: a send together with its receive, a Done together with the return to the channel, and each item of a range are atomic steps. That items of different workers do not touch each other's cells is `Schedule.WorkersCommute` and the postconditions of `Flat.FlatWorld.SenseAnts` and `Flat.FlatWorld.DecayRows`; the latter's modifies clauses name whole arrays and all generators.
- Engines.ParallelAgrees: the pooled engines' ticks are modelled on values as a step machine, since goroutines share the heap; the worker bodies themselves are also verified on heap arrays as ranges in `Flat.FlatWorld`, and `Progress.SenseItemsAreRange` and `Progress.DecayItemsAreRows` equate the two.
- Rng.Generator.Intn: requires that some word of the stream is accepted; that rejection eventually ends is a property of xoshiro's orbit that is not proved here. `Flat.RunFlat`, `Naive.RunNaive` and `Engines.NaiveAgreesWithFlat` inherit it as `StreamsLive`, for the draws of the ticks that the run performs and no others; where one of those does not end, the program does not return. For Intn(8) it is proved.
- Schedule.SchedulesAreFinite: sensing one ant is one step, even where the source's rejection loop would not end. `Schedule` and `Engines.ParallelAgrees` do not assume `StreamsLive`: where no word is ever accepted they reason with a stand-in draw of 0, so that every phase ends is a statement about the source only for streams that `StreamsLive` allows.
- Flat.FlatWorld.constructor: W*H is unbounded, where the source's int64 product wraps (W = H = 2^32 would allocate no cells and fail on the first access); `Flat.RunFlat` and the pooled engines are stated for grids whose cells can be allocated.
- Flat.RunFlat: as its constructor, for W*H. Food amounts, FoodLeft, Collected and AntsCarrying do wrap as in the source; Steps and coordinates cannot overflow, being bounded by Ticks and by the grid.
- Naive.RunNaive: the same, for W*H.
- Partition.ExactPartition: the product total*k is unbounded, where the source's int could overflow beyond 2^63.
- Orders.OrdersCommuteExactly: where both products wrap in step (EvapNum = EvapDen = DiffNum and 2*Max*EvapNum >= 2^64), the condition `InStep` compares each level and each inflow with its rest, one number at a time; a closed form is proved for DiffNum = DiffDen (`Orders.InStepUnderTotalSpread`), otherwise it depends on how multiples of DiffNum fall among multiples of 4*DiffDen.
- Stencil.CommutesExactly: is about the rule on unbounded integers; `Orders.OrdersCommuteExactly` is about uint64.
- Stencil.CellTracksTheFormula: requires the two bounds of `FitsWord`; with `Stencil.WRAPPING` the distances fail (`Stencil.WrappingChangesLevels`), and which wrapping parameters keep them is not characterised.
- Gains.GainsExactly: on grids with fewer than 15 rows or columns whether some field gains also depends on the size; there `Gains.GainFreeNeverGains` is one direction, and `Mass.SomeFieldGains` the other from 3 by 3 on once 3*DiffDen <= 2*Max*DiffNum.
- Config.Validate: the wording and the order of the messages are not modelled.
- Map iteration: the source never ranges over its maps, so no order is modelled; `clear` is the empty map.
- The field `Home` of an ant and `cfg` of a world: never read during a run, or replaced by the fields that are.
- Collisions of FNV-1a beyond single-byte differences, the statistical quality of the generator, and whether the tuning constants forage well: not provable statements.
