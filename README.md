# pixelife engine, modelled in Dafny

pixelife is a grid-based artificial-life simulation. This project models its engine and proves
properties of it.

- **The world.** A width × height grid of cell tags, a map from positions to resource records
  (walls, food and growing plants), a position → creature index and the list of all creatures.
- **Creatures.** Each creature carries a chromosome of thirteen bounded genes and a tabular
  Q-learning brain. Every tick it perceives the cells within its vision disc, picks one of its
  valid actions epsilon-greedily, executes it and learns from the reward.
- **Reproduction.** A creature reproduces into an empty neighbouring cell. The child gets a
  mutated copy of the parent's genes and a noisy copy of its Q-table.
- **The scheduler.** Each tick it:
  1. updates the resources;
  2. visits a shuffled snapshot of the creatures;
  3. sweeps away the dead;
  4. evicts the oldest creatures above the population cap;
  5. updates the population statistics.

Every random draw of the program enters the model as a parameter:

- a `random.random()` value in [0, 1);
- a standard-normal value;
- a permutation for `random.shuffle`;
- a sampled cell;
- an index for `random.choice`;
- a noise vector for each Q-table row.

The constants of the program's `config` module arrive as a `Config` value. Given these, every
operation is deterministic.

Modules, one per component:

| module | file | models |
|---|---|---|
| `Basics` | `basics.dfy` | `int()` truncation, `random.uniform`, `list.remove`, permutations, counting |
| `Config` | `config.dfy` | the configuration constants |
| `Resources` | `resources.dfy` | `resources.py`: cell tags, the `Resource` class and its `update` |
| `Genetics` | `genetics.dfy` | `genetics.py`: `Gene` and `Chromosome` |
| `Learning` | `learning.dfy` | `brain.py`: actions, state bucketing, the default-zero Q-table, `Brain` |
| `Worlds` | `worlds.dfy` | `world.py`: the generic class `World<C>` |
| `Creatures` | `creatures.dfy` | `creature.py`: the id counter, trait cache, perception, valid actions, actions, reproduction, upkeep |
| `Ordering` | `ordering.dfy` | the stable descending sort `sorted(..., key=age, reverse=True)` |
| `Simulations` | `simulations.dfy` | `simulation.py`: spawning and the tick |
| `Stats` | `stats.dfy` | `statistics.py`: counters and aggregates |

Design points:

- **Classes.** The classes of the program whose fields change become Dafny classes.
- **Invariants.**
  - `World.Valid` says every indexed position is tagged CREATURE and every resource record is
    well formed at its own position.
  - `Simulation.Valid` adds that the creature list and the index describe the same creatures.
  - `Chromosome.Valid` says every trait has its own gene with the trait's bounds and a value
    inside them.
- **Deliberate disagreement.** The tag grid and the resource map are deliberately *not* required
  to agree, because the program does not keep them in step. `move_creature` overwrites a FOOD or
  PLANT tag with CREATURE and leaves the record in place.
- **Quirks kept from the code.**
  - `reproduce` returns a child, but `execute_action` drops it. So no tick ever adds a creature,
    and `Simulation.Update` proves the population never grows.
  - A creature's own cell is tagged CREATURE while the list and index are in step. So EAT is never
    a valid action in a scheduled turn (`EatNeverOffered`).
- **A reward that is easy to misread.** One might expect eating a 15-energy food to earn a reward
  of 15. But creature.py:130,153 start every action from −0.1 and then add the gain, which gives
  14.9. The model follows the code (`Creature.Feed`).

## Model

| member | source | states |
|---|---|---|
| `Basics.Trunc` | brain.py:40 | `int()` on a float truncates toward zero: the result is the integer between 0 and the argument that lies within 1 of it, for either sign |
| `Basics.Uniform` | resources.py:37 | `random.uniform(lo, hi)` from a draw in [0, 1] lies in [lo, hi] |
| `Basics.CountBelow` | genetics.py:54-60 | the number of draws below the rate is at most the number of draws; it equals it exactly when every draw is below the rate, and is 0 exactly when none is |
| `Basics.PermutationOnto` | simulation.py:29 | a shuffle (a permutation of the positions) reaches every position |
| `Basics.RemoveFirst` | world.py:87 | `list.remove(x)` shortens the list by one, keeps every other entry and adds no entry; on a list without repetitions the result has none either and no longer holds `x` |
| `Basics.RemoveFirstSplit` | world.py:87 | `list.remove(x)` takes out exactly the first occurrence of `x` (the position `Basics.IndexOf` finds, with no `x` before it) and keeps everything before and after it in order |
| `Resources.Step` | resources.py:28-30 | one `update`: the kind is kept and the age rises by 1. Walls and food keep their energy. A plant below stage 10 grows one stage and takes energy 5 + stage; a plant at stage 10 stays as it is. Well-formedness (stage at most 10, energy matching the stage) is preserved |
| `Resources.PlantGrowth` | resources.py:48-53 | a new plant after n ticks has age n and stage min(n, 10), and after at least one tick holds energy 5 + stage |
| `Resources.MaturePlantIsStable` | resources.py:51-53 | once a plant has had 10 ticks its energy is 15 and stays at 15 |
| `Resources.InertAfterSteps` | resources.py:28-30 | food and walls change only in age, over any number of ticks |
| `Resources.Resource.NewWall` | resources.py:59-60 | a wall at its position holds no energy, has age 0 and is well formed |
| `Resources.Resource.NewFood` | resources.py:36-37 | food at its position has age 0, and its energy is the uniform draw, in [10, 20] |
| `Resources.Resource.NewPlant` | resources.py:43-46 | a plant at its position has age 0, stage 0, and its energy is the uniform draw, in [5, 15] |
| `Resources.Resource.Update` | resources.py:48-53 | the object's new state is one `Step` of its old state, and it stays well formed |
| `Genetics.TraitIndex` | genetics.py:38-52 | every trait has one of the 13 positions of the initialisation order |
| `Genetics.TraitAt` | genetics.py:38-52 | the trait at a position is the trait `TraitIndex` maps there (the two are inverse) |
| `Genetics.TraitOrderIsEnumeration` | genetics.py:38-52 | the initialisation order lists 13 distinct traits and every trait exactly once, at its own index |
| `Genetics.InitialValueInRange` | genetics.py:38-52 | every trait's initial draw (uniform, random or randint) lies inside the bounds its gene keeps, and those bounds are ordered |
| `Genetics.Clip` | genetics.py:22 | `np.clip` lands in [lo, hi], keeps a value already inside, and is the value or one of the bounds |
| `Genetics.MutatedValue` | genetics.py:21-22 | a Gaussian step clipped back lies in [min, max] whenever min ≤ max |
| `Genetics.Mutates` | genetics.py:20 | for draws in [0, 1), rate 0 never mutates and a rate of at least 1 always does |
| `Genetics.Gene.constructor` | genetics.py:12-16 | the gene holds the given name, value and bounds |
| `Genetics.Gene.Mutate` | genetics.py:18-24 | returns true exactly when the draw is below the rate. Then the value becomes the clipped Gaussian step; otherwise it is unchanged. A value inside the bounds stays inside |
| `Genetics.Gene.Copy` | genetics.py:26-28 | a new, distinct gene with the same name, value and bounds |
| `Genetics.NewGene` | genetics.py:38-52 | a new gene for the trait with the trait's bounds and its initial draw |
| `Genetics.MutatedPrefix` | genetics.py:56-59 | after visiting a prefix of the traits, every trait still has a value |
| `Genetics.MutatedValues` | genetics.py:54-60 | after `mutate` every trait still has a value |
| `Genetics.MutatedPrefixAt` | genetics.py:56-59 | after i visits exactly the first i traits have mutated, each once with its own draws; the others are untouched |
| `Genetics.MutatedValuesAt` | genetics.py:54-60 | each trait's new value depends only on its old value and the draws at its own position |
| `Genetics.MutationKeepsRanges` | genetics.py:54-60 | mutation keeps every gene value within its trait's bounds |
| `Genetics.NoMutationAtRateZero` | genetics.py:54-60 | with rate 0 and draws in [0, 1) no value changes |
| `Genetics.Chromosome.Records` | genetics.py:76-81 | each trait's (name, value, min, max) record carries the trait's own name and bounds and its current value |
| `Genetics.Chromosome.Blank` | genetics.py:78 | the dictionary that `copy` and `crossover` fill starts empty |
| `Genetics.Chromosome.Init` | genetics.py:34-52 | `Chromosome()` is well formed, of fresh genes, with each trait's initial value taken from its own draw |
| `Genetics.Chromosome.GetValue` | genetics.py:72-74 | `get_value` returns the gene's value, which lies inside the trait's bounds |
| `Genetics.Chromosome.MutateGene` | genetics.py:57-59 | one round of `mutate`: only that trait's gene changes, as `Gene.mutate` says; the result says whether it mutated |
| `Genetics.Chromosome.Mutate` | genetics.py:54-60 | the result is the number of draws below the rate (so at most 13). The new values are those of `MutatedValues`. The chromosome stays well formed with the same gene objects |
| `Genetics.Chromosome.FillFrom` | genetics.py:76-81 | the filling loop gives a well-formed chromosome of fresh genes holding the source genes' values |
| `Genetics.Chromosome.Copy` | genetics.py:76-81 | a well-formed chromosome of fresh genes, disjoint from the original, with the same values and (name, value, min, max) records |
| `Genetics.Chromosome.Crossover` | genetics.py:62-70 | a well-formed chromosome of fresh genes in which each trait takes this parent's value when its draw is below 0.5 and the other parent's otherwise |
| `Learning.Action.Index` | brain.py:10-23 | every action has one of the numbers 0..7 |
| `Learning.AllActionsNumbered` | brain.py:52 | the default valid list holds all eight actions, each at the position of its number |
| `Learning.UnseenReadsZero` | brain.py:33 | the defaultdict reads a state missing from the table as the zero row: every entry is 0 and its `np.max` and best value are 0 |
| `Learning.GetStateRepresentation` | brain.py:38-47 | the energy bucket is the truncated quotient by 20, so the energy lies within the bucket's width-20 interval, on either side of 0; the four vision flags and `can_reproduce` are copied |
| `Learning.MaterializeKeepsReads` | brain.py:33 | reading a missing state inserts it and changes no state's reading |
| `Learning.MaxOf` | brain.py:64 | `np.max` bounds every entry and is one of them |
| `Learning.MaxOfZeros` | brain.py:33 | an unseen state's best value is 0 |
| `Learning.FirstArgMax` | brain.py:56-58 | the chosen valid action has a maximal Q-value, and every valid action listed before it has a strictly smaller one |
| `Learning.TDUpdateBetween` | brain.py:65-67 | for a learning rate in [0, 1] the new value lies between the old value and the target; rate 1 gives the target and rate 0 keeps the old value |
| `Learning.TDUpdateUpwards` | brain.py:65-67 | below the target the step moves up but not past it |
| `Learning.TDUpdateDownwards` | brain.py:65-67 | above the target the step moves down but not past it |
| `Learning.QUpdateEffect` | brain.py:61-68 | `update_q_value` adds rows for the state and the next state and nothing else. Every other row reads as before, and only the action's entry of the state's row changes. It takes the TD step towards reward + γ · (best value of the next state before the write) |
| `Learning.QUpdateFromUnseen` | brain.py:61-68 | learning from an unseen state towards an unseen state gives α · reward |
| `Learning.VecAdd` | brain.py:81 | definition: adding the noise vector adds entry by entry (its use is stated by `NoisyTableWithoutNoise` and `Brain.Copy`) |
| `Learning.NoisyTableWithoutNoise` | brain.py:77-82 | with zero noise the copied table equals the parent's |
| `Learning.Brain.constructor` | brain.py:29-36 | the rates are stored, the table is empty and nothing has been learned yet |
| `Learning.Brain.ChooseAction` | brain.py:49-59 | the action is always valid, and the valid list defaults to all eight. Exploring picks the drawn element and leaves the table alone. Otherwise the state's row is inserted if missing and the first valid action with the largest Q-value is taken |
| `Learning.Brain.UpdateQValue` | brain.py:61-68 | the table becomes `QUpdate` of the old table, whose effect `QUpdateEffect` states |
| `Learning.Brain.Learn` | brain.py:70-75 | the update, then the last state, action and reward are recorded |
| `Learning.Brain.Copy` | brain.py:77-82 | a new brain with the same three rates. Its table has the parent's states, each row plus its noise vector. The parent is not modified |
| `Ordering.Insert` | simulation.py:48 | one step of the stable insertion sort on (age, creature) pairs |
| `Ordering.SortDescending` | simulation.py:48 | `sorted(..., reverse=True)` on the age key |
| `Ordering.InsertPermutes` | simulation.py:48 | inserting adds exactly the new entry |
| `Ordering.InsertOrdered` | simulation.py:48 | inserting into a descending list keeps it descending |
| `Ordering.InsertDistinct` | simulation.py:48 | inserting an entry not present keeps the list without repetitions |
| `Ordering.InsertStable` | simulation.py:48 | inserting keeps equal keys in their original order |
| `Ordering.SortPermutes` | simulation.py:48 | the sorted list is a permutation of the input |
| `Ordering.SortOrdered` | simulation.py:48 | the sorted list is in descending order of age |
| `Ordering.SortDistinct` | simulation.py:48 | sorting a list without repetitions gives one without repetitions |
| `Ordering.SortStable` | simulation.py:48 | entries with equal ages keep their list order, as Python's stable sort does |
| `Worlds.Gain` | world.py:103-116 | no gain from anything but food or a plant, and never a negative gain from non-negative energy and preferences |
| `Worlds.World.constructor` | world.py:14-52 | a valid world of the given size with no creatures, whose every border cell is WALL with a Wall record |
| `Worlds.World.WallRows` | world.py:25-27 | the top and bottom rows become walls |
| `Worlds.World.WallColumns` | world.py:28-30 | the left and right columns become walls, which completes the frame |
| `Worlds.World.WallPair` | world.py:25-30 | one round of the frame loops walls its two cells and loses no walled cell |
| `Worlds.World.WallCells` | world.py:32-40 | cluster cells at least 3 from the frame leave the frame walled |
| `Worlds.World.PlaceSpots` | world.py:42-52 | placing food or plants on sampled interior cells leaves the frame walled |
| `Worlds.World.GetCellType` | world.py:150-154 | outside the world it is WALL; inside it is the cell's tag |
| `Worlds.World.IsEmpty` | world.py:137-141 | true exactly for an in-bounds EMPTY cell, and so false outside |
| `Worlds.World.IsWalkable` | world.py:143-148 | true exactly for an in-bounds EMPTY, FOOD or PLANT cell, and so false outside |
| `Worlds.World.GetCreatureAt` | world.py:156-158 | None outside the world; otherwise the indexed creature, present exactly when the position is indexed |
| `Worlds.World.GetResourceAt` | world.py:160-162 | None outside the world; otherwise the record, present exactly when there is one |
| `Worlds.World.AddCreature` | world.py:72-79 | succeeds exactly on an in-bounds EMPTY cell. The cell is then tagged CREATURE, indexed to the creature, and the creature is appended once; all other cells keep their tags. On failure nothing changes |
| `Worlds.World.RemoveCreature` | world.py:81-87 | no change when the position is not indexed. Otherwise the cell becomes EMPTY, the entry is dropped and the first occurrence leaves the list; records and other cells are kept |
| `Worlds.World.MoveCreature` | world.py:89-101 | fails with no change unless the target is walkable. On success the target is tagged CREATURE and indexed, and the indexed old cell becomes EMPTY and is unindexed; an old cell that was not indexed is left alone. Every other cell, the records and the list are kept |
| `Worlds.World.ConsumeResource` | world.py:103-116 | the gain is that of the record's kind and the consumer's preference, or 0 without a record. A positive gain deletes the record and tags the cell CREATURE; otherwise nothing changes |
| `Worlds.World.StepAll` | world.py:120-121 | every record takes exactly one `update` step |
| `Worlds.World.UpdateResources` | world.py:118-131 | every old record takes one step. Food, then a plant, is placed at its sampled interior cell exactly when its draw is below its rate and the cell is EMPTY, never over another tag. No other record or cell changes; the creatures are untouched |
| `Worlds.World.Respawn` | world.py:122-131 | the two placements of `update_resources`, with the same placement facts, and no existing record modified |
| `Worlds.World.Chance` | world.py:122-126 | one placement: it happens exactly when the draw is below the rate and the cell is EMPTY, and only that cell stops being EMPTY |
| `Worlds.World.PlaceWall` | world.py:54-58 | in bounds the cell becomes WALL with a fresh Wall record, whatever it held; out of bounds nothing changes; no walled border cell is lost |
| `Worlds.World.Place` | world.py:60-70 | only an in-bounds EMPTY cell is taken, and it gets the tag and a fresh record of the kind with the uniform energy draw; nothing else changes |
| `Creatures.IdCounter.constructor` | creature.py:16 | the counter starts at 0 |
| `Creatures.TakeId` | creature.py:19-20 | the id is the counter's value and the counter moves on by one, so successive ids strictly increase |
| `Creatures.TraitsFrom` | creature.py:46-62 | every cached trait, truncated or not, lies in its gene's bounds (size 1..5, vision 2..10, colour channels 50..255, and so on) |
| `Creatures.TraitsOf` | creature.py:46-62 | the cache read with `get_value` is `TraitsFrom` of the gene values, which lie in range |
| `Creatures.CacheTraits` | creature.py:44 | computing the cache at construction gives `TraitsFrom` of the gene values |
| `Creatures.SeenAll` | creature.py:74-91 | once the scan has finished, a tag has been seen exactly when some in-sight cell carries it |
| `Creatures.Shuffled` | creature.py:177 | the shuffled candidates are the four neighbours in the order the permutation gives |
| `Creatures.FirstFree` | creature.py:179-180 | the first candidate that is in bounds and EMPTY, with none before it, or the count when there is none |
| `Creatures.ValidListShape` | creature.py:107-126 | the valid list is never empty, ends with STAY, is in increasing action order (so without repetition), and holds exactly the offered actions |
| `Creatures.ValidListOrdered` | creature.py:109-125 | the appends come in increasing action number |
| `Creatures.ValidListMembers` | creature.py:109-125 | an action is listed exactly when its test holds: a walkable neighbour, a FOOD or PLANT tag under the creature, `can_reproduce`, sunlight efficiency above 0.3; STAY always |
| `Creatures.ChromosomeOr` | creature.py:25-28 | the given chromosome, or a fresh `Chromosome()` from the draws |
| `Creatures.BrainOr` | creature.py:30-33 | the given brain, or an empty one with the configured rates |
| `Creatures.VisionStep` | creature.py:76-91 | scanning one offset changes the flags exactly by that cell's tag, when it is in sight and in bounds |
| `Creatures.VisionBounds` | creature.py:66-91 | the flags start all false, and after the scan they are exactly what is in sight |
| `Creatures.NewCreature` | creature.py:18-44 | the defaults: a missing chromosome is drawn, a missing brain starts empty with the configured rates, and a missing energy is half the maximum. The id is the counter's value, which moves on by one. The creature is alive, aged 0, generation 0, with no history |
| `Creatures.Creature.constructor` | creature.py:21-44 | the fields are stored, the creature is alive with no history, and its trait cache agrees with its chromosome |
| `Creatures.Creature.Perceive` | creature.py:64-97 | each flag is set exactly when some in-bounds cell at 0 < dx² + dy² ≤ r² carries that tag; `can_reproduce` is energy ≥ threshold |
| `Creatures.Creature.ScanColumn` | creature.py:75-91 | the inner loop takes the flags from the start of column dx to its end |
| `Creatures.Creature.GetValidActions` | creature.py:107-126 | the appended list is the valid list for the creature's surroundings |
| `Creatures.Creature.DecideAction` | creature.py:99-105 | the state is the bucketed perception. The action is valid; exploring takes the drawn element, otherwise one with a maximal Q-value in the state's (inserted) row |
| `Creatures.Creature.Breed` | creature.py:181-188 | the parent pays the reproduction cost. The child is fresh, at the cell, of generation parent + 1, with the offspring energy, the mutated genes, the noisy brain and the next id |
| `Creatures.Creature.FindFree` | creature.py:179-180 | the search loop stops at the first candidate that is in bounds and EMPTY |
| `Creatures.Creature.Reproduce` | creature.py:168-189 | None with no change exactly when the energy is below the threshold or no shuffled neighbour is free. Otherwise the child stands at the first free neighbour as `Breed` describes, and the parent loses exactly the cost |
| `Creatures.Creature.MoveAction` | creature.py:132-147 | a successful move shifts the position by one in the named direction and gives −0.1 − MOVEMENT_COST × size. A failed one keeps the position and gives −0.1. Energy and counters are kept. On success the target cell is tagged CREATURE and an indexed old cell becomes EMPTY; every other cell is kept, and a failed move keeps the whole grid |
| `Creatures.Creature.EatAction` | creature.py:148-153 | `consume_resource` at the creature's cell, then `Feed` with its gain. A positive gain deletes the record and tags the cell CREATURE, with every other cell kept; no gain keeps the whole grid and the records |
| `Creatures.Creature.Feed` | creature.py:150-153 | a positive gain adds gain × energy efficiency to the energy, counts one meal and gives −0.1 + gain. Otherwise energy and meals are kept and the reward is −0.1 |
| `Creatures.Creature.ReproduceAndDrop` | creature.py:155-156 | a child is born exactly when the energy reaches the threshold and a shuffled neighbour is free; the parent then pays the cost and one id is used |
| `Creatures.Creature.ReproduceAction` | creature.py:154-158 | a birth costs the parent the reproduction cost, counts one offspring and gives −0.1 + 20; no birth gives −0.1 and no change |
| `Creatures.Creature.PhotosynthesizeAction` | creature.py:159-162 | gains e = SUNLIGHT_INTENSITY × sunlight efficiency × 0.1 with reward −0.1 + e/2 |
| `Creatures.Creature.StayAction` | creature.py:163-164 | reward −0.05 and no field changes |
| `Creatures.Creature.ExecuteAction` | creature.py:128-166 | each action has exactly the effect its predicate states, from the base reward −0.1, and the world stays valid. Every action states the new grid: MOVE and EAT change only the cells named above, and the other three keep the grid |
| `Creatures.Creature.Update` | creature.py:191-199 | the age rises by 1 and the decay is paid. The creature is alive afterwards exactly when it was alive and the energy after decay is positive, so it never revives. The energy is then capped at the maximum |
| `Creatures.ChildChromosome` | creature.py:181-182 | a fresh, well-formed copy of the parent's genes, mutated with the draws |
| `Creatures.Offspring` | creature.py:181-186 | the child at the cell with the mutated genes, noisy brain, given generation and energy, and the next id |
| `Creatures.ChildParts` | creature.py:181-183 | the mutated gene copy and the noisy brain copy with the parent's rates |
| `Simulations.Permute` | simulation.py:29 | definition: the shuffled snapshot has the same length, and position k holds the entry the permutation names (what shuffling keeps is stated by `PermuteDistinct` and `PermuteCovers`) |
| `Simulations.PermuteDistinct` | simulation.py:29 | shuffling a list without repetitions gives one without repetitions |
| `Simulations.PermuteCovers` | simulation.py:29 | every listed creature appears in the shuffled snapshot |
| `Simulations.Vitals` | simulation.py:32-34 | definition: each creature's age and liveness, in list order (the per-turn change is stated by `Simulation.VisitAll`) |
| `Simulations.Positions` | world.py:72-101 | definition: each listed creature's position is where it stands (used by `SyncedAfterTurn`, `SyncedAfterRemove` and `SyncedAfterAdd`) |
| `Simulations.SyncedAfterTurn` | simulation.py:35-36 | after one creature has moved (or stayed) and the index has followed it, the list and the index agree again |
| `Simulations.EatNeverOffered` | creature.py:118-120 | while the list and the index agree, a listed creature's own cell is tagged CREATURE, so EAT is not among its valid actions |
| `Simulations.Dead` | simulation.py:42 | the dead list holds exactly the listed creatures that are not alive, without repetitions when the list has none |
| `Simulations.Keep` | simulation.py:43-44 | the entries not removed, in list order |
| `Simulations.KeepRemove` | simulation.py:44 | in a list without repetitions, one more `list.remove` is keeping one entry fewer |
| `Simulations.SyncedAfterRemove` | simulation.py:44 | after removing a listed creature from the list and the index, the two agree again |
| `Simulations.AgeKeyed` | simulation.py:48 | definition: each creature paired with its age, in list order (the sort's properties are stated by `SortedAges` and `OldestFacts`) |
| `Simulations.Unkeyed` | simulation.py:48 | definition: the creatures of the pairs, in order (used by `Oldest` and `OldestFacts`) |
| `Simulations.Oldest` | simulation.py:48-50 | the slice `[:excess]` of the sorted list has `excess` entries |
| `Simulations.SortedAges` | simulation.py:48 | the sorted pairs are descending by age, a permutation of the creatures keyed by their ages, each once |
| `Simulations.OldestFacts` | simulation.py:48-52 | the evicted creatures are distinct listed creatures, and none is younger than any creature kept |
| `Simulations.SyncedAfterAdd` | world.py:72-79 | appending an unlisted creature at an unindexed cell, and indexing it there, keeps the list and the index in step |
| `Simulations.Newcomer` | simulation.py:21 | `Creature(x, y)` with defaults: a new, well-formed creature, alive, aged 0, of generation 0, with the next id |
| `Simulations.Simulation.constructor` | simulation.py:9-13 | the simulation runs. Spawning keeps the resources and the old creatures first in the list, adds at most INITIAL_CREATURE_COUNT creatures, and counts one birth for each |
| `Simulations.Simulation.Spawn` | simulation.py:15-24 | at most one creature per slot. The old creatures stay first. Each added creature is new, alive, aged 0, of generation 0, inside [2, size-3] and on a cell that was EMPTY. One birth and one id per addition; no cell becomes EMPTY |
| `Simulations.Simulation.EmptyCells` | world.py:137-141 | definition: exactly the positions `is_empty` accepts (how placements shrink it is stated by `Try`, `Place` and `Enter`) |
| `Simulations.Simulation.FirstEmpty` | simulation.py:17-20 | the first try naming an EMPTY cell, with none before it, or the count when there is none |
| `Simulations.Simulation.Try` | simulation.py:17-24 | a creature is placed exactly when some try names an EMPTY cell, and then at the first such cell, with one birth and one id. Only that cell stops being EMPTY. Otherwise nothing changes |
| `Simulations.Simulation.Place` | simulation.py:20-23 | on an EMPTY cell, `add_creature` of a new creature succeeds: it joins the end of the list, counts one birth, and exactly that cell stops being EMPTY |
| `Simulations.Simulation.Enter` | world.py:72-79 | adding an unlisted, well-formed creature on an EMPTY cell succeeds and keeps the list and the index in step |
| `Simulations.Simulation.Update` | simulation.py:26-54 | a tick never adds a creature and keeps the scheduler's invariant. The population never grows and ends within MAX_CREATURES. Every creature left is alive, was listed before and is exactly one tick older. Each removal counts one death; births are unchanged; `ticks` rises by 1 and `creature_count` is the population |
| `Simulations.Simulation.Advance` | simulation.py:27-52 | the turns and then the removals: the same population facts as `Update` without the statistics |
| `Simulations.Simulation.Act` | simulation.py:27-40 | `update_resources`, then the turns. The list is kept; each creature is one tick older exactly when it was alive, and none revives |
| `Simulations.Simulation.Sweep` | simulation.py:42-52 | only removals: what is left is alive, was listed and fits the cap, and each removal counts one death |
| `Simulations.Simulation.Replenish` | simulation.py:27 | `update_resources` keeps the scheduler's invariant and the creature list |
| `Simulations.Simulation.Record` | simulation.py:54 | one more tick and the current population in the statistics; births and deaths kept |
| `Simulations.Simulation.RemoveDead` | simulation.py:42-45 | exactly the dead are removed, the survivors keep their order, and that many deaths are counted |
| `Simulations.Simulation.Cap` | simulation.py:47-52 | above the cap, exactly `len − MAX_CREATURES` of the oldest (ties to the earlier listed) are removed, one death each, leaving exactly the cap. Otherwise nothing happens |
| `Simulations.Simulation.Trim` | simulation.py:48-52 | the first `excess` of the age-sorted list are removed, one death each |
| `Simulations.Simulation.Cull` | simulation.py:43-45 | removing each listed creature in turn succeeds: the list keeps exactly the others in order, and one death is counted per removal |
| `Simulations.Simulation.CullStep` | simulation.py:44-45 | one removal round: the next creature leaves and one death is counted |
| `Simulations.Simulation.CountBirth` | simulation.py:23 | `total_births` rises by 1 |
| `Simulations.Simulation.CountDeath` | simulation.py:45 | `total_deaths` rises by 1 |
| `Simulations.Simulation.Drop` | simulation.py:44 | `remove_creature` of a listed creature takes its first occurrence out of the list and keeps the invariant |
| `Simulations.Simulation.VisitAll` | simulation.py:32-40 | dead creatures are skipped and each live one takes one turn. The list is kept; each queued creature ends one tick older exactly when it was alive at the start, and none revives |
| `Simulations.Simulation.VisitLoop` | simulation.py:32-40 | the loop over the whole queue gives every queued creature its turn |
| `Simulations.Simulation.VisitStep` | simulation.py:33-40 | the creature at position k takes its turn when alive and is skipped otherwise; no other queued creature changes age or liveness |
| `Simulations.Simulation.Visit` | simulation.py:35-40 | a turn keeps the invariant and the list; only the visited creature ages (by exactly one) or dies |
| `Simulations.Simulation.Turn` | simulation.py:35-40 | decide, execute, update, perceive and learn in that order. The creature ages by one and may only die; the index follows its move to an unindexed cell; the learned action and reward are the ones taken |
| `Simulations.Simulation.Reflect` | simulation.py:37-40 | `update`, then the next state, then `learn` records the transition |
| `Simulations.Simulation.Observe` | simulation.py:38-39 | the next state's `can_reproduce` is energy ≥ threshold |
| `Simulations.Simulation.Decide` | simulation.py:35 | the table is kept or gains a zero row for the state |
| `Simulations.Simulation.Execute` | simulation.py:36 | the list is kept and the index follows the creature when it moves, to a cell nobody was indexed at |
| `Stats.HistogramCounts` | statistics.py:35-36 | each count of the generation distribution is the number of creatures of that generation |
| `Stats.HistogramKeys` | statistics.py:35-36 | the distribution's keys are exactly the generations that occur |
| `Stats.MaxGenerationIsMax` | statistics.py:32-38 | the running maximum bounds every generation and, with creatures present, is one of them |
| `Stats.HistogramTotal` | statistics.py:35-36 | the distribution's counts sum to the number of creatures |
| `Stats.Statistics.constructor` | statistics.py:8-21 | every counter and aggregate starts at zero or empty |
| `Stats.Statistics.Update` | statistics.py:23-47 | `ticks` rises by 1 and `creature_count` is the population; the peak is the larger of the old peak and the count. With creatures present, distribution, maximum, mean generation and the five trait means are recomputed; without, they keep their old values. Births and deaths are kept |
| `Stats.Statistics.Summarise` | statistics.py:29-47 | the non-empty block clears and refills the distribution, restarts the maximum from 0, and divides the totals by the count |
| `Stats.Statistics.Tally` | statistics.py:35-43 | the loop yields the distribution, the generation total, the running maximum and the five trait sums |
| `Stats.AveragedAt` | statistics.py:46-47 | each summed trait gets its mean and every other stored average is kept |
| `Stats.AddTraitsSums` | statistics.py:39-43 | one round puts every trait key in the sums, grown by the creature's value |

## Left out

- `visualization.py`, `save_manager.py` and `main.py` are not part of this model: UI, pickling and
  file I/O, and the interactive loop.
- The wall-clock parts of `statistics.py` (`time.time`, `start_time`, `ticks_per_second`,
  `last_update_time`, `get_elapsed_time`) and the `get_summary` / `print_summary` formatting:
  clocks and I/O.
- The random distributions themselves. `random.random`, `gauss`, `shuffle`, `choice` and
  `np.random.normal` enter as supplied values.
  - `randint(a, b)` is written as a + ⌊(b − a + 1) · u⌋.
  - `uniform(a, b)` is written as CPython computes it, a + (b − a) · u.
- Draws the program makes and then discards are not modelled. `Chromosome.copy` and `crossover`
  first build a `Chromosome()`, drawing 13 throw-away values, and then overwrite its genes; the
  model fills an empty dictionary instead.
- The layout of the wall clusters is given as the sampled cells, each already in [3, size−3] as
  centre ± offset puts it. How many clusters and cells there are is not modelled.
- `random.randint(2, size − 3)` in spawning raises `ValueError` when a dimension is below 5.
  `AttemptsFit` requires sampled cells in range, so that error path is not modelled.
  - The same applies to the sampled cells of `_initialize_world` and `update_resources`, which
    the callers' `requires` place in the ranges the program draws from.
- The `visible_cells` entry of `perceive` is always an empty list and is not modelled. The
  `Sunlight` tag is declared but never placed.
- Floats are modelled as `real`: no IEEE rounding, overflow or NaN. `np.clip` is min/max and
  Q-vectors are length-8 sequences.
- The `config` constants are a parameter. No assumption about their values (such as
  MOVEMENT_COST ≥ 0) is needed by any contract.
- The class-level `Creature.next_id` is an `IdCounter` object passed to whatever constructs a
  creature. `Creatures.Creature.constructor` takes the id drawn by `TakeId`; `NewCreature`
  combines the two.
- Creatures.Creature.Breed: the parent pays the reproduction cost before, not after, the child is
  built. No step of building the child reads the parent's energy, so this changes only the order.
- Methods that act on a creature require only that its chromosome is well formed, not the full
  `Creature.Valid` (trait cache agreeing with the genes). Every constructor establishes the
  latter and nothing changes the genes afterwards.
- The offspring of REPRODUCE is dropped, as the program drops it. That the population never grows
  is a property of the program, not a simplification.
- The grid and the resource map are not kept in step, as the program does not keep them.
  Consequently `World.Valid` does not relate them.
- Creatures.Creature.DecideAction: states that the greedy action has a maximal Q-value but not
  that it is the first such one. `Learning.Brain.ChooseAction`, which it calls, states the
  first-of-ties rule.
- Simulations.Simulation.Spawn: states the counts, the new creatures' facts and that they stand on
  cells EMPTY before. The per-slot rule (the first EMPTY try wins) is stated by
  `Simulations.Simulation.Try` and not lifted to the whole loop.
- Simulations.Simulation.constructor: states the counts only. The facts about the new creatures
  are those of `Simulations.Simulation.Spawn`.
- Simulations.Simulation.Update: states the population, death, birth, tick and count facts. The
  resource steps, the Q-table changes and the statistics' aggregates of a tick are stated by the
  members it calls (`Worlds.World.UpdateResources`, `Learning.Brain.Learn`,
  `Stats.Statistics.Update`), not restated for the whole tick.
- Simulations.Simulation.Replenish: states only that the scheduler's invariant and the creature
  list are kept. The resource effects are those of `Worlds.World.UpdateResources`.
- Simulations.Simulation.Observe: states only the `can_reproduce` part of the next state. The
  bucketing is `Learning.GetStateRepresentation` of `Creatures.Creature.Perceive`.
- Simulations.Simulation.Decide: states only what happens to the Q-table. The choice is stated by
  `Creatures.Creature.DecideAction`.
- Simulations.Simulation.Execute: states the list and index facts the scheduler needs. The
  per-action rewards and effects are those of `Creatures.Creature.ExecuteAction`.
- Simulations.Simulation.Visit: states the list, age and liveness facts the scheduler needs, not
  the action's effects.
- Simulations.Simulation.Turn: states the index, age, liveness and learning facts the scheduler
  needs, not the action's effects.
- Worlds.World.PlaceSpots: states only that the frame stays walled. What each placement does is
  stated by `Worlds.World.Place`.
- Worlds.World.WallCells: states only that the frame stays walled. What each wall does is stated
  by `Worlds.World.PlaceWall`.
- Worlds.World.constructor: states the border property and an empty creature index. Which interior
  cells hold food, plants or cluster walls is not stated.
