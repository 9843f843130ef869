# Deep-sea evolution simulation: a verified model of its engine

The simulation places a population of creatures at depths between 0 and 6000 m in an
ocean of four layers. Each creature carries a dictionary of nine categorical traits
(vision, food strategy, body type, locomotion, size, pressure adaptation, temperature,
defense, social) and ten numeric ones (movement efficiency, reproduction rate, metabolic
rate and so on). Its species name joins a depth prefix and a vision suffix.

One generation works as follows:
1. Every creature is scored for its layer. Creatures with fitness above 1.0 stay alive.
2. The alive creatures' species are logged.
3. The survivors reproduce by mutation, in proportion to their fitness and reproduction rate.
4. If the population is still short, mutated offspring of the five fittest survivors fill it back to its old size.

A separate utility bins the alive creatures of a run by depth and by visual category, and
averages such tables over several runs.

The model has nine Dafny modules:
- `Dicts`: the insertion-ordered Python dictionary, as an association list.
- `Environment`: the layers and `get_layer`.
- `Traits`: the trait schema, random creation and the mutation operator on trait values.
- `Creatures`: species names, the compatibility score, and the `Creature` class with its constructor and `Mutate`.
- `Fitness`: `evaluate_fitness` and its helpers.
- `Selection`: survivors, offspring counts, the top-five ranking, and the specification of the next generation.
- `Diversity`: the species log.
- `Simulations`: the `Simulation` class with `RunGeneration`, `LogSpeciesDiversity` and `Run`.
- `Utils`: `aggregate_species_by_depth` and `average_aggregations`.

Every random draw is an explicit parameter. Coins are reals in [0, 1). There are option
indices, numeric deltas bounded by the trait's mutation strength, depth variations in
[-500, 500] and fill depths in 0..6000. Each kind of draw comes with a validity predicate.

The objects the source updates in place are classes:
- `Creature` and `Simulation` have fields.
- Methods such as `Simulation.RunGeneration` are loops proved against specification functions over value snapshots (`View`), such as `Selection.NextGeneration`.
- Properties of those functions are proved as lemmas.

Some facts about the source shape the model:
- `evaluate_fitness` (simulation.py:20) calls `calculate_trait_compatibility`, which creature.py does not define. The model uses `calculate_compatibility` (creature.py:125).
- The eight `_evaluate_*_fitness` helpers get the running score by value, so their additions never reach the stored fitness. The stored fitness is therefore `max(0, compatibility + food bonus)`.
- Three helpers read keys the creature never has: "defense_mechanism", "social_behavior" and "temperature_tolerance". `Fitness.FitnessAsWrittenRaises` shows that as written they raise for every creature. The model keeps the helpers as term functions outside the fitness.
- Offspring keep the species name derived from the parent's depth, even after their depth is overwritten. The model keeps this behaviour (`Selection.OffspringSpec`).

## Model

| member | source | states |
|---|---|---|
| Environment.SearchFrom | environment.py:18-22 | the search returns the first band from position i that contains the depth; when none does, it returns the last band ("Abyss") |
| Environment.GetLayer | environment.py:17-22 | `get_layer` always returns one of the four layers; for 0 <= d < 6000 that layer contains d; otherwise it is "Abyss" |
| Environment.BandsContiguous | environment.py:10-15 | the bands start at 0 and end at 6000; each band is non-empty and ends where the next begins |
| Environment.GetLayerUnique | environment.py:17-21 | any band that contains the depth is the band `get_layer` returns |
| Environment.FoodTypeByDepth | environment.py:11-14 | food type by depth: [0,100) photosynthesis, [100,1000) organics, [1000,4000) marine snow, anything else chemosynthesis |
| Traits.NamesDistinct | creature.py:29-49 | the nineteen keys of a freshly drawn trait dictionary are pairwise distinct |
| Traits.Clamp | creature.py:118 | `max(low, min(high, x))` lies in [low, high] and is x itself when x is already in range |
| Traits.AssignFromKeys | creature.py:29-49 | building the dictionary from names and values gives exactly the listed names as keys |
| Traits.AssignFromAt | creature.py:29-49 | with distinct names, each name maps to its own value |
| Traits.RandomTraits | creature.py:29-49 | a drawn trait dictionary has exactly the nineteen schema keys, and every value lies in its option list or range |
| Traits.NumericPass | creature.py:115-119 | the numeric loop keeps every numeric trait present and numeric |
| Traits.CategoricalPassKeepsNumeric | creature.py:98-100 | the categorical loop leaves the numeric traits present |
| Traits.CategoricalPassAt | creature.py:98-100 | after the categorical loop, a trait whose coin fell below the rate holds its drawn option; every other trait is copied unchanged, present or absent |
| Traits.CategoricalPassOther | creature.py:98-100 | the categorical loop does not touch any key outside the categorical schema |
| Traits.NumericPassAt | creature.py:115-119 | after the numeric loop, a trait whose coin fell below the rate is `clamp(old + delta, low, high)`; the others are unchanged |
| Traits.NumericPassOther | creature.py:115-119 | the numeric loop does not touch any key outside the numeric schema |
| Traits.MutatedCategorical | creature.py:98-100 | in a mutated dictionary, a categorical trait whose coin fired takes a value from its option list; otherwise it is copied unchanged |
| Traits.MutatedNumeric | creature.py:115-119 | a numeric trait whose coin did not fire is unchanged; one whose coin fired is clamped into [low, high], and if the old value was in range it moves by at most the trait's strength |
| Traits.MutatedOther | creature.py:84-119 | keys outside the schema are kept as they were |
| Traits.SchemaKeyCases | creature.py:86-113 | a key belongs to the schema exactly when it is a categorical or a numeric trait name |
| Traits.MutatedHasKey | creature.py:84-119 | a key is in the mutated dictionary exactly when it was in the parent's dictionary or is a categorical key whose coin fired |
| Traits.MutatedKeepsKey | creature.py:84-119 | every key of the parent survives mutation |
| Traits.MutatedKeys | creature.py:84-119 | the key set grows only by fired categorical keys; a parent that has every categorical key keeps exactly its key set |
| Traits.MutatedConforms | creature.py:84-119 | mutating schema-conforming traits gives schema-conforming traits |
| Traits.MutateNoCoinFires | creature.py:98-119 | when no coin falls below the rate, the mutated traits equal the parent's |
| Traits.MutateZeroRate | creature.py:98-119 | `mutate(0.0)` returns traits identical to the parent's, because no coin in [0, 1) is below 0 |
| Creatures.BandLookupSpec | creature.py:74-78 | the depth-band search returns the tag of the first band that contains the depth, or the fallback when no band does |
| Creatures.NamePrefixByDepth | creature.py:58-78 | the name prefix is "Superficie" on [0,200), "Meso" on [200,1000), "Bathy" on [1000,4000), and "Abysso" for every other depth, including negative ones and depths of 6000 and over |
| Creatures.NameSuffixByVision | creature.py:65-80 | each of the six visions gets its suffix; any other value, a number included, gets "mysticus" |
| Creatures.SpeciesNameBoundaryExample | creature.py:57-81 | the name is prefix, a space, then suffix: 150 m with eyes gives "Superficie opticus" and 250 m gives "Meso opticus" |
| Creatures.VisionScores | creature.py:132-158 | every zone table lists only known visions, with scores in [-1.5, 2.2] |
| Creatures.VisionScore | creature.py:132-159 | the vision term lies in [-1.5, 2.2], and is 0 for a vision outside the six |
| Creatures.RequiredPressure | creature.py:162-173 | the required pressure is always one of the four tiers |
| Creatures.TierIndex | creature.py:178-179 | `list(...).index(tier)` is the position of the tier in the tier list |
| Creatures.PressureScore | creature.py:175-184 | the pressure term is 1.5 exactly on the required tier, 0.5 exactly on an adjacent tier, and -1.0 otherwise |
| Creatures.FoodScore | creature.py:187-194 | the food term is one of 0, 1.0, 1.5, 1.8 or 2.0, and only a text strategy scores |
| Creatures.SynergyScore | creature.py:197-205 | the synergy term is 0 or 0.5, and it is 0.5 exactly when the locomotion is listed and the body type is in its list |
| Creatures.Compatibility | creature.py:125-207 | `calculate_compatibility` lies in [-2.5, 6.2] whenever the pressure adaptation is a valid tier |
| Creatures.ConformsCompatibilityDefined | creature.py:128-179 | every schema-conforming creature has the keys the score reads and a valid tier |
| Creatures.Creature.constructor | creature.py:25-55 | the constructor copies the given traits or draws them; it sets the depth, alive, fitness 0.1, age 0 and energy 100, and the name derived from depth and vision |
| Creatures.Creature.Mutate | creature.py:83-123 | `mutate` returns a fresh creature with the mutated traits and the parent's depth, in the newborn state, named from its depth and vision |
| Creatures.ResampleCategorical | creature.py:98-100 | the categorical loop's result is the categorical pass over all nine traits |
| Creatures.PerturbNumeric | creature.py:115-119 | the numeric loop's result is the numeric pass over all ten traits |
| Fitness.FoodBonus | simulation.py:23-40 | the food bonus lies in [0, 2.5]; a listed (food type, strategy) pair yields exactly its table entry, and any non-zero bonus is such an entry; a numeric strategy yields 0 |
| Fitness.EffectiveFitness | simulation.py:14-66 | the stored fitness lies in [0, 8.7] |
| Fitness.EffectiveFitnessExample | simulation.py:14-66 | an eyed, photosynthesising, low-pressure, streamlined swimmer at 50 m scores 8.5 |
| Fitness.VisionTerm | simulation.py:68-89 | the vision helper completes exactly when "vision" is present, and yields the same zone score as the compatibility |
| Fitness.PressureTerm | simulation.py:91-105 | the pressure helper completes exactly when the key is present; it yields 1.5, 2.0 or -1.0, and 2.0 only at 4000 m or deeper |
| Fitness.LocomotionTerm | simulation.py:107-129 | the locomotion helper completes exactly when both keys are present; it yields a value in [0, 1.5] |
| Fitness.SizeTerm | simulation.py:131-146 | the size helper completes exactly when "size" is present; it yields a value in [0, 1.5] |
| Fitness.DefenseTerm | simulation.py:148-160 | the defense helper completes exactly when "defense_mechanism" is present; it yields a value in [-0.5, 1.3] |
| Fitness.SocialTerm | simulation.py:162-174 | the social helper completes exactly when "social_behavior" is present; it yields a value in [0, 1.2] |
| Fitness.MetabolicTerm | simulation.py:176-191 | the metabolic helper completes exactly when its keys are present and comparable; it yields a value in [0, 1.8] |
| Fitness.ToleranceTerm | simulation.py:193-210 | the tolerance helper completes exactly when its keys are present; it yields at most 0.8 |
| Fitness.HelperKeyNotInSchema | simulation.py:150-195 | "defense_mechanism", "social_behavior" and "temperature_tolerance" are not trait keys |
| Fitness.FitnessAsWrittenRaises | simulation.py:43-64 | for every creature with exactly the schema's keys, three helpers raise, so `evaluate_fitness` as written never stores a fitness |
| Fitness.HelpersDiscarded | simulation.py:43-64 | the eight helpers all complete exactly when "size", "defense_mechanism", "social_behavior", "metabolic_rate", "oxygen_efficiency", "temperature_tolerance" and "pressure_tolerance" are present with the types they compare |
| Selection.Evaluated | simulation.py:215-217 | an evaluated creature has the effective fitness, is alive exactly when that fitness is > 1.0, and is otherwise unchanged |
| Selection.EvaluateAll | simulation.py:215-217 | evaluating a population keeps its size and its conformance |
| Selection.EvaluateAllSpec | simulation.py:215-217 | creature i of the evaluated population is creature i evaluated |
| Selection.AliveOnes | simulation.py:223 | the alive creatures are a list of at most the population's length |
| Selection.AliveOnesMembers | simulation.py:223 | a creature is among the alive ones exactly when it is in the population and alive; the list is empty exactly when nobody is alive |
| Selection.AliveIndices | simulation.py:223 | the alive positions are strictly increasing, each holds an alive creature, and every alive creature's position is listed |
| Selection.AliveOnesInOrder | simulation.py:223 | the k-th element of the comprehension is the creature at the k-th alive position, so the alive creatures keep their population order |
| Selection.FittestIndex | simulation.py:226 | `max(..., key=fitness)` picks a valid position |
| Selection.FittestIndexSpec | simulation.py:226 | that position holds the greatest fitness, and no earlier creature is as fit (ties go to the first) |
| Selection.Survivors | simulation.py:223-226 | the survivors are never empty and are no more than the population |
| Selection.SurvivorsSpec | simulation.py:223-226 | the survivors come from the population; they are the alive creatures in order when any is alive, and otherwise the single fittest creature |
| Selection.Trunc | simulation.py:234-236 | `int(x)` truncates toward zero: for x >= 0 it is the floor of x, for x < 0 the integer in [x, x + 1) |
| Selection.OffspringCountBounds | simulation.py:234-236 | a conforming survivor has 0 to 4 offspring: none below fitness 1.0, and at least 2 from fitness 4.0 |
| Selection.OffspringSpec | simulation.py:243-247 | an offspring is a conforming newborn at its new depth with the parent's traits mutated, and its name comes from the parent's depth |
| Selection.Litter | simulation.py:238-248 | one survivor's litter has exactly as many children as asked for |
| Selection.LitterGrow | simulation.py:238-248 | the next loop child extends the litter by exactly that child |
| Selection.LitterNewborn | simulation.py:243-248 | every loop child is a conforming newborn with its depth in [0, 6000] |
| Selection.ReproPhase | simulation.py:232-248 | the reproduction loop yields `min(N, total children of the survivors)` creatures, so it never exceeds the population target |
| Selection.ReproPhaseNewborn | simulation.py:232-248 | every creature of the reproduction phase is a conforming newborn in [0, 6000] |
| Selection.InsertMembers | simulation.py:253 | inserting a position into the ranking adds exactly that position |
| Selection.InsertDistinct | simulation.py:253 | insertion keeps the ranking free of repeats |
| Selection.InsertSorted | simulation.py:253 | insertion keeps the ranking in descending fitness order |
| Selection.InsertStable | simulation.py:253 | inserting a position smaller than every ranked one keeps equal fitnesses in position order, as the stable `sorted` does |
| Selection.RankFromSpec | simulation.py:253 | the ranking is a permutation of the positions in descending order of fitness, with ties in population order (`sorted` is stable) |
| Selection.BestPositions | simulation.py:253 | `[:5]` keeps min(5, number of survivors) valid positions |
| Selection.BestFive | simulation.py:253 | the best survivors are the survivors at the kept positions |
| Selection.RankPrefixDominates | simulation.py:253 | every ranked creature in the kept prefix is at least as fit as every creature left out, and one left out with equal fitness comes later in the population |
| Selection.BestFiveSpec | simulation.py:253 | the best five are distinct survivors in descending fitness; none left out is fitter than any kept; ties are kept in population order, and a left-out survivor tied with a kept one comes after it |
| Selection.ChoiceIndex | simulation.py:255 | a uniform choice in [0, 1) selects a valid index `floor(u * n)` |
| Selection.FillPhase | simulation.py:254-258 | the fill loop adds exactly the missing number of creatures |
| Selection.FillPhaseSnoc | simulation.py:254-258 | each fill turn appends one mutated offspring of a chosen best survivor |
| Selection.FillPhaseNewborn | simulation.py:254-258 | every fill creature is a conforming newborn at an integer depth in 0..6000 |
| Selection.NextGeneration | simulation.py:229-260 | the next generation has exactly N creatures |
| Selection.NextGenerationConforms | simulation.py:229-260 | every member of the next generation conforms to the trait schema |
| Selection.NextGenerationNewborn | simulation.py:229-260 | every creature of the next generation is a conforming newborn with depth in [0, 6000] |
| Selection.NextGenerationParts | simulation.py:229-260 | the next generation is the reproduction loop's `min(N, total)` children followed by the fill loop's offspring of the best five |
| Diversity.AliveNamesMembers | simulation.py:266-268 | a name is logged exactly when some alive creature carries it |
| Diversity.RecordStats | simulation.py:270-273 | recording one more creature gives the record of the enlarged group |
| Diversity.TallyLookup | simulation.py:265-273 | after the first loop, a species' record is the count, fitness sum and depths of its alive members |
| Diversity.TallyKeys | simulation.py:265-273 | the first loop's keys are distinct and are exactly the alive species names |
| Diversity.TallyRecords | simulation.py:265-273 | every record of the first loop has a positive count and at least one depth |
| Diversity.TallyCounts | simulation.py:265-273 | the first loop's counts sum to the number of alive creatures |
| Diversity.MinOf | simulation.py:279 | `min(depths)` is an element no larger than any other |
| Diversity.MaxOf | simulation.py:279 | `max(depths)` is an element no smaller than any other |
| Diversity.SumBounds | simulation.py:272 | a sum of values in [low, high] lies between n times low and n times high |
| Diversity.Finalize | simulation.py:276-279 | the second loop keeps every species, in order |
| Diversity.LogEntryOf | simulation.py:281-285 | the log entry carries the generation it was taken at |
| Diversity.SumByFinalize | simulation.py:276-279 | averaging keeps every species' count |
| Diversity.LogEntryConsistent | simulation.py:265-285 | a log entry has one record per distinct alive name, `total_species` is their number, and the counts sum to the alive creatures |
| Diversity.TallyAt | simulation.py:265-273 | the record at each position is that species' non-empty group of alive members |
| Diversity.AveragedStats | simulation.py:276-279 | an averaged record has min <= max for its depth range, and an average fitness between the group's least and greatest fitness |
| Diversity.LogEntryRecord | simulation.py:265-285 | each logged record gives the count of its alive members, their [min, max] depth range, and an average fitness between their extremes |
| Simulations.Evolve | simulation.py:287-292 | running k generations keeps the population's size and conformance |
| Simulations.ChainStep | simulation.py:291-292 | consecutive populations of a run are one generation apart: the next is `NextGeneration` of the evaluated previous one |
| Simulations.RunLogAt | simulation.py:263-292 | entry g of the log of k generations is the entry (`LogEntryOf`) of the evaluated population of generation g, stamped with the count `count0 + g` |
| Simulations.RunLogEntries | simulation.py:263-292 | every entry of that log is the entry of its evaluated generation, and the generation stamps run consecutively from `count0` |
| Simulations.RunLogStep | simulation.py:281-292 | one more generation appends exactly the entry of the evaluated current population to that log |
| Simulations.NextGenerationSettled | simulation.py:229-260 | a new generation consists of conforming newborns with depths in [0, 6000] |
| Simulations.Simulation.constructor | simulation.py:7-12 | the simulation starts with one fresh creature per given depth, drawn traits, generation count 0 and an empty log |
| Simulations.Simulation.LogSpeciesDiversity | simulation.py:263-285 | `_log_species_diversity` appends exactly the entry of the current population at the current generation count |
| Simulations.Simulation.RunGeneration | simulation.py:212-261 | `run_generation` replaces the population by `NextGeneration` of the evaluated population; it appends one log entry with the pre-increment count and raises the count by 1 |
| Simulations.Simulation.Replace | simulation.py:260-261 | the new creatures become the population and the count rises by 1 |
| Simulations.Simulation.EvaluateAndLog | simulation.py:215-220 | the population is evaluated in place and its entry logged |
| Simulations.Simulation.Advance | simulation.py:291-292 | one turn of `run` moves the population one generation along, raises the count by one and extends the log by the entry of the evaluated population |
| Simulations.Simulation.Run | simulation.py:287-299 | after `run`, the population is `generations` steps of evolution from the start; the count rose by `generations`; the old log is kept as a prefix and the new entries are `RunLog`, the entry of each evaluated generation in turn |
| Simulations.Simulation.Turns | simulation.py:291-292 | the loop of `run` reaches the state after `generations` turns |
| Simulations.CountOne | simulation.py:267-273 | one turn of the first logging loop is `Count` |
| Simulations.TallySpecies | simulation.py:265-273 | the first logging loop builds `Tally` of the population |
| Simulations.AverageSpecies | simulation.py:276-279 | the second logging loop builds `Finalize` of the tally |
| Simulations.NextCreatures | simulation.py:222-260 | the reproduction and fill loops build fresh, distinct creatures whose snapshots are `NextGeneration` |
| Simulations.FillUp | simulation.py:250-258 | topping up appends fill offspring until the target is reached |
| Simulations.Spawn | simulation.py:10 | a random creature is fresh at its depth with drawn traits |
| Simulations.NewCreatures | simulation.py:10 | the initial population has one fresh, distinct creature per depth |
| Simulations.SelectSurvivors | simulation.py:223-226 | the selected creatures' snapshots are `Survivors`, and they come from the population |
| Simulations.EvaluateFitness | simulation.py:14-66 | `evaluate_fitness` changes only the creature's fitness, to the effective fitness |
| Simulations.Judge | simulation.py:215-217 | one evaluation turn leaves the creature as `Evaluated` describes |
| Simulations.EvaluateAllCreatures | simulation.py:215-217 | the evaluation loop turns the population's snapshots into `EvaluateAll` of the old ones |
| Simulations.Breed | simulation.py:243-247 | an offspring is fresh and is the `Offspring` of its parent at the new depth |
| Simulations.ReproductionLoop | simulation.py:232-248 | the reproduction loop builds fresh, distinct creatures whose snapshots are `ReproPhase` |
| Simulations.Brood | simulation.py:234-248 | one survivor's turn appends its capped litter |
| Simulations.Birth | simulation.py:243-248 | one loop child extends the litter by one fresh creature |
| Simulations.Reproduce | simulation.py:238-248 | the inner loop appends `min(children, room left)` fresh children |
| Simulations.LoopChildOf | simulation.py:243-247 | a loop child is fresh and is `LoopChild` |
| Simulations.BestFiveOf | simulation.py:253 | the sorted, truncated survivors are `BestFive` |
| Simulations.FillChildOf | simulation.py:255-258 | a fill child is fresh and is `FillChild` |
| Simulations.FillFromBest | simulation.py:252-258 | the fill loop appends the fill phase of the best five |
| Simulations.FillLoop | simulation.py:254-258 | the fill loop's creatures are fresh and distinct, and their snapshots are `FillPhase` |
| Utils.RoundHalfEven | utils.py:10 | `round` returns an integer within 0.5 of its argument, and the even one on a tie |
| Utils.RoundNearest | utils.py:10 | no integer is nearer to x than `round(x)` |
| Utils.DepthKeyNearest | utils.py:10 | the bin key is a multiple of `step` within `abs(step)/2` of the depth |
| Utils.Category | utils.py:13-27 | an alive creature is counted exactly when its vision is one of the six; `no_eyes` counts as "plants" with photosynthesis and "no_eyes_animal" otherwise; other visions count under their own name |
| Utils.ConformingCounted | utils.py:13-27 | every schema-conforming creature has a category |
| Utils.Classify | utils.py:11-27 | the `if`/`elif` chain selects `Category` |
| Utils.BumpLookup | utils.py:14 | `agg[key][cat] += 1` raises that counter by one and no other |
| Utils.BumpTotal | utils.py:14 | an increment raises the grand total by one |
| Utils.TickLookup | utils.py:7-27 | a dead or uncategorised creature leaves the table unchanged; any other creature raises only the counter of its bin and category |
| Utils.AggregateLookup | utils.py:4-28 | each counter equals the number of alive creatures of that category in that bin |
| Utils.AggregateTotal | utils.py:4-28 | the grand total equals the number of alive creatures with a known vision |
| Utils.AggregateAliveOnly | utils.py:7-8 | dropping the dead creatures first gives the same table |
| Utils.Increment | utils.py:14 | the read-modify-write through the default dictionaries is `Bump` |
| Utils.AggregateSpeciesByDepth | utils.py:4-28 | the loop builds `Aggregate` of the creatures |
| Utils.AddRowCell | utils.py:35-36 | adding one run's row for depth d adds `agg[d][s]` to each listed species' cell and leaves every other cell unchanged |
| Utils.AddRunCell | utils.py:34-36 | adding one run adds `agg[d][s]` to every listed (d, s) cell and leaves the rest unchanged |
| Utils.AccumulateCell | utils.py:33-36 | after the accumulation loop, each listed cell holds the sum over the runs, absent entries counting as 0 |
| Utils.DivRowCell | utils.py:39-40 | dividing a row divides each listed species' cell by the number of runs |
| Utils.DivAllCell | utils.py:38-40 | the division loop divides every listed cell by the number of runs |
| Utils.AveragedCell | utils.py:30-42 | `avg[d][s]` is the sum of `agg[d][s]` over the runs divided by their number, and 0 for an unlisted (d, s) |
| Utils.AverageAggregations | utils.py:30-42 | the two loops compute `Averaged` |
| Utils.AddRunLoop | utils.py:34-36 | the loop over depths for one run computes `AddRun` |
| Utils.AddRowLoop | utils.py:35-36 | the loop over species for one depth computes `AddRow` |
| Utils.DivRowLoop | utils.py:39-40 | the division loop over species for one depth computes `DivRow` |

## Left out

- Randomness: `random.choice`, `random.uniform`, `random.random` and `random.randint` are replaced by draw parameters with range predicates. No distributions or probabilities are modelled.
- Floating point: depths, traits and scores are exact reals. Python's float rounding in sums and divisions is not modelled.
- `round` in utils.py:10 is modelled exactly on reals, as round-half-to-even. The float quotient `depth / step` that feeds it in the source is not modelled.
- Depth is one real field. The source stores an integer at creation and a float after reproduction.
- Printing and progress output in `run`, `__str__` and `description`: output only.
- `get_species_summary`, visualize.py, interactive_depth.py and main.py: not part of the engine.
- `aggregate_species_by_depth`'s `max_depth` parameter: the source never reads it.
- Utils.AggregateSpeciesByDepth: requires `step != 0`, where the source raises `ZeroDivisionError`.
- Utils.AggregateSpeciesByDepth: requires the traits it reads to be present, where the source raises `KeyError`.
- Utils.AverageAggregations: the result is an unordered map. The source returns nested default dictionaries whose iteration order nothing reads.
- Utils.AverageAggregations: the source's reads of `agg[d][s]` insert zero entries into the input dictionaries; the model reads without writing.
- Utils.AverageAggregations: requires at least one run whenever there is a cell to divide, where the source raises `ZeroDivisionError`.
- Utils.AccumulateCell: proved only for lists of distinct depths and distinct species. With repeats the source adds a run's value once per occurrence.
- Utils.AveragedCell: proved only for lists of distinct depths and distinct species. With repeats the source also divides once per occurrence.
- Creatures.Compatibility: requires a `pressure_adaptation` among the four tiers, where `.index` raises `ValueError`. It also requires the four keys it reads, where the source raises `KeyError`.
- Simulations.Simulation.RunGeneration: requires a non-empty population, where `max` of an empty list raises `ValueError`.
- Simulations.Simulation.RunGeneration: requires schema-conforming traits, which every creature the constructor and `mutate` build has.
- Fitness.EffectiveFitness: follows the method the source evidently calls, `calculate_compatibility`. `calculate_trait_compatibility` (simulation.py:20) does not exist, so the call as written raises `AttributeError`.
- The `_evaluate_*_fitness` helpers are modelled as term functions whose values do not reach the fitness, as in the source.
- Creatures.Creature.constructor: requires "vision" among the given traits when any are given. The source raises `KeyError` at creature.py:79 otherwise. Every call in the engine passes a dictionary that has it.
- Creatures.Creature.Mutate: requires all ten numeric traits and "vision" in the parent. The source fails at creature.py:117 only for a missing numeric key whose coin fires, and at creature.py:79 only when "vision" is missing and its coin does not fire. Every parent in the engine has all of them.
- Creatures.Creature.constructor: an empty `traits` dictionary and `None` are both treated as "draw every trait", as the source's truthiness test does.
