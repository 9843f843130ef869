/** The simulation object (simulation.py): a population of creature objects, a
    generation counter and the species log, and the generation step that evaluates,
    logs, selects and replaces the population in place. */
module Simulations {
  import opened Dicts
  import opened Traits
  import opened Environment
  import opened Creatures
  import opened Fitness
  import opened Selection
  import opened Diversity

  /** The populations of `k` successive generations, starting from `vs`. */
  function Evolve(vs: seq<View>, draws: seq<GenerationDraws>, k: nat): (r: seq<View>)
    requires |vs| > 0 && AllConform(vs) && k <= |draws|
    requires forall g :: 0 <= g < |draws| ==> ValidGenerationDraws(draws[g], |vs|)
    ensures |r| == |vs| && AllConform(r)
    decreases k
  {
    if k == 0 then vs
    else
      var prev := Evolve(vs, draws, k - 1);
      NextGenerationConforms(EvaluateAll(prev), draws[k - 1]);
      NextGeneration(EvaluateAll(prev), draws[k - 1])
  }

  /** `pops` lists the first `|pops|` populations of `Evolve` from `start`. */
  predicate Chain(start: seq<View>, draws: seq<GenerationDraws>, pops: seq<seq<View>>)
    requires |start| > 0 && AllConform(start) && |pops| <= |draws| + 1
    requires forall g :: 0 <= g < |draws| ==> ValidGenerationDraws(draws[g], |start|)
  {
    forall g {:trigger Evolve(start, draws, g)} :: 0 <= g < |pops| ==> Evolve(start, draws, g) == pops[g]
  }

  /** Consecutive populations of a chain are one generation apart. */
  lemma ChainStep(start: seq<View>, draws: seq<GenerationDraws>, pops: seq<seq<View>>, gen: nat)
    requires |start| > 0 && AllConform(start) && gen + 1 < |pops| <= |draws| + 1
    requires forall g :: 0 <= g < |draws| ==> ValidGenerationDraws(draws[g], |start|)
    requires Chain(start, draws, pops)
    ensures |pops[gen]| == |start| && AllConform(pops[gen]) &&
      pops[gen + 1] == NextGeneration(EvaluateAll(pops[gen]), draws[gen])
  {
    assert Evolve(start, draws, gen) == pops[gen];
    assert Evolve(start, draws, gen + 1) == pops[gen + 1];
  }

  /** The sequence `f(0), ..., f(k - 1)`, built by appending. */
  function Snoc<T>(f: nat -> T, k: nat): (r: seq<T>)
    ensures |r| == k
  {
    if k == 0 then [] else Snoc(f, k - 1) + [f(k - 1)]
  }

  /** One more step appends `f(k)`. */
  lemma SnocNext<T>(f: nat -> T, k: nat)
    ensures Snoc(f, k + 1) == Snoc(f, k) + [f(k)]
  {
  }

  /** Position `g` of `Snoc(f, k)` holds `f(g)`. */
  lemma {:induction false} SnocAt<T>(f: nat -> T, k: nat, g: nat)
    requires g < k
    ensures Snoc(f, k)[g] == f(g)
    decreases k
  {
    if g + 1 < k {
      SnocAt(f, k - 1, g);
    }
  }

  /** The log entry of each generation evolved from `vs`: generation `g`, once evaluated,
      stamped with the generation count `count0 + g` (generations past the draws get an
      empty entry and never occur). */
  function GenerationEntries(vs: seq<View>, draws: seq<GenerationDraws>, count0: int): nat -> LogEntry
    requires |vs| > 0 && AllConform(vs)
    requires forall g :: 0 <= g < |draws| ==> ValidGenerationDraws(draws[g], |vs|)
  {
    (g: nat) => if g < |draws| then LogEntryOf(EvaluateAll(Evolve(vs, draws, g)), CountAfter(count0, g))
                else LogEntry(CountAfter(count0, g), [], 0)
  }

  /** The generation count after `g` generations from `count0`. */
  function CountAfter(count0: int, g: nat): int
  {
    count0 + g
  }

  /** The log entries `run()` appends over `k` generations evolved from `vs`, from the
      generation count `count0`. */
  function RunLog(vs: seq<View>, draws: seq<GenerationDraws>, count0: int, k: nat): (r: seq<LogEntry>)
    requires |vs| > 0 && AllConform(vs) && k <= |draws|
    requires forall g :: 0 <= g < |draws| ==> ValidGenerationDraws(draws[g], |vs|)
    ensures |r| == k
  {
    Snoc(GenerationEntries(vs, draws, count0), k)
  }

  /** Entry `g` of the log of `k` generations is the entry of the evaluated generation `g`. */
  lemma {:induction false} RunLogAt(vs: seq<View>, draws: seq<GenerationDraws>, count0: int, k: nat, g: nat)
    requires |vs| > 0 && AllConform(vs) && k <= |draws|
    requires forall g :: 0 <= g < |draws| ==> ValidGenerationDraws(draws[g], |vs|)
    requires g < k
    ensures RunLog(vs, draws, count0, k)[g] == LogEntryOf(EvaluateAll(Evolve(vs, draws, g)), count0 + g)
  {
    SnocAt(GenerationEntries(vs, draws, count0), k, g);
  }

  /** Every entry of the log of `k` generations is the entry of its evaluated generation. */
  lemma RunLogEntries(vs: seq<View>, draws: seq<GenerationDraws>, count0: int, k: nat)
    requires |vs| > 0 && AllConform(vs) && k <= |draws|
    requires forall g :: 0 <= g < |draws| ==> ValidGenerationDraws(draws[g], |vs|)
    ensures forall g :: 0 <= g < k ==>
      RunLog(vs, draws, count0, k)[g] == LogEntryOf(EvaluateAll(Evolve(vs, draws, g)), count0 + g) &&
      RunLog(vs, draws, count0, k)[g].generation == count0 + g
  {
    forall g | 0 <= g < k
      ensures RunLog(vs, draws, count0, k)[g] == LogEntryOf(EvaluateAll(Evolve(vs, draws, g)), count0 + g)
      ensures RunLog(vs, draws, count0, k)[g].generation == count0 + g
    {
      RunLogAt(vs, draws, count0, k, g);
    }
  }

  /** One more generation of a chain appends the entry `e` of the evaluated population
      `pops[gen]` to the log. */
  lemma {:induction false} RunLogStep(start: seq<View>, draws: seq<GenerationDraws>, pops: seq<seq<View>>,
                                      count0: int, gen: nat, e: LogEntry)
    requires |start| > 0 && AllConform(start) && gen + 1 < |pops| <= |draws| + 1
    requires forall g :: 0 <= g < |draws| ==> ValidGenerationDraws(draws[g], |start|)
    requires Chain(start, draws, pops) && AllConform(pops[gen])
    requires e == LogEntryOf(EvaluateAll(pops[gen]), count0 + gen)
    ensures RunLog(start, draws, count0, gen + 1) == RunLog(start, draws, count0, gen) + [e]
  {
    assert pops[gen] == Evolve(start, draws, gen);
    assert GenerationEntries(start, draws, count0)(gen) ==
      LogEntryOf(EvaluateAll(Evolve(start, draws, gen)), count0 + gen);
    SnocNext(GenerationEntries(start, draws, count0), gen);
  }

  /** Appending to a log that extends `log0` by `a` extends it by `a + [e]`. */
  lemma Appended<T>(log0: seq<T>, a: seq<T>, e: T, log: seq<T>, next: seq<T>)
    requires log == log0 + a && next == log + [e]
    ensures next == log0 + (a + [e])
  {
  }

  /** Every creature conforms to the trait schema and lives within the ocean's depth. */
  predicate Settled(vs: seq<View>)
  {
    forall i :: 0 <= i < |vs| ==> Conforms(vs[i].traits) && 0.0 <= vs[i].depth <= 6000.0
  }

  /** Every member of the next generation conforms and lives within the ocean. */
  lemma NextGenerationSettled(evaluated: seq<View>, draws: GenerationDraws)
    requires |evaluated| > 0 && AllConform(evaluated) && ValidGenerationDraws(draws, |evaluated|)
    ensures Settled(NextGeneration(evaluated, draws))
  {
    NextGenerationNewborn(evaluated, draws);
  }

  class Simulation {
    const generations: nat
    var creatures: seq<Creature>
    var generationCount: int
    var speciesLog: seq<LogEntry>

    /** Distinct creature objects, each conforming to the trait schema and within the
        ocean's depth. */
    predicate Valid()
      reads this`creatures, creatures
    {
      (forall i, j :: 0 <= i < j < |creatures| ==> creatures[i] != creatures[j]) &&
      Settled(Population())
    }

    function Population(): (vs: seq<View>)
      reads this`creatures, creatures
      ensures |vs| == |creatures|
    {
      Views(creatures)
    }

    /** `Simulation(n_creatures, generations)`: creature `i` at the drawn integer depth
        `depths[i]` with traits drawn by `draws[i]`. */
    constructor (depths: seq<int>, draws: seq<CreationDraws>, generations: nat)
      requires |draws| == |depths|
      requires forall i :: 0 <= i < |depths| ==> 0 <= depths[i] <= 6000
      requires forall i :: 0 <= i < |draws| ==> ValidCreationDraws(draws[i])
      ensures Valid() && this.generations == generations
      ensures generationCount == 0 && speciesLog == []
      ensures |creatures| == |depths|
      ensures forall i :: 0 <= i < |creatures| ==>
        fresh(creatures[i]) && creatures[i].depth == depths[i] as real &&
        creatures[i].traits == RandomTraits(draws[i])
    {
      var cs := NewCreatures(depths, draws);
      this.generations := generations;
      creatures := cs;
      generationCount := 0;
      speciesLog := [];
    }

    /** `_log_species_diversity()`: appends the entry of the current population,
        stamped with the current generation count. */
    method LogSpeciesDiversity()
      modifies this`speciesLog
      ensures speciesLog == old(speciesLog) + [LogEntryOf(Population(), generationCount)]
    {
      var tally := TallySpecies(creatures);
      TallyRecords(Population());
      var counts := AverageSpecies(tally);
      speciesLog := speciesLog + [LogEntry(generationCount, counts, |counts|)];
    }

    /** `run_generation()`: evaluate, log, select, reproduce, fill, replace, count. */
    method RunGeneration(draws: GenerationDraws)
      requires Valid() && |creatures| > 0 && ValidGenerationDraws(draws, |creatures|)
      modifies this, creatures
      ensures Valid()
      ensures forall i :: 0 <= i < |creatures| ==> fresh(creatures[i])
      ensures Population() == NextGeneration(EvaluateAll(old(Population())), draws)
      ensures speciesLog == old(speciesLog) + [LogEntryOf(EvaluateAll(old(Population())), old(generationCount))]
      ensures generationCount == old(generationCount) + 1
    {
      EvaluateAndLog();
      ghost var evaluated := Population();
      var nextGen := NextCreatures(creatures, draws);
      assert Views(creatures) == evaluated;
      Replace(nextGen);
    }

    /** The end of `run_generation()`: the next generation replaces the population and
        the generation count advances. */
    method Replace(nextGen: seq<Creature>)
      modifies this`creatures, this`generationCount
      ensures creatures == nextGen && generationCount == old(generationCount) + 1
      ensures Population() == old(Views(nextGen))
    {
      creatures := nextGen;
      generationCount := generationCount + 1;
    }

    /** The first half of `run_generation()`: every creature evaluated, then the
        diversity of the evaluated population logged. */
    method EvaluateAndLog()
      requires Valid()
      modifies this`speciesLog, creatures
      ensures Population() == EvaluateAll(old(Population()))
      ensures speciesLog == old(speciesLog) + [LogEntryOf(Population(), generationCount)]
    {
      EvaluateAllCreatures(creatures);
      label Logging:
      LogSpeciesDiversity();
      assert Population() == old@Logging(Population());
    }

    /** The state after `gen` turns of `run()`'s loop over the populations `pops`
        evolved from `start`, from the generation count `count0` and the log `log0`:
        the population is `pops[gen]` and the log is `log0` followed by the log of
        `gen` generations. */
    predicate Progress(start: seq<View>, draws: seq<GenerationDraws>, pops: seq<seq<View>>, gen: nat,
                       count0: int, log0: seq<LogEntry>)
      requires |start| > 0 && AllConform(start) && gen < |pops| && gen <= |draws|
      requires forall g :: 0 <= g < |draws| ==> ValidGenerationDraws(draws[g], |start|)
      reads this, creatures
    {
      Valid() && |creatures| == |start| && Population() == pops[gen] &&
      generationCount == count0 + gen && speciesLog == log0 + RunLog(start, draws, count0, gen)
    }

    /** One turn of `run()`'s loop: generation `gen` of the populations `pops`
        that start from `start`. */
    method Advance(ghost start: seq<View>, draws: seq<GenerationDraws>, ghost pops: seq<seq<View>>,
                   gen: nat, ghost count0: int, ghost log0: seq<LogEntry>)
      requires |start| > 0 && AllConform(start) && gen + 1 < |pops| <= |draws| + 1
      requires forall g :: 0 <= g < |draws| ==> ValidGenerationDraws(draws[g], |start|)
      requires Chain(start, draws, pops)
      requires Progress(start, draws, pops, gen, count0, log0)
      modifies this, creatures
      ensures Progress(start, draws, pops, gen + 1, count0, log0)
      ensures forall i :: 0 <= i < |creatures| ==> fresh(creatures[i])
    {
      ChainStep(start, draws, pops, gen);
      ghost var log, e := speciesLog, LogEntryOf(EvaluateAll(Population()), generationCount);
      RunLogStep(start, draws, pops, count0, gen, e);
      RunGeneration(draws[gen]);
      assert speciesLog == log + [e];
      Appended(log0, RunLog(start, draws, count0, gen), e, log, speciesLog);
    }

    /** `run()` without its progress output: `generations` successive generations,
        each adding to the log the entry of its evaluated population (`RunLogEntries`). */
    method Run(draws: seq<GenerationDraws>)
      requires Valid() && |creatures| > 0 && |draws| >= generations
      requires forall g :: 0 <= g < |draws| ==> ValidGenerationDraws(draws[g], |creatures|)
      modifies this, creatures
      ensures Valid()
      ensures Population() == Evolve(old(Population()), draws, generations)
      ensures generationCount == old(generationCount) + generations
      ensures speciesLog == old(speciesLog) + RunLog(old(Population()), draws, old(generationCount), generations)
    {
      ghost var start, count0, log0 := Population(), generationCount, speciesLog;
      ghost var pops := seq(generations + 1, g requires 0 <= g <= generations => Evolve(start, draws, g));
      assert Chain(start, draws, pops);
      assert speciesLog == log0 + RunLog(start, draws, count0, 0);
      Turns(start, draws, pops, count0, log0);
      assert pops[generations] == Evolve(start, draws, generations);
    }

    /** `run()`'s loop: `generations` turns of `Advance`. */
    method Turns(ghost start: seq<View>, draws: seq<GenerationDraws>, ghost pops: seq<seq<View>>,
                 ghost count0: int, ghost log0: seq<LogEntry>)
      requires |start| > 0 && AllConform(start) && generations <= |draws| && |pops| == generations + 1
      requires forall g :: 0 <= g < |draws| ==> ValidGenerationDraws(draws[g], |start|)
      requires Chain(start, draws, pops)
      requires Progress(start, draws, pops, 0, count0, log0)
      modifies this, creatures
      ensures Progress(start, draws, pops, generations, count0, log0)
    {
      var gen := 0;
      while gen < generations
        invariant 0 <= gen <= generations
        invariant Progress(start, draws, pops, gen, count0, log0)
        invariant gen == 0 ==> creatures == old(creatures)
        invariant gen > 0 ==> forall i :: 0 <= i < |creatures| ==> fresh(creatures[i])
      {
        Advance(start, draws, pops, gen, count0, log0);
        gen := gen + 1;
      }
    }
  }

  /** The body of `_log_species_diversity`'s first loop for the creature `c`. */
  method CountOne(counts: Dict<string, SpeciesStats>, c: Creature) returns (next: Dict<string, SpeciesStats>)
    ensures next == Count(counts, ViewOf(c))
  {
    next := counts;
    if c.alive {
      var entry := GetOr(counts, c.speciesName, NoStats);
      entry := entry.(count := entry.count + 1);
      entry := entry.(avgFitness := entry.avgFitness + c.fitness);
      entry := entry.(depthRange := entry.depthRange + [c.depth]);
      assert entry == Record(GetOr(counts, c.speciesName, NoStats), ViewOf(c));
      next := Put(counts, c.speciesName, entry);
    }
  }

  /** The first loop of `_log_species_diversity`: count, fitness total and depths of
      every alive species, keyed by name in order of first appearance. */
  method TallySpecies(creatures: seq<Creature>) returns (counts: Dict<string, SpeciesStats>)
    ensures counts == Tally(Views(creatures))
  {
    ghost var vs := Views(creatures);
    counts := [];
    var i := 0;
    while i < |creatures|
      invariant 0 <= i <= |creatures|
      invariant counts == Tally(vs[..i])
    {
      assert vs[..i + 1][..i] == vs[..i] && vs[..i + 1][i] == vs[i] == ViewOf(creatures[i]);
      counts := CountOne(counts, creatures[i]);
      i := i + 1;
    }
    assert vs[..|creatures|] == vs;
  }

  /** The second loop of `_log_species_diversity`: each record's fitness total divided
      by its count and its depths replaced by their minimum and maximum, in place. */
  method AverageSpecies(tally: Dict<string, SpeciesStats>) returns (counts: Dict<string, SpeciesStats>)
    requires RecordsFilled(tally)
    ensures counts == Finalize(tally)
  {
    counts := tally;
    var j := 0;
    while j < |counts|
      invariant 0 <= j <= |counts| == |tally|
      invariant forall k :: 0 <= k < j ==> counts[k] == Finalize(tally)[k]
      invariant forall k :: j <= k < |counts| ==> counts[k] == tally[k]
    {
      var s := counts[j].1;
      var average := s.avgFitness / s.count as real;
      var range := [MinOf(s.depthRange), MaxOf(s.depthRange)];
      counts := counts[j := (counts[j].0, SpeciesStats(s.count, average, range))];
      j := j + 1;
    }
  }

  /** Selection, the reproduction loop and the fill loop of `run_generation`, over the
      evaluated creatures: the creatures of the next generation, all new. */
  method NextCreatures(creatures: seq<Creature>, draws: GenerationDraws) returns (nextGen: seq<Creature>)
    requires |creatures| > 0 && AllConform(Views(creatures)) && ValidGenerationDraws(draws, |creatures|)
    ensures Views(nextGen) == NextGeneration(Views(creatures), draws) && Settled(Views(nextGen))
    ensures forall j :: 0 <= j < |nextGen| ==> fresh(nextGen[j])
    ensures forall j, k :: 0 <= j < k < |nextGen| ==> nextGen[j] != nextGen[k]
  {
    ghost var evaluated := Views(creatures);
    var survivors := SelectSurvivors(creatures);
    ghost var sv := Views(survivors);
    var target := |creatures|;
    var loopKids := ReproductionLoop(survivors, target, draws.repro);
    assert Views(survivors) == sv;
    label Step:
    nextGen := FillUp(loopKids, survivors, sv, target, draws.fill);
    assert Views(loopKids) == old@Step(Views(loopKids));
    forall j | 0 <= j < |nextGen|
      ensures fresh(nextGen[j])
    {
      if j < |loopKids| {
        assert nextGen[j] == loopKids[j];
      }
    }
    assert Views(creatures) == evaluated;
    assert sv == Survivors(evaluated) && target == |evaluated|;
    NextGenerationUnfold(evaluated, draws);
    NextGenerationSettled(evaluated, draws);
  }

  /** The fill loop of `run_generation`: when the reproduction loop left `next_gen`
      short of `target`, children of the five fittest survivors fill it up. */
  method FillUp(nextGen: seq<Creature>, survivors: seq<Creature>, ghost sv: seq<View>, target: nat,
                draws: seq<FillDraw>)
    returns (grown: seq<Creature>)
    requires Views(survivors) == sv && |sv| > 0 && AllConform(sv)
    requires |nextGen| <= target <= |draws|
    requires forall j :: 0 <= j < |draws| ==> ValidFillDraw(draws[j])
    requires forall j, k :: 0 <= j < k < |nextGen| ==> nextGen[j] != nextGen[k]
    ensures (BestFiveConform(sv);
             Views(grown) == Views(nextGen) + FillPhase(BestFive(sv), target - |nextGen|, draws))
    ensures |nextGen| <= |grown| && grown[..|nextGen|] == nextGen
    ensures forall j :: |nextGen| <= j < |grown| ==> fresh(grown[j])
    ensures forall j, k :: 0 <= j < k < |grown| ==> grown[j] != grown[k]
  {
    BestFiveConform(sv);
    if |nextGen| < target {
      grown := FillFromBest(nextGen, survivors, sv, target, draws);
    } else {
      assert FillPhase(BestFive(sv), target - |nextGen|, draws) == [];
      grown := nextGen;
    }
  }

  /** One creature of the constructor's comprehension, every trait drawn. */
  method Spawn(depth: real, draws: CreationDraws) returns (c: Creature)
    requires ValidCreationDraws(draws)
    ensures fresh(c) && c.depth == depth && c.traits == RandomTraits(draws)
  {
    c := new Creature(depth, map[], draws);
  }

  /** The comprehension of the constructor: one new creature per depth, its traits
      drawn. */
  method NewCreatures(depths: seq<int>, draws: seq<CreationDraws>) returns (cs: seq<Creature>)
    requires |draws| == |depths|
    requires forall i :: 0 <= i < |depths| ==> 0 <= depths[i] <= 6000
    requires forall i :: 0 <= i < |draws| ==> ValidCreationDraws(draws[i])
    ensures |cs| == |depths|
    ensures forall k :: 0 <= k < |cs| ==>
      fresh(cs[k]) && cs[k].depth == depths[k] as real && cs[k].traits == RandomTraits(draws[k])
    ensures forall k, l :: 0 <= k < l < |cs| ==> cs[k] != cs[l]
  {
    cs := [];
    var i := 0;
    while i < |depths|
      invariant 0 <= i <= |depths| && |cs| == i
      invariant forall k :: 0 <= k < i ==> fresh(cs[k])
      invariant forall k :: 0 <= k < i ==>
        cs[k].depth == depths[k] as real && cs[k].traits == RandomTraits(draws[k])
      invariant forall k, l :: 0 <= k < l < i ==> cs[k] != cs[l]
    {
      var c := Spawn(depths[i] as real, draws[i]);
      cs := cs + [c];
      i := i + 1;
    }
  }

  /** The survivors of an evaluated population: the alive creatures in order, or the
      fittest one when none is alive. */
  method SelectSurvivors(creatures: seq<Creature>) returns (survivors: seq<Creature>)
    requires |creatures| > 0
    ensures Views(survivors) == Survivors(Views(creatures))
    ensures forall c :: c in survivors ==> c in creatures
  {
    survivors := [];
    var i := 0;
    while i < |creatures|
      invariant 0 <= i <= |creatures|
      invariant Views(survivors) == AliveOnes(Views(creatures)[..i])
      invariant forall c :: c in survivors ==> c in creatures
    {
      assert Views(creatures)[..i + 1][..i] == Views(creatures)[..i];
      if creatures[i].alive {
        survivors := survivors + [creatures[i]];
      }
      i := i + 1;
    }
    assert Views(creatures)[..|creatures|] == Views(creatures);
    if |survivors| == 0 {
      var best := FittestIndex(Fitnesses(Views(creatures)));
      survivors := [creatures[best]];
    }
  }

  /** `evaluate_fitness(c)`: the stored fitness is the compatibility plus the food
      bonus, floored at 0; nothing else of the creature changes. */
  method EvaluateFitness(c: Creature)
    requires CompatibilityDefined(c.traits)
    modifies c
    ensures ViewOf(c) == old(ViewOf(c).(fitness := EffectiveFitness(c.traits, c.depth)))
  {
    var layer := GetLayer(c.depth);
    var fit := Compatibility(c.traits, c.depth, layer);
    fit := fit + FoodBonus(layer.foodType, c.traits["food_strategy"]);
    c.fitness := if fit > 0.0 then fit else 0.0;
  }

  /** One step of the evaluation loop: `evaluate_fitness(c)`, then `c.alive` set by
      the survival threshold 1.0. */
  method Judge(c: Creature)
    requires CompatibilityDefined(c.traits)
    modifies c
    ensures ViewOf(c) == old(Evaluated(ViewOf(c)))
  {
    EvaluateFitness(c);
    c.alive := c.fitness > 1.0;
  }

  /** The evaluation loop of `run_generation`: every creature gets its fitness, and is
      alive exactly when the fitness exceeds 1.0. */
  method EvaluateAllCreatures(cs: seq<Creature>)
    requires forall a, b :: 0 <= a < b < |cs| ==> cs[a] != cs[b]
    requires AllConform(Views(cs))
    modifies cs
    ensures Views(cs) == EvaluateAll(old(Views(cs)))
  {
    ghost var before := Views(cs);
    ghost var after := EvaluateAll(before);
    AllCompatibilityDefined(before);
    var i := 0;
    while i < |cs|
      invariant 0 <= i <= |cs|
      invariant forall k :: 0 <= k < i ==> ViewOf(cs[k]) == after[k]
      invariant forall k :: i <= k < |cs| ==> ViewOf(cs[k]) == before[k]
    {
      label Step:
      var c := cs[i];
      assert ViewOf(c) == before[i] && CompatibilityDefined(before[i].traits);
      Judge(c);
      forall k | 0 <= k < |cs| && k != i
        ensures ViewOf(cs[k]) == old@Step(ViewOf(cs[k]))
      {
        assert cs[k] != c;
      }
      i := i + 1;
    }
  }

  /** `offspring = parent.mutate()` followed by `offspring.depth = depth`. */
  method Breed(parent: Creature, mutation: MutationDraws, depth: real) returns (offspring: Creature)
    requires Conforms(parent.traits) && ValidMutationDraws(mutation) && 0.0 <= depth <= 6000.0
    ensures fresh(offspring)
    ensures ViewOf(offspring) == Offspring(ViewOf(parent), mutation, depth)
  {
    ConformsHas(parent.traits);
    offspring := parent.Mutate(MutationRate, mutation);
    offspring.depth := depth;
  }

  /** The reproduction loop: each survivor in turn appends its offspring, each moved
      by its depth variation, and the loop stops adding once `target` is reached. */
  method ReproductionLoop(survivors: seq<Creature>, target: nat, draws: seq<ReproDraw>)
    returns (nextGen: seq<Creature>)
    requires AllConform(Views(survivors)) && |draws| >= target
    requires forall j :: 0 <= j < |draws| ==> ValidReproDraw(draws[j])
    ensures Views(nextGen) == ReproPhase(Views(survivors), |survivors|, target, draws)
    ensures forall j :: 0 <= j < |nextGen| ==> fresh(nextGen[j])
    ensures forall j, k :: 0 <= j < k < |nextGen| ==> nextGen[j] != nextGen[k]
  {
    ghost var sv := Views(survivors);
    ghost var phases := ReproPhases(sv, target, draws);
    assert phases[0] == ReproPhase(sv, 0, target, draws) == [];
    nextGen := [];
    var s := 0;
    while s < |survivors|
      invariant 0 <= s <= |survivors|
      invariant Views(survivors) == sv
      invariant Views(nextGen) == phases[s]
      invariant forall j :: 0 <= j < |nextGen| ==> fresh(nextGen[j])
      invariant forall j, k :: 0 <= j < k < |nextGen| ==> nextGen[j] != nextGen[k]
    {
      assert ViewOf(survivors[s]) == sv[s];
      var grown := Brood(nextGen, survivors[s], sv, phases, s, target, draws);
      forall j | 0 <= j < |grown|
        ensures fresh(grown[j])
      {
        if j < |nextGen| {
          assert grown[j] == nextGen[j];
        }
      }
      nextGen := grown;
      s := s + 1;
    }
    assert phases[|sv|] == ReproPhase(sv, |sv|, target, draws);
  }

  /** One turn of the reproduction loop: survivor `c`, the `s`-th, appends its children
      to `next_gen`. */
  method Brood(nextGen: seq<Creature>, c: Creature, ghost sv: seq<View>, ghost phases: seq<seq<View>>,
               ghost s: nat, target: nat, draws: seq<ReproDraw>) returns (grown: seq<Creature>)
    requires AllConform(sv) && s < |sv| && ViewOf(c) == sv[s] && |draws| >= target
    requires forall j :: 0 <= j < |draws| ==> ValidReproDraw(draws[j])
    requires |phases| == |sv| + 1 && PhaseChain(sv, target, draws, phases)
    requires Views(nextGen) == phases[s]
    requires forall j, k :: 0 <= j < k < |nextGen| ==> nextGen[j] != nextGen[k]
    ensures Views(grown) == phases[s + 1]
    ensures |grown| >= |nextGen| && grown[..|nextGen|] == nextGen
    ensures forall j :: |nextGen| <= j < |grown| ==> fresh(grown[j])
    ensures forall j, k :: 0 <= j < k < |grown| ==> grown[j] != grown[k]
  {
    assert ReproPhase(sv, s, target, draws) == phases[s];
    assert ReproPhase(sv, s + 1, target, draws) == phases[s + 1];
    ReproPhaseStep(sv, s, target, draws);
    label Step:
    var kids := Reproduce(c, sv[s], |nextGen|, target, draws);
    assert Views(nextGen) == old@Step(Views(nextGen));
    grown := Append(nextGen, kids);
    assert grown[..|nextGen|] == nextGen;
    forall j | |nextGen| <= j < |grown|
      ensures fresh(grown[j])
    {
      assert grown[j] == kids[j - |nextGen|];
    }
  }

  /** `next_gen` extended by the creatures of `more`, none of which it holds yet. */
  method Append(nextGen: seq<Creature>, more: seq<Creature>) returns (grown: seq<Creature>)
    requires forall j, k :: 0 <= j < k < |nextGen| ==> nextGen[j] != nextGen[k]
    requires forall j, k :: 0 <= j < k < |more| ==> more[j] != more[k]
    requires forall j, k :: 0 <= j < |nextGen| && 0 <= k < |more| ==> nextGen[j] != more[k]
    ensures grown == nextGen + more && Views(grown) == Views(nextGen) + Views(more)
    ensures forall j, k :: 0 <= j < k < |grown| ==> grown[j] != grown[k]
  {
    grown := nextGen + more;
    forall j, k | 0 <= j < k < |grown|
      ensures grown[j] != grown[k]
    {
      if k < |nextGen| {
        assert grown[j] == nextGen[j] && grown[k] == nextGen[k];
      } else if j >= |nextGen| {
        assert grown[j] == more[j - |nextGen|] && grown[k] == more[k - |nextGen|];
      } else {
        assert grown[j] == nextGen[j] && grown[k] == more[k - |nextGen|];
      }
    }
  }

  /** One pass of the offspring loop: the next child of `c` joins the litter. */
  method Birth(kids: seq<Creature>, c: Creature, ghost v: View, start: nat, draws: seq<ReproDraw>)
    returns (grown: seq<Creature>)
    requires Conforms(v.traits) && ViewOf(c) == v && start + |kids| < |draws|
    requires forall j :: 0 <= j < |draws| ==> ValidReproDraw(draws[j])
    requires Views(kids) == Litter(v, start, |kids|, draws)
    requires forall i, k :: 0 <= i < k < |kids| ==> kids[i] != kids[k]
    ensures Views(grown) == Litter(v, start, |kids| + 1, draws)
    ensures |grown| == |kids| + 1 && grown[..|kids|] == kids && fresh(grown[|kids|])
    ensures forall i, k :: 0 <= i < k < |grown| ==> grown[i] != grown[k]
  {
    ghost var prev := Views(kids);
    var offspring := LoopChildOf(c, v, draws[start + |kids|]);
    assert Views(kids) == prev;
    grown := Append(kids, [offspring]);
    assert Views([offspring]) == [ViewOf(offspring)];
    LitterGrow(v, start, prev, ViewOf(offspring), draws);
    assert grown[..|kids|] == kids;
  }

  /** The reproduction loop's body for one survivor `c`, whose value is `v`, when
      `next_gen` already holds `start` creatures: its offspring count, then one child
      per count until `next_gen` would reach `target`. */
  method Reproduce(c: Creature, ghost v: View, start: nat, target: nat, draws: seq<ReproDraw>)
    returns (kids: seq<Creature>)
    requires Conforms(v.traits) && ViewOf(c) == v && start <= target <= |draws|
    requires forall j :: 0 <= j < |draws| ==> ValidReproDraw(draws[j])
    ensures var take := if Children(v) < target - start then Children(v) else target - start;
      Views(kids) == Litter(v, start, take, draws)
    ensures forall i :: 0 <= i < |kids| ==> fresh(kids[i])
    ensures forall i, k :: 0 <= i < k < |kids| ==> kids[i] != kids[k]
  {
    ConformsRepro(c.traits);
    var count := OffspringCount(ViewOf(c));
    kids := [];
    while |kids| < count
      invariant |kids| <= Children(v) && start + |kids| <= target
      invariant ViewOf(c) == v
      invariant Views(kids) == Litter(v, start, |kids|, draws)
      invariant forall i :: 0 <= i < |kids| ==> fresh(kids[i])
      invariant forall i, k :: 0 <= i < k < |kids| ==> kids[i] != kids[k]
    {
      if start + |kids| >= target {
        break;
      }
      var grown := Birth(kids, c, v, start, draws);
      forall j | 0 <= j < |grown|
        ensures fresh(grown[j])
      {
        if j < |kids| {
          assert grown[j] == kids[j];
        }
      }
      kids := grown;
    }
  }

  /** One step of the reproduction loop: `parent.mutate()`, moved by the drawn depth
      variation and clamped to the ocean. */
  method LoopChildOf(c: Creature, ghost v: View, d: ReproDraw) returns (offspring: Creature)
    requires Conforms(v.traits) && ViewOf(c) == v && ValidReproDraw(d)
    ensures fresh(offspring) && ViewOf(offspring) == LoopChild(v, d)
  {
    offspring := Breed(c, d.mutation, Clamp(c.depth + d.delta, 0.0, 6000.0));
  }

  /** `best_five`: the five fittest survivors, fittest first. */
  method BestFiveOf(survivors: seq<Creature>) returns (best: seq<Creature>)
    requires |survivors| > 0
    ensures Views(best) == BestFive(Views(survivors))
    ensures forall c :: c in best ==> c in survivors
  {
    var pos := BestPositions(Views(survivors));
    best := seq(|pos|, a requires 0 <= a < |pos| => survivors[pos[a]]);
  }

  /** One step of the fill loop: `random.choice(best).mutate()`, moved to the drawn
      depth. */
  method FillChildOf(best: seq<Creature>, ghost bv: seq<View>, d: FillDraw) returns (offspring: Creature)
    requires |best| > 0 && Views(best) == bv && AllConform(bv) && ValidFillDraw(d)
    ensures fresh(offspring) && ViewOf(offspring) == FillChild(bv, d)
  {
    var idx := ChoiceIndex(d.choice, |best|);
    assert ViewOf(best[idx]) == bv[idx];
    offspring := Breed(best[idx], d.mutation, d.depth as real);
  }

  /** The body of the fill branch: the five fittest survivors, then the fill loop. */
  method FillFromBest(nextGen: seq<Creature>, survivors: seq<Creature>, ghost sv: seq<View>, target: nat,
                      draws: seq<FillDraw>)
    returns (grown: seq<Creature>)
    requires Views(survivors) == sv && |sv| > 0 && AllConform(sv)
    requires |nextGen| < target <= |draws|
    requires forall j :: 0 <= j < |draws| ==> ValidFillDraw(draws[j])
    requires forall j, k :: 0 <= j < k < |nextGen| ==> nextGen[j] != nextGen[k]
    ensures (BestFiveConform(sv);
             Views(grown) == Views(nextGen) + FillPhase(BestFive(sv), target - |nextGen|, draws))
    ensures |nextGen| <= |grown| && grown[..|nextGen|] == nextGen
    ensures forall j :: |nextGen| <= j < |grown| ==> fresh(grown[j])
    ensures forall j, k :: 0 <= j < k < |grown| ==> grown[j] != grown[k]
  {
    BestFiveConform(sv);
    var best := BestFiveOf(survivors);
    label Step:
    var fill := FillLoop(best, BestFive(sv), target - |nextGen|, draws);
    assert Views(nextGen) == old@Step(Views(nextGen));
    grown := Append(nextGen, fill);
    assert grown[..|nextGen|] == nextGen;
    forall j | |nextGen| <= j < |grown|
      ensures fresh(grown[j])
    {
      assert grown[j] == fill[j - |nextGen|];
    }
  }

  /** The fill loop: `count` children of parents drawn from the five fittest
      survivors, at drawn depths; the caller appends them to `next_gen`. */
  method FillLoop(best: seq<Creature>, ghost bv: seq<View>, count: nat, draws: seq<FillDraw>) returns (fill: seq<Creature>)
    requires |best| > 0 && Views(best) == bv && AllConform(bv) && count <= |draws|
    requires forall j :: 0 <= j < |draws| ==> ValidFillDraw(draws[j])
    ensures Views(fill) == FillPhase(bv, count, draws)
    ensures forall j :: 0 <= j < |fill| ==> fresh(fill[j])
    ensures forall j, k :: 0 <= j < k < |fill| ==> fill[j] != fill[k]
  {
    fill := [];
    while |fill| < count
      invariant |fill| <= count
      invariant Views(best) == bv
      invariant Views(fill) == FillPhase(bv, |fill|, draws)
      invariant forall j :: 0 <= j < |fill| ==> fresh(fill[j])
      invariant forall j, k :: 0 <= j < k < |fill| ==> fill[j] != fill[k]
    {
      var d := draws[|fill|];
      FillPhaseSnoc(bv, |fill|, draws);
      label Step:
      var offspring := FillChildOf(best, bv, d);
      assert Views(fill) == old@Step(Views(fill));
      assert Views(best) == old@Step(Views(best));
      assert Views([offspring]) == [ViewOf(offspring)];
      var grown := Append(fill, [offspring]);
      forall j | 0 <= j < |grown|
        ensures fresh(grown[j])
      {
        if j < |fill| {
          assert grown[j] == fill[j];
        }
      }
      fill := grown;
    }
  }

}
