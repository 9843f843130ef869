/** One generation of `Simulation.run_generation` (simulation.py) as a function of
    the population's values: evaluation, the choice of survivors, the capped
    reproduction loop and the fill loop that draws parents from the five fittest. */
module Selection {
  import opened Dicts
  import opened Traits
  import opened Environment
  import opened Creatures
  import opened Fitness

  /** The default rate of `mutate`, the only one the simulation uses. */
  const MutationRate: real := 0.15

  /** Every schema-conforming trait dictionary has a vision and a reproduction rate
      in `[0.2, 2.5]`, and can be scored. */
  lemma ConformsHas(t: Traits)
    requires Conforms(t)
    ensures "vision" in t && "repro_rate" in t && t["repro_rate"].Num?
    ensures 0.2 <= t["repro_rate"].value <= 2.5
    ensures CompatibilityDefined(t) && NumericPresent(t)
  {
    assert CategoricalOk(t, CategoricalTraits[0]);
    assert NumericOk(t, NumericTraits[1]);
    ConformsCompatibilityDefined(t);
    ConformsNumericPresent(t);
  }

  /** What the reproduction count needs of a conforming creature. */
  lemma ConformsRepro(t: Traits)
    requires Conforms(t)
    ensures "repro_rate" in t && t["repro_rate"].Num?
  {
    assert NumericOk(t, NumericTraits[1]);
  }

  /** What `mutate` needs of a conforming creature. */
  lemma ConformsMutable(t: Traits)
    requires Conforms(t)
    ensures NumericPresent(t) && "vision" in t
  {
    assert CategoricalOk(t, CategoricalTraits[0]);
    ConformsNumericPresent(t);
  }

  // ---------------------------------------------------------------------------
  // Evaluation

  /** `evaluate_fitness(c)` followed by `c.alive = c.fitness > 1.0`. */
  function Evaluated(v: View): (e: View)
    requires CompatibilityDefined(v.traits)
    ensures e.fitness == EffectiveFitness(v.traits, v.depth) && 0.0 <= e.fitness
    ensures e.alive <==> e.fitness > 1.0
    ensures e.traits == v.traits && e.depth == v.depth && e.speciesName == v.speciesName
    ensures e.age == v.age && e.energy == v.energy
  {
    var f := EffectiveFitness(v.traits, v.depth);
    v.(fitness := f, alive := f > 1.0)
  }

  predicate AllConform(vs: seq<View>)
  {
    forall i {:trigger Conforms(vs[i].traits)} :: 0 <= i < |vs| ==> Conforms(vs[i].traits)
  }

  /** Every conforming creature can be scored. */
  lemma AllCompatibilityDefined(vs: seq<View>)
    requires AllConform(vs)
    ensures forall i :: 0 <= i < |vs| ==> CompatibilityDefined(vs[i].traits)
  {
    forall i | 0 <= i < |vs| ensures CompatibilityDefined(vs[i].traits) {
      ConformsCompatibilityDefined(vs[i].traits);
    }
  }

  /** The evaluation loop over a population, as a value: every creature evaluated,
      in place. */
  function EvaluateAll(vs: seq<View>): (es: seq<View>)
    requires AllConform(vs)
    ensures |es| == |vs| && AllConform(es)
  {
    AllCompatibilityDefined(vs);
    seq(|vs|, i requires 0 <= i < |vs| => Evaluated(vs[i]))
  }

  /** Evaluation keeps traits, depth and name, sets the effective fitness and makes
      a creature alive exactly when its fitness exceeds 1.0. */
  lemma EvaluateAllSpec(vs: seq<View>)
    requires AllConform(vs)
    ensures forall i :: 0 <= i < |vs| ==>
      CompatibilityDefined(vs[i].traits) &&
      (var e := EvaluateAll(vs)[i];
       e.traits == vs[i].traits && e.depth == vs[i].depth && e.speciesName == vs[i].speciesName &&
       e.fitness == EffectiveFitness(vs[i].traits, vs[i].depth) && 0.0 <= e.fitness &&
       (e.alive <==> e.fitness > 1.0))
  {
    AllCompatibilityDefined(vs);
  }

  // ---------------------------------------------------------------------------
  // Survivors

  /** `[c for c in creatures if c.alive]` */
  function AliveOnes(vs: seq<View>): (r: seq<View>)
    ensures |r| <= |vs|
    decreases |vs|
  {
    if |vs| == 0 then []
    else if vs[|vs| - 1].alive then AliveOnes(vs[..|vs| - 1]) + [vs[|vs| - 1]]
    else AliveOnes(vs[..|vs| - 1])
  }

  /** The alive creatures, in population order, and no others. */
  lemma {:induction false} AliveOnesMembers(vs: seq<View>)
    ensures forall v :: v in AliveOnes(vs) <==> v in vs && v.alive
    ensures AliveOnes(vs) == [] <==> forall i :: 0 <= i < |vs| ==> !vs[i].alive
    decreases |vs|
  {
    if |vs| > 0 {
      AliveOnesMembers(vs[..|vs| - 1]);
      assert vs == vs[..|vs| - 1] + [vs[|vs| - 1]];
    }
  }

  function Fitnesses(vs: seq<View>): (fs: seq<real>)
    ensures |fs| == |vs| && forall i :: 0 <= i < |vs| ==> fs[i] == vs[i].fitness
  {
    seq(|vs|, i requires 0 <= i < |vs| => vs[i].fitness)
  }

  /** `max(..., key=fitness)`: the position of the first maximal fitness. */
  function FittestIndex(fs: seq<real>): (i: nat)
    requires |fs| > 0
    ensures i < |fs|
    decreases |fs|
  {
    if |fs| == 1 then 0
    else
      var i := FittestIndex(fs[..|fs| - 1]);
      if fs[|fs| - 1] > fs[i] then |fs| - 1 else i
  }

  /** The chosen fitness is the maximum, and no earlier position reaches it. */
  lemma {:induction false} FittestIndexSpec(fs: seq<real>)
    requires |fs| > 0
    ensures forall j :: 0 <= j < |fs| ==> fs[j] <= fs[FittestIndex(fs)]
    ensures forall j :: 0 <= j < FittestIndex(fs) ==> fs[j] < fs[FittestIndex(fs)]
    decreases |fs|
  {
    if |fs| > 1 {
      FittestIndexSpec(fs[..|fs| - 1]);
    }
  }

  /** The survivors: the alive creatures, or, when none is alive, the fittest one. */
  function Survivors(vs: seq<View>): (s: seq<View>)
    requires |vs| > 0
    ensures 1 <= |s| <= |vs|
    ensures AllConform(vs) ==> AllConform(s)
  {
    AliveOnesMembers(vs);
    var alive := AliveOnes(vs);
    if alive != [] then alive else [vs[FittestIndex(Fitnesses(vs))]]
  }

  /** There is always a survivor, every survivor comes from the population, and the
      fallback picks a creature of maximal fitness. */
  lemma SurvivorsSpec(vs: seq<View>)
    requires |vs| > 0
    ensures 1 <= |Survivors(vs)| <= |vs|
    ensures forall v :: v in Survivors(vs) ==> v in vs
    ensures AllConform(vs) ==> AllConform(Survivors(vs))
    ensures (exists i :: 0 <= i < |vs| && vs[i].alive) ==> Survivors(vs) == AliveOnes(vs)
    ensures (forall i :: 0 <= i < |vs| ==> !vs[i].alive) ==>
      |Survivors(vs)| == 1 && forall j :: 0 <= j < |vs| ==> vs[j].fitness <= Survivors(vs)[0].fitness
  {
    AliveOnesMembers(vs);
    FittestIndexSpec(Fitnesses(vs));
  }

  // ---------------------------------------------------------------------------
  // Reproduction loop

  /** Python's `int(x)` on a float: truncation toward zero. */
  function Trunc(x: real): (r: int)
    ensures x >= 0.0 ==> r as real <= x < r as real + 1.0
    ensures x < 0.0 ==> x <= r as real < x + 1.0
  {
    if x >= 0.0 then x.Floor else -((-x).Floor)
  }

  /** `int(int(max(1, repro_rate)) * min(2.0, fitness / 2.0))` */
  function OffspringCount(v: View): int
    requires "repro_rate" in v.traits && v.traits["repro_rate"].Num?
  {
    var repro := v.traits["repro_rate"].value;
    var base := Trunc(if repro > 1.0 then repro else 1.0);
    var multiplier := if v.fitness / 2.0 < 2.0 then v.fitness / 2.0 else 2.0;
    Trunc(base as real * multiplier)
  }

  /** For a conforming, evaluated creature the count lies in `0..4`: the base is 1 or
      2 and the multiplier at most 2; a fitness below 1.0 gives no offspring. */
  lemma OffspringCountBounds(v: View)
    requires Conforms(v.traits) && 0.0 <= v.fitness
    ensures (ConformsHas(v.traits); 0 <= OffspringCount(v) <= 4)
    ensures v.fitness < 1.0 ==> OffspringCount(v) == 0
    ensures v.fitness >= 4.0 ==> OffspringCount(v) >= 2
  {
    ConformsHas(v.traits);
    var repro := v.traits["repro_rate"].value;
    var base := Trunc(if repro > 1.0 then repro else 1.0);
    assert 1 <= base <= 2;
  }

  /** The draws of one loop offspring: the depth variation and the mutation. */
  datatype ReproDraw = ReproDraw(delta: real, mutation: MutationDraws)

  /** The draws of one fill offspring: the parent choice in `[0, 1)`, the depth and the
      mutation. */
  datatype FillDraw = FillDraw(choice: real, depth: int, mutation: MutationDraws)

  predicate ValidReproDraw(d: ReproDraw)
  {
    -500.0 <= d.delta <= 500.0 && ValidMutationDraws(d.mutation)
  }

  predicate ValidFillDraw(d: FillDraw)
  {
    0.0 <= d.choice < 1.0 && 0 <= d.depth <= 6000 && ValidMutationDraws(d.mutation)
  }

  /** The draws of one generation; a generation of `n` creatures uses at most `n` of
      each kind. */
  datatype GenerationDraws = GenerationDraws(repro: seq<ReproDraw>, fill: seq<FillDraw>)

  predicate ValidGenerationDraws(d: GenerationDraws, n: nat)
  {
    |d.repro| >= n && |d.fill| >= n &&
    (forall j :: 0 <= j < |d.repro| ==> ValidReproDraw(d.repro[j])) &&
    (forall j :: 0 <= j < |d.fill| ==> ValidFillDraw(d.fill[j]))
  }

  /** A newly built creature: alive, fitness 0.1, age 0, energy 100, conforming. */
  predicate Newborn(c: View)
  {
    Conforms(c.traits) && c.alive && c.fitness == 0.1 && c.age == 0 && c.energy == 100.0 &&
    0.0 <= c.depth <= 6000.0
  }

  /** `parent.mutate()` with its depth then overwritten by `depth`: the name stays the
      one derived from the parent's depth. */
  function Offspring(parent: View, mutation: MutationDraws, depth: real): View
    requires Conforms(parent.traits) && ValidMutationDraws(mutation) && 0.0 <= depth <= 6000.0
  {
    ConformsMutable(parent.traits);
    var t := MutatedTraits(parent.traits, MutationRate, mutation);
    MutatedKeepsKey(parent.traits, MutationRate, mutation, "vision");
    View(t, depth, true, 0.1, 0, 100.0, SpeciesName(parent.depth, t["vision"]))
  }

  /** An offspring is a conforming newborn at the given depth; its traits are the
      parent's, mutated, and its name is the one the parent's depth gives its vision. */
  lemma OffspringSpec(parent: View, mutation: MutationDraws, depth: real)
    requires Conforms(parent.traits) && ValidMutationDraws(mutation) && 0.0 <= depth <= 6000.0
    ensures var c := Offspring(parent, mutation, depth);
      Newborn(c) && c.depth == depth && "vision" in c.traits &&
      c.traits == MutatedTraits(parent.traits, MutationRate, mutation) &&
      c.speciesName == SpeciesName(parent.depth, c.traits["vision"])
  {
    MutatedConforms(parent.traits, MutationRate, mutation);
    ConformsHas(MutatedTraits(parent.traits, MutationRate, mutation));
  }

  /** A loop offspring sits at `max(0, min(6000, parent.depth + delta))`. */
  function LoopChild(parent: View, d: ReproDraw): View
    requires Conforms(parent.traits) && ValidReproDraw(d)
  {
    Offspring(parent, d.mutation, Clamp(parent.depth + d.delta, 0.0, 6000.0))
  }

  /** How many children a survivor has in the loop: `range` of a negative count is empty. */
  function Children(v: View): (k: nat)
    requires Conforms(v.traits)
  {
    ConformsRepro(v.traits);
    var c := OffspringCount(v);
    if c > 0 then c else 0
  }

  /** The sum of `Children` over a list of survivors. */
  function TotalChildren(vs: seq<View>): nat
    requires AllConform(vs)
    decreases |vs|
  {
    if |vs| == 0 then 0 else TotalChildren(vs[..|vs| - 1]) + Children(vs[|vs| - 1])
  }

  /** The children one survivor has in the loop when its first child takes draw
      `start`: child `i` takes draw `start + i`. */
  function Litter(parent: View, start: nat, m: nat, draws: seq<ReproDraw>): (r: seq<View>)
    requires Conforms(parent.traits) && start + m <= |draws|
    requires forall j :: 0 <= j < |draws| ==> ValidReproDraw(draws[j])
    ensures |r| == m
  {
    seq(m, Breeder(parent, start, draws))
  }

  /** The child for each position of a litter starting at draw `start`, shared by every litter size. */
  function Breeder(parent: View, start: nat, draws: seq<ReproDraw>): int --> View
    requires Conforms(parent.traits)
    requires forall j :: 0 <= j < |draws| ==> ValidReproDraw(draws[j])
  {
    i requires 0 <= i && start + i < |draws| => LoopChild(parent, draws[start + i])
  }

  /** Extending a sequence built from a closure by one index appends that index's value. */
  lemma {:induction false} SeqSnoc<T>(f: int --> T, n: nat)
    requires forall i :: 0 <= i <= n ==> f.requires(i)
    ensures seq(n + 1, f) == seq(n, f) + [f(n)]
  {
    var longer, prev := seq(n + 1, f), seq(n, f);
    forall i | 0 <= i < n ensures longer[i] == prev[i] {
    }
    assert longer[n] == f(n);
  }

  /** A litter of `|prev|` children grows by the child of the next draw. */
  lemma LitterGrow(v: View, start: nat, prev: seq<View>, x: View, draws: seq<ReproDraw>)
    requires Conforms(v.traits) && start + |prev| < |draws|
    requires forall j :: 0 <= j < |draws| ==> ValidReproDraw(draws[j])
    requires prev == Litter(v, start, |prev|, draws) && x == LoopChild(v, draws[start + |prev|])
    ensures prev + [x] == Litter(v, start, |prev| + 1, draws)
  {
    SeqSnoc(Breeder(v, start, draws), |prev|);
  }

  /** Every child of a litter is a conforming newborn. */
  lemma LitterNewborn(parent: View, start: nat, m: nat, draws: seq<ReproDraw>)
    requires Conforms(parent.traits) && start + m <= |draws|
    requires forall j :: 0 <= j < |draws| ==> ValidReproDraw(draws[j])
    ensures forall i :: 0 <= i < m ==> Newborn(Litter(parent, start, m, draws)[i])
  {
    var r := Litter(parent, start, m, draws);
    forall i | 0 <= i < m ensures Newborn(r[i]) {
      var d := draws[start + i];
      assert r[i] == LoopChild(parent, d);
      OffspringSpec(parent, d.mutation, Clamp(parent.depth + d.delta, 0.0, 6000.0));
    }
  }

  /** `next_gen` after the reproduction loop has handled the first `s` survivors:
      each survivor in turn appends its litter, cut where the population reaches `n`,
      and child `j` takes draw `j`. As many children as the survivors have, but at
      most `n`. */
  function ReproPhase(survivors: seq<View>, s: nat, n: nat, draws: seq<ReproDraw>): (r: seq<View>)
    requires AllConform(survivors) && s <= |survivors| && |draws| >= n
    requires forall j :: 0 <= j < |draws| ==> ValidReproDraw(draws[j])
    ensures var total := TotalChildren(survivors[..s]); |r| == if total < n then total else n
    decreases s
  {
    if s == 0 then []
    else
      var prev := ReproPhase(survivors, s - 1, n, draws);
      var room := n - |prev|;
      var take := if Children(survivors[s - 1]) < room then Children(survivors[s - 1]) else room;
      assert survivors[..s][..s - 1] == survivors[..s - 1];
      prev + Litter(survivors[s - 1], |prev|, take, draws)
  }

  /** Survivor `s` appends its litter, cut where the population reaches `n`. */
  lemma ReproPhaseStep(survivors: seq<View>, s: nat, n: nat, draws: seq<ReproDraw>)
    requires AllConform(survivors) && s < |survivors| && |draws| >= n
    requires forall j :: 0 <= j < |draws| ==> ValidReproDraw(draws[j])
    ensures var prev := ReproPhase(survivors, s, n, draws);
      var room := n - |prev|;
      var take := if Children(survivors[s]) < room then Children(survivors[s]) else room;
      ReproPhase(survivors, s + 1, n, draws) == prev + Litter(survivors[s], |prev|, take, draws)
  {
  }

  /** `phases[s]` is the reproduction loop's `next_gen` after `s` survivors. */
  predicate PhaseChain(survivors: seq<View>, n: nat, draws: seq<ReproDraw>, phases: seq<seq<View>>)
    requires AllConform(survivors) && |phases| <= |survivors| + 1 && |draws| >= n
    requires forall j :: 0 <= j < |draws| ==> ValidReproDraw(draws[j])
  {
    forall s {:trigger ReproPhase(survivors, s, n, draws)} :: 0 <= s < |phases| ==>
      ReproPhase(survivors, s, n, draws) == phases[s]
  }

  /** The reproduction loop's `next_gen` after each number of survivors. */
  lemma ReproPhases(survivors: seq<View>, n: nat, draws: seq<ReproDraw>) returns (phases: seq<seq<View>>)
    requires AllConform(survivors) && |draws| >= n
    requires forall j :: 0 <= j < |draws| ==> ValidReproDraw(draws[j])
    ensures |phases| == |survivors| + 1 && PhaseChain(survivors, n, draws, phases)
  {
    phases := seq(|survivors| + 1, s requires 0 <= s <= |survivors| => ReproPhase(survivors, s, n, draws));
  }

  /** Every child of the reproduction loop is a conforming newborn. */
  lemma {:induction false} ReproPhaseNewborn(survivors: seq<View>, s: nat, n: nat, draws: seq<ReproDraw>)
    requires AllConform(survivors) && s <= |survivors| && |draws| >= n
    requires forall j :: 0 <= j < |draws| ==> ValidReproDraw(draws[j])
    ensures forall j :: 0 <= j < |ReproPhase(survivors, s, n, draws)| ==>
      Newborn(ReproPhase(survivors, s, n, draws)[j])
    decreases s
  {
    if s > 0 {
      ReproPhaseNewborn(survivors, s - 1, n, draws);
      var prev := ReproPhase(survivors, s - 1, n, draws);
      var room := n - |prev|;
      var take := if Children(survivors[s - 1]) < room then Children(survivors[s - 1]) else room;
      var litter := Litter(survivors[s - 1], |prev|, take, draws);
      LitterNewborn(survivors[s - 1], |prev|, take, draws);
      var r := ReproPhase(survivors, s, n, draws);
      assert r == prev + litter;
      forall j | 0 <= j < |r| ensures Newborn(r[j]) {
        if j < |prev| {
          assert r[j] == prev[j] && Newborn(prev[j]);
        } else {
          assert r[j] == litter[j - |prev|] && Newborn(litter[j - |prev|]);
        }
      }
    }
  }

  /** The positions of the alive creatures, in increasing order. */
  function AliveIndices(vs: seq<View>): (idx: seq<nat>)
    ensures forall k :: 0 <= k < |idx| ==> idx[k] < |vs| && vs[idx[k]].alive
    ensures forall k, l :: 0 <= k < l < |idx| ==> idx[k] < idx[l]
    ensures forall i :: 0 <= i < |vs| && vs[i].alive ==> i in idx
    decreases |vs|
  {
    if |vs| == 0 then []
    else if vs[|vs| - 1].alive then AliveIndices(vs[..|vs| - 1]) + [|vs| - 1]
    else AliveIndices(vs[..|vs| - 1])
  }

  /** The list comprehension keeps the alive creatures in population order: its k-th
      element is the creature at the k-th alive position. */
  lemma {:induction false} AliveOnesInOrder(vs: seq<View>)
    ensures |AliveOnes(vs)| == |AliveIndices(vs)|
    ensures forall k :: 0 <= k < |AliveIndices(vs)| ==> AliveOnes(vs)[k] == vs[AliveIndices(vs)[k]]
    decreases |vs|
  {
    if |vs| > 0 {
      var prefix := vs[..|vs| - 1];
      AliveOnesInOrder(prefix);
      assert forall i :: 0 <= i < |prefix| ==> prefix[i] == vs[i];
    }
  }

  // ---------------------------------------------------------------------------
  // Ranking for the fill loop

  /** Inserts position `x` before the first position of `r` whose fitness is not above
      `fs[x]`: a stable descending order keeps earlier positions first among equals. */
  function Insert(fs: seq<real>, x: nat, r: seq<nat>): (q: seq<nat>)
    decreases |r|
  {
    if |r| == 0 then [x]
    else if x < |fs| && r[0] < |fs| && fs[r[0]] <= fs[x] then [x] + r
    else [r[0]] + Insert(fs, x, r[1..])
  }

  /** Positions `i .. |fs|-1`, ordered by decreasing fitness. */
  function RankFrom(fs: seq<real>, i: nat): seq<nat>
    requires i <= |fs|
    decreases |fs| - i
  {
    if i == |fs| then [] else Insert(fs, i, RankFrom(fs, i + 1))
  }

  /** `sorted(range(len(fs)), key=fs, reverse=True)` */
  function Rank(fs: seq<real>): seq<nat>
  {
    RankFrom(fs, 0)
  }

  predicate SortedDesc(fs: seq<real>, r: seq<nat>)
  {
    (forall a :: 0 <= a < |r| ==> r[a] < |fs|) &&
    forall a, b :: 0 <= a < b < |r| ==> fs[r[a]] >= fs[r[b]]
  }

  /** Equal fitnesses keep their original order, as in Python's stable sort. */
  predicate Stable(fs: seq<real>, r: seq<nat>)
    requires forall a :: 0 <= a < |r| ==> r[a] < |fs|
  {
    forall a, b :: 0 <= a < b < |r| && fs[r[a]] == fs[r[b]] ==> r[a] < r[b]
  }

  predicate Distinct(r: seq<nat>)
  {
    forall a, b :: 0 <= a < b < |r| ==> r[a] != r[b]
  }

  lemma {:induction false} InsertMembers(fs: seq<real>, x: nat, r: seq<nat>)
    ensures |Insert(fs, x, r)| == |r| + 1
    ensures forall k :: k in Insert(fs, x, r) <==> k in r || k == x
    decreases |r|
  {
    if |r| > 0 {
      InsertMembers(fs, x, r[1..]);
      assert r == [r[0]] + r[1..];
    }
  }

  lemma {:induction false} InsertDistinct(fs: seq<real>, x: nat, r: seq<nat>)
    requires Distinct(r) && x !in r
    ensures Distinct(Insert(fs, x, r))
    decreases |r|
  {
    if |r| > 0 && !(x < |fs| && r[0] < |fs| && fs[r[0]] <= fs[x]) {
      assert r == [r[0]] + r[1..];
      InsertDistinct(fs, x, r[1..]);
      InsertMembers(fs, x, r[1..]);
      assert r[0] !in r[1..] by {
        assert forall c :: 0 <= c < |r[1..]| ==> r[1..][c] == r[c + 1];
      }
      var q := Insert(fs, x, r[1..]);
      assert Insert(fs, x, r) == [r[0]] + q;
      assert forall b :: 0 <= b < |q| ==> q[b] != r[0];
    }
  }

  lemma {:induction false} InsertSorted(fs: seq<real>, x: nat, r: seq<nat>)
    requires x < |fs| && SortedDesc(fs, r)
    ensures SortedDesc(fs, Insert(fs, x, r))
    decreases |r|
  {
    if |r| > 0 && fs[r[0]] > fs[x] {
      InsertSorted(fs, x, r[1..]);
      InsertMembers(fs, x, r[1..]);
      var q := Insert(fs, x, r[1..]);
      forall b | 0 <= b < |q| ensures fs[r[0]] >= fs[q[b]] {
        if q[b] != x {
          assert q[b] in r[1..];
          var c :| 0 <= c < |r[1..]| && r[1..][c] == q[b];
          assert r[c + 1] == q[b];
        }
      }
    }
  }

  lemma {:induction false} InsertStable(fs: seq<real>, x: nat, r: seq<nat>)
    requires x < |fs| && SortedDesc(fs, r) && Stable(fs, r)
    requires forall a :: 0 <= a < |r| ==> x < r[a]
    ensures SortedDesc(fs, Insert(fs, x, r)) && Stable(fs, Insert(fs, x, r))
    decreases |r|
  {
    InsertSorted(fs, x, r);
    if |r| > 0 && fs[r[0]] > fs[x] {
      InsertStable(fs, x, r[1..]);
      InsertMembers(fs, x, r[1..]);
      var q := Insert(fs, x, r[1..]);
      forall b | 0 <= b < |q| && fs[r[0]] == fs[q[b]] ensures r[0] < q[b] {
        if q[b] != x {
          assert q[b] in r[1..];
          var c :| 0 <= c < |r[1..]| && r[1..][c] == q[b];
          assert r[c + 1] == q[b];
        }
      }
      assert Insert(fs, x, r) == [r[0]] + q;
    }
  }

  /** The ranking of positions `i ..`: each position exactly once, in descending order
      of fitness, equal fitnesses in their original order. */
  lemma {:induction false} RankFromSpec(fs: seq<real>, i: nat)
    requires i <= |fs|
    ensures |RankFrom(fs, i)| == |fs| - i
    ensures forall k :: k in RankFrom(fs, i) <==> i <= k < |fs|
    ensures Distinct(RankFrom(fs, i))
    ensures SortedDesc(fs, RankFrom(fs, i)) && Stable(fs, RankFrom(fs, i))
    decreases |fs| - i
  {
    if i < |fs| {
      var rest := RankFrom(fs, i + 1);
      RankFromSpec(fs, i + 1);
      InsertMembers(fs, i, rest);
      InsertDistinct(fs, i, rest);
      assert forall a :: 0 <= a < |rest| ==> i < rest[a] by {
        assert forall a :: 0 <= a < |rest| ==> rest[a] in rest;
      }
      InsertStable(fs, i, rest);
    }
  }

  /** The positions `sorted(..., key=fitness, reverse=True)[:5]` keeps. */
  function BestPositions(survivors: seq<View>): (pos: seq<nat>)
    ensures |pos| == if |survivors| < 5 then |survivors| else 5
    ensures forall a :: 0 <= a < |pos| ==> pos[a] < |survivors|
  {
    var fs := Fitnesses(survivors);
    RankFromSpec(fs, 0);
    var m := if |survivors| < 5 then |survivors| else 5;
    Rank(fs)[..m]
  }

  /** `sorted(survivors, key=fitness, reverse=True)[:5]` */
  function BestFive(survivors: seq<View>): (best: seq<View>)
    ensures |best| == |BestPositions(survivors)|
    ensures forall a :: 0 <= a < |best| ==> best[a] == survivors[BestPositions(survivors)[a]]
  {
    var pos := BestPositions(survivors);
    seq(|pos|, a requires 0 <= a < |pos| => survivors[pos[a]])
  }

  /** Whatever a prefix of the ranking leaves out is no fitter than what it keeps. */
  lemma RankPrefixDominates(fs: seq<real>, m: nat)
    requires m <= |fs|
    ensures |Rank(fs)| == |fs| && Distinct(Rank(fs)) && SortedDesc(fs, Rank(fs)) && Stable(fs, Rank(fs))
    ensures forall a, j :: 0 <= a < m && 0 <= j < |fs| && j !in Rank(fs)[..m] ==>
      fs[Rank(fs)[a]] >= fs[j] && (fs[Rank(fs)[a]] == fs[j] ==> Rank(fs)[a] < j)
  {
    var rank := Rank(fs);
    RankFromSpec(fs, 0);
    forall a, j | 0 <= a < m && 0 <= j < |fs| && j !in rank[..m]
      ensures fs[rank[a]] >= fs[j] && (fs[rank[a]] == fs[j] ==> rank[a] < j)
    {
      assert j in rank;
      var b :| 0 <= b < |rank| && rank[b] == j;
      assert b >= m;
    }
  }

  /** The kept positions are distinct, the kept creatures are in descending order of
      fitness with ties in survivor order, and every survivor left out is no fitter than
      any kept one and, when as fit, comes after it. */
  lemma BestFiveSpec(survivors: seq<View>)
    ensures Distinct(BestPositions(survivors))
    ensures forall a, b :: 0 <= a < b < |BestFive(survivors)| ==>
      BestFive(survivors)[a].fitness >= BestFive(survivors)[b].fitness
    ensures forall a, j ::
      0 <= a < |BestFive(survivors)| && 0 <= j < |survivors| && j !in BestPositions(survivors) ==>
      BestFive(survivors)[a].fitness >= survivors[j].fitness
    ensures forall a, b ::
      0 <= a < b < |BestFive(survivors)| && BestFive(survivors)[a].fitness == BestFive(survivors)[b].fitness ==>
      BestPositions(survivors)[a] < BestPositions(survivors)[b]
    ensures forall a, j ::
      0 <= a < |BestFive(survivors)| && 0 <= j < |survivors| && j !in BestPositions(survivors) &&
      BestFive(survivors)[a].fitness == survivors[j].fitness ==>
      BestPositions(survivors)[a] < j
  {
    var fs := Fitnesses(survivors);
    var pos := BestPositions(survivors);
    RankPrefixDominates(fs, |pos|);
    assert pos == Rank(fs)[..|pos|];
  }

  lemma BestFiveConform(survivors: seq<View>)
    requires AllConform(survivors)
    ensures AllConform(BestFive(survivors))
  {
  }

  /** `random.choice` on a list of `n` elements, with `choice` the uniform draw in
      `[0, 1)`: position `floor(choice * n)`, always a valid position. */
  function ChoiceIndex(choice: real, n: nat): (i: nat)
    requires 0.0 <= choice < 1.0 && n > 0
    ensures i < n && i as real <= choice * n as real < i as real + 1.0
  {
    assert choice * n as real < n as real;
    (choice * n as real).Floor
  }

  /** A fill offspring: a parent chosen from `best`, the child at the drawn integer
      depth. */
  function FillChild(best: seq<View>, d: FillDraw): View
    requires |best| > 0 && AllConform(best) && ValidFillDraw(d)
  {
    Offspring(best[ChoiceIndex(d.choice, |best|)], d.mutation, d.depth as real)
  }

  // ---------------------------------------------------------------------------
  // The whole step

  /** The fill loop: `count` children of parents drawn from `best`, fill draw `j` for
      child `j`. */
  function FillPhase(best: seq<View>, count: nat, draws: seq<FillDraw>): (kids: seq<View>)
    requires |best| > 0 && AllConform(best) && |draws| >= count
    requires forall j :: 0 <= j < |draws| ==> ValidFillDraw(draws[j])
    ensures |kids| == count
  {
    seq(count, Filler(best, draws))
  }

  /** The fill child for each draw index, as one closure shared by every prefix length. */
  function Filler(best: seq<View>, draws: seq<FillDraw>): int --> View
    requires |best| > 0 && AllConform(best)
    requires forall j :: 0 <= j < |draws| ==> ValidFillDraw(draws[j])
  {
    j requires 0 <= j < |draws| => FillChild(best, draws[j])
  }

  /** One more fill child extends the fill phase by the child of the next draw. */
  lemma FillPhaseSnoc(best: seq<View>, count: nat, draws: seq<FillDraw>)
    requires |best| > 0 && AllConform(best) && |draws| > count
    requires forall j :: 0 <= j < |draws| ==> ValidFillDraw(draws[j])
    ensures FillPhase(best, count + 1, draws) == FillPhase(best, count, draws) + [FillChild(best, draws[count])]
  {
    SeqSnoc(Filler(best, draws), count);
  }

  /** Every fill child is a conforming newborn at the depth of its fill draw. */
  lemma FillPhaseNewborn(best: seq<View>, count: nat, draws: seq<FillDraw>)
    requires |best| > 0 && AllConform(best) && |draws| >= count
    requires forall j :: 0 <= j < |draws| ==> ValidFillDraw(draws[j])
    ensures forall j :: 0 <= j < count ==>
      Newborn(FillPhase(best, count, draws)[j]) && FillPhase(best, count, draws)[j].depth == draws[j].depth as real
  {
    forall j | 0 <= j < count
      ensures Newborn(FillPhase(best, count, draws)[j]) && FillPhase(best, count, draws)[j].depth == draws[j].depth as real
    {
      var d := draws[j];
      OffspringSpec(best[ChoiceIndex(d.choice, |best|)], d.mutation, d.depth as real);
    }
  }

  /** The population after one generation, given the evaluated population: the
      reproduction loop's children, then the fill loop's up to the same size. */
  function NextGeneration(evaluated: seq<View>, draws: GenerationDraws): (next: seq<View>)
    requires |evaluated| > 0 && AllConform(evaluated) && ValidGenerationDraws(draws, |evaluated|)
    ensures |next| == |evaluated|
  {
    var survivors := Survivors(evaluated);
    var n := |evaluated|;
    var loopKids := ReproPhase(survivors, |survivors|, n, draws.repro);
    BestFiveConform(survivors);
    loopKids + FillPhase(BestFive(survivors), n - |loopKids|, draws.fill)
  }

  /** Every member of the next generation conforms to the trait schema. */
  lemma NextGenerationConforms(evaluated: seq<View>, draws: GenerationDraws)
    requires |evaluated| > 0 && AllConform(evaluated) && ValidGenerationDraws(draws, |evaluated|)
    ensures AllConform(NextGeneration(evaluated, draws))
  {
    NextGenerationNewborn(evaluated, draws);
  }

  /** Every member of the next generation is a conforming newborn at a depth in
      `[0, 6000]`. */
  lemma NextGenerationNewborn(evaluated: seq<View>, draws: GenerationDraws)
    requires |evaluated| > 0 && AllConform(evaluated) && ValidGenerationDraws(draws, |evaluated|)
    ensures forall j :: 0 <= j < |evaluated| ==> Newborn(NextGeneration(evaluated, draws)[j])
  {
    var survivors := Survivors(evaluated);
    var n := |evaluated|;
    ReproPhaseNewborn(survivors, |survivors|, n, draws.repro);
    var kids := ReproPhase(survivors, |survivors|, n, draws.repro);
    BestFiveConform(survivors);
    var fill := FillPhase(BestFive(survivors), n - |kids|, draws.fill);
    FillPhaseNewborn(BestFive(survivors), n - |kids|, draws.fill);
    var next := NextGeneration(evaluated, draws);
    assert next == kids + fill;
    forall j | 0 <= j < n ensures Newborn(next[j]) {
      if j < |kids| {
        assert next[j] == kids[j];
      } else {
        assert next[j] == fill[j - |kids|];
      }
    }
  }

  /** The next generation is the reproduction loop's children followed by the fill
      loop's, over the survivors of the evaluated population. */
  lemma NextGenerationUnfold(evaluated: seq<View>, draws: GenerationDraws)
    requires |evaluated| > 0 && AllConform(evaluated) && ValidGenerationDraws(draws, |evaluated|)
    ensures var s, n := Survivors(evaluated), |evaluated|;
      var kids := ReproPhase(s, |s|, n, draws.repro);
      (BestFiveConform(s);
       NextGeneration(evaluated, draws) == kids + FillPhase(BestFive(s), n - |kids|, draws.fill))
  {
  }

  /** The next generation is the reproduction loop's `min(n, total children)`
      children followed by the fill loop's. */
  lemma NextGenerationParts(evaluated: seq<View>, draws: GenerationDraws)
    requires |evaluated| > 0 && AllConform(evaluated) && ValidGenerationDraws(draws, |evaluated|)
    ensures var s, n := Survivors(evaluated), |evaluated|;
      var total := TotalChildren(s);
      var k := if total < n then total else n;
      NextGeneration(evaluated, draws)[..k] == ReproPhase(s, |s|, n, draws.repro) &&
      (BestFiveConform(s);
       NextGeneration(evaluated, draws)[k..] == FillPhase(BestFive(s), n - k, draws.fill))
  {
    var survivors := Survivors(evaluated);
    var n := |evaluated|;
    var kids := ReproPhase(survivors, |survivors|, n, draws.repro);
    assert survivors[..|survivors|] == survivors;
    BestFiveConform(survivors);
    var fill := FillPhase(BestFive(survivors), n - |kids|, draws.fill);
    assert NextGeneration(evaluated, draws) == kids + fill;
  }
}
