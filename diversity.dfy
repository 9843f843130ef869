/** The species log of `Simulation._log_species_diversity` (simulation.py): per
    species name of the alive creatures, how many there are, their average fitness
    and the range of their depths. */
module Diversity {
  import opened Dicts
  import opened Creatures
  import opened Selection

  /** One species' record. The first loop keeps the fitness sum in `avgFitness` and
      every depth in `depthRange`; the second loop turns them into the average and
      `[min, max]`. */
  datatype SpeciesStats = SpeciesStats(count: nat, avgFitness: real, depthRange: seq<real>)

  datatype LogEntry = LogEntry(generation: int, species: Dict<string, SpeciesStats>, totalSpecies: nat)

  /** The record a species starts from. */
  const NoStats: SpeciesStats := SpeciesStats(0, 0.0, [])

  /** One alive creature added to its species' record. */
  function Record(s: SpeciesStats, v: View): SpeciesStats
  {
    SpeciesStats(s.count + 1, s.avgFitness + v.fitness, s.depthRange + [v.depth])
  }

  /** One turn of the first loop: an alive creature recorded under its species. */
  function Count(d: Dict<string, SpeciesStats>, v: View): Dict<string, SpeciesStats>
  {
    if v.alive then Put(d, v.speciesName, Record(GetOr(d, v.speciesName, NoStats), v)) else d
  }

  /** The dictionary after the first loop has seen every creature of `vs`. */
  function Tally(vs: seq<View>): Dict<string, SpeciesStats>
    decreases |vs|
  {
    if |vs| == 0 then [] else Count(Tally(vs[..|vs| - 1]), vs[|vs| - 1])
  }

  // ---------------------------------------------------------------------------
  // A reference description of one species

  /** The alive creatures of `vs` named `name`, in population order. */
  function Members(vs: seq<View>, name: string): (ms: seq<View>)
    decreases |vs|
  {
    if |vs| == 0 then []
    else
      var v := vs[|vs| - 1];
      if v.alive && v.speciesName == name then Members(vs[..|vs| - 1], name) + [v]
      else Members(vs[..|vs| - 1], name)
  }

  function Sum(xs: seq<real>): real
    decreases |xs|
  {
    if |xs| == 0 then 0.0 else Sum(xs[..|xs| - 1]) + xs[|xs| - 1]
  }

  function Depths(vs: seq<View>): (ds: seq<real>)
    ensures |ds| == |vs| && forall i :: 0 <= i < |vs| ==> ds[i] == vs[i].depth
  {
    seq(|vs|, i requires 0 <= i < |vs| => vs[i].depth)
  }

  /** The record of a group of creatures, as the first loop would build it. */
  function StatsOf(ms: seq<View>): SpeciesStats
  {
    SpeciesStats(|ms|, Sum(Fitnesses(ms)), Depths(ms))
  }

  /** The species names of the alive creatures. */
  function AliveNames(vs: seq<View>): set<string>
    decreases |vs|
  {
    if |vs| == 0 then {}
    else AliveNames(vs[..|vs| - 1]) + (if vs[|vs| - 1].alive then {vs[|vs| - 1].speciesName} else {})
  }

  /** A name is an alive name exactly when some alive creature carries it. */
  lemma {:induction false} AliveNamesMembers(vs: seq<View>)
    ensures forall name :: name in AliveNames(vs) <==> exists i :: 0 <= i < |vs| && vs[i].alive && vs[i].speciesName == name
    decreases |vs|
  {
    if |vs| > 0 {
      AliveNamesMembers(vs[..|vs| - 1]);
      assert forall i :: 0 <= i < |vs| - 1 ==> vs[..|vs| - 1][i] == vs[i];
    }
  }

  function AliveCount(vs: seq<View>): nat
    decreases |vs|
  {
    if |vs| == 0 then 0 else AliveCount(vs[..|vs| - 1]) + (if vs[|vs| - 1].alive then 1 else 0)
  }

  lemma RecordStats(ms: seq<View>, v: View)
    ensures Record(StatsOf(ms), v) == StatsOf(ms + [v])
  {
    assert (ms + [v])[..|ms|] == ms;
    assert Fitnesses(ms + [v])[..|ms|] == Fitnesses(ms);
  }

  /** The first loop's record of every name is exactly the record of that name's alive
      creatures (the empty record for a name with none). */
  lemma {:induction false} TallyLookup(vs: seq<View>, name: string)
    ensures GetOr(Tally(vs), name, NoStats) == StatsOf(Members(vs, name))
    decreases |vs|
  {
    if |vs| > 0 {
      var prefix := vs[..|vs| - 1];
      var v := vs[|vs| - 1];
      TallyLookup(prefix, name);
      if v.alive && v.speciesName == name {
        RecordStats(Members(prefix, name), v);
      }
    }
  }

  /** The first loop's keys are distinct and are exactly the alive creatures' names. */
  lemma {:induction false} TallyKeys(vs: seq<View>)
    ensures DistinctKeys(Tally(vs))
    ensures KeySet(Tally(vs)) == AliveNames(vs)
    ensures |Tally(vs)| == |AliveNames(vs)|
    decreases |vs|
  {
    if |vs| > 0 {
      var prefix := vs[..|vs| - 1];
      TallyKeys(prefix);
      var v := vs[|vs| - 1];
      var names := AliveNames(prefix);
      assert Tally(vs) == Count(Tally(prefix), v);
      if v.alive && v.speciesName !in names {
        assert (names + {v.speciesName}) - {v.speciesName} == names;
        assert |names + {v.speciesName}| == |names| + 1;
      }
    }
  }

  /** Every record of the first loop counts as many creatures as it holds depths, and
      at least one. */
  lemma {:induction false} TallyRecords(vs: seq<View>)
    ensures forall i :: 0 <= i < |Tally(vs)| ==>
      Tally(vs)[i].1.count == |Tally(vs)[i].1.depthRange| && Tally(vs)[i].1.count > 0
    decreases |vs|
  {
    if |vs| > 0 {
      TallyRecords(vs[..|vs| - 1]);
    }
  }

  /** The counts of the first loop add up to the number of alive creatures. */
  lemma {:induction false} TallyCounts(vs: seq<View>)
    ensures SumBy(Tally(vs), (s: SpeciesStats) => s.count as int) == AliveCount(vs)
    decreases |vs|
  {
    if |vs| > 0 {
      var prefix := vs[..|vs| - 1];
      TallyCounts(prefix);
      var v := vs[|vs| - 1];
      if v.alive {
        var d := Tally(prefix);
        var before := GetOr(d, v.speciesName, NoStats);
        SumByPut(d, v.speciesName, Record(before, v), NoStats, (s: SpeciesStats) => s.count as int);
      }
    }
  }

  // ---------------------------------------------------------------------------
  // The second loop and the log entry

  function MinOf(xs: seq<real>): (m: real)
    requires |xs| > 0
    ensures m in xs && forall i :: 0 <= i < |xs| ==> m <= xs[i]
    decreases |xs|
  {
    if |xs| == 1 then xs[0]
    else
      var m := MinOf(xs[..|xs| - 1]);
      assert forall i :: 0 <= i < |xs| - 1 ==> xs[..|xs| - 1][i] == xs[i];
      if xs[|xs| - 1] < m then xs[|xs| - 1] else m
  }

  function MaxOf(xs: seq<real>): (m: real)
    requires |xs| > 0
    ensures m in xs && forall i :: 0 <= i < |xs| ==> xs[i] <= m
    decreases |xs|
  {
    if |xs| == 1 then xs[0]
    else
      var m := MaxOf(xs[..|xs| - 1]);
      assert forall i :: 0 <= i < |xs| - 1 ==> xs[..|xs| - 1][i] == xs[i];
      if xs[|xs| - 1] > m then xs[|xs| - 1] else m
  }

  /** A sum lies between the length times the least and the length times the greatest
      element. */
  lemma {:induction false} SumBounds(xs: seq<real>, low: real, high: real)
    requires forall i :: 0 <= i < |xs| ==> low <= xs[i] <= high
    ensures |xs| as real * low <= Sum(xs) <= |xs| as real * high
    decreases |xs|
  {
    if |xs| > 0 {
      SumBounds(xs[..|xs| - 1], low, high);
      var n := (|xs| - 1) as real;
      assert |xs| as real * low == n * low + low;
      assert |xs| as real * high == n * high + high;
    }
  }

  /** `avg_fitness /= count` and `depth_range = [min(depths), max(depths)]`. */
  function Averaged(s: SpeciesStats): SpeciesStats
    requires s.count > 0 && |s.depthRange| > 0
  {
    SpeciesStats(s.count, s.avgFitness / s.count as real, [MinOf(s.depthRange), MaxOf(s.depthRange)])
  }

  predicate RecordsFilled(d: Dict<string, SpeciesStats>)
  {
    forall i :: 0 <= i < |d| ==> d[i].1.count > 0 && |d[i].1.depthRange| > 0
  }

  /** The dictionary after the second loop: every record averaged, in place. */
  function Finalize(d: Dict<string, SpeciesStats>): (r: Dict<string, SpeciesStats>)
    requires RecordsFilled(d)
    ensures |r| == |d|
    ensures forall i :: 0 <= i < |d| ==> r[i].0 == d[i].0
  {
    seq(|d|, i requires 0 <= i < |d| => (d[i].0, Averaged(d[i].1)))
  }

  /** The entry `_log_species_diversity` appends for a population `vs`. */
  function LogEntryOf(vs: seq<View>, generation: int): (e: LogEntry)
    ensures e.generation == generation
  {
    var d := Tally(vs);
    TallyRecords(vs);
    LogEntry(generation, Finalize(d), |d|)
  }

  lemma {:induction false} SumByFinalize(d: Dict<string, SpeciesStats>)
    requires RecordsFilled(d)
    ensures SumBy(Finalize(d), (s: SpeciesStats) => s.count as int) == SumBy(d, (s: SpeciesStats) => s.count as int)
    decreases |d|
  {
    if |d| > 0 {
      var prefix := d[..|d| - 1];
      SumByFinalize(prefix);
      assert Finalize(d)[..|d| - 1] == Finalize(prefix);
    }
  }

  /** A log entry has one record per distinct alive name, and its counts add up to
      the number of alive creatures. */
  lemma LogEntryConsistent(vs: seq<View>, generation: int)
    ensures var e := LogEntryOf(vs, generation);
      DistinctKeys(e.species) && KeySet(e.species) == AliveNames(vs) &&
      e.totalSpecies == |AliveNames(vs)| == |e.species|
    ensures SumBy(LogEntryOf(vs, generation).species, (s: SpeciesStats) => s.count as int) == AliveCount(vs)
  {
    var d := Tally(vs);
    TallyKeys(vs);
    TallyRecords(vs);
    TallyCounts(vs);
    SumByFinalize(d);
    var e := LogEntryOf(vs, generation);
    assert e.species == Finalize(d);
    assert KeySet(e.species) == KeySet(d) by {
      assert forall i :: 0 <= i < |d| ==> e.species[i].0 == d[i].0;
    }
  }

  /** The first loop's record at position `i` is the record of that name's members. */
  lemma TallyAt(vs: seq<View>, i: nat)
    requires i < |Tally(vs)|
    ensures Tally(vs)[i].1 == StatsOf(Members(vs, Tally(vs)[i].0))
    ensures |Members(vs, Tally(vs)[i].0)| > 0
  {
    var d := Tally(vs);
    TallyKeys(vs);
    TallyRecords(vs);
    var name := d[i].0;
    GetOrAt(d, i, NoStats);
    TallyLookup(vs, name);
  }

  /** Averaging the record of a non-empty group gives its depth range and an average
      between its least and greatest fitness. */
  lemma AveragedStats(ms: seq<View>)
    requires |ms| > 0
    ensures var s := Averaged(StatsOf(ms));
      s.count == |ms| &&
      s.depthRange == [MinOf(Depths(ms)), MaxOf(Depths(ms))] && s.depthRange[0] <= s.depthRange[1] &&
      MinOf(Fitnesses(ms)) <= s.avgFitness <= MaxOf(Fitnesses(ms))
  {
    var fs := Fitnesses(ms);
    SumBounds(fs, MinOf(fs), MaxOf(fs));
    QuotientBounds(Sum(fs), |ms| as real, MinOf(fs), MaxOf(fs));
  }

  lemma QuotientBounds(sum: real, n: real, low: real, high: real)
    requires n > 0.0 && n * low <= sum <= n * high
    ensures low <= sum / n <= high
  {
    var q := sum / n;
    assert q * n == sum;
  }

  /** Each record of a log entry describes its species' alive members: their number,
      their depth range with min <= max, and an average fitness between their least
      and greatest fitness. */
  lemma LogEntryRecord(vs: seq<View>, generation: int, i: nat)
    requires i < |LogEntryOf(vs, generation).species|
    ensures var ms, s := Members(vs, LogEntryOf(vs, generation).species[i].0), LogEntryOf(vs, generation).species[i].1;
      |ms| > 0 && s.count == |ms| &&
      s.depthRange == [MinOf(Depths(ms)), MaxOf(Depths(ms))] && s.depthRange[0] <= s.depthRange[1] &&
      MinOf(Fitnesses(ms)) <= s.avgFitness <= MaxOf(Fitnesses(ms))
  {
    var d := Tally(vs);
    TallyAt(vs, i);
    var ms := Members(vs, d[i].0);
    AveragedStats(ms);
    TallyRecords(vs);
    assert LogEntryOf(vs, generation).species[i] == (d[i].0, Averaged(d[i].1));
  }
}
