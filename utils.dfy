/** Survivor aggregation for the depth plots (utils.py): the alive creatures of one run
    binned by depth and counted by visual category, and the per-cell average of several
    runs' aggregations. */
module Utils {
  import opened Dicts
  import opened Traits
  import opened Creatures
  import Selection

  /** Counts per depth bin, then per category; both levels keep insertion order. */
  type Aggregation = Dict<int, Dict<string, int>>

  /** Averaged counts per depth, then per category; nothing reads their order. */
  type Averages = map<int, map<string, real>>

  // ---------------------------------------------------------------------------
  // Depth bins

  function Abs(x: real): real
  {
    if x < 0.0 then -x else x
  }

  /** Python's `round` on a float: the nearest integer, a tie going to the even one. */
  function RoundHalfEven(x: real): (n: int)
    ensures Abs(x - n as real) <= 0.5
    ensures Abs(x - n as real) == 0.5 ==> n % 2 == 0
  {
    var f := x.Floor;
    var frac := x - f as real;
    if frac < 0.5 then f
    else if frac > 0.5 then f + 1
    else if f % 2 == 0 then f
    else f + 1
  }

  /** No integer lies closer to `x` than the rounded value. */
  lemma RoundNearest(x: real, m: int)
    ensures Abs(x - RoundHalfEven(x) as real) <= Abs(x - m as real)
  {
    var n := RoundHalfEven(x);
    if m < n {
      assert m as real <= n as real - 1.0;
    } else if m > n {
      assert m as real >= n as real + 1.0;
    }
  }

  /** `int(step * round(depth / step))`: the bin of a depth. */
  function DepthKey(depth: real, step: int): (key: int)
    requires step != 0
  {
    step * RoundHalfEven(depth / step as real)
  }

  /** The bin is a multiple of `step`, at most half a step away from the depth. */
  lemma DepthKeyNearest(depth: real, step: int)
    requires step != 0
    ensures DepthKey(depth, step) % step == 0
    ensures Abs(depth - DepthKey(depth, step) as real) <= Abs(step as real) / 2.0
  {
    var s := step as real;
    var x := depth / s;
    var n := RoundHalfEven(x);
    var y := x - n as real;
    assert DepthKey(depth, step) == step * n;
    MultipleMod(step, n);
    var dist := depth - DepthKey(depth, step) as real;
    assert dist == s * y by {
      CastProduct(step, n);
      assert depth == s * x;
      assert s * x - s * (n as real) == s * y;
    }
    HalfScale(s, y, dist);
  }

  /** A product with a factor of at most one half in size is at most half the other. */
  lemma HalfScale(s: real, y: real, dist: real)
    requires dist == s * y && Abs(y) <= 0.5
    ensures Abs(dist) <= Abs(s) / 2.0
  {
    AbsProduct(s, y);
    ScaleBound(Abs(s), Abs(y), 0.5);
  }

  lemma CastProduct(a: int, b: int)
    ensures (a * b) as real == a as real * b as real
  {
  }

  /** A multiple of `step` leaves no remainder. */
  lemma MultipleMod(step: int, n: int)
    requires step != 0
    ensures (step * n) % step == 0
  {
    var q := (step * n) / step;
    var r := (step * n) % step;
    assert step * (n - q) == r by {
      assert step * n == step * q + r;
    }
    MultipleSize(step, n - q);
  }

  function IAbs(x: int): nat
  {
    if x < 0 then -x else x
  }

  /** A nonzero multiple is at least as large as the factor. */
  lemma MultipleSize(s: int, m: int)
    ensures m != 0 ==> IAbs(s * m) >= IAbs(s)
  {
    if m != 0 {
      IntAbsProduct(s, m);
      MulAtLeast(IAbs(s), IAbs(m));
    }
  }

  lemma IntAbsProduct(s: int, m: int)
    ensures IAbs(s * m) == IAbs(s) * IAbs(m)
  {
    if s < 0 && m < 0 {
      assert s * m == (-s) * (-m);
    } else if s < 0 {
      assert -(s * m) == (-s) * m;
    } else if m < 0 {
      assert -(s * m) == s * (-m);
    }
  }

  lemma {:induction false} MulAtLeast(a: nat, b: int)
    requires b >= 1
    ensures a * b >= a
    decreases b
  {
    if b > 1 {
      MulAtLeast(a, b - 1);
      assert a * b == a * (b - 1) + a;
    }
  }

  lemma AbsProduct(a: real, b: real)
    ensures Abs(a * b) == Abs(a) * Abs(b)
  {
    if a < 0.0 && b < 0.0 {
      assert a * b == (-a) * (-b);
    } else if a < 0.0 {
      assert -(a * b) == (-a) * b;
    } else if b < 0.0 {
      assert -(a * b) == a * (-b);
    }
  }

  lemma ScaleBound(a: real, b: real, c: real)
    requires a >= 0.0 && b <= c
    ensures a * b <= a * c
  {
    assert a * c - a * b == a * (c - b);
  }

  // ---------------------------------------------------------------------------
  // Visual categories

  /** The vision values with a category of their own. */
  const KnownVisions: set<TraitValue> :=
    {Cat("eyes"), Cat("bioluminescence"), Cat("no_eyes"), Cat("echolocation"),
     Cat("lateral_line"), Cat("compound_eyes")}

  /** What the aggregation reads of an alive creature: its vision and, for a creature
      without eyes, its food strategy. */
  predicate Readable(t: Traits)
  {
    "vision" in t && (t["vision"] == Cat("no_eyes") ==> "food_strategy" in t)
  }

  predicate Countable(v: View)
  {
    !v.alive || Readable(v.traits)
  }

  /** The counter an alive creature increments, or `None` for a vision outside the six. */
  function Category(t: Traits): (cat: Option<string>)
    requires Readable(t)
    ensures cat.Some? <==> t["vision"] in KnownVisions
    ensures cat == Some("plants") <==>
      t["vision"] == Cat("no_eyes") && t["food_strategy"] == Cat("photosynthesis")
    ensures cat == Some("no_eyes_animal") <==>
      t["vision"] == Cat("no_eyes") && t["food_strategy"] != Cat("photosynthesis")
    ensures t["vision"] != Cat("no_eyes") && cat.Some? ==> cat == Some(t["vision"].text)
  {
    var vision := t["vision"];
    if vision == Cat("eyes") then Some("eyes")
    else if vision == Cat("bioluminescence") then Some("bioluminescence")
    else if vision == Cat("no_eyes") then
      if t["food_strategy"] == Cat("photosynthesis") then Some("plants") else Some("no_eyes_animal")
    else if vision == Cat("echolocation") then Some("echolocation")
    else if vision == Cat("lateral_line") then Some("lateral_line")
    else if vision == Cat("compound_eyes") then Some("compound_eyes")
    else None
  }

  /** Every creature whose traits follow the schema is counted somewhere. */
  lemma ConformingCounted(t: Traits)
    requires Conforms(t)
    ensures Readable(t) && Category(t).Some?
  {
    assert CategoricalOk(t, CategoricalTraits[0]);
    assert CategoricalOk(t, CategoricalTraits[1]);
    assert t["vision"].text in PossibleVision;
  }

  // ---------------------------------------------------------------------------
  // aggregate_species_by_depth

  /** `agg[key][cat]`, absent entries reading as 0. */
  function Lookup(agg: Aggregation, key: int, cat: string): int
  {
    Find(Find(agg, key, []), cat, 0)
  }

  /** `agg[key][cat] += 1` on nested default dictionaries. */
  function Bump(agg: Aggregation, key: int, cat: string): Aggregation
  {
    Put(agg, key, Put(Find(agg, key, []), cat, Lookup(agg, key, cat) + 1))
  }

  /** One turn of the loop. */
  function Tick(agg: Aggregation, v: View, step: int): Aggregation
    requires step != 0 && Countable(v)
  {
    if !v.alive then agg
    else match Category(v.traits)
      case None => agg
      case Some(cat) => Bump(agg, DepthKey(v.depth, step), cat)
  }

  predicate AllCountable(vs: seq<View>)
  {
    forall i :: 0 <= i < |vs| ==> Countable(vs[i])
  }

  /** The aggregation after the loop has seen every creature of `vs`. */
  function Aggregate(vs: seq<View>, step: int): Aggregation
    requires step != 0 && AllCountable(vs)
    decreases |vs|
  {
    if |vs| == 0 then []
    else
      assert AllCountable(vs[..|vs| - 1]) by {
        assert forall i :: 0 <= i < |vs| - 1 ==> vs[..|vs| - 1][i] == vs[i];
      }
      Tick(Aggregate(vs[..|vs| - 1], step), vs[|vs| - 1], step)
  }

  /** Whether a creature is counted in bin `key` under `cat`. */
  predicate Lands(v: View, step: int, key: int, cat: string)
    requires step != 0 && Countable(v)
  {
    v.alive && Category(v.traits) == Some(cat) && DepthKey(v.depth, step) == key
  }

  /** The number of creatures of `vs` counted in bin `key` under `cat`. */
  function Occupants(vs: seq<View>, step: int, key: int, cat: string): nat
    requires step != 0 && AllCountable(vs)
    decreases |vs|
  {
    if |vs| == 0 then 0
    else
      assert AllCountable(vs[..|vs| - 1]) by {
        assert forall i :: 0 <= i < |vs| - 1 ==> vs[..|vs| - 1][i] == vs[i];
      }
      Occupants(vs[..|vs| - 1], step, key, cat) + (if Lands(vs[|vs| - 1], step, key, cat) then 1 else 0)
  }

  /** The number of alive creatures of `vs` with one of the six known visions. */
  function Known(vs: seq<View>): nat
    requires AllCountable(vs)
    decreases |vs|
  {
    if |vs| == 0 then 0
    else
      assert AllCountable(vs[..|vs| - 1]) by {
        assert forall i :: 0 <= i < |vs| - 1 ==> vs[..|vs| - 1][i] == vs[i];
      }
      var v := vs[|vs| - 1];
      Known(vs[..|vs| - 1]) + (if v.alive && Category(v.traits).Some? then 1 else 0)
  }

  function Itself(n: int): int
  {
    n
  }

  function RowTotal(row: Dict<string, int>): int
  {
    SumBy(row, Itself)
  }

  /** The grand total over all bins and categories. */
  function Total(agg: Aggregation): int
  {
    SumBy(agg, RowTotal)
  }

  /** A lookup reads through the insertion of a key into a dictionary. */
  lemma GetOrPut<K(!new), V>(d: Dict<K, V>, k: K, v: V, k': K, default: V)
    ensures GetOr(Put(d, k, v), k', default) == if k == k' then v else GetOr(d, k', default)
  {
  }

  /** Incrementing a counter raises that counter by one and leaves every other as it was. */
  lemma BumpLookup(agg: Aggregation, key: int, cat: string, key': int, cat': string)
    ensures Lookup(Bump(agg, key, cat), key', cat') ==
      Lookup(agg, key', cat') + (if key == key' && cat == cat' then 1 else 0)
  {
    var row := Find(agg, key, []);
    var row' := Put(row, cat, Lookup(agg, key, cat) + 1);
    FindGetOr(Bump(agg, key, cat), key', []);
    GetOrPut(agg, key, row', key', []);
    FindGetOr(agg, key', []);
    if key == key' {
      FindGetOr(row', cat', 0);
      GetOrPut(row, cat, Lookup(agg, key, cat) + 1, cat', 0);
      FindGetOr(row, cat', 0);
    }
  }

  /** Incrementing a counter raises the grand total by one. */
  lemma BumpTotal(agg: Aggregation, key: int, cat: string)
    ensures Total(Bump(agg, key, cat)) == Total(agg) + 1
  {
    var row := Find(agg, key, []);
    var row' := Put(row, cat, Lookup(agg, key, cat) + 1);
    FindGetOr(row, cat, 0);
    SumByPut(row, cat, Lookup(agg, key, cat) + 1, 0, Itself);
    assert RowTotal([]) == 0;
    FindGetOr(agg, key, []);
    SumByPut(agg, key, row', [], RowTotal);
  }

  /** A creature that is dead or has an unknown vision changes nothing; any other raises
      exactly its own counter by one. */
  lemma TickLookup(agg: Aggregation, v: View, step: int, key: int, cat: string)
    requires step != 0 && Countable(v)
    ensures !v.alive || Category(v.traits).None? ==> Tick(agg, v, step) == agg
    ensures Lookup(Tick(agg, v, step), key, cat) ==
      Lookup(agg, key, cat) + (if Lands(v, step, key, cat) then 1 else 0)
  {
    if v.alive && Category(v.traits).Some? {
      BumpLookup(agg, DepthKey(v.depth, step), Category(v.traits).value, key, cat);
    }
  }

  /** Each counter holds the number of creatures that land in it. */
  lemma {:induction false} AggregateLookup(vs: seq<View>, step: int, key: int, cat: string)
    requires step != 0 && AllCountable(vs)
    ensures Lookup(Aggregate(vs, step), key, cat) == Occupants(vs, step, key, cat)
    decreases |vs|
  {
    if |vs| > 0 {
      var prefix := vs[..|vs| - 1];
      assert AllCountable(prefix) by {
        assert forall i :: 0 <= i < |prefix| ==> prefix[i] == vs[i];
      }
      AggregateLookup(prefix, step, key, cat);
      TickLookup(Aggregate(prefix, step), vs[|vs| - 1], step, key, cat);
    }
  }

  /** The counters add up to the number of alive creatures with a known vision. */
  lemma {:induction false} AggregateTotal(vs: seq<View>, step: int)
    requires step != 0 && AllCountable(vs)
    ensures Total(Aggregate(vs, step)) == Known(vs)
    decreases |vs|
  {
    if |vs| > 0 {
      var prefix := vs[..|vs| - 1];
      assert AllCountable(prefix) by {
        assert forall i :: 0 <= i < |prefix| ==> prefix[i] == vs[i];
      }
      AggregateTotal(prefix, step);
      var v := vs[|vs| - 1];
      var before := Aggregate(prefix, step);
      assert Aggregate(vs, step) == Tick(before, v, step);
      assert Known(vs) == Known(prefix) + (if v.alive && Category(v.traits).Some? then 1 else 0);
      if v.alive && Category(v.traits).Some? {
        var key, cat := DepthKey(v.depth, step), Category(v.traits).value;
        assert Tick(before, v, step) == Bump(before, key, cat);
        BumpTotal(before, key, cat);
      } else {
        assert Tick(before, v, step) == before;
      }
    }
  }

  /** Dead creatures contribute nothing: the aggregation of the alive ones is the same. */
  lemma {:induction false} AggregateAliveOnly(vs: seq<View>, step: int)
    requires step != 0 && AllCountable(vs)
    ensures AllCountable(Selection.AliveOnes(vs))
    ensures Aggregate(Selection.AliveOnes(vs), step) == Aggregate(vs, step)
    decreases |vs|
  {
    Selection.AliveOnesMembers(vs);
    var alive := Selection.AliveOnes(vs);
    assert AllCountable(alive) by {
      forall i | 0 <= i < |alive| ensures Countable(alive[i]) {
        assert alive[i] in vs;
      }
    }
    if |vs| > 0 {
      var prefix := vs[..|vs| - 1];
      assert AllCountable(prefix) by {
        assert forall i :: 0 <= i < |prefix| ==> prefix[i] == vs[i];
      }
      AggregateAliveOnly(prefix, step);
      var v := vs[|vs| - 1];
      if v.alive {
        assert alive[..|alive| - 1] == Selection.AliveOnes(prefix);
      }
    }
  }

  /** `agg[key][cat] += 1`, read and written through the default dictionaries. */
  method Increment(agg: Aggregation, key: int, cat: string) returns (r: Aggregation)
    ensures r == Bump(agg, key, cat)
  {
    var row := Find(agg, key, []);
    row := Put(row, cat, Find(row, cat, 0) + 1);
    r := Put(agg, key, row);
  }

  /** The `if`/`elif` chain of the loop: the counter an alive creature's traits select. */
  method Classify(t: Traits) returns (cat: Option<string>)
    requires Readable(t)
    ensures cat == Category(t)
  {
    var vision := t["vision"];
    cat := None;
    if vision == Cat("eyes") {
      cat := Some("eyes");
    } else if vision == Cat("bioluminescence") {
      cat := Some("bioluminescence");
    } else if vision == Cat("no_eyes") {
      if t["food_strategy"] == Cat("photosynthesis") {
        cat := Some("plants");
      } else {
        cat := Some("no_eyes_animal");
      }
    } else if vision == Cat("echolocation") {
      cat := Some("echolocation");
    } else if vision == Cat("lateral_line") {
      cat := Some("lateral_line");
    } else if vision == Cat("compound_eyes") {
      cat := Some("compound_eyes");
    }
  }

  /** The loop's aggregation over one more creature. */
  lemma AggregateSnoc(vs: seq<View>, i: nat, step: int)
    requires step != 0 && i < |vs| && AllCountable(vs)
    ensures AllCountable(vs[..i]) && AllCountable(vs[..i + 1])
    ensures Aggregate(vs[..i + 1], step) == Tick(Aggregate(vs[..i], step), vs[i], step)
  {
    assert vs[..i + 1][..i] == vs[..i];
    assert forall j :: 0 <= j < i + 1 ==> vs[..i + 1][j] == vs[j];
  }

  /** `aggregate_species_by_depth(creatures, max_depth, step)`; `max_depth` is unused by
      the source and omitted. */
  method AggregateSpeciesByDepth(creatures: seq<Creature>, step: int) returns (agg: Aggregation)
    requires step != 0 && forall i :: 0 <= i < |creatures| ==> Countable(ViewOf(creatures[i]))
    ensures AllCountable(Views(creatures)) && agg == Aggregate(Views(creatures), step)
  {
    ghost var vs := Views(creatures);
    assert AllCountable(vs);
    agg := [];
    for i := 0 to |creatures|
      invariant AllCountable(vs[..i]) && agg == Aggregate(vs[..i], step)
    {
      var c := creatures[i];
      AggregateSnoc(vs, i, step);
      if !c.alive {
        continue;
      }
      var cat := Classify(c.traits);
      if cat.Some? {
        agg := Increment(agg, DepthKey(c.depth, step), cat.value);
      }
    }
    assert vs[..|creatures|] == vs;
  }

  // ---------------------------------------------------------------------------
  // average_aggregations

  /** `avg[d][s]`, absent entries reading as 0.0. */
  function Cell(avg: Averages, d: int, s: string): real
  {
    if d in avg && s in avg[d] then avg[d][s] else 0.0
  }

  /** `avg[d][s] = x` on nested default dictionaries. */
  function SetCell(avg: Averages, d: int, s: string, x: real): Averages
  {
    avg[d := (if d in avg then avg[d] else map[])[s := x]]
  }

  lemma CellSet(avg: Averages, d: int, s: string, x: real, d': int, s': string)
    ensures Cell(SetCell(avg, d, s, x), d', s') == if d == d' && s == s' then x else Cell(avg, d', s')
  {
  }

  /** The innermost accumulation loop for one run and one depth. */
  function AddRow(avg: Averages, agg: Aggregation, d: int, species: seq<string>): Averages
    decreases |species|
  {
    if |species| == 0 then avg
    else
      var prev := AddRow(avg, agg, d, species[..|species| - 1]);
      var s := species[|species| - 1];
      SetCell(prev, d, s, Cell(prev, d, s) + Lookup(agg, d, s) as real)
  }

  /** The accumulation loops for one run. */
  function AddRun(avg: Averages, agg: Aggregation, depths: seq<int>, species: seq<string>): Averages
    decreases |depths|
  {
    if |depths| == 0 then avg
    else AddRow(AddRun(avg, agg, depths[..|depths| - 1], species), agg, depths[|depths| - 1], species)
  }

  /** The sums after the first loop nest has seen every run. */
  function Accumulate(aggs: seq<Aggregation>, depths: seq<int>, species: seq<string>): Averages
    decreases |aggs|
  {
    if |aggs| == 0 then map[]
    else AddRun(Accumulate(aggs[..|aggs| - 1], depths, species), aggs[|aggs| - 1], depths, species)
  }

  /** The division loop for one depth. */
  function DivRow(avg: Averages, d: int, species: seq<string>, runs: nat): Averages
    requires runs > 0 || |species| == 0
    decreases |species|
  {
    if |species| == 0 then avg
    else
      var prev := DivRow(avg, d, species[..|species| - 1], runs);
      var s := species[|species| - 1];
      SetCell(prev, d, s, Cell(prev, d, s) / runs as real)
  }

  /** The division loop nest. */
  function DivAll(avg: Averages, depths: seq<int>, species: seq<string>, runs: nat): Averages
    requires runs > 0 || |depths| == 0 || |species| == 0
    decreases |depths|
  {
    if |depths| == 0 then avg
    else DivRow(DivAll(avg, depths[..|depths| - 1], species, runs), depths[|depths| - 1], species, runs)
  }

  /** What `average_aggregations` returns; with no runs it divides by zero as soon as
      there is a cell to divide. */
  function Averaged(aggs: seq<Aggregation>, depths: seq<int>, species: seq<string>): Averages
    requires |aggs| > 0 || |depths| == 0 || |species| == 0
  {
    DivAll(Accumulate(aggs, depths, species), depths, species, |aggs|)
  }

  lemma AddRowStep(avg: Averages, agg: Aggregation, d: int, species: seq<string>)
    requires |species| > 0
    ensures AddRow(avg, agg, d, species) ==
      SetCell(AddRow(avg, agg, d, species[..|species| - 1]), d, species[|species| - 1],
        Cell(AddRow(avg, agg, d, species[..|species| - 1]), d, species[|species| - 1]) +
        Lookup(agg, d, species[|species| - 1]) as real)
  {
  }

  lemma AddRunStep(avg: Averages, agg: Aggregation, depths: seq<int>, species: seq<string>)
    requires |depths| > 0
    ensures AddRun(avg, agg, depths, species) ==
      AddRow(AddRun(avg, agg, depths[..|depths| - 1], species), agg, depths[|depths| - 1], species)
  {
  }

  lemma DivRowStep(avg: Averages, d: int, species: seq<string>, runs: nat)
    requires runs > 0 && |species| > 0
    ensures DivRow(avg, d, species, runs) ==
      SetCell(DivRow(avg, d, species[..|species| - 1], runs), d, species[|species| - 1],
        Cell(DivRow(avg, d, species[..|species| - 1], runs), d, species[|species| - 1]) / runs as real)
  {
  }

  lemma DivAllStep(avg: Averages, depths: seq<int>, species: seq<string>, runs: nat)
    requires runs > 0 && |depths| > 0
    ensures DivAll(avg, depths, species, runs) ==
      DivRow(DivAll(avg, depths[..|depths| - 1], species, runs), depths[|depths| - 1], species, runs)
  {
  }

  /** The reference sum of one cell over the runs, absent entries counting as 0. */
  function SumRuns(aggs: seq<Aggregation>, d: int, s: string): real
    decreases |aggs|
  {
    if |aggs| == 0 then 0.0 else SumRuns(aggs[..|aggs| - 1], d, s) + Lookup(aggs[|aggs| - 1], d, s) as real
  }

  /** With distinct categories, one run's row adds that run's count to each listed
      cell of the depth. */
  lemma {:induction false} AddRowCell(avg: Averages, agg: Aggregation, d: int, species: seq<string>, d': int, s': string)
    requires forall i, j :: 0 <= i < j < |species| ==> species[i] != species[j]
    ensures Cell(AddRow(avg, agg, d, species), d', s') ==
      Cell(avg, d', s') + (if d == d' && s' in species then Lookup(agg, d', s') as real else 0.0)
    decreases |species|
  {
    if |species| > 0 {
      var prefix := species[..|species| - 1];
      var s := species[|species| - 1];
      assert s !in prefix && (s' in species <==> s' in prefix || s' == s) by {
        assert species == prefix + [s];
      }
      AddRowCell(avg, agg, d, prefix, d', s');
      var prev := AddRow(avg, agg, d, prefix);
      var x := Lookup(agg, d, s) as real;
      AddRowStep(avg, agg, d, species);
      assert AddRow(avg, agg, d, species) == SetCell(prev, d, s, Cell(prev, d, s) + x);
      CellSet(prev, d, s, Cell(prev, d, s) + x, d', s');
      if d == d' && s == s' {
        assert Cell(AddRow(avg, agg, d, species), d', s') == Cell(prev, d', s') + x;
      } else {
        assert Cell(AddRow(avg, agg, d, species), d', s') == Cell(prev, d', s');
      }
    }
  }

  /** With distinct depths and categories, one run adds its count to each listed cell. */
  lemma {:induction false} AddRunCell(avg: Averages, agg: Aggregation, depths: seq<int>, species: seq<string>, d': int, s': string)
    requires forall i, j :: 0 <= i < j < |depths| ==> depths[i] != depths[j]
    requires forall i, j :: 0 <= i < j < |species| ==> species[i] != species[j]
    ensures Cell(AddRun(avg, agg, depths, species), d', s') ==
      Cell(avg, d', s') + (if d' in depths && s' in species then Lookup(agg, d', s') as real else 0.0)
    decreases |depths|
  {
    if |depths| > 0 {
      var prefix := depths[..|depths| - 1];
      var d := depths[|depths| - 1];
      assert d !in prefix && (d' in depths <==> d' in prefix || d' == d) by {
        assert depths == prefix + [d];
      }
      AddRunStep(avg, agg, depths, species);
      AddRunCell(avg, agg, prefix, species, d', s');
      AddRowCell(AddRun(avg, agg, prefix, species), agg, d, species, d', s');
    }
  }

  /** With distinct depths and categories, after every run each listed cell holds its
      sum over the runs and every other cell reads as 0. */
  lemma {:induction false} AccumulateCell(aggs: seq<Aggregation>, depths: seq<int>, species: seq<string>, d': int, s': string)
    requires forall i, j :: 0 <= i < j < |depths| ==> depths[i] != depths[j]
    requires forall i, j :: 0 <= i < j < |species| ==> species[i] != species[j]
    ensures Cell(Accumulate(aggs, depths, species), d', s') ==
      if d' in depths && s' in species then SumRuns(aggs, d', s') else 0.0
    decreases |aggs|
  {
    if |aggs| > 0 {
      var prefix := aggs[..|aggs| - 1];
      AccumulateCell(prefix, depths, species, d', s');
      AddRunCell(Accumulate(prefix, depths, species), aggs[|aggs| - 1], depths, species, d', s');
    } else {
      assert Cell(map[], d', s') == 0.0;
    }
  }

  /** With distinct categories, each listed cell of the depth is divided once. */
  lemma {:induction false} DivRowCell(avg: Averages, d: int, species: seq<string>, runs: nat, d': int, s': string)
    requires runs > 0 || |species| == 0
    requires forall i, j :: 0 <= i < j < |species| ==> species[i] != species[j]
    ensures Cell(DivRow(avg, d, species, runs), d', s') ==
      if d == d' && s' in species then Cell(avg, d', s') / runs as real else Cell(avg, d', s')
    decreases |species|
  {
    if |species| > 0 {
      var prefix := species[..|species| - 1];
      var s := species[|species| - 1];
      assert s !in prefix && (s' in species <==> s' in prefix || s' == s) by {
        assert species == prefix + [s];
      }
      DivRowCell(avg, d, prefix, runs, d', s');
      var prev := DivRow(avg, d, prefix, runs);
      DivRowStep(avg, d, species, runs);
      CellSet(prev, d, s, Cell(prev, d, s) / runs as real, d', s');
    }
  }

  /** With distinct depths and categories, each listed cell is divided once. */
  lemma {:induction false} DivAllCell(avg: Averages, depths: seq<int>, species: seq<string>, runs: nat, d': int, s': string)
    requires runs > 0
    requires forall i, j :: 0 <= i < j < |depths| ==> depths[i] != depths[j]
    requires forall i, j :: 0 <= i < j < |species| ==> species[i] != species[j]
    ensures Cell(DivAll(avg, depths, species, runs), d', s') ==
      if d' in depths && s' in species then Cell(avg, d', s') / runs as real else Cell(avg, d', s')
    decreases |depths|
  {
    if |depths| > 0 {
      var prefix := depths[..|depths| - 1];
      var d := depths[|depths| - 1];
      assert d !in prefix && (d' in depths <==> d' in prefix || d' == d) by {
        assert depths == prefix + [d];
      }
      DivAllStep(avg, depths, species, runs);
      DivAllCell(avg, prefix, species, runs, d', s');
      DivRowCell(DivAll(avg, prefix, species, runs), d, species, runs, d', s');
    }
  }

  /** For distinct depths and categories, every listed cell of the result is the mean of
      that cell over the runs, and every other cell reads as 0. */
  lemma AveragedCell(aggs: seq<Aggregation>, depths: seq<int>, species: seq<string>, d: int, s: string)
    requires |aggs| > 0
    requires forall i, j :: 0 <= i < j < |depths| ==> depths[i] != depths[j]
    requires forall i, j :: 0 <= i < j < |species| ==> species[i] != species[j]
    ensures Cell(Averaged(aggs, depths, species), d, s) ==
      if d in depths && s in species then SumRuns(aggs, d, s) / |aggs| as real else 0.0
  {
    AccumulateCell(aggs, depths, species, d, s);
    DivAllCell(Accumulate(aggs, depths, species), depths, species, |aggs|, d, s);
  }

  /** `average_aggregations(all_aggs, depths, species)`: the sums over the runs, then
      each listed cell divided by the number of runs. */
  method AverageAggregations(aggs: seq<Aggregation>, depths: seq<int>, species: seq<string>)
    returns (avg: Averages)
    requires |aggs| > 0 || |depths| == 0 || |species| == 0
    ensures avg == Averaged(aggs, depths, species)
  {
    avg := map[];
    var runs := |aggs|;
    for r := 0 to |aggs|
      invariant avg == Accumulate(aggs[..r], depths, species)
    {
      assert aggs[..r + 1][..r] == aggs[..r];
      avg := AddRunLoop(avg, aggs[r], depths, species);
    }
    assert aggs[..|aggs|] == aggs;
    ghost var sums := avg;
    for j := 0 to |depths|
      invariant avg == DivAll(sums, depths[..j], species, runs)
    {
      assert depths[..j + 1][..j] == depths[..j];
      avg := DivRowLoop(avg, depths[j], species, runs);
    }
    assert depths[..|depths|] == depths;
  }

  /** The accumulation loops over the depths and categories for one run. */
  method AddRunLoop(avg0: Averages, agg: Aggregation, depths: seq<int>, species: seq<string>)
    returns (avg: Averages)
    ensures avg == AddRun(avg0, agg, depths, species)
  {
    avg := avg0;
    for j := 0 to |depths|
      invariant avg == AddRun(avg0, agg, depths[..j], species)
    {
      AddRunStep(avg0, agg, depths[..j + 1], species);
      assert depths[..j + 1][..j] == depths[..j];
      avg := AddRowLoop(avg, agg, depths[j], species);
    }
    assert depths[..|depths|] == depths;
  }

  /** `avg[d][s] += agg[d][s]` for every category `s`. */
  method AddRowLoop(avg0: Averages, agg: Aggregation, d: int, species: seq<string>)
    returns (avg: Averages)
    ensures avg == AddRow(avg0, agg, d, species)
  {
    avg := avg0;
    for k := 0 to |species|
      invariant avg == AddRow(avg0, agg, d, species[..k])
    {
      AddRowStep(avg0, agg, d, species[..k + 1]);
      assert species[..k + 1][..k] == species[..k];
      var s := species[k];
      avg := SetCell(avg, d, s, Cell(avg, d, s) + Lookup(agg, d, s) as real);
    }
    assert species[..|species|] == species;
  }

  /** `avg[d][s] /= runs` for every category `s`. */
  method DivRowLoop(avg0: Averages, d: int, species: seq<string>, runs: nat)
    returns (avg: Averages)
    requires runs > 0 || |species| == 0
    ensures avg == DivRow(avg0, d, species, runs)
  {
    avg := avg0;
    for k := 0 to |species|
      invariant avg == DivRow(avg0, d, species[..k], runs)
    {
      DivRowStep(avg0, d, species[..k + 1], runs);
      assert species[..k + 1][..k] == species[..k];
      var s := species[k];
      avg := SetCell(avg, d, s, Cell(avg, d, s) / runs as real);
    }
    assert species[..|species|] == species;
  }

}
