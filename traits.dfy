/** A creature's trait dictionary (creature.py): nine categorical traits drawn from
    fixed option lists and ten numeric traits with a range and a mutation strength,
    together with random creation and the mutation operator on trait values. */
module Traits {

  /** A trait value: the source stores strings and floats in the same dictionary. */
  datatype TraitValue = Cat(text: string) | Num(value: real)

  type Traits = map<string, TraitValue>

  const PossibleVision: seq<string> :=
    ["eyes", "no_eyes", "bioluminescence", "echolocation", "lateral_line", "compound_eyes"]
  const PossibleFoodStrategy: seq<string> :=
    ["photosynthesis", "filter", "predator", "scavenger", "parasite",
     "chemosynthesis", "detritivore", "carnivore", "herbivore", "omnivore"]
  const PossibleBodyType: seq<string> :=
    ["streamlined", "flat", "spherical", "elongated", "gelatinous", "armored"]
  const PossibleLocomotion: seq<string> :=
    ["swimming", "crawling", "floating", "jet_propulsion", "undulating", "sessile"]
  const PossibleSize: seq<string> := ["microscopic", "small", "medium", "large", "giant"]
  const PossiblePressureAdaptation: seq<string> := ["low", "medium", "high", "extreme"]
  const PossibleTemperature: seq<string> := ["cold", "moderate", "warm", "extremophile"]
  const PossibleDefense: seq<string> :=
    ["camouflage", "spines", "toxins", "speed", "armor", "mimicry", "none"]
  const PossibleSocial: seq<string> :=
    ["solitary", "small_groups", "schooling", "colonial", "symbiotic"]

  datatype CategoricalTrait = CategoricalTrait(name: string, options: seq<string>)

  datatype NumericTrait = NumericTrait(name: string, low: real, high: real, strength: real)

  /** The categorical traits, in the order `mutate` visits them. */
  const CategoricalTraits: seq<CategoricalTrait> := [
    CategoricalTrait("vision", PossibleVision),
    CategoricalTrait("food_strategy", PossibleFoodStrategy),
    CategoricalTrait("body_type", PossibleBodyType),
    CategoricalTrait("locomotion", PossibleLocomotion),
    CategoricalTrait("size", PossibleSize),
    CategoricalTrait("pressure_adaptation", PossiblePressureAdaptation),
    CategoricalTrait("temperature", PossibleTemperature),
    CategoricalTrait("defense", PossibleDefense),
    CategoricalTrait("social", PossibleSocial)
  ]

  /** The numeric traits with their range `[low, high]` and mutation strength, in the
      order `mutate` visits them; creation draws each uniformly from the same range. */
  const NumericTraits: seq<NumericTrait> := [
    NumericTrait("move_eff", 0.3, 2.0, 0.15),
    NumericTrait("repro_rate", 0.2, 2.5, 0.2),
    NumericTrait("metabolic_rate", 0.2, 2.0, 0.1),
    NumericTrait("oxygen_efficiency", 0.3, 1.8, 0.1),
    NumericTrait("light_intensity", 0.0, 1.0, 0.1),
    NumericTrait("pressure_tolerance", 0.1, 2.0, 0.15),
    NumericTrait("salinity_tolerance", 0.3, 1.5, 0.1),
    NumericTrait("aggression", 0.0, 1.0, 0.1),
    NumericTrait("camouflage_ability", 0.0, 1.0, 0.1),
    NumericTrait("migration_tendency", 0.0, 1.0, 0.1)
  ]

  function CatNames(cats: seq<CategoricalTrait>): (names: seq<string>)
    ensures |names| == |cats| && forall j :: 0 <= j < |cats| ==> names[j] == cats[j].name
  {
    seq(|cats|, j requires 0 <= j < |cats| => cats[j].name)
  }

  function NumNames(nums: seq<NumericTrait>): (names: seq<string>)
    ensures |names| == |nums| && forall j :: 0 <= j < |nums| ==> names[j] == nums[j].name
  {
    seq(|nums|, j requires 0 <= j < |nums| => nums[j].name)
  }

  predicate DistinctNames(names: seq<string>)
  {
    forall i, j :: 0 <= i < j < |names| ==> names[i] != names[j]
  }

  /** The nineteen trait keys: categorical first, then numeric. */
  const AllNames: seq<string> := CatNames(CategoricalTraits) + NumNames(NumericTraits)

  /** The keys of a freshly created trait dictionary. */
  const SchemaKeys: set<string> := set j | 0 <= j < |AllNames| :: AllNames[j]

  lemma CatNamesDistinct()
    ensures CatNames(CategoricalTraits) == ["vision", "food_strategy", "body_type", "locomotion",
      "size", "pressure_adaptation", "temperature", "defense", "social"]
    ensures DistinctNames(CatNames(CategoricalTraits))
  {
  }

  lemma NumNamesDistinct()
    ensures NumNames(NumericTraits) == ["move_eff", "repro_rate", "metabolic_rate",
      "oxygen_efficiency", "light_intensity", "pressure_tolerance", "salinity_tolerance",
      "aggression", "camouflage_ability", "migration_tendency"]
    ensures DistinctNames(NumNames(NumericTraits))
  {
  }

  lemma NamesDisjoint()
    ensures forall n :: n in NumNames(NumericTraits) ==> n !in CatNames(CategoricalTraits)
  {
    CatNamesDistinct();
    NumNamesDistinct();
  }

  /** No two traits share a key. */
  lemma NamesDistinct()
    ensures DistinctNames(AllNames)
    ensures DistinctNames(CatNames(CategoricalTraits)) && DistinctNames(NumNames(NumericTraits))
    ensures forall n :: n in NumNames(NumericTraits) ==> n !in CatNames(CategoricalTraits)
  {
    CatNamesDistinct();
    NumNamesDistinct();
    NamesDisjoint();
    var c, n := CatNames(CategoricalTraits), NumNames(NumericTraits);
    forall i, j | 0 <= i < j < |AllNames| ensures AllNames[i] != AllNames[j] {
      if j < |c| {
        assert AllNames[i] == c[i] && AllNames[j] == c[j];
      } else if i >= |c| {
        assert AllNames[i] == n[i - |c|] && AllNames[j] == n[j - |c|];
      } else {
        assert AllNames[i] == c[i] && AllNames[j] == n[j - |c|];
        assert n[j - |c|] in n;
      }
    }
  }

  /** `max(low, min(high, x))` */
  function Clamp(x: real, low: real, high: real): (r: real)
    ensures low <= high ==> low <= r <= high
    ensures low <= x <= high ==> r == x
  {
    if x > high then (if low > high then low else high)
    else if x < low then low
    else x
  }

  predicate CategoricalOk(t: Traits, c: CategoricalTrait)
  {
    c.name in t && t[c.name].Cat? && t[c.name].text in c.options
  }

  predicate NumericOk(t: Traits, n: NumericTrait)
  {
    n.name in t && t[n.name].Num? && n.low <= t[n.name].value <= n.high
  }

  /** Every trait of the schema is present, with a value from its domain. */
  predicate Conforms(t: Traits)
  {
    (forall k :: 0 <= k < |CategoricalTraits| ==> CategoricalOk(t, CategoricalTraits[k])) &&
    (forall k :: 0 <= k < |NumericTraits| ==> NumericOk(t, NumericTraits[k]))
  }

  predicate NumericPresentIn(t: Traits, nums: seq<NumericTrait>)
  {
    forall k :: 0 <= k < |nums| ==> nums[k].name in t && t[nums[k].name].Num?
  }

  /** What `mutate` needs of its parent: every numeric trait is present as a number. */
  predicate NumericPresent(t: Traits)
  {
    NumericPresentIn(t, NumericTraits)
  }

  lemma ConformsNumericPresent(t: Traits)
    requires Conforms(t)
    ensures NumericPresent(t)
  {
    forall k | 0 <= k < |NumericTraits|
      ensures NumericTraits[k].name in t && t[NumericTraits[k].name].Num?
    {
      assert NumericOk(t, NumericTraits[k]);
    }
  }

  // ---------------------------------------------------------------------------
  // Storing values under keys, one after the other

  /** The dictionary holding `values[j]` under `names[j]` for every `j >= i`, the
      first of them stored last. */
  function AssignFrom(names: seq<string>, values: seq<TraitValue>, i: nat): (r: Traits)
    requires i <= |names| && |values| == |names|
    decreases |names| - i
  {
    if i == |names| then map[] else AssignFrom(names, values, i + 1)[names[i] := values[i]]
  }

  lemma {:induction false} AssignFromKeys(names: seq<string>, values: seq<TraitValue>, i: nat)
    requires i <= |names| && |values| == |names|
    ensures AssignFrom(names, values, i).Keys == set j | i <= j < |names| :: names[j]
    decreases |names| - i
  {
    if i < |names| {
      AssignFromKeys(names, values, i + 1);
      assert (set j | i <= j < |names| :: names[j]) == (set j | i + 1 <= j < |names| :: names[j]) + {names[i]};
    }
  }

  lemma {:induction false} AssignFromAt(names: seq<string>, values: seq<TraitValue>, i: nat, j: nat)
    requires |values| == |names| && DistinctNames(names) && i <= j < |names|
    ensures names[j] in AssignFrom(names, values, i)
    ensures AssignFrom(names, values, i)[names[j]] == values[j]
    decreases |names| - i
  {
    if i < j {
      AssignFromAt(names, values, i + 1, j);
    }
  }

  // ---------------------------------------------------------------------------
  // Random creation (the constructor without traits)

  /** The draws of a random creation: an option index per categorical trait and a
      value per numeric trait, aligned with the two tables. */
  datatype CreationDraws = CreationDraws(picks: seq<nat>, values: seq<real>)

  predicate ValidCreationDraws(d: CreationDraws)
  {
    |d.picks| == |CategoricalTraits| && |d.values| == |NumericTraits| &&
    (forall k :: 0 <= k < |CategoricalTraits| ==> d.picks[k] < |CategoricalTraits[k].options|) &&
    (forall k :: 0 <= k < |NumericTraits| ==>
      NumericTraits[k].low <= d.values[k] <= NumericTraits[k].high)
  }

  /** The drawn values, aligned with `AllNames`. */
  function CreationValues(d: CreationDraws): (values: seq<TraitValue>)
    requires ValidCreationDraws(d)
    ensures |values| == |AllNames|
  {
    seq(|CategoricalTraits|, k requires 0 <= k < |CategoricalTraits| =>
      Cat(CategoricalTraits[k].options[d.picks[k]])) +
    seq(|NumericTraits|, k requires 0 <= k < |NumericTraits| => Num(d.values[k]))
  }

  /** The trait dictionary the constructor builds when no traits are given: every
      categorical trait takes a drawn option and every numeric trait a drawn value. */
  function RandomTraits(d: CreationDraws): (t: Traits)
    requires ValidCreationDraws(d)
    ensures t.Keys == SchemaKeys
    ensures Conforms(t)
  {
    var values := CreationValues(d);
    var t := AssignFrom(AllNames, values, 0);
    NamesDistinct();
    AssignFromKeys(AllNames, values, 0);
    assert forall k :: 0 <= k < |CategoricalTraits| ==> CategoricalOk(t, CategoricalTraits[k]) by {
      forall k | 0 <= k < |CategoricalTraits| ensures CategoricalOk(t, CategoricalTraits[k]) {
        AssignFromAt(AllNames, values, 0, k);
        assert AllNames[k] == CategoricalTraits[k].name;
      }
    }
    assert forall k :: 0 <= k < |NumericTraits| ==> NumericOk(t, NumericTraits[k]) by {
      forall k | 0 <= k < |NumericTraits| ensures NumericOk(t, NumericTraits[k]) {
        var j := |CategoricalTraits| + k;
        AssignFromAt(AllNames, values, 0, j);
        assert AllNames[j] == NumericTraits[k].name;
      }
    }
    t
  }

  // ---------------------------------------------------------------------------
  // Mutation

  /** The draws of one `mutate` call, aligned with the two tables: per categorical
      trait a coin and an option index, per numeric trait a coin and a delta. */
  datatype MutationDraws = MutationDraws(
    catCoins: seq<real>, catPicks: seq<nat>, numCoins: seq<real>, numDeltas: seq<real>)

  predicate PicksFit(cats: seq<CategoricalTrait>, coins: seq<real>, picks: seq<nat>)
  {
    |coins| == |cats| && |picks| == |cats| &&
    forall k :: 0 <= k < |cats| ==> picks[k] < |cats[k].options|
  }

  /** The draws fit the tables: one coin and one valid option index per categorical
      trait, one coin and one delta per numeric trait. */
  predicate ValidMutationDraws(d: MutationDraws)
  {
    PicksFit(CategoricalTraits, d.catCoins, d.catPicks) &&
    |d.numCoins| == |NumericTraits| && |d.numDeltas| == |NumericTraits|
  }

  /** The ranges `random` draws from: coins in `[0, 1)`, deltas in
      `[-strength, strength]`. Only the properties that depend on them require them. */
  predicate DrawsInRange(d: MutationDraws)
    requires ValidMutationDraws(d)
  {
    (forall k :: 0 <= k < |CategoricalTraits| ==> 0.0 <= d.catCoins[k] < 1.0) &&
    (forall k :: 0 <= k < |NumericTraits| ==>
      0.0 <= d.numCoins[k] < 1.0 &&
      -NumericTraits[k].strength <= d.numDeltas[k] <= NumericTraits[k].strength)
  }

  /** The first `k` steps of the loop over categorical traits: a trait whose coin falls
      below the rate is overwritten with the option its index picks. */
  function CategoricalPass(t: Traits, rate: real, cats: seq<CategoricalTrait>,
                           coins: seq<real>, picks: seq<nat>, k: nat): (r: Traits)
    requires PicksFit(cats, coins, picks) && k <= |cats|
    decreases k
  {
    if k == 0 then t
    else
      var prev := CategoricalPass(t, rate, cats, coins, picks, k - 1);
      if coins[k - 1] < rate then prev[cats[k - 1].name := Cat(cats[k - 1].options[picks[k - 1]])]
      else prev
  }

  /** The first `k` steps of the loop over numeric traits: a trait whose coin falls
      below the rate becomes `clamp(old + delta, low, high)`. */
  function NumericPass(t: Traits, rate: real, nums: seq<NumericTrait>,
                       coins: seq<real>, deltas: seq<real>, k: nat): (r: Traits)
    requires |coins| == |nums| && |deltas| == |nums| && k <= |nums| && NumericPresentIn(t, nums)
    ensures NumericPresentIn(r, nums)
    decreases k
  {
    if k == 0 then t
    else
      var prev := NumericPass(t, rate, nums, coins, deltas, k - 1);
      var n := nums[k - 1];
      if coins[k - 1] < rate then prev[n.name := Num(Clamp(prev[n.name].value + deltas[k - 1], n.low, n.high))]
      else prev
  }

  /** The trait dictionary of an offspring of `mutate(rate)`. */
  function MutatedTraits(t: Traits, rate: real, d: MutationDraws): Traits
    requires ValidMutationDraws(d) && NumericPresent(t)
  {
    var c := CategoricalPass(t, rate, CategoricalTraits, d.catCoins, d.catPicks, |CategoricalTraits|);
    CategoricalPassKeepsNumeric(t, rate, d);
    NumericPass(c, rate, NumericTraits, d.numCoins, d.numDeltas, |NumericTraits|)
  }

  /** The categorical loop leaves every numeric trait in place. */
  lemma CategoricalPassKeepsNumeric(t: Traits, rate: real, d: MutationDraws)
    requires ValidMutationDraws(d) && NumericPresent(t)
    ensures NumericPresentIn(CategoricalPass(t, rate, CategoricalTraits, d.catCoins, d.catPicks,
                                             |CategoricalTraits|), NumericTraits)
  {
    var c := CategoricalPass(t, rate, CategoricalTraits, d.catCoins, d.catPicks, |CategoricalTraits|);
    forall k | 0 <= k < |NumericTraits| ensures NumericTraits[k].name in c && c[NumericTraits[k].name].Num? {
      NamesDistinct();
      assert NumericTraits[k].name in NumNames(NumericTraits);
      CategoricalPassOther(t, rate, CategoricalTraits, d.catCoins, d.catPicks,
                           |CategoricalTraits|, NumericTraits[k].name);
    }
  }

  // ---------------------------------------------------------------------------
  // What mutation does, key by key

  lemma {:induction false} CategoricalPassAt(t: Traits, rate: real, cats: seq<CategoricalTrait>,
                                             coins: seq<real>, picks: seq<nat>, k: nat, j: nat)
    requires PicksFit(cats, coins, picks) && k <= |cats| && j < |cats| && DistinctNames(CatNames(cats))
    ensures var r, name := CategoricalPass(t, rate, cats, coins, picks, k), cats[j].name;
      if j < k && coins[j] < rate then name in r && r[name] == Cat(cats[j].options[picks[j]])
      else (name in r <==> name in t) && (name in t ==> r[name] == t[name])
    decreases k
  {
    if k > 0 {
      CategoricalPassAt(t, rate, cats, coins, picks, k - 1, j);
      if j != k - 1 {
        assert CatNames(cats)[j] != CatNames(cats)[k - 1];
      }
    }
  }

  lemma {:induction false} CategoricalPassOther(t: Traits, rate: real, cats: seq<CategoricalTrait>,
                                                coins: seq<real>, picks: seq<nat>, k: nat, key: string)
    requires PicksFit(cats, coins, picks) && k <= |cats| && key !in CatNames(cats)
    ensures var r := CategoricalPass(t, rate, cats, coins, picks, k);
      (key in r <==> key in t) && (key in t ==> r[key] == t[key])
    decreases k
  {
    if k > 0 {
      CategoricalPassOther(t, rate, cats, coins, picks, k - 1, key);
      assert CatNames(cats)[k - 1] == cats[k - 1].name;
    }
  }

  lemma {:induction false} NumericPassOther(t: Traits, rate: real, nums: seq<NumericTrait>,
                                            coins: seq<real>, deltas: seq<real>, k: nat, key: string)
    requires |coins| == |nums| && |deltas| == |nums| && k <= |nums| && NumericPresentIn(t, nums)
    requires key !in NumNames(nums)
    ensures var r := NumericPass(t, rate, nums, coins, deltas, k);
      (key in r <==> key in t) && (key in t ==> r[key] == t[key])
    decreases k
  {
    if k > 0 {
      NumericPassOther(t, rate, nums, coins, deltas, k - 1, key);
      assert NumNames(nums)[k - 1] == nums[k - 1].name;
    }
  }

  lemma {:induction false} NumericPassAt(t: Traits, rate: real, nums: seq<NumericTrait>,
                                         coins: seq<real>, deltas: seq<real>, k: nat, j: nat)
    requires |coins| == |nums| && |deltas| == |nums| && k <= |nums| && NumericPresentIn(t, nums)
    requires j < |nums| && DistinctNames(NumNames(nums))
    ensures var r, n := NumericPass(t, rate, nums, coins, deltas, k), nums[j];
      n.name in r && r[n.name] ==
        if j < k && coins[j] < rate then Num(Clamp(t[n.name].value + deltas[j], n.low, n.high))
        else t[n.name]
    decreases k
  {
    if k > 0 {
      var prev := NumericPass(t, rate, nums, coins, deltas, k - 1);
      NumericPassAt(t, rate, nums, coins, deltas, k - 1, j);
      if j != k - 1 {
        assert NumNames(nums)[j] != NumNames(nums)[k - 1];
        assert nums[j].name != nums[k - 1].name;
      }
    }
  }

  /** A categorical trait is resampled from its option list when its coin falls below
      the rate, and is copied unchanged otherwise. */
  lemma MutatedCategorical(t: Traits, rate: real, d: MutationDraws, j: nat)
    requires ValidMutationDraws(d) && NumericPresent(t) && j < |CategoricalTraits|
    ensures var r, c := MutatedTraits(t, rate, d), CategoricalTraits[j];
      if d.catCoins[j] < rate then
        c.name in r && r[c.name] == Cat(c.options[d.catPicks[j]]) && r[c.name].text in c.options
      else (c.name in r <==> c.name in t) && (c.name in t ==> r[c.name] == t[c.name])
  {
    NamesDistinct();
    var c := CategoricalPass(t, rate, CategoricalTraits, d.catCoins, d.catPicks, |CategoricalTraits|);
    CategoricalPassKeepsNumeric(t, rate, d);
    CategoricalPassAt(t, rate, CategoricalTraits, d.catCoins, d.catPicks, |CategoricalTraits|, j);
    assert CategoricalTraits[j].name in CatNames(CategoricalTraits);
    NumericPassOther(c, rate, NumericTraits, d.numCoins, d.numDeltas, |NumericTraits|, CategoricalTraits[j].name);
  }

  /** A numeric trait whose coin is not below the rate is unchanged; otherwise it
      becomes `clamp(old + delta, low, high)`, which lies in `[low, high]` and, when the
      old value was in range, within `strength` of it. */
  lemma MutatedNumeric(t: Traits, rate: real, d: MutationDraws, j: nat)
    requires ValidMutationDraws(d) && NumericPresent(t) && j < |NumericTraits|
    ensures var r, n := MutatedTraits(t, rate, d), NumericTraits[j];
      n.name in r && r[n.name].Num? &&
      (d.numCoins[j] >= rate ==> r[n.name] == t[n.name]) &&
      (d.numCoins[j] < rate ==>
        r[n.name].value == Clamp(t[n.name].value + d.numDeltas[j], n.low, n.high) &&
        n.low <= r[n.name].value <= n.high &&
        (DrawsInRange(d) && n.low <= t[n.name].value <= n.high ==>
          t[n.name].value - n.strength <= r[n.name].value <= t[n.name].value + n.strength))
  {
    NamesDistinct();
    var c := CategoricalPass(t, rate, CategoricalTraits, d.catCoins, d.catPicks, |CategoricalTraits|);
    CategoricalPassKeepsNumeric(t, rate, d);
    assert NumericTraits[j].name in NumNames(NumericTraits);
    CategoricalPassOther(t, rate, CategoricalTraits, d.catCoins, d.catPicks, |CategoricalTraits|, NumericTraits[j].name);
    NumericPassAt(c, rate, NumericTraits, d.numCoins, d.numDeltas, |NumericTraits|, j);
  }

  /** Keys outside the schema are carried over unchanged. */
  lemma MutatedOther(t: Traits, rate: real, d: MutationDraws, key: string)
    requires ValidMutationDraws(d) && NumericPresent(t) && key !in SchemaKeys
    ensures var r := MutatedTraits(t, rate, d);
      (key in r <==> key in t) && (key in t ==> r[key] == t[key])
  {
    SchemaKeyCases(key);
    var c := CategoricalPass(t, rate, CategoricalTraits, d.catCoins, d.catPicks, |CategoricalTraits|);
    CategoricalPassKeepsNumeric(t, rate, d);
    assert key !in CatNames(CategoricalTraits) && key !in NumNames(NumericTraits);
    CategoricalPassOther(t, rate, CategoricalTraits, d.catCoins, d.catPicks, |CategoricalTraits|, key);
    NumericPassOther(c, rate, NumericTraits, d.numCoins, d.numDeltas, |NumericTraits|, key);
  }

  /** Which schema list a key belongs to, if any. */
  lemma SchemaKeyCases(key: string)
    ensures key in SchemaKeys <==> key in CatNames(CategoricalTraits) || key in NumNames(NumericTraits)
    ensures key in CatNames(CategoricalTraits) ==>
      exists j :: 0 <= j < |CategoricalTraits| && CategoricalTraits[j].name == key
    ensures key in NumNames(NumericTraits) ==>
      exists j :: 0 <= j < |NumericTraits| && NumericTraits[j].name == key
  {
    var c, n := CatNames(CategoricalTraits), NumNames(NumericTraits);
    if key in SchemaKeys {
      var j :| 0 <= j < |AllNames| && AllNames[j] == key;
      if j < |c| { assert c[j] == key; } else { assert n[j - |c|] == key; }
    }
    if key in c {
      var j :| 0 <= j < |c| && c[j] == key;
      assert AllNames[j] == key;
    }
    if key in n {
      var j :| 0 <= j < |n| && n[j] == key;
      assert AllNames[|c| + j] == key;
    }
  }

  /** A key is in the offspring exactly when it is in the parent or it is a
      categorical key whose coin fell below the rate. */
  lemma MutatedHasKey(t: Traits, rate: real, d: MutationDraws, key: string)
    requires ValidMutationDraws(d) && NumericPresent(t)
    ensures key in MutatedTraits(t, rate, d) <==>
      key in t || exists j :: 0 <= j < |CategoricalTraits| && d.catCoins[j] < rate && CategoricalTraits[j].name == key
  {
    SchemaKeyCases(key);
    NamesDistinct();
    if key in CatNames(CategoricalTraits) {
      var j :| 0 <= j < |CategoricalTraits| && CategoricalTraits[j].name == key;
      MutatedCategorical(t, rate, d, j);
      forall j' | 0 <= j' < |CategoricalTraits| && CategoricalTraits[j'].name == key ensures j' == j {
        assert CatNames(CategoricalTraits)[j] == CatNames(CategoricalTraits)[j'];
      }
    } else if key in NumNames(NumericTraits) {
      var j :| 0 <= j < |NumericTraits| && NumericTraits[j].name == key;
      MutatedNumeric(t, rate, d, j);
    } else {
      MutatedOther(t, rate, d, key);
    }
  }

  /** Mutation never drops a key. */
  lemma MutatedKeepsKey(t: Traits, rate: real, d: MutationDraws, key: string)
    requires ValidMutationDraws(d) && NumericPresent(t) && key in t
    ensures key in MutatedTraits(t, rate, d)
  {
    MutatedHasKey(t, rate, d, key);
  }

  /** The offspring has the parent's keys, plus any categorical key the parent lacked
      and that was resampled; a parent with every categorical key keeps its key set. */
  lemma MutatedKeys(t: Traits, rate: real, d: MutationDraws)
    requires ValidMutationDraws(d) && NumericPresent(t)
    ensures MutatedTraits(t, rate, d).Keys ==
      t.Keys + set j | 0 <= j < |CategoricalTraits| && d.catCoins[j] < rate :: CategoricalTraits[j].name
    ensures (forall j :: 0 <= j < |CategoricalTraits| ==> CategoricalTraits[j].name in t) ==>
      MutatedTraits(t, rate, d).Keys == t.Keys
  {
    forall key ensures key in MutatedTraits(t, rate, d) <==>
      key in t || exists j :: 0 <= j < |CategoricalTraits| && d.catCoins[j] < rate && CategoricalTraits[j].name == key
    {
      MutatedHasKey(t, rate, d, key);
    }
  }

  /** Mutation keeps a creature inside the schema: every categorical value stays in
      its option list and every numeric value stays in its range. */
  lemma MutatedConforms(t: Traits, rate: real, d: MutationDraws)
    requires ValidMutationDraws(d) && Conforms(t)
    ensures NumericPresent(t)
    ensures Conforms(MutatedTraits(t, rate, d))
  {
    ConformsNumericPresent(t);
    var r := MutatedTraits(t, rate, d);
    forall k | 0 <= k < |CategoricalTraits| ensures CategoricalOk(r, CategoricalTraits[k]) {
      MutatedCategorical(t, rate, d, k);
      assert CategoricalOk(t, CategoricalTraits[k]);
    }
    forall k | 0 <= k < |NumericTraits| ensures NumericOk(r, NumericTraits[k]) {
      MutatedNumeric(t, rate, d, k);
      assert NumericOk(t, NumericTraits[k]);
    }
  }

  /** With every coin at or above the rate (in particular `mutate(0.0)`, since coins
      are never negative) the offspring's traits equal the parent's. */
  lemma MutateNoCoinFires(t: Traits, rate: real, d: MutationDraws)
    requires ValidMutationDraws(d) && NumericPresent(t)
    requires forall k :: 0 <= k < |CategoricalTraits| ==> d.catCoins[k] >= rate
    requires forall k :: 0 <= k < |NumericTraits| ==> d.numCoins[k] >= rate
    ensures MutatedTraits(t, rate, d) == t
  {
    var r := MutatedTraits(t, rate, d);
    MutatedKeys(t, rate, d);
    forall key | key in t ensures r[key] == t[key] {
      SchemaKeyCases(key);
      if key in CatNames(CategoricalTraits) {
        var j :| 0 <= j < |CategoricalTraits| && CategoricalTraits[j].name == key;
        MutatedCategorical(t, rate, d, j);
      } else if key in NumNames(NumericTraits) {
        var j :| 0 <= j < |NumericTraits| && NumericTraits[j].name == key;
        MutatedNumeric(t, rate, d, j);
      } else {
        MutatedOther(t, rate, d, key);
      }
    }
  }

  lemma MutateZeroRate(t: Traits, d: MutationDraws)
    requires ValidMutationDraws(d) && DrawsInRange(d) && NumericPresent(t)
    ensures MutatedTraits(t, 0.0, d) == t
  {
    MutateNoCoinFires(t, 0.0, d);
  }
}
