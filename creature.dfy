/** A creature (creature.py): its species name, its compatibility with an ocean
    layer, and the object that holds its traits, depth and bookkeeping. */
module Creatures {
  import opened Dicts
  import opened Traits
  import opened Environment

  /** A depth band `[low, high)` of a name table. */
  datatype Band = Band(low: real, high: real, tag: string)

  /** The first band of `bands` that contains `depth`, or `fallback` when none does:
      the `for ... break` search that naming and pressure scoring share. */
  function BandLookup(bands: seq<Band>, depth: real, fallback: string): string
    decreases |bands|
  {
    if |bands| == 0 then fallback
    else if bands[0].low <= depth < bands[0].high then bands[0].tag
    else BandLookup(bands[1..], depth, fallback)
  }

  /** The lookup yields the tag of the first band containing the depth, and the
      fallback exactly when no band contains it. */
  lemma {:induction false} BandLookupSpec(bands: seq<Band>, depth: real, fallback: string)
    ensures var r := BandLookup(bands, depth, fallback);
      (exists j :: 0 <= j < |bands| && bands[j].low <= depth < bands[j].high) ==>
      exists j :: 0 <= j < |bands| && bands[j].low <= depth < bands[j].high && r == bands[j].tag &&
        forall i :: 0 <= i < j ==> !(bands[i].low <= depth < bands[i].high)
    ensures (forall j :: 0 <= j < |bands| ==> !(bands[j].low <= depth < bands[j].high)) ==>
      BandLookup(bands, depth, fallback) == fallback
    decreases |bands|
  {
    if |bands| > 0 && !(bands[0].low <= depth < bands[0].high) {
      BandLookupSpec(bands[1..], depth, fallback);
      assert forall j :: 1 <= j < |bands| ==> bands[j] == bands[1..][j - 1];
      if exists j :: 0 <= j < |bands| && bands[j].low <= depth < bands[j].high {
        var j :| 0 <= j < |bands| && bands[j].low <= depth < bands[j].high;
        assert bands[1..][j - 1].low <= depth < bands[1..][j - 1].high;
        var k :| 0 <= k < |bands| - 1 && bands[1..][k].low <= depth < bands[1..][k].high &&
          BandLookup(bands[1..], depth, fallback) == bands[1..][k].tag &&
          forall i :: 0 <= i < k ==> !(bands[1..][i].low <= depth < bands[1..][i].high);
        assert forall i :: 0 <= i < k + 1 ==> !(bands[i].low <= depth < bands[i].high) by {
          forall i | 0 <= i < k + 1
            ensures !(bands[i].low <= depth < bands[i].high)
          {
            if i > 0 {
              assert bands[i] == bands[1..][i - 1];
            }
          }
        }
      }
    }
  }

  // ---------------------------------------------------------------------------
  // Species naming

  const DepthPrefixes: seq<Band> := [
    Band(0.0, 200.0, "Superficie"),
    Band(200.0, 1000.0, "Meso"),
    Band(1000.0, 4000.0, "Bathy"),
    Band(4000.0, 6000.0, "Abysso")
  ]

  const VisionSuffixes: Dict<string, string> := [
    ("eyes", "opticus"),
    ("no_eyes", "caecus"),
    ("bioluminescence", "lucidus"),
    ("echolocation", "sonarus"),
    ("lateral_line", "lateralis"),
    ("compound_eyes", "multiopus")
  ]

  function NamePrefix(depth: real): string
  {
    BandLookup(DepthPrefixes, depth, "Abysso")
  }

  /** `vision_suffix_map.get(vision, "mysticus")`: a number never matches a key. */
  function NameSuffix(vision: TraitValue): string
  {
    if vision.Cat? then GetOr(VisionSuffixes, vision.text, "mysticus") else "mysticus"
  }

  /** `generate_species_name`: a pure function of the depth and the vision trait. */
  function SpeciesName(depth: real, vision: TraitValue): string
  {
    NamePrefix(depth) + " " + NameSuffix(vision)
  }

  /** The prefix is chosen by depth band, with "Abysso" for every depth outside
      `[0, 6000)`, negative ones included. */
  lemma NamePrefixByDepth(depth: real)
    ensures 0.0 <= depth < 200.0 ==> NamePrefix(depth) == "Superficie"
    ensures 200.0 <= depth < 1000.0 ==> NamePrefix(depth) == "Meso"
    ensures 1000.0 <= depth < 4000.0 ==> NamePrefix(depth) == "Bathy"
    ensures !(0.0 <= depth < 1000.0 || 1000.0 <= depth < 4000.0) ==> NamePrefix(depth) == "Abysso"
  {
    BandLookupSpec(DepthPrefixes, depth, "Abysso");
    if exists j :: 0 <= j < |DepthPrefixes| && DepthPrefixes[j].low <= depth < DepthPrefixes[j].high {
      var j :| 0 <= j < |DepthPrefixes| && DepthPrefixes[j].low <= depth < DepthPrefixes[j].high &&
        NamePrefix(depth) == DepthPrefixes[j].tag;
    }
  }

  /** Each of the six known visions has its own suffix; anything else is "mysticus". */
  lemma NameSuffixByVision(vision: TraitValue)
    ensures vision == Cat("eyes") ==> NameSuffix(vision) == "opticus"
    ensures vision == Cat("no_eyes") ==> NameSuffix(vision) == "caecus"
    ensures vision == Cat("bioluminescence") ==> NameSuffix(vision) == "lucidus"
    ensures vision == Cat("echolocation") ==> NameSuffix(vision) == "sonarus"
    ensures vision == Cat("lateral_line") ==> NameSuffix(vision) == "lateralis"
    ensures vision == Cat("compound_eyes") ==> NameSuffix(vision) == "multiopus"
    ensures !(vision.Cat? && vision.text in PossibleVision) ==> NameSuffix(vision) == "mysticus"
  {
    assert KeySet(VisionSuffixes) == set v | v in PossibleVision by {
      assert forall i :: 0 <= i < |VisionSuffixes| ==> VisionSuffixes[i].0 == PossibleVision[i];
    }
  }

  /** Two depths on either side of the 200 m boundary give different prefixes. */
  lemma SpeciesNameBoundaryExample()
    ensures SpeciesName(150.0, Cat("eyes")) == "Superficie opticus"
    ensures SpeciesName(250.0, Cat("eyes")) == "Meso opticus"
  {
    NamePrefixByDepth(150.0);
    NamePrefixByDepth(250.0);
    NameSuffixByVision(Cat("eyes"));
  }

  // ---------------------------------------------------------------------------
  // Compatibility with a layer (calculate_compatibility)

  const EuphoticVisionScores: Dict<string, real> := [
    ("eyes", 2.0), ("compound_eyes", 1.8), ("lateral_line", 0.5),
    ("bioluminescence", -0.8), ("echolocation", 0.2), ("no_eyes", -1.0)
  ]

  const DysphoticVisionScores: Dict<string, real> := [
    ("bioluminescence", 1.5), ("echolocation", 1.2), ("lateral_line", 1.0),
    ("eyes", 1.2), ("compound_eyes", 0.8), ("no_eyes", 0.5)
  ]

  const AphoticVisionScores: Dict<string, real> := [
    ("bioluminescence", 2.2), ("echolocation", 2.0), ("lateral_line", 1.8),
    ("no_eyes", 1.5), ("eyes", -1.5), ("compound_eyes", -1.2)
  ]

  /** The vision table of the light zone: euphotic below 200 m, dysphotic below
      1000 m, aphotic from there on. */
  function VisionScores(depth: real): (table: Dict<string, real>)
    ensures forall i :: 0 <= i < |table| ==> table[i].0 in PossibleVision && -1.5 <= table[i].1 <= 2.2
  {
    if depth < 200.0 then EuphoticVisionScores
    else if depth < 1000.0 then DysphoticVisionScores
    else AphoticVisionScores
  }

  /** The vision term: a value of the zone's table, 0 for an unknown vision. */
  function VisionScore(depth: real, vision: TraitValue): (score: real)
    ensures -1.5 <= score <= 2.2
    ensures !(vision.Cat? && vision.text in PossibleVision) ==> score == 0.0
  {
    if vision.Cat? then GetOr(VisionScores(depth), vision.text, 0.0) else 0.0
  }

  const PressureBands: seq<Band> := [
    Band(0.0, 200.0, "low"),
    Band(200.0, 1000.0, "medium"),
    Band(1000.0, 4000.0, "high"),
    Band(4000.0, 6000.0, "extreme")
  ]

  /** `list(pressure_map.values())`: the tiers in increasing order of pressure. */
  const PressureTiers: seq<string> := ["low", "medium", "high", "extreme"]

  /** The tier a depth calls for; "extreme" outside `[0, 6000)`. */
  function RequiredPressure(depth: real): (tier: string)
    ensures tier in PressureTiers
  {
    BandLookupSpec(PressureBands, depth, "extreme");
    BandLookup(PressureBands, depth, "extreme")
  }

  /** `PressureTiers.index(tier)` */
  function TierIndex(tier: string): (i: nat)
    requires tier in PressureTiers
    ensures i < |PressureTiers| && PressureTiers[i] == tier
  {
    if tier == "low" then 0 else if tier == "medium" then 1 else if tier == "high" then 2 else 3
  }

  /** The pressure term: 1.5 on the required tier, 0.5 one tier away, -1.0 further. */
  function PressureScore(depth: real, tier: string): (score: real)
    requires tier in PressureTiers
    ensures score == 1.5 <==> tier == RequiredPressure(depth)
    ensures score == 0.5 <==>
      tier != RequiredPressure(depth) &&
      (TierIndex(tier) == TierIndex(RequiredPressure(depth)) + 1 ||
       TierIndex(tier) + 1 == TierIndex(RequiredPressure(depth)))
    ensures score == 1.5 || score == 0.5 || score == -1.0
  {
    var required := RequiredPressure(depth);
    if tier == required then 1.5
    else
      var diff := TierIndex(required) - TierIndex(tier);
      if diff == 1 || diff == -1 then 0.5 else -1.0
  }

  /** The food term: what the layer's food type rewards. */
  function FoodScore(foodType: string, strategy: TraitValue): (score: real)
    ensures score in {0.0, 1.0, 1.5, 1.8, 2.0}
    ensures score != 0.0 ==> strategy.Cat?
  {
    var s := if strategy.Cat? then strategy.text else "";
    if foodType == "photosynthesis" && strategy.Cat? && s in ["photosynthesis", "herbivore"] then 2.0
    else if foodType == "chemosynthesis" && strategy.Cat? && s in ["chemosynthesis", "detritivore", "scavenger"] then 1.8
    else if foodType == "marine snow" && strategy.Cat? && s in ["filter", "detritivore", "scavenger"] then 1.5
    else if foodType == "organics" && strategy.Cat? && s in ["filter", "predator", "carnivore"] then 1.0
    else 0.0
  }

  const SynergyMap: Dict<string, seq<string>> := [
    ("swimming", ["streamlined", "elongated"]),
    ("floating", ["gelatinous", "spherical"]),
    ("crawling", ["flat", "armored"]),
    ("jet_propulsion", ["spherical", "streamlined"])
  ]

  /** The synergy term: 0.5 when the body type is efficient for the locomotion. */
  function SynergyScore(body: TraitValue, locomotion: TraitValue): (score: real)
    ensures score == 0.0 || score == 0.5
    ensures score == 0.5 <==>
      body.Cat? && locomotion.Cat? &&
      exists i :: 0 <= i < |SynergyMap| && SynergyMap[i].0 == locomotion.text && body.text in SynergyMap[i].1
  {
    var efficient := if locomotion.Cat? then GetOr(SynergyMap, locomotion.text, []) else [];
    assert efficient != [] ==> locomotion.Cat? && locomotion.text in KeySet(SynergyMap);
    assert forall i :: 0 <= i < |SynergyMap| ==>
      SynergyMap[i].0 in ["swimming", "floating", "crawling", "jet_propulsion"];
    if body.Cat? && body.text in efficient then 0.5 else 0.0
  }

  /** The keys `calculate_compatibility` reads, and a pressure tier `.index` can find. */
  predicate CompatibilityDefined(t: Traits)
  {
    "vision" in t && "food_strategy" in t && "body_type" in t && "locomotion" in t &&
    "pressure_adaptation" in t && t["pressure_adaptation"].Cat? &&
    t["pressure_adaptation"].text in PressureTiers
  }

  /** `calculate_compatibility`: the sum of the vision, pressure, food and synergy terms. */
  function Compatibility(t: Traits, depth: real, layer: OceanLayer): (score: real)
    requires CompatibilityDefined(t)
    ensures -2.5 <= score <= 6.2
  {
    VisionScore(depth, t["vision"]) +
    PressureScore(depth, t["pressure_adaptation"].text) +
    FoodScore(layer.foodType, t["food_strategy"]) +
    SynergyScore(t["body_type"], t["locomotion"])
  }

  /** Every schema-conforming creature can be scored. */
  lemma ConformsCompatibilityDefined(t: Traits)
    requires Conforms(t)
    ensures CompatibilityDefined(t)
  {
    assert CategoricalOk(t, CategoricalTraits[0]);
    assert CategoricalOk(t, CategoricalTraits[1]);
    assert CategoricalOk(t, CategoricalTraits[2]);
    assert CategoricalOk(t, CategoricalTraits[3]);
    assert CategoricalOk(t, CategoricalTraits[5]);
  }

  // ---------------------------------------------------------------------------
  // The creature object

  /** A creature's state as a value, for specifications. */
  datatype View = View(
    traits: Traits, depth: real, alive: bool, fitness: real, age: int, energy: real,
    speciesName: string)

  class Creature {
    var traits: Traits
    var depth: real
    var alive: bool
    var fitness: real
    var age: int
    var energy: real
    var speciesName: string

    /** `Creature(depth, traits)`: an empty `given` stands for both `None` and `{}`,
        which the source treats alike; then every trait is drawn. */
    constructor (depth: real, given: Traits, draws: CreationDraws)
      requires |given| > 0 ==> "vision" in given
      requires |given| == 0 ==> ValidCreationDraws(draws)
      ensures traits == if |given| > 0 then given else RandomTraits(draws)
      ensures this.depth == depth && alive && fitness == 0.1 && age == 0 && energy == 100.0
      ensures "vision" in traits && speciesName == SpeciesName(depth, traits["vision"])
    {
      var t := if |given| > 0 then given else RandomTraits(draws);
      assert "vision" in t by {
        if |given| == 0 {
          NamesDistinct();
          assert AllNames[0] == "vision";
        }
      }
      traits := t;
      this.depth := depth;
      alive := true;
      fitness := 0.1;
      age := 0;
      energy := 100.0;
      speciesName := SpeciesName(depth, t["vision"]);
    }

    /** `mutate(rate)`: copy the traits, resample or perturb each one whose coin falls
        below the rate, and build a new creature at the same depth. */
    method Mutate(rate: real, d: MutationDraws) returns (offspring: Creature)
      requires ValidMutationDraws(d) && NumericPresent(traits) && "vision" in traits
      ensures fresh(offspring)
      ensures offspring.traits == MutatedTraits(traits, rate, d)
      ensures offspring.depth == depth && offspring.alive && offspring.fitness == 0.1
      ensures offspring.age == 0 && offspring.energy == 100.0
      ensures "vision" in offspring.traits
      ensures offspring.speciesName == SpeciesName(depth, offspring.traits["vision"])
    {
      var newTraits := ResampleCategorical(traits, rate, CategoricalTraits, d.catCoins, d.catPicks);
      CategoricalPassKeepsNumeric(traits, rate, d);
      newTraits := PerturbNumeric(newTraits, rate, NumericTraits, d.numCoins, d.numDeltas);
      MutatedHasKey(traits, rate, d, "vision");
      offspring := new Creature(depth, newTraits, CreationDraws([], []));
      offspring.speciesName := SpeciesName(offspring.depth, offspring.traits["vision"]);
    }
  }

  /** The loop of `mutate` over the categorical traits. */
  method ResampleCategorical(t: Traits, rate: real, cats: seq<CategoricalTrait>,
                             coins: seq<real>, picks: seq<nat>) returns (r: Traits)
    requires PicksFit(cats, coins, picks)
    ensures r == CategoricalPass(t, rate, cats, coins, picks, |cats|)
  {
    r := t;
    var k := 0;
    while k < |cats|
      invariant 0 <= k <= |cats|
      invariant r == CategoricalPass(t, rate, cats, coins, picks, k)
    {
      if coins[k] < rate {
        r := r[cats[k].name := Cat(cats[k].options[picks[k]])];
      }
      k := k + 1;
    }
  }

  /** The loop of `mutate` over the numeric traits. */
  method PerturbNumeric(t: Traits, rate: real, nums: seq<NumericTrait>,
                        coins: seq<real>, deltas: seq<real>) returns (r: Traits)
    requires |coins| == |nums| && |deltas| == |nums| && NumericPresentIn(t, nums)
    ensures r == NumericPass(t, rate, nums, coins, deltas, |nums|)
  {
    r := t;
    var j := 0;
    while j < |nums|
      invariant 0 <= j <= |nums|
      invariant r == NumericPass(t, rate, nums, coins, deltas, j)
    {
      if coins[j] < rate {
        var n := nums[j];
        r := r[n.name := Num(Clamp(r[n.name].value + deltas[j], n.low, n.high))];
      }
      j := j + 1;
    }
  }

  function ViewOf(c: Creature): View
    reads c
  {
    View(c.traits, c.depth, c.alive, c.fitness, c.age, c.energy, c.speciesName)
  }

  function Views(cs: seq<Creature>): (vs: seq<View>)
    reads cs
    ensures |vs| == |cs| && forall i :: 0 <= i < |cs| ==> vs[i] == ViewOf(cs[i])
  {
    seq(|cs|, i reads cs requires 0 <= i < |cs| => ViewOf(cs[i]))
  }
}
