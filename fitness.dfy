/** Fitness of one creature in its layer (simulation.py, `evaluate_fitness` and the
    `_evaluate_*_fitness` helpers). The helpers receive the running score by value,
    so nothing they add reaches the caller: the fitness that takes effect is the
    compatibility plus the food bonus, floored at 0. */
module Fitness {
  import opened Dicts
  import opened Traits
  import opened Environment
  import opened Creatures

  /** The food bonus table, keyed by (layer food type, food strategy). */
  const FoodBonuses: Dict<(string, string), real> := [
    (("photosynthesis", "photosynthesis"), 2.5),
    (("photosynthesis", "herbivore"), 2.0),
    (("chemosynthesis", "chemosynthesis"), 2.2),
    (("chemosynthesis", "scavenger"), 1.8),
    (("chemosynthesis", "detritivore"), 1.6),
    (("marine snow", "filter"), 1.8),
    (("marine snow", "detritivore"), 1.6),
    (("marine snow", "scavenger"), 1.4),
    (("organics", "filter"), 1.5),
    (("organics", "predator"), 1.3),
    (("organics", "carnivore"), 1.4),
    (("organics", "omnivore"), 1.2)
  ]

  /** `food_bonuses[(food_type, strategy)]` when the pair is listed, else nothing. */
  function FoodBonus(foodType: string, strategy: TraitValue): (bonus: real)
    ensures 0.0 <= bonus <= 2.5
    ensures strategy.Num? ==> bonus == 0.0
    ensures bonus != 0.0 ==> exists i :: 0 <= i < |FoodBonuses| && FoodBonuses[i] == ((foodType, strategy.text), bonus)
    ensures strategy.Cat? ==> forall i :: 0 <= i < |FoodBonuses| && FoodBonuses[i].0 == (foodType, strategy.text) ==>
      bonus == FoodBonuses[i].1
  {
    assert forall i :: 0 <= i < |FoodBonuses| ==> 1.2 <= FoodBonuses[i].1 <= 2.5;
    if strategy.Cat? then GetOr(FoodBonuses, (foodType, strategy.text), 0.0) else 0.0
  }

  /** The fitness `evaluate_fitness` stores: `max(0, compatibility + food bonus)`. */
  function EffectiveFitness(t: Traits, depth: real): (fitness: real)
    requires CompatibilityDefined(t)
    ensures 0.0 <= fitness <= 8.7
  {
    var layer := GetLayer(depth);
    var fit := Compatibility(t, depth, layer) + FoodBonus(layer.foodType, t["food_strategy"]);
    if fit > 0.0 then fit else 0.0
  }

  /** A photosynthesising creature with eyes, low-pressure adaptation and a streamlined
      swimming body at 50 m scores the maximum of every term. */
  lemma EffectiveFitnessExample()
    ensures var t := map["vision" := Cat("eyes"), "food_strategy" := Cat("photosynthesis"),
                         "body_type" := Cat("streamlined"), "locomotion" := Cat("swimming"),
                         "pressure_adaptation" := Cat("low")];
      CompatibilityDefined(t) && EffectiveFitness(t, 50.0) == 8.5
  {
    var t := map["vision" := Cat("eyes"), "food_strategy" := Cat("photosynthesis"),
                 "body_type" := Cat("streamlined"), "locomotion" := Cat("swimming"),
                 "pressure_adaptation" := Cat("low")];
    assert CompatibilityDefined(t);
    FoodTypeByDepth(50.0);
    var food := GetLayer(50.0).foodType;
    assert VisionScore(50.0, t["vision"]) == 2.0 by {
      GetOrAt(EuphoticVisionScores, 0, 0.0);
    }
    assert PressureScore(50.0, t["pressure_adaptation"].text) == 1.5 by {
      assert RequiredPressure(50.0) == "low";
    }
    assert FoodScore(food, t["food_strategy"]) == 2.0;
    assert SynergyScore(t["body_type"], t["locomotion"]) == 0.5 by {
      GetOrAt(SynergyMap, 0, []);
    }
    assert FoodBonus(food, t["food_strategy"]) == 2.5 by {
      GetOrAt(FoodBonuses, 0, 0.0);
    }
  }

  // ---------------------------------------------------------------------------
  // The `_evaluate_*_fitness` helpers, as terms. `None` is the `KeyError` (or the
  // `TypeError` of comparing text with a number) the helper raises.

  /** `_evaluate_vision_fitness`: the same zone tables as the compatibility score. */
  function VisionTerm(t: Traits, depth: real): (r: Option<real>)
    ensures r.Some? <==> "vision" in t
    ensures r.Some? ==> r.value == VisionScore(depth, t["vision"])
  {
    if "vision" in t then Some(VisionScore(depth, t["vision"])) else None
  }

  /** `_evaluate_pressure_fitness`: an if/elif chain on depth and tier, with 2.0 for
      "extreme" at 4000 m or deeper. */
  function PressureTerm(t: Traits, depth: real): (r: Option<real>)
    ensures r.Some? <==> "pressure_adaptation" in t
    ensures r.Some? ==> r.value in {1.5, 2.0, -1.0}
    ensures r.Some? && r.value == 2.0 ==> depth >= 4000.0
  {
    if "pressure_adaptation" !in t then None
    else
      var p := t["pressure_adaptation"];
      if depth < 200.0 && p == Cat("low") then Some(1.5)
      else if depth < 1000.0 && p == Cat("medium") then Some(1.5)
      else if depth < 4000.0 && p == Cat("high") then Some(1.5)
      else if depth >= 4000.0 && p == Cat("extreme") then Some(2.0)
      else Some(-1.0)
  }

  const Synergies: Dict<(string, string), real> := [
    (("streamlined", "swimming"), 1.5),
    (("elongated", "undulating"), 1.3),
    (("gelatinous", "floating"), 1.2),
    (("spherical", "jet_propulsion"), 1.4),
    (("flat", "crawling"), 1.1),
    (("armored", "crawling"), 0.8)
  ]

  /** `_evaluate_locomotion_fitness`: the (body, locomotion) synergy plus a sessile
      bonus of 1.0 deeper than 2000 m and 0.5 otherwise. */
  function LocomotionTerm(t: Traits, depth: real): (r: Option<real>)
    ensures r.Some? <==> "body_type" in t && "locomotion" in t
    ensures r.Some? ==> 0.0 <= r.value <= 1.5
  {
    if "body_type" !in t || "locomotion" !in t then None
    else
      var body, loco := t["body_type"], t["locomotion"];
      assert forall i :: 0 <= i < |Synergies| ==> 0.8 <= Synergies[i].1 <= 1.5 && Synergies[i].0.1 != "sessile";
      var synergy := if body.Cat? && loco.Cat? then GetOr(Synergies, (body.text, loco.text), 0.0) else 0.0;
      var sessile := if loco == Cat("sessile") then (if depth > 2000.0 then 1.0 else 0.5) else 0.0;
      assert sessile != 0.0 ==> synergy == 0.0;
      Some(synergy + sessile)
  }

  const ShallowSizeBonuses: Dict<string, real> :=
    [("microscopic", 0.8), ("small", 1.0), ("medium", 1.2), ("large", 1.0), ("giant", 0.6)]
  const MidSizeBonuses: Dict<string, real> :=
    [("microscopic", 0.6), ("small", 1.2), ("medium", 1.5), ("large", 1.0), ("giant", 0.4)]
  const DeepSizeBonuses: Dict<string, real> :=
    [("microscopic", 1.0), ("small", 1.3), ("medium", 1.0), ("large", 0.7), ("giant", 0.3)]

  /** `_evaluate_size_fitness`: a size table per zone (below 200 m, below 1000 m, deeper). */
  function SizeTerm(t: Traits, depth: real): (r: Option<real>)
    ensures r.Some? <==> "size" in t
    ensures r.Some? ==> 0.0 <= r.value <= 1.5
  {
    if "size" !in t then None
    else
      var table := if depth < 200.0 then ShallowSizeBonuses
        else if depth < 1000.0 then MidSizeBonuses else DeepSizeBonuses;
      assert forall i :: 0 <= i < |table| ==> 0.3 <= table[i].1 <= 1.5;
      var size := t["size"];
      Some(if size.Cat? then GetOr(table, size.text, 0.0) else 0.0)
  }

  const ShallowDefenseValues: Dict<string, real> := [
    ("speed", 1.2), ("camouflage", 1.0), ("toxins", 1.1), ("spines", 0.8),
    ("armor", 0.6), ("mimicry", 1.0), ("none", -0.5)]
  const DeepDefenseValues: Dict<string, real> := [
    ("bioluminescence", 1.3), ("camouflage", 0.8), ("toxins", 1.0), ("armor", 1.0),
    ("spines", 0.7), ("speed", 0.6), ("none", 0.0)]

  /** `_evaluate_defense_fitness`: reads the key "defense_mechanism". */
  function DefenseTerm(t: Traits, depth: real): (r: Option<real>)
    ensures r.Some? <==> "defense_mechanism" in t
    ensures r.Some? ==> -0.5 <= r.value <= 1.3
  {
    if "defense_mechanism" !in t then None
    else
      var table := if depth < 1000.0 then ShallowDefenseValues else DeepDefenseValues;
      assert forall i :: 0 <= i < |table| ==> -0.5 <= table[i].1 <= 1.3;
      var defense := t["defense_mechanism"];
      Some(if defense.Cat? then GetOr(table, defense.text, 0.0) else 0.0)
  }

  const ShallowSocialBonuses: Dict<string, real> := [
    ("schooling", 1.0), ("small_groups", 0.8), ("colonial", 0.6), ("symbiotic", 0.7), ("solitary", 0.3)]
  const DeepSocialBonuses: Dict<string, real> := [
    ("solitary", 1.0), ("symbiotic", 1.2), ("small_groups", 0.4), ("schooling", 0.2), ("colonial", 0.8)]

  /** `_evaluate_social_fitness`: reads the key "social_behavior". */
  function SocialTerm(t: Traits, depth: real): (r: Option<real>)
    ensures r.Some? <==> "social_behavior" in t
    ensures r.Some? ==> 0.0 <= r.value <= 1.2
  {
    if "social_behavior" !in t then None
    else
      var table := if depth < 1000.0 then ShallowSocialBonuses else DeepSocialBonuses;
      assert forall i :: 0 <= i < |table| ==> 0.2 <= table[i].1 <= 1.2;
      var social := t["social_behavior"];
      Some(if social.Cat? then GetOr(table, social.text, 0.0) else 0.0)
  }

  /** `_evaluate_metabolic_fitness`: deeper than 2000 m a low metabolic rate earns 1.0 and a
      high oxygen efficiency 0.8; above, a rate in [0.8, 1.5] earns 0.5. Both values
      must be numbers for the comparisons. */
  function MetabolicTerm(t: Traits, depth: real): (r: Option<real>)
    ensures r.Some? <==> "metabolic_rate" in t && t["metabolic_rate"].Num? &&
                         "oxygen_efficiency" in t && (depth > 2000.0 ==> t["oxygen_efficiency"].Num?)
    ensures r.Some? ==> 0.0 <= r.value <= 1.8
  {
    if "metabolic_rate" !in t || !t["metabolic_rate"].Num? || "oxygen_efficiency" !in t then None
    else
      var rate, oxygen := t["metabolic_rate"], t["oxygen_efficiency"];
      if depth > 2000.0 then
        if !oxygen.Num? then None
        else Some((if rate.value < 1.0 then 1.0 else 0.0) + (if oxygen.value > 1.2 then 0.8 else 0.0))
      else Some(if 0.8 <= rate.value <= 1.5 then 0.5 else 0.0)
  }

  /** `_evaluate_tolerance_fitness`: a temperature bonus (0.8 deeper than 3000 m for cold
      or extremophile, 0.6 shallower than 500 m for moderate or warm) minus half the distance
      between the pressure tolerance and `min(2, depth / 3000)`. Reads the key
      "temperature_tolerance". */
  function ToleranceTerm(t: Traits, depth: real): (r: Option<real>)
    ensures r.Some? <==> "temperature_tolerance" in t && "pressure_tolerance" in t && t["pressure_tolerance"].Num?
    ensures r.Some? ==> r.value <= 0.8
  {
    if "temperature_tolerance" !in t || "pressure_tolerance" !in t || !t["pressure_tolerance"].Num? then None
    else
      var temp, tolerance := t["temperature_tolerance"], t["pressure_tolerance"].value;
      var bonus :=
        if depth > 3000.0 then (if temp in {Cat("cold"), Cat("extremophile")} then 0.8 else 0.0)
        else if depth < 500.0 then (if temp in {Cat("moderate"), Cat("warm")} then 0.6 else 0.0)
        else 0.0;
      var expected := if depth / 3000.0 < 2.0 then depth / 3000.0 else 2.0;
      var diff := if tolerance >= expected then tolerance - expected else expected - tolerance;
      Some(bonus - diff * 0.5)
  }

  // ---------------------------------------------------------------------------
  // `evaluate_fitness` as written

  /** `evaluate_fitness` step by step as written: compatibility and food bonus, then
      the eight helpers in order, any of which may raise; their results are dropped. */
  function FitnessAsWritten(t: Traits, depth: real): (r: Option<real>)
    requires CompatibilityDefined(t)
  {
    if VisionTerm(t, depth).None? || PressureTerm(t, depth).None? ||
       LocomotionTerm(t, depth).None? || SizeTerm(t, depth).None? ||
       DefenseTerm(t, depth).None? || SocialTerm(t, depth).None? ||
       MetabolicTerm(t, depth).None? || ToleranceTerm(t, depth).None?
    then None
    else
      var layer := GetLayer(depth);
      var fit := Compatibility(t, depth, layer) + FoodBonus(layer.foodType, t["food_strategy"]);
      Some(if fit > 0.0 then fit else 0.0)
  }

  /** Every trait dictionary the constructor or `mutate` produces lacks the keys
      "defense_mechanism", "social_behavior" and "temperature_tolerance", so three
      helpers raise and `evaluate_fitness` as written never stores a fitness. */
  lemma FitnessAsWrittenRaises(t: Traits, depth: real)
    requires Conforms(t) && t.Keys == SchemaKeys
    ensures CompatibilityDefined(t)
    ensures DefenseTerm(t, depth).None? && SocialTerm(t, depth).None? && ToleranceTerm(t, depth).None?
    ensures FitnessAsWritten(t, depth).None?
  {
    ConformsCompatibilityDefined(t);
    HelperKeyNotInSchema("defense_mechanism");
    HelperKeyNotInSchema("social_behavior");
    HelperKeyNotInSchema("temperature_tolerance");
  }

  /** The helpers' key names are not schema keys. */
  lemma HelperKeyNotInSchema(key: string)
    requires key == "defense_mechanism" || key == "social_behavior" || key == "temperature_tolerance"
    ensures key !in SchemaKeys
  {
    CatNamesDistinct();
    NumNamesDistinct();
    SchemaKeyCases(key);
  }

  /** Whenever every helper completes, the stored fitness is `EffectiveFitness`: the
      helpers' additions never reach it. */
  lemma HelpersDiscarded(t: Traits, depth: real)
    requires CompatibilityDefined(t)
    ensures FitnessAsWritten(t, depth).Some? ==> FitnessAsWritten(t, depth).value == EffectiveFitness(t, depth)
    ensures FitnessAsWritten(t, depth).Some? <==>
      "size" in t && "defense_mechanism" in t && "social_behavior" in t &&
      "metabolic_rate" in t && t["metabolic_rate"].Num? &&
      "oxygen_efficiency" in t && (depth > 2000.0 ==> t["oxygen_efficiency"].Num?) &&
      "temperature_tolerance" in t && "pressure_tolerance" in t && t["pressure_tolerance"].Num?
  {
  }
}
