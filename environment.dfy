/** The ocean as a fixed, ordered table of depth bands (environment.py). */
module Environment {

  /** One depth band: `[minDepth, maxDepth)`, its light level and the food it offers. */
  datatype OceanLayer = OceanLayer(
    name: string,
    minDepth: real,
    maxDepth: real,
    lightIntensity: real,
    foodType: string)

  const Layers: seq<OceanLayer> := [
    OceanLayer("Surface", 0.0, 100.0, 1.0, "photosynthesis"),
    OceanLayer("Mid-depth", 100.0, 1000.0, 0.3, "organics"),
    OceanLayer("Deep Sea", 1000.0, 4000.0, 0.05, "marine snow"),
    OceanLayer("Abyss", 4000.0, 6000.0, 0.01, "chemosynthesis")
  ]

  const Abyss: OceanLayer := Layers[3]

  predicate Contains(layer: OceanLayer, depth: real)
  {
    layer.minDepth <= depth < layer.maxDepth
  }

  /** The linear search of `get_layer`, from band `i` on: the first band that
      contains `depth`, or the last band when none from `i` on does. */
  function SearchFrom(i: nat, depth: real): (layer: OceanLayer)
    requires i <= |Layers|
    ensures layer in Layers
    ensures (exists j :: i <= j < |Layers| && Contains(Layers[j], depth)) ==>
      exists j :: i <= j < |Layers| && layer == Layers[j] && Contains(layer, depth) &&
        forall j' :: i <= j' < j ==> !Contains(Layers[j'], depth)
    ensures (forall j :: i <= j < |Layers| ==> !Contains(Layers[j], depth)) ==> layer == Abyss
    decreases |Layers| - i
  {
    if i == |Layers| then Layers[|Layers| - 1]
    else if Contains(Layers[i], depth) then Layers[i]
    else SearchFrom(i + 1, depth)
  }

  /** `Environment.get_layer`: never fails; a depth outside `[0, 6000)` falls back
      to the deepest band. */
  function GetLayer(depth: real): (layer: OceanLayer)
    ensures layer in Layers
    ensures 0.0 <= depth < 6000.0 ==> Contains(layer, depth)
    ensures !(0.0 <= depth < 6000.0) ==> layer == Abyss
  {
    SearchFrom(0, depth)
  }

  /** The bands are contiguous and ordered: each ends where the next begins, and
      together they cover `[0, 6000)`. */
  lemma BandsContiguous()
    ensures Layers[0].minDepth == 0.0 && Layers[|Layers| - 1].maxDepth == 6000.0
    ensures forall j :: 0 <= j < |Layers| - 1 ==> Layers[j].maxDepth == Layers[j + 1].minDepth
    ensures forall j :: 0 <= j < |Layers| ==> Layers[j].minDepth < Layers[j].maxDepth
  {
  }

  /** Inside `[0, 6000)` exactly one band contains a depth, and it is the one found. */
  lemma GetLayerUnique(depth: real, j: nat)
    requires j < |Layers| && Contains(Layers[j], depth)
    ensures GetLayer(depth) == Layers[j]
  {
  }

  /** The food a depth offers, band by band. */
  lemma FoodTypeByDepth(depth: real)
    ensures 0.0 <= depth < 100.0 ==> GetLayer(depth).foodType == "photosynthesis"
    ensures 100.0 <= depth < 1000.0 ==> GetLayer(depth).foodType == "organics"
    ensures 1000.0 <= depth < 4000.0 ==> GetLayer(depth).foodType == "marine snow"
    ensures !(0.0 <= depth < 4000.0) ==> GetLayer(depth).foodType == "chemosynthesis"
  {
    if 0.0 <= depth < 6000.0 {
      var k :| 0 <= k < |Layers| && GetLayer(depth) == Layers[k];
    }
  }
}
