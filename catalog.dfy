/**
 * The static game catalog: biomes, species and buildings, each looked up by
 * its key. It is a constant value; nothing ever changes it.
 *
 * A building's affinity map (`species_bonus`) is kept as an ordered list of
 * (species key, multiplier) pairs, because the housing rule picks the FIRST
 * qualifying species in the map's key order. Multipliers are exact reals
 * (every one is a multiple of 0.25).
 */
module Catalog {
  import opened Wrappers
  import opened Text

  datatype Biome = Biome(name: string, bonuses: seq<string>, penalties: seq<string>)

  datatype Species = Species(name: string, bonuses: seq<string>, preferences: seq<string>)

  /**
   * A building. The category is kept as the string the catalog holds, so that
   * a category outside the four known ones can still be scored (it falls
   * through every category branch). Optional fields are `None` when the
   * catalog entry has no such property.
   */
  datatype Building = Building(
    name: string,
    category: string,
    recipes: Option<seq<string>>,
    resources: Option<seq<string>>,
    service: Option<string>,
    housingCapacity: Option<nat>,
    speciesBonus: Option<seq<(string, real)>>)

  const Biomes: map<string, Biome> := map[
    "cursed_royal_woodlands" := Biome("Cursed Royal Woodlands", ["wood_production", "foraging"], ["stone_scarcity"]),
    "coral_forest" := Biome("Coral Forest", ["meat_production", "leather_production"], ["wood_scarcity"]),
    "scarlet_orchard" := Biome("Scarlet Orchard", ["food_production", "brewing"], ["metal_scarcity"]),
    "marshlands" := Biome("Marshlands", ["clay_production", "fishing"], ["building_cost_increase"]),
    "sealed_biome" := Biome("Sealed Biome", ["ancient_knowledge"], ["resource_variety"])
  ]

  const SpeciesCatalog: map<string, Species> := map[
    "humans" := Species("Humans", ["versatile", "construction"], ["complex_food", "services"]),
    "beavers" := Species("Beavers", ["wood_cutting", "engineering"], ["simple_food", "housing"]),
    "lizards" := Species("Lizards", ["meat_processing", "warmth"], ["meat", "luxury"]),
    "harpies" := Species("Harpies", ["speed", "storm_resistance"], ["complex_food", "religion"]),
    "foxes" := Species("Foxes", ["efficiency", "trade"], ["luxury", "services"])
  ]

  function ProductionBuilding(name: string, recipes: seq<string>, bonus: seq<(string, real)>): Building {
    Building(name, "Production", Some(recipes), None, None, None, Some(bonus))
  }

  function HousingBuilding(name: string, bonus: seq<(string, real)>, capacity: nat): Building {
    Building(name, "Housing", None, None, None, Some(capacity), Some(bonus))
  }

  function CityBuilding(name: string, service: string, bonus: seq<(string, real)>): Building {
    Building(name, "City", None, None, Some(service), None, Some(bonus))
  }

  function GatheringBuilding(name: string, resources: seq<string>, bonus: seq<(string, real)>): Building {
    Building(name, "ResourceAcquisition", None, Some(resources), None, None, Some(bonus))
  }

  /** The lumber mill: the building of the worked scoring example. */
  const LumberMill: Building :=
    ProductionBuilding("Lumber Mill", ["planks"], [("beavers", 1.5), ("humans", 1.0), ("lizards", 0.5)])

  /** The human house: the housing example, above 100 points for humans. */
  const HumanHouse: Building := HousingBuilding("Human House", [("humans", 2.0)], 4)

  /** The production buildings. */
  const ProductionBuildings: map<string, Building> := map[
    "crude_workstation" := ProductionBuilding("Crude Workstation", ["planks", "fabric"],
                             [("beavers", 1.25), ("humans", 1.0), ("lizards", 0.75)]),
    "lumber_mill" := LumberMill,
    "weaver" := ProductionBuilding("Weaver", ["fabric"],
                  [("humans", 1.25), ("harpies", 1.25), ("beavers", 0.75)]),
    "provisioner" := ProductionBuilding("Provisioner", ["flour", "barrels"],
                       [("humans", 1.25), ("foxes", 1.25), ("lizards", 0.75)]),
    "cookhouse" := ProductionBuilding("Cookhouse", ["skewers", "biscuits"],
                     [("lizards", 1.5), ("humans", 1.0), ("beavers", 0.75)]),
    "butcher" := ProductionBuilding("Butcher", ["meat", "leather"],
                   [("lizards", 1.5), ("humans", 1.0), ("foxes", 1.25)]),
    "supplier" := ProductionBuilding("Supplier", ["flour", "planks"],
                    [("humans", 1.25), ("beavers", 1.25), ("harpies", 0.75)])
  ]

  /** The housing buildings. */
  const HousingBuildings: map<string, Building> := map[
    "human_house" := HumanHouse,
    "beaver_house" := HousingBuilding("Beaver House", [("beavers", 2.0)], 6),
    "lizard_house" := HousingBuilding("Lizard House", [("lizards", 2.0)], 2),
    "harpy_house" := HousingBuilding("Harpy House", [("harpies", 2.0)], 3),
    "fox_house" := HousingBuilding("Fox House", [("foxes", 2.0)], 2)
  ]

  /** The city (service) buildings. */
  const CityBuildings: map<string, Building> := map[
    "tavern" := CityBuilding("Tavern", "leisure",
                  [("humans", 1.5), ("foxes", 1.25), ("harpies", 1.0)]),
    "temple" := CityBuilding("Temple", "religion",
                  [("harpies", 1.5), ("lizards", 1.25), ("humans", 1.0)]),
    "market" := CityBuilding("Market", "trade",
                  [("foxes", 1.5), ("humans", 1.25), ("beavers", 1.0)]),
    "clan_hall" := CityBuilding("Clan Hall", "blight_reduction",
                     [("beavers", 1.5), ("humans", 1.25), ("lizards", 1.0)])
  ]

  /** The resource acquisition buildings. */
  const GatheringBuildings: map<string, Building> := map[
    "woodcutters_camp" := GatheringBuilding("Woodcutter's Camp", ["wood"],
                            [("beavers", 1.5), ("humans", 1.0), ("lizards", 0.75)]),
    "foragers_hut" := GatheringBuilding("Forager's Hut", ["mushrooms", "berries"],
                        [("harpies", 1.5), ("humans", 1.0), ("foxes", 1.25)]),
    "trappers_camp" := GatheringBuilding("Trapper's Camp", ["meat", "leather"],
                         [("lizards", 1.5), ("humans", 1.0), ("foxes", 1.25)]),
    "stonecutters_camp" := GatheringBuilding("Stonecutter's Camp", ["stone"],
                             [("lizards", 1.25), ("beavers", 1.25), ("humans", 1.0)])
  ]

  /** The building table: the four groups together (no key is in two groups). */
  const Buildings: map<string, Building> := ProductionBuildings + HousingBuildings + CityBuildings + GatheringBuildings

  /**
   * The whole catalog as the scoring engine receives it: the three tables,
   * each looked up by key. The engine is stated for any catalog; `Game` is the
   * one the game ships.
   */
  datatype GameData = GameData(biomes: map<string, Biome>, species: map<string, Species>, buildings: map<string, Building>)

  const Game: GameData := GameData(Biomes, SpeciesCatalog, Buildings)

  /**
   * `species_bonus[s]` on an affinity map: the multiplier of the entry whose
   * key is s, or `None` (JavaScript's undefined) when there is none.
   */
  function Affinity(bonus: seq<(string, real)>, s: string): (r: Option<real>)
    ensures r.None? <==> forall i | 0 <= i < |bonus| :: bonus[i].0 != s
    ensures r.Some? ==> exists i | 0 <= i < |bonus| :: bonus[i] == (s, r.value)
  {
    if bonus == [] then None
    else if bonus[0].0 == s then Some(bonus[0].1)
    else
      var rest := Affinity(bonus[1..], s);
      assert rest.Some? ==> exists i | 0 <= i < |bonus[1..]| :: bonus[1..][i] == (s, rest.value);
      assert forall i | 1 <= i < |bonus| :: bonus[i] == bonus[1..][i - 1];
      rest
  }

  /** `building.species_bonus[s]`, undefined when the building has no map. */
  function AffinityOf(b: Building, s: string): Option<real> {
    match b.speciesBonus
    case None => None
    case Some(bonus) => Affinity(bonus, s)
  }

  /** The four categories the scoring engine has a branch for. */
  predicate KnownCategory(category: string) {
    category == "Production" || category == "Housing" || category == "City" || category == "ResourceAcquisition"
  }

  /** A multiplier the catalog may hold: within [0.5, 2.0] and a whole number of quarters. */
  predicate QuarterInRange(v: real) {
    0.5 <= v <= 2.0 && (v * 4.0).Floor as real == v * 4.0
  }

  /** Every affinity map lists known species, each once, with catalog-range multipliers. */
  predicate WellFormedBonus(bonus: seq<(string, real)>) {
    && (forall i | 0 <= i < |bonus| :: bonus[i].0 in SpeciesCatalog && QuarterInRange(bonus[i].1))
    && (forall i, j | 0 <= i < j < |bonus| :: bonus[i].0 != bonus[j].0)
  }

  /** The multipliers a catalog entry may take, listed: 0.5 to 2.0 in steps of 0.25. */
  const QuarterSteps: set<real> := {0.5, 0.75, 1.0, 1.25, 1.5, 1.75, 2.0}

  lemma QuarterStepsInRange()
    ensures forall v | v in QuarterSteps :: QuarterInRange(v)
  {
    assert QuarterInRange(0.5) && QuarterInRange(0.75) && QuarterInRange(1.0) && QuarterInRange(1.25);
    assert QuarterInRange(1.5) && QuarterInRange(1.75) && QuarterInRange(2.0);
  }

  /** Every affinity map lists known species, each once, with listed multipliers. */
  predicate ListedBonus(bonus: seq<(string, real)>) {
    && (forall i | 0 <= i < |bonus| :: bonus[i].0 in SpeciesCatalog && bonus[i].1 in QuarterSteps)
    && (forall i, j | 0 <= i < j < |bonus| :: bonus[i].0 != bonus[j].0)
  }

  /** The recipe tags that production buildings list. */
  const RecipeTags: set<string> := {"planks", "fabric", "flour", "barrels", "skewers", "biscuits", "meat", "leather"}

  /**
   * The shape every catalog entry has: a known category, exactly the optional
   * fields of that category, a listed affinity map, housing that shelters
   * someone and favours one species at 2.0, and recipes from the tag list,
   * "meat" only at the butcher.
   */
  predicate Shaped(k: string, b: Building) {
    && KnownCategory(b.category)
    && (b.recipes.Some? <==> b.category == "Production")
    && (b.resources.Some? <==> b.category == "ResourceAcquisition")
    && (b.service.Some? <==> b.category == "City")
    && (b.housingCapacity.Some? <==> b.category == "Housing")
    && b.speciesBonus.Some? && ListedBonus(b.speciesBonus.value)
    && (b.category == "Housing" ==>
          b.housingCapacity.value > 0 && |b.speciesBonus.value| == 1 && b.speciesBonus.value[0].1 == 2.0)
    && (b.recipes.Some? ==> forall r | r in b.recipes.value :: r in RecipeTags && (r == "meat" ==> k == "butcher"))
  }

  lemma ProductionShaped()
    ensures forall k | k in ProductionBuildings :: Shaped(k, ProductionBuildings[k])
  {
  }

  lemma HousingShaped()
    ensures forall k | k in HousingBuildings :: Shaped(k, HousingBuildings[k])
  {
  }

  lemma CityShaped()
    ensures forall k | k in CityBuildings :: Shaped(k, CityBuildings[k])
  {
  }

  lemma GatheringShaped()
    ensures forall k | k in GatheringBuildings :: Shaped(k, GatheringBuildings[k])
  {
  }

  /** Every entry of the building table has the catalog's shape. */
  lemma BuildingsShaped()
    ensures forall k | k in Buildings :: Shaped(k, Buildings[k])
  {
    ProductionShaped();
    HousingShaped();
    CityShaped();
    GatheringShaped();
  }

  /** Every building's category is one of the four known ones. */
  lemma CategoriesAreKnown()
    ensures forall k | k in Buildings :: KnownCategory(Buildings[k].category)
  {
    BuildingsShaped();
  }

  /** Each optional field is carried by exactly the buildings of one category. */
  lemma FieldsFollowCategory()
    ensures forall k | k in Buildings ::
      && (Buildings[k].recipes.Some? <==> Buildings[k].category == "Production")
      && (Buildings[k].resources.Some? <==> Buildings[k].category == "ResourceAcquisition")
      && (Buildings[k].service.Some? <==> Buildings[k].category == "City")
      && (Buildings[k].housingCapacity.Some? <==> Buildings[k].category == "Housing")
  {
    BuildingsShaped();
  }

  /** Every housing building shelters someone and favours exactly one species, at 2.0. */
  lemma HousingShape()
    ensures forall k | k in Buildings && Buildings[k].category == "Housing" ::
      && Buildings[k].housingCapacity.Some? && Buildings[k].housingCapacity.value > 0
      && Buildings[k].speciesBonus.Some? && |Buildings[k].speciesBonus.value| == 1
      && Buildings[k].speciesBonus.value[0].1 == 2.0
  {
    BuildingsShaped();
  }

  lemma AffinityMapsWellFormed()
    ensures forall k | k in Buildings ::
      Buildings[k].speciesBonus.Some? && WellFormedBonus(Buildings[k].speciesBonus.value)
  {
    BuildingsShaped();
    QuarterStepsInRange();
  }

  /** What makes a species key resolvable: a known building's truthy affinity implies a known species. */
  lemma AffinityKeyIsSpecies(k: string, s: string)
    requires k in Buildings && AffinityOf(Buildings[k], s).Some?
    ensures s in SpeciesCatalog
  {
    AffinityMapsWellFormed();
  }

  /** The butcher makes meat and leather. */
  lemma ButcherRecipes()
    ensures "butcher" in Buildings && Buildings["butcher"].recipes == Some(["meat", "leather"])
  {
    assert "butcher" in ProductionBuildings && "butcher" !in HousingBuildings;
    assert "butcher" !in CityBuildings && "butcher" !in GatheringBuildings;
  }

  /** The lumber mill's entry in the building table. */
  lemma LumberMillEntry()
    ensures "lumber_mill" in Buildings
    ensures Buildings["lumber_mill"] == LumberMill
  {
    assert "lumber_mill" in ProductionBuildings && "lumber_mill" !in HousingBuildings;
    assert "lumber_mill" !in CityBuildings && "lumber_mill" !in GatheringBuildings;
  }

  /** The human house's entry in the building table. */
  lemma HumanHouseEntry()
    ensures "human_house" in Buildings
    ensures Buildings["human_house"] == HumanHouse
  {
    assert "human_house" in HousingBuildings;
    assert "human_house" !in CityBuildings && "human_house" !in GatheringBuildings;
  }

  /** Only the Coral Forest favours meat production. */
  lemma MeatProductionOnlyInCoralForest()
    ensures forall k | k in Biomes :: "meat_production" in Biomes[k].bonuses <==> k == "coral_forest"
  {
  }

  /** Every biome names at least one bonus and one penalty. */
  lemma BiomesHaveBonusesAndPenalties()
    ensures forall k | k in Biomes :: |Biomes[k].bonuses| > 0 && |Biomes[k].penalties| > 0
  {
  }

  /** Which of the substrings the biome rule looks for each recipe tag contains. */
  lemma RecipeTagSubstrings(r: string)
    requires r in RecipeTags
    ensures !Includes(r, "wood") && !Includes(r, "food") && !Includes(r, "stone")
    ensures Includes(r, "meat") <==> r == "meat"
  {
    if r == "flour" {
      IncludesOnlyIfEveryChar(r, "wood", 'w');
      IncludesOnlyIfEveryChar(r, "food", 'd');
      IncludesOnlyIfEveryChar(r, "stone", 's');
    } else {
      IncludesOnlyIfEveryChar(r, "wood", 'o');
      IncludesOnlyIfEveryChar(r, "food", 'o');
      IncludesOnlyIfEveryChar(r, "stone", 'o');
    }
    if r == "meat" {
      IncludesItself(r);
    } else {
      IncludesOnlyIfEveryChar(r, "meat", 'm');
    }
  }

  /**
   * No recipe of a catalog building mentions wood, food or stone, and the
   * only one mentioning meat is the butcher's "meat".
   */
  lemma RecipeTagsMentions(k: string)
    requires k in Buildings && Buildings[k].recipes.Some?
    ensures forall r | r in Buildings[k].recipes.value ::
      && !Includes(r, "wood") && !Includes(r, "food") && !Includes(r, "stone")
      && (Includes(r, "meat") <==> k == "butcher" && r == "meat")
  {
    BuildingsShaped();
    var b := Buildings[k];
    assert Shaped(k, b);
    forall r | r in b.recipes.value
      ensures && !Includes(r, "wood") && !Includes(r, "food") && !Includes(r, "stone")
              && (Includes(r, "meat") <==> k == "butcher" && r == "meat")
    {
      ShapedRecipeMentions(k, b, r);
    }
  }

  /** The same, for one recipe of one well-shaped entry. */
  lemma ShapedRecipeMentions(k: string, b: Building, r: string)
    requires Shaped(k, b) && b.recipes.Some? && r in b.recipes.value
    ensures && !Includes(r, "wood") && !Includes(r, "food") && !Includes(r, "stone")
            && (Includes(r, "meat") <==> k == "butcher" && r == "meat")
  {
    RecipeTagSubstrings(r);
  }
}
