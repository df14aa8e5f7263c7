/**
 * The blueprint scoring engine. A score is the sum of five components
 * (base, species, category, biome, synergy), rounded half up.
 *
 * Each rule is stated once as a function. The source computes the species sum,
 * the biome sum and the produced-recipe set with step-by-step loops, and those
 * loops are the methods further down, each proved to compute its function.
 */
module Calculator {
  import opened Wrappers
  import opened Text
  import opened Catalog

  /** The five running accumulators (`scoreDetails`); only the species one can be fractional. */
  datatype ScoreDetails = ScoreDetails(base: int, species: real, category: int, biome: int, synergy: int)

  datatype ScoreResult = ScoreResult(total: int, details: ScoreDetails, breakdown: seq<string>)

  const BaseScore: int := 50

  /** `Math.round`: the nearest integer, with halves rounded up. */
  function Round(x: real): (r: int)
    ensures r as real - 0.5 <= x < r as real + 0.5
  {
    (x + 0.5).Floor
  }

  /** The unrounded score the accumulators add up to. */
  function Sum(d: ScoreDetails): real {
    d.base as real + d.species + d.category as real + d.biome as real + d.synergy as real
  }

  // ---------------------------------------------------------------------------
  // Species synergy

  /** What one selected species adds: `(affinity - 1) * 30` when its entry is truthy (present and nonzero). */
  function SpeciesBonus(b: Building, s: string): real {
    match AffinityOf(b, s)
    case Some(a) => if a != 0.0 then (a - 1.0) * 30.0 else 0.0
    case None => 0.0
  }

  /** The species component: one term per entry of the selection, in order, duplicates included. */
  function SpeciesSynergy(b: Building, species: seq<string>): real {
    if species == [] then 0.0
    else SpeciesSynergy(b, species[..|species| - 1]) + SpeciesBonus(b, species[|species| - 1])
  }

  /** The species component is additive over the selection list. */
  lemma {:induction false} SpeciesSynergyAppend(b: Building, xs: seq<string>, ys: seq<string>)
    ensures SpeciesSynergy(b, xs + ys) == SpeciesSynergy(b, xs) + SpeciesSynergy(b, ys)
    decreases |ys|
  {
    if ys != [] {
      var last := |ys| - 1;
      assert (xs + ys)[..|xs + ys| - 1] == xs + ys[..last];
      SpeciesSynergyAppend(b, xs, ys[..last]);
    } else {
      assert xs + ys == xs;
    }
  }

  /** A building without an affinity map has species component 0. */
  lemma {:induction false} SpeciesSynergyWithoutMap(b: Building, species: seq<string>)
    requires b.speciesBonus.None?
    ensures SpeciesSynergy(b, species) == 0.0
  {
    if species != [] {
      SpeciesSynergyWithoutMap(b, species[..|species| - 1]);
    }
  }

  /** A building that favours every selected species at least as much scores at least as high. */
  lemma {:induction false} SpeciesSynergyMonotone(b1: Building, b2: Building, species: seq<string>)
    requires forall i | 0 <= i < |species| :: SpeciesBonus(b1, species[i]) <= SpeciesBonus(b2, species[i])
    ensures SpeciesSynergy(b1, species) <= SpeciesSynergy(b2, species)
  {
    if species != [] {
      SpeciesSynergyMonotone(b1, b2, species[..|species| - 1]);
    }
  }

  /** The building b with the multiplier of its j-th affinity entry set to v. */
  function WithAffinity(b: Building, j: nat, v: real): Building
    requires b.speciesBonus.Some? && j < |b.speciesBonus.value|
  {
    var bonus := b.speciesBonus.value;
    b.(speciesBonus := Some(bonus[j := (bonus[j].0, v)]))
  }

  lemma {:induction false} AffinityAfterUpdate(bonus: seq<(string, real)>, j: nat, v: real, s: string)
    requires j < |bonus|
    requires forall i | 0 <= i < j :: bonus[i].0 != bonus[j].0
    ensures Affinity(bonus[j := (bonus[j].0, v)], s) == if s == bonus[j].0 then Some(v) else Affinity(bonus, s)
  {
    var updated := bonus[j := (bonus[j].0, v)];
    if j > 0 {
      assert updated[1..] == bonus[1..][j - 1 := (bonus[j].0, v)];
      AffinityAfterUpdate(bonus[1..], j - 1, v, s);
    }
  }

  /**
   * Raising a positive multiplier never lowers the species component. (An
   * entry of exactly 0 is falsy and counts as missing, so the positive bound
   * is needed: raising 0 to 0.5 takes the term from 0 to -15.)
   */
  lemma RaisingAffinityNeverLowersSynergy(b: Building, j: nat, v: real, species: seq<string>)
    requires b.speciesBonus.Some? && j < |b.speciesBonus.value|
    requires forall i | 0 <= i < j :: b.speciesBonus.value[i].0 != b.speciesBonus.value[j].0
    requires 0.0 < b.speciesBonus.value[j].1 <= v
    ensures SpeciesSynergy(b, species) <= SpeciesSynergy(WithAffinity(b, j, v), species)
  {
    var raised := WithAffinity(b, j, v);
    forall i | 0 <= i < |species|
      ensures SpeciesBonus(b, species[i]) <= SpeciesBonus(raised, species[i])
    {
      AffinityAfterUpdate(b.speciesBonus.value, j, v, species[i]);
      if species[i] == b.speciesBonus.value[j].0 {
        var k :| 0 <= k < |b.speciesBonus.value| && b.speciesBonus.value[k] == (species[i], Affinity(b.speciesBonus.value, species[i]).value);
        assert Affinity(b.speciesBonus.value, species[i]) == Some(b.speciesBonus.value[j].1) by {
          FirstEntryWins(b.speciesBonus.value, j);
        }
      }
    }
    SpeciesSynergyMonotone(b, raised, species);
  }

  /** An entry whose key does not occur earlier is the one the lookup finds. */
  lemma {:induction false} FirstEntryWins(bonus: seq<(string, real)>, j: nat)
    requires j < |bonus|
    requires forall i | 0 <= i < j :: bonus[i].0 != bonus[j].0
    ensures Affinity(bonus, bonus[j].0) == Some(bonus[j].1)
  {
    if j > 0 {
      FirstEntryWins(bonus[1..], j - 1);
    }
  }

  // ---------------------------------------------------------------------------
  // Housing need

  /** Strong enough to count as the housing's favoured species. */
  predicate Favours(entry: (string, real), species: seq<string>) {
    entry.1 > 1.5 && entry.0 in species
  }

  /** `Object.keys(species_bonus).find(...)`: the first key, in map order, favoured and selected. */
  function FirstFavoured(bonus: seq<(string, real)>, species: seq<string>): (r: Option<string>)
    ensures r.None? <==> forall i | 0 <= i < |bonus| :: !Favours(bonus[i], species)
    ensures r.Some? ==> exists i | 0 <= i < |bonus| ::
      && bonus[i].0 == r.value && Favours(bonus[i], species)
      && forall h | 0 <= h < i :: !Favours(bonus[h], species)
  {
    if bonus == [] then None
    else if Favours(bonus[0], species) then Some(bonus[0].0)
    else
      var rest := FirstFavoured(bonus[1..], species);
      assert forall i | 1 <= i < |bonus| :: bonus[i] == bonus[1..][i - 1];
      if rest.Some? then
        var i :| 0 <= i < |bonus[1..]| && bonus[1..][i].0 == rest.value && Favours(bonus[1..][i], species)
                 && forall h | 0 <= h < i :: !Favours(bonus[1..][h], species);
        assert bonus[i + 1].0 == rest.value && Favours(bonus[i + 1], species);
        rest
      else
        rest
  }

  /** k names an existing Housing building whose entry for s exceeds 1.5. */
  predicate HousesFavoured(data: GameData, k: string, s: string) {
    && k in data.buildings
    && data.buildings[k].category == "Housing"
    && data.buildings[k].speciesBonus.Some?
    && match AffinityOf(data.buildings[k], s)
       case Some(a) => a > 1.5
       case None => false
  }

  /** `currentBuildings.filter(...).length`: the current housing that already favours s. */
  function HousingCount(data: GameData, current: seq<string>, s: string): (n: nat)
    ensures n <= |current|
  {
    if current == [] then 0
    else (if HousesFavoured(data, current[0], s) then 1 else 0) + HousingCount(data, current[1..], s)
  }

  lemma {:induction false} HousingCountAppend(data: GameData, xs: seq<string>, ys: seq<string>, s: string)
    ensures HousingCount(data, xs + ys, s) == HousingCount(data, xs, s) + HousingCount(data, ys, s)
  {
    if xs == [] {
      assert xs + ys == ys;
    } else {
      assert (xs + ys)[1..] == xs[1..] + ys;
      HousingCountAppend(data, xs[1..], ys, s);
    }
  }

  function Max(a: int, b: int): int {
    if a >= b then a else b
  }

  /**
   * The housing bonus: 20 when no selected species is favoured, else a
   * diminishing 35, 25, 15, 15, ... by the number of houses already built
   * for the first favoured species. The found key is tested for truthiness,
   * so an empty-string key counts as no favoured species.
   */
  function HousingNeed(data: GameData, buildingKey: string, species: seq<string>, current: seq<string>): (r: int)
    requires buildingKey in data.buildings
    ensures 15 <= r <= 35
    ensures r == 20 <==>
      || data.buildings[buildingKey].speciesBonus.None?
      || FirstFavoured(data.buildings[buildingKey].speciesBonus.value, species).None?
      || FirstFavoured(data.buildings[buildingKey].speciesBonus.value, species) == Some("")
  {
    var b := data.buildings[buildingKey];
    if b.speciesBonus.None? then 20
    else
      match FirstFavoured(b.speciesBonus.value, species)
      case None => 20
      case Some(s) => if s == "" then 20 else Max(15, 35 - HousingCount(data, current, s) * 10)
  }

  /** The diminishing-returns curve: 35, 25, then 15 from two existing houses on. */
  lemma HousingNeedCurve(data: GameData, buildingKey: string, species: seq<string>, current: seq<string>, s: string)
    requires buildingKey in data.buildings && data.buildings[buildingKey].speciesBonus.Some?
    requires FirstFavoured(data.buildings[buildingKey].speciesBonus.value, species) == Some(s)
    ensures s == "" ==> HousingNeed(data, buildingKey, species, current) == 20
    ensures s != "" && HousingCount(data, current, s) == 0 ==> HousingNeed(data, buildingKey, species, current) == 35
    ensures s != "" && HousingCount(data, current, s) == 1 ==> HousingNeed(data, buildingKey, species, current) == 25
    ensures s != "" && HousingCount(data, current, s) >= 2 ==> HousingNeed(data, buildingKey, species, current) == 15
  {
  }

  /** Building more never raises the housing need. */
  lemma HousingNeedNeverGrows(data: GameData, buildingKey: string, species: seq<string>, current: seq<string>, more: seq<string>)
    requires buildingKey in data.buildings
    ensures HousingNeed(data, buildingKey, species, current + more) <= HousingNeed(data, buildingKey, species, current)
  {
    var b := data.buildings[buildingKey];
    if b.speciesBonus.Some? {
      match FirstFavoured(b.speciesBonus.value, species)
      case None =>
      case Some(s) => HousingCountAppend(data, current, more, s);
    }
  }

  // ---------------------------------------------------------------------------
  // Production diversity

  /** The recipes of the building named k, empty when k is unknown or has none. */
  function RecipesOf(data: GameData, k: string): set<string> {
    if k in data.buildings && data.buildings[k].recipes.Some? then set r | r in data.buildings[k].recipes.value else {}
  }

  /** The recipe tags the current buildings already produce. */
  function ProducedRecipes(data: GameData, current: seq<string>): set<string> {
    if current == [] then {}
    else ProducedRecipes(data, current[..|current| - 1]) + RecipesOf(data, current[|current| - 1])
  }

  /** A tag is produced exactly when some current building lists it among its recipes. */
  lemma {:induction false} ProducedRecipesMembership(data: GameData, current: seq<string>, r: string)
    ensures r in ProducedRecipes(data, current) <==> exists i | 0 <= i < |current| :: r in RecipesOf(data, current[i])
  {
    if current != [] {
      var init := current[..|current| - 1];
      var last := |current| - 1;
      ProducedRecipesMembership(data, init, r);
      if r in ProducedRecipes(data, current) {
        if r !in RecipesOf(data, current[last]) {
          var i :| 0 <= i < |init| && r in RecipesOf(data, init[i]);
          assert current[i] == init[i];
        }
      } else {
        forall i | 0 <= i < |current|
          ensures r !in RecipesOf(data, current[i])
        {
          if i < last {
            assert current[i] == init[i];
          }
        }
      }
    }
  }

  /** `recipes.filter(r => !have.has(r))`: the candidate's tags not yet produced, in order. */
  function NewRecipes(recipes: seq<string>, have: set<string>): (unseen: seq<string>)
    ensures |unseen| <= |recipes|
    ensures forall r :: r in unseen <==> r in recipes && r !in have
  {
    if recipes == [] then []
    else
      var init := recipes[..|recipes| - 1];
      var last := recipes[|recipes| - 1];
      assert recipes == init + [last];
      NewRecipes(init, have) + (if last in have then [] else [last])
  }

  /** A tag not yet produced is kept as often as the candidate lists it; a produced one never. */
  lemma {:induction false} NewRecipesMultiplicity(recipes: seq<string>, have: set<string>, t: string)
    ensures multiset(NewRecipes(recipes, have))[t] == if t in have then 0 else multiset(recipes)[t]
  {
    if recipes != [] {
      var init := recipes[..|recipes| - 1];
      var last := recipes[|recipes| - 1];
      var kept := if last in have then [] else [last];
      assert recipes == init + [last];
      assert multiset(recipes) == multiset(init) + multiset{last};
      assert multiset(NewRecipes(recipes, have)) == multiset(NewRecipes(init, have)) + multiset(kept);
      NewRecipesMultiplicity(init, have, t);
    }
  }

  /** Filtering distributes over concatenation: the kept tags stay in their order. */
  lemma {:induction false} NewRecipesConcat(xs: seq<string>, ys: seq<string>, have: set<string>)
    ensures NewRecipes(xs + ys, have) == NewRecipes(xs, have) + NewRecipes(ys, have)
    decreases |ys|
  {
    if ys == [] {
      assert xs + ys == xs;
    } else {
      var init := ys[..|ys| - 1];
      var last := ys[|ys| - 1];
      var kept := if last in have then [] else [last];
      assert (xs + ys)[..|xs + ys| - 1] == xs + init;
      assert (xs + ys)[|xs + ys| - 1] == last;
      assert NewRecipes(xs + ys, have) == NewRecipes(xs + init, have) + kept;
      assert NewRecipes(ys, have) == NewRecipes(init, have) + kept;
      NewRecipesConcat(xs, init, have);
      assert NewRecipes(xs, have) + NewRecipes(init, have) + kept
          == NewRecipes(xs, have) + (NewRecipes(init, have) + kept);
    }
  }

  lemma {:induction false} NewRecipesAllUnseen(recipes: seq<string>, have: set<string>)
    requires forall r | r in recipes :: r !in have
    ensures NewRecipes(recipes, have) == recipes
  {
    if recipes != [] {
      var init := recipes[..|recipes| - 1];
      var last := recipes[|recipes| - 1];
      assert recipes == init + [last];
      assert last in recipes && last !in have;
      assert NewRecipes(recipes, have) == NewRecipes(init, have) + [last];
      assert forall r | r in init :: r in recipes;
      NewRecipesAllUnseen(init, have);
    }
  }

  /** 8 points for each recipe tag of the candidate that no current building produces. */
  function ProductionDiversity(data: GameData, b: Building, current: seq<string>): (r: nat)
    ensures r % 8 == 0
    ensures b.recipes.None? ==> r == 0
    ensures b.recipes.Some? ==> r <= 8 * |b.recipes.value|
    ensures b.recipes.Some? ==> (r == 0 <==> forall t | t in b.recipes.value :: t in ProducedRecipes(data, current))
    ensures b.recipes.Some? ==> r == 8 * |NewRecipes(b.recipes.value, ProducedRecipes(data, current))|
  {
    match b.recipes
    case None => 0
    case Some(recipes) =>
      var unseen := NewRecipes(recipes, ProducedRecipes(data, current));
      assert unseen != [] ==> unseen[0] in unseen;
      8 * |unseen|
  }

  /** A candidate all of whose recipes are new earns the full 8 per recipe. */
  lemma DiversityOfAllNewRecipes(data: GameData, b: Building, current: seq<string>)
    requires b.recipes.Some?
    requires forall t | t in b.recipes.value :: t !in ProducedRecipes(data, current)
    ensures ProductionDiversity(data, b, current) == 8 * |b.recipes.value|
  {
    NewRecipesAllUnseen(b.recipes.value, ProducedRecipes(data, current));
  }

  /** `calculateProductionDiversity`: fills the produced-recipe set, then counts the new tags. */
  method CalculateProductionDiversity(data: GameData, b: Building, current: seq<string>) returns (bonus: int)
    ensures bonus == ProductionDiversity(data, b, current)
  {
    if b.recipes.None? {
      return 0;
    }
    var produced: set<string> := {};
    for i := 0 to |current|
      invariant produced == ProducedRecipes(data, current[..i])
    {
      assert current[..i + 1][..i] == current[..i];
      var k := current[i];
      if k in data.buildings && data.buildings[k].recipes.Some? {
        var rs := data.buildings[k].recipes.value;
        for j := 0 to |rs|
          invariant produced == ProducedRecipes(data, current[..i]) + set r | r in rs[..j]
        {
          assert rs[..j + 1] == rs[..j] + [rs[j]];
          produced := produced + {rs[j]};
        }
        assert rs[..|rs|] == rs;
      }
    }
    assert current[..|current|] == current;
    var recipes := b.recipes.value;
    var unseen: seq<string> := [];
    for j := 0 to |recipes|
      invariant unseen == NewRecipes(recipes[..j], produced)
    {
      assert recipes[..j + 1][..j] == recipes[..j];
      if recipes[j] !in produced {
        unseen := unseen + [recipes[j]];
      }
    }
    assert recipes[..|recipes|] == recipes;
    bonus := |unseen| * 8;
  }

  // ---------------------------------------------------------------------------
  // Biome compatibility

  /** The three passes the biome rule makes over a building's tags. */
  datatype TagPass = RecipeBonusPass | ResourceBonusPass | ScarcityPass

  /** The most one tag can contribute in a pass. */
  function PassCap(pass: TagPass): nat {
    match pass
    case RecipeBonusPass => 45
    case ResourceBonusPass => 20
    case ScarcityPass => 20
  }

  /** What one tag contributes in one pass, by substring or exact matching against the biome. */
  function TagScore(pass: TagPass, tag: string, biome: Biome): (r: int)
    ensures 0 <= r <= PassCap(pass)
  {
    match pass
    case RecipeBonusPass =>
      (if Includes(tag, "wood") && "wood_production" in biome.bonuses then 15 else 0)
      + (if Includes(tag, "meat") && "meat_production" in biome.bonuses then 15 else 0)
      + (if Includes(tag, "food") && "food_production" in biome.bonuses then 15 else 0)
    case ResourceBonusPass =>
      (if tag == "wood" && "wood_production" in biome.bonuses then 20 else 0)
      + (if tag == "meat" && "meat_production" in biome.bonuses then 20 else 0)
      + (if (tag == "mushrooms" || tag == "berries") && "foraging" in biome.bonuses then 20 else 0)
    case ScarcityPass =>
      (if Includes(tag, "wood") && "wood_scarcity" in biome.penalties then 10 else 0)
      + (if Includes(tag, "stone") && "stone_scarcity" in biome.penalties then 10 else 0)
  }

  /** A pass over a list of tags. */
  function PassTotal(pass: TagPass, tags: seq<string>, biome: Biome): (r: int)
    ensures 0 <= r <= PassCap(pass) * |tags|
  {
    if tags == [] then 0
    else PassTotal(pass, tags[..|tags| - 1], biome) + TagScore(pass, tags[|tags| - 1], biome)
  }

  /** One more tag adds its own score to the pass. */
  lemma PassTotalStep(pass: TagPass, tags: seq<string>, i: nat, biome: Biome)
    requires i < |tags|
    ensures PassTotal(pass, tags[..i + 1], biome) == PassTotal(pass, tags[..i], biome) + TagScore(pass, tags[i], biome)
  {
    assert tags[..i + 1][..i] == tags[..i];
  }

  lemma {:induction false} PassTotalOfUnmatchedTags(pass: TagPass, tags: seq<string>, biome: Biome)
    requires forall i | 0 <= i < |tags| :: TagScore(pass, tags[i], biome) == 0
    ensures PassTotal(pass, tags, biome) == 0
  {
    if tags != [] {
      PassTotalOfUnmatchedTags(pass, tags[..|tags| - 1], biome);
    }
  }

  /**
   * The biome component: recipe bonuses minus scarcity penalties for a
   * Production building, resource bonuses for a ResourceAcquisition one,
   * and 0 for every other category and for an unknown biome.
   */
  function BiomeCompatibility(data: GameData, b: Building, biomeKey: string): (r: int)
    ensures biomeKey !in data.biomes ==> r == 0
    ensures b.category != "Production" && b.category != "ResourceAcquisition" ==> r == 0
    ensures b.category == "Production" && b.recipes.Some? ==>
      -20 * |b.recipes.value| <= r <= 45 * |b.recipes.value|
    ensures b.category == "ResourceAcquisition" ==> 0 <= r
    ensures b.category == "ResourceAcquisition" && b.resources.Some? ==> r <= 20 * |b.resources.value|
  {
    if biomeKey !in data.biomes then 0
    else
      var biome := data.biomes[biomeKey];
      var producing := b.category == "Production" && b.recipes.Some?;
      var gathering := b.category == "ResourceAcquisition" && b.resources.Some?;
      (if producing then PassTotal(RecipeBonusPass, b.recipes.value, biome) else 0)
      + (if gathering then PassTotal(ResourceBonusPass, b.resources.value, biome) else 0)
      - (if producing then PassTotal(ScarcityPass, b.recipes.value, biome) else 0)
  }

  /** `calculateBiomeCompatibility`: accumulates the three passes tag by tag. */
  method CalculateBiomeCompatibility(data: GameData, b: Building, biomeKey: string) returns (bonus: int)
    ensures bonus == BiomeCompatibility(data, b, biomeKey)
  {
    if biomeKey !in data.biomes {
      return 0;
    }
    var biome := data.biomes[biomeKey];
    bonus := 0;
    var gained := 0;
    if b.category == "Production" && b.recipes.Some? {
      var recipes := b.recipes.value;
      for i := 0 to |recipes|
        invariant bonus == PassTotal(RecipeBonusPass, recipes[..i], biome)
      {
        PassTotalStep(RecipeBonusPass, recipes, i, biome);
        var recipe := recipes[i];
        if Includes(recipe, "wood") && "wood_production" in biome.bonuses {
          bonus := bonus + 15;
        }
        if Includes(recipe, "meat") && "meat_production" in biome.bonuses {
          bonus := bonus + 15;
        }
        if Includes(recipe, "food") && "food_production" in biome.bonuses {
          bonus := bonus + 15;
        }
      }
      assert recipes[..|recipes|] == recipes;
    }
    gained := bonus;
    if b.category == "ResourceAcquisition" && b.resources.Some? {
      var resources := b.resources.value;
      for i := 0 to |resources|
        invariant bonus == gained + PassTotal(ResourceBonusPass, resources[..i], biome)
      {
        PassTotalStep(ResourceBonusPass, resources, i, biome);
        var resource := resources[i];
        if resource == "wood" && "wood_production" in biome.bonuses {
          bonus := bonus + 20;
        }
        if resource == "meat" && "meat_production" in biome.bonuses {
          bonus := bonus + 20;
        }
        if (resource == "mushrooms" || resource == "berries") && "foraging" in biome.bonuses {
          bonus := bonus + 20;
        }
      }
      assert resources[..|resources|] == resources;
    }
    gained := bonus;
    if b.category == "Production" && b.recipes.Some? {
      var recipes := b.recipes.value;
      for i := 0 to |recipes|
        invariant bonus == gained - PassTotal(ScarcityPass, recipes[..i], biome)
      {
        PassTotalStep(ScarcityPass, recipes, i, biome);
        var recipe := recipes[i];
        if Includes(recipe, "wood") && "wood_scarcity" in biome.penalties {
          bonus := bonus - 10;
        }
        if Includes(recipe, "stone") && "stone_scarcity" in biome.penalties {
          bonus := bonus - 10;
        }
      }
      assert recipes[..|recipes|] == recipes;
    }
  }

  /** A Production building none of whose recipes mentions wood, meat, food or stone scores 0 in every biome. */
  lemma {:induction false} UnmatchedRecipesScoreZero(data: GameData, b: Building, biomeKey: string)
    requires b.category == "Production" && b.recipes.Some?
    requires forall r | r in b.recipes.value ::
      !Includes(r, "wood") && !Includes(r, "meat") && !Includes(r, "food") && !Includes(r, "stone")
    ensures BiomeCompatibility(data, b, biomeKey) == 0
  {
    if biomeKey in data.biomes {
      var recipes := b.recipes.value;
      var biome := data.biomes[biomeKey];
      assert forall i | 0 <= i < |recipes| :: recipes[i] in recipes;
      PassTotalOfUnmatchedTags(RecipeBonusPass, recipes, biome);
      PassTotalOfUnmatchedTags(ScarcityPass, recipes, biome);
    }
  }

  /** The butcher's recipes score +15 exactly in a biome with meat production. */
  lemma ButcherRecipesScore(data: GameData, b: Building, biomeKey: string)
    requires b.category == "Production" && b.recipes == Some(["meat", "leather"])
    ensures BiomeCompatibility(data, b, biomeKey) ==
      if biomeKey in data.biomes && "meat_production" in data.biomes[biomeKey].bonuses then 15 else 0
  {
    if biomeKey in data.biomes {
      var biome := data.biomes[biomeKey];
      RecipeTagSubstrings("meat");
      RecipeTagSubstrings("leather");
      var recipes := ["meat", "leather"];
      assert recipes[..1] == ["meat"] && recipes[..1][..0] == [];
      assert PassTotal(RecipeBonusPass, recipes, biome)
          == TagScore(RecipeBonusPass, "meat", biome) + TagScore(RecipeBonusPass, "leather", biome);
      assert PassTotal(ScarcityPass, recipes, biome)
          == TagScore(ScarcityPass, "meat", biome) + TagScore(ScarcityPass, "leather", biome);
    }
  }

  /**
   * Over the catalog, the biome component of a Production building is 0
   * except for the butcher in the Coral Forest, where it is +15.
   */
  lemma ProductionBiomeScoresOnlyButcherInCoralForest(k: string, biomeKey: string)
    requires k in Game.buildings && Game.buildings[k].category == "Production"
    ensures BiomeCompatibility(Game, Game.buildings[k], biomeKey) ==
      if k == "butcher" && biomeKey == "coral_forest" then 15 else 0
  {
    var b := Game.buildings[k];
    FieldsFollowCategory();
    RecipeTagsMentions(k);
    if k == "butcher" {
      ButcherRecipes();
      ButcherRecipesScore(Game, b, biomeKey);
      MeatProductionOnlyInCoralForest();
    } else {
      UnmatchedRecipesScoreZero(Game, b, biomeKey);
    }
  }

  // ---------------------------------------------------------------------------
  // Category and synergy

  /** The category component: exactly one branch applies, by the building's category. */
  function CategoryBonus(data: GameData, buildingKey: string, species: seq<string>, current: seq<string>): (r: int)
    requires buildingKey in data.buildings
    ensures 0 <= r <= 35
    ensures data.buildings[buildingKey].category == "Housing" ==> r == HousingNeed(data, buildingKey, species, current)
    ensures data.buildings[buildingKey].category == "Production" ==> (r == 25 <==> buildingKey !in current)
    ensures data.buildings[buildingKey].category == "Production" ==> (r == 0 <==> buildingKey in current)
    ensures data.buildings[buildingKey].category == "City" ==> r == 15
    ensures data.buildings[buildingKey].category == "ResourceAcquisition" ==> r == 20
    ensures !KnownCategory(data.buildings[buildingKey].category) ==> r == 0
  {
    var category := data.buildings[buildingKey].category;
    if category == "Housing" then HousingNeed(data, buildingKey, species, current)
    else if category == "Production" then (if buildingKey in current then 0 else 25)
    else if category == "City" then 15
    else if category == "ResourceAcquisition" then 20
    else 0
  }

  /** The synergy component: the production diversity bonus, for Production buildings only. */
  function Synergy(data: GameData, b: Building, current: seq<string>): (r: nat)
    ensures b.category != "Production" ==> r == 0
    ensures b.category == "Production" ==> r == ProductionDiversity(data, b, current)
  {
    if b.category == "Production" then ProductionDiversity(data, b, current) else 0
  }

  // ---------------------------------------------------------------------------
  // The score

  /** The five components for a known building. */
  function Details(data: GameData, buildingKey: string, biomeKey: string, species: seq<string>, current: seq<string>): ScoreDetails
    requires buildingKey in data.buildings
  {
    var b := data.buildings[buildingKey];
    ScoreDetails(
      BaseScore,
      SpeciesSynergy(b, species),
      CategoryBonus(data, buildingKey, species, current),
      BiomeCompatibility(data, b, biomeKey),
      Synergy(data, b, current))
  }

  /**
   * The score of a blueprint: `None` for an unknown building key (where the
   * source returns the bare number 0), otherwise the total, its components
   * and the breakdown lines.
   */
  function Score(data: GameData, buildingKey: string, biomeKey: string, species: seq<string>, current: seq<string>): (r: Option<ScoreResult>)
    ensures r.None? <==> buildingKey !in data.buildings
    ensures r.Some? ==> r.value.details.base == BaseScore
    ensures r.Some? ==> r.value.details.species == SpeciesSynergy(data.buildings[buildingKey], species)
    ensures r.Some? ==> r.value.details.category == CategoryBonus(data, buildingKey, species, current)
    ensures r.Some? ==> r.value.details.biome == BiomeCompatibility(data, data.buildings[buildingKey], biomeKey)
    ensures r.Some? ==> r.value.details.synergy == Synergy(data, data.buildings[buildingKey], current)
    ensures r.Some? ==> r.value.total as real - 0.5 <= Sum(r.value.details) < r.value.total as real + 0.5
    ensures r.Some? ==> r.value.breakdown == ScoreBreakdown(r.value.details)
  {
    if buildingKey !in data.buildings then None
    else
      var d := Details(data, buildingKey, biomeKey, species, current);
      Some(ScoreResult(Round(Sum(d)), d, ScoreBreakdown(d)))
  }

  /** `calculateBlueprintScore`: adds the components into `score` and `scoreDetails` step by step. */
  method CalculateBlueprintScore(data: GameData, buildingKey: string, biomeKey: string, species: seq<string>, current: seq<string>)
    returns (r: Option<ScoreResult>)
    ensures r == Score(data, buildingKey, biomeKey, species, current)
  {
    if buildingKey !in data.buildings {
      return None;
    }
    var b := data.buildings[buildingKey];
    var score: real := BaseScore as real;
    var details := ScoreDetails(BaseScore, 0.0, 0, 0, 0);

    if b.speciesBonus.Some? {
      for i := 0 to |species|
        invariant details == ScoreDetails(BaseScore, SpeciesSynergy(b, species[..i]), 0, 0, 0)
        invariant score == Sum(details)
      {
        assert species[..i + 1][..i] == species[..i];
        var affinity := Affinity(b.speciesBonus.value, species[i]);
        if affinity.Some? && affinity.value != 0.0 {
          var bonus := (affinity.value - 1.0) * 30.0;
          details := details.(species := details.species + bonus);
          score := score + bonus;
        }
      }
      assert species[..|species|] == species;
    } else {
      SpeciesSynergyWithoutMap(b, species);
    }

    if b.category == "Housing" {
      var housingBonus := HousingNeed(data, buildingKey, species, current);
      details := details.(category := details.category + housingBonus);
      score := score + housingBonus as real;
    } else if b.category == "Production" {
      if buildingKey !in current {
        details := details.(category := details.category + 25);
        score := score + 25.0;
      }
      var diversityBonus := CalculateProductionDiversity(data, b, current);
      details := details.(synergy := details.synergy + diversityBonus);
      score := score + diversityBonus as real;
    } else if b.category == "City" {
      details := details.(category := details.category + 15);
      score := score + 15.0;
    } else if b.category == "ResourceAcquisition" {
      details := details.(category := details.category + 20);
      score := score + 20.0;
    }

    assert score == Sum(details);

    var biomeBonus := CalculateBiomeCompatibility(data, b, biomeKey);
    details := details.(biome := details.biome + biomeBonus);
    score := score + biomeBonus as real;

    assert score == Sum(details);
    assert details == Details(data, buildingKey, biomeKey, species, current);
    r := Some(ScoreResult(Round(score), details, ScoreBreakdown(details)));
  }

  /** The lumber mill's five components in the woodlands, for beavers, with nothing built. */
  lemma LumberMillDetails(data: GameData)
    requires "lumber_mill" in data.buildings && data.buildings["lumber_mill"] == LumberMill
    requires "cursed_royal_woodlands" in data.biomes && data.biomes["cursed_royal_woodlands"] == Biomes["cursed_royal_woodlands"]
    ensures Details(data, "lumber_mill", "cursed_royal_woodlands", ["beavers"], []) == ScoreDetails(50, 15.0, 25, 0, 8)
  {
    var b := LumberMill;
    assert SpeciesSynergy(b, ["beavers"]) == 15.0 by {
      assert ["beavers"][..0] == [];
    }
    RecipeTagSubstrings("planks");
    UnmatchedRecipesScoreZero(data, b, "cursed_royal_woodlands");
    DiversityOfAllNewRecipes(data, b, []);
  }

  /** Any catalog holding the lumber mill and the woodlands as the game does scores it 98 there. */
  lemma LumberMillScore(data: GameData)
    requires "lumber_mill" in data.buildings && data.buildings["lumber_mill"] == LumberMill
    requires "cursed_royal_woodlands" in data.biomes && data.biomes["cursed_royal_woodlands"] == Biomes["cursed_royal_woodlands"]
    ensures Score(data, "lumber_mill", "cursed_royal_woodlands", ["beavers"], []).Some?
    ensures Score(data, "lumber_mill", "cursed_royal_woodlands", ["beavers"], []).value.details
         == ScoreDetails(50, 15.0, 25, 0, 8)
    ensures Score(data, "lumber_mill", "cursed_royal_woodlands", ["beavers"], []).value.total == 98
  {
    LumberMillDetails(data);
    assert Sum(ScoreDetails(50, 15.0, 25, 0, 8)) == 98.0;
  }

  /** Lumber Mill, Cursed Royal Woodlands, beavers, nothing built: 50 + 15 + 25 + 0 + 8 = 98. */
  lemma LumberMillScores98()
    ensures Score(Game, "lumber_mill", "cursed_royal_woodlands", ["beavers"], []).Some?
    ensures Score(Game, "lumber_mill", "cursed_royal_woodlands", ["beavers"], []).value.details
         == ScoreDetails(50, 15.0, 25, 0, 8)
    ensures Score(Game, "lumber_mill", "cursed_royal_woodlands", ["beavers"], []).value.total == 98
  {
    LumberMillEntry();
    LumberMillScore(Game);
  }

  /** The human house's five components for humans with nothing built, in any biome. */
  lemma HumanHouseDetails(data: GameData, biomeKey: string)
    requires "human_house" in data.buildings && data.buildings["human_house"] == HumanHouse
    ensures Details(data, "human_house", biomeKey, ["humans"], []) == ScoreDetails(50, 30.0, 35, 0, 0)
  {
    var b := HumanHouse;
    assert SpeciesSynergy(b, ["humans"]) == 30.0 by {
      assert ["humans"][..0] == [];
    }
    assert FirstFavoured(b.speciesBonus.value, ["humans"]) == Some("humans");
  }

  /** Any catalog holding the human house as the game does scores it 115 for humans, in any biome. */
  lemma HumanHouseScore(data: GameData, biomeKey: string)
    requires "human_house" in data.buildings && data.buildings["human_house"] == HumanHouse
    ensures Score(data, "human_house", biomeKey, ["humans"], []).Some?
    ensures Score(data, "human_house", biomeKey, ["humans"], []).value.details
         == ScoreDetails(50, 30.0, 35, 0, 0)
    ensures Score(data, "human_house", biomeKey, ["humans"], []).value.total == 115
  {
    HumanHouseDetails(data, biomeKey);
    assert Sum(ScoreDetails(50, 30.0, 35, 0, 0)) == 115.0;
  }

  /** Human House with humans selected and nothing built: 50 + 30 + 35 = 115, above 100. */
  lemma HumanHouseScores115()
    ensures Score(Game, "human_house", "cursed_royal_woodlands", ["humans"], []).Some?
    ensures Score(Game, "human_house", "cursed_royal_woodlands", ["humans"], []).value.details
         == ScoreDetails(50, 30.0, 35, 0, 0)
    ensures Score(Game, "human_house", "cursed_royal_woodlands", ["humans"], []).value.total == 115
  {
    HumanHouseEntry();
    HumanHouseScore(Game, "cursed_royal_woodlands");
  }

  // ---------------------------------------------------------------------------
  // The breakdown lines

  /** One row of the breakdown table: its name, whether it is listed, and the value shown. */
  datatype Component = Component(name: string, listed: bool, shown: int)

  /** The five components in the fixed breakdown order; each is listed only when positive. */
  function Components(d: ScoreDetails): (cs: seq<Component>)
    ensures |cs| == 5
  {
    [ Component("Base", d.base > 0, d.base),
      Component("Species Synergy", d.species > 0.0, Round(d.species)),
      Component("Category Bonus", d.category > 0, d.category),
      Component("Biome Compatibility", d.biome > 0, d.biome),
      Component("Synergy Bonus", d.synergy > 0, d.synergy) ]
  }

  /** A number as a template literal prints it. */
  function IntToString(v: int): string {
    if v < 0 then "-" + NatToString(-v) else NatToString(v)
  }

  /** `${name}: +${value}` */
  function Render(c: Component): string {
    c.name + ": +" + IntToString(c.shown)
  }

  lemma RenderOpensWithName(c: Component)
    requires |c.name| >= 2
    ensures |Render(c)| >= 2 && Render(c)[0] == c.name[0] && Render(c)[1] == c.name[1]
  {
    assert Render(c) == c.name + (": +" + IntToString(c.shown));
  }

  /** The rendered rows that are listed, in table order. */
  function ListedLines(cs: seq<Component>): (lines: seq<string>)
    ensures |lines| <= |cs|
    ensures forall i | 0 <= i < |cs| && cs[i].listed :: Render(cs[i]) in lines
    ensures forall l | l in lines :: exists i | 0 <= i < |cs| :: cs[i].listed && l == Render(cs[i])
  {
    if cs == [] then []
    else
      var rest := ListedLines(cs[1..]);
      assert forall i | 1 <= i < |cs| :: cs[i] == cs[1..][i - 1];
      LineOf(cs[0]) + rest
  }

  /** The line one component contributes: its rendering when listed, nothing otherwise. */
  function LineOf(c: Component): seq<string> {
    if c.listed then [Render(c)] else []
  }

  /** Listing distributes over concatenation: the lines keep the components' order. */
  lemma {:induction false} ListedLinesConcat(xs: seq<Component>, ys: seq<Component>)
    ensures ListedLines(xs + ys) == ListedLines(xs) + ListedLines(ys)
  {
    if xs == [] {
      assert xs + ys == ys;
    } else {
      assert (xs + ys)[0] == xs[0] && (xs + ys)[1..] == xs[1..] + ys;
      ListedLinesConcat(xs[1..], ys);
      assert LineOf(xs[0]) + (ListedLines(xs[1..]) + ListedLines(ys))
          == (LineOf(xs[0]) + ListedLines(xs[1..])) + ListedLines(ys);
    }
  }

  /** `generateScoreBreakdown`: one line per positive component, in the fixed order. */
  function ScoreBreakdown(d: ScoreDetails): seq<string> {
    ListedLines(Components(d))
  }

  /**
   * The breakdown is the five optional lines in the fixed order Base, Species
   * Synergy, Category Bonus, Biome Compatibility, Synergy Bonus, each at most once.
   */
  lemma BreakdownInFixedOrder(d: ScoreDetails)
    ensures var cs := Components(d);
      ScoreBreakdown(d) == LineOf(cs[0]) + LineOf(cs[1]) + LineOf(cs[2]) + LineOf(cs[3]) + LineOf(cs[4])
  {
    var cs := Components(d);
    assert cs == [cs[0], cs[1], cs[2], cs[3], cs[4]];
    ListedLinesOfFive(cs[0], cs[1], cs[2], cs[3], cs[4]);
  }

  /** Five components give their lines one after another. */
  lemma ListedLinesOfFive(a: Component, b: Component, c: Component, d: Component, e: Component)
    ensures ListedLines([a, b, c, d, e]) == LineOf(a) + LineOf(b) + LineOf(c) + LineOf(d) + LineOf(e)
  {
    ListedLinesSingle(a);
    ListedLinesSingle(b);
    ListedLinesSingle(c);
    ListedLinesSingle(d);
    ListedLinesSingle(e);
    ListedLinesConcat([a, b, c, d], [e]);
    ListedLinesConcat([a, b, c], [d]);
    ListedLinesConcat([a, b], [c]);
    ListedLinesConcat([a], [b]);
    assert [a, b, c, d, e] == [a, b, c, d] + [e];
    assert [a, b, c, d] == [a, b, c] + [d];
    assert [a, b, c] == [a, b] + [c];
    assert [a, b] == [a] + [b];
  }

  lemma ListedLinesSingle(c: Component)
    ensures ListedLines([c]) == LineOf(c)
  {
    assert [c][1..] == [];
  }



  /** Different components render to different lines: their first two characters differ. */
  lemma RenderNamesComponent(d: ScoreDetails, i: nat, j: nat)
    requires i < 5 && j < 5 && i != j
    ensures Render(Components(d)[i]) != Render(Components(d)[j])
  {
    var cs := Components(d);
    RenderOpensWithName(cs[i]);
    RenderOpensWithName(cs[j]);
  }

  /** A component's line is in the breakdown exactly when that component is positive. */
  lemma BreakdownListsExactlyPositive(d: ScoreDetails, i: nat)
    requires i < 5
    ensures Render(Components(d)[i]) in ScoreBreakdown(d) <==> Components(d)[i].listed
  {
    var cs := Components(d);
    if Render(cs[i]) in ScoreBreakdown(d) {
      var j :| 0 <= j < |cs| && cs[j].listed && Render(cs[i]) == Render(cs[j]);
      if j != i {
        RenderNamesComponent(d, i, j);
      }
    }
  }

  /** With the base of 50, the breakdown opens with "Base: +50" and has at most five lines. */
  lemma BreakdownStartsWithBase(d: ScoreDetails)
    requires d.base == BaseScore
    ensures 1 <= |ScoreBreakdown(d)| <= 5 && ScoreBreakdown(d)[0] == "Base: +50"
  {
    assert NatToString(5) == "5";
    assert NatToString(50) == "50";
  }

  /** A biome component that is zero or negative (a net penalty) gets no breakdown line. */
  lemma NoBreakdownLineForBiomePenalty(d: ScoreDetails)
    requires d.biome <= 0
    ensures forall l | l in ScoreBreakdown(d) :: !StartsWith(l, "Biome")
  {
    var cs := Components(d);
    assert !cs[3].listed;
    ListedLinesSecondChar(cs, 'i');
    var lines := ScoreBreakdown(d);
    assert lines == ListedLines(cs);
    forall l | l in lines
      ensures !StartsWith(l, "Biome")
    {
      assert |l| >= 2 && l[1] != 'i';
      if |l| >= 5 {
        assert l[..5][1] == l[1];
      }
    }
  }

  /** If no listed component's name has c as its second character, no line has. */
  lemma {:induction false} ListedLinesSecondChar(cs: seq<Component>, c: char)
    requires forall i | 0 <= i < |cs| && cs[i].listed :: |cs[i].name| >= 2 && cs[i].name[1] != c
    ensures forall l | l in ListedLines(cs) :: |l| >= 2 && l[1] != c
  {
    if cs != [] {
      ListedLinesSecondChar(cs[1..], c);
      if cs[0].listed {
        RenderOpensWithName(cs[0]);
      }
    }
  }

  predicate StartsWith(s: string, prefix: string) {
    |prefix| <= |s| && s[..|prefix|] == prefix
  }

  // ---------------------------------------------------------------------------
  // The detail string

  /** Truthy and above 1: the species the detail string calls strong. */
  predicate StrongWith(b: Building, s: string) {
    match AffinityOf(b, s)
    case Some(a) => a > 1.0
    case None => false
  }

  /** `species.filter(...)`: the selected species the building is strong with, in order, duplicates kept. */
  function StrongSpecies(b: Building, species: seq<string>): (strong: seq<string>)
    ensures |strong| <= |species|
    ensures forall s :: s in strong <==> s in species && StrongWith(b, s)
  {
    if species == [] then []
    else
      var init := species[..|species| - 1];
      var last := species[|species| - 1];
      assert species == init + [last];
      StrongSpecies(b, init) + (if StrongWith(b, last) then [last] else [])
  }

  /** Filtering distributes over concatenation: the strong species keep the selection's order. */
  lemma {:induction false} StrongSpeciesConcat(b: Building, xs: seq<string>, ys: seq<string>)
    ensures StrongSpecies(b, xs + ys) == StrongSpecies(b, xs) + StrongSpecies(b, ys)
    decreases |ys|
  {
    if ys == [] {
      assert xs + ys == xs;
    } else {
      var init := ys[..|ys| - 1];
      var last := ys[|ys| - 1];
      var kept := if StrongWith(b, last) then [last] else [];
      assert (xs + ys)[..|xs + ys| - 1] == xs + init;
      assert (xs + ys)[|xs + ys| - 1] == last;
      assert StrongSpecies(b, xs + ys) == StrongSpecies(b, xs + init) + kept;
      assert StrongSpecies(b, ys) == StrongSpecies(b, init) + kept;
      StrongSpeciesConcat(b, xs, init);
      assert StrongSpecies(b, xs) + StrongSpecies(b, init) + kept
          == StrongSpecies(b, xs) + (StrongSpecies(b, init) + kept);
    }
  }

  /**
   * `keys.map(s => species[s].name)`: the display names, or `None` when a key
   * has no entry in the species table (the source's lookup then throws).
   */
  function SpeciesNames(data: GameData, keys: seq<string>): (r: Option<seq<string>>)
    ensures r.None? <==> exists s | s in keys :: s !in data.species
    ensures r.Some? ==> |r.value| == |keys|
    ensures r.Some? ==> forall i | 0 <= i < |keys| :: r.value[i] == data.species[keys[i]].name
  {
    if keys == [] then Some([])
    else if keys[0] !in data.species then None
    else
      match SpeciesNames(data, keys[1..])
      case None =>
        assert forall s | s in keys[1..] :: s in keys;
        None
      case Some(rest) =>
        assert forall s | s in keys :: s == keys[0] || s in keys[1..];
        Some([data.species[keys[0]].name] + rest)
  }

  /** One entry of the `details` array, by kind. */
  datatype Clause =
    | CategoryClause(category: string)
    | StrongWithClause(names: seq<string>)
    | ProducesClause(recipes: seq<string>)
    | GathersClause(resources: seq<string>)
    | ProvidesClause(service: string)
    | HousesClause(capacity: nat)

  /** The position of each kind of clause in the fixed order. */
  function Rank(c: Clause): nat {
    match c
    case CategoryClause(_) => 0
    case StrongWithClause(_) => 1
    case ProducesClause(_) => 2
    case GathersClause(_) => 3
    case ProvidesClause(_) => 4
    case HousesClause(_) => 5
  }

  function ClauseText(c: Clause): string {
    match c
    case CategoryClause(category) => "Category: " + category
    case StrongWithClause(names) => "Strong with: " + Join(names, ", ")
    case ProducesClause(recipes) => "Produces: " + Join(recipes, ", ")
    case GathersClause(resources) => "Gathers: " + Join(resources, ", ")
    case ProvidesClause(service) => "Provides: " + service
    case HousesClause(capacity) => "Houses: " + NatToString(capacity) + " villagers"
  }

  function ClauseTexts(clauses: seq<Clause>): (texts: seq<string>)
    ensures |texts| == |clauses|
    ensures forall i | 0 <= i < |clauses| :: texts[i] == ClauseText(clauses[i])
  {
    if clauses == [] then [] else [ClauseText(clauses[0])] + ClauseTexts(clauses[1..])
  }

  /**
   * The `details` array for a building, given the names of the selected
   * species it is strong with: the category clause first, then each optional
   * clause, in the fixed order, exactly when its field is present (and truthy).
   */
  function ClausesOf(b: Building, strongNames: seq<string>): (clauses: seq<Clause>)
    ensures 1 <= |clauses| <= 6
    ensures clauses[0] == CategoryClause(b.category)
    ensures forall i, j | 0 <= i < j < |clauses| :: Rank(clauses[i]) < Rank(clauses[j])
  {
    [CategoryClause(b.category)]
    + (if b.speciesBonus.Some? && |strongNames| > 0 then [StrongWithClause(strongNames)] else [])
    + (if b.recipes.Some? then [ProducesClause(b.recipes.value)] else [])
    + (if b.resources.Some? then [GathersClause(b.resources.value)] else [])
    + (if b.service.Some? && b.service.value != "" then [ProvidesClause(b.service.value)] else [])
    + (if b.housingCapacity.Some? && b.housingCapacity.value != 0 then [HousesClause(b.housingCapacity.value)] else [])
  }

  /**
   * The `details` array of a known building for the selected species, or
   * `None` when naming a species it is strong with fails.
   */
  function DetailClauses(data: GameData, buildingKey: string, species: seq<string>): Option<seq<Clause>>
    requires buildingKey in data.buildings
  {
    var b := data.buildings[buildingKey];
    match SpeciesNames(data, StrongSpecies(b, species))
    case None => None
    case Some(names) => Some(ClausesOf(b, names))
  }

  /** Some clause is of the kind whose position in the fixed order is k. */
  predicate HasClauseOfRank(clauses: seq<Clause>, k: nat) {
    exists i | 0 <= i < |clauses| :: Rank(clauses[i]) == k
  }

  /** Each optional clause appears exactly when its field is present (and truthy). */
  lemma ClausesOfPresence(b: Building, strongNames: seq<string>)
    ensures var clauses := ClausesOf(b, strongNames);
      && (HasClauseOfRank(clauses, 1) <==> b.speciesBonus.Some? && |strongNames| > 0)
      && (HasClauseOfRank(clauses, 2) <==> b.recipes.Some?)
      && (HasClauseOfRank(clauses, 3) <==> b.resources.Some?)
      && (HasClauseOfRank(clauses, 4) <==> b.service.Some? && b.service.value != "")
      && (HasClauseOfRank(clauses, 5) <==> b.housingCapacity.Some? && b.housingCapacity.value != 0)
  {
    var clauses := ClausesOf(b, strongNames);
    var p0 := [CategoryClause(b.category)];
    var p1 := if b.speciesBonus.Some? && |strongNames| > 0 then [StrongWithClause(strongNames)] else [];
    var p2 := if b.recipes.Some? then [ProducesClause(b.recipes.value)] else [];
    var p3 := if b.resources.Some? then [GathersClause(b.resources.value)] else [];
    var p4 := if b.service.Some? && b.service.value != "" then [ProvidesClause(b.service.value)] else [];
    var p5 := if b.housingCapacity.Some? && b.housingCapacity.value != 0
              then [HousesClause(b.housingCapacity.value)] else [];
    assert clauses == p0 + p1 + p2 + p3 + p4 + p5;
    forall k: nat | 1 <= k <= 5
      ensures HasClauseOfRank(clauses, k) <==>
        || HasClauseOfRank(p1, k) || HasClauseOfRank(p2, k)
        || HasClauseOfRank(p3, k) || HasClauseOfRank(p4, k) || HasClauseOfRank(p5, k)
    {
      HasClauseOfRankConcat(p0, p1, k);
      HasClauseOfRankConcat(p0 + p1, p2, k);
      HasClauseOfRankConcat(p0 + p1 + p2, p3, k);
      HasClauseOfRankConcat(p0 + p1 + p2 + p3, p4, k);
      HasClauseOfRankConcat(p0 + p1 + p2 + p3 + p4, p5, k);
      HasClauseOfUniformRank(p0, 0, k);
    }
    forall k: nat
      ensures HasClauseOfRank(p1, k) <==> p1 != [] && k == 1
      ensures HasClauseOfRank(p2, k) <==> p2 != [] && k == 2
      ensures HasClauseOfRank(p3, k) <==> p3 != [] && k == 3
      ensures HasClauseOfRank(p4, k) <==> p4 != [] && k == 4
      ensures HasClauseOfRank(p5, k) <==> p5 != [] && k == 5
    {
      HasClauseOfUniformRank(p1, 1, k);
      HasClauseOfUniformRank(p2, 2, k);
      HasClauseOfUniformRank(p3, 3, k);
      HasClauseOfUniformRank(p4, 4, k);
      HasClauseOfUniformRank(p5, 5, k);
    }
  }

  /** For a known building, "Strong with" appears exactly when some selected species has a multiplier above 1. */
  lemma DetailClausesPresence(data: GameData, buildingKey: string, species: seq<string>)
    requires buildingKey in data.buildings && DetailClauses(data, buildingKey, species).Some?
    ensures HasClauseOfRank(DetailClauses(data, buildingKey, species).value, 1)
        <==> exists s | s in species :: StrongWith(data.buildings[buildingKey], s)
  {
    var b := data.buildings[buildingKey];
    var strong := StrongSpecies(b, species);
    ClausesOfPresence(b, SpeciesNames(data, strong).value);
    if |strong| > 0 {
      assert strong[0] in strong;
    }
  }

  lemma HasClauseOfRankConcat(xs: seq<Clause>, ys: seq<Clause>, k: nat)
    ensures HasClauseOfRank(xs + ys, k) <==> HasClauseOfRank(xs, k) || HasClauseOfRank(ys, k)
  {
    if HasClauseOfRank(xs + ys, k) {
      var i :| 0 <= i < |xs + ys| && Rank((xs + ys)[i]) == k;
      if i >= |xs| {
        assert ys[i - |xs|] == (xs + ys)[i];
      }
    }
    if HasClauseOfRank(xs, k) {
      var i :| 0 <= i < |xs| && Rank(xs[i]) == k;
      assert (xs + ys)[i] == xs[i];
    }
    if HasClauseOfRank(ys, k) {
      var i :| 0 <= i < |ys| && Rank(ys[i]) == k;
      assert (xs + ys)[|xs| + i] == ys[i];
    }
  }

  /** A list of clauses all of one rank has a clause of rank k iff it is non-empty and k is that rank. */
  lemma HasClauseOfUniformRank(xs: seq<Clause>, rank: nat, k: nat)
    requires forall i | 0 <= i < |xs| :: Rank(xs[i]) == rank
    ensures HasClauseOfRank(xs, k) <==> xs != [] && k == rank
  {
    if xs != [] && k == rank {
      assert Rank(xs[0]) == k;
    }
  }

  /** The separator between clauses: a bullet (U+2022) with a space on each side. */
  const ClauseSeparator: string := " \U{2022} "

  /**
   * `generateScoreDetails`: the clauses joined by " \U{2022} ". An unknown
   * building key, or a species it is strong with that the species table lacks,
   * makes the source throw; both give `None`.
   */
  function ScoreDetailsText(data: GameData, buildingKey: string, species: seq<string>): (r: Option<string>)
    ensures r.None? <==>
      || buildingKey !in data.buildings
      || exists s | s in species :: StrongWith(data.buildings[buildingKey], s) && s !in data.species
  {
    if buildingKey !in data.buildings then None
    else
      match DetailClauses(data, buildingKey, species)
      case None => None
      case Some(clauses) => Some(Join(ClauseTexts(clauses), ClauseSeparator))
  }

  /** The detail string always opens with the category clause. */
  lemma DetailTextStartsWithCategory(data: GameData, buildingKey: string, species: seq<string>)
    requires ScoreDetailsText(data, buildingKey, species).Some?
    ensures StartsWith(ScoreDetailsText(data, buildingKey, species).value, "Category: " + data.buildings[buildingKey].category)
  {
    JoinStartsWithFirst(ClauseTexts(DetailClauses(data, buildingKey, species).value), ClauseSeparator);
  }

  /** Over the game's catalog, every known building has a detail string: every affinity key is a known species. */
  lemma GameDetailsDefined(buildingKey: string, species: seq<string>)
    requires buildingKey in Game.buildings
    ensures ScoreDetailsText(Game, buildingKey, species).Some?
  {
    forall s | s in species && StrongWith(Game.buildings[buildingKey], s)
      ensures s in Game.species
    {
      AffinityKeyIsSpecies(buildingKey, s);
    }
  }
}
