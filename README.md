# Against the Storm blueprint optimizer: scoring engine model

This project models the core of a helper for the settlement-building game *Against the Storm*. The game offers the player a shortlist of building blueprints, and the helper scores and ranks them. Its inputs are a biome, up to three species and the buildings already standing. The project is written in Dafny.

- `catalog.dfy` (module `Catalog`): the static game data of biomes, species and buildings, written as constant maps. The building table is the union of its four groups, as the source lists them. A `GameData` value holds the three tables. The engine takes one as a parameter, so every engine property is stated for any catalog, and `Game` is the catalog the game ships. Each building's species-affinity map (`species_bonus`) is an ordered list of (species, multiplier) pairs, because the housing rule looks up the first qualifying key in map order. Multipliers are exact `real`s. Lemmas state what the engine relies on, first per group and then for the whole table: the category set, which optional fields each category carries, the housing shape, the affinity range, that every affinity key is a known species, and which recipe tags contain which substrings.
- `calculator.dfy` (module `Calculator`): the scoring engine. It covers the species synergy, the category bonus, the housing need curve, the production-diversity bonus, biome compatibility, the rounded total, the breakdown lines and the detail string.
  - Each rule is a function with its contract.
  - The parts the source computes with loops (the species `forEach`, the three biome passes, filling the produced-recipe `Set`) are methods. Each method is proved to compute its function.
  - `CalculateBlueprintScore` builds the five accumulators step by step, as the source does.
- `ranking.dfy` (module `Ranking`): the scoring loop and the descending sort of `calculateOptimalBlueprint`.
  - The loop gives one entry per blueprint, in input order, numbered from 1.
  - `Array.prototype.sort` is stable, so the sort is modelled as a stable insertion sort. It is proved descending, a permutation and stable, and it is shown to be the only list with those three properties.
- `selection.dfy` (module `Selection`): the species picker and `validateInputs`. The picker's state is the chosen list plus the set of ticked checkboxes. The two event handlers are class methods, each proved against a pure transition function. Lemmas show that the transitions keep at most three species and no duplicates, and keep the ticked boxes equal to the chosen list.
- `text.dfy` (module `Text`) holds the JavaScript string operations used: `includes`, `join`, and the decimal rendering in template literals. `wrappers.dfy` holds `Option`.

`Math.round(x)` is modelled as `floor(x + 0.5)`. The `details.species` accumulator is a `real`, since in the catalog it is a multiple of 7.5. The other accumulators are integers.

## Model

| member | source | states |
|---|---|---|
| Catalog.Affinity | js/data/modules/calculator.js:19-20 | `species_bonus[s]` is undefined exactly when no entry has key s; otherwise it is the value of an entry with key s |
| Catalog.CategoriesAreKnown | js/data/gameData.js:59-187 | every building's category is Production, Housing, City or ResourceAcquisition |
| Catalog.FieldsFollowCategory | js/data/gameData.js:61-186 | a building has recipes iff Production, resources iff ResourceAcquisition, a service iff City, and a housing capacity iff Housing |
| Catalog.HousingShape | js/data/gameData.js:105-134 | every Housing building has capacity > 0 and exactly one affinity entry, of value 2.0 |
| Catalog.AffinityMapsWellFormed | js/data/gameData.js:65-185 | every building has an affinity map; its keys are known species, listed once, and its values lie in [0.5, 2.0] in steps of 0.25 |
| Catalog.AffinityKeyIsSpecies | js/data/gameData.js:31-57 | a species key with a truthy affinity entry on a known building is in the species table, so its name lookup succeeds |
| Catalog.BiomesHaveBonusesAndPenalties | js/data/gameData.js:3-29 | every biome has a non-empty bonus list and a non-empty penalty list |
| Catalog.RecipeTagSubstrings | js/data/gameData.js:64-100 | no recipe tag contains "wood", "food" or "stone"; only "meat" contains "meat" |
| Catalog.RecipeTagsMentions | js/data/gameData.js:61-102 | no recipe of a catalog building mentions wood, food or stone; the only one mentioning meat is the butcher's "meat" |
| Catalog.BuildingsShaped | js/data/gameData.js:59-187 | every building table entry has a known category, exactly that category's optional fields, a listed affinity map, the housing shape, and recipes from the tag list with "meat" only at the butcher |
| Catalog.QuarterStepsInRange | js/data/gameData.js:65-185 | each listed multiplier 0.5, 0.75, ..., 2.0 lies in [0.5, 2.0] and is a whole number of quarters |
| Catalog.ButcherRecipes | js/data/gameData.js:91-96 | the butcher makes meat and leather |
| Catalog.LumberMillEntry | js/data/gameData.js:67-72 | the table's lumber_mill key holds `LumberMill`: Production, recipe planks, affinities beavers 1.5, humans 1.0, lizards 0.5 |
| Catalog.HumanHouseEntry | js/data/gameData.js:105-110 | the table's human_house key holds `HumanHouse`: Housing, affinity humans 2.0, capacity 4 |
| Catalog.MeatProductionOnlyInCoralForest | js/data/gameData.js:3-29 | among the biomes, exactly the Coral Forest lists meat production as a bonus |
| Text.NatToStringRoundTrip | js/data/modules/calculator.js:163 | the decimal rendering of a number reads back as that number |
| Text.JoinLength | js/data/modules/calculator.js:201 | joining n parts inserts exactly n - 1 separators |
| Calculator.Round | js/data/modules/calculator.js:59 | the total is the integer nearest the score, with halves rounded up |
| Calculator.SpeciesSynergyAppend | js/data/modules/calculator.js:17-25 | the species component is a sum over the selection list, in order and with duplicates counted |
| Calculator.SpeciesSynergyWithoutMap | js/data/modules/calculator.js:17 | a building with no affinity map has species component 0 |
| Calculator.SpeciesSynergyMonotone | js/data/modules/calculator.js:18-23 | if each selected species' term is no larger on one building, that building's species component is no larger |
| Calculator.RaisingAffinityNeverLowersSynergy | js/data/modules/calculator.js:19-20 | raising a positive multiplier never lowers the species component |
| Calculator.FirstFavoured | js/data/modules/calculator.js:70-72 | finds the first entry, in map order, with multiplier > 1.5 whose species is selected; None iff there is none |
| Calculator.HousingCount | js/data/modules/calculator.js:76-82 | the number of current buildings that are Housing with an entry > 1.5 for the species; at most the list length |
| Calculator.HousingCountAppend | js/data/modules/calculator.js:76-82 | the count of existing housing is additive over the current-buildings list |
| Calculator.HousingNeed | js/data/modules/calculator.js:65-89 | the housing bonus lies in [15, 35]; it is 20 iff the building has no map, no selected species is favoured, or the first favoured key is the empty string, which the truthiness test treats as none |
| Calculator.HousingNeedCurve | js/data/modules/calculator.js:74-88 | with a first favoured key that is not empty the bonus is 35, 25, then 15 from two existing houses on; with an empty key it is 20 |
| Calculator.HousingNeedNeverGrows | js/data/modules/calculator.js:76-85 | building more never raises the housing bonus |
| Calculator.ProducedRecipesMembership | js/data/modules/calculator.js:94-100 | a tag is in the produced set iff some current known building lists it as a recipe |
| Calculator.NewRecipes | js/data/modules/calculator.js:103 | the kept tags are exactly the candidate's tags absent from the produced set; no more than the candidate has |
| Calculator.NewRecipesMultiplicity | js/data/modules/calculator.js:103 | a tag not yet produced is kept as often as the candidate lists it, and a produced tag is never kept |
| Calculator.NewRecipesConcat | js/data/modules/calculator.js:103 | filtering distributes over concatenation, so the kept tags stay in the candidate's order |
| Calculator.ProductionDiversity | js/data/modules/calculator.js:91-105 | 0 without recipes; otherwise exactly 8 for each candidate tag not in the produced set, counted as often as it is listed; so at most 8 per recipe, and 0 iff every recipe is already produced |
| Calculator.DiversityOfAllNewRecipes | js/data/modules/calculator.js:102-104 | when no recipe is produced yet, the bonus is exactly 8 per recipe |
| Calculator.CalculateProductionDiversity | js/data/modules/calculator.js:91-105 | the set-filling loop returns the production-diversity bonus |
| Calculator.TagScore | js/data/modules/calculator.js:116-154 | one tag adds at most 45 in the recipe pass and at most 20 in the resource and scarcity passes |
| Calculator.PassTotalOfUnmatchedTags | js/data/modules/calculator.js:116-154 | a pass over tags none of which match contributes 0 |
| Calculator.UnmatchedRecipesScoreZero | js/data/modules/calculator.js:113-155 | a Production building none of whose recipes mentions wood, meat, food or stone has biome component 0 in every biome |
| Calculator.ButcherRecipesScore | js/data/modules/calculator.js:113-155 | recipes meat and leather give +15 exactly in a known biome with meat production, and 0 otherwise |
| Calculator.BiomeCompatibility | js/data/modules/calculator.js:107-158 | 0 for an unknown biome and for City/Housing; bounded by -20 and +45 per recipe for Production; between 0 and 20 per resource for ResourceAcquisition |
| Calculator.CalculateBiomeCompatibility | js/data/modules/calculator.js:107-158 | the three accumulation passes return the biome component |
| Calculator.ProductionBiomeScoresOnlyButcherInCoralForest | js/data/modules/calculator.js:113-155 | over the catalog, a Production building's biome component is +15 for the butcher in Coral Forest and 0 otherwise |
| Calculator.CategoryBonus | js/data/modules/calculator.js:27-51 | exactly one branch: Housing is exactly the housing need, Production is 25 iff the key is not already built, City is 15, ResourceAcquisition is 20, and any other category is 0 |
| Calculator.Synergy | js/data/modules/calculator.js:39-42 | the synergy component is exactly the production-diversity bonus for a Production building, and 0 for every other category |
| Calculator.Score | js/data/modules/calculator.js:3-62 | no result for an unknown key; otherwise the details are base 50 and that building's species, category, biome and synergy components, the total rounds their sum half up, and the breakdown is derived from those components |
| Calculator.CalculateBlueprintScore | js/data/modules/calculator.js:3-62 | adding the components step by step gives exactly the score |
| Calculator.LumberMillDetails | js/data/modules/calculator.js:7-51 | any catalog holding the lumber mill and the woodlands as the game does gives components 50, 15, 25, 0, 8 for beavers with nothing built |
| Calculator.LumberMillScore | js/data/modules/calculator.js:7-62 | any catalog holding the lumber mill and the woodlands as the game does gives components 50, 15, 25, 0, 8 and total 98 for beavers with nothing built |
| Calculator.LumberMillScores98 | js/data/modules/calculator.js:7-62 | lumber_mill, Cursed Royal Woodlands, beavers, nothing built: components 50, 15, 25, 0, 8 and total 98 |
| Calculator.HumanHouseDetails | js/data/modules/calculator.js:7-51 | any catalog holding the human house as the game does gives components 50, 30, 35, 0, 0 for humans with nothing built, in any biome |
| Calculator.HumanHouseScore | js/data/modules/calculator.js:7-62 | any catalog holding the human house as the game does gives components 50, 30, 35, 0, 0 and total 115 for humans with nothing built, in any biome |
| Calculator.HumanHouseScores115 | js/data/modules/calculator.js:7-62 | human_house with humans, nothing built: components 50, 30, 35, 0, 0 and total 115 |
| Calculator.ListedLines | js/data/modules/calculator.js:160-170 | the breakdown holds a rendered line for each listed component, and nothing else |
| Calculator.ListedLinesConcat | js/data/modules/calculator.js:160-170 | listing distributes over concatenation, so the lines keep the order of their components |
| Calculator.BreakdownInFixedOrder | js/data/modules/calculator.js:163-167 | the breakdown is the Base, Species, Category, Biome and Synergy lines in that fixed order, each present once iff its component is listed |
| Calculator.BreakdownListsExactlyPositive | js/data/modules/calculator.js:163-167 | a component's line appears iff that component is positive |
| Calculator.BreakdownStartsWithBase | js/data/modules/calculator.js:163 | with base 50, the breakdown opens with "Base: +50" and has one to five lines |
| Calculator.NoBreakdownLineForBiomePenalty | js/data/modules/calculator.js:166 | a zero or negative biome component produces no "Biome" line |
| Calculator.StrongSpecies | js/data/modules/calculator.js:179 | keeps the selected species with a truthy multiplier above 1, in order, duplicates kept |
| Calculator.StrongSpeciesConcat | js/data/modules/calculator.js:179 | filtering distributes over concatenation, so the strong species keep the selection order |
| Calculator.ClausesOf | js/data/modules/calculator.js:174-199 | the category clause comes first, then the optional clauses in their fixed order |
| Calculator.ClausesOfPresence | js/data/modules/calculator.js:178-199 | each optional clause appears iff its field is present and truthy |
| Calculator.DetailClausesPresence | js/data/modules/calculator.js:178-183 | "Strong with" appears iff some selected species has a multiplier above 1 |
| Calculator.SpeciesNames | js/data/modules/calculator.js:181 | the names of the given species keys in order; fails iff some key is not in the species table, where the source's name lookup throws |
| Calculator.ScoreDetailsText | js/data/modules/calculator.js:172-202 | no detail string iff the key is unknown or some strong species is missing from the species table, the two lookups that throw in the source |
| Calculator.GameDetailsDefined | js/data/modules/calculator.js:172-202 | over the game's catalog, every known key has a detail string |
| Calculator.DetailTextStartsWithCategory | js/data/modules/calculator.js:176 | the detail string starts with "Category: " and the category |
| Ranking.ScoreEntry | js/main.js:58-67 | one loop pass: fails iff the blueprint's detail string throws, and otherwise gives that blueprint's entry |
| Ranking.ScoreBlueprints | js/main.js:55-70 | one entry per blueprint, in input order, each depending only on its own key and the shared context; fails iff some detail string throws |
| Ranking.GameDescribesKnownKeys | js/main.js:55-70 | over the game's catalog, the scoring loop fails iff some blueprint key is unknown |
| Ranking.SortByTotalDescending | js/main.js:73 | after the sort, totals never increase along the list |
| Ranking.SortByTotal | js/main.js:73 | the sorted list is a permutation of the input |
| Ranking.SortByTotalStable | js/main.js:73 | entries with equal totals keep their input order |
| Ranking.SortKeepsAll | js/main.js:73 | a property every input entry has, every sorted entry has |
| Ranking.StableSortIsUnique | js/main.js:73 | any stable descending permutation of the entries equals the model's sort |
| Ranking.Winner | js/main.js:80 | element 0 of a non-empty ranking has a total at least every other entry's |
| Ranking.RankBlueprints | js/main.js:55-81 | the ranking is descending and stable, and holds exactly the scored entries; fails iff some detail string throws |
| Selection.Without | js/ui.js:85 | `filter(s => s !== species)` keeps exactly the other elements and never grows the list |
| Selection.WithoutConcat | js/ui.js:119 | filtering distributes over concatenation, so the kept elements stay in order |
| Selection.OnItemClick | js/ui.js:81-94 | a ticked species is removed entirely; an unticked one is appended when fewer than 3 are chosen; with 3 chosen nothing changes; never more than 3 |
| Selection.OnCheckboxChange | js/ui.js:106-120 | unticking removes the species from the list and the ticked set; ticking with fewer than 3 chosen, or a species already chosen, ticks it and appends it unless already chosen; a fourth species is refused and nothing changes; never more than 3 and never a duplicate |
| Selection.UntickKeepsOthersInOrder | js/ui.js:81-85 | in a consistent picker, unticking a chosen species by either handler leaves exactly the other species in their order |
| Selection.ItemClickKeepsConsistent | js/ui.js:81-94 | a click keeps the ticked boxes equal to the chosen list, without duplicates and at most 3 |
| Selection.CheckboxChangeKeepsConsistent | js/ui.js:106-120 | a checkbox change keeps the same consistency |
| Selection.ItemClickRemovesOnlyIt | js/ui.js:81-85 | unselecting removes only that species; the rest keep their order |
| Selection.SpeciesPicker.constructor | js/ui.js:3 | the picker starts with nothing chosen |
| Selection.SpeciesPicker.ItemClick | js/ui.js:74-97 | the click handler performs the click transition and keeps the picker consistent |
| Selection.SpeciesPicker.CheckboxChange | js/ui.js:102-123 | the change handler performs the checkbox transition and keeps the picker consistent |
| Selection.InputProblem | js/ui.js:278-300 | reports the first failing check: no biome, then a species count other than 3, then an unset blueprint, then a repeated blueprint |
| Selection.ValidateInputs | js/ui.js:272-303 | true iff a biome is set, exactly 3 species are chosen, and the three blueprints are set and pairwise distinct |

## Left out

- All DOM work: filling the lists and selects, the species display, the current-buildings reader, the message toasts, result rendering (HTML, emoji, colour thresholds, scrolling), the reset button and app start-up. These are presentation. The `selected` CSS class that mirrors each checkbox is left out too.
- The `setTimeout` delays, `console.log`, the keyboard shortcuts and the `window.ATS` export. These are host and timing glue.
- The try/catch error toasts in `calculateOptimalBlueprint`. A thrown error shows up only as a `None` ranking. That happens when a detail lookup throws: for an unknown blueprint key or, in a catalog other than the game's, for a strong species missing from the species table.
- Calculator.Score: an unknown building key gives `None`, where the source returns the bare number `0` instead of a result object.
- Ranking.RankBlueprints: takes a list of any length, where the page always passes exactly three blueprints. For an empty list it returns an empty ranking. On the page, reading the missing winner would throw.
- Ranking.SortByTotal: models the comparator sort by its result, a stable insertion sort on values. The in-place reordering of the JavaScript array is not modelled. `StableSortIsUnique` shows that any stable sort gives the same list.
- Floating point: multipliers are exact quarters and are modelled as `real`s, so IEEE double rounding is not modelled.
- Calculator.FirstFavoured: scans the affinity entries in the order the catalog writes them. `Object.keys` lists integer-like keys (such as "0" or "12") first, in ascending numeric order, and this reordering is not modelled. No species key in the catalog is integer-like.
- Object keys that JavaScript objects inherit from their prototype (such as `toString`) are not modelled as catalog keys.

## Notes on the source

- The production-diversity bonus collects the recipes of every current building that has a recipe list, without checking its category. The code is followed here. In the catalog only Production buildings have recipes (`Catalog.FieldsFollowCategory`), so this gives the same result as collecting from Production buildings only.
- An affinity entry of exactly 0 is falsy in JavaScript and counts as missing in the species sum. So `RaisingAffinityNeverLowersSynergy` needs a positive starting multiplier. The catalog has no such entry.
- The housing rule tests the found key for truthiness. An empty-string species key is falsy in JavaScript, so a building whose first favoured key is `""` gets the generic 20. The model follows this in `HousingNeed`; the catalog has no such key.
