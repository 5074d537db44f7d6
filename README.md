# Recipe dashboard and profit calculator, modelled in Dafny

This project models two parts of the craft-profit web front end.

The first is the item/recipe bookkeeping of the recipes dashboard component
(`src/components/recipesDashboard.jsx`):

- the `Item` objects, each with its recipes keyed by recipe id, its back-references (`usedInRecipes`) and its active recipe;
- the dictionary `items` that `parseRecipes` builds from the fetched records with `addItem`;
- `sortRecipes`, which orders each record's ingredient records by market price;
- the selection controller: `selectRecipe`, the recursive reset (`startRecursiveReset`, `recursivelyResetItemUses`), the cascade of the optimizer's decisions (`cascadeActiveRecipeWithOptimalActions`), the choice of the best root recipe (`resetToOptimal`) and the depth ordering of `updateTables`.

The second is the static profit arithmetic of `src/helpers/ShoppingCartProfitCalculator.js`.

## Layout

| file | module | contents |
|---|---|---|
| `wrappers.dfy` | `Wrappers` | `Option`, for `null`/`undefined` |
| `recipe_graph.dfy` | `RecipeGraph` | records, recipes, uses, one item as a value (`ItemState`), the item operations on that value, `addItem`/`parseRecipes` on a dictionary of values, the price order of `sortRecipes` |
| `reset_walk.dfy` | `ResetWalk` | active-recipe edges, acyclicity as a ranking, reachability, resetting a set of items |
| `cascade_walk.dfy` | `CascadeWalk` | the optimizer's table of Buy/Craft verdicts, the cascade and the set of items it visits |
| `selection.dfy` | `Selection` | `selectRecipe` on values: reset, select, cascade |
| `action_sets.dfy` | `ActionSets` | the per-root-recipe action sets and the first-best choice of `resetToOptimal` |
| `sorting.dfy` | `Sorting` | insertion sort by a numeric key, for `Array.prototype.sort` with a subtracting comparator |
| `dashboard.dfy` | `Dashboard` | the `Item` class and the `RecipesDashboard` class |
| `profit_calculator.dfy` | `ProfitCalculator` | `TAX_PERCENTAGE`, the value-pack factor and the three profit functions |

The dashboard is imperative, so it is modelled as classes:

- `Item` keeps the fields of the JavaScript class. Its methods change them in place.
- `RecipesDashboard` holds `items` as a `map<string, Item>` of those objects. `itemOrder` lists the keys in insertion order, which is the order `Object.values` follows when no item name is integer-like: `addItem` appends a name the first time it is added (`AddOrder`), so after `parseRecipes` it is the order in which names first occur among the records and their ingredient records (`BuildOrder`).
- A ghost field `state` records the fields of every item as a value. The invariant `Valid()` ties each object to its entry in `state`.
- Every method states its effect on `state` through a value-level function in `RecipeGraph`, `ResetWalk`, `CascadeWalk` or `Selection`. The lemmas about those functions carry the properties.

The code at `recipesDashboard.jsx:233`, `249` and `305` walks ingredient lists recursively and has no cycle guard. Termination therefore rests on acyclicity, which is stated through ghost rankings:

- `rank` strictly decreases from an item to the ingredients of its active recipe (`WellRanked`);
- `arank` needs to decrease only from an item's Craft verdict to those of its ingredients that are again to be crafted (`Cascadable`). An ingredient to be bought, or with no action, ends the walk there, so the table may contain a cycle that a Buy verdict breaks (`BoughtCycleCascadable`, `BoughtCycleCascade`). The walk is measured by `Height`: one more than the item's rank for a Craft action, zero otherwise.

The optimizer (`PPHOptimizer`) is not part of this model. Its output is a parameter: a table from item name to an optional Buy and an optional Craft verdict. Each verdict carries `recipe_id`, the recipe's ingredients with their chosen actions, and its `calculateProfit` as a function of the market price.

Selecting the same recipe twice need not give the same state (`SelectTwiceDiffers`):

- The reset walks the recipes stored on the items, while the cascade walks the recipes in the optimizer's verdicts.
- An item visited by the first cascade but outside the stored active-recipe tree is therefore not reset. It keeps its first back-reference and gets a second one.
- The root item itself is never reset.

`SelectTwiceDiffers` shows this on four items: R is made from P and Y, P from Y, and Y from Z. In the optimizer's verdicts R's recipe crafts P and buys Y, P's recipe crafts Y, and Y's recipe buys Z. The first selection of R's recipe records one back-reference on Z, through P. Y ends with no active recipe, because its last use is the Buy under R. So the active-recipe tree that the second selection resets holds only P and Y. Z is not reset, and the second cascade gives it a second back-reference.

The guard of `addUse` is modelled as written. It reads a property `parentUsedAlready` that stored entries never carry, so under JavaScript's `==` it fires only for a missing parent recipe id on a non-empty list (`UseGuardAsWritten`). A repeated parent recipe is appended again (`WithUseRepeatsParent`).

## Model

| member | source | states |
|---|---|---|
| `Dashboard.Item.constructor` | src/components/recipesDashboard.jsx:15-24 | a new item has the record's name and market data, no back-references, no active recipe, the defaulted depth, and the record's own recipe added through `addRecipe` |
| `RecipeGraph.NewItemShape` | src/components/recipesDashboard.jsx:15-24 | a new item holds exactly one recipe, the record's own under its id, and is clean; its depth is the supplied depth when that is present and non-zero, else -1 |
| `Dashboard.Item.GetMarketPrice` | src/components/recipesDashboard.jsx:26-28 | the result is the item's market price |
| `Dashboard.Item.AddRecipe` | src/components/recipesDashboard.jsx:30-34 | the item's new fields are `WithRecipe` of its old fields: a Buy recipe is inserted under `id` only when no recipe is stored there |
| `RecipeGraph.WithRecipeNeverOverwrites` | src/components/recipesDashboard.jsx:30-34 | the recipe ids grow by exactly `id`; an existing recipe under `id` is kept; every other id and every other field is untouched |
| `Dashboard.Item.AddUse` | src/components/recipesDashboard.jsx:42-53 | the loop finds whether the guard fires; the new fields are `WithUse` of the old ones |
| `RecipeGraph.UseGuardAsWritten` | src/components/recipesDashboard.jsx:43-44 | the early return fires if and only if the list is non-empty and the parent recipe id is missing |
| `RecipeGraph.WithUseEffect` | src/components/recipesDashboard.jsx:42-53 | `addUse` either changes nothing, exactly when the guard fires, or appends exactly one `{actionTaken, parentName, parentRecipeId}` entry and sets the active recipe id; no other field changes |
| `RecipeGraph.WithUseRepeatsParent` | src/components/recipesDashboard.jsx:43-51 | a second use from the same parent recipe is appended again, giving two entries |
| `Dashboard.Item.SelectRecipe` | src/components/recipesDashboard.jsx:55-57 | the new fields are `WithSelection` of the old ones |
| `RecipeGraph.WithSelectionEffect` | src/components/recipesDashboard.jsx:55-57 | selecting sets the active recipe id to the given id and changes no other field |
| `Dashboard.Item.ResetUses` | src/components/recipesDashboard.jsx:59-62 | the new fields are `Cleared` of the old ones |
| `RecipeGraph.ClearedEffect` | src/components/recipesDashboard.jsx:59-62 | a reset item has no back-references and no active recipe, every other field is unchanged, and resetting twice is resetting once |
| `Dashboard.RecipesDashboard.SortRecipes` | src/components/recipesDashboard.jsx:134-143 | every record afterwards equals the record before except that its ingredient records are a permutation of the old ones, in non-increasing order of market price, with records of equal price in their old order |
| `RecipeGraph.ByPriceDescending` | src/components/recipesDashboard.jsx:137-141 | the result is a permutation of the ingredient records and lists them in non-increasing order of market price; it is the stable sort by negated price, so records of equal price keep their order |
| `Sorting.SortBy` | src/components/recipesDashboard.jsx:330-332 | the result is a permutation of the input, of the same length, in non-decreasing order of the key |
| `Sorting.SortByStable` | src/components/recipesDashboard.jsx:330-332 | the sort is stable: the elements of each key come out in the order they came in |
| `Sorting.SortByIsStableSort` | src/components/recipesDashboard.jsx:330-332 | the result is a stable sort of the input by the key: sorted, a permutation, and order-preserving within each key |
| `Sorting.StableSortUnique` | src/components/recipesDashboard.jsx:330-332 | any two stable sorts of the same sequence by the same key are equal, so a stable sort fixes the whole order |
| `Sorting.StableSortOfEqualKeys` | src/components/recipesDashboard.jsx:330-332 | when every element has the same key, the stable sort is the input itself |
| `Dashboard.RecipesDashboard.AddItem` | src/components/recipesDashboard.jsx:173-181 | the new state is `AddItemSpec` of the old one; the object graph stays valid; every key keeps its object and any other object is fresh; the key order gains the name at its end exactly when it was absent |
| `RecipeGraph.AddItemEffect` | src/components/recipesDashboard.jsx:173-181 | afterwards the record's name is present and no other key is added or changed; a new item is made exactly when the name was absent; otherwise only that item's recipe map may grow, and recipes already there are kept |
| `Dashboard.RecipesDashboard.AddRecords` | src/components/recipesDashboard.jsx:150-160 | starting from an empty dictionary, `addItem` of each record followed by each of its ingredient records gives `BuildItems` of the records, with the keys in `BuildOrder` of the records; every item is clean and a fresh object |
| `RecipeGraph.OrderAllSnoc` | src/components/recipesDashboard.jsx:154-160 | adding one more record to the key order is `AddOrder` after the earlier ones |
| `RecipeGraph.OrderAllEffect` | src/components/recipesDashboard.jsx:154-160 | adding records keeps the earlier key order as a prefix, lists no name twice, and lists exactly the earlier names and the records' names |
| `RecipeGraph.BuildOrderShape` | src/components/recipesDashboard.jsx:149-160 | the key order of the built dictionary lists every key exactly once and nothing else |
| `RecipeGraph.OrderAllNamesInOrder` | src/components/recipesDashboard.jsx:154-160 | of two names that first occur at records `i < j` and are not yet listed, the one from `i` is listed before the one from `j` |
| `RecipeGraph.OrderAllSuffix` | src/components/recipesDashboard.jsx:154-160 | the key order after a prefix of the records is a prefix of the key order after all of them |
| `RecipeGraph.AddAllKeys` | src/components/recipesDashboard.jsx:154-160 | adding records adds exactly their names to the keys |
| `RecipeGraph.AddAllClean` | src/components/recipesDashboard.jsx:154-160 | adding records keeps every item clean and stored under its own name |
| `RecipeGraph.AddAllHoldsRecipes` | src/components/recipesDashboard.jsx:154-160 | after adding records, every record's id is a recipe of the item named by that record |
| `RecipeGraph.BuildItemsShape` | src/components/recipesDashboard.jsx:149-160 | the built dictionary holds exactly the names of the records and their ingredient records, each clean and stored under its own name |
| `Selection.CleanIsWalkable` | src/components/recipesDashboard.jsx:149-164 | in a dictionary of clean items no item has an active-recipe child, so the walk is closed and the all-zero ranking is valid |
| `Selection.CleanRankedByAny` | src/components/recipesDashboard.jsx:149-164 | on a dictionary of clean items every ranking that covers the keys is valid |
| `Dashboard.RecipesDashboard.ParseRecipes` | src/components/recipesDashboard.jsx:149-166 | the new state is the built dictionary after selecting, for the root product, the recipe of the first-best action set, with that set's verdicts cascaded under that set's own ranking; the stored action sets are the optimizer's; the key order is `BuildOrder` of the records and the tables are the stable depth sort of the items in that order |
| `Dashboard.RecipesDashboard.LoadRecords` | src/components/recipesDashboard.jsx:149-163 | the state is `BuildItems` of the records with keys in `BuildOrder`, every item a fresh object, walkable and ranked by all zeros; the stored action sets are the optimizer's |
| `Selection.SelectOnClean` | src/components/recipesDashboard.jsx:163-164 | on a freshly built, clean dictionary the reset step of a selection changes nothing, so the selection is the selected item plus the cascade |
| `Dashboard.RecipesDashboard.SelectRecipe` | src/components/recipesDashboard.jsx:189-222 | the new state is `SelectSpec` under the governing actions: the precomputed set for the root product, else the supplied result for another item; afterwards the tables are the stable depth sort of the items in key order |
| `Dashboard.RecipesDashboard.ApplySelection` | src/components/recipesDashboard.jsx:193-211 | resetting the old subtree, selecting the recipe and cascading with Craft, in that order, turns the state into `SelectSpec` of the old state |
| `Selection.SelectSteps` | src/components/recipesDashboard.jsx:193-211 | `SelectSpec` is the cascade from the item with Craft, applied after the reset of the region below the item and then the selection on the item |
| `Selection.SelectOutcome` | src/components/recipesDashboard.jsx:189-211 | after a selection, uses only grow from the cleared-and-selected state; an item of the old subtree holds back-references if and only if the new cascade visits it, and is otherwise exactly cleared; items that are neither in the old subtree nor visited, nor the selected item, are unchanged; every visited item holds a back-reference |
| `Selection.SelectRootOutcome` | src/components/recipesDashboard.jsx:193-211 | with no Craft verdict the selected item is just selected; with one that does not lead back to the item, it keeps the selected recipe id unless it had no back-references, and in that case it records one parentless Craft use and takes the verdict's recipe id |
| `Dashboard.RecipesDashboard.StartRecursiveReset` | src/components/recipesDashboard.jsx:229-237 | the new state is the old one with everything reachable from the ingredients of the active recipe reset |
| `ResetWalk.StartResetShape` | src/components/recipesDashboard.jsx:229-237 | that region never contains the item itself, and the reset changes nothing when no recipe is active |
| `Dashboard.RecipesDashboard.RecursivelyResetItemUses` | src/components/recipesDashboard.jsx:244-257 | the new state is the old one with every item reachable from `name`, `name` included, reset |
| `Dashboard.RecipesDashboard.ResetIngredients` | src/components/recipesDashboard.jsx:248-253 | resetting each ingredient's subtree in turn resets the union of what the ingredients reach in the state at the start |
| `ResetWalk.ResetReachMeaning` | src/components/recipesDashboard.jsx:244-257 | every item reachable from `name` ends exactly cleared, `name` included; every other item is unchanged; no active-recipe edge leaves the reset region |
| `ResetWalk.ReachIsLeast` | src/components/recipesDashboard.jsx:244-257 | the reachable set is contained in every edge-closed set that contains `name` |
| `ResetWalk.ReachEdgeClosed` | src/components/recipesDashboard.jsx:248-253 | no active-recipe ingredient edge leaves the set reachable from `name` |
| `ResetWalk.Reach` | src/components/recipesDashboard.jsx:244-257 | the reachable set contains `name`, stays within the dictionary, and ranks no higher than `name` |
| `ResetWalk.ResetItemLast` | src/components/recipesDashboard.jsx:254-255 | resetting the item after its subtree gives the reset of everything the item reaches |
| `ResetWalk.ResetStep` | src/components/recipesDashboard.jsx:249-252 | a recursive reset after earlier subtrees were reset reaches, together with them, what it reached originally |
| `ResetWalk.ResetIngredientStep` | src/components/recipesDashboard.jsx:249-252 | one more loop iteration turns the reset of the first `i` subtrees into the reset of the first `i + 1`, keeping the dictionary walkable and ranked |
| `ResetWalk.ResetPreserves` | src/components/recipesDashboard.jsx:254 | resetting any set of items keeps every lookup of the walk valid and keeps the ranking valid |
| `ResetWalk.ResetSetTwice` | src/components/recipesDashboard.jsx:254 | two resets in a row are one reset of the union |
| `ResetWalk.ReachAfterReset` | src/components/recipesDashboard.jsx:248-253 | after resetting an edge-closed set, what an item reaches, together with that set, is what it reached before together with it |
| `Dashboard.RecipesDashboard.ResetToOptimal` | src/components/recipesDashboard.jsx:263-283 | the chosen set is the first one with the greatest root Craft profit at the root's market price; the new state is the selection of that set's recipe id for the root product, with that set's verdicts; the tables are the stable depth sort of the items in key order |
| `ActionSets.BestActionSetIndex` | src/components/recipesDashboard.jsx:266-279 | the result is None if and only if there is no set; otherwise it is the first position whose root Craft profit is greatest: at least every other profit, and strictly above every earlier one |
| `ActionSets.OppositeSetsCascadable` | src/components/recipesDashboard.jsx:263-322 | two action sets for one product, one crafting A from B and the other B from A, each with a Buy where its cycle would close, are both accepted under a ranking per set |
| `ActionSets.NoSharedRank` | src/components/recipesDashboard.jsx:293-322 | no single ranking accepts both of those sets, which is why each set is ranked on its own |
| `ActionSets.FirstBestUnique` | src/components/recipesDashboard.jsx:270-279 | there is only one first-best position, so the choice is determined by the table |
| `Dashboard.RecipesDashboard.CascadeActiveRecipeWithOptimalActions` | src/components/recipesDashboard.jsx:293-322 | the new state is `Cascade` of the old state from the current item, action and parent |
| `Dashboard.RecipesDashboard.CascadeIngredients` | src/components/recipesDashboard.jsx:305-319 | the loop cascades into each ingredient in order under the same parent, giving `CascadeEach` of the state at the start |
| `CascadeWalk.CraftBelow` | src/components/recipesDashboard.jsx:305-319 | below a Craft verdict, every ingredient to be crafted again ranks lower, so the walk of its ingredients terminates within the item's rank |
| `CascadeWalk.CascadeCases` | src/components/recipesDashboard.jsx:298-319 | with no action, nothing changes and nothing is visited; on Buy, `addUse` is applied once and only the current item is visited; on Craft, `addUse` is applied once, then each ingredient of the verdict's recipe is walked in order under the parent `{recipe_id, currentItem}` |
| `CascadeWalk.Cascade` | src/components/recipesDashboard.jsx:293-322 | a cascade changes only back-references and active recipes, and back-references only grow |
| `CascadeWalk.CascadeEachUnfold` | src/components/recipesDashboard.jsx:305-319 | the walk from ingredient `i` on is ingredient `i`'s cascade followed by the walk from `i + 1` on |
| `CascadeWalk.CascadeUntouched` | src/components/recipesDashboard.jsx:293-322 | an item the cascade does not visit is left exactly as it was |
| `CascadeWalk.CascadeEachUntouched` | src/components/recipesDashboard.jsx:305-319 | an item the ingredient walk does not visit is left exactly as it was |
| `CascadeWalk.CascadeRecordsVisited` | src/components/recipesDashboard.jsx:298-302 | every item the cascade visits ends with at least one back-reference |
| `CascadeWalk.CascadeEachRecordsVisited` | src/components/recipesDashboard.jsx:305-319 | every item the ingredient walk visits ends with at least one back-reference |
| `CascadeWalk.BoughtCycleCascadable` | src/components/recipesDashboard.jsx:298-319 | a table where A is crafted from B crafted from A bought is walkable and ranked, although its recipes form a cycle |
| `CascadeWalk.BoughtCycleCascade` | src/components/recipesDashboard.jsx:298-319 | on that table the cascade from A visits A and B and ends, recording A's Craft use and then its Buy use under B's recipe, which leaves A with no active recipe |
| `Selection.SelectTwiceDiffers` | src/components/recipesDashboard.jsx:189-257 | on the four-item example above both selections are defined, and the second leaves Z with two back-references where the first left one, so the two states differ |
| `Dashboard.RecipesDashboard.UpdateTables` | src/components/recipesDashboard.jsx:324-335 | the tables are the stable sort by depth of `Object.values(this.items)`: non-decreasing in depth, a permutation, and items of equal depth in the insertion order of their keys; they hold exactly the item objects, the unused-item ones included |
| `Dashboard.RecipesDashboard.ItemsInOrder` | src/components/recipesDashboard.jsx:326 | position `i` holds the item object stored under the `i`-th key of `itemOrder` |
| `Dashboard.LookupCovers` | src/components/recipesDashboard.jsx:326-332 | a permutation of the values listed by a key order covering the dictionary holds exactly the dictionary's values |
| `Dashboard.RecipesDashboard.ResetUsesOf` | src/components/recipesDashboard.jsx:254 | resetting the item stored under `name` changes that entry of the state to its cleared value and keeps the object graph valid |
| `Dashboard.RecipesDashboard.SelectRecipeOf` | src/components/recipesDashboard.jsx:194 | selecting on the item stored under `name` changes only that entry of the state |
| `Dashboard.RecipesDashboard.AddUseOf` | src/components/recipesDashboard.jsx:301 | `addUse` on the item stored under `name` changes only that entry of the state |
| `ProfitCalculator.CalculateProfit` | src/helpers/ShoppingCartProfitCalculator.js:18-24 | the profit is 0.65 × market price − cost, and 0.845 × market price − cost with the value pack |
| `ProfitCalculator.ProfitExamples` | src/helpers/ShoppingCartProfitCalculator.js:18-24 | 1000 and 300 give 350, and 545 with the value pack |
| `ProfitCalculator.ProfitStrictlyDecreasingInCost` | src/helpers/ShoppingCartProfitCalculator.js:19-22 | a strictly dearer cost gives strictly less profit |
| `ProfitCalculator.ProfitMonotoneInMarketPrice` | src/helpers/ShoppingCartProfitCalculator.js:19-22 | a higher market price never lowers the profit |
| `ProfitCalculator.ValuePackNeverHurts` | src/helpers/ShoppingCartProfitCalculator.js:19-20 | for a non-negative market price, enabling the value pack never lowers the profit |
| `ProfitCalculator.CalculateProfitPerSecond` | src/helpers/ShoppingCartProfitCalculator.js:26-30 | over a non-zero time the result is the integer floor of profit / time: at most the quotient and greater than the quotient minus one; over a zero time it is plus infinity, minus infinity or not-a-number exactly when the profit is positive, negative or zero |
| `ProfitCalculator.ProfitPerSecondAntitoneInCost` | src/helpers/ShoppingCartProfitCalculator.js:26-30 | over a positive time, a dearer cost never raises the rounded rate |
| `ProfitCalculator.CalculateProfitValuesForItem` | src/helpers/ShoppingCartProfitCalculator.js:6-16 | the profit and the rate are those of the first shopping-cart entry at the item's market price, whatever its time |
| `ProfitCalculator.ZeroTimeFigures` | src/helpers/ShoppingCartProfitCalculator.js:6-30 | an entry bought for 300 with no time spent, at a market price of 1000, gives a profit of 350 and an infinite rate |
| `ProfitCalculator.ProfitValuesReadOnlyFirstEntry` | src/helpers/ShoppingCartProfitCalculator.js:6-16 | two carts that agree on their first entry give the same figures |

## Left out

- `getData` (HTTP through axios), the React lifecycle, scroll events, `setState`, rendering and every `console.log` are I/O or UI and are not modelled. `ParseRecipes` receives the records. `UpdateTables` assigns the field `recipeTables` in place of `setState`.
- The optimizer is not modelled. `findOptimalActionSets` and `setRootItem`, from `PPHOptimizer` and `ShoppingCart`, are not part of this model. Their results are parameters: `optimalActionSets` of `ParseRecipes` and `rootedActions` of `SelectRecipe`.
- `ParseRecipes`: requires three things of the optimizer's action sets. Each set, under a ranking of its own (`RankFor(aranks, k)`), must pass `Cascadable`: its Craft verdicts cover the items they name, those items are among the dictionary's keys, and the sets rank their Craft-to-Craft edges strictly downward, so no cycle of Craft verdicts is unbroken (`AllCascadable`). Each set must be keyed by the recipe its root Craft verdict crafts. The list `order` must enumerate every key once (`KeyedByRootRecipe`). The optimizer, which this model does not cover, is taken to guarantee this; the same holds for `SelectRecipe`, `ApplySelection`, `ResetToOptimal`, `CascadeActiveRecipeWithOptimalActions`, `CascadeIngredients` and `Cascade`, whose walk has no cycle guard and would not end on a cycle of Craft verdicts.
- `ParseRecipes`: returns a ghost index of the chosen action set instead of `this.items`. The items are the object's field, and the returned dictionary is that same field.
- `Sorting.SortBy` models the engine's `Array.prototype.sort` as a stable sort, which the language has required since ECMAScript 2019.
- `UpdateTables`: the `filter` call's result is discarded in the code, so all items stay. The model keeps all items and does not model the filter.
- In `cascadeActiveRecipeWithOptimalActions`, the returned `items` and the default `items = {...this.items}` parameter are not modelled. Every call passes `this.items`, so the cascade always works on the shared dictionary.
- The write-back `items[item.name] = item` in `recursivelyResetItemUses` is not modelled. It stores an object under the key it already occupies, so it changes nothing.
- `startRecursiveReset` and `recursivelyResetItemUses` share one loop method, `ResetIngredients`, since their loops are the same. `AddRecords`, `ApplySelection`, `ResetUsesOf`, `SelectRecipeOf` and `AddUseOf` are parts of the source bodies split out as methods.
- `Dashboard.RecipesDashboard.Valid` does not carry that `itemOrder` lists each key exactly once. JavaScript guarantees it, and no property here depends on it.
- The order in which `for ... in` enumerates the action sets is represented by the list `order`. JavaScript's rule of enumerating integer-like keys first, in ascending numeric order, is not modelled.
- `itemOrder`, `ItemsInOrder` and `UpdateTables`: `Object.values(this.items)` is taken to list the items in insertion order. JavaScript lists integer-like keys (such as `"12"`) first, in ascending numeric order, so for item names of that form the model's order among items of equal depth differs from the code's.
- Missing keys, which give a `TypeError` in JavaScript, are excluded by preconditions. Examples are an ingredient with no item, an active recipe id with no recipe, and no action set.
- `CalculateProfitPerSecond`: an infinite or not-a-number rate is a `Rate` case of its own; `Math.floor` of one gives it back unchanged. Prices and times are real numbers without IEEE rounding.
- `CalculateProfitValuesForItem`: requires a non-empty shopping cart. The code reads the first entry, and an empty cart gives a `TypeError`.
- `SelectRootOutcome`: does not state the selected item's fields when its Craft verdict leads back to it through a bought ingredient; `BoughtCycleCascade` works that case out on an example.
- `valuePackEnabled` is a parameter of every profit function, not a mutable class field. `TAX_PERCENTAGE` is the constant 0.65 of the source.
- The `Recipe` class is the datatype `RecipeGraph.Recipe`. The code never changes a recipe after it is made, so it is a value here.
- `selectCraftOrBuy` and `printRecipes` are not modelled: the first has an empty body and the second only logs.
