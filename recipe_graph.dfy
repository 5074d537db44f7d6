/**
 * The value side of the item/recipe graph of recipesDashboard.jsx: the raw
 * records handed over by the data fetch, recipes, back-references, and the
 * state of one item as a value (ItemState), with the operations of the
 * `Item` class stated on that value.
 */
module RecipeGraph {
  import opened Wrappers
  import Sorting

  datatype ActionKind = Buy | Craft

  /** The `Market Data` object; only its `Market Price` is read. */
  datatype MarketData = MarketData(marketPrice: real)

  /**
   * One ingredient of a recipe: its `Item Name`, its `Amount` per craft and,
   * in a recipe handed back by the optimizer, the `Action` chosen for it
   * (None when the entry carries no action).
   */
  datatype Ingredient = Ingredient(itemName: string, amount: real, action: Option<ActionKind>)

  /** The `Recipe` class: one way of producing `productName`. */
  datatype Recipe = Recipe(
    productName: string,
    ingredients: seq<Ingredient>,
    craftOrBuy: ActionKind,
    quantityProduced: Option<real>,
    timeToProduce: Option<real>)

  /**
   * A raw record as fetched: `_id`, `Name`, `Market Data`, the optional
   * `depth`, the `Recipe` ingredient list, `Quantity Produced`,
   * `Time to Produce`, and the `Ingredients` records (themselves records).
   */
  datatype Record = Record(
    id: string,
    name: string,
    marketData: MarketData,
    depth: Option<int>,
    recipe: seq<Ingredient>,
    quantityProduced: Option<real>,
    timeToProduce: Option<real>,
    ingredients: seq<Record>)

  /** One back-reference `{actionTaken, parentName, parentRecipeId}`. */
  datatype Use = Use(actionTaken: ActionKind, parentName: Option<string>, parentRecipeId: Option<string>)

  /** All fields of one `Item` object, as a value. */
  datatype ItemState = ItemState(
    name: string,
    marketData: MarketData,
    recipes: map<string, Recipe>,
    usedInRecipes: seq<Use>,
    activeRecipeId: Option<string>,
    depth: int)

  /** `initialItemData['depth'] || -1`: a missing or zero depth becomes -1. */
  function DefaultDepth(depth: Option<int>): int
  {
    if depth.Some? && depth.value != 0 then depth.value else -1
  }

  /** The recipe an `addRecipe` call builds from a record; its action is always "Buy". */
  function RecipeOf(record: Record): Recipe
  {
    Recipe(record.name, record.recipe, Buy, record.quantityProduced, record.timeToProduce)
  }

  /** `Item.addRecipe`: insert under `id` only when no recipe is stored there. */
  function WithRecipe(item: ItemState, id: string, recipe: Recipe): ItemState
  {
    if id !in item.recipes then item.(recipes := item.recipes[id := recipe]) else item
  }

  /** The state the `Item` constructor leaves: no recipes yet, then `addRecipe` of the record's own recipe. */
  function NewItemState(record: Record): ItemState
  {
    var blank := ItemState(record.name, record.marketData, map[], [], None, DefaultDepth(record.depth));
    WithRecipe(blank, record.id, RecipeOf(record))
  }

  /**
   * The property `parentUsedAlready` that `addUse` destructures from each
   * stored back-reference. Stored entries only have the fields
   * `actionTaken`, `parentName` and `parentRecipeId`, so it is always undefined.
   */
  function ParentUsedAlready(use: Use): Option<string>
  {
    None
  }

  /** The early-return test of `addUse`, as written: some entry's `parentUsedAlready == parentRecipeId`. */
  predicate UseGuardFires(uses: seq<Use>, parentRecipeId: Option<string>)
  {
    exists j :: 0 <= j < |uses| && ParentUsedAlready(uses[j]) == parentRecipeId
  }

  /** `Item.addUse`: return unchanged when the guard fires, else append one entry and set the active recipe. */
  function WithUse(item: ItemState, actionTaken: ActionKind, parentName: Option<string>,
                   parentRecipeId: Option<string>, activeRecipeId: Option<string>): ItemState
  {
    if UseGuardFires(item.usedInRecipes, parentRecipeId) then item
    else item.(usedInRecipes := item.usedInRecipes + [Use(actionTaken, parentName, parentRecipeId)],
               activeRecipeId := activeRecipeId)
  }

  /** `Item.selectRecipe`. */
  function WithSelection(item: ItemState, recipeId: string): ItemState
  {
    item.(activeRecipeId := Some(recipeId))
  }

  /** `Item.resetUses`. */
  function Cleared(item: ItemState): ItemState
  {
    item.(usedInRecipes := [], activeRecipeId := None)
  }

  /** An item that takes part in no active decision tree. */
  ghost predicate Clean(item: ItemState)
  {
    item.usedInRecipes == [] && item.activeRecipeId.None?
  }

  /** Dashboard `addItem` on the dictionary of item states. */
  function AddItemSpec(items: map<string, ItemState>, record: Record): map<string, ItemState>
  {
    if record.name !in items then items[record.name := NewItemState(record)]
    else items[record.name := WithRecipe(items[record.name], record.id, RecipeOf(record))]
  }

  /** The records `parseRecipes` hands to `addItem`, in order: each record followed by its ingredient records. */
  function Flatten(records: seq<Record>): seq<Record>
  {
    if records == [] then []
    else
      var last := records[|records| - 1];
      Flatten(records[..|records| - 1]) + [last] + last.ingredients
  }

  /** `addItem` applied to each record in turn. */
  function AddAll(items: map<string, ItemState>, records: seq<Record>): map<string, ItemState>
  {
    if records == [] then items
    else AddItemSpec(AddAll(items, records[..|records| - 1]), records[|records| - 1])
  }

  /** Adding one more record after `records` is one more `addItem`. */
  lemma AddAllSnoc(items: map<string, ItemState>, records: seq<Record>, record: Record)
    ensures AddAll(items, records + [record]) == AddItemSpec(AddAll(items, records), record)
  {
    assert (records + [record])[..|records|] == records;
  }

  /** The dictionary `parseRecipes` builds from the fetched records. */
  function BuildItems(records: seq<Record>): map<string, ItemState>
  {
    AddAll(map[], Flatten(records))
  }

  // ----- properties of the item operations -----

  /** addRecipe never overwrites: an existing id keeps its recipe, a new id gets the given one, other ids and fields are untouched. */
  lemma WithRecipeNeverOverwrites(item: ItemState, id: string, recipe: Recipe)
    ensures var r := WithRecipe(item, id, recipe);
      && r.recipes.Keys == item.recipes.Keys + {id}
      && r.recipes[id] == (if id in item.recipes then item.recipes[id] else recipe)
      && (forall other :: other in item.recipes && other != id ==> r.recipes[other] == item.recipes[other])
      && r.(recipes := item.recipes) == item
  {
  }

  /** A new item holds exactly the record's own recipe, no back-references, no active recipe, and the defaulted depth. */
  lemma NewItemShape(record: Record)
    ensures var r := NewItemState(record);
      && r.name == record.name && r.marketData == record.marketData
      && r.recipes == map[record.id := RecipeOf(record)]
      && Clean(r)
      && (record.depth.Some? && record.depth.value != 0 ==> r.depth == record.depth.value)
      && (record.depth.None? || record.depth.value == 0 ==> r.depth == -1)
  {
  }

  /** As written, the guard of addUse fires exactly when the parent recipe id is missing and some use is already stored. */
  lemma UseGuardAsWritten(uses: seq<Use>, parentRecipeId: Option<string>)
    ensures UseGuardFires(uses, parentRecipeId) <==> (|uses| > 0 && parentRecipeId.None?)
  {
    if |uses| > 0 && parentRecipeId.None? {
      assert ParentUsedAlready(uses[0]) == parentRecipeId;
    }
  }

  /** addUse either changes nothing or appends exactly one entry and sets the active recipe; nothing else changes. */
  lemma WithUseEffect(item: ItemState, actionTaken: ActionKind, parentName: Option<string>,
                      parentRecipeId: Option<string>, activeRecipeId: Option<string>)
    ensures var r := WithUse(item, actionTaken, parentName, parentRecipeId, activeRecipeId);
      if |item.usedInRecipes| > 0 && parentRecipeId.None? then r == item
      else
        && r.usedInRecipes == item.usedInRecipes + [Use(actionTaken, parentName, parentRecipeId)]
        && r.activeRecipeId == activeRecipeId
        && r.(usedInRecipes := item.usedInRecipes, activeRecipeId := item.activeRecipeId) == item
  {
    UseGuardAsWritten(item.usedInRecipes, parentRecipeId);
  }

  /** As written, a second use from the same parent recipe is appended again rather than skipped. */
  lemma WithUseRepeatsParent(item: ItemState, parentName: string, parentRecipeId: string)
    requires item.usedInRecipes == [Use(Craft, Some(parentName), Some(parentRecipeId))]
    ensures |WithUse(item, Craft, Some(parentName), Some(parentRecipeId), None).usedInRecipes| == 2
  {
    UseGuardAsWritten(item.usedInRecipes, Some(parentRecipeId));
  }

  /** addUse on an item with no back-references records the first one. */
  lemma FirstUse(item: ItemState, actionTaken: ActionKind, parentName: Option<string>,
                 parentRecipeId: Option<string>, activeRecipeId: Option<string>)
    requires item.usedInRecipes == []
    ensures WithUse(item, actionTaken, parentName, parentRecipeId, activeRecipeId)
         == item.(usedInRecipes := [Use(actionTaken, parentName, parentRecipeId)], activeRecipeId := activeRecipeId)
  {
    assert [] + [Use(actionTaken, parentName, parentRecipeId)] == [Use(actionTaken, parentName, parentRecipeId)];
  }

  /** addUse under a parent recipe always appends. */
  lemma UseUnderParent(item: ItemState, actionTaken: ActionKind, parentName: Option<string>,
                       parentRecipeId: string, activeRecipeId: Option<string>)
    ensures WithUse(item, actionTaken, parentName, Some(parentRecipeId), activeRecipeId)
         == item.(usedInRecipes := item.usedInRecipes + [Use(actionTaken, parentName, Some(parentRecipeId))],
                  activeRecipeId := activeRecipeId)
  {
    UseGuardAsWritten(item.usedInRecipes, Some(parentRecipeId));
  }

  /** resetUses empties the back-references and clears the selection, keeps every other field, and is idempotent. */
  lemma ClearedEffect(item: ItemState)
    ensures Clean(Cleared(item))
    ensures Cleared(item).(usedInRecipes := item.usedInRecipes, activeRecipeId := item.activeRecipeId) == item
    ensures Cleared(Cleared(item)) == Cleared(item)
  {
  }

  /** selectRecipe changes only the active recipe id. */
  lemma WithSelectionEffect(item: ItemState, recipeId: string)
    ensures WithSelection(item, recipeId).activeRecipeId == Some(recipeId)
    ensures WithSelection(item, recipeId).(activeRecipeId := item.activeRecipeId) == item
  {
  }

  /**
   * After addItem the name is present; a new item is created only for an absent name;
   * otherwise only that item's recipe map may grow; no other key changes.
   */
  lemma AddItemEffect(items: map<string, ItemState>, record: Record)
    ensures var r := AddItemSpec(items, record);
      && r.Keys == items.Keys + {record.name}
      && (forall k :: k in items && k != record.name ==> r[k] == items[k])
      && (record.name !in items ==> r[record.name] == NewItemState(record))
      && (record.name in items ==>
            && r[record.name].(recipes := items[record.name].recipes) == items[record.name]
            && items[record.name].recipes.Keys <= r[record.name].recipes.Keys
            && (forall id :: id in items[record.name].recipes ==>
                  r[record.name].recipes[id] == items[record.name].recipes[id]))
  {
  }

  /** The names of a list of records. */
  ghost function NamesOf(records: seq<Record>): set<string>
  {
    set i | 0 <= i < |records| :: records[i].name
  }

  lemma NamesOfSnoc(records: seq<Record>)
    requires records != []
    ensures NamesOf(records) == NamesOf(records[..|records| - 1]) + {records[|records| - 1].name}
  {
    var init := records[..|records| - 1];
    forall n | n in NamesOf(records) ensures n in NamesOf(init) + {records[|records| - 1].name} {
      var i :| 0 <= i < |records| && records[i].name == n;
      if i < |init| { assert init[i] == records[i]; }
    }
    forall n | n in NamesOf(init) ensures n in NamesOf(records) {
      var i :| 0 <= i < |init| && init[i].name == n;
      assert records[i] == init[i];
    }
    assert records[|records| - 1].name in NamesOf(records);
  }

  /** Adding records adds exactly their names to the dictionary. */
  lemma {:induction false} AddAllKeys(items: map<string, ItemState>, records: seq<Record>)
    ensures AddAll(items, records).Keys == items.Keys + NamesOf(records)
    decreases |records|
  {
    if records != [] {
      AddAllKeys(items, records[..|records| - 1]);
      NamesOfSnoc(records);
    }
  }

  /** Adding records to a dictionary of clean items, each stored under its own name, keeps it so. */
  lemma {:induction false} AddAllClean(items: map<string, ItemState>, records: seq<Record>)
    requires forall k :: k in items ==> Clean(items[k]) && items[k].name == k
    ensures forall k :: k in AddAll(items, records) ==> Clean(AddAll(items, records)[k]) && AddAll(items, records)[k].name == k
    decreases |records|
  {
    if records != [] {
      AddAllClean(items, records[..|records| - 1]);
    }
  }

  /** After adding records, each record's id is a recipe of the item of its name. */
  lemma {:induction false} AddAllHoldsRecipes(items: map<string, ItemState>, records: seq<Record>)
    ensures forall i :: 0 <= i < |records| ==>
              records[i].name in AddAll(items, records) && records[i].id in AddAll(items, records)[records[i].name].recipes
    decreases |records|
  {
    if records != [] {
      var init := records[..|records| - 1];
      AddAllHoldsRecipes(items, init);
      forall i | 0 <= i < |init|
        ensures records[i].name in AddAll(items, records) && records[i].id in AddAll(items, records)[records[i].name].recipes
      {
        assert init[i] == records[i];
      }
    }
  }

  /** parseRecipes leaves every item clean and stored under its own name, and adds exactly the listed names. */
  lemma BuildItemsShape(records: seq<Record>)
    ensures var r := BuildItems(records);
      && r.Keys == NamesOf(Flatten(records))
      && (forall k :: k in r ==> Clean(r[k]) && r[k].name == k)
  {
    AddAllKeys(map[], Flatten(records));
    AddAllClean(map[], Flatten(records));
  }

  // ----- key order of the dictionary -----

  /** The key order after `addItem`: a name seen for the first time goes to the end, a known name stays where it is. */
  function AddOrder(order: seq<string>, record: Record): seq<string>
  {
    if record.name in order then order else order + [record.name]
  }

  /** The key order after `addItem` for each record in turn. */
  function OrderAll(order: seq<string>, records: seq<Record>): seq<string>
  {
    if records == [] then order
    else AddOrder(OrderAll(order, records[..|records| - 1]), records[|records| - 1])
  }

  lemma OrderAllSnoc(order: seq<string>, records: seq<Record>, record: Record)
    ensures OrderAll(order, records + [record]) == AddOrder(OrderAll(order, records), record)
  {
    assert (records + [record])[..|records|] == records;
  }

  /** The key order of the dictionary `parseRecipes` builds. */
  function BuildOrder(records: seq<Record>): seq<string>
  {
    OrderAll([], Flatten(records))
  }

  /** No name is listed twice. */
  ghost predicate Distinct(order: seq<string>)
  {
    forall i, j :: 0 <= i < j < |order| ==> order[i] != order[j]
  }

  /**
   * Adding records keeps the earlier keys first and in place, lists each key
   * once, and lists exactly the earlier keys and the records' names.
   */
  lemma {:induction false} OrderAllEffect(order: seq<string>, records: seq<Record>)
    requires Distinct(order)
    ensures var r := OrderAll(order, records);
      && order <= r
      && Distinct(r)
      && (forall n :: n in r <==> n in order || n in NamesOf(records))
    decreases |records|
  {
    if records != [] {
      var init := records[..|records| - 1];
      OrderAllEffect(order, init);
      NamesOfSnoc(records);
      var before := OrderAll(order, init);
      var last := records[|records| - 1];
      if last.name !in before {
        assert OrderAll(order, records) == before + [last.name];
        assert forall i :: 0 <= i < |before| ==> before[i] != last.name;
      }
    }
  }

  /** The dictionary `parseRecipes` builds lists each of its keys once, in the order they were first added. */
  lemma BuildOrderShape(records: seq<Record>)
    ensures Distinct(BuildOrder(records))
    ensures forall n :: n in BuildOrder(records) <==> n in BuildItems(records)
  {
    OrderAllEffect([], Flatten(records));
    AddAllKeys(map[], Flatten(records));
  }

  /** A name added later than all names of `order`'s records comes after them. */
  lemma OrderAllNamesInOrder(order: seq<string>, records: seq<Record>, i: nat, j: nat)
    requires Distinct(order)
    requires i < j < |records| && records[i].name !in order && records[j].name !in order
    requires forall k :: 0 <= k < j ==> records[k].name != records[j].name
    ensures var r := OrderAll(order, records);
      exists a, b :: 0 <= a < b < |r| && r[a] == records[i].name && r[b] == records[j].name
  {
    var upToJ := records[..j];
    var before := OrderAll(order, upToJ);
    OrderAllEffect(order, upToJ);
    assert records[i].name in NamesOf(upToJ) by { assert upToJ[i] == records[i]; }
    assert records[j].name !in NamesOf(upToJ) by {
      forall k | 0 <= k < |upToJ|
        ensures upToJ[k].name != records[j].name
      {
        assert upToJ[k] == records[k];
      }
    }
    var a :| 0 <= a < |before| && before[a] == records[i].name;
    OrderAllSnoc(order, upToJ, records[j]);
    assert records[..j + 1] == upToJ + [records[j]];
    var withJ := OrderAll(order, records[..j + 1]);
    assert withJ == before + [records[j].name];
    OrderAllEffect(order, records[..j + 1]);
    OrderAllSuffix(order, records, j + 1);
    var r := OrderAll(order, records);
    assert withJ <= r;
    assert r[a] == records[i].name && r[|before|] == records[j].name;
  }

  /** The key order after all records extends the key order after a prefix of them. */
  lemma {:induction false} OrderAllSuffix(order: seq<string>, records: seq<Record>, n: nat)
    requires n <= |records|
    ensures OrderAll(order, records[..n]) <= OrderAll(order, records)
    decreases |records| - n
  {
    if n < |records| {
      OrderAllSuffix(order, records, n + 1);
      OrderAllSnoc(order, records[..n], records[n]);
      assert records[..n + 1] == records[..n] + [records[n]];
    } else {
      assert records[..n] == records;
    }
  }

  // ----- sortRecipes -----

  /** The sort key of the `sortRecipes` comparator `b.price - a.price`: ascending in it is descending in price. */
  function NegatedPrice(record: Record): real
  {
    -record.marketData.marketPrice
  }

  /** Records listed most expensive first. */
  ghost predicate PriceDescending(records: seq<Record>)
  {
    forall i, j :: 0 <= i < j < |records| ==> records[i].marketData.marketPrice >= records[j].marketData.marketPrice
  }

  /**
   * The `sortRecipes` comparator applied to one record's ingredient records: a
   * permutation, most expensive first, with records of equal price in their
   * old order, as the stable `Array.prototype.sort` leaves them.
   */
  function ByPriceDescending(ingredients: seq<Record>): (r: seq<Record>)
    ensures multiset(r) == multiset(ingredients)
    ensures PriceDescending(r)
    ensures Sorting.StableSortOf(r, ingredients, NegatedPrice)
  {
    var sorted := Sorting.SortBy(ingredients, NegatedPrice);
    Sorting.SortByIsStableSort(ingredients, NegatedPrice);
    assert forall i, j :: 0 <= i < j < |sorted| ==> NegatedPrice(sorted[i]) <= NegatedPrice(sorted[j]);
    sorted
  }

  /** `after` is `before` with its ingredient records reordered, most expensive first, equal prices in their old order. */
  ghost predicate SortedVersion(before: Record, after: Record)
  {
    && after == before.(ingredients := after.ingredients)
    && multiset(after.ingredients) == multiset(before.ingredients)
    && PriceDescending(after.ingredients)
    && Sorting.StableSortOf(after.ingredients, before.ingredients, NegatedPrice)
  }
}
