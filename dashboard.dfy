/**
 * The `Item` objects and the `RecipesDashboard` component's item bookkeeping:
 * the dictionary `items` of mutable `Item` objects, the action sets from the
 * optimizer, and the list of tables to display. Each method is proved against
 * the value-level specification in RecipeGraph, ResetWalk, CascadeWalk,
 * Selection and ActionSets, through the ghost field `state` that records the
 * fields of every item as a value.
 */
module Dashboard {
  import opened Wrappers
  import opened RecipeGraph
  import opened ResetWalk
  import opened CascadeWalk
  import opened Selection
  import opened ActionSets
  import Sorting

  /** An item of the recipe tree, with its recipes and its back-references. */
  class Item {
    const name: string
    const marketData: MarketData
    var recipes: map<string, Recipe>
    var usedInRecipes: seq<Use>
    var activeRecipeId: Option<string>
    const depth: int

    /** All fields as a value. */
    function View(): ItemState
      reads this
    {
      ItemState(name, marketData, recipes, usedInRecipes, activeRecipeId, depth)
    }

    constructor (initialItemData: Record)
      ensures View() == NewItemState(initialItemData)
    {
      name := initialItemData.name;
      marketData := initialItemData.marketData;
      recipes := map[];
      usedInRecipes := [];
      activeRecipeId := None;
      depth := DefaultDepth(initialItemData.depth);
      new;
      AddRecipe(initialItemData.id, initialItemData.name, initialItemData.recipe,
                initialItemData.quantityProduced, initialItemData.timeToProduce);
    }

    function GetMarketPrice(): (price: real)
      ensures price == View().marketData.marketPrice
    {
      marketData.marketPrice
    }

    method AddRecipe(id: string, productName: string, recipe: seq<Ingredient>,
                     quantityProduced: Option<real>, timeToProduce: Option<real>)
      modifies this`recipes
      ensures View() == WithRecipe(old(View()), id, Recipe(productName, recipe, Buy, quantityProduced, timeToProduce))
    {
      if id !in recipes {
        recipes := recipes[id := Recipe(productName, recipe, Buy, quantityProduced, timeToProduce)];
      }
    }

    method AddUse(actionTaken: ActionKind, parentName: Option<string>, parentRecipeId: Option<string>,
                  activeRecipeId: Option<string>)
      modifies this`usedInRecipes, this`activeRecipeId
      ensures View() == WithUse(old(View()), actionTaken, parentName, parentRecipeId, activeRecipeId)
    {
      for i := 0 to |usedInRecipes|
        invariant forall j :: 0 <= j < i ==> ParentUsedAlready(usedInRecipes[j]) != parentRecipeId
      {
        if ParentUsedAlready(usedInRecipes[i]) == parentRecipeId {
          return;
        }
      }
      usedInRecipes := usedInRecipes + [Use(actionTaken, parentName, parentRecipeId)];
      this.activeRecipeId := activeRecipeId;
    }

    method SelectRecipe(recipeId: string)
      modifies this`activeRecipeId
      ensures View() == WithSelection(old(View()), recipeId)
    {
      activeRecipeId := Some(recipeId);
    }

    method ResetUses()
      modifies this`usedInRecipes, this`activeRecipeId
      ensures View() == Cleared(old(View()))
    {
      usedInRecipes := [];
      activeRecipeId := None;
    }
  }

  /** The sort key of `updateTables`: `a.depth - b.depth`. */
  function DepthKey(item: Item): real
  {
    item.depth as real
  }

  /** The objects of `m` listed in the order of `order` (for `Object.values`). */
  function Lookup(m: map<string, Item>, order: seq<string>): (r: seq<Item>)
    requires forall k :: k in order ==> k in m
    ensures |r| == |order| && forall i :: 0 <= i < |order| ==> r[i] == m[order[i]]
  {
    seq(|order|, i requires 0 <= i < |order| => m[order[i]])
  }

  /** The optimal actions `selectRecipe` cascades: the precomputed set for the root, else `setRootItem`'s answer. */
  function GoverningActions(product: string, sets: ActionSets, itemName: string, recipeId: string,
                            rootedActions: Actions): Actions
    requires itemName == product ==> recipeId in sets.sets
  {
    if itemName == product then sets.sets[recipeId].optimalActions else rootedActions
  }

  /** A permutation of the objects listed by a key order that covers `m` holds exactly the values of `m`. */
  lemma LookupCovers(m: map<string, Item>, order: seq<string>, tables: seq<Item>)
    requires forall k :: k in m <==> k in order
    requires multiset(tables) == multiset(Lookup(m, order))
    ensures forall x :: x in tables <==> x in m.Values
  {
    var listed := Lookup(m, order);
    forall x | x in m.Values
      ensures x in tables
    {
      var k :| k in m && m[k] == x;
      var j :| 0 <= j < |order| && order[j] == k;
      assert listed[j] == x;
      assert x in multiset(listed);
    }
    forall x | x in tables
      ensures x in m.Values
    {
      assert x in multiset(listed);
      var j :| 0 <= j < |listed| && listed[j] == x;
      assert order[j] in m;
    }
  }

  lemma SliceSnoc<T>(front: seq<T>, s: seq<T>, j: nat)
    requires j < |s|
    ensures front + s[..j + 1] == front + s[..j] + [s[j]]
  {
    assert s[..j + 1] == s[..j] + [s[j]];
  }

  lemma SliceEmpty<T>(front: seq<T>, s: seq<T>)
    ensures front + s[..0] == front
  {
    assert s[..0] == [];
  }

  class RecipesDashboard {
    /** `this.props.product`: the root product. */
    const product: string
    /** `this.items`: item name to `Item` object. */
    var items: map<string, Item>
    /** The keys of `items` in insertion order, which `Object.values` follows for keys that are not integer-like. */
    var itemOrder: seq<string>
    var allOptimalActionSets: ActionSets
    /** `state.recipeTables`. */
    var recipeTables: seq<Item>
    /** The fields of every item, as a dictionary of values. */
    ghost var state: Items

    /**
     * Every item is stored under its own name and its fields are recorded in
     * `state`; `itemOrder` lists every key.
     */
    ghost predicate Valid()
      reads this, items.Values
    {
      && state.Keys == items.Keys
      && (forall k :: k in items ==> items[k].name == k && items[k].View() == state[k])
      && (forall k :: k in items <==> k in itemOrder)
    }

    /** A change to the fields of the item `name` alone, recorded in `state`, keeps the object graph valid. */
    twostate lemma ItemUpdated(name: string)
      requires old(Valid()) && name in items
      requires items == old(items) && itemOrder == old(itemOrder)
      requires state == old(state)[name := items[name].View()]
      requires forall k :: k in items && k != name ==> unchanged(items[k])
      ensures Valid()
    {
      forall k | k in items && k != name
        ensures items[k].View() == state[k]
      {
        assert unchanged(items[k]);
      }
    }

    /** `item.resetUses()` on the item stored under `name`. */
    method ResetUsesOf(name: string)
      requires Valid() && name in state
      modifies this`state, items.Values
      ensures Valid() && state == old(state)[name := Cleared(old(state)[name])]
    {
      var item := items[name];
      label BeforeReset:
      item.ResetUses();
      state := state[name := item.View()];
      ItemUpdated@BeforeReset(name);
    }

    /** `item.selectRecipe(recipeId)` on the item stored under `name`. */
    method SelectRecipeOf(name: string, recipeId: string)
      requires Valid() && name in state
      modifies this`state, items.Values
      ensures Valid() && state == old(state)[name := WithSelection(old(state)[name], recipeId)]
    {
      var item := items[name];
      label BeforeSelect:
      item.SelectRecipe(recipeId);
      state := state[name := item.View()];
      ItemUpdated@BeforeSelect(name);
    }

    /** `item.addUse(...)` on the item stored under `name`. */
    method AddUseOf(name: string, actionTaken: ActionKind, parentName: Option<string>,
                    parentRecipeId: Option<string>, activeRecipeId: Option<string>)
      requires Valid() && name in state
      modifies this`state, items.Values
      ensures Valid()
      ensures state == old(state)[name := WithUse(old(state)[name], actionTaken, parentName, parentRecipeId, activeRecipeId)]
    {
      var item := items[name];
      label BeforeUse:
      item.AddUse(actionTaken, parentName, parentRecipeId, activeRecipeId);
      state := state[name := item.View()];
      ItemUpdated@BeforeUse(name);
    }

    /** `Object.values(this.items)`. */
    function ItemsInOrder(): (r: seq<Item>)
      reads this, items.Values
      requires Valid()
      ensures |r| == |itemOrder| && forall i :: 0 <= i < |itemOrder| ==> r[i] == items[itemOrder[i]]
    {
      Lookup(items, itemOrder)
    }

    constructor (product: string)
      ensures Valid() && this.product == product
      ensures items == map[] && itemOrder == [] && recipeTables == [] && state == map[]
      ensures allOptimalActionSets == ActionSets([], map[])
    {
      this.product := product;
      items := map[];
      itemOrder := [];
      allOptimalActionSets := ActionSets([], map[]);
      recipeTables := [];
      state := map[];
    }

    /** Each record's ingredient records, most expensive first. */
    method SortRecipes(recipes: array<Record>)
      modifies recipes
      ensures forall i :: 0 <= i < recipes.Length ==> SortedVersion(old(recipes[i]), recipes[i])
    {
      for i := 0 to recipes.Length
        invariant forall j :: 0 <= j < i ==> SortedVersion(old(recipes[j]), recipes[j])
        invariant forall j :: i <= j < recipes.Length ==> recipes[j] == old(recipes[j])
      {
        var sorted := ByPriceDescending(recipes[i].ingredients);
        recipes[i] := recipes[i].(ingredients := sorted);
      }
    }

    method AddItem(item: Record)
      requires Valid()
      modifies this`items, this`itemOrder, this`state, items.Values
      ensures Valid()
      ensures state == AddItemSpec(old(state), item)
      ensures itemOrder == AddOrder(old(itemOrder), item)
      ensures forall k :: k in old(items) ==> k in items && items[k] == old(items[k])
      ensures forall k :: k in items ==> (k in old(items) && items[k] == old(items[k])) || fresh(items[k])
    {
      if item.name !in items {
        var created := new Item(item);
        items := items[item.name := created];
        itemOrder := itemOrder + [item.name];
        state := state[item.name := created.View()];
      } else {
        var existing := items[item.name];
        label BeforeAdd:
        existing.AddRecipe(item.id, item.name, item.recipe, item.quantityProduced, item.timeToProduce);
        state := state[item.name := existing.View()];
        ItemUpdated@BeforeAdd(item.name);
      }
    }

    /** The loops of `parseRecipes`: `addItem` for each record and then for each of its ingredient records. */
    method AddRecords(recipes: seq<Record>)
      modifies this`items, this`itemOrder, this`state
      ensures Valid() && state == BuildItems(recipes) && itemOrder == BuildOrder(recipes)
      ensures forall k :: k in state ==> Clean(state[k])
      ensures forall k :: k in items ==> fresh(items[k])
    {
      items := map[];
      itemOrder := [];
      state := map[];
      for i := 0 to |recipes|
        invariant Valid() && state == AddAll(map[], Flatten(recipes[..i]))
        invariant itemOrder == OrderAll([], Flatten(recipes[..i]))
        invariant forall k :: k in items ==> fresh(items[k])
      {
        assert Flatten(recipes[..i + 1]) == Flatten(recipes[..i]) + [recipes[i]] + recipes[i].ingredients by {
          assert recipes[..i + 1][..i] == recipes[..i];
        }
        ghost var done := Flatten(recipes[..i]);
        AddItem(recipes[i]);
        AddAllSnoc(map[], done, recipes[i]);
        OrderAllSnoc([], done, recipes[i]);
        var ingredients := recipes[i].ingredients;
        SliceEmpty(done + [recipes[i]], ingredients);
        for j := 0 to |ingredients|
          invariant Valid() && state == AddAll(map[], done + [recipes[i]] + ingredients[..j])
          invariant itemOrder == OrderAll([], done + [recipes[i]] + ingredients[..j])
          invariant forall k :: k in items ==> fresh(items[k])
        {
          ghost var prefix := done + [recipes[i]] + ingredients[..j];
          AddItem(ingredients[j]);
          AddAllSnoc(map[], prefix, ingredients[j]);
          OrderAllSnoc([], prefix, ingredients[j]);
          SliceSnoc(done + [recipes[i]], ingredients, j);
        }
        assert ingredients[..|ingredients|] == ingredients;
      }
      assert recipes[..|recipes|] == recipes;
      BuildItemsShape(recipes);
    }

    /** Builds `items` from the fetched records, then selects the optimal root recipe. */
    method ParseRecipes(recipes: seq<Record>, optimalActionSets: ActionSets, ghost aranks: map<string, map<string, nat>>)
      returns (ghost chosen: nat)
      requires product in BuildItems(recipes)
      requires |optimalActionSets.order| > 0 && KeyedByRootRecipe(optimalActionSets, product)
      requires AllCascadable(optimalActionSets, BuildItems(recipes).Keys, product, aranks)
      modifies this
      ensures Valid() && allOptimalActionSets == optimalActionSets
      ensures itemOrder == BuildOrder(recipes)
      ensures Sorting.StableSortOf(recipeTables, ItemsInOrder(), DepthKey)
      ensures var built := BuildItems(recipes);
        && IsFirstBest(optimalActionSets, product, built[product].marketData.marketPrice, chosen)
        && Closed(built) && WellRanked(built, ZeroRank(built))
        && var key := optimalActionSets.order[chosen];
        && Cascadable(optimalActionSets.sets[key].optimalActions, built.Keys, product, RankFor(aranks, key))
        && state == SelectSpec(built, ZeroRank(built), product, key, optimalActionSets.sets[key].optimalActions, RankFor(aranks, key))
    {
      LoadRecords(recipes, optimalActionSets);
      chosen := ResetToOptimal(ZeroRank(state), aranks);
    }

    /** The part of `parseRecipes` before `resetToOptimal`: the items built from the records and the stored action sets. */
    method LoadRecords(recipes: seq<Record>, optimalActionSets: ActionSets)
      modifies this`items, this`itemOrder, this`state, this`allOptimalActionSets
      ensures Valid() && allOptimalActionSets == optimalActionSets
      ensures state == BuildItems(recipes) && itemOrder == BuildOrder(recipes)
      ensures Closed(state) && WellRanked(state, ZeroRank(state))
      ensures forall k :: k in items ==> fresh(items[k])
    {
      AddRecords(recipes);
      allOptimalActionSets := optimalActionSets;
      CleanIsWalkable(state);
    }

    /**
     * The user picks `recipeId` for `itemName`. `rootedActions` stands for the
     * optimizer's `setRootItem(itemName, items, recipeId)`, used for a non-root item.
     */
    method SelectRecipe(itemName: string, recipeId: string, rootedActions: Actions,
                        ghost rank: map<string, nat>, ghost arank: map<string, nat>)
      requires Valid() && itemName in state && Closed(state) && WellRanked(state, rank)
      requires itemName == product ==> recipeId in allOptimalActionSets.sets
      requires Cascadable(GoverningActions(product, allOptimalActionSets, itemName, recipeId, rootedActions),
                          state.Keys, itemName, arank)
      modifies this`state, this`recipeTables, items.Values
      ensures Valid()
      ensures state == old(SelectSpec(state, rank, itemName, recipeId,
                                      GoverningActions(product, allOptimalActionSets, itemName, recipeId, rootedActions), arank))
      ensures multiset(recipeTables) == multiset(ItemsInOrder())
      ensures Sorting.SortedBy(recipeTables, DepthKey)
      ensures Sorting.StableSortOf(recipeTables, ItemsInOrder(), DepthKey)
    {
      var optimalActions := GoverningActions(product, allOptimalActionSets, itemName, recipeId, rootedActions);
      ApplySelection(itemName, recipeId, rank, optimalActions, arank);
      UpdateTables();
    }

    /**
     * The body of `selectRecipe` before `updateTables`: the reset below `name`,
     * the selection itself and the cascade of the chosen actions from `name`.
     */
    method ApplySelection(name: string, recipeId: string, ghost rank: map<string, nat>,
                          optimalActions: Actions, ghost arank: map<string, nat>)
      requires Valid() && name in state && Closed(state) && WellRanked(state, rank)
      requires Cascadable(optimalActions, state.Keys, name, arank)
      modifies this`state, items.Values
      ensures Valid()
      ensures state == old(SelectSpec(state, rank, name, recipeId, optimalActions, arank))
    {
      ghost var cleared := ResetSet(state, ResetRegion(state, rank, name));
      ghost var selected := cleared[name := WithSelection(cleared[name], recipeId)];
      SelectSteps(state, rank, name, recipeId, optimalActions, arank, cleared, selected);
      StartRecursiveReset(name, rank);
      SelectRecipeOf(name, recipeId);
      CascadeActiveRecipeWithOptimalActions(optimalActions, name, Some(Craft), NoParent, arank);
    }

    /** Resets everything reachable from the ingredients of the active recipe of `name`. */
    method StartRecursiveReset(name: string, ghost rank: map<string, nat>)
      requires Valid() && name in state && Closed(state) && WellRanked(state, rank)
      modifies this`state, items.Values
      ensures Valid()
      ensures state == ResetSet(old(state), ResetRegion(old(state), rank, name))
    {
      var item := items[name];
      var recipeId := item.activeRecipeId;
      if recipeId == None {
        assert ResetSet(state, {}) == state;
        return;
      }
      ResetIngredients(item.recipes[recipeId.value].ingredients, rank, rank[name]);
    }

    /** Resets the item `name` and, first, everything reachable from its active recipe. */
    method RecursivelyResetItemUses(name: string, ghost rank: map<string, nat>)
      requires Valid() && name in state && Closed(state) && WellRanked(state, rank)
      modifies this`state, items.Values
      ensures Valid()
      ensures state == ResetSet(old(state), Reach(old(state), rank, name))
      decreases rank[name], 1
    {
      var item := items[name];
      var recipeId := item.activeRecipeId;
      if recipeId != None {
        ResetIngredients(item.recipes[recipeId.value].ingredients, rank, rank[name]);
      } else {
        assert ResetSet(state, {}) == state;
      }
      ResetUsesOf(name);
      ResetItemLast(old(state), rank, name);
    }

    /** The loop over the ingredients of one recipe, resetting each ingredient's subtree in turn. */
    method ResetIngredients(ingredients: seq<Ingredient>, ghost rank: map<string, nat>, ghost bound: nat)
      requires Valid() && Closed(state) && WellRanked(state, rank)
      requires forall c :: c in Names(ingredients) ==> c in state && c in rank && rank[c] < bound
      modifies this`state, items.Values
      ensures Valid()
      ensures state == ResetSet(old(state), ReachAll(old(state), rank, Names(ingredients), bound))
      decreases bound, 0
    {
      ghost var names := Names(ingredients);
      assert ResetSet(state, {}) == state;
      assert ReachAll(state, rank, names[..0], bound) == {};
      for i := 0 to |ingredients|
        invariant Valid()
        invariant forall c :: c in names[..i] ==> c in names
        invariant state == ResetSet(old(state), ReachAll(old(state), rank, names[..i], bound))
      {
        ResetIngredientStep(old(state), rank, names, bound, i);
        assert names[i] == ingredients[i].itemName;
        RecursivelyResetItemUses(ingredients[i].itemName, rank);
      }
      assert names[..|ingredients|] == names;
    }

    /** Selects the root recipe whose precomputed Craft action makes the most profit (the first one on a tie). */
    method ResetToOptimal(ghost rank: map<string, nat>, ghost aranks: map<string, map<string, nat>>) returns (ghost chosen: nat)
      requires Valid() && product in state && Closed(state) && WellRanked(state, rank)
      requires |allOptimalActionSets.order| > 0 && KeyedByRootRecipe(allOptimalActionSets, product)
      requires AllCascadable(allOptimalActionSets, state.Keys, product, aranks)
      modifies this`state, this`recipeTables, items.Values
      ensures Valid()
      ensures old(IsFirstBest(allOptimalActionSets, product, state[product].marketData.marketPrice, chosen))
      ensures state == old(SelectSpec(state, rank, product, allOptimalActionSets.order[chosen],
                                      allOptimalActionSets.sets[allOptimalActionSets.order[chosen]].optimalActions,
                                      RankFor(aranks, allOptimalActionSets.order[chosen])))
      ensures multiset(recipeTables) == multiset(ItemsInOrder())
      ensures Sorting.SortedBy(recipeTables, DepthKey)
      ensures Sorting.StableSortOf(recipeTables, ItemsInOrder(), DepthKey)
    {
      var marketPrice := items[product].GetMarketPrice();
      var best := BestActionSetIndex(allOptimalActionSets, product, marketPrice);
      chosen := best.value;
      var key := allOptimalActionSets.order[best.value];
      var bestActionSet := allOptimalActionSets.sets[key];
      var recipeId := bestActionSet.optimalActions[product].craft.value.recipeId.value;
      assert recipeId == key;
      SelectRecipe(product, recipeId, map[], rank, RankFor(aranks, key));
    }

    /** Records the uses along the optimal decision tree below `currentItem`. */
    method CascadeActiveRecipeWithOptimalActions(optimalActions: Actions, currentItem: string,
                                                 actionTaken: Option<ActionKind>, parent: Parent,
                                                 ghost arank: map<string, nat>)
      requires Valid() && Cascadable(optimalActions, state.Keys, currentItem, arank)
      modifies this`state, items.Values
      ensures Valid()
      ensures state == Cascade(old(state), optimalActions, arank, currentItem, actionTaken, parent)
      decreases Height(arank, currentItem, actionTaken), 0
    {
      var action := ActionFor(optimalActions[currentItem], actionTaken);
      CascadeCases(state, optimalActions, arank, currentItem, actionTaken, parent);
      if action.None? {
        return;
      }
      AddUseOf(currentItem, actionTaken.value, parent.parentName, parent.parentRecipeId, action.value.recipeId);
      if actionTaken == Some(Buy) {
        return;
      }
      assert action.value == optimalActions[currentItem].craft.value;
      CraftBelow(optimalActions, arank, currentItem);
      CascadeIngredients(optimalActions, action.value.ingredients, Parent(action.value.recipeId, Some(currentItem)),
                         arank, arank[currentItem]);
    }

    /** The loop of the cascade over the ingredients of the chosen recipe, all under the same parent. */
    method CascadeIngredients(optimalActions: Actions, ingredients: seq<Ingredient>, parent: Parent,
                              ghost arank: map<string, nat>, ghost bound: nat)
      requires Valid() && optimalActions.Keys <= state.Keys
      requires ActionsWalkable(optimalActions) && ActionsRanked(optimalActions, arank)
      requires WalkableBelow(optimalActions, arank, ingredients, bound)
      modifies this`state, items.Values
      ensures Valid()
      ensures state == CascadeEach(old(state), optimalActions, arank, ingredients, parent, bound)
      decreases bound, 1
    {
      assert ingredients[0..] == ingredients;
      for i := 0 to |ingredients|
        invariant Valid() && state.Keys == old(state).Keys
        invariant CascadeEach(old(state), optimalActions, arank, ingredients, parent, bound)
               == CascadeEach(state, optimalActions, arank, ingredients[i..], parent, bound)
      {
        CascadeEachUnfold(state, optimalActions, arank, ingredients, i, parent, bound);
        CascadeActiveRecipeWithOptimalActions(optimalActions, ingredients[i].itemName, ingredients[i].action, parent, arank);
      }
      CascadeEachUnfold(state, optimalActions, arank, ingredients, |ingredients|, parent, bound);
    }

    /** `Object.values(this.items)` sorted stably by depth. */
    method UpdateTables()
      requires Valid()
      modifies this`recipeTables
      ensures Valid()
      ensures multiset(recipeTables) == multiset(ItemsInOrder())
      ensures Sorting.SortedBy(recipeTables, DepthKey)
      ensures Sorting.StableSortOf(recipeTables, ItemsInOrder(), DepthKey)
      ensures forall x :: x in recipeTables <==> x in items.Values
    {
      var tables := ItemsInOrder();
      recipeTables := Sorting.SortBy(tables, DepthKey);
      Sorting.SortByIsStableSort(tables, DepthKey);
      LookupCovers(items, itemOrder, recipeTables);
    }
  }
}
