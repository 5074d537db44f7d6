/**
 * The cascade of recipesDashboard.jsx (cascadeActiveRecipeWithOptimalActions),
 * stated on the dictionary of item states. The optimizer that produces the
 * table of optimal actions is not part of this model: the table is an input.
 */
module CascadeWalk {
  import opened Wrappers
  import opened RecipeGraph
  import opened ResetWalk

  /**
   * One verdict of the optimizer: `recipe_id`, the ingredients of
   * `action.recipe` (each carrying the action chosen for it) and the
   * action's `calculateProfit` as a function of the market price.
   */
  datatype Action = Action(recipeId: Option<string>, ingredients: seq<Ingredient>, profit: real -> real)

  /** `optimalActions[item]`: the Buy and the Craft verdict, each possibly null. */
  datatype ActionPair = ActionPair(buy: Option<Action>, craft: Option<Action>)

  type Actions = map<string, ActionPair>

  /** The `parent` argument `{parentRecipeId, parentName}`; the root call passes `{}`. */
  datatype Parent = Parent(parentRecipeId: Option<string>, parentName: Option<string>)

  const NoParent: Parent := Parent(None, None)

  /** `optimalActions[item][actionTaken]`; a missing action name reads as undefined. */
  function ActionFor(pair: ActionPair, actionTaken: Option<ActionKind>): Option<Action>
  {
    match actionTaken
    case None => None
    case Some(Buy) => pair.buy
    case Some(Craft) => pair.craft
  }

  /** Every ingredient of a Craft verdict has an entry of its own in the table. */
  ghost predicate ActionsWalkable(actions: Actions)
  {
    forall x :: x in actions && actions[x].craft.Some? ==>
      forall i :: 0 <= i < |actions[x].craft.value.ingredients| ==>
        actions[x].craft.value.ingredients[i].itemName in actions
  }

  /**
   * The Craft verdicts walk without cycles: `arank` strictly decreases from an
   * item to each ingredient of its Craft verdict that is itself to be crafted.
   * An ingredient to be bought, or with no action, ends the walk there, so it
   * may lead back to any item.
   */
  ghost predicate ActionsRanked(actions: Actions, arank: map<string, nat>)
  {
    forall x :: x in actions ==>
      && x in arank
      && (actions[x].craft.Some? ==>
            forall i :: 0 <= i < |actions[x].craft.value.ingredients| ==>
              var ingredient := actions[x].craft.value.ingredients[i];
              ingredient.action == Some(Craft) ==>
                ingredient.itemName in arank && arank[ingredient.itemName] < arank[x])
  }

  /** How deep a cascade from `current` with `actionTaken` may still go: only a Craft step descends. */
  function Height(arank: map<string, nat>, current: string, actionTaken: Option<ActionKind>): nat
  {
    if actionTaken == Some(Craft) && current in arank then arank[current] + 1 else 0
  }

  /** Every ingredient has an entry in the table and may be walked below `bound`. */
  ghost predicate WalkableBelow(actions: Actions, arank: map<string, nat>, ingredients: seq<Ingredient>, bound: nat)
  {
    forall i :: 0 <= i < |ingredients| ==>
      ingredients[i].itemName in actions && Height(arank, ingredients[i].itemName, ingredients[i].action) <= bound
  }

  /** The ingredients of an item's Craft verdict may be walked below the item's rank. */
  lemma CraftBelow(actions: Actions, arank: map<string, nat>, x: string)
    requires ActionsWalkable(actions) && ActionsRanked(actions, arank)
    requires x in actions && actions[x].craft.Some?
    ensures x in arank && WalkableBelow(actions, arank, actions[x].craft.value.ingredients, arank[x])
  {
  }

  /** Everything a cascade from `name` looks up is there, and it terminates. */
  ghost predicate Cascadable(actions: Actions, keys: set<string>, name: string, arank: map<string, nat>)
  {
    name in actions && actions.Keys <= keys && ActionsWalkable(actions) && ActionsRanked(actions, arank)
  }

  /** From `before` to `after` only back-references and active recipes change, and back-references only grow. */
  ghost predicate UsesOnlyGrow(before: Items, after: Items)
  {
    && before.Keys == after.Keys
    && forall k :: k in before ==>
         && after[k].name == before[k].name
         && after[k].marketData == before[k].marketData
         && after[k].recipes == before[k].recipes
         && after[k].depth == before[k].depth
         && before[k].usedInRecipes <= after[k].usedInRecipes
  }

  /** The cascade from `current` with `actionTaken` under `parent`. */
  ghost function Cascade(items: Items, actions: Actions, arank: map<string, nat>,
                         current: string, actionTaken: Option<ActionKind>, parent: Parent): (r: Items)
    requires Cascadable(actions, items.Keys, current, arank)
    ensures UsesOnlyGrow(items, r)
    decreases Height(arank, current, actionTaken), 0, 0
  {
    match ActionFor(actions[current], actionTaken)
    case None => items
    case Some(action) =>
      var recorded := items[current := WithUse(items[current], actionTaken.value, parent.parentName,
                                               parent.parentRecipeId, action.recipeId)];
      if actionTaken == Some(Buy) then recorded
      else CascadeEach(recorded, actions, arank, action.ingredients, Parent(action.recipeId, Some(current)), arank[current])
  }

  /** The cascade into each ingredient in turn, all under the same parent. */
  ghost function CascadeEach(items: Items, actions: Actions, arank: map<string, nat>,
                             ingredients: seq<Ingredient>, parent: Parent, bound: nat): (r: Items)
    requires actions.Keys <= items.Keys && ActionsWalkable(actions) && ActionsRanked(actions, arank)
    requires WalkableBelow(actions, arank, ingredients, bound)
    ensures UsesOnlyGrow(items, r)
    decreases bound, 1, |ingredients|
  {
    if ingredients == [] then items
    else
      var first := Cascade(items, actions, arank, ingredients[0].itemName, ingredients[0].action, parent);
      CascadeEach(first, actions, arank, ingredients[1..], parent, bound)
  }

  /** The items on which the cascade records a use. */
  ghost function Visited(actions: Actions, arank: map<string, nat>, current: string, actionTaken: Option<ActionKind>): (r: set<string>)
    requires ActionsWalkable(actions) && ActionsRanked(actions, arank) && current in actions
    ensures forall x :: x in r ==> x in actions
    decreases Height(arank, current, actionTaken), 0, 0
  {
    match ActionFor(actions[current], actionTaken)
    case None => {}
    case Some(action) =>
      if actionTaken == Some(Buy) then {current}
      else {current} + VisitedEach(actions, arank, action.ingredients, arank[current])
  }

  ghost function VisitedEach(actions: Actions, arank: map<string, nat>, ingredients: seq<Ingredient>, bound: nat): (r: set<string>)
    requires ActionsWalkable(actions) && ActionsRanked(actions, arank)
    requires WalkableBelow(actions, arank, ingredients, bound)
    ensures forall x :: x in r ==> x in actions
    decreases bound, 1, |ingredients|
  {
    if ingredients == [] then {}
    else
      var first := Visited(actions, arank, ingredients[0].itemName, ingredients[0].action);
      first + VisitedEach(actions, arank, ingredients[1..], bound)
  }

  // ----- properties -----

  /**
   * The three ways a cascade step ends: no action changes nothing; Buy records
   * one use and stops; Craft records one use and then walks the recipe's
   * ingredients in order under the parent {recipe_id, current}.
   */
  lemma CascadeCases(items: Items, actions: Actions, arank: map<string, nat>,
                     current: string, actionTaken: Option<ActionKind>, parent: Parent)
    requires Cascadable(actions, items.Keys, current, arank)
    ensures ActionFor(actions[current], actionTaken).None? ==>
              Cascade(items, actions, arank, current, actionTaken, parent) == items
              && Visited(actions, arank, current, actionTaken) == {}
    ensures actionTaken == Some(Buy) && actions[current].buy.Some? ==>
              Cascade(items, actions, arank, current, actionTaken, parent)
                == items[current := WithUse(items[current], Buy, parent.parentName, parent.parentRecipeId,
                                            actions[current].buy.value.recipeId)]
              && Visited(actions, arank, current, actionTaken) == {current}
    ensures actionTaken == Some(Craft) && actions[current].craft.Some? ==>
              var action := actions[current].craft.value;
              var recorded := items[current := WithUse(items[current], Craft, parent.parentName,
                                                       parent.parentRecipeId, action.recipeId)];
              Cascade(items, actions, arank, current, actionTaken, parent)
                == CascadeEach(recorded, actions, arank, action.ingredients, Parent(action.recipeId, Some(current)), arank[current])
  {
  }

  /** One step of the loop over the ingredients: the cascade from ingredient `i` on is ingredient `i`'s cascade, then the rest. */
  lemma CascadeEachUnfold(items: Items, actions: Actions, arank: map<string, nat>,
                          ingredients: seq<Ingredient>, i: nat, parent: Parent, bound: nat)
    requires actions.Keys <= items.Keys && ActionsWalkable(actions) && ActionsRanked(actions, arank)
    requires WalkableBelow(actions, arank, ingredients, bound)
    requires i <= |ingredients|
    ensures i == |ingredients| ==> CascadeEach(items, actions, arank, ingredients[i..], parent, bound) == items
    ensures i < |ingredients| ==>
              var first := Cascade(items, actions, arank, ingredients[i].itemName, ingredients[i].action, parent);
              CascadeEach(items, actions, arank, ingredients[i..], parent, bound)
                == CascadeEach(first, actions, arank, ingredients[i + 1..], parent, bound)
  {
    if i < |ingredients| {
      assert ingredients[i..][0] == ingredients[i] && ingredients[i..][1..] == ingredients[i + 1..];
    }
  }

  /** Items the cascade does not visit are left exactly as they were. */
  lemma {:induction false} CascadeUntouched(items: Items, actions: Actions, arank: map<string, nat>,
                                            current: string, actionTaken: Option<ActionKind>, parent: Parent, k: string)
    requires Cascadable(actions, items.Keys, current, arank)
    requires k in items && k !in Visited(actions, arank, current, actionTaken)
    ensures Cascade(items, actions, arank, current, actionTaken, parent)[k] == items[k]
    decreases Height(arank, current, actionTaken), 0, 0
  {
    match ActionFor(actions[current], actionTaken)
    case None =>
    case Some(action) =>
      var recorded := items[current := WithUse(items[current], actionTaken.value, parent.parentName,
                                               parent.parentRecipeId, action.recipeId)];
      if actionTaken != Some(Buy) {
        CascadeEachUntouched(recorded, actions, arank, action.ingredients, Parent(action.recipeId, Some(current)), arank[current], k);
      }
  }

  lemma {:induction false} CascadeEachUntouched(items: Items, actions: Actions, arank: map<string, nat>,
                                                ingredients: seq<Ingredient>, parent: Parent, bound: nat, k: string)
    requires actions.Keys <= items.Keys && ActionsWalkable(actions) && ActionsRanked(actions, arank)
    requires WalkableBelow(actions, arank, ingredients, bound)
    requires k in items && k !in VisitedEach(actions, arank, ingredients, bound)
    ensures CascadeEach(items, actions, arank, ingredients, parent, bound)[k] == items[k]
    decreases bound, 1, |ingredients|
  {
    if ingredients != [] {
      CascadeUntouched(items, actions, arank, ingredients[0].itemName, ingredients[0].action, parent, k);
      var first := Cascade(items, actions, arank, ingredients[0].itemName, ingredients[0].action, parent);
      CascadeEachUntouched(first, actions, arank, ingredients[1..], parent, bound, k);
    }
  }

  /** Every item the cascade visits ends with at least one back-reference. */
  lemma {:induction false} CascadeRecordsVisited(items: Items, actions: Actions, arank: map<string, nat>,
                                                 current: string, actionTaken: Option<ActionKind>, parent: Parent, k: string)
    requires Cascadable(actions, items.Keys, current, arank)
    requires k in Visited(actions, arank, current, actionTaken)
    ensures |Cascade(items, actions, arank, current, actionTaken, parent)[k].usedInRecipes| > 0
    decreases Height(arank, current, actionTaken), 0, 0
  {
    match ActionFor(actions[current], actionTaken)
    case None =>
    case Some(action) =>
      var recorded := items[current := WithUse(items[current], actionTaken.value, parent.parentName,
                                               parent.parentRecipeId, action.recipeId)];
      WithUseEffect(items[current], actionTaken.value, parent.parentName, parent.parentRecipeId, action.recipeId);
      assert |recorded[current].usedInRecipes| > 0;
      if actionTaken != Some(Buy) {
        assert actionTaken == Some(Craft) && action == actions[current].craft.value;
        CraftBelow(actions, arank, current);
        var below := Parent(action.recipeId, Some(current));
        var r := CascadeEach(recorded, actions, arank, action.ingredients, below, arank[current]);
        if k == current {
          assert recorded[current].usedInRecipes <= r[current].usedInRecipes;
        } else {
          CascadeEachRecordsVisited(recorded, actions, arank, action.ingredients, below, arank[current], k);
        }
      }
  }

  lemma {:induction false} CascadeEachRecordsVisited(items: Items, actions: Actions, arank: map<string, nat>,
                                                     ingredients: seq<Ingredient>, parent: Parent, bound: nat, k: string)
    requires actions.Keys <= items.Keys && ActionsWalkable(actions) && ActionsRanked(actions, arank)
    requires WalkableBelow(actions, arank, ingredients, bound)
    requires k in VisitedEach(actions, arank, ingredients, bound)
    ensures |CascadeEach(items, actions, arank, ingredients, parent, bound)[k].usedInRecipes| > 0
    decreases bound, 1, |ingredients|
  {
    if ingredients != [] {
      var first := Cascade(items, actions, arank, ingredients[0].itemName, ingredients[0].action, parent);
      var r := CascadeEach(first, actions, arank, ingredients[1..], parent, bound);
      if k in Visited(actions, arank, ingredients[0].itemName, ingredients[0].action) {
        CascadeRecordsVisited(items, actions, arank, ingredients[0].itemName, ingredients[0].action, parent, k);
        assert first[k].usedInRecipes <= r[k].usedInRecipes;
      } else {
        CascadeEachRecordsVisited(first, actions, arank, ingredients[1..], parent, bound, k);
      }
    }
  }

  /** The ingredients of the two Craft verdicts below: A from B crafted, B from A bought. */
  const BoughtA: seq<Ingredient> := [Ingredient("B", 1.0, Some(Craft))]
  const BoughtB: seq<Ingredient> := [Ingredient("A", 1.0, Some(Buy))]

  /**
   * A table whose Craft verdicts lead back to the root only through an
   * ingredient to be bought: A is crafted from B, and B is crafted from A bought.
   */
  function BoughtCycle(profit: real -> real): Actions
  {
    map["A" := ActionPair(Some(Action(None, [], profit)), Some(Action(Some("a"), BoughtA, profit))),
        "B" := ActionPair(None, Some(Action(Some("b"), BoughtB, profit)))]
  }

  /** A ranking for that table: it only has to drop from A to B. */
  function BoughtCycleRank(): map<string, nat>
  {
    map["A" := 1, "B" := 0]
  }

  /** The verdicts of BoughtCycle that the cascade from A looks at. */
  ghost predicate BoughtCycleTable(actions: Actions, profit: real -> real)
  {
    && "A" in actions && "B" in actions
    && actions["A"].buy == Some(Action(None, [], profit))
    && actions["A"].craft == Some(Action(Some("a"), BoughtA, profit))
    && actions["B"].craft == Some(Action(Some("b"), BoughtB, profit))
  }

  /** Such a table is walkable. */
  lemma BoughtCycleCascadable(profit: real -> real, keys: set<string>)
    requires {"A", "B"} <= keys
    ensures BoughtCycleTable(BoughtCycle(profit), profit)
    ensures Cascadable(BoughtCycle(profit), keys, "A", BoughtCycleRank())
  {
    var actions := BoughtCycle(profit);
    assert actions["A"].craft.value.ingredients[0].itemName == "B";
    assert actions["B"].craft.value.ingredients[0].itemName == "A";
  }

  /** The items a walk over a single ingredient visits are those of that ingredient's cascade. */
  lemma VisitedOne(actions: Actions, arank: map<string, nat>, ingredients: seq<Ingredient>, bound: nat)
    requires ActionsWalkable(actions) && ActionsRanked(actions, arank)
    requires WalkableBelow(actions, arank, ingredients, bound) && |ingredients| == 1
    ensures VisitedEach(actions, arank, ingredients, bound)
         == Visited(actions, arank, ingredients[0].itemName, ingredients[0].action)
  {
    assert ingredients[1..] == [];
  }

  /** The ingredient lists of the table may be walked below the ranks of their items. */
  lemma BoughtBelow(actions: Actions, profit: real -> real)
    requires BoughtCycleTable(actions, profit)
    ensures WalkableBelow(actions, BoughtCycleRank(), BoughtA, 1)
    ensures WalkableBelow(actions, BoughtCycleRank(), BoughtB, 0)
  {
  }

  /** The cascade from B crafted under A: B's use, then A's Buy use under B. */
  lemma BoughtWalkB(actions: Actions, profit: real -> real, s: Items)
    requires BoughtCycleTable(actions, profit) && Cascadable(actions, s.Keys, "B", BoughtCycleRank())
    ensures Visited(actions, BoughtCycleRank(), "B", Some(Craft)) == {"B", "A"}
    ensures var s1 := s["B" := WithUse(s["B"], Craft, Some("A"), Some("a"), Some("b"))];
      Cascade(s, actions, BoughtCycleRank(), "B", Some(Craft), Parent(Some("a"), Some("A")))
        == s1["A" := WithUse(s1["A"], Buy, Some("B"), Some("b"), None)]
  {
    var arank := BoughtCycleRank();
    var underB := Parent(Some("b"), Some("B"));
    CascadeCases(s, actions, arank, "B", Some(Craft), Parent(Some("a"), Some("A")));
    var s1 := s["B" := WithUse(s["B"], Craft, Some("A"), Some("a"), Some("b"))];
    assert BoughtB[0..] == BoughtB;
    BoughtBelow(actions, profit);
    CascadeEachUnfold(s1, actions, arank, BoughtB, 0, underB, 0);
    CascadeCases(s1, actions, arank, "A", Some(Buy), underB);
    var s2 := s1["A" := WithUse(s1["A"], Buy, Some("B"), Some("b"), None)];
    CascadeEachUnfold(s2, actions, arank, BoughtB, 1, underB, 0);
    VisitedOne(actions, arank, BoughtB, 0);
  }

  /** The cascade from A crafted at the root: A's use, then the cascade from B crafted under A. */
  lemma BoughtWalkA(actions: Actions, profit: real -> real, s: Items)
    requires BoughtCycleTable(actions, profit) && Cascadable(actions, s.Keys, "A", BoughtCycleRank())
    ensures Visited(actions, BoughtCycleRank(), "A", Some(Craft))
         == {"A"} + Visited(actions, BoughtCycleRank(), "B", Some(Craft))
    ensures var s1 := s["A" := WithUse(s["A"], Craft, None, None, Some("a"))];
      && Cascadable(actions, s1.Keys, "B", BoughtCycleRank())
      && Cascade(s, actions, BoughtCycleRank(), "A", Some(Craft), NoParent)
           == Cascade(s1, actions, BoughtCycleRank(), "B", Some(Craft), Parent(Some("a"), Some("A")))
  {
    var arank := BoughtCycleRank();
    var underA := Parent(Some("a"), Some("A"));
    CascadeCases(s, actions, arank, "A", Some(Craft), NoParent);
    var s1 := s["A" := WithUse(s["A"], Craft, None, None, Some("a"))];
    assert BoughtA[0..] == BoughtA;
    BoughtBelow(actions, profit);
    CascadeEachUnfold(s1, actions, arank, BoughtA, 0, underA, 1);
    var s2 := Cascade(s1, actions, arank, "B", Some(Craft), underA);
    CascadeEachUnfold(s2, actions, arank, BoughtA, 1, underA, 1);
    VisitedOne(actions, arank, BoughtA, 1);
  }

  /** The whole cascade from A crafted at the root, as the three addUse steps it takes. */
  lemma BoughtCycleSteps(actions: Actions, profit: real -> real, items: Items)
    requires BoughtCycleTable(actions, profit) && Cascadable(actions, items.Keys, "A", BoughtCycleRank())
    ensures Visited(actions, BoughtCycleRank(), "A", Some(Craft)) == {"A", "B"}
    ensures var s1 := items["A" := WithUse(items["A"], Craft, None, None, Some("a"))];
      var s2 := s1["B" := WithUse(s1["B"], Craft, Some("A"), Some("a"), Some("b"))];
      Cascade(items, actions, BoughtCycleRank(), "A", Some(Craft), NoParent)
        == s2["A" := WithUse(s1["A"], Buy, Some("B"), Some("b"), None)]
  {
    BoughtWalkA(actions, profit, items);
    var s1 := items["A" := WithUse(items["A"], Craft, None, None, Some("a"))];
    BoughtWalkB(actions, profit, s1);
  }

  /**
   * The cascade from A records A's Craft use, then B's, then A's Buy use under
   * B's recipe, which leaves A with no active recipe; it visits both items.
   */
  lemma BoughtCycleCascade(actions: Actions, profit: real -> real, items: Items)
    requires BoughtCycleTable(actions, profit) && Cascadable(actions, items.Keys, "A", BoughtCycleRank())
    requires items["A"].usedInRecipes == []
    ensures Visited(actions, BoughtCycleRank(), "A", Some(Craft)) == {"A", "B"}
    ensures var r := Cascade(items, actions, BoughtCycleRank(), "A", Some(Craft), NoParent);
      && r["A"].usedInRecipes == [Use(Craft, None, None), Use(Buy, Some("B"), Some("b"))]
      && r["A"].activeRecipeId == None
  {
    BoughtCycleSteps(actions, profit, items);
    var a1 := WithUse(items["A"], Craft, None, None, Some("a"));
    FirstUse(items["A"], Craft, None, None, Some("a"));
    UseUnderParent(a1, Buy, Some("B"), "b", None);
    assert [Use(Craft, None, None)] + [Use(Buy, Some("B"), Some("b"))]
        == [Use(Craft, None, None), Use(Buy, Some("B"), Some("b"))];
  }
}
