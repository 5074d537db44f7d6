/**
 * Dashboard `selectRecipe` on the dictionary of item states: reset the
 * subtree under the previously active recipe, select the new recipe, then
 * cascade the governing optimal actions from the item with "Craft".
 */
module Selection {
  import opened Wrappers
  import opened RecipeGraph
  import opened ResetWalk
  import opened CascadeWalk

  /** The items `startRecursiveReset` resets: everything reachable from the ingredients of the active recipe. */
  ghost function ResetRegion(items: Items, rank: map<string, nat>, name: string): set<string>
    requires Closed(items) && WellRanked(items, rank) && name in items
  {
    ReachAll(items, rank, Children(items, name), rank[name])
  }

  /** The dictionary after `selectRecipe(name, recipeId)` with `actions` as the governing optimal actions. */
  ghost function SelectSpec(items: Items, rank: map<string, nat>, name: string, recipeId: string,
                            actions: Actions, arank: map<string, nat>): Items
    requires Closed(items) && WellRanked(items, rank) && name in items
    requires Cascadable(actions, items.Keys, name, arank)
  {
    var cleared := ResetSet(items, ResetRegion(items, rank, name));
    var selected := cleared[name := WithSelection(cleared[name], recipeId)];
    Cascade(selected, actions, arank, name, Some(Craft), NoParent)
  }

  /** SelectSpec as the three steps selectRecipe takes one after the other. */
  lemma SelectSteps(items: Items, rank: map<string, nat>, name: string, recipeId: string,
                    actions: Actions, arank: map<string, nat>, cleared: Items, selected: Items)
    requires Closed(items) && WellRanked(items, rank) && name in items
    requires Cascadable(actions, items.Keys, name, arank)
    requires cleared == ResetSet(items, ResetRegion(items, rank, name))
    requires selected == cleared[name := WithSelection(cleared[name], recipeId)]
    ensures selected.Keys == items.Keys && Cascadable(actions, selected.Keys, name, arank)
    ensures SelectSpec(items, rank, name, recipeId, actions, arank)
         == Cascade(selected, actions, arank, name, Some(Craft), NoParent)
  {
  }

  /** The ranking that gives every item rank 0. */
  ghost function ZeroRank(items: Items): map<string, nat>
  {
    map k | k in items :: 0
  }

  /** A dictionary of clean items has no active-recipe edges at all. */
  lemma CleanIsWalkable(items: Items)
    requires forall k :: k in items ==> Clean(items[k])
    ensures Closed(items) && WellRanked(items, ZeroRank(items))
    ensures forall k :: k in items ==> Children(items, k) == []
  {
  }

  /** On a dictionary of clean items every ranking that covers the keys is valid. */
  lemma CleanRankedByAny(items: Items, rank: map<string, nat>)
    requires forall k :: k in items ==> Clean(items[k])
    requires items.Keys <= rank.Keys
    ensures Closed(items) && WellRanked(items, rank)
  {
    CleanIsWalkable(items);
  }

  /**
   * Reset completeness: after a selection at `name`, an item of the old subtree
   * holds back-references exactly when the new cascade visits it (it is cleared
   * otherwise); items in neither are untouched; every visited item holds a
   * back-reference.
   */
  lemma SelectOutcome(items: Items, rank: map<string, nat>, name: string, recipeId: string,
                      actions: Actions, arank: map<string, nat>)
    requires Closed(items) && WellRanked(items, rank) && name in items
    requires Cascadable(actions, items.Keys, name, arank)
    ensures var r := SelectSpec(items, rank, name, recipeId, actions, arank);
      var region := ResetRegion(items, rank, name);
      var tree := Visited(actions, arank, name, Some(Craft));
      && UsesOnlyGrow(ResetSet(items, region)[name := WithSelection(items[name], recipeId)], r)
      && (forall k :: k in region && k !in tree ==> r[k] == Cleared(items[k]))
      && (forall k :: k in items && k !in region && k !in tree && k != name ==> r[k] == items[k])
      && (forall k :: k in tree ==> |r[k].usedInRecipes| > 0)
      && (forall k :: k in region ==> (|r[k].usedInRecipes| > 0 <==> k in tree))
  {
    var region := ResetRegion(items, rank, name);
    var cleared := ResetSet(items, region);
    var selected := cleared[name := WithSelection(cleared[name], recipeId)];
    var tree := Visited(actions, arank, name, Some(Craft));
    var r := Cascade(selected, actions, arank, name, Some(Craft), NoParent);
    assert name !in region;
    assert selected == cleared[name := WithSelection(items[name], recipeId)];
    forall k | k in items && k !in tree
      ensures r[k] == selected[k]
    {
      CascadeUntouched(selected, actions, arank, name, Some(Craft), NoParent, k);
    }
    forall k | k in tree
      ensures |r[k].usedInRecipes| > 0
    {
      CascadeRecordsVisited(selected, actions, arank, name, Some(Craft), NoParent, k);
    }
    forall k | k in region && k !in tree
      ensures |r[k].usedInRecipes| == 0
    {
      ClearedEffect(items[k]);
    }
  }

  /**
   * The root of a selection keeps the selected recipe unless the cascade records
   * its Craft use; as written, that happens only when the item held no
   * back-references yet (a root use has no parent recipe id). This holds unless
   * the walk below the root comes back to the root itself, which it can only do
   * through an ingredient to be bought.
   */
  lemma SelectRootOutcome(items: Items, rank: map<string, nat>, name: string, recipeId: string,
                          actions: Actions, arank: map<string, nat>)
    requires Closed(items) && WellRanked(items, rank) && name in items
    requires Cascadable(actions, items.Keys, name, arank)
    ensures var r := SelectSpec(items, rank, name, recipeId, actions, arank);
      actions[name].craft.None? ==> r[name] == WithSelection(items[name], recipeId)
    ensures var r := SelectSpec(items, rank, name, recipeId, actions, arank);
      actions[name].craft.Some? &&
      name !in VisitedEach(actions, arank, actions[name].craft.value.ingredients, arank[name]) ==>
        && r[name].usedInRecipes
             == (if items[name].usedInRecipes == [] then [Use(Craft, None, None)] else items[name].usedInRecipes)
        && r[name].activeRecipeId
             == (if items[name].usedInRecipes == [] then actions[name].craft.value.recipeId else Some(recipeId))
  {
    var region := ResetRegion(items, rank, name);
    var cleared := ResetSet(items, region);
    var selected := cleared[name := WithSelection(cleared[name], recipeId)];
    assert name !in region;
    assert selected[name] == WithSelection(items[name], recipeId);
    CascadeCases(selected, actions, arank, name, Some(Craft), NoParent);
    if actions[name].craft.Some? {
      var action := actions[name].craft.value;
      CraftBelow(actions, arank, name);
      var root := WithUse(selected[name], Craft, None, None, action.recipeId);
      WithUseEffect(selected[name], Craft, None, None, action.recipeId);
      var recorded := selected[name := root];
      if name !in VisitedEach(actions, arank, action.ingredients, arank[name]) {
        var r := CascadeEach(recorded, actions, arank, action.ingredients, Parent(action.recipeId, Some(name)), arank[name]);
        CascadeEachUntouched(recorded, actions, arank, action.ingredients, Parent(action.recipeId, Some(name)), arank[name], name);
        assert r[name] == root;
      }
    }
  }

  /** On a dictionary of clean items (as parseRecipes builds it) the reset step does nothing. */
  lemma SelectOnClean(items: Items, name: string, recipeId: string, actions: Actions, arank: map<string, nat>)
    requires forall k :: k in items ==> Clean(items[k])
    requires name in items && Cascadable(actions, items.Keys, name, arank)
    ensures Closed(items) && WellRanked(items, ZeroRank(items))
    ensures SelectSpec(items, ZeroRank(items), name, recipeId, actions, arank)
         == Cascade(items[name := WithSelection(items[name], recipeId)], actions, arank, name, Some(Craft), NoParent)
  {
    CleanIsWalkable(items);
    assert ResetRegion(items, ZeroRank(items), name) == {};
    assert ResetSet(items, {}) == items;
  }

  // ----- selecting the same recipe twice -----

  /** An item with the single recipe `id` made of `ingredients`, in no decision tree yet. */
  function Stocked(name: string, id: string, ingredients: seq<Ingredient>): ItemState
  {
    ItemState(name, MarketData(1.0), map[id := Recipe(name, ingredients, Buy, None, None)], [], None, 0)
  }

  /** R is made from P and Y, P from Y, Y from Z, and Z from nothing. */
  function ChainItems(): Items
  {
    map["R" := Stocked("R", "r", [Ingredient("P", 1.0, None), Ingredient("Y", 1.0, None)]),
        "P" := Stocked("P", "p", [Ingredient("Y", 1.0, None)]),
        "Y" := Stocked("Y", "y", [Ingredient("Z", 1.0, None)]),
        "Z" := Stocked("Z", "z", [])]
  }

  /** The ingredients of the optimizer's verdicts: R from P crafted and Y bought, P from Y crafted, Y from Z bought. */
  const ChainR: seq<Ingredient> := [Ingredient("P", 1.0, Some(Craft)), Ingredient("Y", 1.0, Some(Buy))]
  const ChainP: seq<Ingredient> := [Ingredient("Y", 1.0, Some(Craft))]
  const ChainY: seq<Ingredient> := [Ingredient("Z", 1.0, Some(Buy))]

  /** The optimizer's verdicts: R, P and Y are crafted by their recipes; Y and Z may be bought. */
  function ChainActions(profit: real -> real): Actions
  {
    map["R" := ActionPair(None, Some(Action(Some("r"), ChainR, profit))),
        "P" := ActionPair(None, Some(Action(Some("p"), ChainP, profit))),
        "Y" := ActionPair(Some(Action(None, [], profit)), Some(Action(Some("y"), ChainY, profit))),
        "Z" := ActionPair(Some(Action(None, [], profit)), None)]
  }

  function ChainRank(): map<string, nat>
  {
    map["R" := 2, "P" := 1, "Y" := 0, "Z" := 0]
  }

  /** The verdicts of ChainActions that the cascades below look at. */
  ghost predicate ChainTable(actions: Actions, profit: real -> real)
  {
    && {"R", "P", "Y", "Z"} <= actions.Keys
    && actions["R"].craft == Some(Action(Some("r"), ChainR, profit))
    && actions["P"].craft == Some(Action(Some("p"), ChainP, profit))
    && actions["Y"].buy == Some(Action(None, [], profit))
    && actions["Y"].craft == Some(Action(Some("y"), ChainY, profit))
    && actions["Z"].buy == Some(Action(None, [], profit))
  }

  lemma ChainCascadable(profit: real -> real, keys: set<string>)
    requires {"R", "P", "Y", "Z"} <= keys
    ensures ChainTable(ChainActions(profit), profit)
    ensures Cascadable(ChainActions(profit), keys, "R", ChainRank())
  {
    var actions := ChainActions(profit);
    assert actions["R"].craft.value.ingredients[0].itemName == "P";
    assert actions["R"].craft.value.ingredients[1].itemName == "Y";
    assert actions["P"].craft.value.ingredients[0].itemName == "Y";
    assert actions["Y"].craft.value.ingredients[0].itemName == "Z";
  }

  /** The ingredient lists of the table may be walked below the ranks of their items. */
  lemma ChainBelow(actions: Actions, profit: real -> real)
    requires ChainTable(actions, profit)
    ensures WalkableBelow(actions, ChainRank(), ChainR, 2)
    ensures WalkableBelow(actions, ChainRank(), ChainP, 1)
    ensures WalkableBelow(actions, ChainRank(), ChainY, 0)
  {
  }

  /** The cascade from Y crafted under P: Y's use, then Z's Buy use under Y. */
  lemma ChainWalkY(actions: Actions, profit: real -> real, s: Items)
    requires ChainTable(actions, profit) && Cascadable(actions, s.Keys, "Y", ChainRank())
    ensures var s1 := s["Y" := WithUse(s["Y"], Craft, Some("P"), Some("p"), Some("y"))];
      Cascade(s, actions, ChainRank(), "Y", Some(Craft), Parent(Some("p"), Some("P")))
        == s1["Z" := WithUse(s1["Z"], Buy, Some("Y"), Some("y"), None)]
  {
    var below := Parent(Some("y"), Some("Y"));
    CascadeCases(s, actions, ChainRank(), "Y", Some(Craft), Parent(Some("p"), Some("P")));
    var s1 := s["Y" := WithUse(s["Y"], Craft, Some("P"), Some("p"), Some("y"))];
    assert ChainY[0..] == ChainY;
    ChainBelow(actions, profit);
    CascadeEachUnfold(s1, actions, ChainRank(), ChainY, 0, below, 0);
    CascadeCases(s1, actions, ChainRank(), "Z", Some(Buy), below);
    var s2 := s1["Z" := WithUse(s1["Z"], Buy, Some("Y"), Some("y"), None)];
    CascadeEachUnfold(s2, actions, ChainRank(), ChainY, 1, below, 0);
  }

  /** The cascade from P crafted under R: P's use, then the cascade from Y crafted under P. */
  lemma ChainWalkP(actions: Actions, profit: real -> real, s: Items)
    requires ChainTable(actions, profit) && Cascadable(actions, s.Keys, "P", ChainRank())
    ensures var s1 := s["P" := WithUse(s["P"], Craft, Some("R"), Some("r"), Some("p"))];
      && Cascadable(actions, s1.Keys, "Y", ChainRank())
      && Cascade(s, actions, ChainRank(), "P", Some(Craft), Parent(Some("r"), Some("R")))
           == Cascade(s1, actions, ChainRank(), "Y", Some(Craft), Parent(Some("p"), Some("P")))
  {
    var below := Parent(Some("p"), Some("P"));
    CascadeCases(s, actions, ChainRank(), "P", Some(Craft), Parent(Some("r"), Some("R")));
    var s1 := s["P" := WithUse(s["P"], Craft, Some("R"), Some("r"), Some("p"))];
    assert ChainP[0..] == ChainP;
    ChainBelow(actions, profit);
    CascadeEachUnfold(s1, actions, ChainRank(), ChainP, 0, below, 1);
    var s2 := Cascade(s1, actions, ChainRank(), "Y", Some(Craft), below);
    CascadeEachUnfold(s2, actions, ChainRank(), ChainP, 1, below, 1);
  }

  /** The cascade from R crafted at the root: R's use, the cascade from P, then Y's Buy use under R. */
  lemma ChainWalkR(actions: Actions, profit: real -> real, s: Items)
    requires ChainTable(actions, profit) && Cascadable(actions, s.Keys, "R", ChainRank())
    ensures var s1 := s["R" := WithUse(s["R"], Craft, None, None, Some("r"))];
      && Cascadable(actions, s1.Keys, "P", ChainRank())
      && var s2 := Cascade(s1, actions, ChainRank(), "P", Some(Craft), Parent(Some("r"), Some("R")));
      Cascade(s, actions, ChainRank(), "R", Some(Craft), NoParent)
        == s2["Y" := WithUse(s2["Y"], Buy, Some("R"), Some("r"), None)]
  {
    var below := Parent(Some("r"), Some("R"));
    CascadeCases(s, actions, ChainRank(), "R", Some(Craft), NoParent);
    var s1 := s["R" := WithUse(s["R"], Craft, None, None, Some("r"))];
    assert ChainR[0..] == ChainR;
    ChainBelow(actions, profit);
    CascadeEachUnfold(s1, actions, ChainRank(), ChainR, 0, below, 2);
    var s2 := Cascade(s1, actions, ChainRank(), "P", Some(Craft), below);
    CascadeEachUnfold(s2, actions, ChainRank(), ChainR, 1, below, 2);
    CascadeCases(s2, actions, ChainRank(), "Y", Some(Buy), below);
    var s3 := s2["Y" := WithUse(s2["Y"], Buy, Some("R"), Some("r"), None)];
    CascadeEachUnfold(s3, actions, ChainRank(), ChainR, 2, below, 2);
  }

  /** The cascade from R at the root, item by item: each item of the tree gets its uses in walk order. */
  lemma ChainCascadeKeys(actions: Actions, profit: real -> real, s: Items)
    requires ChainTable(actions, profit) && Cascadable(actions, s.Keys, "R", ChainRank())
    ensures var r := Cascade(s, actions, ChainRank(), "R", Some(Craft), NoParent);
      && r.Keys == s.Keys
      && r["R"] == WithUse(s["R"], Craft, None, None, Some("r"))
      && r["P"] == WithUse(s["P"], Craft, Some("R"), Some("r"), Some("p"))
      && r["Y"] == WithUse(WithUse(s["Y"], Craft, Some("P"), Some("p"), Some("y")), Buy, Some("R"), Some("r"), None)
      && r["Z"] == WithUse(s["Z"], Buy, Some("Y"), Some("y"), None)
  {
    ChainWalkR(actions, profit, s);
    var s1 := s["R" := WithUse(s["R"], Craft, None, None, Some("r"))];
    ChainWalkP(actions, profit, s1);
    var s2 := s1["P" := WithUse(s1["P"], Craft, Some("R"), Some("r"), Some("p"))];
    ChainWalkY(actions, profit, s2);
  }

  /** Selecting r for R on clean items records one use on each item of the tree, in walk order. */
  lemma ChainFirst(actions: Actions, profit: real -> real, items: Items)
    requires ChainTable(actions, profit) && Cascadable(actions, items.Keys, "R", ChainRank())
    requires forall k :: k in items ==> Clean(items[k])
    ensures Closed(items) && WellRanked(items, ZeroRank(items))
    ensures var r := SelectSpec(items, ZeroRank(items), "R", "r", actions, ChainRank());
      && r.Keys == items.Keys
      && r["R"] == items["R"].(usedInRecipes := [Use(Craft, None, None)], activeRecipeId := Some("r"))
      && r["P"] == items["P"].(usedInRecipes := [Use(Craft, Some("R"), Some("r"))], activeRecipeId := Some("p"))
      && r["Y"] == items["Y"].(usedInRecipes := [Use(Craft, Some("P"), Some("p")), Use(Buy, Some("R"), Some("r"))],
                               activeRecipeId := None)
      && r["Z"] == items["Z"].(usedInRecipes := [Use(Buy, Some("Y"), Some("y"))], activeRecipeId := None)
  {
    SelectOnClean(items, "R", "r", actions, ChainRank());
    var s0 := items["R" := WithSelection(items["R"], "r")];
    ChainCascadeKeys(actions, profit, s0);
    assert s0["P"] == items["P"] && s0["Y"] == items["Y"] && s0["Z"] == items["Z"];
    FirstUse(s0["R"], Craft, None, None, Some("r"));
    FirstUse(items["P"], Craft, Some("R"), Some("r"), Some("p"));
    FirstUse(items["Z"], Buy, Some("Y"), Some("y"), None);
    FirstUse(items["Y"], Craft, Some("P"), Some("p"), Some("y"));
    var y1 := items["Y"].(usedInRecipes := [Use(Craft, Some("P"), Some("p"))], activeRecipeId := Some("y"));
    UseUnderParent(y1, Buy, Some("R"), "r", None);
    assert [Use(Craft, Some("P"), Some("p"))] + [Use(Buy, Some("R"), Some("r"))]
        == [Use(Craft, Some("P"), Some("p")), Use(Buy, Some("R"), Some("r"))];
  }

  /**
   * Selecting r for R again, where the earlier selection reset region is P and
   * Y: Z is not reset, so it keeps its use and the cascade appends another
   * one; R's own use is not recorded again.
   */
  lemma ChainSecond(actions: Actions, profit: real -> real, first: Items)
    requires ChainTable(actions, profit) && Cascadable(actions, first.Keys, "R", ChainRank())
    requires Closed(first) && WellRanked(first, ChainRank())
    requires ResetRegion(first, ChainRank(), "R") == {"P", "Y"}
    requires first["R"].usedInRecipes != []
    ensures var r := SelectSpec(first, ChainRank(), "R", "r", actions, ChainRank());
      && r["Z"].usedInRecipes == first["Z"].usedInRecipes + [Use(Buy, Some("Y"), Some("y"))]
      && r["R"].usedInRecipes == first["R"].usedInRecipes
  {
    var cleared := ResetSet(first, {"P", "Y"});
    var s0 := cleared["R" := WithSelection(cleared["R"], "r")];
    assert s0["Z"] == first["Z"] && s0["R"].usedInRecipes == first["R"].usedInRecipes;
    ChainCascadeKeys(actions, profit, s0);
    UseGuardAsWritten(s0["R"].usedInRecipes, None);
    WithUseEffect(s0["Z"], Buy, Some("Y"), Some("y"), None);
  }

  /** After the first selection the active recipes form the tree R over P and Y, and P over Y. */
  lemma ChainTree(first: Items)
    requires first.Keys == {"R", "P", "Y", "Z"}
    requires first["R"].activeRecipeId == Some("r") && "r" in first["R"].recipes
    requires Names(first["R"].recipes["r"].ingredients) == ["P", "Y"]
    requires first["P"].activeRecipeId == Some("p") && "p" in first["P"].recipes
    requires Names(first["P"].recipes["p"].ingredients) == ["Y"]
    requires first["Y"].activeRecipeId == None && first["Z"].activeRecipeId == None
    ensures Children(first, "R") == ["P", "Y"] && Children(first, "P") == ["Y"]
    ensures Children(first, "Y") == [] && Children(first, "Z") == []
    ensures Closed(first) && WellRanked(first, ChainRank())
  {
    assert Children(first, "R") == ["P", "Y"];
    assert Children(first, "P") == ["Y"];
    assert Children(first, "Y") == [] && Children(first, "Z") == [];
  }

  /** On that tree a second selection at R resets P and Y. */
  lemma ChainRegion(first: Items)
    requires Closed(first) && WellRanked(first, ChainRank()) && {"R", "P", "Y"} <= first.Keys
    requires Children(first, "R") == ["P", "Y"] && Children(first, "P") == ["Y"] && Children(first, "Y") == []
    ensures ResetRegion(first, ChainRank(), "R") == {"P", "Y"}
  {
    var rank := ChainRank();
    assert Reach(first, rank, "Y") == {"Y"};
    assert ["Y"][..0] == [];
    assert Reach(first, rank, "P") == {"P", "Y"};
    assert ["P", "Y"][..1] == ["P"] && ["P"][..0] == [];
  }

  /** The ingredient names of the recipes of ChainItems. */
  lemma ChainItemsShape()
    ensures ChainItems().Keys == {"R", "P", "Y", "Z"}
    ensures forall k :: k in ChainItems() ==> Clean(ChainItems()[k])
    ensures "r" in ChainItems()["R"].recipes && Names(ChainItems()["R"].recipes["r"].ingredients) == ["P", "Y"]
    ensures "p" in ChainItems()["P"].recipes && Names(ChainItems()["P"].recipes["p"].ingredients) == ["Y"]
  {
    assert Names([Ingredient("P", 1.0, None), Ingredient("Y", 1.0, None)]) == ["P", "Y"];
    assert Names([Ingredient("Y", 1.0, None)]) == ["Y"];
  }

  /** A second selection of r for R on a state shaped like the first selection's result. */
  lemma ChainAgain(actions: Actions, profit: real -> real, first: Items)
    requires ChainTable(actions, profit) && Cascadable(actions, first.Keys, "R", ChainRank())
    requires first.Keys == {"R", "P", "Y", "Z"}
    requires first["R"].activeRecipeId == Some("r") && "r" in first["R"].recipes
    requires Names(first["R"].recipes["r"].ingredients) == ["P", "Y"]
    requires first["P"].activeRecipeId == Some("p") && "p" in first["P"].recipes
    requires Names(first["P"].recipes["p"].ingredients) == ["Y"]
    requires first["Y"].activeRecipeId == None && first["Z"].activeRecipeId == None
    requires first["R"].usedInRecipes != []
    ensures Closed(first) && WellRanked(first, ChainRank())
    ensures var r := SelectSpec(first, ChainRank(), "R", "r", actions, ChainRank());
      r["Z"].usedInRecipes == first["Z"].usedInRecipes + [Use(Buy, Some("Y"), Some("y"))]
  {
    ChainTree(first);
    ChainRegion(first);
    ChainSecond(actions, profit, first);
  }

  /**
   * Selecting the same recipe twice need not give the same state: on
   * ChainItems with the verdicts of ChainActions, Z holds one back-reference
   * after the first selection of r for R and two after the second.
   */
  lemma SelectTwiceDiffers(profit: real -> real)
    ensures Closed(ChainItems()) && WellRanked(ChainItems(), ZeroRank(ChainItems()))
    ensures Cascadable(ChainActions(profit), ChainItems().Keys, "R", ChainRank())
    ensures var first := SelectSpec(ChainItems(), ZeroRank(ChainItems()), "R", "r", ChainActions(profit), ChainRank());
      && Closed(first) && WellRanked(first, ChainRank())
      && Cascadable(ChainActions(profit), first.Keys, "R", ChainRank())
      && var second := SelectSpec(first, ChainRank(), "R", "r", ChainActions(profit), ChainRank());
      && |first["Z"].usedInRecipes| == 1
      && |second["Z"].usedInRecipes| == 2
      && first != second
  {
    var items := ChainItems();
    var actions := ChainActions(profit);
    ChainItemsShape();
    ChainCascadable(profit, items.Keys);
    ChainFirst(actions, profit, items);
    var first := SelectSpec(items, ZeroRank(items), "R", "r", actions, ChainRank());
    ChainAgain(actions, profit, first);
  }
}
