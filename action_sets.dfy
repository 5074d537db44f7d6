/**
 * `allOptimalActionSets`: the optimizer's action sets, one per recipe of the
 * root product, and the choice `resetToOptimal` makes among them.
 */
module ActionSets {
  import opened Wrappers
  import opened RecipeGraph
  import opened CascadeWalk

  /** One action set; only its `optimalActions` table is read. */
  datatype ActionSet = ActionSet(optimalActions: Actions)

  /** The sets keyed by root recipe id, with the keys in the order `for ... in` enumerates them. */
  datatype ActionSets = ActionSets(order: seq<string>, sets: map<string, ActionSet>)

  /** Every enumerated set holds a Craft verdict for the root product. */
  ghost predicate RootCrafted(s: ActionSets, product: string)
  {
    forall k :: k in s.order ==>
      k in s.sets && product in s.sets[k].optimalActions && s.sets[k].optimalActions[product].craft.Some?
  }

  /** `order` enumerates every key of `sets` exactly once, as `for ... in` does. */
  ghost predicate Enumerates(s: ActionSets)
  {
    && (forall k :: k in s.sets <==> k in s.order)
    && (forall i, j :: 0 <= i < j < |s.order| ==> s.order[i] != s.order[j])
  }

  /** ... and that verdict crafts the very recipe the set is keyed by. */
  ghost predicate KeyedByRootRecipe(s: ActionSets, product: string)
  {
    && Enumerates(s)
    && RootCrafted(s, product)
    && forall k :: k in s.order ==> s.sets[k].optimalActions[product].craft.value.recipeId == Some(k)
  }

  /**
   * Every set's table of verdicts walks from `product` without an unbroken
   * cycle of Craft verdicts, over items among `keys`; each set is ranked on
   * its own, by `RankFor(aranks, k)`.
   */
  ghost predicate AllCascadable(s: ActionSets, keys: set<string>, product: string, aranks: map<string, map<string, nat>>)
  {
    forall k :: k in s.sets ==> Cascadable(s.sets[k].optimalActions, keys, product, RankFor(aranks, k))
  }

  /** The ranking of the set keyed by `k`. */
  function RankFor(aranks: map<string, map<string, nat>>, k: string): map<string, nat>
  {
    if k in aranks then aranks[k] else map[]
  }

  /** `actionSet.optimalActions[product]['Craft'].calculateProfit(marketPrice)` for the set at `order[i]`. */
  function RootProfit(s: ActionSets, product: string, marketPrice: real, i: nat): real
    requires RootCrafted(s, product) && i < |s.order|
  {
    s.sets[s.order[i]].optimalActions[product].craft.value.profit(marketPrice)
  }

  /** `b` is the first position whose root Craft profit is the greatest. */
  ghost predicate IsFirstBest(s: ActionSets, product: string, marketPrice: real, b: nat)
    requires RootCrafted(s, product)
  {
    && b < |s.order|
    && (forall j :: 0 <= j < |s.order| ==> RootProfit(s, product, marketPrice, j) <= RootProfit(s, product, marketPrice, b))
    && (forall j :: 0 <= j < b ==> RootProfit(s, product, marketPrice, j) < RootProfit(s, product, marketPrice, b))
  }

  /**
   * The loop of `resetToOptimal`: the first set is taken, and a later one replaces
   * the current best only when its profit is strictly greater. None when there is no set.
   */
  method BestActionSetIndex(s: ActionSets, product: string, marketPrice: real) returns (best: Option<nat>)
    requires RootCrafted(s, product)
    ensures best.None? <==> |s.order| == 0
    ensures best.Some? ==> IsFirstBest(s, product, marketPrice, best.value)
  {
    best := None;
    for i := 0 to |s.order|
      invariant best.None? <==> i == 0
      invariant best.Some? ==> best.value < i
      invariant best.Some? ==> forall j :: 0 <= j < i ==> RootProfit(s, product, marketPrice, j) <= RootProfit(s, product, marketPrice, best.value)
      invariant best.Some? ==> forall j :: 0 <= j < best.value ==> RootProfit(s, product, marketPrice, j) < RootProfit(s, product, marketPrice, best.value)
    {
      if best.None? {
        best := Some(i);
        continue;
      }
      if RootProfit(s, product, marketPrice, best.value) < RootProfit(s, product, marketPrice, i) {
        best := Some(i);
      }
    }
  }

  /** The first best position is unique, so the choice is determined by the table. */
  lemma FirstBestUnique(s: ActionSets, product: string, marketPrice: real, b: nat, c: nat)
    requires RootCrafted(s, product)
    requires IsFirstBest(s, product, marketPrice, b) && IsFirstBest(s, product, marketPrice, c)
    ensures b == c
  {
    assert RootProfit(s, product, marketPrice, b) == RootProfit(s, product, marketPrice, c);
  }

  // ----- two root recipes that craft a pair of items in opposite directions -----

  const CraftA: seq<Ingredient> := [Ingredient("A", 1.0, Some(Craft))]
  const CraftB: seq<Ingredient> := [Ingredient("B", 1.0, Some(Craft))]
  const BuyA: seq<Ingredient> := [Ingredient("A", 1.0, Some(Buy))]
  const BuyB: seq<Ingredient> := [Ingredient("B", 1.0, Some(Buy))]

  /** Under r1, P is crafted from A, A from B, and A is bought below B. */
  function OppositeFirst(profit: real -> real): Actions
  {
    map["P" := ActionPair(None, Some(Action(Some("r1"), CraftA, profit))),
        "A" := ActionPair(Some(Action(None, [], profit)), Some(Action(Some("a"), CraftB, profit))),
        "B" := ActionPair(None, Some(Action(Some("b"), BuyA, profit)))]
  }

  /** Under r2, P is crafted from B, B from A, and B is bought below A. */
  function OppositeSecond(profit: real -> real): Actions
  {
    map["P" := ActionPair(None, Some(Action(Some("r2"), CraftB, profit))),
        "B" := ActionPair(Some(Action(None, [], profit)), Some(Action(Some("b"), CraftA, profit))),
        "A" := ActionPair(None, Some(Action(Some("a"), BuyB, profit)))]
  }

  function OppositeSets(profit: real -> real): ActionSets
  {
    ActionSets(["r1", "r2"], map["r1" := ActionSet(OppositeFirst(profit)), "r2" := ActionSet(OppositeSecond(profit))])
  }

  function FirstRank(): map<string, nat>
  {
    map["P" := 2, "A" := 1, "B" := 0]
  }

  function SecondRank(): map<string, nat>
  {
    map["P" := 2, "B" := 1, "A" := 0]
  }

  function OppositeRanks(): map<string, map<string, nat>>
  {
    map["r1" := FirstRank(), "r2" := SecondRank()]
  }

  lemma FirstCascadable(profit: real -> real)
    ensures Cascadable(OppositeFirst(profit), {"P", "A", "B"}, "P", FirstRank())
  {
    var actions := OppositeFirst(profit);
    assert actions["P"].craft.value.ingredients[0].itemName == "A";
    assert actions["A"].craft.value.ingredients[0].itemName == "B";
    assert actions["B"].craft.value.ingredients[0].itemName == "A";
  }

  lemma SecondCascadable(profit: real -> real)
    ensures Cascadable(OppositeSecond(profit), {"P", "A", "B"}, "P", SecondRank())
  {
    var actions := OppositeSecond(profit);
    assert actions["P"].craft.value.ingredients[0].itemName == "B";
    assert actions["B"].craft.value.ingredients[0].itemName == "A";
    assert actions["A"].craft.value.ingredients[0].itemName == "B";
  }

  /** No single ranking serves both sets: the first needs A above B, the second B above A. */
  lemma NoSharedRank(profit: real -> real, arank: map<string, nat>)
    requires Cascadable(OppositeFirst(profit), {"P", "A", "B"}, "P", arank)
    ensures !Cascadable(OppositeSecond(profit), {"P", "A", "B"}, "P", arank)
  {
    assert OppositeFirst(profit)["A"].craft.value.ingredients[0] == Ingredient("B", 1.0, Some(Craft));
    assert arank["B"] < arank["A"];
    assert OppositeSecond(profit)["B"].craft.value.ingredients[0] == Ingredient("A", 1.0, Some(Craft));
  }

  /** With one ranking per set, both sets are accepted. */
  lemma OppositeSetsCascadable(profit: real -> real)
    ensures KeyedByRootRecipe(OppositeSets(profit), "P")
    ensures AllCascadable(OppositeSets(profit), {"P", "A", "B"}, "P", OppositeRanks())
  {
    FirstCascadable(profit);
    SecondCascadable(profit);
    var s := OppositeSets(profit);
    assert s.sets.Keys == {"r1", "r2"};
    assert RankFor(OppositeRanks(), "r1") == FirstRank();
    assert RankFor(OppositeRanks(), "r2") == SecondRank();
  }
}
