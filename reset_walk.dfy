/**
 * The recursive reset of recipesDashboard.jsx, stated on the dictionary of
 * item states: the active-recipe ingredient edges, acyclicity as a ranking
 * that decreases along every edge, the set of items reachable from an item,
 * and the dictionary with a set of items reset.
 */
module ResetWalk {
  import opened Wrappers
  import opened RecipeGraph

  type Items = map<string, ItemState>

  /** The `Item Name` of each ingredient, in order. */
  function Names(ingredients: seq<Ingredient>): seq<string>
  {
    seq(|ingredients|, i requires 0 <= i < |ingredients| => ingredients[i].itemName)
  }

  /** The ingredient names of the item's active recipe (none when nothing is active). */
  function Children(items: Items, name: string): seq<string>
    requires name in items
  {
    var item := items[name];
    if item.activeRecipeId.Some? && item.activeRecipeId.value in item.recipes
    then Names(item.recipes[item.activeRecipeId.value].ingredients)
    else []
  }

  /**
   * Every lookup of the walk succeeds: an active recipe id names one of the
   * item's recipes, and each of its ingredients is an item of the dictionary.
   */
  ghost predicate Closed(items: Items)
  {
    forall n :: n in items ==>
      && (items[n].activeRecipeId.Some? ==> items[n].activeRecipeId.value in items[n].recipes)
      && (forall c :: c in Children(items, n) ==> c in items)
  }

  /** The active-recipe graph is acyclic: `rank` strictly decreases along every edge. */
  ghost predicate WellRanked(items: Items, rank: map<string, nat>)
  {
    forall n :: n in items ==>
      && n in rank
      && (forall c :: c in Children(items, n) ==> c in rank && rank[c] < rank[n])
  }

  /** A set of items that no active-recipe edge leaves. */
  ghost predicate EdgeClosed(items: Items, r: set<string>)
  {
    forall x :: x in r ==> x in items && (forall c :: c in Children(items, x) ==> c in r)
  }

  /** The items reachable from `name` through active-recipe ingredient edges, `name` included. */
  ghost function Reach(items: Items, rank: map<string, nat>, name: string): (r: set<string>)
    requires Closed(items) && WellRanked(items, rank) && name in items
    ensures name in r
    ensures forall x :: x in r ==> x in items && x in rank && rank[x] <= rank[name]
    decreases rank[name], 1, 0
  {
    {name} + ReachAll(items, rank, Children(items, name), rank[name])
  }

  /** The items reachable from any of `names`. */
  ghost function ReachAll(items: Items, rank: map<string, nat>, names: seq<string>, bound: nat): (r: set<string>)
    requires Closed(items) && WellRanked(items, rank)
    requires forall c :: c in names ==> c in items && c in rank && rank[c] < bound
    ensures forall c :: c in names ==> c in r
    ensures forall x :: x in r ==> x in items && x in rank && rank[x] < bound
    decreases bound, 0, |names|
  {
    if names == [] then {}
    else ReachAll(items, rank, names[..|names| - 1], bound) + Reach(items, rank, names[|names| - 1])
  }

  /** The dictionary after `resetUses` on every item of `reset`; all other items are as before. */
  ghost function ResetSet(items: Items, reset: set<string>): (r: Items)
    ensures r.Keys == items.Keys
  {
    map k | k in items :: if k in reset then Cleared(items[k]) else items[k]
  }

  // ----- reachability -----

  /** No active-recipe edge leaves the reachable set. */
  lemma {:induction false} ReachEdgeClosed(items: Items, rank: map<string, nat>, name: string)
    requires Closed(items) && WellRanked(items, rank) && name in items
    ensures EdgeClosed(items, Reach(items, rank, name))
    decreases rank[name], 1, 0
  {
    ReachAllEdgeClosed(items, rank, Children(items, name), rank[name]);
  }

  lemma {:induction false} ReachAllEdgeClosed(items: Items, rank: map<string, nat>, names: seq<string>, bound: nat)
    requires Closed(items) && WellRanked(items, rank)
    requires forall c :: c in names ==> c in items && c in rank && rank[c] < bound
    ensures EdgeClosed(items, ReachAll(items, rank, names, bound))
    decreases bound, 0, |names|
  {
    if names != [] {
      ReachAllEdgeClosed(items, rank, names[..|names| - 1], bound);
      ReachEdgeClosed(items, rank, names[|names| - 1]);
    }
  }

  /** The reachable set is the least edge-closed set containing `name`. */
  lemma {:induction false} ReachIsLeast(items: Items, rank: map<string, nat>, name: string, r: set<string>)
    requires Closed(items) && WellRanked(items, rank) && name in items
    requires EdgeClosed(items, r) && name in r
    ensures Reach(items, rank, name) <= r
    decreases rank[name], 1, 0
  {
    ReachAllIsLeast(items, rank, Children(items, name), rank[name], r);
  }

  lemma {:induction false} ReachAllIsLeast(items: Items, rank: map<string, nat>, names: seq<string>, bound: nat, r: set<string>)
    requires Closed(items) && WellRanked(items, rank)
    requires forall c :: c in names ==> c in items && c in rank && rank[c] < bound
    requires EdgeClosed(items, r) && forall c :: c in names ==> c in r
    ensures ReachAll(items, rank, names, bound) <= r
    decreases bound, 0, |names|
  {
    if names != [] {
      ReachAllIsLeast(items, rank, names[..|names| - 1], bound, r);
      ReachIsLeast(items, rank, names[|names| - 1], r);
    }
  }

  // ----- resetting -----

  /** A reset item has no ingredient edges; every other item keeps its edges. */
  lemma ChildrenAfterReset(items: Items, reset: set<string>, name: string)
    requires name in items
    ensures Children(ResetSet(items, reset), name) == if name in reset then [] else Children(items, name)
  {
  }

  /** Resetting keeps the dictionary walkable and keeps every ranking valid. */
  lemma ResetPreserves(items: Items, rank: map<string, nat>, reset: set<string>)
    requires Closed(items) && WellRanked(items, rank)
    ensures Closed(ResetSet(items, reset)) && WellRanked(ResetSet(items, reset), rank)
  {
    forall n | n in items
      ensures Children(ResetSet(items, reset), n) == if n in reset then [] else Children(items, n)
    {
      ChildrenAfterReset(items, reset, n);
    }
  }

  /** Two resets in a row are one reset of the union. */
  lemma ResetSetTwice(items: Items, first: set<string>, second: set<string>)
    ensures ResetSet(ResetSet(items, first), second) == ResetSet(items, first + second)
  {
    forall k | k in items
      ensures ResetSet(ResetSet(items, first), second)[k] == ResetSet(items, first + second)[k]
    {
      ClearedEffect(items[k]);
    }
  }

  /**
   * After resetting an edge-closed set, what is reachable from `name` together with
   * that set is what was reachable before together with it.
   */
  lemma {:induction false} ReachAfterReset(items: Items, rank: map<string, nat>, reset: set<string>, name: string)
    requires Closed(items) && WellRanked(items, rank) && name in items
    requires EdgeClosed(items, reset)
    requires Closed(ResetSet(items, reset)) && WellRanked(ResetSet(items, reset), rank)
    ensures Reach(ResetSet(items, reset), rank, name) + reset == Reach(items, rank, name) + reset
    decreases rank[name], 1, 0
  {
    var after := ResetSet(items, reset);
    ChildrenAfterReset(items, reset, name);
    if name in reset {
      assert Reach(after, rank, name) == {name};
      ReachIsLeast(items, rank, name, reset);
    } else {
      ReachAllAfterReset(items, rank, reset, Children(items, name), rank[name]);
    }
  }

  lemma {:induction false} ReachAllAfterReset(items: Items, rank: map<string, nat>, reset: set<string>, names: seq<string>, bound: nat)
    requires Closed(items) && WellRanked(items, rank)
    requires forall c :: c in names ==> c in items && c in rank && rank[c] < bound
    requires EdgeClosed(items, reset)
    requires Closed(ResetSet(items, reset)) && WellRanked(ResetSet(items, reset), rank)
    ensures ReachAll(ResetSet(items, reset), rank, names, bound) + reset == ReachAll(items, rank, names, bound) + reset
    decreases bound, 0, |names|
  {
    if names != [] {
      var after := ResetSet(items, reset);
      var init, last := names[..|names| - 1], names[|names| - 1];
      assert forall c :: c in init ==> c in names;
      ReachAllAfterReset(items, rank, reset, init, bound);
      ReachAfterReset(items, rank, reset, last);
      UnionsAgree(ReachAll(after, rank, init, bound), Reach(after, rank, last),
                  ReachAll(items, rank, init, bound), Reach(items, rank, last), reset);
    }
  }

  lemma UnionsAgree(a0: set<string>, a1: set<string>, b0: set<string>, b1: set<string>, reset: set<string>)
    requires a0 + reset == b0 + reset && a1 + reset == b1 + reset
    ensures (a0 + a1) + reset == (b0 + b1) + reset
  {
    assert (a0 + a1) + reset == (a0 + reset) + (a1 + reset);
    assert (b0 + b1) + reset == (b0 + reset) + (b1 + reset);
  }

  /**
   * One more recursive reset, of `name`, after the subtrees `done` were reset, is
   * the same as resetting `done` together with what `name` reached originally.
   */
  lemma ResetStep(items: Items, rank: map<string, nat>, done: set<string>, name: string)
    requires Closed(items) && WellRanked(items, rank) && name in items
    requires EdgeClosed(items, done)
    requires Closed(ResetSet(items, done)) && WellRanked(ResetSet(items, done), rank)
    ensures ResetSet(ResetSet(items, done), Reach(ResetSet(items, done), rank, name))
         == ResetSet(items, done + Reach(items, rank, name))
  {
    var after := ResetSet(items, done);
    ResetSetTwice(items, done, Reach(after, rank, name));
    ReachAfterReset(items, rank, done, name);
    assert done + Reach(after, rank, name) == done + Reach(items, rank, name);
  }

  /** The recursive reset of `name`: the items it reaches are reset, all others are unchanged. */
  lemma ResetReachMeaning(items: Items, rank: map<string, nat>, name: string)
    requires Closed(items) && WellRanked(items, rank) && name in items
    ensures var r := ResetSet(items, Reach(items, rank, name));
      && r.Keys == items.Keys
      && Clean(r[name])
      && (forall k :: k in Reach(items, rank, name) ==> Clean(r[k]) && r[k] == Cleared(items[k]))
      && (forall k :: k in items && k !in Reach(items, rank, name) ==> r[k] == items[k])
      && (forall k, c :: k in Reach(items, rank, name) && c in Children(items, k) ==> c in Reach(items, rank, name))
  {
    ReachEdgeClosed(items, rank, name);
    ClearedEffect(items[name]);
    forall k | k in Reach(items, rank, name) ensures Clean(Cleared(items[k])) {
      ClearedEffect(items[k]);
    }
  }

  /**
   * The reset that starts below `name` (startRecursiveReset) never reaches
   * `name` itself, and does nothing when `name` has no active recipe.
   */
  lemma StartResetShape(items: Items, rank: map<string, nat>, name: string)
    requires Closed(items) && WellRanked(items, rank) && name in items
    ensures name !in ReachAll(items, rank, Children(items, name), rank[name])
    ensures items[name].activeRecipeId.None? ==> ResetSet(items, ReachAll(items, rank, Children(items, name), rank[name])) == items
  {
  }

  /** The last step of recursivelyResetItemUses: after its subtree, the item itself is reset. */
  lemma ResetItemLast(items: Items, rank: map<string, nat>, name: string)
    requires Closed(items) && WellRanked(items, rank) && name in items
    ensures var mid := ResetSet(items, ReachAll(items, rank, Children(items, name), rank[name]));
      mid[name := Cleared(mid[name])] == ResetSet(items, Reach(items, rank, name))
  {
    var below := ReachAll(items, rank, Children(items, name), rank[name]);
    var mid := ResetSet(items, below);
    ResetSetTwice(items, below, {name});
    ResetOne(mid, name);
    assert below + {name} == Reach(items, rank, name);
  }

  /** Resetting the single item `name` is `resetUses` on that one entry. */
  lemma ResetOne(items: Items, name: string)
    requires name in items
    ensures ResetSet(items, {name}) == items[name := Cleared(items[name])]
  {
  }

  /**
   * One step of the loop over a recipe's ingredients: with the subtrees of the
   * first `i` ingredients reset, resetting the subtree of ingredient `i` (as
   * it is now) yields the reset of the first `i + 1` subtrees.
   */
  lemma ResetIngredientStep(items: Items, rank: map<string, nat>, names: seq<string>, bound: nat, i: nat)
    requires Closed(items) && WellRanked(items, rank)
    requires forall c :: c in names ==> c in items && c in rank && rank[c] < bound
    requires i < |names|
    ensures forall c :: c in names[..i] ==> c in names
    ensures forall c :: c in names[..i + 1] ==> c in names
    ensures var cur := ResetSet(items, ReachAll(items, rank, names[..i], bound));
      && Closed(cur) && WellRanked(cur, rank) && names[i] in cur
      && ResetSet(cur, Reach(cur, rank, names[i])) == ResetSet(items, ReachAll(items, rank, names[..i + 1], bound))
    ensures var next := ResetSet(items, ReachAll(items, rank, names[..i + 1], bound));
      Closed(next) && WellRanked(next, rank)
  {
    PrefixWithin(names, i);
    PrefixWithin(names, i + 1);
    var done := ReachAll(items, rank, names[..i], bound);
    ReachAllEdgeClosed(items, rank, names[..i], bound);
    ResetPreserves(items, rank, done);
    ResetStep(items, rank, done, names[i]);
    ReachAllPrefix(items, rank, names, bound, i);
    ResetPreserves(items, rank, done + Reach(items, rank, names[i]));
  }

  lemma PrefixWithin(names: seq<string>, i: nat)
    requires i <= |names|
    ensures forall c :: c in names[..i] ==> c in names
  {
  }

  /** The items reachable from the first `i + 1` names: those from the first `i`, and those from name `i`. */
  lemma ReachAllPrefix(items: Items, rank: map<string, nat>, names: seq<string>, bound: nat, i: nat)
    requires Closed(items) && WellRanked(items, rank)
    requires forall c :: c in names ==> c in items && c in rank && rank[c] < bound
    requires i < |names|
    requires forall c :: c in names[..i] ==> c in names
    requires forall c :: c in names[..i + 1] ==> c in names
    ensures ReachAll(items, rank, names[..i + 1], bound)
         == ReachAll(items, rank, names[..i], bound) + Reach(items, rank, names[i])
  {
    assert names[..i + 1][..i] == names[..i];
  }
}
