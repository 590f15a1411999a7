/**
 * The recipe list screen: the search filter, the order it shows the hits
 * in (name matches first, `Array.prototype.sort` being stable), and the
 * number of grid columns for a window width.
 *
 * `toLowerCase` is the parameter `lower`.
 */
module RecipeList {
  import opened Text
  import opened RecipeModel
  import opened Lists

  /** The lowercased query occurs in the lowercased name. */
  predicate NameMatches(r: Recipe, query: string, lower: string -> string) {
    Includes(lower(r.name), lower(query))
  }

  /** The lowercased query occurs in the name, in some ingredient name or in some tag. */
  predicate Matches(r: Recipe, query: string, lower: string -> string) {
    || NameMatches(r, query, lower)
    || (exists i :: 0 <= i < |r.ingredients| && Includes(lower(r.ingredients[i].name), lower(query)))
    || (exists i :: 0 <= i < |r.tags| && Includes(lower(r.tags[i]), lower(query)))
  }

  /** The search filter. */
  function FilterRecipes(recipes: seq<Recipe>, query: string, lower: string -> string): (r: seq<Recipe>)
    ensures forall x :: x in r <==> x in recipes && Matches(x, query, lower)
  {
    Keep(recipes, x => Matches(x, query, lower))
  }

  /** An empty query keeps the whole list, in order. */
  lemma EmptyQueryKeepsAll(recipes: seq<Recipe>, lower: string -> string)
    requires lower("") == ""
    ensures FilterRecipes(recipes, "", lower) == recipes
  {
    forall i | 0 <= i < |recipes| ensures Matches(recipes[i], "", lower) {
      EmptyIncludedEverywhere(lower(recipes[i].name));
    }
    KeepAll(recipes, x => Matches(x, "", lower));
  }

  /** The name test the sort comparator makes. */
  function NameTest(query: string, lower: string -> string): (p: Recipe -> bool)
    ensures forall x :: p(x) == NameMatches(x, query, lower)
  {
    x => NameMatches(x, query, lower)
  }

  /**
   * The sort: the comparator only tells name matches from the rest and
   * the sort is stable, so the outcome is the name matches in their order
   * followed by the others in theirs.
   */
  function SortByNameMatch(recipes: seq<Recipe>, query: string, lower: string -> string): (r: seq<Recipe>)
    ensures multiset(r) == multiset(recipes)
  {
    KeepPartition(recipes, NameTest(query, lower));
    Keep(recipes, NameTest(query, lower)) + Keep(recipes, Not(NameTest(query, lower)))
  }

  /** No recipe whose name does not match comes before one whose name does. */
  predicate NameMatchesFirst(s: seq<Recipe>, query: string, lower: string -> string) {
    PassersFirst(s, NameTest(query, lower))
  }

  /** Stability: within each of the comparator's two classes the order is that of `orig`. */
  predicate StableFor(s: seq<Recipe>, orig: seq<Recipe>, query: string, lower: string -> string) {
    && Keep(s, NameTest(query, lower)) == Keep(orig, NameTest(query, lower))
    && Keep(s, Not(NameTest(query, lower))) == Keep(orig, Not(NameTest(query, lower)))
  }

  /** The sort's outcome puts name matches first, is stable, and is a permutation. */
  lemma SortIsStableSort(recipes: seq<Recipe>, query: string, lower: string -> string)
    ensures var s := SortByNameMatch(recipes, query, lower);
      && NameMatchesFirst(s, query, lower)
      && StableFor(s, recipes, query, lower)
      && multiset(s) == multiset(recipes)
  {
    PartitionShape(recipes, NameTest(query, lower));
  }

  /**
   * Any stable ordering that puts the name matches first is this one: the
   * displayed order does not depend on which stable sort runs.
   */
  lemma StableSortIsUnique(s: seq<Recipe>, recipes: seq<Recipe>, query: string, lower: string -> string)
    requires NameMatchesFirst(s, query, lower) && StableFor(s, recipes, query, lower)
    ensures s == SortByNameMatch(recipes, query, lower)
  {
    PassersFirstSplits(s, NameTest(query, lower));
  }

  /** `filteredRecipes`: the filter, then the sort. */
  function VisibleRecipes(recipes: seq<Recipe>, query: string, lower: string -> string): (r: seq<Recipe>)
    ensures multiset(r) == multiset(FilterRecipes(recipes, query, lower))
  {
    SortByNameMatch(FilterRecipes(recipes, query, lower), query, lower)
  }

  /** The screen lists each matching recipe and nothing else, name matches first. */
  lemma VisibleRecipesShape(recipes: seq<Recipe>, query: string, lower: string -> string)
    ensures var v := VisibleRecipes(recipes, query, lower);
      && (forall x :: x in v <==> x in recipes && Matches(x, query, lower))
      && multiset(v) == multiset(FilterRecipes(recipes, query, lower))
      && NameMatchesFirst(v, query, lower)
  {
    var f := FilterRecipes(recipes, query, lower);
    SortIsStableSort(f, query, lower);
    forall x ensures x in VisibleRecipes(recipes, query, lower) <==> x in f {
      assert x in multiset(VisibleRecipes(recipes, query, lower)) <==> x in multiset(f);
    }
  }

  /** `numColumns`: 3 above 600, 2 above 300, else 1. */
  function NumColumns(width: real): (n: nat)
    ensures 1 <= n <= 3
    ensures n == 3 <==> width > 600.0
    ensures n == 1 <==> width <= 300.0
  {
    if width > 600.0 then 3 else if width > 300.0 then 2 else 1
  }

  /** A wider window never has fewer columns. */
  lemma NumColumnsMonotone(w1: real, w2: real)
    requires w1 <= w2
    ensures NumColumns(w1) <= NumColumns(w2)
  {
  }
}
