/**
 * The selection logic of the export screen: the list shows a "Select All"
 * row followed by the recipes, tapping a row toggles it, and the export
 * takes the selected recipes in list order. The zip, copy and share steps
 * are not part of this model.
 */
module ExportRecipes {
  import opened RecipeModel
  import opened Lists

  /** The id of the "Select All" row. */
  const SelectAllId := "select-all"

  /** `recipes.map(r => r.id)`. */
  function Ids(recipes: seq<Recipe>): (r: seq<string>)
    ensures |r| == |recipes|
    ensures forall i :: 0 <= i < |recipes| ==> r[i] == recipes[i].id
  {
    seq(|recipes|, i requires 0 <= i < |recipes| => recipes[i].id)
  }

  /**
   * `handleToggleRecipe(recipeId)`. The "Select All" row clears the
   * selection when it is as long as the recipe list and selects every
   * recipe otherwise; any other row is dropped from the selection when it
   * is in it and appended when it is not.
   */
  function ToggleRecipe(recipes: seq<Recipe>, selected: seq<string>, recipeId: string): (r: seq<string>)
    ensures recipeId == SelectAllId && |selected| == |recipes| ==> r == []
    ensures recipeId == SelectAllId && |selected| != |recipes| ==> r == Ids(recipes)
    ensures recipeId != SelectAllId ==> (recipeId in r <==> recipeId !in selected)
    ensures recipeId != SelectAllId ==> forall x :: x != recipeId ==> (x in r <==> x in selected)
  {
    if recipeId == SelectAllId then
      if |selected| == |recipes| then [] else Ids(recipes)
    else if recipeId in selected then Without(selected, recipeId)
    else selected + [recipeId]
  }

  /** Tapping an unselected recipe twice restores the selection exactly. */
  lemma ToggleTwiceRestores(recipes: seq<Recipe>, selected: seq<string>, recipeId: string)
    requires recipeId != SelectAllId && recipeId !in selected
    ensures ToggleRecipe(recipes, ToggleRecipe(recipes, selected, recipeId), recipeId) == selected
  {
    WithoutAppend(selected, [recipeId], recipeId);
    WithoutAbsent(selected, recipeId);
    assert Without([recipeId], recipeId) == [];
  }

  /** Tapping a selected recipe twice moves it to the end of the selection. */
  lemma ToggleSelectedTwiceMovesToEnd(recipes: seq<Recipe>, selected: seq<string>, recipeId: string)
    requires recipeId != SelectAllId && recipeId in selected
    ensures ToggleRecipe(recipes, ToggleRecipe(recipes, selected, recipeId), recipeId)
      == Without(selected, recipeId) + [recipeId]
  {
  }

  /** Tapping "Select All" on a partial selection and then again clears it. */
  lemma SelectAllTwiceClears(recipes: seq<Recipe>, selected: seq<string>)
    requires |selected| != |recipes|
    ensures ToggleRecipe(recipes, ToggleRecipe(recipes, selected, SelectAllId), SelectAllId) == []
  {
  }

  /** `isAllSelected`: the counts agree and there is a recipe. */
  predicate IsAllSelected(recipes: seq<Recipe>, selected: seq<string>) {
    |selected| == |recipes| && |recipes| > 0
  }

  /** Whether a row shows as selected. */
  predicate IsSelected(recipes: seq<Recipe>, selected: seq<string>, rowId: string) {
    if rowId == SelectAllId then IsAllSelected(recipes, selected) else rowId in selected
  }

  /** `recipes.filter(r => selectedRecipes.includes(r.id))`. */
  function RecipesToExport(recipes: seq<Recipe>, selected: seq<string>): (r: seq<Recipe>)
    ensures forall x :: x in r <==> x in recipes && x.id in selected
    ensures |r| <= |recipes|
  {
    Keep(recipes, (x: Recipe) => x.id in selected)
  }

  /** After "Select All" every recipe is exported, in list order. */
  lemma SelectAllExportsAll(recipes: seq<Recipe>)
    ensures RecipesToExport(recipes, Ids(recipes)) == recipes
  {
    var ids := Ids(recipes);
    forall i | 0 <= i < |recipes| ensures recipes[i].id in ids {
      assert ids[i] == recipes[i].id;
    }
    KeepAll(recipes, (x: Recipe) => x.id in ids);
  }

  // ---------------------------------------------------------------------
  // The count check is sound for the selections the screen can reach

  /** No value occurs twice. */
  predicate NoDuplicates(s: seq<string>) {
    forall i, j :: 0 <= i < j < |s| ==> s[i] != s[j]
  }

  /** No two recipes on the screen share an id. */
  predicate DistinctIds(recipes: seq<Recipe>) {
    NoDuplicates(Ids(recipes))
  }

  /** A selection the screen can reach: ids of listed recipes, each once. */
  predicate Reachable(recipes: seq<Recipe>, selected: seq<string>) {
    NoDuplicates(selected) && forall x :: x in selected ==> x in Ids(recipes)
  }

  /** The set of a list without duplicates has as many elements as the list. */
  lemma {:induction false} NoDuplicatesCard(s: seq<string>)
    requires NoDuplicates(s)
    ensures |set x | x in s| == |s|
  {
    if s != [] {
      var rest := s[1..];
      assert NoDuplicates(rest) by {
        forall i, j | 0 <= i < j < |rest| ensures rest[i] != rest[j] {
          assert rest[i] == s[i + 1] && rest[j] == s[j + 1];
        }
      }
      NoDuplicatesCard(rest);
      assert s[0] !in rest by {
        forall j | 0 <= j < |rest| ensures rest[j] != s[0] {
          assert rest[j] == s[j + 1];
        }
      }
      assert (set x | x in s) == {s[0]} + (set x | x in rest) by {
        assert s == [s[0]] + rest;
      }
    }
  }

  /** A subset as large as its superset is the whole superset. */
  lemma SubsetSameSize(a: set<string>, b: set<string>)
    requires a <= b && |a| == |b|
    ensures a == b
  {
    assert b == a + (b - a);
    assert |b - a| == 0;
  }

  /** The initial, empty selection is reachable. */
  lemma EmptySelectionReachable(recipes: seq<Recipe>)
    ensures Reachable(recipes, [])
  {
  }

  /** Every tap on a row of the screen keeps the selection reachable. */
  lemma ToggleKeepsReachable(recipes: seq<Recipe>, selected: seq<string>, recipeId: string)
    requires DistinctIds(recipes) && Reachable(recipes, selected)
    requires recipeId == SelectAllId || recipeId in Ids(recipes)
    ensures Reachable(recipes, ToggleRecipe(recipes, selected, recipeId))
  {
    var r := ToggleRecipe(recipes, selected, recipeId);
    if recipeId != SelectAllId {
      if recipeId in selected {
        WithoutKeepsNoDuplicates(selected, recipeId);
      } else {
        forall i, j | 0 <= i < j < |r| ensures r[i] != r[j] {
          if j == |selected| {
            assert r[i] == selected[i];
          } else {
            assert r[i] == selected[i] && r[j] == selected[j];
          }
        }
      }
    }
  }

  lemma {:induction false} WithoutKeepsNoDuplicates(s: seq<string>, v: string)
    requires NoDuplicates(s)
    ensures NoDuplicates(Without(s, v))
  {
    if s != [] {
      var rest := s[1..];
      assert NoDuplicates(rest) by {
        forall i, j | 0 <= i < j < |rest| ensures rest[i] != rest[j] {
          assert rest[i] == s[i + 1] && rest[j] == s[j + 1];
        }
      }
      WithoutKeepsNoDuplicates(rest, v);
      if s[0] != v {
        var tail := Without(rest, v);
        assert s[0] !in tail by {
          forall j | 0 <= j < |rest| ensures rest[j] != s[0] {
            assert rest[j] == s[j + 1];
          }
        }
        forall i, j | 0 <= i < j < |[s[0]] + tail| ensures ([s[0]] + tail)[i] != ([s[0]] + tail)[j] {
          if i > 0 {
            assert ([s[0]] + tail)[i] == tail[i - 1];
          }
        }
      }
    }
  }

  /**
   * On a reachable selection the count comparison that drives "Select
   * All" says exactly whether every recipe is selected.
   */
  lemma CountCheckIsSound(recipes: seq<Recipe>, selected: seq<string>)
    requires DistinctIds(recipes) && Reachable(recipes, selected)
    ensures |selected| == |recipes| <==> forall i :: 0 <= i < |recipes| ==> recipes[i].id in selected
    ensures IsAllSelected(recipes, selected) <==>
      |recipes| > 0 && forall i :: 0 <= i < |recipes| ==> recipes[i].id in selected
  {
    var ids := Ids(recipes);
    var sel := set x | x in selected;
    var all := set x | x in ids;
    NoDuplicatesCard(selected);
    NoDuplicatesCard(ids);
    assert sel <= all;
    if |selected| == |recipes| {
      SubsetSameSize(sel, all);
      forall i | 0 <= i < |recipes| ensures recipes[i].id in selected {
        assert ids[i] in all;
      }
    }
    if forall i :: 0 <= i < |recipes| ==> recipes[i].id in selected {
      forall x | x in all ensures x in sel {
        var i :| 0 <= i < |ids| && ids[i] == x;
      }
      assert sel == all;
    }
  }
}
