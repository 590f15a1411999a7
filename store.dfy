/**
 * The recipe store: the in-memory collection of recipes, its persistence to
 * a single storage slot, and change notification to a set of listeners.
 */
module RecipeStoreModel {
  import opened Wrappers
  import opened Text
  import opened RecipeModel

  /** A listener's identity; adding the same listener twice registers it once. */
  type Listener = nat

  /** One notification: every registered listener receives a copy of the whole collection. */
  datatype Notification = Notification(listeners: set<Listener>, snapshot: seq<Recipe>)

  /** The private files of the application, as a set of paths. */
  class FileSystem {
    var files: set<string>

    constructor(files: set<string>)
      ensures this.files == files
    {
      this.files := files;
    }
  }

  // ---------------------------------------------------------------------
  // Collection functions

  /** The position of the first recipe with the given id (`findIndex`), if any. */
  function FirstIndex(rs: seq<Recipe>, id: string): (r: Option<nat>)
    ensures r.Some? ==> r.value < |rs| && rs[r.value].id == id
                        && forall j :: 0 <= j < r.value ==> rs[j].id != id
    ensures r.None? ==> forall j :: 0 <= j < |rs| ==> rs[j].id != id
  {
    if rs == [] then None
    else if rs[0].id == id then Some(0)
    else
      var rest := FirstIndex(rs[1..], id);
      if rest.Some? then Some(rest.value + 1) else None
  }

  /** The first recipe with the given id (`find`), if any. */
  function FindById(rs: seq<Recipe>, id: string): (r: Option<Recipe>)
    ensures r.None? <==> forall x :: x in rs ==> x.id != id
    ensures r.Some? ==> r.value.id == id
    ensures r.Some? ==> exists k :: 0 <= k < |rs| && rs[k] == r.value && forall j :: 0 <= j < k ==> rs[j].id != id
  {
    var k := FirstIndex(rs, id);
    if k.Some? then Some(rs[k.value]) else None
  }

  /** `rs.filter(r => r.id !== id)`. */
  function RemoveId(rs: seq<Recipe>, id: string): (r: seq<Recipe>)
    ensures |r| <= |rs|
  {
    if rs == [] then []
    else (if rs[0].id == id then [] else [rs[0]]) + RemoveId(rs[1..], id)
  }

  /** Removal keeps exactly the recipes with another id. */
  lemma {:induction false} RemoveIdMembers(rs: seq<Recipe>, id: string)
    ensures forall x :: x in RemoveId(rs, id) <==> x in rs && x.id != id
  {
    if rs != [] {
      RemoveIdMembers(rs[1..], id);
      assert rs == [rs[0]] + rs[1..];
    }
  }

  /** Removal keeps the order of what it keeps: it distributes over concatenation. */
  lemma {:induction false} RemoveIdAppend(a: seq<Recipe>, b: seq<Recipe>, id: string)
    ensures RemoveId(a + b, id) == RemoveId(a, id) + RemoveId(b, id)
  {
    if a != [] {
      assert (a + b)[1..] == a[1..] + b;
      RemoveIdAppend(a[1..], b, id);
    } else {
      assert a + b == b;
    }
  }

  /** Removing an id no recipe has changes nothing. */
  lemma {:induction false} RemoveAbsentId(rs: seq<Recipe>, id: string)
    requires FirstIndex(rs, id).None?
    ensures RemoveId(rs, id) == rs
  {
    if rs != [] {
      RemoveAbsentId(rs[1..], id);
    }
  }

  /** After an append, looking up the appended recipe's id finds it, unless an earlier recipe has that id. */
  lemma {:induction false} FindAfterAppend(rs: seq<Recipe>, r: Recipe)
    ensures FindById(rs + [r], r.id) == if FirstIndex(rs, r.id).Some? then FindById(rs, r.id) else Some(r)
  {
    if rs != [] {
      assert (rs + [r])[1..] == rs[1..] + [r];
      FindAfterAppend(rs[1..], r);
    }
  }

  // ---------------------------------------------------------------------
  // The store

  /**
   * What `loadRecipes` makes of the text in the storage slot: nothing when
   * the slot is empty or missing (`if (data)`) or when `decode` fails;
   * otherwise one recipe per decoded element, in order.
   */
  function Loaded(data: Option<string>, decode: string -> Option<seq<RecipeInit>>, freshId: FreshId): (r: Option<seq<Recipe>>)
    ensures r.Some? <==> data.Some? && data.value != [] && decode(data.value).Some?
    ensures r.Some? ==> var items := decode(data.value).value;
                        && |r.value| == |items|
                        && forall i :: 0 <= i < |items| ==> r.value[i] == NewRecipe(items[i], freshId)
  {
    if data.Some? && data.value != [] then
      match decode(data.value)
      case None => None
      case Some(items) => Some(seq(|items|, i requires 0 <= i < |items| => NewRecipe(items[i], freshId)))
    else None
  }

  /** The fields of each recipe, as `JSON.stringify` writes them and `JSON.parse` reads them back. */
  function InitsOf(rs: seq<Recipe>): (r: seq<RecipeInit>)
    ensures |r| == |rs| && forall i :: 0 <= i < |rs| ==> r[i] == InitOf(rs[i])
  {
    seq(|rs|, i requires 0 <= i < |rs| => InitOf(rs[i]))
  }

  /**
   * The encoder and decoder agree on this collection: its text is not
   * empty and decodes to each recipe's own fields, in order.
   */
  predicate RoundTrips(encode: seq<Recipe> -> string, decode: string -> Option<seq<RecipeInit>>, rs: seq<Recipe>) {
    encode(rs) != [] && decode(encode(rs)) == Some(InitsOf(rs))
  }

  /**
   * Loading what a save wrote gives the saved collection back, every id
   * kept, whatever ids the constructor would have generated.
   */
  lemma ReloadAfterSave(rs: seq<Recipe>, encode: seq<Recipe> -> string,
                        decode: string -> Option<seq<RecipeInit>>, freshId: FreshId)
    requires RoundTrips(encode, decode, rs)
    ensures Loaded(Some(encode(rs)), decode, freshId) == Some(rs)
  {
    var r := Loaded(Some(encode(rs)), decode, freshId).value;
    forall i | 0 <= i < |rs|
      ensures r[i] == rs[i]
    {
      ReconstructIsIdentity(rs[i], freshId);
    }
    assert r == rs;
  }

  class RecipeStore {
    /** The collection, in insertion order. */
    var recipes: seq<Recipe>
    var listeners: set<Listener>
    /** The text of the storage slot `SavedRecipes`, or None when nothing was ever written. */
    var saved: Option<string>
    /** Every notification delivered so far, oldest first. */
    var notifications: seq<Notification>

    /** A store over a storage slot that holds `slot`. */
    constructor(slot: Option<string>)
      ensures recipes == [] && listeners == {} && saved == slot && notifications == []
    {
      recipes := [];
      listeners := {};
      saved := slot;
      notifications := [];
    }

    /** `notifyListeners`: each listener gets a copy of the full collection. */
    method NotifyListeners()
      modifies this`notifications
      ensures notifications == old(notifications) + [Notification(listeners, recipes)]
    {
      notifications := notifications + [Notification(listeners, recipes)];
    }

    /**
     * `saveRecipes`: writes the encoded collection to the storage slot.
     * `saveFails` stands for a failing `setItem`, whose error is swallowed
     * and leaves the slot as it was.
     */
    method SaveRecipes(encode: seq<Recipe> -> string, saveFails: bool)
      modifies this`saved
      ensures !saveFails ==> saved == Some(encode(recipes))
      ensures saveFails ==> saved == old(saved)
    {
      if !saveFails {
        saved := Some(encode(recipes));
      }
    }

    /**
     * `loadRecipes`: reads the storage slot and `decode`s it (`decode`
     * stands for `JSON.parse` followed by reading the array; None when
     * parsing fails, the value is not an array, or an element cannot be
     * destructured). `readFails` stands for a failing `getItem`, whose error
     * is swallowed. Nothing stored, or a failure, leaves the collection
     * untouched; otherwise it becomes one recipe per stored element, in
     * stored order, with no migration applied.
     */
    method LoadRecipes(decode: string -> Option<seq<RecipeInit>>, freshId: FreshId, readFails: bool)
      modifies this`recipes, this`notifications
      ensures readFails || Loaded(saved, decode, freshId).None? ==>
                recipes == old(recipes) && notifications == old(notifications)
      ensures !readFails && Loaded(saved, decode, freshId).Some? ==>
                && recipes == Loaded(saved, decode, freshId).value
                && notifications == old(notifications) + [Notification(listeners, recipes)]
    {
      if readFails {
        return;
      }
      var data := saved;
      if data.Some? && data.value != [] {
        var parsed := decode(data.value);
        if parsed.Some? {
          var items := parsed.value;
          recipes := seq(|items|, i requires 0 <= i < |items| => NewRecipe(items[i], freshId));
          NotifyListeners();
        }
      }
    }

    /** `addRecipe`: appends at the end, saves, notifies and reports success. */
    method AddRecipe(recipe: Recipe, encode: seq<Recipe> -> string, saveFails: bool) returns (success: bool)
      modifies this`recipes, this`saved, this`notifications
      ensures success
      ensures recipes == old(recipes) + [recipe]
      ensures saved == if saveFails then old(saved) else Some(encode(recipes))
      ensures notifications == old(notifications) + [Notification(listeners, recipes)]
    {
      recipes := recipes + [recipe];
      SaveRecipes(encode, saveFails);
      NotifyListeners();
      success := true;
    }

    /**
     * `deleteRecipe`: an unknown id returns at once. Otherwise the image file
     * is deleted when the recipe's image reference is non-empty and contains
     * the documents directory (`unlinkFails` stands for an error of the file
     * system, which is swallowed), then every recipe with that id is removed,
     * the collection saved and the listeners notified.
     */
    method DeleteRecipe(recipeId: string, documentDirectory: string, fs: FileSystem, unlinkFails: bool,
                        encode: seq<Recipe> -> string, saveFails: bool)
      modifies this`recipes, this`saved, this`notifications, fs
      ensures FirstIndex(old(recipes), recipeId).None? ==>
                recipes == old(recipes) && saved == old(saved)
                && notifications == old(notifications) && fs.files == old(fs.files)
      ensures FirstIndex(old(recipes), recipeId).Some? ==>
                var image := ImagePath(FindById(old(recipes), recipeId).value);
                && recipes == RemoveId(old(recipes), recipeId)
                && saved == (if saveFails then old(saved) else Some(encode(recipes)))
                && notifications == old(notifications) + [Notification(listeners, recipes)]
                && fs.files == if IsPrivateImage(image, documentDirectory) && !unlinkFails
                               then old(fs.files) - {image} else old(fs.files)
    {
      var k := FirstIndex(recipes, recipeId);
      if k.None? {
        return;
      }
      var image := ImagePath(recipes[k.value]);
      if IsPrivateImage(image, documentDirectory) {
        if image in fs.files && !unlinkFails {
          fs.files := fs.files - {image};
        }
      }
      recipes := RemoveId(recipes, recipeId);
      SaveRecipes(encode, saveFails);
      NotifyListeners();
    }

    /**
     * `updateRecipe`: replaces the first recipe with the same id, then saves
     * and notifies; an unknown id changes nothing and neither saves nor
     * notifies.
     */
    method UpdateRecipe(updated: Recipe, encode: seq<Recipe> -> string, saveFails: bool)
      modifies this`recipes, this`saved, this`notifications
      ensures FirstIndex(old(recipes), updated.id).None? ==>
                recipes == old(recipes) && saved == old(saved) && notifications == old(notifications)
      ensures FirstIndex(old(recipes), updated.id).Some? ==>
                && recipes == old(recipes)[FirstIndex(old(recipes), updated.id).value := updated]
                && saved == (if saveFails then old(saved) else Some(encode(recipes)))
                && notifications == old(notifications) + [Notification(listeners, recipes)]
    {
      var k := FirstIndex(recipes, updated.id);
      if k.Some? {
        recipes := recipes[k.value := updated];
        SaveRecipes(encode, saveFails);
        NotifyListeners();
      }
    }

    method AddListener(listener: Listener)
      modifies this`listeners
      ensures listeners == old(listeners) + {listener}
    {
      listeners := listeners + {listener};
    }

    method RemoveListener(listener: Listener)
      modifies this`listeners
      ensures listeners == old(listeners) - {listener}
    {
      listeners := listeners - {listener};
    }

    /** `getRecipeById`: the first recipe with that id, or undefined. */
    function GetRecipeById(id: string): (r: Option<Recipe>)
      reads this
      ensures r.Some? <==> FirstIndex(recipes, id).Some?
      ensures r.Some? ==> r.value == recipes[FirstIndex(recipes, id).value]
      ensures r.None? <==> forall x :: x in recipes ==> x.id != id
    {
      FindById(recipes, id)
    }

    /** `getRecipeCount`. */
    function GetRecipeCount(): (n: nat)
      reads this
      ensures n == |GetAllRecipes()|
    {
      |recipes|
    }

    /** `getAllRecipes`: a copy of the collection in insertion order. */
    function GetAllRecipes(): (r: seq<Recipe>)
      reads this
      ensures r == recipes
    {
      recipes
    }
  }

  /** `recipe.imageUri || ''`. */
  function ImagePath(r: Recipe): string {
    if r.imageUri.NonNull? then r.imageUri.value else ""
  }

  /** The image is a file of the application: a non-empty reference containing the documents directory. */
  predicate IsPrivateImage(image: string, documentDirectory: string) {
    image != [] && documentDirectory != [] && Includes(image, documentDirectory)
  }

  /**
   * A delete followed by a lookup of the same id finds nothing, and every
   * other recipe is still there.
   */
  lemma DeleteThenFind(rs: seq<Recipe>, id: string)
    ensures FindById(RemoveId(rs, id), id).None?
    ensures forall x :: x in rs && x.id != id ==> x in RemoveId(rs, id)
  {
    RemoveIdMembers(rs, id);
    var k := FirstIndex(RemoveId(rs, id), id);
    if k.Some? {
      assert RemoveId(rs, id)[k.value] in RemoveId(rs, id);
    }
  }
}
