/**
 * The recipe data model: `Ingredient`, `Recipe` and the constructor that
 * fills in defaults, plus the group and step records that the rest of the
 * application passes around as plain records.
 */
module RecipeModel {
  import opened Wrappers

  /**
   * An id as the application generates it, `${Date.now()}_${random}`: it
   * always contains an underscore and so is never empty. The clock and the
   * random source are outside the model; the caller supplies the id.
   */
  type FreshId = s: string | '_' in s witness "0_0"

  datatype Ingredient = Ingredient(id: string, name: string)

  /** `new Ingredient(name)`. */
  function NewIngredient(name: string, freshId: FreshId): (r: Ingredient)
    ensures r.name == name
    ensures '_' in r.id
  {
    Ingredient(freshId, name)
  }

  /** `names.map(name => new Ingredient(name))`. */
  function NewIngredients(names: seq<string>, freshId: FreshId): (r: seq<Ingredient>)
    ensures |r| == |names|
    ensures forall i :: 0 <= i < |names| ==> r[i].name == names[i] && '_' in r[i].id
  {
    seq(|names|, i requires 0 <= i < |names| => NewIngredient(names[i], freshId))
  }

  /** A titled-or-untitled run of items: `IngredientGroup` and `InstructionGroup`. */
  datatype Group<T> = Group(title: Option<string>, items: seq<T>)

  type IngredientGroup = Group<Ingredient>
  type InstructionGroup = Group<string>

  datatype Recipe = Recipe(
    id: string,
    name: string,
    imageUri: Nullable<string>,
    ingredients: seq<Ingredient>,
    instructions: seq<string>,
    sourceUrl: Option<string>,
    cookingTime: Option<string>,
    calories: Option<string>,
    tags: seq<string>,
    userId: Option<string>)

  /**
   * The argument of `new Recipe({...})`: each of the ten fields may be left
   * undefined. Other keys of the argument are not read by the constructor.
   */
  datatype RecipeInit = RecipeInit(
    id: Option<string>,
    name: Option<string>,
    imageUri: Option<Nullable<string>>,
    ingredients: Option<seq<Ingredient>>,
    instructions: Option<seq<string>>,
    sourceUrl: Option<string>,
    cookingTime: Option<string>,
    calories: Option<string>,
    tags: Option<seq<string>>,
    userId: Option<string>)

  /** `{}`: the argument `new Recipe()` defaults to. */
  const EmptyInit := RecipeInit(None, None, None, None, None, None, None, None, None, None)

  /**
   * `new Recipe(init)`: a supplied field is copied unchanged; an undefined
   * field gets its default (a fresh id, '' for name and imageUri, [] for
   * the lists) or stays undefined.
   */
  function NewRecipe(init: RecipeInit, freshId: FreshId): (r: Recipe)
    ensures init.id.Some? ==> r.id == init.id.value
    ensures init.id.None? ==> '_' in r.id
    ensures r.name == (if init.name.Some? then init.name.value else "")
    ensures r.imageUri == (if init.imageUri.Some? then init.imageUri.value else NonNull(""))
    ensures r.ingredients == (if init.ingredients.Some? then init.ingredients.value else [])
    ensures r.instructions == (if init.instructions.Some? then init.instructions.value else [])
    ensures r.tags == (if init.tags.Some? then init.tags.value else [])
    ensures r.sourceUrl == init.sourceUrl && r.cookingTime == init.cookingTime
    ensures r.calories == init.calories && r.userId == init.userId
  {
    Recipe(
      id := init.id.GetOr(freshId),
      name := init.name.GetOr(""),
      imageUri := init.imageUri.GetOr(NonNull("")),
      ingredients := init.ingredients.GetOr([]),
      instructions := init.instructions.GetOr([]),
      sourceUrl := init.sourceUrl,
      cookingTime := init.cookingTime,
      calories := init.calories,
      tags := init.tags.GetOr([]),
      userId := init.userId)
  }

  /** The constructor argument that supplies every field of `r`. */
  function InitOf(r: Recipe): RecipeInit {
    RecipeInit(Some(r.id), Some(r.name), Some(r.imageUri), Some(r.ingredients),
      Some(r.instructions), r.sourceUrl, r.cookingTime, r.calories, Some(r.tags), r.userId)
  }

  /** Re-constructing a recipe from its own fields gives it back: nothing is replaced, the id included. */
  lemma ReconstructIsIdentity(r: Recipe, freshId: FreshId)
    ensures NewRecipe(InitOf(r), freshId) == r
  {
  }

  /** `new Recipe()` succeeds and yields the all-default recipe. */
  lemma EmptyInitGivesDefaults(freshId: FreshId)
    ensures NewRecipe(EmptyInit, freshId) ==
      Recipe(freshId, "", NonNull(""), [], [], None, None, None, [], None)
  {
  }
}
