# Sift recipe keeper — a Dafny model of its core

Sift is a React Native recipe keeper. Recipes are kept in one collection that
is persisted to a single storage slot. They are added by hand through a form,
or extracted from a web page: the page is cleaned to text, a chat model turns
it into JSON, and the reply is parsed into a recipe. Older stored records are
brought up to the current schema by a migration chain. The list screen
filters and orders recipes by a search query, and the export screen keeps a
selection of recipes.

This project models that core in Dafny and proves properties of it:

| module | file | models |
|---|---|---|
| `Wrappers`, `Text`, `Json`, `Lists` | `wrappers.dfy`, `text.dfy`, `json.dfy`, `lists.dfy` | option/result values, ECMAScript `trim`/`includes`, untyped JSON values and truthiness, the array filters |
| `RecipeModel` | `recipe.dfy` | `models/Recipe.ts`: the `Ingredient` and `Recipe` constructors and their defaults |
| `RecipeMigrations` | `migrations.dfy` | `models/RecipeMigrations.ts`: ingredient and step coercion, the v1→v2 migrator, the migration loop |
| `RecipeStoreModel` | `store.dfy` | `store/RecipeStore.ts`: the store as a class with a `seq<Recipe>` field, the storage slot, the listener set and the image file |
| `PageCleaning` | `page_cleaning.dfy` | `cleanWebPageContent`: script/style removal, tag stripping, whitespace collapse, truncation |
| `ImageExtraction` | `image_extraction.dfy` | `extractFirstImage` and `resolveUrl` |
| `ResponseParsing` | `response_parsing.dfy` | `parseGPTResponse`: the JSON span, the required fields, the built recipe |
| `ModelFallback` | `model_fallback.dfy` | `callGPTAPIWithModel`'s request and response checks, and `callGPTAPI`'s fallback loop |
| `GroupsEditor` | `groups_editor.dfy` | the list helpers of `components/GroupsEditor.tsx` |
| `RecipeForm` | `recipe_form.dfy` | `components/RecipeForm.tsx`: the draft initialisers, the segmentation back into groups, item and tag editing, saving |
| `RecipeList` | `recipe_list.dfy` | the search filter, the name-first stable sort and the column rule |
| `ExportRecipes` | `export_recipes.dfy` | the export selection |

Conventions used throughout:
- **Ids.** Every id the source generates inside one operation (`Date.now()` plus a random suffix) is one parameter `freshId` of type `FreshId`: a string containing `_`, as every generated id does.
- **Missing values.** `undefined` is `None` or an absent map key. `null` for `imageUri` is `Nullable.Null`.
- **Whitespace.** It is the ECMAScript WhiteSpace and LineTerminator set, used for both `\s` and `trim`.
- **Parameters.** `toLowerCase` is a parameter `lower`, `JSON.parse` is a parameter `parse`/`decode`, and the HTTP exchange is a parameter `send`.
- **Regular expressions** become hand-written scanners. Each scanner's module comment says why it agrees with the pattern.

## Behaviour followed where the code and its documentation differ

The model follows the code:
- **Loading does not migrate.** `loadRecipes` rebuilds each stored element with `new Recipe(item)` and does not call the migrator (`store/RecipeStore.ts:17`).
- **`getRecipeById` returns the stored object itself**, not a copy (`store/RecipeStore.ts:83`).
- **The constructor keeps only ten fields.** The `Recipe` constructor in `models/Recipe.ts:41-63` copies only id, name, imageUri, ingredients, instructions, sourceUrl, cookingTime, calories, tags and userId. The groups and `schemaVersion` that `handleSave` passes are therefore not stored, and the saved recipe has empty `ingredients` and `instructions` (`components/RecipeForm.tsx:228-241`). Opening a recipe for editing and saving it unchanged empties both lists and drops `userId` (`RecipeForm.EditUnchangedKeepsDetails`).
- **The form starts from a recipe's groups, which this constructor never stores.** On a recipe it built, the form therefore starts with one empty group. The model states the initialiser for any list of groups it may be given.
- **There is no extra step.** Stored steps are normalised only as `normalizeStep` does, and no ids are invented for steps or groups. `RecipeStep`, `IngredientGroup` and `InstructionGroup` are imported but not defined in `models/Recipe.ts`, so they are plain records of the fields passed to them.
- **The current schema version is 2** (`models/RecipeMigrations.ts:1`).

## Model

| member | source | states |
|---|---|---|
| Text.Trim | components/RecipeForm.tsx:131 | trimming never lengthens a string |
| Text.TrimStartShape | components/RecipeForm.tsx:131 | `trimStart` drops exactly a blank prefix and stops at a non-whitespace character |
| Text.TrimEndShape | components/RecipeForm.tsx:131 | `trimEnd` drops exactly a blank suffix and stops at a non-whitespace character |
| Text.TrimOfTrimmed | components/RecipeForm.tsx:131 | a string with no outer whitespace is left as it is |
| Text.TrimIsTrimmed | components/RecipeForm.tsx:131 | a trimmed string starts and ends with non-whitespace, or is empty |
| Text.TrimIdempotent | components/RecipeForm.tsx:131 | trimming twice is trimming once |
| Text.TrimEmptyIffBlank | components/GroupsEditor.tsx:130 | `s.trim() === ''` exactly when every character of `s` is whitespace |
| Text.EmptyIncludedEverywhere | screens/RecipeList.tsx:78 | `includes('')` holds on every string |
| Json.NumberToString | services/RecipeExtractorService.ts:185 | the decimal rendering of a status code is never empty |
| Json.Coerce | models/RecipeMigrations.ts:12 | `String(x)` of a string is the string itself |
| Json.Field | models/RecipeMigrations.ts:17 | a field read finds a value exactly on an object that has the key |
| RecipeModel.NewIngredient | models/Recipe.ts:10-13 | `new Ingredient(name)` keeps the name verbatim and gets a generated id |
| RecipeModel.NewIngredients | services/RecipeExtractorService.ts:326 | one ingredient per name, in order, each with that name and a generated id |
| RecipeModel.NewRecipe | models/Recipe.ts:41-63 | every supplied field of the ten is copied; id defaults to a generated one, name to '', imageUri to '' (an explicit null stays null), lists to []; sourceUrl, cookingTime, calories and userId stay undefined |
| RecipeModel.ReconstructIsIdentity | models/Recipe.ts:41-63 | rebuilding a recipe from its own fields gives it back; a supplied id is never replaced |
| RecipeModel.EmptyInitGivesDefaults | models/Recipe.ts:42-52 | `new Recipe({})` is the all-default recipe with the generated id |
| RecipeMigrations.EnsureIngredientObject | models/RecipeMigrations.ts:7-14 | the result is always `{id, name}` with a truthy id and a string name; an object with a string name keeps it, and keeps its id when truthy; anything else is named `String(value)` (null giving ''); otherwise the id is generated |
| RecipeMigrations.EnsureIngredientIdempotent | models/RecipeMigrations.ts:7-10 | a well-formed ingredient is returned unchanged |
| RecipeMigrations.EnsureIngredients | models/RecipeMigrations.ts:27 | the ingredient list is coerced element by element, same length and order |
| RecipeMigrations.InstructionStrings | models/RecipeMigrations.ts:28 | the converted instructions are all non-empty and never more than the raw ones |
| RecipeMigrations.InstructionStringsOfStrings | models/RecipeMigrations.ts:28 | a list of non-empty strings passes the conversion unchanged |
| RecipeMigrations.InstructionStringsAreWellFormed | models/RecipeMigrations.ts:28 | non-empty instruction strings are stored as non-empty JSON strings |
| RecipeMigrations.NormalizeStep | models/RecipeMigrations.ts:16-30 | a normalised step has a string title or none, coerced ingredients, non-empty string instructions and no other field; the title is kept exactly when it was a string |
| RecipeMigrations.NormalizeStepIdempotent | models/RecipeMigrations.ts:16-30 | a well-formed step is returned unchanged |
| RecipeMigrations.NormalizeSteps | models/RecipeMigrations.ts:77 | each step is normalised, same length and order |
| RecipeMigrations.NormalizeStepsIdempotent | models/RecipeMigrations.ts:77 | normalising normalised steps changes nothing, whatever ids are generated |
| RecipeMigrations.MigrateV1ToV2 | models/RecipeMigrations.ts:32-53 | the result has the input's keys plus name, steps and schemaVersion; version 2; a string name; every other field carried over |
| RecipeMigrations.MigrateRecipeToLatest | models/RecipeMigrations.ts:63-83 | the loop terminates and returns the migrated record, always stamped with version 2 |
| RecipeMigrations.Chain | models/RecipeMigrations.ts:67-73 | definition only: the migration loop; `ChainOutcome` states which migrators run |
| RecipeMigrations.FinalNormalize | models/RecipeMigrations.ts:75-80 | the final pass stamps version 2 and changes no key other than steps and schemaVersion |
| RecipeMigrations.Migrated | models/RecipeMigrations.ts:63-83 | definition only: the migrated record; `MigrateRecipeToLatest` computes it and the `Migrated…` lemmas state its properties |
| RecipeMigrations.ChainOutcome | models/RecipeMigrations.ts:57-73 | starting at version 1 the table runs exactly the v1→v2 migrator; at any other version no migrator runs |
| RecipeMigrations.MigratedIsStamped | models/RecipeMigrations.ts:76-80 | the output's schemaVersion is 2 for every input version: absent, non-numeric, 1, 2 or larger |
| RecipeMigrations.MigratedLegacyRecord | models/RecipeMigrations.ts:32-53 | a record without a numeric version gets exactly one untitled step from its ingredients and instructions, and a string name |
| RecipeMigrations.MigratedCurrentRecord | models/RecipeMigrations.ts:64-80 | from any version other than 1 the name is kept, and an array of steps is normalised; non-array steps are left as they are |
| RecipeMigrations.MigratedKeepsOtherFields | models/RecipeMigrations.ts:47-52 | every field other than name, steps and schemaVersion is present and equal exactly as in the input |
| RecipeMigrations.MigratedIdempotent | models/RecipeMigrations.ts:63-83 | migrating a migrated record again changes nothing, whatever ids are generated |
| RecipeMigrations.StepsOfMigratedAreNormal | models/RecipeMigrations.ts:76-77 | every step of a migrated record is well formed |
| RecipeStoreModel.FirstIndex | store/RecipeStore.ts:62 | `findIndex`: the first position with that id, or none when no recipe has it |
| RecipeStoreModel.RemoveId | store/RecipeStore.ts:56 | the filter never lengthens the collection |
| RecipeStoreModel.RemoveIdMembers | store/RecipeStore.ts:56 | the filter keeps exactly the recipes with another id |
| RecipeStoreModel.RemoveIdAppend | store/RecipeStore.ts:56 | the filter keeps the order of what it keeps |
| RecipeStoreModel.RemoveAbsentId | store/RecipeStore.ts:56 | removing an id no recipe has changes nothing |
| RecipeStoreModel.FindAfterAppend | store/RecipeStore.ts:82-84 | after an append the new recipe is found by its id unless an earlier recipe has that id |
| RecipeStoreModel.DeleteThenFind | store/RecipeStore.ts:56 | after a delete the id is not found, and every other recipe is still there |
| RecipeStoreModel.FileSystem.constructor | store/RecipeStore.ts:46-50 | the file system holds the given files |
| RecipeStoreModel.RecipeStore.constructor | store/RecipeStore.ts:7-9 | an empty collection, no listeners, nothing notified, over a storage slot holding whatever it holds |
| RecipeStoreModel.RecipeStore.NotifyListeners | store/RecipeStore.ts:78-80 | one delivery of the full collection to the current listener set |
| RecipeStoreModel.RecipeStore.SaveRecipes | store/RecipeStore.ts:25-31 | the storage slot holds the encoded current collection; a failing write is swallowed and leaves the slot as it was |
| RecipeStoreModel.RecipeStore.LoadRecipes | store/RecipeStore.ts:11-23 | reads the storage slot: a failing read, an empty or missing slot or a decoding failure leaves the collection and notifications untouched; otherwise the collection is `Loaded` from the slot, then a notification |
| RecipeStoreModel.Loaded | store/RecipeStore.ts:13-17 | a result exactly when the slot text is non-empty and decodes; then one `new Recipe(item)` per decoded element, in order, no migration |
| RecipeStoreModel.InitsOf | store/RecipeStore.ts:27 | the ten stored fields of each recipe, in order |
| RecipeStoreModel.ReloadAfterSave | store/RecipeStore.ts:11-31 | loading what a save wrote gives the saved collection back with every id kept, when the encoder and decoder agree on it |
| RecipeStoreModel.RecipeStore.AddRecipe | store/RecipeStore.ts:33-39 | appends at the end, saves (the slot then holds the encoded new collection unless the write fails), notifies and returns success |
| RecipeStoreModel.RecipeStore.DeleteRecipe | store/RecipeStore.ts:41-59 | an unknown id changes nothing; otherwise every recipe with the id is removed, saved (unless the write fails) and notified, and the image file is deleted only when the reference is non-empty and contains the documents directory and deletion does not fail |
| RecipeStoreModel.RecipeStore.UpdateRecipe | store/RecipeStore.ts:61-68 | replaces only the first recipe with the id, then saves (unless the write fails) and notifies; an unknown id changes nothing and neither saves nor notifies |
| RecipeStoreModel.RecipeStore.AddListener | store/RecipeStore.ts:70-72 | set insertion: adding twice registers once |
| RecipeStoreModel.RecipeStore.RemoveListener | store/RecipeStore.ts:74-76 | the listener is no longer in the set |
| RecipeStoreModel.RecipeStore.GetRecipeById | store/RecipeStore.ts:82-84 | the recipe at the first position holding that id, or undefined exactly when none has it |
| RecipeStoreModel.FindById | store/RecipeStore.ts:42 | `find`: a recipe with that id at a position before which no recipe has it, or none exactly when no recipe has the id |
| RecipeStoreModel.RecipeStore.GetRecipeCount | store/RecipeStore.ts:86-88 | the count is the length of `getAllRecipes()` |
| RecipeStoreModel.RecipeStore.GetAllRecipes | store/RecipeStore.ts:90-92 | the collection in insertion order |
| PageCleaning.FirstClose | services/RecipeExtractorService.ts:123 | the first position at or after a point where `</tag>` starts, case-insensitively, or none |
| PageCleaning.RemoveBlocks | services/RecipeExtractorService.ts:123-125 | removing blocks never lengthens the text |
| PageCleaning.BlockAtStartIsRemoved | services/RecipeExtractorService.ts:123 | a `<tag …>…</tag>` block at the start is removed whole |
| PageCleaning.BlockIsRemoved | services/RecipeExtractorService.ts:123-125 | a block after plain text is removed and the text before it kept |
| PageCleaning.PlainPrefixIsKept | services/RecipeExtractorService.ts:123 | text without '<' is kept verbatim in front of what follows |
| PageCleaning.PlainCharIsKept | services/RecipeExtractorService.ts:123 | a character other than '<' is kept and scanning continues after it |
| PageCleaning.FirstCloseIs | services/RecipeExtractorService.ts:123 | the close search finds the first closing tag |
| PageCleaning.FirstGt | services/RecipeExtractorService.ts:127 | the first '>' at or after a point, or none |
| PageCleaning.StripTagsKeepsNoNewGt | services/RecipeExtractorService.ts:127 | tag stripping introduces no '>' |
| PageCleaning.NoTagCons | services/RecipeExtractorService.ts:127 | a tag-free text stays tag-free after a character that starts no tag |
| PageCleaning.StripTagsLeavesNoTag | services/RecipeExtractorService.ts:127 | after stripping no `<…>` tag is left |
| PageCleaning.StripTagsOfTagFree | services/RecipeExtractorService.ts:127 | a text without tags is unchanged |
| PageCleaning.StripTags | services/RecipeExtractorService.ts:127 | each tag becomes one space, so the text never grows; `StripTagsLeavesNoTag` shows no tag is left |
| PageCleaning.CollapseSpaces | services/RecipeExtractorService.ts:129 | a whitespace run starts the result with one space, anything else with itself |
| PageCleaning.CollapseSpacesIsCollapsed | services/RecipeExtractorService.ts:129 | after collapsing, every whitespace is a single space and no two are adjacent |
| PageCleaning.CollapsedSlice | services/RecipeExtractorService.ts:132 | a slice of collapsed text is collapsed |
| PageCleaning.NonSpaceOfBlank | services/RecipeExtractorService.ts:129 | blank text carries no characters other than whitespace |
| PageCleaning.NonSpaceAppend | services/RecipeExtractorService.ts:129 | the characters other than whitespace of a concatenation are those of its parts |
| PageCleaning.CollapseKeepsText | services/RecipeExtractorService.ts:129 | collapsing keeps every character other than whitespace, in order |
| PageCleaning.TrimStartKeepsText | services/RecipeExtractorService.ts:129 | leading trim keeps every character other than whitespace |
| PageCleaning.TrimEndKeepsText | services/RecipeExtractorService.ts:129 | trailing trim keeps every character other than whitespace |
| PageCleaning.TrimKeepsText | services/RecipeExtractorService.ts:129 | trimming keeps every character other than whitespace |
| PageCleaning.Truncate | services/RecipeExtractorService.ts:132 | `slice(0, max)` is a prefix of at most max characters, the whole text when it is short enough |
| PageCleaning.CleanWebPageContent | services/RecipeExtractorService.ts:121-133 | the cleaned text has at most 20000 characters |
| PageCleaning.CleanedTextShape | services/RecipeExtractorService.ts:121-133 | cleaned text has at most 20000 characters, no leading whitespace and no adjacent whitespace, and ends in a space only when cut at exactly 20000 |
| PageCleaning.TruncatedShape | services/RecipeExtractorService.ts:132 | truncating collapsed, trimmed text keeps those properties except possibly a space at the cut |
| PageCleaning.CollapsedTrim | services/RecipeExtractorService.ts:129 | trimming collapsed text keeps it collapsed |
| PageCleaning.CleanKeepsText | services/RecipeExtractorService.ts:121-133 | the result is a prefix of the collapsed, trimmed text, which keeps every character other than whitespace of the tag-stripped page |
| PageCleaning.MarkupToTextHasNoTag | services/RecipeExtractorService.ts:123-127 | after block removal and tag stripping no tag is left |
| PageCleaning.MarkupToText | services/RecipeExtractorService.ts:123-127 | removing script and style blocks and stripping tags never lengthens the page; `MarkupToTextHasNoTag` shows no tag is left |
| ImageExtraction.DirOf | services/RecipeExtractorService.ts:252 | the path up to and including its last '/', which is a prefix of it |
| ImageExtraction.ResolveUrl | services/RecipeExtractorService.ts:235-258 | 'http…' unchanged; '//…' prefixed with 'https:'; no base gives the input back; otherwise the result starts with protocol//host |
| ImageExtraction.ResolveRelative | services/RecipeExtractorService.ts:248-253 | '/path' becomes protocol//host/path; other relative paths get the base's directory in between |
| ImageExtraction.ResolvedEndsWithInput | services/RecipeExtractorService.ts:235-258 | every resolved address ends with the input |
| ImageExtraction.ResolveIsIdempotent | services/RecipeExtractorService.ts:235-253 | with an http base the result starts with 'http', so resolving it again changes nothing |
| ImageExtraction.FirstQuote | services/RecipeExtractorService.ts:217 | the first '"' at or after a point, or none |
| ImageExtraction.LastCapture | services/RecipeExtractorService.ts:217 | the greedy choice: the last attribute position from which a match can finish |
| ImageExtraction.CaptureInText | services/RecipeExtractorService.ts:217 | a capture position lies inside the text |
| ImageExtraction.FirstMatch | services/RecipeExtractorService.ts:217-223 | the leftmost start of a match, with its greedy capture position; none when no position matches |
| ImageExtraction.CaptureText | services/RecipeExtractorService.ts:217-223 | the captured value contains no '"' |
| ImageExtraction.MatchCapture | services/RecipeExtractorService.ts:217-223 | `match` succeeds exactly when some start and capture position fit the pattern |
| ImageExtraction.ExtractFirstImage | services/RecipeExtractorService.ts:214-233 | a non-empty og:image content wins; otherwise a non-empty img src; both resolved; null exactly when neither exists non-empty |
| ImageExtraction.NoMetaNoOgImage | services/RecipeExtractorService.ts:217 | a page without '<meta' has no og:image match |
| ImageExtraction.NoMetaImgDecides | services/RecipeExtractorService.ts:214-233 | on a page without '<meta' the first img capture alone decides: its non-empty src, resolved, or null |
| ImageExtraction.ImgTagHasNoMeta | services/RecipeExtractorService.ts:217 | a lone img tag contains no '<meta' |
| ImageExtraction.ImgTagCapture | services/RecipeExtractorService.ts:223 | in `<img src="…">` the match starts at 0 and captures right after 'src="' |
| ImageExtraction.ImgTagLayout | services/RecipeExtractorService.ts:223 | the character layout of a lone img tag |
| ImageExtraction.ImgTagQuotes | services/RecipeExtractorService.ts:223 | the closing quote of the src value is the first one, and no quote follows it |
| ImageExtraction.ImgTagNoLaterCapture | services/RecipeExtractorService.ts:223 | no later attribute position yields a match |
| ImageExtraction.SingleImageIsFound | services/RecipeExtractorService.ts:214-233 | a page that is one img tag yields that image's resolved address |
| ImageExtraction.FirstQuoteIs | services/RecipeExtractorService.ts:217 | the quote search finds the first quote |
| ResponseParsing.ScanOuter | services/RecipeExtractorService.ts:301 | a found end lies after the start and within the text |
| ResponseParsing.ScanInner | services/RecipeExtractorService.ts:301 | a found end lies after the start and within the text |
| ResponseParsing.DepthCons | services/RecipeExtractorService.ts:301 | the brace depth of a slice is its first character's step plus the rest |
| ResponseParsing.ScanSound | services/RecipeExtractorService.ts:301 | a found end closes the object with braces never more than one level deeper |
| ResponseParsing.ScanComplete | services/RecipeExtractorService.ts:301 | whenever such a closing exists the scanner finds it |
| ResponseParsing.FirstBrace | services/RecipeExtractorService.ts:304 | the first brace at or after a point, or none |
| ResponseParsing.SimpleMatchIsNested | services/RecipeExtractorService.ts:301-305 | a match of the fallback pattern is also a match of the first pattern |
| ResponseParsing.ScanOuterPlain | services/RecipeExtractorService.ts:304 | text with no brace before a '}' ends the scan there |
| ResponseParsing.FirstNested | services/RecipeExtractorService.ts:301 | the leftmost start of the first pattern and its end; none when no position matches |
| ResponseParsing.FirstSimple | services/RecipeExtractorService.ts:304 | the leftmost start of the fallback pattern and its end |
| ResponseParsing.FoundSpanIsNestedMatch | services/RecipeExtractorService.ts:300-313 | a span is found exactly when the first pattern matches; it starts at '{' and closes balanced |
| ResponseParsing.FindJsonSpan | services/RecipeExtractorService.ts:300-313 | a found span has at least two characters and starts with an opening brace; `FoundSpanIsNestedMatch` pins it to the first pattern |
| ResponseParsing.BalancedObjectIsMatched | services/RecipeExtractorService.ts:301 | an object nesting at most two levels is matched to its closing brace |
| ResponseParsing.Strings | services/RecipeExtractorService.ts:326-334 | an array of strings is read as those strings in order, and only such an array |
| ResponseParsing.OptionalString | services/RecipeExtractorService.ts:335-336 | `value \|\| undefined`: a falsy field gives undefined, a string is kept |
| ResponseParsing.ParseGptResponse | services/RecipeExtractorService.ts:296-347 | no span: 'No JSON found'; unparseable: invalid JSON; the required-fields error exactly when name, ingredients or instructions is missing or falsy |
| ResponseParsing.ParsedRecipeFields | services/RecipeExtractorService.ts:325-338 | a parsed recipe has a generated id, the reply's name, one ingredient per string in order, the instructions unchanged, tags or [], empty cooking time and calories as undefined, and the given image and source addresses |
| ResponseParsing.BuildRecipe | services/RecipeExtractorService.ts:325-338 | once the required fields are truthy, the only failures are a non-list ingredients value and a wrongly typed field; a built recipe has the given image and a generated id, the other fields in `ParsedRecipeFields` |
| ModelFallback.BuildRequest | services/RecipeExtractorService.ts:151-172 | model, prompt, temperature, seed and 4000 max tokens; response_format exactly when the model declares support |
| ModelFallback.FirstContent | services/RecipeExtractorService.ts:198-203 | `choices[0].message` exists exactly when the content path is readable |
| ModelFallback.ValidateResponse | services/RecipeExtractorService.ts:184-211 | non-OK status, error envelope and missing structure fail with their messages; success exactly on non-blank content, returned verbatim |
| ModelFallback.CallWithModel | services/RecipeExtractorService.ts:151-211 | one model's call succeeds only with non-blank content |
| ModelFallback.CallGptApi | services/RecipeExtractorService.ts:135-149 | the result is a model's success with every earlier model failing; 'All models failed to respond' only when every model failed, the empty list included |
| ModelFallback.CallOutcomeIsFirstSuccess | services/RecipeExtractorService.ts:135-149 | the loop's outcome is determined: the first success in list order |
| ModelFallback.FirstSuccess | services/RecipeExtractorService.ts:135-149 | fails exactly when every model fails, and then with 'All models failed to respond' |
| Lists.Without | components/RecipeForm.tsx:260-262 | dropping a value keeps exactly the other elements |
| Lists.WithoutAppend | components/RecipeForm.tsx:261 | the filter keeps the order of what stays |
| Lists.WithoutAbsent | components/RecipeForm.tsx:261 | dropping an absent value changes nothing |
| Lists.Keep | screens/RecipeList.tsx:74-85 | the filter keeps exactly the elements that pass |
| Lists.KeepAppend | screens/RecipeList.tsx:74-85 | the filter keeps the order of what stays |
| Lists.KeepAll | screens/RecipeList.tsx:74-85 | a list whose elements all pass is kept whole |
| Lists.KeepNone | screens/RecipeList.tsx:74-85 | a list whose elements all fail is dropped whole |
| Lists.KeepPartition | screens/RecipeList.tsx:86-94 | a filter and its complement together are a permutation of the list |
| Lists.PassersFirstSplits | screens/RecipeList.tsx:86-94 | a list with the passers first is its passers followed by the rest |
| Lists.FailsAfter | screens/RecipeList.tsx:86-94 | with passers first, everything after a failure fails |
| Lists.KeepSplitAt | screens/RecipeList.tsx:86-94 | passers followed by failures filter back into their two parts |
| Lists.PartitionShape | screens/RecipeList.tsx:86-94 | passers then the rest: passers first, each class in order, nothing lost or added |
| RecipeList.FilterRecipes | screens/RecipeList.tsx:74-85 | a recipe is kept exactly when the lowercased query occurs in its lowercased name, an ingredient name or a tag |
| RecipeList.EmptyQueryKeepsAll | screens/RecipeList.tsx:74-85 | an empty query keeps every recipe in order |
| RecipeList.NameTest | screens/RecipeList.tsx:88-89 | the comparator's test is the name match |
| RecipeList.SortByNameMatch | screens/RecipeList.tsx:86-94 | the sort is a permutation of its input; `SortIsStableSort` shows it name-first and stable, `StableSortIsUnique` that it is the only such order |
| RecipeList.SortIsStableSort | screens/RecipeList.tsx:86-94 | name matches first, each class in its original order, a permutation of the input |
| RecipeList.StableSortIsUnique | screens/RecipeList.tsx:86-94 | any stable name-first ordering is this one |
| RecipeList.VisibleRecipesShape | screens/RecipeList.tsx:74-94 | the screen shows exactly the matching recipes, a permutation of the filtered list, name matches first |
| RecipeList.VisibleRecipes | screens/RecipeList.tsx:74-94 | the shown list is a permutation of the filtered list; `VisibleRecipesShape` gives its members and order |
| RecipeList.NumColumns | screens/RecipeList.tsx:20 | 3 columns exactly above 600, 1 exactly at or below 300, otherwise 2 |
| RecipeList.NumColumnsMonotone | screens/RecipeList.tsx:20 | a wider window never has fewer columns |
| ExportRecipes.Ids | screens/settings/ExportRecipes.tsx:41 | the recipe ids in list order |
| ExportRecipes.ToggleRecipe | screens/settings/ExportRecipes.tsx:36-51 | select-all clears when the counts match and selects every id otherwise; another row is removed when selected and added when not, the rest unchanged |
| ExportRecipes.ToggleTwiceRestores | screens/settings/ExportRecipes.tsx:46-50 | tapping an unselected row twice restores the selection |
| ExportRecipes.ToggleSelectedTwiceMovesToEnd | screens/settings/ExportRecipes.tsx:46-50 | tapping a selected row twice moves it to the end |
| ExportRecipes.SelectAllTwiceClears | screens/settings/ExportRecipes.tsx:37-42 | select-all on a partial selection, then again, clears it |
| ExportRecipes.RecipesToExport | screens/settings/ExportRecipes.tsx:75 | exactly the listed recipes whose id is selected, in list order |
| ExportRecipes.SelectAllExportsAll | screens/settings/ExportRecipes.tsx:75 | after select-all every recipe is exported, in list order |
| ExportRecipes.EmptySelectionReachable | screens/settings/ExportRecipes.tsx:18 | the initial empty selection is a reachable one |
| ExportRecipes.ToggleKeepsReachable | screens/settings/ExportRecipes.tsx:36-51 | every tap keeps the selection free of duplicates and of unknown ids |
| ExportRecipes.WithoutKeepsNoDuplicates | screens/settings/ExportRecipes.tsx:48 | removing an id keeps a duplicate-free selection duplicate-free |
| ExportRecipes.CountCheckIsSound | screens/settings/ExportRecipes.tsx:137 | on reachable selections the count comparison holds exactly when every recipe is selected |
| ExportRecipes.IsAllSelected | screens/settings/ExportRecipes.tsx:137 | definition only: the count comparison; `CountCheckIsSound` states what it means on reachable selections |
| ExportRecipes.IsSelected | screens/settings/ExportRecipes.tsx:138 | definition only: the select-all row shows the count comparison, any other row its membership in the selection |
| GroupsEditor.EnsureTrailingEmptyItem | components/GroupsEditor.tsx:128-134 | the result is non-empty, ends in a blank item and has the input as a prefix; exactly one empty item is added, when the input is empty or ends in a non-blank item |
| GroupsEditor.EnsureTrailingIdempotent | components/GroupsEditor.tsx:128-134 | applying it to its own output adds nothing |
| GroupsEditor.AddGroup | components/GroupsEditor.tsx:136-142 | exactly one group appended, with an empty title, one empty item and not collapsed |
| GroupsEditor.DeleteGroup | components/GroupsEditor.tsx:144-146 | no group with the id is left |
| GroupsEditor.DeleteGroupMembers | components/GroupsEditor.tsx:144-146 | exactly the groups with another id are kept |
| GroupsEditor.DeleteGroupAppend | components/GroupsEditor.tsx:144-146 | the others keep their order |
| GroupsEditor.DeleteAbsentGroup | components/GroupsEditor.tsx:144-146 | deleting an absent id changes nothing |
| GroupsEditor.ToggleCollapse | components/GroupsEditor.tsx:148-150 | only matching groups flip `collapsed`, nothing else changes |
| GroupsEditor.ToggleTwice | components/GroupsEditor.tsx:148-150 | toggling twice restores the groups |
| GroupsEditor.SetTitle | components/GroupsEditor.tsx:180-184 | only that group's title changes |
| GroupsEditor.FilledItems | components/GroupsEditor.tsx:201 | exactly the non-blank items are kept |
| GroupsEditor.SanitizeItems | components/GroupsEditor.tsx:201 | the drag filter never lengthens the list and keeps its last line whatever it holds; its full shape is `SanitizedShape` |
| GroupsEditor.SanitizedShape | components/GroupsEditor.tsx:200-205 | after a drag every non-blank item stays, blank items are gone except the last position, which is kept |
| GroupsEditor.FilledItemsOfFilled | components/GroupsEditor.tsx:201 | a list of non-blank items is kept whole |
| GroupsEditor.SanitizeIdempotent | components/GroupsEditor.tsx:201 | sanitising twice is sanitising once |
| GroupsEditor.DragItems | components/GroupsEditor.tsx:200-205 | only the dragged group's items change, to the sanitised order |
| GroupsEditor.EditItemText | components/GroupsEditor.tsx:215-221 | only the edited line of the displayed list changes, and only in that group |
| GroupsEditor.TypingIntoTrailingLineAppends | components/GroupsEditor.tsx:215-221 | typing into the trailing empty line appends a new item |
| RecipeForm.InitialDraftsOf | components/RecipeForm.tsx:28-44 | one untitled, expanded group holding, group after group, a header for each non-blank trimmed title and the group's items |
| RecipeForm.InitialDrafts | components/RecipeForm.tsx:28-44 | the initialiser's loop builds exactly those drafts |
| RecipeForm.PushGroupLines | components/RecipeForm.tsx:33-37 | one group pushes its header line and then its item lines |
| RecipeForm.ItemLinesSnoc | components/RecipeForm.tsx:36 | pushing one more item adds one line |
| RecipeForm.FlattenSnoc | components/RecipeForm.tsx:33-37 | one more group adds its header and item lines |
| RecipeForm.TrimGivesCleanLine | components/RecipeForm.tsx:131 | trimming gives '' exactly for blank text and a clean line otherwise |
| RecipeForm.CleanTitle | components/RecipeForm.tsx:131 | a clean title or undefined, undefined exactly for a missing or blank title |
| RecipeForm.CleanLinesSnoc | components/RecipeForm.tsx:173 | appending a clean line keeps a list clean |
| RecipeForm.CleanLinesEach | components/RecipeForm.tsx:173 | every line of a clean list is clean |
| RecipeForm.CleanItems | components/RecipeForm.tsx:173 | the cleaned items are trimmed and non-empty |
| RecipeForm.CleanItemsOfClean | components/RecipeForm.tsx:173 | clean items pass unchanged |
| RecipeForm.CleanTitleIdempotent | components/RecipeForm.tsx:131 | cleaning a clean title changes nothing |
| RecipeForm.ToInstructionGroups | components/RecipeForm.tsx:168-207 | the loop computes the segmentation of the drafts |
| RecipeForm.Flush | components/RecipeForm.tsx:170-181 | `flushGroup` only appends, at most one group; `FlushWellFormed` and `FlushKeepsLines` state what it appends |
| RecipeForm.Step | components/RecipeForm.tsx:187-199 | one line never removes an emitted group; `StepKeepsLines` and `ScanHeader` state what it adds |
| RecipeForm.Segment | components/RecipeForm.tsx:167-207 | definition only: the groups the form saves; `ToInstructionGroups` computes it and `SegmentKeepsLines`, `SavedGroupsAreGood` and `SegmentWellFormed` state its properties |
| RecipeForm.IngredientGroupsOf | components/RecipeForm.tsx:127-166 | one ingredient group per segment, same title and number of items |
| RecipeForm.NewIngredientsKeepNames | components/RecipeForm.tsx:157 | the ingredients made from lines carry those lines as names |
| RecipeForm.IngredientGroupsKeepLines | components/RecipeForm.tsx:127-166 | each ingredient group's names are its segment's lines |
| RecipeForm.ToIngredientGroups | components/RecipeForm.tsx:127-166 | the loop computes the ingredient groups of the segmentation |
| RecipeForm.WellFormedEach | components/RecipeForm.tsx:171-182 | every group of a well-formed list is good |
| RecipeForm.FlushWellFormed | components/RecipeForm.tsx:171-182 | flushing emits only a group with a clean or absent title, clean lines, and a title or a line |
| RecipeForm.ScanWellFormed | components/RecipeForm.tsx:184-204 | scanning lines keeps the output well formed |
| RecipeForm.SegmentWellFormed | components/RecipeForm.tsx:168-207 | the saved groups are well formed |
| RecipeForm.SavedGroupsAreGood | components/RecipeForm.tsx:168-207 | no saved group is untitled and empty, titles are trimmed and non-empty, and lines are trimmed and non-empty |
| RecipeForm.AllLinesAppend | components/RecipeForm.tsx:171-182 | the lines of one more group follow the earlier lines |
| RecipeForm.FlushKeepsLines | components/RecipeForm.tsx:171-182 | flushing clean lines loses none |
| RecipeForm.StepKeepsLines | components/RecipeForm.tsx:188-200 | one line: a plain non-blank line is added trimmed, and headers and blanks add none |
| RecipeForm.ScanKeepsLines | components/RecipeForm.tsx:184-204 | scanning a group's lines keeps every plain non-blank line, trimmed and in order |
| RecipeForm.SegmentKeepsLines | components/RecipeForm.tsx:168-207 | the saved groups' lines, concatenated, are the drafts' plain non-blank lines, trimmed and in order |
| RecipeForm.ScanAppend | components/RecipeForm.tsx:188-200 | scanning two line lists is scanning one after the other |
| RecipeForm.ScanItemLines | components/RecipeForm.tsx:188-200 | clean item lines are added to the open group |
| RecipeForm.ScanHeader | components/RecipeForm.tsx:188-196 | a header line closes the open group and opens one with its title; a blank header adds nothing |
| RecipeForm.FlushClean | components/RecipeForm.tsx:171-182 | a clean group is emitted unchanged |
| RecipeForm.NormalizedSnoc | components/RecipeForm.tsx:131-173 | normalising one more group appends it |
| RecipeForm.ScanGroupLines | components/RecipeForm.tsx:50-53 | reading a stored group's draft lines closes the open group when titled, else extends it |
| RecipeForm.ScanFlattenSplit | components/RecipeForm.tsx:50-53 | reading the flattened lines of one more group, in terms of the earlier ones |
| RecipeForm.ScanFlattenStep | components/RecipeForm.tsx:50-53 | the induction step of reading flattened separable groups |
| RecipeForm.ScanFlatten | components/RecipeForm.tsx:46-61 | reading separable groups' draft lines emits all but the last group normalised and leaves the last open |
| RecipeForm.SeparableLast | components/RecipeForm.tsx:46-61 | the conditions separable groups meet, for the last group and the rest |
| RecipeForm.ScanFlattenFirst | components/RecipeForm.tsx:46-61 | reading one group's draft lines leaves it open |
| RecipeForm.FlushLast | components/RecipeForm.tsx:171-182 | flushing the open last group completes the normalised list |
| RecipeForm.OpenThenSaveIsIdentity | components/RecipeForm.tsx:46-207 | flattening groups into the draft and saving gives back their titles (empty as undefined) and items, when titles and items are trimmed, items non-empty, every group after the first titled and every untitled group non-empty |
| RecipeForm.SegmentOfUntitledDraft | components/RecipeForm.tsx:184-204 | the untitled draft group is saved as the scan of its lines from no title |
| RecipeForm.FindGroup | components/RecipeForm.tsx:107 | the first group with the id, or none |
| RecipeForm.FindItem | components/RecipeForm.tsx:118 | the first item with the id, or none |
| RecipeForm.EditedItems | components/RecipeForm.tsx:114-120 | add appends the trimmed text; edit replaces only the matching item, untrimmed; a missing or unknown item id changes nothing |
| RecipeForm.ConfirmItemEditor | components/RecipeForm.tsx:104-125 | only the target group's items change; an unknown group changes nothing |
| RecipeForm.RemoveItem | components/RecipeForm.tsx:433 | exactly the items with another id are kept |
| RecipeForm.RemoveItemAppend | components/RecipeForm.tsx:433 | the others keep their order |
| RecipeForm.RemoveAbsentItem | components/RecipeForm.tsx:433 | removing an absent id changes nothing |
| RecipeForm.DeleteItem | components/RecipeForm.tsx:424-438 | only the target group's items lose the item; an unknown group changes nothing |
| RecipeForm.AddThenDeleteItem | components/RecipeForm.tsx:104-125 | adding an item and deleting it by its new id restores the groups |
| RecipeForm.EditTwice | components/RecipeForm.tsx:117-119 | the same edit twice is the edit once |
| RecipeForm.AddTag | components/RecipeForm.tsx:253-258 | a blank tag changes nothing; otherwise the trimmed tag is appended and the input cleared |
| RecipeForm.AddThenDeleteTag | components/RecipeForm.tsx:253-262 | adding a new tag and deleting it restores the tags |
| RecipeForm.OpenForm | components/RecipeForm.tsx:25-67 | the form's initial state from the recipe, with the drafts of its groups |
| RecipeForm.InitialForm | components/RecipeForm.tsx:25-67 | definition only: the form state when it opens; `OpenForm` computes it and `EditUnchangedKeepsDetails` states what saving it unchanged gives |
| RecipeForm.Optional | components/RecipeForm.tsx:234-236 | `s.trim() \|\| undefined`: undefined exactly for blank text, else the trimmed text |
| RecipeForm.HandleSave | components/RecipeForm.tsx:209-244 | a blank name saves nothing; otherwise the recipe and the group lists passed to the constructor |
| RecipeForm.SaveArgument | components/RecipeForm.tsx:228-241 | definition only: the constructor argument of a save; `HandleSave` and `SavedRecipeFields` state the recipe it builds |
| RecipeForm.SavedRecipeFields | components/RecipeForm.tsx:228-241 | trimmed name; edit keeps the original id; add gets a generated one; blank details become undefined; tags kept; lists empty |
| RecipeForm.EditUnchangedKeepsDetails | components/RecipeForm.tsx:228-241 | editing a tidy recipe and saving unchanged keeps everything but the lists and the owner |
| RecipeForm.OptionalOfTidy | components/RecipeForm.tsx:63-65 | a trimmed or absent detail read into the form and saved comes back unchanged |

## Left out

- **Network I/O.** The page fetch, model initialisation and the HTTP POST are not modelled. The endpoint's answer is the `ApiResponse` record, produced by the parameter `send`.
- **File system.** Downloading images, and zipping, copying and sharing exports, are not modelled. Image deletion works on an abstract set of paths, and `unlinkFails` stands for a swallowed error.
- **Storage and JSON text.** The AsyncStorage slot `SavedRecipes` is the store's string field `saved`. `JSON.stringify` and `JSON.parse` are not modelled: they are the parameters `encode` and `decode`, and the lemma `ReloadAfterSave` takes their agreement on a collection as its requirement. A failing `setItem` or `getItem` is the flag `saveFails` or `readFails`.
- **Ids.** `Date.now()` and `Math.random()` are not modelled. Every id generated in one call is the same `freshId`, so the uniqueness of generated ids is not modelled.
- **Async behaviour.** Asynchrony and concurrency are not modelled: every operation runs to completion. That includes `updateRecipe` not awaiting its save.
- **Logging and error text.** Logging is left out. So is the text of `JSON.parse` errors, which is the single error `InvalidJson`.
- **Numbers.** JSON numbers are integers. Fractional numbers and their `String` rendering are not modelled.
- **Characters.** `toLowerCase` is the abstract parameter `lower`. Strings are sequences of characters, with no UTF-16 surrogate handling.
- **Floating-point layout.** The card width and column gaps are left out. The window width is a `real`.
- **UI.** Popups, navigation, theming and rendering are left out.
- ResponseParsing.ParseGptResponse: a present name, ingredients, instructions, tags, cookingTime or calories of the wrong JSON type (not a string, or not a list of strings) fails with `IllTyped`. The source stores such values as they are, so those cases are outside the model.
- RecipeModel.NewRecipe: a `new Recipe(item)` argument whose fields have the wrong type is not modelled; load decodes to typed `RecipeInit` records.
- GroupsEditor.SetTitle: the rendered group's index is required to be in range, which holds for every rendered group.
- GroupsEditor.DragItems: the rendered group's index is required to be in range, which holds for every rendered group.
- GroupsEditor.EditItemText: the rendered group and item indices are required to be in range, which holds for every rendered line.
- RecipeForm.ToIngredientGroups: it uses the shared segmentation over trimmed line texts. The ingredient flush filters on `name.trim()` instead of trimming, which is the same on the already trimmed lines.
- ExportRecipes.ToggleRecipe: the select-all branch and the per-row branch both read one given selection. The source's per-row branch goes through a state updater, so interleaved taps are not modelled.
- RecipeMigrations.MigrateV1ToV2: `RecipeStep` is a plain record of exactly the fields passed to it, because its class is not part of this model.
- **Draft item type.** The `isHeader` flag of draft items is a plain field.
