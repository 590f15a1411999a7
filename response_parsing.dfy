/**
 * `parseGPTResponse`: find the JSON object in the model's reply, check the
 * required fields and build a `Recipe` from it.
 *
 * The object is located with `/\{[^{}]*(?:\{[^{}]*\}[^{}]*)*\}/`: an opening
 * brace, text whose braces nest at most one level deeper, and the brace that
 * closes it. That pattern is matched by a two-state scanner (outer level,
 * inner level); at each start position a match exists exactly when the
 * scanner reaches the closing brace, because no backtracking choice of the
 * pattern can recover from a third level or from the end of the text.
 * `JSON.parse` is a parameter of the model.
 */
module ResponseParsing {
  import opened Wrappers
  import opened Json
  import opened RecipeModel

  // ---------------------------------------------------------------------
  // Locating the object

  /** +1 for '{', -1 for '}', 0 otherwise. */
  function BraceDelta(c: char): int {
    if c == '{' then 1 else if c == '}' then -1 else 0
  }

  /** The brace depth reached after reading `t`. */
  function Depth(t: string): int {
    if t == [] then 0 else BraceDelta(t[0]) + Depth(t[1..])
  }

  /** Scanning at depth one, from `i`: the position just past the closing brace. */
  function ScanOuter(s: string, i: nat): (r: Option<nat>)
    requires i <= |s|
    ensures r.Some? ==> i < r.value <= |s|
    decreases |s| - i, 1
  {
    if i == |s| then None
    else if s[i] == '}' then Some(i + 1)
    else if s[i] == '{' then ScanInner(s, i + 1)
    else ScanOuter(s, i + 1)
  }

  /** Scanning at depth two, from `i`. */
  function ScanInner(s: string, i: nat): (r: Option<nat>)
    requires i <= |s|
    ensures r.Some? ==> i < r.value <= |s|
    decreases |s| - i, 0
  {
    if i == |s| then None
    else if s[i] == '}' then ScanOuter(s, i + 1)
    else if s[i] == '{' then None
    else ScanInner(s, i + 1)
  }

  /**
   * The text from `i` to `e` closes one level (`down` is 1) or two levels
   * (`down` is 2) and stays within them until its last character: the
   * shape the pattern accepts after its opening brace.
   */
  predicate ClosesWithin(s: string, i: nat, e: nat, down: int)
    requires i <= e <= |s|
  {
    && Depth(s[i..e]) == -down
    && forall k :: i <= k < e ==> 1 - down <= Depth(s[i..k]) <= 2 - down
  }

  lemma DepthCons(s: string, i: nat, k: nat)
    requires i < k <= |s|
    ensures Depth(s[i..k]) == BraceDelta(s[i]) + Depth(s[i + 1..k])
  {
    assert s[i..k][1..] == s[i + 1..k];
  }

  /** The scanners succeed exactly on the texts that close within the allowed depths. */
  lemma {:induction false} ScanSound(s: string, i: nat)
    requires i <= |s|
    ensures ScanOuter(s, i).Some? ==> ClosesWithin(s, i, ScanOuter(s, i).value, 1)
    ensures ScanInner(s, i).Some? ==> ClosesWithin(s, i, ScanInner(s, i).value, 2)
    decreases |s| - i
  {
    if i < |s| {
      ScanSound(s, i + 1);
      forall e | i < e <= |s| ensures Depth(s[i..e]) == BraceDelta(s[i]) + Depth(s[i + 1..e]) {
        DepthCons(s, i, e);
      }
      assert Depth(s[i..i]) == 0 by { assert s[i..i] == []; }
    }
  }

  lemma {:induction false} ScanComplete(s: string, i: nat, e: nat, down: int)
    requires i <= e <= |s| && (down == 1 || down == 2)
    requires ClosesWithin(s, i, e, down)
    ensures down == 1 ==> ScanOuter(s, i) == Some(e)
    ensures down == 2 ==> ScanInner(s, i) == Some(e)
    decreases e - i
  {
    assert s[i..i] == [];
    assert i < e;
    forall k | i < k <= e ensures Depth(s[i..k]) == BraceDelta(s[i]) + Depth(s[i + 1..k]) {
      DepthCons(s, i, k);
    }
    var j := i + 1;
    assert Depth(s[i..j]) == BraceDelta(s[i]) + Depth(s[j..j]);
    assert Depth(s[j..j]) == 0 by { assert s[j..j] == []; }
    if down == 1 && s[i] == '}' {
    } else if down == 2 && s[i] == '{' {
    } else {
      var d := down + BraceDelta(s[i]);
      forall k | j <= k < e ensures 1 - d <= Depth(s[j..k]) <= 2 - d {
        if k > j {
          assert Depth(s[i..k]) == BraceDelta(s[i]) + Depth(s[j..k]);
        }
      }
      ScanComplete(s, i + 1, e, d);
    }
  }

  /** `\{[^{}]*(?:\{[^{}]*\}[^{}]*)*\}` matches at `p`. */
  predicate NestedMatchAt(s: string, p: nat)
    requires p < |s|
  {
    s[p] == '{' && ScanOuter(s, p + 1).Some?
  }

  /** The first brace at or after `i`, if any. */
  function FirstBrace(s: string, i: nat): (r: Option<nat>)
    requires i <= |s|
    ensures r.Some? ==> i <= r.value < |s| && (s[r.value] == '{' || s[r.value] == '}')
    ensures r.Some? ==> forall k :: i <= k < r.value ==> s[k] != '{' && s[k] != '}'
    ensures r.None? ==> forall k :: i <= k < |s| ==> s[k] != '{' && s[k] != '}'
    decreases |s| - i
  {
    if i == |s| then None
    else if s[i] == '{' || s[i] == '}' then Some(i)
    else FirstBrace(s, i + 1)
  }

  /** `\{[^{}]*\}` matches at `p`. */
  predicate SimpleMatchAt(s: string, p: nat)
    requires p < |s|
  {
    s[p] == '{' && p + 1 <= |s| && FirstBrace(s, p + 1).Some? && s[FirstBrace(s, p + 1).value] == '}'
  }

  /** A match of the fallback pattern is a match of the first pattern with no inner object. */
  lemma {:induction false} SimpleMatchIsNested(s: string, p: nat)
    requires p < |s| && SimpleMatchAt(s, p)
    ensures NestedMatchAt(s, p)
    ensures ScanOuter(s, p + 1) == Some(FirstBrace(s, p + 1).value + 1)
  {
    ScanOuterPlain(s, p + 1, FirstBrace(s, p + 1).value);
  }

  lemma {:induction false} ScanOuterPlain(s: string, i: nat, c: nat)
    requires i <= c < |s| && s[c] == '}'
    requires forall k :: i <= k < c ==> s[k] != '{' && s[k] != '}'
    ensures ScanOuter(s, i) == Some(c + 1)
    decreases c - i
  {
    if i < c {
      ScanOuterPlain(s, i + 1, c);
    }
  }

  /** A span `s[start..end]`. */
  datatype Span = Span(start: nat, end: nat)

  /** The leftmost match of the first pattern at or after `from`. */
  function FirstNested(s: string, from: nat): (r: Option<Span>)
    ensures r.Some? ==> from <= r.value.start < r.value.end <= |s|
    ensures r.Some? ==> NestedMatchAt(s, r.value.start) && ScanOuter(s, r.value.start + 1) == Some(r.value.end)
    ensures r.Some? ==> forall p :: from <= p < r.value.start ==> !NestedMatchAt(s, p)
    ensures r.None? ==> forall p :: from <= p < |s| ==> !NestedMatchAt(s, p)
    decreases |s| - from
  {
    if from >= |s| then None
    else if NestedMatchAt(s, from) then Some(Span(from, ScanOuter(s, from + 1).value))
    else FirstNested(s, from + 1)
  }

  /** The leftmost match of the fallback pattern at or after `from`. */
  function FirstSimple(s: string, from: nat): (r: Option<Span>)
    ensures r.Some? ==> from <= r.value.start < |s| && SimpleMatchAt(s, r.value.start)
    ensures r.Some? ==> r.value.end == FirstBrace(s, r.value.start + 1).value + 1
    ensures r.None? ==> forall p :: from <= p < |s| ==> !SimpleMatchAt(s, p)
    decreases |s| - from
  {
    if from >= |s| then None
    else if SimpleMatchAt(s, from) then Some(Span(from, FirstBrace(s, from + 1).value + 1))
    else FirstSimple(s, from + 1)
  }

  /**
   * The text `response.match(...)` yields: the first pattern, or the
   * fallback pattern when the first finds nothing.
   */
  function FindJsonSpan(response: string): (r: Option<string>)
    ensures r.Some? ==> |r.value| >= 2 && r.value[0] == '{'
  {
    var nested := FirstNested(response, 0);
    if nested.Some? then Some(response[nested.value.start..nested.value.end])
    else
      var simple := FirstSimple(response, 0);
      if simple.Some? then
        Some(response[simple.value.start..simple.value.end])
      else None
  }

  /**
   * The fallback pattern never finds anything: a span is found exactly when
   * the first pattern matches, and it is that pattern's leftmost match, an
   * object whose braces nest at most two deep.
   */
  lemma FoundSpanIsNestedMatch(response: string)
    ensures FindJsonSpan(response).Some? <==> FirstNested(response, 0).Some?
    ensures FirstNested(response, 0).Some? ==>
      var sp := FirstNested(response, 0).value;
      && FindJsonSpan(response) == Some(response[sp.start..sp.end])
      && response[sp.start] == '{'
      && ClosesWithin(response, sp.start + 1, sp.end, 1)
  {
    var nested := FirstNested(response, 0);
    if nested.None? {
      var simple := FirstSimple(response, 0);
      if simple.Some? {
        SimpleMatchIsNested(response, simple.value.start);
        assert false;
      }
    } else {
      ScanSound(response, nested.value.start + 1);
    }
  }

  /** Any text that opens with a brace and closes within two levels is a match. */
  lemma BalancedObjectIsMatched(s: string, p: nat, e: nat)
    requires p < e <= |s| && s[p] == '{'
    requires ClosesWithin(s, p + 1, e, 1)
    ensures NestedMatchAt(s, p) && ScanOuter(s, p + 1) == Some(e)
  {
    ScanComplete(s, p + 1, e, 1);
  }

  // ---------------------------------------------------------------------
  // Building the recipe

  /** Why parsing fails; `IllTyped` marks values the model does not carry. */
  datatype ParseError =
    | NoJsonFound
    | InvalidJson
    | MissingRequiredFields
    | NotAList
    | IllTyped

  /** A present, truthy field of the parsed object. */
  predicate HasTruthy(data: Json, key: string) {
    Field(data, key).Some? && Truthy(Field(data, key).value)
  }

  /** A list of strings, or None when the value is not one. */
  function Strings(j: Json): (r: Option<seq<string>>)
    ensures r.Some? ==> j.JArr? && |r.value| == |j.items|
    ensures r.Some? ==> forall i :: 0 <= i < |j.items| ==> j.items[i] == JStr(r.value[i])
    ensures j.JArr? && (forall i :: 0 <= i < |j.items| ==> j.items[i].JStr?) ==> r.Some?
  {
    if j.JArr? && forall i :: 0 <= i < |j.items| ==> j.items[i].JStr? then
      Some(seq(|j.items|, i requires 0 <= i < |j.items| => j.items[i].s))
    else None
  }

  /** `value || undefined` for a string field. */
  function OptionalString(data: Json, key: string): (r: Result<Option<string>, ParseError>)
    ensures !HasTruthy(data, key) ==> r == Success(None)
    ensures HasTruthy(data, key) && Field(data, key).value.JStr? ==> r == Success(Some(Field(data, key).value.s))
    ensures HasTruthy(data, key) && !Field(data, key).value.JStr? ==> r == Failure(IllTyped)
  {
    if !HasTruthy(data, key) then Success(None)
    else if Field(data, key).value.JStr? then Success(Some(Field(data, key).value.s))
    else Failure(IllTyped)
  }

  /** The recipe built from a validated object. */
  function BuildRecipe(data: Json, imageUrl: Nullable<string>, sourceUrl: Option<string>, freshId: FreshId)
    : (r: Result<Recipe, ParseError>)
    requires HasTruthy(data, "name") && HasTruthy(data, "ingredients") && HasTruthy(data, "instructions")
    ensures r.Failure? ==> r.error == NotAList || r.error == IllTyped
    ensures r.Success? ==> r.value.imageUri == imageUrl && '_' in r.value.id
  {
    var name := Field(data, "name").value;
    var ingredients := Field(data, "ingredients").value;
    var instructions := Field(data, "instructions").value;
    if !ingredients.JArr? then Failure(NotAList)
    else if !name.JStr? || Strings(ingredients).None? || Strings(instructions).None? then Failure(IllTyped)
    else
      var tags := if HasTruthy(data, "tags") then Strings(Field(data, "tags").value) else Some([]);
      var cookingTime := OptionalString(data, "cookingTime");
      var calories := OptionalString(data, "calories");
      if tags.None? || cookingTime.Failure? || calories.Failure? then Failure(IllTyped)
      else
        Success(NewRecipe(RecipeInit(
          id := None,
          name := Some(name.s),
          imageUri := Some(imageUrl),
          ingredients := Some(NewIngredients(Strings(ingredients).value, freshId)),
          instructions := Some(Strings(instructions).value),
          sourceUrl := sourceUrl,
          cookingTime := cookingTime.value,
          calories := calories.value,
          tags := tags,
          userId := None), freshId))
  }

  /**
   * `parseGPTResponse(response, imageUrl, sourceUrl)`; `parse` stands for
   * `JSON.parse` and returns None where it throws.
   */
  function ParseGptResponse(
    response: string, imageUrl: Nullable<string>, sourceUrl: Option<string>,
    parse: string -> Option<Json>, freshId: FreshId): (r: Result<Recipe, ParseError>)
    ensures FindJsonSpan(response).None? ==> r == Failure(NoJsonFound)
    ensures FindJsonSpan(response).Some? && parse(FindJsonSpan(response).value).None? ==> r == Failure(InvalidJson)
    ensures r.Success? || r.error != MissingRequiredFields <==>
      FindJsonSpan(response).None? || parse(FindJsonSpan(response).value).None? ||
      var data := parse(FindJsonSpan(response).value).value;
      HasTruthy(data, "name") && HasTruthy(data, "ingredients") && HasTruthy(data, "instructions")
  {
    var span := FindJsonSpan(response);
    if span.None? then Failure(NoJsonFound)
    else
      var parsed := parse(span.value);
      if parsed.None? then Failure(InvalidJson)
      else
        var data := parsed.value;
        if !HasTruthy(data, "name") || !HasTruthy(data, "ingredients") || !HasTruthy(data, "instructions") then
          Failure(MissingRequiredFields)
        else BuildRecipe(data, imageUrl, sourceUrl, freshId)
  }

  /**
   * A successful parse gives a recipe with a fresh id, the reply's name,
   * one ingredient per listed string in order, the instructions unchanged,
   * the tags or [], empty cooking time and calories as undefined, and the
   * image and source addresses that were passed in.
   */
  lemma ParsedRecipeFields(
    response: string, imageUrl: Nullable<string>, sourceUrl: Option<string>,
    parse: string -> Option<Json>, freshId: FreshId)
    requires ParseGptResponse(response, imageUrl, sourceUrl, parse, freshId).Success?
    ensures FindJsonSpan(response).Some? && parse(FindJsonSpan(response).value).Some?
    ensures var data := parse(FindJsonSpan(response).value).value;
      var r := ParseGptResponse(response, imageUrl, sourceUrl, parse, freshId).value;
      && r.id == freshId
      && JStr(r.name) == Field(data, "name").value
      && Strings(Field(data, "ingredients").value) == Some(seq(|r.ingredients|, i requires 0 <= i < |r.ingredients| => r.ingredients[i].name))
      && Strings(Field(data, "instructions").value) == Some(r.instructions)
      && (HasTruthy(data, "tags") ==> Strings(Field(data, "tags").value) == Some(r.tags))
      && (!HasTruthy(data, "tags") ==> r.tags == [])
      && (r.cookingTime.None? <==> !HasTruthy(data, "cookingTime"))
      && (r.cookingTime.Some? ==> Field(data, "cookingTime") == Some(JStr(r.cookingTime.value)))
      && (r.calories.None? <==> !HasTruthy(data, "calories"))
      && (r.calories.Some? ==> Field(data, "calories") == Some(JStr(r.calories.value)))
      && r.imageUri == imageUrl && r.sourceUrl == sourceUrl && r.userId.None?
  {
    var data := parse(FindJsonSpan(response).value).value;
    var r := ParseGptResponse(response, imageUrl, sourceUrl, parse, freshId).value;
    var names := Strings(Field(data, "ingredients").value).value;
    assert r.ingredients == NewIngredients(names, freshId);
    assert seq(|r.ingredients|, i requires 0 <= i < |r.ingredients| => r.ingredients[i].name) == names;
  }
}
