/**
 * The migration engine: upgrades an untyped stored recipe record of any
 * schema version to the current one, coercing malformed ingredients, steps
 * and instruction lists on the way. It never fails.
 */
module RecipeMigrations {
  import opened Wrappers
  import opened Json
  import opened RecipeModel

  const CurrentSchemaVersion: int := 2

  /** `record.key`, undefined when the key is absent. */
  function Get(r: Record, key: string): (v: Option<Json>)
    ensures v.Some? <==> key in r
  {
    if key in r then Some(r[key]) else None
  }

  // ---------------------------------------------------------------------
  // Ingredients

  /** An object whose `name` is a string. */
  predicate HasStringName(ing: Json) {
    ing.JObj? && "name" in ing.fields && ing.fields["name"].JStr?
  }

  /** The shape every coerced ingredient has: `{id, name}`, a truthy id and a string name. */
  predicate WellFormedIngredient(j: Json) {
    && j.JObj?
    && j.fields.Keys == {"id", "name"}
    && j.fields["name"].JStr?
    && Truthy(j.fields["id"])
  }

  /**
   * `ensureIngredientObject`: an object with a string name keeps that name
   * and its id when the id is truthy; anything else becomes an ingredient
   * named by the string itself or by `String(value)`, null giving ''. Where
   * no usable id exists the generated one is used.
   */
  function EnsureIngredientObject(ing: Json, freshId: FreshId): (r: Json)
    ensures WellFormedIngredient(r)
    ensures HasStringName(ing) ==> r.fields["name"] == ing.fields["name"]
    ensures HasStringName(ing) && "id" in ing.fields && Truthy(ing.fields["id"]) ==>
              r.fields["id"] == ing.fields["id"]
    ensures !HasStringName(ing) ==> r.fields["name"] == JStr(Coerce(ing))
    ensures !(HasStringName(ing) && "id" in ing.fields && Truthy(ing.fields["id"])) ==>
              r.fields["id"] == JStr(freshId)
  {
    if HasStringName(ing) then
      var id := if "id" in ing.fields && Truthy(ing.fields["id"]) then ing.fields["id"] else JStr(freshId);
      JObj(map["id" := id, "name" := ing.fields["name"]])
    else
      JObj(map["id" := JStr(freshId), "name" := JStr(Coerce(ing))])
  }

  /** A coerced ingredient is left exactly as it is by a second coercion. */
  lemma EnsureIngredientIdempotent(j: Json, freshId: FreshId)
    requires WellFormedIngredient(j)
    ensures EnsureIngredientObject(j, freshId) == j
  {
    var r := EnsureIngredientObject(j, freshId);
    assert r.fields.Keys == j.fields.Keys;
    assert forall k | k in j.fields :: r.fields[k] == j.fields[k];
  }

  /** `ingredientsRaw.map(ensureIngredientObject)`. */
  function EnsureIngredients(raw: seq<Json>, freshId: FreshId): (r: seq<Json>)
    ensures |r| == |raw|
    ensures forall i :: 0 <= i < |r| ==> r[i] == EnsureIngredientObject(raw[i], freshId)
  {
    seq(|raw|, i requires 0 <= i < |raw| => EnsureIngredientObject(raw[i], freshId))
  }

  // ---------------------------------------------------------------------
  // Lists and instructions

  /** `Array.isArray(v) ? v : []`. */
  function ArrayOrEmpty(v: Option<Json>): seq<Json> {
    if v.Some? && v.value.JArr? then v.value.items else []
  }

  /** The raw instruction list: an array as it is, a lone string as a one-element list, else []. */
  function InstructionsRaw(v: Option<Json>): seq<Json> {
    if v.Some? && v.value.JArr? then v.value.items
    else if v.Some? && v.value.JStr? then [v.value]
    else []
  }

  /** `.map(s => typeof s === 'string' ? s : String(s ?? '')).filter(Boolean)`. */
  function InstructionStrings(raw: seq<Json>): (r: seq<string>)
    ensures forall i :: 0 <= i < |r| ==> r[i] != []
    ensures |r| <= |raw|
  {
    if raw == [] then []
    else
      var s := Coerce(raw[0]);
      (if s == [] then [] else [s]) + InstructionStrings(raw[1..])
  }

  /** Every string of a list of non-empty strings survives the conversion unchanged. */
  lemma {:induction false} InstructionStringsOfStrings(strs: seq<string>)
    requires forall i :: 0 <= i < |strs| ==> strs[i] != []
    ensures InstructionStrings(StrArray(strs)) == strs
  {
    if strs != [] {
      assert StrArray(strs)[1..] == StrArray(strs[1..]);
      InstructionStringsOfStrings(strs[1..]);
    }
  }

  /** A list of strings as JSON strings. */
  function StrArray(strs: seq<string>): (r: seq<Json>)
    ensures |r| == |strs| && forall i :: 0 <= i < |r| ==> r[i] == JStr(strs[i])
  {
    seq(|strs|, i requires 0 <= i < |strs| => JStr(strs[i]))
  }

  // ---------------------------------------------------------------------
  // Steps

  /**
   * `new RecipeStep({title, ingredients, instructions})`, taken as a plain
   * record holding exactly the fields given; an undefined title is absent.
   */
  function StepRecord(title: Option<string>, ingredients: seq<Json>, instructions: seq<string>): Json {
    var base := map["ingredients" := JArr(ingredients), "instructions" := JArr(StrArray(instructions))];
    JObj(if title.Some? then base["title" := JStr(title.value)] else base)
  }

  /**
   * A normalised step: title a string or absent, ingredients coerced,
   * instructions non-empty strings, no other field.
   */
  predicate WellFormedStep(j: Json) {
    && j.JObj?
    && "ingredients" in j.fields && "instructions" in j.fields
    && j.fields.Keys <= {"title", "ingredients", "instructions"}
    && ("title" in j.fields ==> j.fields["title"].JStr?)
    && j.fields["ingredients"].JArr?
    && (forall i :: 0 <= i < |j.fields["ingredients"].items| ==>
          WellFormedIngredient(j.fields["ingredients"].items[i]))
    && j.fields["instructions"].JArr?
    && (forall i :: 0 <= i < |j.fields["instructions"].items| ==>
          j.fields["instructions"].items[i].JStr? && j.fields["instructions"].items[i].s != [])
  }

  /** The title of a step-like value when it is a string. */
  function StringTitle(stepLike: Json): Option<string> {
    var t := Field(stepLike, "title");
    if t.Some? && t.value.JStr? then Some(t.value.s) else None
  }

  /**
   * `normalizeStep`: keeps a string title, coerces every ingredient,
   * turns a non-array ingredient list into [] and a non-array instruction
   * field into [] (or a one-element list for a lone string), and drops
   * instructions that are empty after conversion to string.
   */
  function NormalizeStep(stepLike: Json, freshId: FreshId): (r: Json)
    ensures WellFormedStep(r)
    ensures "title" in r.fields <==> StringTitle(stepLike).Some?
  {
    StepRecord(StringTitle(stepLike),
               EnsureIngredients(ArrayOrEmpty(Field(stepLike, "ingredients")), freshId),
               InstructionStrings(InstructionsRaw(Field(stepLike, "instructions"))))
  }

  /** A normalised step is left exactly as it is by a second normalisation. */
  lemma NormalizeStepIdempotent(j: Json, freshId: FreshId)
    requires WellFormedStep(j)
    ensures NormalizeStep(j, freshId) == j
  {
    var ings := j.fields["ingredients"].items;
    forall i | 0 <= i < |ings| ensures EnsureIngredientObject(ings[i], freshId) == ings[i] {
      EnsureIngredientIdempotent(ings[i], freshId);
    }
    assert EnsureIngredients(ings, freshId) == ings;
    var instrs := j.fields["instructions"].items;
    var strs := seq(|instrs|, i requires 0 <= i < |instrs| => instrs[i].s);
    assert StrArray(strs) == instrs;
    InstructionStringsOfStrings(strs);
    var r := NormalizeStep(j, freshId);
    assert r.fields.Keys == j.fields.Keys;
  }

  /** `steps.map(normalizeStep)`. */
  function NormalizeSteps(steps: seq<Json>, freshId: FreshId): (r: seq<Json>)
    ensures |r| == |steps|
    ensures forall i :: 0 <= i < |r| ==> r[i] == NormalizeStep(steps[i], freshId)
  {
    seq(|steps|, i requires 0 <= i < |steps| => NormalizeStep(steps[i], freshId))
  }

  lemma NormalizeStepsIdempotent(steps: seq<Json>, f1: FreshId, f2: FreshId)
    ensures NormalizeSteps(NormalizeSteps(steps, f1), f2) == NormalizeSteps(steps, f1)
  {
    var once := NormalizeSteps(steps, f1);
    forall i | 0 <= i < |once| ensures NormalizeStep(once[i], f2) == once[i] {
      NormalizeStepIdempotent(once[i], f2);
    }
  }

  // ---------------------------------------------------------------------
  // The 1 -> 2 migrator and the chain

  /** The name a version-1 record migrates to: its string name, otherwise ''. */
  function V1Name(v1: Record): Json {
    if "name" in v1 && v1["name"].JStr? then v1["name"] else JStr("")
  }

  /** The single untitled step a version-1 record is wrapped into. */
  function V1Step(v1: Record, freshId: FreshId): Json {
    StepRecord(None,
               EnsureIngredients(ArrayOrEmpty(Get(v1, "ingredients")), freshId),
               InstructionStrings(InstructionsRaw(Get(v1, "instructions"))))
  }

  /**
   * `migrateV1ToV2`: every field is carried over, the name becomes a
   * string, the flat ingredient and instruction lists are wrapped into one
   * untitled step, and the version is stamped 2.
   */
  function MigrateV1ToV2(v1: Record, freshId: FreshId): (r: Record)
    ensures r.Keys == v1.Keys + {"name", "steps", "schemaVersion"}
    ensures r["schemaVersion"] == JNum(2) && r["name"].JStr?
    ensures forall k | k in v1 && k !in {"name", "steps", "schemaVersion"} :: r[k] == v1[k]
  {
    v1["name" := V1Name(v1)]["steps" := JArr([V1Step(v1, freshId)])]["schemaVersion" := JNum(2)]
  }

  /** The table of single-step migrators, keyed by the version they upgrade from. */
  const Migrations: map<int, (Record, FreshId) -> Record> := map[1 := MigrateV1ToV2]

  /**
   * What the upgrade loop computes from `version` onwards: it runs the
   * migrator for the current version and stamps the next version, until
   * the current version is reached or no migrator exists.
   */
  function Chain(version: int, rec: Record, freshId: FreshId): Record
    decreases CurrentSchemaVersion - version
  {
    if version >= CurrentSchemaVersion || version !in Migrations then rec
    else Chain(version + 1, Migrations[version](rec, freshId)["schemaVersion" := JNum(version + 1)], freshId)
  }

  /** The starting version: a numeric `schemaVersion`, otherwise 1. */
  function StartVersion(input: Record): int {
    if "schemaVersion" in input && input["schemaVersion"].JNum? then input["schemaVersion"].n else 1
  }

  /** The final normalisation pass: normalise an array of steps and stamp the current version. */
  function FinalNormalize(out: Record, freshId: FreshId): (r: Record)
    ensures "schemaVersion" in r && r["schemaVersion"] == JNum(CurrentSchemaVersion)
    ensures forall k :: k in out && k != "steps" && k != "schemaVersion" ==> k in r && r[k] == out[k]
  {
    if "steps" in out && out["steps"].JArr? then
      out["steps" := JArr(NormalizeSteps(out["steps"].items, freshId))]["schemaVersion" := JNum(CurrentSchemaVersion)]
    else
      out["schemaVersion" := JNum(CurrentSchemaVersion)]
  }

  /** The record `migrateRecipeToLatest` returns. */
  function Migrated(input: Record, freshId: FreshId): Record {
    var v := StartVersion(input);
    FinalNormalize(Chain(v, input["schemaVersion" := JNum(v)], freshId), freshId)
  }

  /** `migrateRecipeToLatest`. */
  method MigrateRecipeToLatest(input: Record, freshId: FreshId) returns (out: Record)
    ensures out == Migrated(input, freshId)
    ensures "schemaVersion" in out && out["schemaVersion"] == JNum(CurrentSchemaVersion)
  {
    var version := StartVersion(input);
    out := input["schemaVersion" := JNum(version)];
    ghost var start := out;
    while version < CurrentSchemaVersion
      invariant Chain(version, out, freshId) == Chain(StartVersion(input), start, freshId)
      decreases CurrentSchemaVersion - version
    {
      if version !in Migrations {
        break;
      }
      var migrator := Migrations[version];
      out := migrator(out, freshId);
      version := version + 1;
      out := out["schemaVersion" := JNum(version)];
    }
    if "steps" in out && out["steps"].JArr? {
      out := out["steps" := JArr(NormalizeSteps(out["steps"].items, freshId))]["schemaVersion" := JNum(CurrentSchemaVersion)];
    } else {
      out := out["schemaVersion" := JNum(CurrentSchemaVersion)];
    }
  }

  // ---------------------------------------------------------------------
  // Properties

  /**
   * The loop stops at the first version with no migrator: from version 1
   * it runs exactly `migrateV1ToV2`; from any other version it changes
   * nothing.
   */
  lemma {:induction false} ChainOutcome(version: int, rec: Record, freshId: FreshId)
    ensures Chain(version, rec, freshId) ==
      if version == 1 then MigrateV1ToV2(rec, freshId)["schemaVersion" := JNum(2)] else rec
  {
    if version == 1 {
      var next := Migrations[1](rec, freshId)["schemaVersion" := JNum(2)];
      assert Chain(2, next, freshId) == next;
    }
  }

  /** Whatever the input's version (absent, non-numeric, 1, 2 or larger), the output is stamped 2. */
  lemma MigratedIsStamped(input: Record, freshId: FreshId)
    ensures "schemaVersion" in Migrated(input, freshId)
    ensures Migrated(input, freshId)["schemaVersion"] == JNum(CurrentSchemaVersion)
  {
  }

  /**
   * A record whose version is missing, non-numeric or 1 gains exactly one
   * untitled step built from its flat ingredient and instruction fields,
   * and a string name.
   */
  lemma MigratedLegacyRecord(input: Record, freshId: FreshId)
    requires StartVersion(input) == 1
    ensures Migrated(input, freshId)["steps"] == JArr([V1Step(input, freshId)])
    ensures Migrated(input, freshId)["name"] == V1Name(input)
  {
    var start := input["schemaVersion" := JNum(1)];
    ChainOutcome(1, start, freshId);
    var step := V1Step(start, freshId);
    assert Get(start, "ingredients") == Get(input, "ingredients");
    assert Get(start, "instructions") == Get(input, "instructions");
    assert step == V1Step(input, freshId);
    InstructionStringsAreWellFormed(InstructionStrings(InstructionsRaw(Get(input, "instructions"))));
    NormalizeStepIdempotent(step, freshId);
    assert NormalizeSteps([step], freshId) == [step];
  }

  /** The step built from non-empty instruction strings is well formed. */
  lemma InstructionStringsAreWellFormed(strs: seq<string>)
    requires forall i :: 0 <= i < |strs| ==> strs[i] != []
    ensures forall i :: 0 <= i < |StrArray(strs)| ==> StrArray(strs)[i].JStr? && StrArray(strs)[i].s != []
  {
  }

  /**
   * A record with a numeric version other than 1 keeps its name; its steps
   * are normalised when they are an array and otherwise left as they are.
   */
  lemma MigratedCurrentRecord(input: Record, freshId: FreshId)
    requires StartVersion(input) != 1
    ensures var out := Migrated(input, freshId);
      && ("name" in out <==> "name" in input)
      && ("name" in input ==> out["name"] == input["name"])
      && ("steps" in out <==> "steps" in input)
      && ("steps" in input && input["steps"].JArr? ==>
            out["steps"] == JArr(NormalizeSteps(input["steps"].items, freshId)))
      && ("steps" in input && !input["steps"].JArr? ==> out["steps"] == input["steps"])
  {
    ChainOutcome(StartVersion(input), input["schemaVersion" := JNum(StartVersion(input))], freshId);
  }

  /** Only `name`, `steps` and `schemaVersion` are rewritten; every other field is carried over. */
  lemma MigratedKeepsOtherFields(input: Record, freshId: FreshId, key: string)
    requires key !in {"name", "steps", "schemaVersion"}
    ensures key in Migrated(input, freshId) <==> key in input
    ensures key in input ==> Migrated(input, freshId)[key] == input[key]
  {
    ChainOutcome(StartVersion(input), input["schemaVersion" := JNum(StartVersion(input))], freshId);
  }

  /**
   * Migrating an already migrated record changes nothing: the name, every
   * step title, ingredient id and name and instruction list, and all other
   * fields stay as they are, whatever id the second run would generate.
   */
  lemma MigratedIdempotent(input: Record, f1: FreshId, f2: FreshId)
    ensures Migrated(Migrated(input, f1), f2) == Migrated(input, f1)
  {
    var once := Migrated(input, f1);
    MigratedIsStamped(input, f1);
    assert StartVersion(once) == 2;
    ChainOutcome(2, once["schemaVersion" := JNum(2)], f2);
    assert once["schemaVersion" := JNum(2)] == once;
    if "steps" in once && once["steps"].JArr? {
      var steps := once["steps"].items;
      StepsOfMigratedAreNormal(input, f1);
      forall i | 0 <= i < |steps| ensures NormalizeStep(steps[i], f2) == steps[i] {
        NormalizeStepIdempotent(steps[i], f2);
      }
      assert NormalizeSteps(steps, f2) == steps;
      assert once["steps" := JArr(steps)] == once;
    }
  }

  /** Every step of a migrated record's step array is normalised. */
  lemma StepsOfMigratedAreNormal(input: Record, freshId: FreshId)
    ensures var out := Migrated(input, freshId);
      "steps" in out && out["steps"].JArr? ==>
        forall i :: 0 <= i < |out["steps"].items| ==> WellFormedStep(out["steps"].items[i])
  {
    var v := StartVersion(input);
    ChainOutcome(v, input["schemaVersion" := JNum(v)], freshId);
  }
}
