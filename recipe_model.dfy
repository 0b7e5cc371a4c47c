/** The recipe schema: the fields a recipe document has, their types, which of
    them are required, and the store-managed timestamps. */
module RecipeModel {
  import opened Js

  datatype Option<T> = None | Some(value: T)

  /** Document identifiers (ObjectIds), abstracted to naturals. */
  type Id = nat

  /** The seven client-supplied fields of a recipe, as JavaScript values: a
      document holds whatever was assigned to it until validation decides. */
  datatype Content = Content(
    title: JsValue,
    ingredients: JsValue,
    instructions: JsValue,
    author: JsValue,
    cuisineType: JsValue,
    prepTime: JsValue,
    coverImage: JsValue)

  /** A recipe document: its content, the owning user's id and the
      `createdAt`/`updatedAt` timestamps the store adds (timestamps: true). */
  datatype Recipe = Recipe(content: Content, userId: Option<Id>, createdAt: nat, updatedAt: nat)

  /** `{ type: String, required: true }`: a string, and not the empty one
      (the required check on a string path also demands a non-zero length). */
  predicate RequiredString(v: JsValue) {
    v.Str? && |v.s| > 0
  }

  /** `{ type: String }` without `required`: absent, null, or a string. */
  predicate OptionalString(v: JsValue) {
    v.Undefined? || v.Null? || v.Str?
  }

  /** `{ type: [String] }`: an array (of any length) whose items are strings. */
  predicate StringArray(v: JsValue) {
    v.Arr? && forall i :: 0 <= i < |v.items| ==> v.items[i].Str?
  }

  /** `{ type: [String] }` without `required`. */
  predicate OptionalStringArray(v: JsValue) {
    v.Undefined? || v.Null? || StringArray(v)
  }

  /** `{ type: Number, required: true }`: any number, zero included. */
  predicate RequiredNumber(v: JsValue) {
    v.Num?
  }

  /** The schema's constraints on the seven client-supplied fields. */
  predicate ValidContent(c: Content) {
    && RequiredString(c.title)
    && StringArray(c.ingredients)
    && RequiredString(c.instructions)
    && RequiredString(c.author)
    && OptionalStringArray(c.cuisineType)
    && RequiredNumber(c.prepTime)
    && OptionalString(c.coverImage)
  }

  /** A document passes validation iff its content does and it has a `userId`. */
  predicate Valid(r: Recipe) {
    ValidContent(r.content) && r.userId.Some?
  }

  /** The schema's paths, in declaration order. */
  const SchemaPaths: seq<string> :=
    ["title", "ingredients", "instructions", "author", "cuisineType", "prepTime", "coverImage", "userId"]

  /** Whether the validators of schema path `p` accept `r`. */
  predicate PathValid(r: Recipe, p: string) {
    var c := r.content;
    if p == "title" then RequiredString(c.title)
    else if p == "ingredients" then StringArray(c.ingredients)
    else if p == "instructions" then RequiredString(c.instructions)
    else if p == "author" then RequiredString(c.author)
    else if p == "cuisineType" then OptionalStringArray(c.cuisineType)
    else if p == "prepTime" then RequiredNumber(c.prepTime)
    else if p == "coverImage" then OptionalString(c.coverImage)
    else if p == "userId" then r.userId.Some?
    else true
  }

  /** The paths of `paths` whose validators reject `r`, in order. */
  function FailingPaths(r: Recipe, paths: seq<string>): (failing: seq<string>)
    ensures forall p :: p in failing <==> p in paths && !PathValid(r, p)
    ensures |failing| <= |paths|
  {
    if paths == [] then []
    else (if PathValid(r, paths[0]) then [] else [paths[0]]) + FailingPaths(r, paths[1..])
  }

  /** The paths whose validators fail on `r`, in schema order, as a validation
      error reports them: none exactly when the document is valid. */
  function ViolatedPaths(r: Recipe): (paths: seq<string>)
    ensures paths == [] <==> Valid(r)
    ensures forall p :: p in paths ==> p in SchemaPaths
  {
    ValidIffAllPathsValid(r);
    var paths := FailingPaths(r, SchemaPaths);
    assert paths != [] ==> paths[0] in paths;
    paths
  }

  /** The document-level rule agrees with the rule read path by path. */
  lemma ValidIffAllPathsValid(r: Recipe)
    ensures Valid(r) <==> forall p :: p in SchemaPaths ==> PathValid(r, p)
  {
    if Valid(r) {
      forall p | p in SchemaPaths ensures PathValid(r, p) {
        var i :| 0 <= i < |SchemaPaths| && SchemaPaths[i] == p;
      }
    } else {
      assert !PathValid(r, SchemaPaths[0]) || !PathValid(r, SchemaPaths[1])
        || !PathValid(r, SchemaPaths[2]) || !PathValid(r, SchemaPaths[3])
        || !PathValid(r, SchemaPaths[4]) || !PathValid(r, SchemaPaths[5])
        || !PathValid(r, SchemaPaths[6]) || !PathValid(r, SchemaPaths[7]);
    }
  }

  /** The paths joined by ", ". */
  function Join(paths: seq<string>): string {
    if |paths| == 0 then ""
    else if |paths| == 1 then paths[0]
    else paths[0] + ", " + Join(paths[1..])
  }

  /** The message of the error a failed validation raises. */
  function ValidationMessage(r: Recipe): string {
    "Recipe validation failed: " + Join(ViolatedPaths(r))
  }

  /** Absence of either optional field never makes a document invalid. */
  lemma OptionalFieldsMayBeAbsent(r: Recipe)
    requires Valid(r)
    ensures Valid(r.(content := r.content.(cuisineType := Undefined)))
    ensures Valid(r.(content := r.content.(coverImage := Undefined)))
  {
  }

  /** A document without a `userId` is invalid whatever its content. */
  lemma MissingUserIdInvalid(r: Recipe)
    requires r.userId.None?
    ensures !Valid(r)
    ensures "userId" in ViolatedPaths(r)
  {
  }

  /** The timestamps take no part in validation. */
  lemma ValidityIgnoresTimestamps(r: Recipe, createdAt: nat, updatedAt: nat)
    ensures Valid(r) <==> Valid(r.(createdAt := createdAt, updatedAt := updatedAt))
  {
  }
}
