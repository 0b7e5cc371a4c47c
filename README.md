# Recipe store: a Dafny model of the recipe request handlers

This project models the backend of a small recipe catalogue: the Mongoose
schema of a recipe document (`backend/src/models/Recipe.js`) and the five
Express handlers of `RecipeController` (`backend/src/controllers/RecipeController.js`)
that list, get, create, update and delete recipes in the `recipes` collection.

- `js.dfy` (module `Js`): the JSON values a request body carries, JavaScript
  truthiness (`""`, `0`, `false`, `null` and `undefined` are falsy; every array,
  even `[]`, is truthy) and the `a || b` operator the update handler relies on.
- `recipe_model.dfy` (module `RecipeModel`): the recipe document (`Content` of
  seven client fields, `userId`, `createdAt`, `updatedAt`), the schema's
  validity predicate `Valid`, and `ViolatedPaths`, the list of paths whose
  validators fail, which is empty exactly when `Valid` holds.
- `recipe_controller.dfy` (module `Controller`): class `RecipeController`
  holding the collection as a `map<Id, Recipe>` plus the store's clock, with one
  method per handler returning a `Response(status, body)`. Each method's
  `ensures` states the status, the body and the whole new collection in terms
  of the old one. The body-field extraction (`Extract`) and the field-by-field
  truthy merge (`Merge`) are functions with lemmas about them; the newest-first
  ordering is an insertion into a sorted list.
- `scenarios.dfy` (module `Scenarios`): client methods that run request
  sequences (create, get, update, delete, get again; list of two documents)
  and assert what the handlers' contracts alone imply.

The environment of the handlers is made explicit: a failing store call (a
connection error, or an id that cannot be cast to an ObjectId, both of which
make Mongoose throw) is an `Option<string>` parameter carrying the error's
message; the id Mongoose generates for a new document is a parameter; the
timestamp clock is a field that advances by one on every successful save.

The model follows the code as written: neither `RecipeController.js` nor
`Recipe.js` authenticates callers, checks ownership, filters by a search text
or answers 401/403; `updateRecipe` answers 400 (not 404 or 500) for every
failure after the body is read, a failed lookup included; and `deleteRecipe`
answers with a confirmation message rather than the deleted document.

## Model

| member | source | states |
|---|---|---|
| `Js.Truthy` | backend/src/controllers/RecipeController.js:57-63 | JavaScript truthiness of a body value: `undefined`, `null`, `false`, `0` and `""` are falsy, every other value (every array included) truthy |
| `Js.Or` | backend/src/controllers/RecipeController.js:57-63 | JavaScript's or-operator: the left operand when it is truthy, the right one otherwise |
| `Js.Field` | backend/src/controllers/RecipeController.js:29 | reading a field of `req.body`: its value, or `undefined` when the body lacks it |
| `Js.OrFalsyYieldsRight` | backend/src/controllers/RecipeController.js:57-63 | the `or` operator yields its right operand whenever the left one is `undefined`, `null`, `false`, `0` or `""` |
| `Js.OrArrayYieldsLeft` | backend/src/controllers/RecipeController.js:58 | the `or` operator yields its left operand whenever that is an array, the empty one included |
| `RecipeModel.ValidContent` | backend/src/models/Recipe.js:4-10 | `title`, `instructions`, `author` are non-empty strings, `ingredients` an array of strings, `prepTime` a number; `cuisineType` (array of strings) and `coverImage` (string) may be absent or null |
| `RecipeModel.Valid` | backend/src/models/Recipe.js:3-12 | a document passes validation exactly when its content satisfies the schema and it carries a `userId` |
| `RecipeModel.ValidationMessage` | backend/src/controllers/RecipeController.js:44 | the message of a failed validation: `Recipe validation failed: ` followed by the failing paths in schema order |
| `RecipeModel.FailingPaths` | backend/src/models/Recipe.js:3-12 | the failing paths are exactly the listed paths whose validators reject the document |
| `RecipeModel.ValidIffAllPathsValid` | backend/src/models/Recipe.js:3-12 | a document is valid exactly when every schema path's validator accepts it |
| `RecipeModel.ViolatedPaths` | backend/src/models/Recipe.js:3-12 | validation reports no failing path exactly when the document is valid, and only schema paths are ever reported |
| `RecipeModel.OptionalFieldsMayBeAbsent` | backend/src/models/Recipe.js:8-10 | removing `cuisineType` or `coverImage` from a valid document leaves it valid |
| `RecipeModel.MissingUserIdInvalid` | backend/src/models/Recipe.js:11 | a document without `userId` is invalid and validation names `userId` |
| `RecipeModel.ValidityIgnoresTimestamps` | backend/src/models/Recipe.js:12 | the store-managed timestamps never change whether a document is valid |
| `Controller.Extract` | backend/src/controllers/RecipeController.js:29-38 | each of the seven document fields holds the body field of the same name |
| `Controller.Merge` | backend/src/controllers/RecipeController.js:57-63 | each of the seven fields, by name, takes the body's value when truthy and keeps the stored value otherwise |
| `Controller.ExtractIgnoresOtherFields` | backend/src/controllers/RecipeController.js:29-38 | changing a body field other than the seven changes neither a new document nor a merge |
| `Controller.ExtractAbsentIsUndefined` | backend/src/controllers/RecipeController.js:29-38 | an optional field the body leaves out is undefined in the new document |
| `Controller.MergeNeverClears` | backend/src/controllers/RecipeController.js:57-63 | no update body can make a truthy stored field falsy |
| `Controller.MergeEmptyArrayOverwrites` | backend/src/controllers/RecipeController.js:58 | an incoming empty `ingredients` array replaces the stored one |
| `Controller.MergeIdempotent` | backend/src/controllers/RecipeController.js:57-63 | merging the same body twice gives the same fields as merging it once |
| `Controller.MergePreservesValidity` | backend/src/controllers/RecipeController.js:57-65 | valid stored content merged with a body whose truthy fields have the schema's types stays valid |
| `Controller.PartialUpdateKeepsUntouched` | backend/src/controllers/RecipeController.js:57-63 | stored `{title: "A", prepTime: 10}` updated with `{prepTime: 20}` keeps title `"A"` and every other field, with time 20 |
| `Controller.ZeroPrepTimeKeepsStored` | backend/src/controllers/RecipeController.js:62 | a `prepTime` of 0 in the body leaves the stored content unchanged |
| `Controller.InsertNewest` | backend/src/controllers/RecipeController.js:7 | inserting into a newest-first list keeps it newest-first and adds exactly the one document (a permutation) |
| `Controller.InsertNewestMembers` | backend/src/controllers/RecipeController.js:7 | the documents of an insertion are the inserted one and the old ones |
| `Controller.RecipeController.GetAllRecipes` | backend/src/controllers/RecipeController.js:5-12 | 200 with every stored document exactly once, newest `createdAt` first, collection untouched; 500 with the store's message on failure |
| `Controller.RecipeController.GetRecipeById` | backend/src/controllers/RecipeController.js:15-25 | 200 with the stored document unchanged; 404 `Recipe not found` for an unknown id; 500 with the message on failure |
| `Controller.RecipeController.SaveNew` | backend/src/controllers/RecipeController.js:40-45 | saving a new document: 400 with the validation message if invalid, 400 on a store failure or reused id, all without change; else 201, exactly one document added, newer than all others |
| `Controller.RecipeController.CreateRecipe` | backend/src/controllers/RecipeController.js:28-46 | as written, every create answers 400 with the validation message and leaves the collection unchanged |
| `Controller.RecipeController.CreateOwnedRecipe` | backend/src/controllers/RecipeController.js:28-46 | with the caller's id as `userId`: 400 with the validation message, the store's message or the duplicate-key message, in that order, and no change; else 201, exactly one new document, clock advanced |
| `Controller.RecipeController.UpdateRecipe` | backend/src/controllers/RecipeController.js:49-70 | 400 on a lookup failure, 404 on an unknown id, both unchanged; else the truthy merge is validated and saved (400 and unchanged on failure), changing only that document, keeping its `userId` and `createdAt` |
| `Controller.RecipeController.DeleteRecipe` | backend/src/controllers/RecipeController.js:73-83 | 200 `Recipe deleted successfully` and exactly that document removed; 404 and unchanged for an unknown id; 500 and unchanged on failure |
| `Controller.CreateAsWrittenRejects` | backend/src/controllers/RecipeController.js:30-38 | whatever the body, the document create builds is invalid and validation names `userId` |
| `Controller.CreateOwnedAcceptsValidContent` | backend/src/models/Recipe.js:3-12 | with an owner id set, a new document is valid exactly when its seven body fields satisfy the schema |

Every handler with a `modifies` clause also keeps the clock invariant
(`createdAt <= updatedAt <` clock for every stored document) and keeps "every
stored document satisfies the schema" when it held before.

## Findings

| source | as written | input that shows it | evidently intended | confidence | as-written member | corrected member |
|---|---|---|---|---|---|---|
| backend/src/controllers/RecipeController.js:30-38 | the new document gets only the seven body fields; `userId`, required by backend/src/models/Recipe.js:11, is never set, so `save()` always fails validation and create always answers 400 | the complete body `{title: "Pasta", ingredients: ["pasta", "sauce"], instructions: "boil then mix", author: "Ann", prepTime: 20}`, with or without a `userId` field | the new document carries the creating user's id, so a body whose fields validate is stored and answered with 201 | not executed; high (the client form posts new recipes and expects success) | `Controller.CreateAsWrittenRejects` | `Controller.RecipeController.CreateOwnedRecipe` |

`Controller.RecipeController.CreateRecipe` models the handler as written; the
scenario in `scenarios.dfy` uses `CreateOwnedRecipe` to put a document into
the collection.

## Left out

- Mongoose type casting is not modelled: a value of the wrong JSON type (a number for `title`, a string for `ingredients` or `prepTime`) fails validation here, where Mongoose would first try to cast it.
- The implicit `[]` default Mongoose gives array paths is not modelled: an absent `ingredients` or `cuisineType` stays undefined in the document. As a result the model rejects a document without `ingredients`, which Mongoose 5 or later accepts, because the `[]` default satisfies `required: true`.
- JSON objects as body field values are not modelled; `Js.JsValue` has no object case.
- Error messages are abstracted: a validation failure answers `Recipe validation failed: ` followed by the failing paths, and a store failure answers the message it is given; Mongoose's exact wording is not reproduced.
- The ObjectId format check is not modelled separately: an id the store cannot cast is the same failure parameter as a store error.
- Id generation is a parameter; a reused id answers 400 as the database's duplicate-key error would.
- Controller.RecipeController.UpdateRecipe: always advances `updatedAt`, whereas Mongoose may skip the timestamp when no path was modified.
- Controller.RecipeController.GetAllRecipes: promises only non-increasing `createdAt`; among equal timestamps the store's order is unspecified and the model's is arbitrary.
- Timestamps come from an abstract clock that ticks once per successful save, not from wall-clock time.
- The asynchronous scheduling of the handlers is not modelled; each handler is one sequential step.
- A missing `req.body` (a request without a JSON body) is not modelled; the body is always a map of fields.
- The Express application setup in `backend/src/app.js`, the route tables in `backend/src/routes/`, the authentication controller (not part of this model) and the whole browser client are out of scope: they hold wiring, middleware and rendering, no decision logic of the store.
- Authentication, ownership checks and search filtering are not modelled because neither `RecipeController.js` nor `Recipe.js` implements them.
