/** A client of the handlers: what a sequence of requests does, derived from
    the handlers' contracts alone. */
module Scenarios {
  import opened Js
  import opened RecipeModel
  import opened Controller

  /** A complete recipe body, with an extra `userId` field that the
      handlers ignore. */
  function PastaBody(): Body {
    map[
      "title" := Str("Pasta"),
      "ingredients" := Arr([Str("pasta"), Str("sauce")]),
      "instructions" := Str("boil then mix"),
      "author" := Str("Ann"),
      "prepTime" := Num(20.0),
      "userId" := Num(1.0)]
  }

  /** The document content `PastaBody` yields. */
  const Pasta := Content(
    Str("Pasta"), Arr([Str("pasta"), Str("sauce")]), Str("boil then mix"), Str("Ann"),
    Undefined, Num(20.0), Undefined)

  lemma PastaBodyFields()
    ensures Extract(PastaBody()) == Pasta && ValidContent(Pasta)
  {
  }

  method CreateAsWrittenStoresNothing() {
    var store := new RecipeController(map[], 1);
    // Even a body that names a userId does not get one into the document.
    var r := store.CreateRecipe(PastaBody(), 7, None);
    assert r.status == 400 && store.records == map[];
  }

  method CreateGetUpdateDelete() {
    var store := new RecipeController(map[], 1);
    PastaBodyFields();
    var r := store.CreateOwnedRecipe(PastaBody(), 1, 7, None);
    assert r.status == 201 && 7 in store.records;

    r := store.GetRecipeById(7, None);
    assert r.status == 200 && r.body.doc.recipe.content == Pasta;

    // An empty title is falsy and leaves the stored one; a new time replaces it.
    var patch: Body := map["prepTime" := Num(25.0), "title" := Str("")];
    assert Merge(Pasta, patch) == Pasta.(prepTime := Num(25.0)) by {
      assert Extract(patch) == Content(Str(""), Undefined, Undefined, Undefined, Undefined, Num(25.0), Undefined);
    }
    r := store.UpdateRecipe(7, patch, None, None);
    assert r.status == 200;
    assert store.records[7].content == Pasta.(prepTime := Num(25.0));
    assert store.records[7].userId == Some(1);

    r := store.DeleteRecipe(7, None);
    assert r == Response(200, Message(DeletedMessage));
    r := store.GetRecipeById(7, None);
    assert r == Response(404, Message(NotFoundMessage));
    r := store.DeleteRecipe(7, None);
    assert r.status == 404;
  }

  method ListNewestFirst() {
    var older := Recipe(Content(Str("A"), Arr([]), Str("i"), Str("a"), Undefined, Num(1.0), Undefined), Some(1), 1, 1);
    var newer := older.(createdAt := 2, updatedAt := 2);
    var store := new RecipeController(map[3 := older, 4 := newer], 5);
    var r := store.GetAllRecipes(None);
    var docs := r.body.docs;
    assert 3 in store.records && 4 in store.records;
    assert |docs| == 2;
    assert Document(3, older) in docs && Document(4, newer) in docs;
    assert docs[0].recipe.createdAt >= docs[1].recipe.createdAt;
    assert docs[0] == Document(4, newer) && docs[1] == Document(3, older);
  }
}
