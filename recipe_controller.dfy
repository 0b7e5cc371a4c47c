/** The recipe request handlers: list, get, create, update and delete over
    the recipe collection, each deciding a status and a response body. */
module Controller {
  import opened Js
  import opened RecipeModel

  /** A stored document together with its id, as it is sent back. */
  datatype Document = Document(id: Id, recipe: Recipe)

  /** What a handler sends: a document, a list of documents, or `{ message }`. */
  datatype Payload =
    | One(doc: Document)
    | Many(docs: seq<Document>)
    | Message(text: string)

  datatype Response = Response(status: nat, body: Payload)

  const NotFoundMessage := "Recipe not found"
  const DeletedMessage := "Recipe deleted successfully"
  /** The error the store raises when a new document reuses an existing id. */
  const DuplicateKeyMessage := "E11000 duplicate key error"

  // ---------------------------------------------------------------------
  // Building and merging documents from a request body

  /** The seven fields `createRecipe` and `updateRecipe` take from the body. */
  const BodyFields: set<string> :=
    {"title", "ingredients", "instructions", "author", "cuisineType", "prepTime", "coverImage"}

  /** The value of the document field named `f`. */
  function Get(c: Content, f: string): JsValue {
    if f == "title" then c.title
    else if f == "ingredients" then c.ingredients
    else if f == "instructions" then c.instructions
    else if f == "author" then c.author
    else if f == "cuisineType" then c.cuisineType
    else if f == "prepTime" then c.prepTime
    else if f == "coverImage" then c.coverImage
    else Undefined
  }

  /** Destructuring the seven fields out of `req.body`: each document field
      holds the body field of the same name; every other field of the body is
      dropped. */
  function Extract(body: Body): (c: Content)
    ensures forall f :: f in BodyFields ==> Get(c, f) == Field(body, f)
  {
    Content(
      Field(body, "title"),
      Field(body, "ingredients"),
      Field(body, "instructions"),
      Field(body, "author"),
      Field(body, "cuisineType"),
      Field(body, "prepTime"),
      Field(body, "coverImage"))
  }

  /** `recipe.f = f || recipe.f` for each of the seven fields: each field
      named in the body takes the body's value when that is truthy and keeps
      the stored value otherwise. */
  function Merge(stored: Content, body: Body): (m: Content)
    ensures forall f :: f in BodyFields ==>
      Get(m, f) == (if Truthy(Field(body, f)) then Field(body, f) else Get(stored, f))
  {
    var c := Extract(body);
    Content(
      Or(c.title, stored.title),
      Or(c.ingredients, stored.ingredients),
      Or(c.instructions, stored.instructions),
      Or(c.author, stored.author),
      Or(c.cuisineType, stored.cuisineType),
      Or(c.prepTime, stored.prepTime),
      Or(c.coverImage, stored.coverImage))
  }

  /** Fields outside the seven never reach the document. */
  lemma ExtractIgnoresOtherFields(body: Body, name: string, v: JsValue)
    requires name !in BodyFields
    ensures Extract(body[name := v]) == Extract(body)
    ensures forall stored :: Merge(stored, body[name := v]) == Merge(stored, body)
  {
  }

  /** A field the body leaves out reads as undefined in the new document. */
  lemma ExtractAbsentIsUndefined(body: Body)
    requires "coverImage" !in body && "cuisineType" !in body
    ensures Extract(body).coverImage == Undefined && Extract(body).cuisineType == Undefined
  {
  }

  /** `""`, `0`, `false`, `null` and an absent field never clear a field: a
      truthy stored value stays truthy after any merge. */
  lemma MergeNeverClears(stored: Content, body: Body)
    ensures var m := Merge(stored, body);
      && (Truthy(stored.title) ==> Truthy(m.title))
      && (Truthy(stored.ingredients) ==> Truthy(m.ingredients))
      && (Truthy(stored.instructions) ==> Truthy(m.instructions))
      && (Truthy(stored.author) ==> Truthy(m.author))
      && (Truthy(stored.cuisineType) ==> Truthy(m.cuisineType))
      && (Truthy(stored.prepTime) ==> Truthy(m.prepTime))
      && (Truthy(stored.coverImage) ==> Truthy(m.coverImage))
  {
  }

  /** An empty array is truthy, so it does overwrite the stored list. */
  lemma MergeEmptyArrayOverwrites(stored: Content, body: Body)
    requires Field(body, "ingredients") == Arr([])
    ensures Merge(stored, body).ingredients == Arr([])
  {
  }

  /** Applying the same body twice gives the same fields as applying it once. */
  lemma MergeIdempotent(stored: Content, body: Body)
    ensures Merge(Merge(stored, body), body) == Merge(stored, body)
  {
  }

  /** A body whose truthy fields have the schema's types (falsy ones are
      ignored by the merge). */
  predicate WellTypedPatch(body: Body) {
    var c := Extract(body);
    && (Truthy(c.title) ==> c.title.Str?)
    && (Truthy(c.ingredients) ==> StringArray(c.ingredients))
    && (Truthy(c.instructions) ==> c.instructions.Str?)
    && (Truthy(c.author) ==> c.author.Str?)
    && (Truthy(c.cuisineType) ==> StringArray(c.cuisineType))
    && (Truthy(c.prepTime) ==> c.prepTime.Num?)
    && (Truthy(c.coverImage) ==> c.coverImage.Str?)
  }

  /** Merging a well-typed body into valid content gives valid content. */
  lemma MergePreservesValidity(stored: Content, body: Body)
    requires ValidContent(stored) && WellTypedPatch(body)
    ensures ValidContent(Merge(stored, body))
  {
  }

  /** A partial update: a stored `{title: "A", prepTime: 10, ...}` updated
      with the body `{prepTime: 20}` keeps the title and every other field
      and takes the new time. */
  lemma PartialUpdateKeepsUntouched(stored: Content)
    requires stored.title == Str("A") && stored.prepTime == Num(10.0)
    ensures Merge(stored, map["prepTime" := Num(20.0)]) == stored.(prepTime := Num(20.0))
  {
  }

  /** A zero preparation time in the body does not zero the stored one. */
  lemma ZeroPrepTimeKeepsStored(stored: Content)
    ensures Merge(stored, map["prepTime" := Num(0.0)]) == stored
  {
  }

  // ---------------------------------------------------------------------
  // Newest-first ordering, as the store's sort on createdAt descending

  /** Pairwise non-increasing `createdAt`. */
  predicate NewestFirst(docs: seq<Document>) {
    forall i, j :: 0 <= i < j < |docs| ==> docs[i].recipe.createdAt >= docs[j].recipe.createdAt
  }

  /** `docs` lists every document of `records` exactly once (as many entries
      as ids, each a stored document, every stored document present). */
  predicate Enumerates(docs: seq<Document>, records: map<Id, Recipe>) {
    && |docs| == |records|
    && (forall i :: 0 <= i < |docs| ==> docs[i].id in records && docs[i].recipe == records[docs[i].id])
    && (forall id :: id in records ==> Document(id, records[id]) in docs)
  }

  /** A document at least as new as every document of a newest-first list
      may go in front of it. */
  lemma PrependNewest(h: Document, rest: seq<Document>)
    requires NewestFirst(rest)
    requires forall x :: x in rest ==> h.recipe.createdAt >= x.recipe.createdAt
    ensures NewestFirst([h] + rest)
  {
  }

  /** Places `d` into a newest-first list, keeping it newest-first and
      adding `d` and nothing else. */
  function InsertNewest(d: Document, docs: seq<Document>): (r: seq<Document>)
    requires NewestFirst(docs)
    ensures NewestFirst(r)
    ensures |r| == |docs| + 1
    ensures multiset(r) == multiset(docs) + multiset{d}
  {
    if docs == [] || d.recipe.createdAt >= docs[0].recipe.createdAt then
      assert forall x :: x in docs ==> d.recipe.createdAt >= x.recipe.createdAt by {
        forall x | x in docs ensures d.recipe.createdAt >= x.recipe.createdAt {
          var k :| 0 <= k < |docs| && docs[k] == x;
          assert docs[0].recipe.createdAt >= docs[k].recipe.createdAt;
        }
      }
      PrependNewest(d, docs);
      [d] + docs
    else
      var tail := docs[1..];
      assert NewestFirst(tail);
      var rest := InsertNewest(d, tail);
      assert docs == [docs[0]] + tail;
      assert forall x :: x in rest ==> docs[0].recipe.createdAt >= x.recipe.createdAt by {
        forall x | x in rest ensures docs[0].recipe.createdAt >= x.recipe.createdAt {
          assert x in multiset(rest);
          if x != d {
            assert x in tail;
            var k :| 0 <= k < |tail| && tail[k] == x;
            assert docs[k + 1] == x;
          }
        }
      }
      PrependNewest(docs[0], rest);
      [docs[0]] + rest
  }

  /** The members of an insertion: the inserted document and the old ones. */
  lemma InsertNewestMembers(d: Document, docs: seq<Document>)
    requires NewestFirst(docs)
    ensures forall x :: x in InsertNewest(d, docs) <==> x == d || x in docs
  {
  }

  /** Moving one id from the pending set to the processed ones adds one. */
  lemma ProcessedGrows(ids: set<Id>, left: set<Id>, id: Id)
    requires left <= ids && id in left
    ensures |ids - (left - {id})| == |ids - left| + 1
  {
  }

  // ---------------------------------------------------------------------
  // The collection and its handlers

  /** The recipe collection as the handlers see it, together with the
      store's clock for the timestamps. */
  class RecipeController {
    var records: map<Id, Recipe>
    var clock: nat

    /** Every stored document was created no later than its last update,
        and both lie in the clock's past. */
    ghost predicate Valid()
      reads this
    {
      forall id :: id in records ==> records[id].createdAt <= records[id].updatedAt < clock
    }

    /** All stored documents satisfy the schema. */
    ghost predicate AllSchemaValid()
      reads this
    {
      forall id :: id in records ==> RecipeModel.Valid(records[id])
    }

    /** The collection as found in the database, with the clock past every
        timestamp it holds. */
    constructor (initial: map<Id, Recipe>, start: nat)
      requires forall id :: id in initial ==> initial[id].createdAt <= initial[id].updatedAt < start
      ensures Valid()
      ensures records == initial && clock == start
    {
      records := initial;
      clock := start;
    }

    /** `getAllRecipes`: every stored document, newest `createdAt` first; a
        store failure answers 500 with its message. */
    method GetAllRecipes(fault: Option<string>) returns (resp: Response)
      ensures fault.Some? ==> resp == Response(500, Message(fault.value))
      ensures fault.None? ==> resp.status == 200 && resp.body.Many?
      ensures fault.None? ==> Enumerates(resp.body.docs, records) && NewestFirst(resp.body.docs)
    {
      if fault.Some? {
        return Response(500, Message(fault.value));
      }
      var m := records;
      var docs: seq<Document> := [];
      var left := m.Keys;
      while left != {}
        invariant left <= m.Keys
        invariant NewestFirst(docs)
        invariant |docs| == |m.Keys - left|
        invariant forall i :: 0 <= i < |docs| ==>
          docs[i].id in m && docs[i].id !in left && docs[i].recipe == m[docs[i].id]
        invariant forall id :: id in m && id !in left ==> Document(id, m[id]) in docs
        decreases left
      {
        var id :| id in left;
        var d := Document(id, m[id]);
        var next := InsertNewest(d, docs);
        InsertNewestMembers(d, docs);
        forall i | 0 <= i < |next|
          ensures next[i].id in m && next[i].id !in left - {id} && next[i].recipe == m[next[i].id]
        {
          assert next[i] in next;
          if next[i] != d {
            var k :| 0 <= k < |docs| && docs[k] == next[i];
          }
        }
        ProcessedGrows(m.Keys, left, id);
        docs, left := next, left - {id};
      }
      assert m.Keys - left == m.Keys;
      resp := Response(200, Many(docs));
    }

    /** `getRecipeById`: the stored document unchanged, 404 when no document
        has the id, 500 when the store (or the id cast) fails. */
    method GetRecipeById(id: Id, fault: Option<string>) returns (resp: Response)
      ensures fault.Some? ==> resp == Response(500, Message(fault.value))
      ensures fault.None? && id !in records ==> resp == Response(404, Message(NotFoundMessage))
      ensures fault.None? && id in records ==> resp == Response(200, One(Document(id, records[id])))
    {
      if fault.Some? {
        resp := Response(500, Message(fault.value));
      } else if id !in records {
        resp := Response(404, Message(NotFoundMessage));
      } else {
        resp := Response(200, One(Document(id, records[id])));
      }
    }

    /** `newRecipe.save()` on a new document: validation first (400 with the
        validation message), then the write, which fails with the store's
        message or on a reused id (400 too); on success the document is
        stamped with the clock, stored under `newId`, and answered with 201. */
    method SaveNew(content: Content, userId: Option<Id>, newId: Id, fault: Option<string>)
      returns (resp: Response)
      requires Valid()
      modifies this
      ensures Valid()
      ensures old(AllSchemaValid()) ==> AllSchemaValid()
      ensures var doc := Recipe(content, userId, old(clock), old(clock));
        if !RecipeModel.Valid(doc) then
          resp == Response(400, Message(ValidationMessage(doc))) && unchanged(this)
        else if fault.Some? then
          resp == Response(400, Message(fault.value)) && unchanged(this)
        else if newId in old(records) then
          resp == Response(400, Message(DuplicateKeyMessage)) && unchanged(this)
        else
          && resp == Response(201, One(Document(newId, doc)))
          && records == old(records)[newId := doc]
          && clock == old(clock) + 1
          && forall id :: id in old(records) ==> old(records)[id].createdAt < doc.createdAt
    {
      var doc := Recipe(content, userId, clock, clock);
      if !RecipeModel.Valid(doc) {
        resp := Response(400, Message(ValidationMessage(doc)));
      } else if fault.Some? {
        resp := Response(400, Message(fault.value));
      } else if newId in records {
        resp := Response(400, Message(DuplicateKeyMessage));
      } else {
        records := records[newId := doc];
        clock := clock + 1;
        resp := Response(201, One(Document(newId, doc)));
      }
    }

    /** `createRecipe` as written: the document gets exactly the seven body
        fields and no `userId`, so validation rejects it (400) and the
        collection never changes. */
    method CreateRecipe(body: Body, newId: Id, fault: Option<string>) returns (resp: Response)
      requires Valid()
      modifies this
      ensures Valid()
      ensures var doc := Recipe(Extract(body), None, old(clock), old(clock));
        resp == Response(400, Message(ValidationMessage(doc)))
      ensures unchanged(this)
    {
      resp := SaveNew(Extract(body), None, newId, fault);
    }

    /** `createRecipe` with the owner stamped from the caller's id: 201 and
        exactly one new document when the body's seven fields validate, 400
        and no change otherwise. */
    method CreateOwnedRecipe(body: Body, owner: Id, newId: Id, fault: Option<string>)
      returns (resp: Response)
      requires Valid()
      modifies this
      ensures Valid()
      ensures old(AllSchemaValid()) ==> AllSchemaValid()
      ensures var doc := Recipe(Extract(body), Some(owner), old(clock), old(clock));
        if !ValidContent(Extract(body)) then
          resp == Response(400, Message(ValidationMessage(doc))) && unchanged(this)
        else if fault.Some? then
          resp == Response(400, Message(fault.value)) && unchanged(this)
        else if newId in old(records) then
          resp == Response(400, Message(DuplicateKeyMessage)) && unchanged(this)
        else
          && resp == Response(201, One(Document(newId, doc)))
          && records == old(records)[newId := doc]
          && |records| == |old(records)| + 1
          && clock == old(clock) + 1
    {
      resp := SaveNew(Extract(body), Some(owner), newId, fault);
    }

    /** `updateRecipe`: a failed lookup answers 400 (the handler's single
        catch), a missing id 404; otherwise each of the seven fields is
        merged by truthiness and the document is saved, keeping its
        `userId` and `createdAt`, under the same validation and failure rules
        as a new one (all 400). Other documents never change. */
    method UpdateRecipe(id: Id, body: Body, lookupFault: Option<string>, saveFault: Option<string>)
      returns (resp: Response)
      requires Valid()
      modifies this
      ensures Valid()
      ensures old(AllSchemaValid()) ==> AllSchemaValid()
      ensures lookupFault.Some? ==> resp == Response(400, Message(lookupFault.value)) && unchanged(this)
      ensures lookupFault.None? && id !in old(records) ==>
        resp == Response(404, Message(NotFoundMessage)) && unchanged(this)
      ensures lookupFault.None? && id in old(records) ==>
        var stored := old(records)[id];
        var merged := stored.(content := Merge(stored.content, body));
        if !RecipeModel.Valid(merged) then
          resp == Response(400, Message(ValidationMessage(merged))) && unchanged(this)
        else if saveFault.Some? then
          resp == Response(400, Message(saveFault.value)) && unchanged(this)
        else
          var saved := merged.(updatedAt := old(clock));
          && resp == Response(200, One(Document(id, saved)))
          && records == old(records)[id := saved]
          && saved.userId == stored.userId && saved.createdAt == stored.createdAt
          && clock == old(clock) + 1
    {
      if lookupFault.Some? {
        return Response(400, Message(lookupFault.value));
      }
      if id !in records {
        return Response(404, Message(NotFoundMessage));
      }
      var stored := records[id];
      var merged := stored.(content := Merge(stored.content, body));
      if !RecipeModel.Valid(merged) {
        resp := Response(400, Message(ValidationMessage(merged)));
      } else if saveFault.Some? {
        resp := Response(400, Message(saveFault.value));
      } else {
        var saved := merged.(updatedAt := clock);
        records := records[id := saved];
        clock := clock + 1;
        resp := Response(200, One(Document(id, saved)));
      }
    }

    /** `deleteRecipe`: removes exactly the document with the id and answers
        with a confirmation, not the document; 404 and no change when there
        is none; 500 and no change when the store fails. */
    method DeleteRecipe(id: Id, fault: Option<string>) returns (resp: Response)
      requires Valid()
      modifies this
      ensures Valid()
      ensures old(AllSchemaValid()) ==> AllSchemaValid()
      ensures fault.Some? ==> resp == Response(500, Message(fault.value)) && unchanged(this)
      ensures fault.None? && id !in old(records) ==>
        resp == Response(404, Message(NotFoundMessage)) && unchanged(this)
      ensures fault.None? && id in old(records) ==>
        && resp == Response(200, Message(DeletedMessage))
        && records == old(records) - {id}
        && clock == old(clock)
    {
      if fault.Some? {
        resp := Response(500, Message(fault.value));
      } else if id !in records {
        resp := Response(404, Message(NotFoundMessage));
      } else {
        records := records - {id};
        resp := Response(200, Message(DeletedMessage));
      }
    }
  }

  /** A document built by the as-written create never validates, and the
      failing path named is `userId`. */
  lemma CreateAsWrittenRejects(body: Body, t: nat)
    ensures !RecipeModel.Valid(Recipe(Extract(body), None, t, t))
    ensures "userId" in ViolatedPaths(Recipe(Extract(body), None, t, t))
  {
  }

  /** With an owner stamped, a document validates exactly when the seven
      body fields satisfy the schema. */
  lemma CreateOwnedAcceptsValidContent(body: Body, owner: Id, t: nat)
    ensures RecipeModel.Valid(Recipe(Extract(body), Some(owner), t, t)) <==> ValidContent(Extract(body))
  {
  }
}
