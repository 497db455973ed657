/** The five route handlers of routes/admin.js, routes/engineering.js,
    routes/operations.js and routes/security.js, which differ only in their
    model and their 404 text. Each handler makes one store call and turns its
    outcome into a response; here each is a function from the collection (and
    the request) to the new collection and the response. */
module Crud {
  import opened Records
  import Schemas
  import Store

  // ---------------------------------------------------------------------------
  // The branching of each handler: store outcome to response.

  /** POST `/`: `res.status(201).json(saved)`, or 400 `{ message }` from the catch. */
  function CreateReply(saved: Result<Document>): Response
  {
    match saved
    case Ok(d) => Response(201, JsonBody(JDoc(d)))
    case Err(m) => ErrorResponse(400, m)
  }

  /** GET `/`: `res.json(list)` (200), or 500 `{ message }` from the catch. */
  function ListReply(found: Result<seq<Document>>): Response
  {
    match found
    case Ok(ds) => Response(200, JsonBody(JArray(ds)))
    case Err(m) => ErrorResponse(500, m)
  }

  /** GET `/:id`: 200 with the record, 404 with the plain text, 500 from the catch. */
  function GetReply(found: Outcome<Document>, notFound: string): Response
  {
    match found
    case Found(d) => Response(200, JsonBody(JDoc(d)))
    case Null => Response(404, TextBody(notFound))
    case Threw(m) => ErrorResponse(500, m)
  }

  /** PUT `/:id`: 200 with the record, 404 with the plain text, 400 from the catch. */
  function UpdateReply(updated: Outcome<Document>, notFound: string): Response
  {
    match updated
    case Found(d) => Response(200, JsonBody(JDoc(d)))
    case Null => Response(404, TextBody(notFound))
    case Threw(m) => ErrorResponse(400, m)
  }

  /** DELETE `/:id`: 204 with no body, 404 with the plain text, 500 from the catch. */
  function DeleteReply(deleted: Outcome<Document>, notFound: string): Response
  {
    match deleted
    case Found(_) => Response(204, NoBody)
    case Null => Response(404, TextBody(notFound))
    case Threw(m) => ErrorResponse(500, m)
  }

  // ---------------------------------------------------------------------------
  // The handlers.

  /** POST `/`. A valid body that the store saves adds exactly one document, under
      a fresh id, and answers 201 with it; anything else answers 400 and stores nothing. */
  function Create(s: Schemas.Schema, c: Store.Collection, body: Fields, call: StoreCall)
    : (res: (Store.Collection, Response))
    requires Store.Valid(c)
    ensures Store.Valid(res.0) && res.0.nextId >= c.nextId
    ensures res.1.status == 201 <==> Schemas.Accepts(s, body) && call.Completes?
    ensures res.1.status == 201 ==>
      && c.nextId !in c.docs
      && res.0.docs == c.docs[c.nextId := Schemas.Strict(s, body)]
      && |res.0.docs| == |c.docs| + 1
      && res.1.body == JsonBody(JDoc(Document(c.nextId, Schemas.Strict(s, body))))
    ensures res.1.status != 201 ==> res.1.status == 400 && res.0 == c
    ensures !Schemas.Accepts(s, body) ==>
      res.1 == ErrorResponse(400, Schemas.ValidationMessage(s, Schemas.Missing(s, body)))
    ensures Schemas.Accepts(s, body) && call.Throws? ==> res.1 == ErrorResponse(400, call.message)
  {
    Schemas.StrictAccepts(s, body);
    var (saved, after) := Store.Save(s, c, body, call);
    (after, CreateReply(saved))
  }

  /** GET `/`. Answers 200 with every stored document, each exactly once (in no
      promised order), or 500 when the store throws. */
  function List(c: Store.Collection, call: StoreCall): (r: Response)
    requires Store.Valid(c)
    ensures call.Throws? ==> r == ErrorResponse(500, call.message)
    ensures call.Completes? ==>
      && r.status == 200 && r.body.JsonBody? && r.body.json.JArray?
      && Store.DistinctIds(r.body.json.docs)
      && forall d :: d in r.body.json.docs <==> d.id in c.docs && c.docs[d.id] == d.fields
  {
    ListReply(Store.Find(c, call))
  }

  /** GET `/:id`. 200 with the stored document when `id` is present, 404 with the
      resource's text when it is absent, 500 when the store throws. */
  function GetById(c: Store.Collection, id: Id, call: StoreCall, notFound: string): (r: Response)
    ensures r.status == 200 <==> call.Completes? && id in c.docs
    ensures r.status == 200 ==> r.body == JsonBody(JDoc(Document(id, c.docs[id])))
    ensures r.status == 404 <==> call.Completes? && id !in c.docs
    ensures r.status == 404 ==> r.body == TextBody(notFound)
    ensures call.Throws? ==> r == ErrorResponse(500, call.message)
  {
    GetReply(Store.FindById(c, id, call), notFound)
  }

  /** PUT `/:id`. A present id gets the body's declared fields, the others keep
      their values, the id stays, and the answer is 200 with the document as it is
      after the update; an absent id answers 404 and a throw 400, changing nothing. */
  function UpdateById(s: Schemas.Schema, c: Store.Collection, id: Id, body: Fields,
                      call: StoreCall, notFound: string)
    : (res: (Store.Collection, Response))
    requires Store.Valid(c)
    ensures Store.Valid(res.0) && res.0.nextId == c.nextId
    ensures res.0.docs.Keys == c.docs.Keys
    ensures res.1.status == 200 <==> call.Completes? && id in c.docs
    ensures res.1.status == 200 ==>
      && (forall k :: k in c.docs && k != id ==> res.0.docs[k] == c.docs[k])
      && (forall f :: f in res.0.docs[id] <==> f in c.docs[id] || f in Schemas.Strict(s, body))
      && (forall f :: f in Schemas.Strict(s, body) ==> res.0.docs[id][f] == body[f])
      && (forall f :: f in c.docs[id] && f !in Schemas.Strict(s, body) ==> res.0.docs[id][f] == c.docs[id][f])
      && res.1.body == JsonBody(JDoc(Document(id, res.0.docs[id])))
    ensures res.1.status != 200 ==> res.0 == c
    ensures res.1.status == 404 <==> call.Completes? && id !in c.docs
    ensures res.1.status == 404 ==> res.1.body == TextBody(notFound)
    ensures call.Throws? ==> res.1 == ErrorResponse(400, call.message)
  {
    var (updated, after) := Store.FindByIdAndUpdate(s, c, id, body, call);
    (after, UpdateReply(updated, notFound))
  }

  /** DELETE `/:id`. A present id is removed and the answer is 204 with no body;
      an absent id answers 404 and a throw 500, changing nothing. */
  function DeleteById(c: Store.Collection, id: Id, call: StoreCall, notFound: string)
    : (res: (Store.Collection, Response))
    requires Store.Valid(c)
    ensures Store.Valid(res.0) && res.0.nextId == c.nextId
    ensures res.1.status == 204 <==> call.Completes? && id in c.docs
    ensures res.1.status == 204 ==>
      res.0.docs == c.docs - {id} && |res.0.docs| == |c.docs| - 1 && res.1.body == NoBody
    ensures res.1.status != 204 ==> res.0 == c
    ensures res.1.status == 404 <==> call.Completes? && id !in c.docs
    ensures res.1.status == 404 ==> res.1.body == TextBody(notFound)
    ensures call.Throws? ==> res.1 == ErrorResponse(500, call.message)
  {
    var (deleted, after) := Store.FindByIdAndDelete(c, id, call);
    (after, DeleteReply(deleted, notFound))
  }

  // ---------------------------------------------------------------------------
  // Properties across handlers.

  /** Create then read back: the record is there, as it was answered, under the
      id the create answered with. */
  lemma CreateThenGet(s: Schemas.Schema, c: Store.Collection, body: Fields, notFound: string)
    requires Store.Valid(c)
    requires Create(s, c, body, Completes).1.status == 201
    ensures var (c', r) := Create(s, c, body, Completes);
      && r.body.JsonBody? && r.body.json.JDoc?
      && r.body.json.doc.fields == Schemas.Strict(s, body)
      && GetById(c', r.body.json.doc.id, Completes, notFound) == Response(200, r.body)
  {
  }

  /** A body that fails validation is answered 400 whatever the store would do,
      and the collection is left as it was. */
  lemma RejectedCreateStoresNothing(s: Schemas.Schema, c: Store.Collection, body: Fields, call: StoreCall)
    requires Store.Valid(c)
    requires !Schemas.Accepts(s, body)
    ensures Create(s, c, body, call).0 == c
    ensures Create(s, c, body, call).1.status == 400
  {
  }

  /** Update answers with the post-update record (`{ new: true }`): reading the
      id back gives exactly the answer's document. */
  lemma UpdateThenGet(s: Schemas.Schema, c: Store.Collection, id: Id, body: Fields, notFound: string)
    requires Store.Valid(c)
    requires id in c.docs
    ensures var (c', r) := UpdateById(s, c, id, body, Completes, notFound);
      r.status == 200 && GetById(c', id, Completes, notFound) == r
  {
  }

  /** Delete is final: after a successful delete, reading the id gives 404 and
      deleting it again gives 404. */
  lemma DeleteIsFinal(c: Store.Collection, id: Id, notFound: string)
    requires Store.Valid(c)
    requires DeleteById(c, id, Completes, notFound).1.status == 204
    ensures var c' := DeleteById(c, id, Completes, notFound).0;
      && GetById(c', id, Completes, notFound) == Response(404, TextBody(notFound))
      && DeleteById(c', id, Completes, notFound) == (c', Response(404, TextBody(notFound)))
  {
  }

  /** Ids are never reused: a record created after a delete gets a different id. */
  lemma DeletedIdNotReused(s: Schemas.Schema, c: Store.Collection, id: Id, body: Fields, notFound: string)
    requires Store.Valid(c)
    requires DeleteById(c, id, Completes, notFound).1.status == 204
    ensures var c' := DeleteById(c, id, Completes, notFound).0;
      var r := Create(s, c', body, Completes).1;
      r.status == 201 ==> r.body.json.doc.id != id
  {
  }

  /** Update does not enforce required paths (no `runValidators`): an update that
      empties `project` of an accepted Engineering record answers 200 and leaves a
      record that `save` would reject. */
  lemma UpdateCanClearRequiredField()
    ensures var c := Store.Collection(map[0 := map["name" := "Ada", "project" := "Reactor-Core"]], 1);
      var (c', r) := UpdateById(Schemas.EngineeringSchema, c, 0, map["project" := ""], Completes, "Project not found");
      && Schemas.Accepts(Schemas.EngineeringSchema, c.docs[0])
      && r.status == 200
      && !Schemas.Accepts(Schemas.EngineeringSchema, c'.docs[0])
  {
    var before: Fields := map["name" := "Ada", "project" := "Reactor-Core"];
    var after: Fields := map["name" := "Ada", "project" := ""];
    Schemas.EngineeringFields(before);
    Schemas.EngineeringFields(after);
    var c := Store.Collection(map[0 := before], 1);
    assert Schemas.Strict(Schemas.EngineeringSchema, map["project" := ""]) == map["project" := ""] by {
      Schemas.EngineeringFields(map[]);
    }
    assert Store.Merge(before, map["project" := ""]) == after;
  }

  // ---------------------------------------------------------------------------
  // The status codes in the `@swagger` comments.

  datatype Handler = CreateHandler | ListHandler | GetHandler | UpdateHandler | DeleteHandler

  /** The `responses:` each handler's doc comment lists. */
  function Documented(h: Handler): set<nat>
  {
    match h
    case CreateHandler => {201, 400}
    case ListHandler => {200}
    case GetHandler => {200, 404}
    case UpdateHandler => {200, 400, 404}
    case DeleteHandler => {204, 404}
  }

  /** Every status a handler sends is one its comment documents, except the 500
      of the list, read and delete catch blocks, which the comments leave out;
      and that 500 is sent exactly when the store throws. */
  lemma StatusesDocumented(s: Schemas.Schema, c: Store.Collection, id: Id, body: Fields,
                           call: StoreCall, notFound: string)
    requires Store.Valid(c)
    ensures Create(s, c, body, call).1.status in Documented(CreateHandler)
    ensures UpdateById(s, c, id, body, call, notFound).1.status in Documented(UpdateHandler)
    ensures var st := List(c, call).status;
      (st in Documented(ListHandler) || st == 500) && (st == 500 <==> call.Throws?)
    ensures var st := GetById(c, id, call, notFound).status;
      (st in Documented(GetHandler) || st == 500) && (st == 500 <==> call.Throws?)
    ensures var st := DeleteById(c, id, call, notFound).1.status;
      (st in Documented(DeleteHandler) || st == 500) && (st == 500 <==> call.Throws?)
  {
  }
}
