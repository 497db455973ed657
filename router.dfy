/** One `express.Router()` of routes/*.js as an object: the collection its model
    stands for is its state, and POST, PUT and DELETE change it in place. Each
    member makes the route's one store call on that state, answers through the
    outcome-to-response branch of `Crud`, and is proved to agree with the
    handler in `Crud`. */
module Routers {
  import opened Records
  import Schemas
  import Store
  import Crud

  class ResourceRouter {
    /** The model's schema (models/*.js) and the text of its 404 answers. */
    const schema: Schemas.Schema
    const notFound: string

    /** The collection of the one model this router imports. */
    var docs: map<Id, Fields>
    var nextId: Id

    function State(): Store.Collection
      reads this
    {
      Store.Collection(docs, nextId)
    }

    ghost predicate Valid()
      reads this
    {
      Store.Valid(State())
    }

    constructor (schema: Schemas.Schema, notFound: string)
      ensures this.schema == schema && this.notFound == notFound
      ensures Valid() && State() == Store.Empty
    {
      this.schema := schema;
      this.notFound := notFound;
      docs := map[];
      nextId := 0;
    }

    /** POST `/`. */
    method Post(body: Fields, call: StoreCall) returns (r: Response)
      requires Valid()
      modifies this
      ensures Valid()
      ensures (State(), r) == Crud.Create(schema, old(State()), body, call)
    {
      var (saved, after) := Store.Save(schema, State(), body, call);
      docs, nextId := after.docs, after.nextId;
      r := Crud.CreateReply(saved);
    }

    /** GET `/`. */
    function List(call: StoreCall): (r: Response)
      reads this
      requires Valid()
      ensures r == Crud.List(State(), call)
    {
      Crud.ListReply(Store.Find(State(), call))
    }

    /** GET `/:id`. */
    function Get(id: Id, call: StoreCall): (r: Response)
      reads this
      ensures r == Crud.GetById(State(), id, call, notFound)
    {
      Crud.GetReply(Store.FindById(State(), id, call), notFound)
    }

    /** PUT `/:id`. */
    method Put(id: Id, body: Fields, call: StoreCall) returns (r: Response)
      requires Valid()
      modifies this
      ensures Valid()
      ensures (State(), r) == Crud.UpdateById(schema, old(State()), id, body, call, notFound)
    {
      var (updated, after) := Store.FindByIdAndUpdate(schema, State(), id, body, call);
      docs, nextId := after.docs, after.nextId;
      r := Crud.UpdateReply(updated, notFound);
    }

    /** DELETE `/:id`. */
    method Delete(id: Id, call: StoreCall) returns (r: Response)
      requires Valid()
      modifies this
      ensures Valid()
      ensures (State(), r) == Crud.DeleteById(old(State()), id, call, notFound)
    {
      var (deleted, after) := Store.FindByIdAndDelete(State(), id, call);
      docs, nextId := after.docs, after.nextId;
      r := Crud.DeleteReply(deleted, notFound);
    }
  }

  /** The engineering walk-through: create Ada on Reactor-Core, read her back,
      move her to Turbine, delete her, and read again, against a fresh router. */
  method EngineeringScenario() returns (statuses: seq<nat>, updated: Fields)
    ensures statuses == [201, 200, 200, 204, 404]
    ensures updated == map["name" := "Ada", "project" := "Turbine"]
  {
    var router := new ResourceRouter(Schemas.EngineeringSchema, "Project not found");
    var body: Fields := map["name" := "Ada", "project" := "Reactor-Core"];
    Schemas.EngineeringFields(body);
    assert Schemas.Strict(Schemas.EngineeringSchema, body) == body;
    var created := router.Post(body, Completes);
    var id := created.body.json.doc.id;
    var got := router.Get(id, Completes);
    assert got.body == created.body;
    var change: Fields := map["project" := "Turbine"];
    Schemas.EngineeringFields(change);
    assert Schemas.Strict(Schemas.EngineeringSchema, change) == change;
    var put := router.Put(id, change, Completes);
    updated := put.body.json.doc.fields;
    assert updated == Store.Merge(body, change);
    var deleted := router.Delete(id, Completes);
    var gone := router.Get(id, Completes);
    statuses := [created.status, got.status, put.status, deleted.status, gone.status];
  }
}
