/** The Express application of index.js, as far as routing goes: each resource
    path is bound to its own router over its own collection, and only the
    documentation path is behind the API-key gate. */
module App {
  import opened Records
  import Schemas
  import Store
  import Crud
  import Gate

  /** The four routers of the model and the collection each one owns. */
  datatype Resource = AdminResource | EngineeringResource | OperationsResource | SecurityResource

  /** The schema of the one model each route file imports. */
  function SchemaOf(r: Resource): Schemas.Schema
  {
    match r
    case AdminResource => Schemas.AdminSchema
    case EngineeringResource => Schemas.EngineeringSchema
    case OperationsResource => Schemas.OperationsSchema
    case SecurityResource => Schemas.SecuritySchema
  }

  /** The plain-text body of each route file's 404 answers: security and
      operations share theirs, the other two have their own. */
  function NotFoundText(r: Resource): (t: string)
    ensures t == "Staff not found" <==> r == OperationsResource || r == SecurityResource
    ensures |t| > 10 && t[|t| - 10..] == " not found"
  {
    match r
    case AdminResource => "Admin not found"
    case EngineeringResource => "Project not found"
    case OperationsResource => "Staff not found"
    case SecurityResource => "Staff not found"
  }

  const DocsPath: string := "/api-docs"
  const RndPath: string := "/api/rnd"

  /** `app.use(path, router)` for the four modelled routers. */
  function Mounted(path: string): Option<Resource>
  {
    if path == "/api/admin" then Some(AdminResource)
    else if path == "/api/engineering" then Some(EngineeringResource)
    else if path == "/api/operations" then Some(OperationsResource)
    else if path == "/api/security" then Some(SecurityResource)
    else None
  }

  /** What a router is asked to do: `POST /`, `GET /`, `GET /:id`, `PUT /:id`, `DELETE /:id`. */
  datatype Operation =
    | PostOp(body: Fields)
    | ListOp
    | GetOp(id: Id)
    | PutOp(id: Id, body: Fields)
    | DeleteOp(id: Id)

  /** A request: the mount path it falls under, what it asks of that router, its headers. */
  datatype Request = Request(mount: string, op: Operation, headers: Gate.Headers)

  /** How the application disposes of a request: a router's or the gate's answer,
      the documentation UI, the r&d router (not part of this model), or nobody
      (Express's own 404). */
  datatype Reply = Respond(response: Response) | ServeDocs | RndRouter | NoRoute

  /** One collection per resource. */
  type Db = map<Resource, Store.Collection>

  predicate DbValid(db: Db)
  {
    forall r: Resource :: r in db && Store.Valid(db[r])
  }

  /** The router of resource `r` serving `op`: the handler `op` selects. */
  function Route(r: Resource, c: Store.Collection, op: Operation, call: StoreCall)
    : (res: (Store.Collection, Response))
    requires Store.Valid(c)
    ensures Store.Valid(res.0) && res.0.nextId >= c.nextId
    ensures op.ListOp? || op.GetOp? ==> res.0 == c
  {
    match op
    case PostOp(body) => Crud.Create(SchemaOf(r), c, body, call)
    case ListOp => (c, Crud.List(c, call))
    case GetOp(id) => (c, Crud.GetById(c, id, call, NotFoundText(r)))
    case PutOp(id, body) => Crud.UpdateById(SchemaOf(r), c, id, body, call, NotFoundText(r))
    case DeleteOp(id) => Crud.DeleteById(c, id, call, NotFoundText(r))
  }

  /** The application handling one request, as one atomic step; `apiKey` is
      `process.env.API_KEY` and `call` the outcome of the router's store call. */
  function Handle(db: Db, apiKey: Option<string>, req: Request, call: StoreCall): (res: (Db, Reply))
    requires DbValid(db)
    ensures DbValid(res.0)
    ensures req.mount == DocsPath ==>
      && res.0 == db
      && (res.1 == ServeDocs <==> Gate.ApiKeyMiddleware(req.headers, apiKey).Next?)
      && (res.1 != ServeDocs ==> res.1 == Respond(Gate.Unauthorized))
    ensures Mounted(req.mount).Some? ==>
      var r := Mounted(req.mount).value;
      var (c', resp) := Route(r, db[r], req.op, call);
      res == (db[r := c'], Respond(resp))
    ensures Mounted(req.mount).None? && req.mount != DocsPath ==> res.0 == db && res.1 != ServeDocs
  {
    if req.mount == DocsPath then
      match Gate.ApiKeyMiddleware(req.headers, apiKey)
      case Next => (db, ServeDocs)
      case Reject(resp) => (db, Respond(resp))
    else match Mounted(req.mount)
      case Some(r) =>
        var (c', resp) := Route(r, db[r], req.op, call);
        (db[r := c'], Respond(resp))
      case None => (db, if req.mount == RndPath then RndRouter else NoRoute)
  }

  /** No two paths share a router, and neither the gate's path nor the r&d path
      is bound to one of the four. */
  lemma MountTable()
    ensures Mounted(DocsPath).None? && Mounted(RndPath).None?
    ensures forall p, q :: Mounted(p).Some? && Mounted(p) == Mounted(q) ==> p == q
  {
  }

  /** A request changes at most the collection of the router its path is bound
      to: every other collection is left exactly as it was. */
  lemma Isolation(db: Db, apiKey: Option<string>, req: Request, call: StoreCall, other: Resource)
    requires DbValid(db)
    requires Mounted(req.mount) != Some(other)
    ensures Handle(db, apiKey, req, call).0[other] == db[other]
  {
  }

  /** The gate guards only the documentation path: a resource request is handled
      the same whatever its headers and whatever key is configured. */
  lemma ResourceRoutesIgnoreKey(db: Db, k1: Option<string>, k2: Option<string>, req: Request,
                                headers: Gate.Headers, call: StoreCall)
    requires DbValid(db)
    requires Mounted(req.mount).Some?
    ensures Handle(db, k1, req, call) == Handle(db, k2, req.(headers := headers), call)
  {
  }

  /** A record created under `/api/security` never shows up in `/api/engineering`'s
      list: that list is the same before and after the create. */
  lemma CreateInSecurityInvisibleToEngineering(db: Db, apiKey: Option<string>, body: Fields,
                                               headers: Gate.Headers, call: StoreCall)
    requires DbValid(db)
    ensures var db' := Handle(db, apiKey, Request("/api/security", PostOp(body), headers), call).0;
      Crud.List(db'[EngineeringResource], Completes) == Crud.List(db[EngineeringResource], Completes)
  {
    Isolation(db, apiKey, Request("/api/security", PostOp(body), headers), call, EngineeringResource);
  }

  /** The required field each model declares beside `name`. */
  function SecondField(r: Resource): string
  {
    match r
    case AdminResource => "role"
    case EngineeringResource => "project"
    case OperationsResource => "shift"
    case SecurityResource => "clearanceLevel"
  }

  /** For every resource, a create whose body lacks `name` or the model's second
      field (or holds '' there) answers 400 and stores nothing, whatever the store
      would do; one carrying both that the store saves answers 201. */
  lemma CreateNeedsBothFields(r: Resource, c: Store.Collection, body: Fields, call: StoreCall)
    requires Store.Valid(c)
    ensures var (c', resp) := Route(r, c, PostOp(body), call);
      && (!Schemas.Present(body, "name") || !Schemas.Present(body, SecondField(r)) ==>
            c' == c && resp.status == 400)
      && (Schemas.Present(body, "name") && Schemas.Present(body, SecondField(r)) && call.Completes? ==>
            resp.status == 201)
  {
    match r
    case AdminResource => Schemas.AdminFields(body);
    case EngineeringResource => Schemas.EngineeringFields(body);
    case OperationsResource => Schemas.OperationsFields(body);
    case SecurityResource => Schemas.SecurityFields(body);
  }

  // ---------------------------------------------------------------------------
  // Runs of several requests against one router.

  /** One request to a router: what it asks and how its store call goes. */
  datatype Step = Step(op: Operation, call: StoreCall)

  /** The router of `r` serving `steps` one after the other: the final collection
      and the answer to each step. */
  function Run(r: Resource, c: Store.Collection, steps: seq<Step>): (res: (Store.Collection, seq<Response>))
    requires Store.Valid(c)
    ensures Store.Valid(res.0) && res.0.nextId >= c.nextId && |res.1| == |steps|
    decreases |steps|
  {
    if steps == [] then (c, [])
    else
      var (c1, first) := Route(r, c, steps[0].op, steps[0].call);
      var (cn, rest) := Run(r, c1, steps[1..]);
      (cn, [first] + rest)
  }

  /** The answer carries a document with this id, alone or in a list. */
  predicate Shows(resp: Response, id: Id)
  {
    && resp.body.JsonBody?
    && match resp.body.json
       case JDoc(d) => d.id == id
       case JArray(ds) => exists d :: d in ds && d.id == id
       case JMessage(_) => false
  }

  /** An id that was handed out and is no longer stored is retired: one more
      request neither stores it again nor shows it in its answer. */
  lemma RetiredStaysRetired(r: Resource, c: Store.Collection, id: Id, step: Step)
    requires Store.Valid(c) && id !in c.docs && id < c.nextId
    ensures var (c', resp) := Route(r, c, step.op, step.call);
      id !in c'.docs && id < c'.nextId && !Shows(resp, id)
  {
  }

  /** Retired ids stay retired over any number of requests. */
  lemma {:induction false} RunKeepsRetired(r: Resource, c: Store.Collection, id: Id, steps: seq<Step>)
    requires Store.Valid(c) && id !in c.docs && id < c.nextId
    ensures var (c', resps) := Run(r, c, steps);
      && id !in c'.docs && id < c'.nextId
      && forall i :: 0 <= i < |resps| ==> !Shows(resps[i], id)
    decreases |steps|
  {
    if steps != [] {
      RetiredStaysRetired(r, c, id, steps[0]);
      var (c1, first) := Route(r, c, steps[0].op, steps[0].call);
      RunKeepsRetired(r, c1, id, steps[1..]);
      var (cn, rest) := Run(r, c1, steps[1..]);
      assert Run(r, c, steps).1 == [first] + rest;
    }
  }

  /** After a successful delete, the id is never stored again and no later
      answer, whatever the requests, shows it: no create gets it, no read, update
      or list returns it, and a later delete of it answers 404. */
  lemma DeletedIdNeverReturns(r: Resource, c: Store.Collection, id: Id, steps: seq<Step>)
    requires Store.Valid(c)
    requires Route(r, c, DeleteOp(id), Completes).1.status == 204
    ensures var (c', resps) := Run(r, Route(r, c, DeleteOp(id), Completes).0, steps);
      && id !in c'.docs
      && forall i :: 0 <= i < |resps| ==> !Shows(resps[i], id)
  {
    var c1 := Route(r, c, DeleteOp(id), Completes).0;
    RunKeepsRetired(r, c1, id, steps);
  }
}
