# Nuclear power plant API: verified model of the resource handlers and the API-key gate

The service exposes four department collections (admin, engineering, operations,
security) through one Express router each. Each router has the same five handlers:

- `POST /`
- `GET /`
- `GET /:id`
- `PUT /:id`
- `DELETE /:id`

Each handler makes one Mongoose call and turns what comes back into a status and a body.
There are three possible outcomes: a document came back, `null` came back, or the call threw.
The API documentation at `/api-docs` sits behind `apiKeyMiddleware`. That middleware admits
a request only when its `X-API-KEY` header is truthy and strictly equal to `API_KEY`.

The model has these parts:

- `records.dfy` (module `Records`): the values everything shares. These are documents,
  the `StoreCall` input (the store call completes, or throws with a message), the two
  outcome types and the HTTP `Response`.
- `schemas.dfy` (module `Schemas`): the four schemas of `models/*.js` as data. It covers
  what `save` does with them. Strict mode keeps only declared paths, and the `required`
  check rejects a missing or empty String.
- `store.dfy` (module `Store`): a Mongo collection, modelled as a map from id to fields
  plus the next id to hand out. It also defines `find`, `findById`, `save`,
  `findByIdAndUpdate(..., { new: true })` and `findByIdAndDelete` over that collection.
- `crud.dfy` (module `Crud`): the five handlers, one function each. Each is the store call
  followed by the route's branch on its outcome. The file also holds the properties that
  relate several handlers.
- `router.dfy` (module `Routers`): class `ResourceRouter`, one Express router as an object.
  It is built from a schema and a 404 text, and it holds its collection as fields.
  `Post`, `Put` and `Delete` change the fields in place and are proved equal to the
  `Crud` handlers. `List` and `Get` only read.
- `gate.dfy` (module `Gate`): `apiKeyMiddleware`, including how Express finds a header by
  its lower-cased name and how JavaScript decides truthiness.
- `app.dfy` (module `App`): the mount table of `index.js`. Each resource path is bound to
  its own router and collection, and only `/api-docs` goes through the gate. `App` composes
  the pure `Crud` handlers (`Route`, `Run`) rather than the class, because properties that
  relate several requests and several collections are stated over values. The class
  members are proved equal to the same `Crud` functions, so the two agree.

Behaviour the model follows from the code:

- Update does not check required fields, because `findByIdAndUpdate` is called without
  `runValidators`. A `PUT` can therefore empty a required field and still answer 200
  (`Crud.UpdateCanClearRequiredField`).
- A thrown update answers 400. A thrown read, list or delete answers 500.
- The `@swagger` comments list fewer statuses than the code sends. The list comment
  gives only 200, the read comment 200/404 and the delete comment 204/404. In every
  handler the only status missing from its comment is the 500 of a store fault
  (`Crud.StatusesDocumented`).
- `GET /` answers in whatever order `find()` gives, so the model promises no order.

## Model

| member | source | states |
|---|---|---|
| `Schemas.MissingIn` | models/Engineering.js:5-6 | a name is reported missing iff some path declares it required and the document lacks it or holds '' |
| `Schemas.AcceptsIff` | models/Admin.js:4-7 | `save` validation passes iff every required path is present and non-empty |
| `Schemas.Strict` | models/Engineering.js:4-7 | strict mode: the document built from a body keeps exactly the body's fields that the schema declares, with the body's values |
| `Schemas.StrictAccepts` | routes/engineering.js:44-45 | dropping undeclared fields before `save` never changes which required paths are missing |
| `Schemas.ValidationMessage` | routes/engineering.js:47-48 | the 400 message of a failed validation starts with the model name |
| `Schemas.TwoRequiredAccepts` | models/Security.js:4-7 | for a schema of two required String paths `a`, `b`: its names are exactly `[a, b]`, it accepts a body iff both are present and non-empty, and a missing one is reported |
| `Schemas.AdminFields` | models/Admin.js:4-7 | Admin declares exactly `name`, `role`, and accepts a body iff both are non-empty |
| `Schemas.EngineeringFields` | models/Engineering.js:4-7 | Engineering declares exactly `name`, `project`, and accepts a body iff both are non-empty |
| `Schemas.OperationsFields` | models/Operations.js:4-7 | Operations declares exactly `name`, `shift`, and accepts a body iff both are non-empty |
| `Schemas.SecurityFields` | models/Security.js:4-7 | Security declares exactly `name`, `clearanceLevel`, and accepts a body iff both are non-empty |
| `Store.Listing` | routes/engineering.js:100 | the listing holds exactly the stored documents below the bound, by strictly ascending id |
| `Store.Find` | routes/engineering.js:100 | `find()` yields every stored document exactly once (distinct ids, same fields), or the throw's message |
| `Crud.Create` | routes/engineering.js:42-50 | 201 iff the body passes validation and the save completes; then exactly one document is added, under a fresh id, and answered; otherwise 400 with the validation or store message and the collection unchanged |
| `Crud.List` | routes/engineering.js:98-105 | 200 with an array holding every stored document exactly once, or 500 `{message}` when the store throws |
| `Crud.GetById` | routes/engineering.js:108-119 | 200 with the stored document iff the id is present; 404 with the resource's text iff absent; 500 `{message}` on a throw |
| `Crud.UpdateById` | routes/engineering.js:158-169 | on a present id: 200 with the post-update document, body fields set, other fields and other documents unchanged, same ids; 404 text when absent and 400 `{message}` on a throw, both changing nothing |
| `Crud.DeleteById` | routes/engineering.js:223-234 | 204 with no body iff the id is present, and exactly that document is removed; 404 text when absent and 500 `{message}` on a throw, both changing nothing |
| `Crud.CreateThenGet` | routes/engineering.js:42-46 | after a 201 create, reading the answered id gives 200 with the same body, whose fields are the strict-mode body |
| `Crud.RejectedCreateStoresNothing` | routes/admin.js:42-49 | a body failing validation answers 400 whatever the store would do, and stores nothing |
| `Crud.UpdateThenGet` | routes/security.js:158-163 | the update answer (`{ new: true }`) is exactly what a later read of the id returns |
| `Crud.DeleteIsFinal` | routes/admin.js:223-232 | after a 204 delete, a read of the id and a second delete both answer 404 with the text |
| `Crud.DeletedIdNotReused` | routes/operations.js:223-232 | the next create after a delete does not get the deleted id |
| `Crud.UpdateCanClearRequiredField` | routes/engineering.js:160 | an update emptying `project` of a valid Engineering record answers 200 and leaves a record `save` would reject (no `runValidators`) |
| `Crud.StatusesDocumented` | routes/engineering.js:20-255 | every status each handler sends is in its `@swagger` responses, except 500, which list, read and delete send exactly on a store throw |
| `Routers.ResourceRouter.constructor` | routes/operations.js:1-3 | a router starts with its model's schema, its 404 text and an empty collection |
| `Routers.ResourceRouter.Post` | routes/security.js:42-50 | the in-place create leaves the fields and answer that `Crud.Create` gives for the old state |
| `Routers.ResourceRouter.List` | routes/engineering.js:98-105 | answers what `Crud.List` answers for `State()`, changing nothing |
| `Routers.ResourceRouter.Get` | routes/admin.js:108-119 | answers what `Crud.GetById` answers for `State()` and the router's 404 text, changing nothing |
| `Routers.ResourceRouter.Put` | routes/operations.js:158-169 | the in-place update leaves the fields and answer that `Crud.UpdateById` gives for the old state |
| `Routers.ResourceRouter.Delete` | routes/security.js:223-234 | the in-place delete leaves the fields and answer that `Crud.DeleteById` gives for the old state |
| `Routers.EngineeringScenario` | routes/engineering.js:42-234 | create Ada on Reactor-Core, read, move to Turbine, delete, read: statuses 201, 200, 200, 204, 404, and the update keeps `name` |
| `Gate.ApiKeyMiddleware` | index.js:22-29 | `next` iff the `x-api-key` header is non-empty and equals the configured key; otherwise 401 `{"message":"Unauthorized"}` |
| `Gate.UnsetKeyAdmitsNothing` | index.js:24 | with `API_KEY` unset or empty, every request is rejected with 401 |
| `Gate.AdmitsExactlyTheKey` | index.js:23-25 | with a non-empty key configured, a request passes iff `req.header('X-API-KEY')` is exactly that key |
| `Gate.CaseSensitiveKey` | index.js:24 | key `s3cr3t` admits header `s3cr3t`, rejects `S3cr3t` and a missing header; the header name matches in any case |
| `App.Route` | routes/admin.js:42-234 | each of the five operations runs its handler; list and read leave the collection unchanged; the next id never goes down |
| `App.Handle` | index.js:39-46 | `/api-docs` runs the gate and changes nothing; a resource path runs its own router on its own collection only |
| `App.MountTable` | index.js:39-43 | no two paths share a router, and neither `/api-docs` nor `/api/rnd` is bound to one of the four |
| `App.Isolation` | index.js:39-43 | a request leaves every collection other than its own path's exactly as it was |
| `App.ResourceRoutesIgnoreKey` | index.js:39-46 | a resource request is handled the same whatever its headers and the configured key: the gate guards only `/api-docs` |
| `App.CreateNeedsBothFields` | routes/admin.js:42-49 | for each resource, a create lacking `name` or its model's second required field answers 400 and stores nothing; one carrying both that the store saves answers 201 |
| `App.CreateInSecurityInvisibleToEngineering` | routes/security.js:3 | a create under `/api/security` does not change what `/api/engineering` lists |
| `App.NotFoundText` | routes/engineering.js:114 | every 404 text ends in " not found"; security and operations share "Staff not found" and only they use it |
| `App.Run` | routes/admin.js:42-234 | a run of requests against one router keeps the collection valid, never lowers the next id, and answers each request once |
| `App.RunKeepsRetired` | routes/admin.js:223-232 | an id handed out and no longer stored is never stored again and no answer of any later run of requests shows it |
| `App.DeletedIdNeverReturns` | routes/engineering.js:223-234 | after a 204 delete, whatever requests follow, the id is never stored again and no later answer (create, read, update, list) shows it |

## Left out

- Ids: Mongo's ObjectId, its format and its casting are abstract. An id is a number handed out by a counter.
- Malformed ids: a malformed id makes the store call throw, which is the `Throws` input.
- Id assignment: the counter never reuses an id. This is a modelling assumption about the store, not logic in the routes.
- Body values: only String values are modelled. Mongoose's casting of numbers, booleans, objects and `null` is not.
- Reserved keys: a client-supplied `_id`, update operators such as `$unset`, and the `__v` version key are not modelled.
- Crud.List: promises that each stored document appears exactly once, but not their order. The model itself lists by ascending id; the real order is whatever `find()` returns.
- Schemas.ValidationMessage: the contract states only the model-name prefix. The exact wording, and the order in which several missing paths are listed, belong to Mongoose.
- Store faults: the model does not say why a call throws (lost connection, cast error, duplicate key). It takes that from the `StoreCall` input, and a throwing call changes nothing.
- Headers: Express's `referer`/`referrer` special case in `req.header` and the joining of repeated headers are not modelled. Header names are assumed already lower-cased, as Node delivers them.
- Startup: the database connection and startup (`mongoose.connect`), JSON body parsing, and `listen` with its port default are I/O plumbing.
- Documentation UI: swagger/swagger.js and swagger-ui-express are not part of this model. An admitted `/api-docs` request ends in `ServeDocs`.
- r&d router: `./routes/r&d` is not part of this model. A request under `/api/rnd` ends in `RndRouter`.
- Express's own 404 for unmatched paths is the `NoRoute` reply. Its text is not modelled.
- Response headers (content type) and the exact JSON serialisation of a document are not modelled.
- Concurrency: concurrent requests and async scheduling are not modelled. Each request is one atomic step of the application.
