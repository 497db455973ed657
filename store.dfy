/** The Mongoose model calls the route handlers make, over one collection.
    The collection is a map from id to fields plus the next id the store will
    hand out; whether a call throws is the `StoreCall` input. A call that
    throws changes nothing (each call is one atomic step of the store). */
module Store {
  import opened Records
  import Schemas

  /** One Mongo collection. */
  datatype Collection = Collection(docs: map<Id, Fields>, nextId: Id)

  /** Every stored id was handed out before: a fresh id is never in use, and an
      id is never handed out twice, not even after its document is deleted. */
  predicate Valid(c: Collection)
  {
    forall id :: id in c.docs ==> id < c.nextId
  }

  /** A collection nobody has written to. */
  const Empty: Collection := Collection(map[], 0)

  /** The documents of `docs` with an id below `n`, by ascending id. */
  function Listing(docs: map<Id, Fields>, n: nat): (r: seq<Document>)
    ensures forall d :: d in r <==> d.id < n && d.id in docs && docs[d.id] == d.fields
    ensures forall i, j :: 0 <= i < j < |r| ==> r[i].id < r[j].id
  {
    if n == 0 then []
    else
      var front := Listing(docs, n - 1);
      if n - 1 in docs then front + [Document(n - 1, docs[n - 1])] else front
  }

  /** No document appears twice in `ds`: the ids are pairwise distinct. */
  predicate DistinctIds(ds: seq<Document>)
  {
    forall i, j :: 0 <= i < |ds| && 0 <= j < |ds| && i != j ==> ds[i].id != ds[j].id
  }

  /** `await Model.find()`: every stored document, each once. */
  function Find(c: Collection, call: StoreCall): (r: Result<seq<Document>>)
    requires Valid(c)
    ensures call.Throws? ==> r == Err(call.message)
    ensures call.Completes? ==> r.Ok? && DistinctIds(r.value)
    ensures call.Completes? ==>
      forall d :: d in r.value <==> d.id in c.docs && c.docs[d.id] == d.fields
  {
    match call
    case Throws(m) => Err(m)
    case Completes =>
      var all := Listing(c.docs, c.nextId);
      assert DistinctIds(all) by {
        forall i, j | 0 <= i < |all| && 0 <= j < |all| && i != j
          ensures all[i].id != all[j].id
        {
          if i < j { assert all[i].id < all[j].id; } else { assert all[j].id < all[i].id; }
        }
      }
      Ok(all)
  }

  /** `await Model.findById(id)`. */
  function FindById(c: Collection, id: Id, call: StoreCall): Outcome<Document>
  {
    match call
    case Throws(m) => Threw(m)
    case Completes => if id in c.docs then Found(Document(id, c.docs[id])) else Null
  }

  /** `await new Model(body).save()`: strict mode drops undeclared fields, then
      validation runs; only a valid document reaches the store, which may still
      throw, or stores it under a fresh id. */
  function Save(s: Schemas.Schema, c: Collection, body: Fields, call: StoreCall): (Result<Document>, Collection)
  {
    var doc := Schemas.Strict(s, body);
    var missing := Schemas.Missing(s, doc);
    if missing != [] then (Err(Schemas.ValidationMessage(s, missing)), c)
    else match call
      case Throws(m) => (Err(m), c)
      case Completes => (Ok(Document(c.nextId, doc)), Collection(c.docs[c.nextId := doc], c.nextId + 1))
  }

  /** The fields of `current` after the update `changes` is applied with `$set`:
      the fields named in `changes` take their new values, the others stay. */
  function Merge(current: Fields, changes: Fields): Fields
  {
    current + changes
  }

  /** `await Model.findByIdAndUpdate(id, body, { new: true })`, without
      `runValidators`: the strict-mode body is merged into the stored document and
      the post-update document comes back. Required paths are not checked. */
  function FindByIdAndUpdate(s: Schemas.Schema, c: Collection, id: Id, body: Fields, call: StoreCall)
    : (Outcome<Document>, Collection)
  {
    match call
    case Throws(m) => (Threw(m), c)
    case Completes =>
      if id in c.docs then
        var updated := Merge(c.docs[id], Schemas.Strict(s, body));
        (Found(Document(id, updated)), Collection(c.docs[id := updated], c.nextId))
      else (Null, c)
  }

  /** `await Model.findByIdAndDelete(id)`: the removed document comes back. */
  function FindByIdAndDelete(c: Collection, id: Id, call: StoreCall): (Outcome<Document>, Collection)
  {
    match call
    case Throws(m) => (Threw(m), c)
    case Completes =>
      if id in c.docs then (Found(Document(id, c.docs[id])), Collection(c.docs - {id}, c.nextId))
      else (Null, c)
  }
}
