/** Values shared by every part of the model: stored documents, the outcome of
    one call into the document store, and the HTTP response a handler sends. */
module Records {

  /** A value that may be absent (`undefined` in the source). */
  datatype Option<T> = None | Some(value: T)

  /** The domain fields of one document or request body, by field name.
      Every schema field in this system is a String, so values are text. */
  type Fields = map<string, string>

  /** Store-assigned document identity (Mongo's `_id`), abstracted to a number. */
  type Id = nat

  /** A stored document as the store hands it back: its id and its fields. */
  datatype Document = Document(id: Id, fields: Fields)

  /** How the one store call a handler makes goes: it runs to completion, or it
      throws (a bad id cast, a validation error, a lost connection) with a message.
      Which of the two happens is decided by the store, so it is an input here. */
  datatype StoreCall = Completes | Throws(message: string)

  /** What `await Model.find()` or `await doc.save()` yields: a value, or a throw. */
  datatype Result<T> = Ok(value: T) | Err(message: string)

  /** What `await Model.findById...(id)` yields: a record came back, nothing came
      back (`null`), or the call threw. */
  datatype Outcome<T> = Found(value: T) | Null | Threw(message: string)

  /** A JSON response body: one document, an array of documents, or `{ message }`. */
  datatype Json = JDoc(doc: Document) | JArray(docs: seq<Document>) | JMessage(message: string)

  /** `res.json(...)`, `res.send("text")`, or `res.send()` with nothing. */
  datatype Body = JsonBody(json: Json) | TextBody(text: string) | NoBody

  datatype Response = Response(status: nat, body: Body)

  /** The `{ message: error.message }` body the handlers send from a catch block. */
  function ErrorResponse(status: nat, message: string): Response
  {
    Response(status, JsonBody(JMessage(message)))
  }
}
