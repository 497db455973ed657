/** The four Mongoose schemas (models/Admin.js, models/Engineering.js,
    models/Operations.js, models/Security.js) as data, and what a schema does to
    a document on `save`: it keeps only the declared paths (strict mode) and
    rejects the document when a required path is missing. */
module Schemas {
  import opened Records

  /** `type: String`, the only path type these schemas use. */
  datatype SchemaType = StringType

  /** One entry of the schema object literal: `name: { type: String, required: true }`. */
  datatype SchemaPath = SchemaPath(name: string, kind: SchemaType, required: bool)

  /** A schema with the model name it is registered under (`mongoose.model('Admin', ...)`). */
  datatype Schema = Schema(modelName: string, paths: seq<SchemaPath>)

  const AdminSchema: Schema :=
    Schema("Admin", [SchemaPath("name", StringType, true), SchemaPath("role", StringType, true)])

  const EngineeringSchema: Schema :=
    Schema("Engineering", [SchemaPath("name", StringType, true), SchemaPath("project", StringType, true)])

  const OperationsSchema: Schema :=
    Schema("Operations", [SchemaPath("name", StringType, true), SchemaPath("shift", StringType, true)])

  const SecuritySchema: Schema :=
    Schema("Security", [SchemaPath("name", StringType, true), SchemaPath("clearanceLevel", StringType, true)])

  /** The declared path names, in declaration order. */
  function Names(s: Schema): seq<string>
  {
    seq(|s.paths|, i requires 0 <= i < |s.paths| => s.paths[i].name)
  }

  /** Mongoose's `required` check on a String path: the value is there and is not ''. */
  predicate Present(doc: Fields, name: string)
  {
    name in doc && doc[name] != ""
  }

  /** The required paths among `paths` that `doc` does not satisfy, in order. */
  function MissingIn(paths: seq<SchemaPath>, doc: Fields): (r: seq<string>)
    ensures forall n :: n in r <==>
      exists i :: 0 <= i < |paths| && paths[i].required && paths[i].name == n && !Present(doc, n)
    ensures |r| <= |paths|
  {
    if paths == [] then []
    else
      var rest := MissingIn(paths[1..], doc);
      assert forall i :: 1 <= i < |paths| ==> paths[i] == paths[1..][i - 1];
      if paths[0].required && !Present(doc, paths[0].name) then [paths[0].name] + rest else rest
  }

  /** The required paths of `s` that `doc` does not satisfy. */
  function Missing(s: Schema, doc: Fields): seq<string>
  {
    MissingIn(s.paths, doc)
  }

  /** `doc.save()` passes validation. */
  predicate Accepts(s: Schema, doc: Fields)
  {
    Missing(s, doc) == []
  }

  /** Validation passes exactly when every required path is present and non-empty. */
  lemma AcceptsIff(s: Schema, doc: Fields)
    ensures Accepts(s, doc) <==>
      forall i :: 0 <= i < |s.paths| && s.paths[i].required ==> Present(doc, s.paths[i].name)
  {
    if !Accepts(s, doc) {
      var n := Missing(s, doc)[0];
      assert n in Missing(s, doc);
    }
  }

  /** Strict mode: a document built from a body keeps only the declared paths. */
  function Strict(s: Schema, body: Fields): (r: Fields)
    ensures r.Keys <= body.Keys
    ensures forall n :: n in r ==> n in Names(s) && r[n] == body[n]
    ensures forall n :: n in body && n in Names(s) ==> n in r
  {
    map n | n in body && n in Names(s) :: body[n]
  }

  /** Dropping undeclared fields never changes what validation reports. */
  lemma {:induction false} StrictKeepsMissing(s: Schema, paths: seq<SchemaPath>, body: Fields)
    requires forall i :: 0 <= i < |paths| ==> paths[i] in s.paths
    ensures MissingIn(paths, Strict(s, body)) == MissingIn(paths, body)
  {
    if paths != [] {
      assert paths[0] in s.paths;
      var k :| 0 <= k < |s.paths| && s.paths[k] == paths[0];
      assert Names(s)[k] == paths[0].name;
      assert Present(Strict(s, body), paths[0].name) == Present(body, paths[0].name);
      StrictKeepsMissing(s, paths[1..], body);
    }
  }

  /** Validation of the strict-mode document agrees with validation of the raw body. */
  lemma StrictAccepts(s: Schema, body: Fields)
    ensures Missing(s, Strict(s, body)) == Missing(s, body)
    ensures Accepts(s, Strict(s, body)) == Accepts(s, body)
  {
    StrictKeepsMissing(s, s.paths, body);
  }

  /** The `message` of the ValidationError that `save` throws for the missing paths:
      `<Model> validation failed: <path>: Path `<path>` is required.`, joined by ", ". */
  function ValidationMessage(s: Schema, missing: seq<string>): (m: string)
    requires missing != []
    ensures |s.modelName| < |m| && m[..|s.modelName|] == s.modelName
  {
    s.modelName + " validation failed: " + PathErrors(missing)
  }

  function PathErrors(missing: seq<string>): string
    requires missing != []
    decreases |missing|
  {
    var e := missing[0] + ": Path `" + missing[0] + "` is required.";
    if |missing| == 1 then e else e + ", " + PathErrors(missing[1..])
  }

  /** A schema of two required String paths `a` then `b` (the shape of all four models). */
  predicate TwoRequiredStrings(s: Schema, a: string, b: string)
  {
    s.paths == [SchemaPath(a, StringType, true), SchemaPath(b, StringType, true)]
  }

  /** For such a schema, a body is accepted iff it carries both fields, non-empty;
      and the names are exactly the two declared fields. */
  lemma {:induction false} TwoRequiredAccepts(s: Schema, a: string, b: string, body: Fields)
    requires TwoRequiredStrings(s, a, b)
    ensures Names(s) == [a, b]
    ensures Accepts(s, body) <==> Present(body, a) && Present(body, b)
    ensures !Present(body, a) ==> a in Missing(s, body)
    ensures !Present(body, b) ==> b in Missing(s, body)
  {
    AcceptsIff(s, body);
    assert s.paths[0].name == a && s.paths[1].name == b;
  }

  /** models/Admin.js: exactly `name` and `role`, both required Strings. */
  lemma AdminFields(body: Fields)
    ensures Names(AdminSchema) == ["name", "role"]
    ensures Accepts(AdminSchema, body) <==> Present(body, "name") && Present(body, "role")
  {
    TwoRequiredAccepts(AdminSchema, "name", "role", body);
  }

  /** models/Engineering.js: exactly `name` and `project`, both required Strings. */
  lemma EngineeringFields(body: Fields)
    ensures Names(EngineeringSchema) == ["name", "project"]
    ensures Accepts(EngineeringSchema, body) <==> Present(body, "name") && Present(body, "project")
  {
    TwoRequiredAccepts(EngineeringSchema, "name", "project", body);
  }

  /** models/Operations.js: exactly `name` and `shift`, both required Strings. */
  lemma OperationsFields(body: Fields)
    ensures Names(OperationsSchema) == ["name", "shift"]
    ensures Accepts(OperationsSchema, body) <==> Present(body, "name") && Present(body, "shift")
  {
    TwoRequiredAccepts(OperationsSchema, "name", "shift", body);
  }

  /** models/Security.js: exactly `name` and `clearanceLevel`, both required Strings. */
  lemma SecurityFields(body: Fields)
    ensures Names(SecuritySchema) == ["name", "clearanceLevel"]
    ensures Accepts(SecuritySchema, body) <==> Present(body, "name") && Present(body, "clearanceLevel")
  {
    TwoRequiredAccepts(SecuritySchema, "name", "clearanceLevel", body);
  }
}
