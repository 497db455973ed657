/** `apiKeyMiddleware` (index.js): the shared-secret check in front of the API
    documentation. It reads the `X-API-KEY` header and calls `next()` only when
    the header is truthy and strictly equal to the configured `API_KEY`;
    otherwise it answers 401 `{ "message": "Unauthorized" }`. */
module Gate {
  import opened Records

  /** Request headers as Node hands them to Express: names lower-cased. */
  type Headers = map<string, string>

  function LowerChar(ch: char): char
  {
    if 'A' <= ch <= 'Z' then (ch as int + 32) as char else ch
  }

  function Lower(s: string): (r: string)
    ensures |r| == |s|
    ensures forall i :: 0 <= i < |s| ==> r[i] == LowerChar(s[i])
  {
    seq(|s|, i requires 0 <= i < |s| => LowerChar(s[i]))
  }

  /** `req.header(name)`: the header under the lower-cased name, or `undefined`. */
  function Header(headers: Headers, name: string): Option<string>
  {
    var key := Lower(name);
    if key in headers then Some(headers[key]) else None
  }

  /** JavaScript truthiness of a header value: defined and not the empty string. */
  predicate Truthy(v: Option<string>)
  {
    v.Some? && v.value != ""
  }

  /** `next()`, or the response that ends the request. */
  datatype Verdict = Next | Reject(response: Response)

  const Unauthorized: Response := ErrorResponse(401, "Unauthorized")

  /** `apiKey && apiKey === process.env.API_KEY`: admit exactly a non-empty header
      value that equals the configured key character for character. */
  function ApiKeyMiddleware(headers: Headers, configured: Option<string>): (v: Verdict)
    ensures v.Next? <==>
      "x-api-key" in headers && headers["x-api-key"] != "" && configured == Some(headers["x-api-key"])
    ensures v.Reject? ==> v.response == Response(401, JsonBody(JMessage("Unauthorized")))
  {
    assert Lower("X-API-KEY") == "x-api-key";
    var apiKey := Header(headers, "X-API-KEY");
    if Truthy(apiKey) && apiKey == configured then Next else Reject(Unauthorized)
  }

  /** An unset or empty `API_KEY` admits no request at all. */
  lemma UnsetKeyAdmitsNothing(headers: Headers, configured: Option<string>)
    requires configured == None || configured == Some("")
    ensures ApiKeyMiddleware(headers, configured) == Reject(Unauthorized)
  {
  }

  /** With a configured non-empty key, exactly the requests carrying that key pass. */
  lemma AdmitsExactlyTheKey(headers: Headers, key: string)
    requires key != ""
    ensures ApiKeyMiddleware(headers, Some(key)).Next? <==> Header(headers, "X-API-KEY") == Some(key)
  {
    assert Lower("X-API-KEY") == "x-api-key";
  }

  /** The comparison is exact and case-sensitive, the header name is not. */
  lemma CaseSensitiveKey()
    ensures ApiKeyMiddleware(map["x-api-key" := "s3cr3t"], Some("s3cr3t")) == Next
    ensures ApiKeyMiddleware(map["x-api-key" := "S3cr3t"], Some("s3cr3t")) == Reject(Unauthorized)
    ensures ApiKeyMiddleware(map[], Some("s3cr3t")) == Reject(Unauthorized)
    ensures Header(map["x-api-key" := "s3cr3t"], "x-Api-Key") == Some("s3cr3t")
  {
    assert Lower("x-Api-Key") == "x-api-key";
  }
}
