/**
 `ClipboardTranslator.translate_text`: build the POST request, then turn the
 outcome of the HTTP exchange into the value handed back to the window.
 The network itself is not modelled: the exchange arrives as an input value.
 */
module Translator {
  import opened PyJson

  /** Response field names tried, in this order, when the body is an object. */
  const Aliases: seq<string> := ["translatedText", "translated_text", "translation", "result", "text"]

  const NoTranslation: string := "Translation failed: No translation in response"
  const RequestErrorPrefix: string := "Translation error: "
  const JsonErrorPrefix: string := "JSON parsing error: "
  const Endpoint: string := "/translate"
  const TimeoutSeconds: nat := 10

  /** The POST `translate_text` issues: URL, JSON body and timeout. */
  datatype Request = Request(url: string, payload: Json, timeoutSeconds: nat)

  /** Why `response.json()` failed, and which exception class it raised.
      Recent versions of the HTTP library raise a decode error that is also a
      request exception, which the first `except` clause then catches. */
  datatype DecodeFailure = DecodeFailure(message: string, isRequestException: bool)

  /** What came back from the body decoder. */
  datatype Body = Decoded(value: Json) | Undecodable(failure: DecodeFailure)

  /** The outcome of one POST: either `post` itself raised a request
      exception (connection refused, timeout, bad URL ...), or a response
      arrived with a status code, the message `raise_for_status` would carry,
      and a body. */
  datatype Exchange =
    | PostFailed(message: string)
    | Responded(status: int, statusMessage: string, body: Body)

  /** What one call of `translate_text` sends and returns. */
  datatype Call = Call(request: Request, reply: Json)

  /** `raise_for_status` raises for client and server error codes. */
  predicate RaisesForStatus(status: int) {
    400 <= status < 600
  }

  /** The payload's `text` field, when it holds a string. */
  function PayloadText(q: Request): (t: string)
  {
    match q.payload
    case JObj(fields) =>
      (match Get(fields, "text") case JStr(s) => s case _ => "")
    case _ => ""
  }

  /** The request targets the server's `/translate` route and carries the
      text, and nothing else, in a JSON object. */
  function BuildRequest(serverUrl: string, text: string): (q: Request)
    ensures |q.url| == |serverUrl| + |Endpoint|
    ensures q.url[..|serverUrl|] == serverUrl && q.url[|serverUrl|..] == Endpoint
    ensures q.payload.JObj? && q.payload.fields.Keys == {"text"}
    ensures PayloadText(q) == text
    ensures q.timeoutSeconds == TimeoutSeconds
  {
    Request(serverUrl + Endpoint, JObj(map["text" := JStr(text)]), TimeoutSeconds)
  }

  /** The values of the alias fields, in priority order (`result.get(...)`). */
  function AliasValues(fields: map<string, Json>): seq<Json>
  {
    seq(|Aliases|, i requires 0 <= i < |Aliases| => Get(fields, Aliases[i]))
  }

  /** The `translated_text` candidate picked from a decoded body: the alias
      chain for an object, the body itself for a string, `None` otherwise. */
  function Candidate(result: Json): (t: Json)
  {
    match result
    case JObj(fields) => OrChain(AliasValues(fields))
    case JStr(_) => result
    case _ => JNull
  }

  /** The value returned for a decoded body: the candidate when truthy, the
      fixed failure text otherwise. Whatever comes back is truthy and is
      either the candidate or the failure text. */
  function Interpret(result: Json): (r: Json)
    ensures Truthy(r)
    ensures r == Candidate(result) || r == JStr(NoTranslation)
    ensures Truthy(Candidate(result)) ==> r == Candidate(result)
  {
    var t := Candidate(result);
    if !Truthy(t) then JStr(NoTranslation) else t
  }

  /** The value `translate_text` returns for an exchange; the two `except`
      clauses turn errors into prefixed messages instead of raising. */
  function Reply(x: Exchange): (r: Json)
    ensures Truthy(r)
    ensures x.PostFailed? ==> r == JStr(RequestErrorPrefix + x.message)
    ensures x.Responded? && RaisesForStatus(x.status) ==> r == JStr(RequestErrorPrefix + x.statusMessage)
  {
    match x
    case PostFailed(m) => JStr(RequestErrorPrefix + m)
    case Responded(status, statusMessage, body) =>
      if RaisesForStatus(status) then JStr(RequestErrorPrefix + statusMessage)
      else
        match body
        case Undecodable(DecodeFailure(m, isRequestException)) =>
          if isRequestException then JStr(RequestErrorPrefix + m) else JStr(JsonErrorPrefix + m)
        case Decoded(v) => Interpret(v)
  }

  /** One `translate_text(text)` on a translator built for `serverUrl`. */
  function TranslateText(serverUrl: string, text: string, x: Exchange): (c: Call)
    ensures PayloadText(c.request) == text
    ensures c.request.url == serverUrl + Endpoint
    ensures Truthy(c.reply)
  {
    Call(BuildRequest(serverUrl, text), Reply(x))
  }

  /** A successful exchange whose body decoded to `v`. */
  function Ok(v: Json): (x: Exchange) {
    Responded(200, "", Decoded(v))
  }

  /** For an object body under a status that does not raise, the first alias
      whose value is truthy wins, however the later aliases are set. */
  lemma FirstTruthyAliasWins(status: int, statusMessage: string, fields: map<string, Json>, i: int)
    requires !RaisesForStatus(status)
    requires 0 <= i < |Aliases|
    requires Truthy(Get(fields, Aliases[i]))
    requires forall j :: 0 <= j < i ==> !Truthy(Get(fields, Aliases[j]))
    ensures Reply(Responded(status, statusMessage, Decoded(JObj(fields)))) == Get(fields, Aliases[i])
  {
    var vs := AliasValues(fields);
    assert FirstTruthy(vs, i);
    OrChainFirstTruthy(vs, i);
  }

  /** With every alias missing, `null` or otherwise falsy, the reply is the
      fixed failure text, and so a falsy alias value is never returned. */
  lemma FalsyAliasesFail(status: int, statusMessage: string, fields: map<string, Json>)
    requires !RaisesForStatus(status)
    requires forall j :: 0 <= j < |Aliases| ==> !Truthy(Get(fields, Aliases[j]))
    ensures Reply(Responded(status, statusMessage, Decoded(JObj(fields)))) == JStr(NoTranslation)
  {
  }

  /** A bare JSON string is returned unchanged when non-empty; the empty
      string is the failure case. */
  lemma BareStringReply(status: int, statusMessage: string, s: string)
    requires !RaisesForStatus(status)
    ensures s != "" ==> Reply(Responded(status, statusMessage, Decoded(JStr(s)))) == JStr(s)
    ensures s == "" ==> Reply(Responded(status, statusMessage, Decoded(JStr(s)))) == JStr(NoTranslation)
  {
  }

  /** A decoded body that is neither an object nor a string never yields a
      translation. */
  lemma OtherBodiesFail(v: Json, status: int, statusMessage: string)
    requires !v.JObj? && !v.JStr?
    requires !RaisesForStatus(status)
    ensures Reply(Responded(status, statusMessage, Decoded(v))) == JStr(NoTranslation)
  {
  }

  /** The body of a response with an error status is never looked at: the
      reply is the prefixed status message whatever the body holds. */
  lemma ErrorStatusIgnoresBody(status: int, statusMessage: string, b1: Body, b2: Body)
    requires RaisesForStatus(status)
    ensures Reply(Responded(status, statusMessage, b1)) == Reply(Responded(status, statusMessage, b2))
    ensures Reply(Responded(status, statusMessage, b1)) == JStr(RequestErrorPrefix + statusMessage)
  {
  }

  /** A body that fails to decode gives the JSON-error message when the
      decoder raised a plain value error, and the request-error message when
      it raised a request exception. */
  lemma DecodeFailureReply(status: int, statusMessage: string, f: DecodeFailure)
    requires !RaisesForStatus(status)
    ensures !f.isRequestException ==>
      Reply(Responded(status, statusMessage, Undecodable(f))) == JStr(JsonErrorPrefix + f.message)
    ensures f.isRequestException ==>
      Reply(Responded(status, statusMessage, Undecodable(f))) == JStr(RequestErrorPrefix + f.message)
  {
  }

  /** The reply is a string unless the body picked out a truthy value that is
      not a string (a number, `true`, a list or an object), which is then
      returned as it is. */
  lemma ReplyIsStringUnlessNonStringCandidate(x: Exchange)
    ensures !Reply(x).JStr? <==>
      (x.Responded? && !RaisesForStatus(x.status) && x.body.Decoded?
       && Truthy(Candidate(x.body.value)) && !Candidate(x.body.value).JStr?)
  {
  }

  /** `{"translatedText": 1}` comes back as the number 1, not as a string. */
  lemma NumericAliasReturnedAsIs()
    ensures Reply(Ok(JObj(map["translatedText" := JNum(1.0)]))) == JNum(1.0)
  {
    FirstTruthyAliasWins(200, "", map["translatedText" := JNum(1.0)], 0);
  }

  /** `{"translated_text": "你好"}` for the text "hello" gives exactly "你好",
      from a POST to the server's `/translate` route carrying "hello". */
  lemma TranslatedTextExample(serverUrl: string)
    ensures TranslateText(serverUrl, "hello", Ok(JObj(map["translated_text" := JStr("你好")]))).reply == JStr("你好")
    ensures TranslateText(serverUrl, "hello", Ok(JObj(map["translated_text" := JStr("你好")]))).request.url == serverUrl + "/translate"
  {
    var fields := map["translated_text" := JStr("你好")];
    assert Get(fields, Aliases[0]) == JNull;
    FirstTruthyAliasWins(200, "", fields, 1);
  }
}
