/** The request-context middleware: every request gets an id (the caller's
  * `x-request-id` when it sends a non-blank one, else a fresh one) and an
  * actor (the first header naming the operator, else the body's user
  * field, else "desconhecido"), both echoed in the response headers.
  *
  * Request headers are a map from lower-case names to values; an absent
  * header is missing from the map. The fresh id is a parameter, since it
  * comes from the system's random source. */
module RequestContext {
  import opened Wrappers
  import opened JsText
  import opened JsValues

  type Headers = map<string, string>

  const UnknownActor := "desconhecido"

  /** `req.header(name)`. */
  function Header(headers: Headers, name: string): (v: JsValue)
    ensures name in headers ==> v == Str(headers[name])
    ensures name !in headers ==> v == Undefined
  {
    if name in headers then Str(headers[name]) else Undefined
  }

  /** The header value the actor is taken from: the first non-empty one of
    * `x-user`, `x-operator`, `x-username`. */
  function HeaderActor(headers: Headers): JsValue
  {
    Or(Or(Header(headers, "x-user"), Header(headers, "x-operator")), Header(headers, "x-username"))
  }

  /** The body value the actor is taken from: the first truthy one of
    * `user`, `usuario`, `operator` (only a plain object has any). */
  function BodyActor(body: JsValue): JsValue
  {
    Or(Or(Get(body, "user"), Get(body, "usuario")), Get(body, "operator"))
  }

  /** `resolveActor`: the chosen header value trimmed, if it is not blank;
    * else the chosen body value trimmed, if it is a non-blank string; else
    * "desconhecido". */
  function ResolveActor(headers: Headers, body: JsValue): (r: string)
    ensures IsNonBlankString(HeaderActor(headers)) ==> r == Trim(HeaderActor(headers).s)
    ensures !IsNonBlankString(HeaderActor(headers)) && IsNonBlankString(BodyActor(body)) ==> r == Trim(BodyActor(body).s)
    ensures !IsNonBlankString(HeaderActor(headers)) && !IsNonBlankString(BodyActor(body)) ==> r == UnknownActor
  {
    var h := HeaderActor(headers);
    if h.Str? && !IsBlank(h.s) then Trim(h.s)
    else
      var b := BodyActor(body);
      if b.Str? && !IsBlank(b.s) then Trim(b.s)
      else UnknownActor
  }

  /** The actor is never empty and never carries surrounding white space. */
  lemma ActorIsTrimmed(headers: Headers, body: JsValue)
    ensures var r := ResolveActor(headers, body); r != [] && Trim(r) == r
  {
    var h := HeaderActor(headers);
    var b := BodyActor(body);
    if h.Str? && !IsBlank(h.s) {
      TrimIdempotent(h.s);
    } else if b.Str? && !IsBlank(b.s) {
      TrimIdempotent(b.s);
    } else {
      TrimOfNoSpace(UnknownActor);
    }
  }

  /** A non-blank `x-user` decides the actor, whatever the other headers and
    * the body say. */
  lemma UserHeaderWins(headers: Headers, body: JsValue)
    requires "x-user" in headers && !IsBlank(headers["x-user"])
    ensures ResolveActor(headers, body) == Trim(headers["x-user"])
  {
    assert headers["x-user"] != [];
  }

  /** A blank but non-empty `x-user` shadows the other headers: the actor
    * then comes from the body, even when `x-operator` names someone. */
  lemma BlankUserHeaderShadows(operator: string, body: JsValue)
    requires !IsBlank(operator)
    ensures ResolveActor(map["x-user" := " ", "x-operator" := operator], body)
      == ResolveActor(map["x-user" := " "], body)
    ensures ResolveActor(map["x-user" := " ", "x-operator" := operator], Undefined) == UnknownActor
  {
    assert IsBlank(" ") by { BlankIffAllSpace(" "); }
  }

  /** The request id: the incoming `x-request-id` trimmed, when it is not
    * blank, else `freshId`. */
  function RequestIdOf(headers: Headers, freshId: string): (r: string)
    ensures "x-request-id" in headers && !IsBlank(headers["x-request-id"]) ==> r == Trim(headers["x-request-id"]) && r != []
    ensures !("x-request-id" in headers && !IsBlank(headers["x-request-id"])) ==> r == freshId
  {
    if "x-request-id" in headers && !IsBlank(headers["x-request-id"]) then Trim(headers["x-request-id"])
    else freshId
  }

  /** One request and its response, as far as the middleware sees them. */
  class Exchange {
    const verb: string
    const originalUrl: string
    const url: string
    const headers: Headers
    const body: JsValue
    /** `req.ip` and `req.socket.remoteAddress`, empty when unknown. */
    const ip: string
    const remoteAddress: string
    var requestId: string
    var actor: string
    var responseHeaders: map<string, string>
    var statusCode: int
    /** How many times the next handler was called. */
    var nextCalls: nat

    constructor (verb: string, originalUrl: string, url: string, headers: Headers, body: JsValue,
                 ip: string, remoteAddress: string)
      ensures this.verb == verb && this.originalUrl == originalUrl && this.url == url
      ensures this.headers == headers && this.body == body && this.ip == ip && this.remoteAddress == remoteAddress
      ensures requestId == "" && actor == "" && responseHeaders == map[] && statusCode == 200 && nextCalls == 0
    {
      this.verb := verb;
      this.originalUrl := originalUrl;
      this.url := url;
      this.headers := headers;
      this.body := body;
      this.ip := ip;
      this.remoteAddress := remoteAddress;
      requestId := "";
      actor := "";
      responseHeaders := map[];
      statusCode := 200;
      nextCalls := 0;
    }

    /** `next()`. */
    method Next()
      modifies this
      ensures nextCalls == old(nextCalls) + 1
      ensures requestId == old(requestId) && actor == old(actor) && responseHeaders == old(responseHeaders)
      ensures statusCode == old(statusCode)
    {
      nextCalls := nextCalls + 1;
    }
  }

  /** `requestContextMiddleware`: record the request id and the actor on the
    * request, echo both in the response headers, and pass the request on
    * once. */
  method RequestContextMiddleware(x: Exchange, freshId: string)
    modifies x
    ensures x.requestId == RequestIdOf(x.headers, freshId)
    ensures x.actor == ResolveActor(x.headers, x.body)
    ensures x.responseHeaders == old(x.responseHeaders)["x-request-id" := x.requestId]["x-actor" := x.actor]
    ensures x.nextCalls == old(x.nextCalls) + 1 && x.statusCode == old(x.statusCode)
  {
    var requestId := RequestIdOf(x.headers, freshId);
    var actor := ResolveActor(x.headers, x.body);
    x.requestId := requestId;
    x.actor := actor;
    x.responseHeaders := x.responseHeaders["x-request-id" := requestId];
    x.responseHeaders := x.responseHeaders["x-actor" := actor];
    x.Next();
  }
}
