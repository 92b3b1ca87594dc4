/** The `/api/shorten` route (pages/api/shorten.js): a stateless
    validate-and-forward proxy in front of the shortening worker.

    The request body, the worker's reply and the `URL` constructor are all
    inputs: the body is a JSON value or absent, the worker either answers
    with a status and a body that may fail to parse as JSON or the `fetch`
    itself throws, and `parses(v)` says whether `new URL(v)` accepts `v`. The
    handler is a pure function from these to the one response it sends and
    the body, if any, it forwards to the worker. */
module Shorten {
  import opened Wrappers

  /** A JSON value. Numbers are integers here; objects keep their members in
      source order, duplicates included. */
  datatype Json =
    | JNull
    | JBool(b: bool)
    | JNum(n: int)
    | JStr(s: string)
    | JArr(items: seq<Json>)
    | JObj(members: seq<(string, Json)>)

  /** The worker's side of the `fetch`: either the call throws, or a reply
      arrives with a status and a body whose `response.json()` yields the
      value, or `None` when that call throws. */
  datatype Upstream = FetchThrows | Reply(status: int, payload: Option<Json>)

  /** What the handler does: the response status and JSON body, and the body
      forwarded to the worker (`None` when the worker is not contacted). */
  datatype Outcome = Outcome(status: int, body: Json, forwarded: Option<Json>)

  /** Reading a property of a JavaScript value: `null` and `undefined` throw;
      otherwise the read yields a value or `undefined` (`Value(None)`). */
  datatype Access = Throws | Value(v: Option<Json>)

  const MethodNotAllowed: string := "Method not allowed"
  const UrlRequired: string := "URL is required"
  const InvalidUrl: string := "Invalid URL format"
  const ShortenFailed: string := "Failed to shorten URL"
  const InternalError: string := "Internal server error"

  /** JavaScript truthiness: `undefined`, `null`, `false`, `0` and `""` are
      falsy, every other value (arrays and objects included) is truthy. */
  predicate Truthy(v: Option<Json>)
  {
    match v
    case None => false
    case Some(JNull) => false
    case Some(JBool(b)) => b
    case Some(JNum(n)) => n != 0
    case Some(JStr(s)) => s != ""
    case Some(_) => true
  }

  /** The value of member `name` in a member list; a later duplicate wins, as
      with `JSON.parse`. */
  function Member(members: seq<(string, Json)>, name: string): (r: Option<Json>)
    ensures r.Some? <==> exists i :: 0 <= i < |members| && members[i].0 == name
    ensures r.Some? ==> exists i :: (0 <= i < |members| && members[i] == (name, r.value) &&
                                     forall j :: i < j < |members| ==> members[j].0 != name)
  {
    if |members| == 0 then None
    else if members[|members| - 1].0 == name then Some(members[|members| - 1].1)
    else Member(members[..|members| - 1], name)
  }

  /** `v.name` for a value `v` that may be absent: an object yields its
      member of that name, if any. This is JavaScript's behaviour only for
      names that no prototype defines, such as the `originalUrl` and `error`
      the route reads; inherited names (`length` on strings and arrays,
      `constructor`, ...) are not represented. */
  function Property(v: Option<Json>, name: string): (r: Access)
    ensures r.Throws? <==> v.None? || v == Some(JNull)
    ensures v.Some? && v.value.JObj? ==> r == Value(Member(v.value.members, name))
    ensures v.Some? && !v.value.JObj? ==> r == Throws || r == Value(None)
  {
    match v
    case None => Throws
    case Some(JNull) => Throws
    case Some(JObj(members)) => Value(Member(members, name))
    case Some(_) => Value(None)
  }

  /** The `{ message }` body of an error response. */
  function Message(text: Json): Json
  {
    JObj([("message", text)])
  }

  /** The message of a non-ok worker reply: the reply's `error` property when
      the body parses and that property is truthy, the generic failure text
      otherwise (including a body whose `error` cannot be read). */
  function FailureMessage(payload: Option<Json>): (m: Json)
    ensures m == JStr(ShortenFailed) || (payload.Some? && Property(payload, "error") == Value(Some(m)))
    ensures Truthy(Some(m))
    ensures HasTruthyError(payload) ==> m == Property(payload, "error").v.value
    ensures !HasTruthyError(payload) ==> m == JStr(ShortenFailed)
  {
    if payload.None? then JStr(ShortenFailed)
    else match Property(payload, "error")
      case Value(e) => if Truthy(e) then e.value else JStr(ShortenFailed)
      case Throws => JStr(ShortenFailed)
  }

  /** The worker's reply body parses and its `error` property is truthy. */
  predicate HasTruthyError(payload: Option<Json>)
  {
    payload.Some? && Property(payload, "error").Value? && Truthy(Property(payload, "error").v)
  }

  /** `response.ok`: a status in the 200 range. */
  predicate IsOk(status: int)
  {
    200 <= status <= 299
  }

  /** The route handler. */
  function Handle(verb: string, body: Option<Json>, parses: Json -> bool, upstream: Upstream): (r: Outcome)
    // Any method but POST is refused before anything else is looked at.
    ensures verb != "POST" ==> r == Outcome(405, Message(JStr(MethodNotAllowed)), None)
    // A body that cannot be destructured throws into the catch-all.
    ensures verb == "POST" && Property(body, "originalUrl").Throws? ==>
      r == Outcome(500, Message(JStr(InternalError)), None)
    // A missing or falsy URL, then an unparsable one, is a bad request.
    ensures verb == "POST" && Property(body, "originalUrl").Value? ==>
      var url := Property(body, "originalUrl").v;
      (!Truthy(url) ==> r == Outcome(400, Message(JStr(UrlRequired)), None)) &&
      (Truthy(url) && !parses(url.value) ==> r == Outcome(400, Message(JStr(InvalidUrl)), None))
    // The worker is contacted exactly for a POST with a present, parsable
    // URL, and is sent exactly that URL.
    ensures r.forwarded.Some? <==>
      verb == "POST" && Property(body, "originalUrl").Value? &&
      Truthy(Property(body, "originalUrl").v) && parses(Property(body, "originalUrl").v.value)
    ensures r.forwarded.Some? ==>
      r.forwarded == Some(JObj([("originalUrl", Property(body, "originalUrl").v.value)]))
  {
    if verb != "POST" then Outcome(405, Message(JStr(MethodNotAllowed)), None)
    else match Property(body, "originalUrl")
      case Throws => Outcome(500, Message(JStr(InternalError)), None)
      case Value(url) =>
        if !Truthy(url) then Outcome(400, Message(JStr(UrlRequired)), None)
        else if !parses(url.value) then Outcome(400, Message(JStr(InvalidUrl)), None)
        else
          var sent := Some(JObj([("originalUrl", url.value)]));
          match upstream
          case FetchThrows => Outcome(500, Message(JStr(InternalError)), sent)
          case Reply(status, payload) =>
            if !IsOk(status) then Outcome(status, Message(FailureMessage(payload)), sent)
            else if payload.None? then Outcome(500, Message(JStr(InternalError)), sent)
            else Outcome(201, payload.value, sent)
  }

  /** Whether the request gets past validation to the worker. */
  predicate Forwards(verb: string, body: Option<Json>, parses: Json -> bool)
  {
    var url := Property(body, "originalUrl");
    verb == "POST" && url.Value? && Truthy(url.v) && parses(url.v.value)
  }

  /** The worker's answer matters only when the worker is contacted: a
      request that fails validation gets the same response whatever the
      worker would have said. */
  lemma UpstreamIgnoredUnlessForwarded(verb: string, body: Option<Json>, parses: Json -> bool, u1: Upstream, u2: Upstream)
    requires !Forwards(verb, body, parses)
    ensures Handle(verb, body, parses, u1) == Handle(verb, body, parses, u2)
    ensures Handle(verb, body, parses, u1).forwarded.None?
  {
  }

  /** How a forwarded request's response follows from the worker's answer:
      201 with the worker's body passed through unchanged exactly when the
      worker answers ok with a parsable body; the worker's own status with a
      message when it answers not ok; 500 when the `fetch` or the parse of an
      ok body throws. */
  lemma ForwardedResponse(verb: string, body: Option<Json>, parses: Json -> bool, upstream: Upstream)
    requires Forwards(verb, body, parses)
    ensures var r := Handle(verb, body, parses, upstream);
      && (r.status == 201 <==> upstream.Reply? && IsOk(upstream.status) && upstream.payload.Some?)
      && (r.status == 201 ==> r.body == upstream.payload.value)
      && (upstream.Reply? && !IsOk(upstream.status) ==>
            r.status == upstream.status && r.body == Message(FailureMessage(upstream.payload)))
      && (upstream.FetchThrows? || (IsOk(upstream.status) && upstream.payload.None?) ==>
            r == Outcome(500, Message(JStr(InternalError)), r.forwarded))
  {
  }

  /** A failing worker reply is relayed with the worker's own status: its
      truthy `error` becomes the message, and anything else (no `error`, a
      falsy one, a body that is not JSON or is `null`) gives the generic
      failure text. */
  lemma WorkerErrorRelayed(verb: string, body: Option<Json>, parses: Json -> bool, status: int, payload: Option<Json>)
    requires Forwards(verb, body, parses)
    requires !IsOk(status)
    ensures var r := Handle(verb, body, parses, Reply(status, payload));
      && r.status == status
      && (HasTruthyError(payload) ==> r.body == Message(Property(payload, "error").v.value))
      && (!HasTruthyError(payload) ==> r.body == Message(JStr(ShortenFailed)))
  {
  }

  /** Every response other than 201 carries a truthy `message`, and its
      status is one of the handler's own codes or the worker's failing
      status. */
  lemma ErrorResponsesHaveMessage(verb: string, body: Option<Json>, parses: Json -> bool, upstream: Upstream)
    ensures var r := Handle(verb, body, parses, upstream);
      r.status != 201 ==>
        && r.body.JObj?
        && Member(r.body.members, "message").Some?
        && Truthy(Member(r.body.members, "message"))
        && (r.status in {400, 405, 500} || (upstream.Reply? && !IsOk(upstream.status) && r.status == upstream.status))
  {
  }
}
