/**
 * The edge handler of src/app/api/chat.ts: the checks made before anything is
 * streamed (method, API key, request body, upstream answer), and the
 * composition of those checks with the relay loop of module Relay.
 */
module Gateway {
  import opened Options
  import opened Http
  import opened Sse
  import opened Relay

  /**
   * What `await req.json().catch(() => ({ messages: [] }))` followed by
   * `const { messages } = ...` sees: a body that is not JSON at all, the JSON
   * value `null` (whose destructuring throws), or any other JSON value, whose
   * `messages` member is an array (its elements, as JSON texts) or not.
   */
  datatype RequestBody = Unreadable | JsonNull | JsonValue(messages: Option<seq<string>>)

  /** The incoming request: its HTTP method and its body. */
  datatype Request = Request(verb: string, body: RequestBody)

  /** The request sent to the model provider. */
  datatype Outbound = Outbound(
    url: string, contentType: string, authorization: string, title: string,
    model: string, messages: seq<string>, stream: bool)

  /**
   * What `await fetch(...)` gives: a rejection (network failure), or a
   * response with its status, its text, and its body stream when it has one.
   */
  datatype FetchOutcome = Rejects | Answer(status: nat, text: string, body: Option<Upstream>)

  /** What the handler does before any streaming: answer, throw, or stream the upstream body. */
  datatype Verdict = Respond(status: nat, contentType: string, text: string) | Throws | Stream(up: Upstream)

  /** What the client receives: a plain answer, a failure of the handler itself, or the event stream. */
  datatype Response =
    | Plain(status: nat, contentType: string, text: string)
    | Failed
    | EventStream(status: nat, contentType: string, cacheControl: string, events: seq<Event>)

  const PlainText: string := "text/plain;charset=UTF-8"
  const Json: string := "application/json"
  const EventStreamType: string := "text/event-stream; charset=utf-8"
  const NoCache: string := "no-cache, no-transform"
  const MissingKeyError: string := "{\"error\":\"Missing OPENROUTER_API_KEY\"}"
  const MessagesError: string := "{\"error\":\"messages[] required\"}"

  /** `!key`: the variable is unset or empty. */
  predicate KeyMissing(key: Option<string>) {
    key.None? || key.value == ""
  }

  /** The `messages` the handler goes on with: `[]` for an unreadable body, `None` when it is not an array. */
  function Messages(body: RequestBody): (m: Option<seq<string>>)
    requires !body.JsonNull?
  {
    match body
    case Unreadable => Some([])
    case JsonValue(m) => m
  }

  /** The upstream request: the chat completions endpoint, the key as a bearer token, the messages as given, streaming on. */
  function UpstreamRequest(key: string, messages: seq<string>): (o: Outbound) {
    Outbound("https://openrouter.ai/api/v1/chat/completions", Json, "Bearer " + key, "DVV Agent",
      "openai/gpt-4o", messages, true)
  }

  /**
   * A status the `Response` constructor accepts together with a body: in the
   * range 200 to 599, and not a null body status (101, 103, 204, 205, 304),
   * as the `Response` class of the WHATWG Fetch Standard requires. Any other
   * status makes `new Response(text, { status })` throw.
   */
  predicate Constructible(status: nat) {
    200 <= status <= 599 && status !in {101, 103, 204, 205, 304}
  }

  /** Lines 4-36 of the handler, with the environment key and `fetch` as parameters. */
  function Gate(req: Request, key: Option<string>, fetch: Outbound -> FetchOutcome): (v: Verdict)
  {
    if req.verb != "POST" then Respond(405, PlainText, "POST only")
    else if KeyMissing(key) then Respond(401, Json, MissingKeyError)
    else if req.body.JsonNull? then Throws
    else if Messages(req.body).None? then Respond(400, Json, MessagesError)
    else
      match fetch(UpstreamRequest(key.value, Messages(req.body).value))
      case Rejects => Throws
      case Answer(status, text, body) =>
        if !Ok(status) || body.None? then
          if Constructible(status) then Respond(status, Json, text) else Throws
        else Stream(body.value)
  }

  /**
   * The handler streams exactly when the request is a POST, the key is set,
   * `messages` is an array (or the body unreadable), and the upstream answered
   * with an ok status and a body; the streamed body is the upstream's own.
   */
  lemma StreamsExactlyWhenAccepted(req: Request, key: Option<string>, fetch: Outbound -> FetchOutcome)
    ensures Gate(req, key, fetch).Stream? <==>
      req.verb == "POST" && !KeyMissing(key) && !req.body.JsonNull? && Messages(req.body).Some?
      && var a := fetch(UpstreamRequest(key.value, Messages(req.body).value));
         a.Answer? && Ok(a.status) && a.body.Some? && Gate(req, key, fetch).up == a.body.value
  {
  }

  /** The checks come in order: any method but POST is refused first, whatever the key and body. */
  lemma MethodCheckedFirst(req: Request, key: Option<string>, fetch: Outbound -> FetchOutcome)
    requires req.verb != "POST"
    ensures Gate(req, key, fetch) == Respond(405, PlainText, "POST only")
  {
  }

  /** A POST without a key is refused with 401 whatever its body, and the upstream is never asked. */
  lemma MissingKeyRefused(body: RequestBody, key: Option<string>, fetch: Outbound -> FetchOutcome)
    requires KeyMissing(key)
    ensures Gate(Request("POST", body), key, fetch) == Respond(401, Json, MissingKeyError)
  {
  }

  /**
   * The answers given before the upstream is asked do not depend on what the
   * upstream would answer: `fetch` is only called once all checks passed.
   */
  lemma RefusalsPrecedeFetch(req: Request, key: Option<string>, f1: Outbound -> FetchOutcome, f2: Outbound -> FetchOutcome)
    requires req.verb != "POST" || KeyMissing(key) || req.body.JsonNull? || Messages(req.body).None?
    ensures Gate(req, key, f1) == Gate(req, key, f2)
    ensures Gate(req, key, f1) != Throws ==> Gate(req, key, f1).Respond? && Gate(req, key, f1).status in {400, 401, 405}
  {
  }

  /** A body that is not JSON is handled exactly as `{ "messages": [] }`: accepted, with no messages forwarded. */
  lemma UnreadableBodyIsEmptyMessages(verb: string, key: Option<string>, fetch: Outbound -> FetchOutcome)
    ensures Gate(Request(verb, Unreadable), key, fetch) == Gate(Request(verb, JsonValue(Some([]))), key, fetch)
  {
  }

  /** The upstream is asked with the key as a bearer token and the client's messages unchanged. */
  lemma ForwardsMessagesUnchanged(key: string, messages: seq<string>)
    ensures UpstreamRequest(key, messages).authorization == "Bearer " + key
    ensures UpstreamRequest(key, messages).messages == messages && UpstreamRequest(key, messages).stream
  {
  }

  /**
   * A failed upstream answer is mirrored: its status and its text go back to
   * the client as JSON, unless the `Response` constructor refuses that status
   * with a body, in which case the handler throws.
   */
  lemma UpstreamFailureMirrored(req: Request, key: Option<string>, fetch: Outbound -> FetchOutcome)
    requires req.verb == "POST" && !KeyMissing(key) && !req.body.JsonNull? && Messages(req.body).Some?
    requires fetch(UpstreamRequest(key.value, Messages(req.body).value)).Answer?
    requires !Ok(fetch(UpstreamRequest(key.value, Messages(req.body).value)).status)
    ensures var a := fetch(UpstreamRequest(key.value, Messages(req.body).value));
      Gate(req, key, fetch) == if Constructible(a.status) then Respond(a.status, Json, a.text) else Throws
  {
  }

  /**
   * An ok answer without a body (a 204 or 205, say) is mirrored only when the
   * status may carry a body: a null body status makes the handler throw.
   */
  lemma BodilessAnswerMirrored(req: Request, key: Option<string>, fetch: Outbound -> FetchOutcome)
    requires req.verb == "POST" && !KeyMissing(key) && !req.body.JsonNull? && Messages(req.body).Some?
    requires var a := fetch(UpstreamRequest(key.value, Messages(req.body).value));
      a.Answer? && Ok(a.status) && a.body.None?
    ensures var a := fetch(UpstreamRequest(key.value, Messages(req.body).value));
      Gate(req, key, fetch) == if a.status in {204, 205} then Throws else Respond(a.status, Json, a.text)
  {
  }

  /**
   * The whole handler: the gate, then, when it lets the request through, the
   * relay run to completion on a fresh writer, whose events become the body of
   * a 200 event-stream response.
   */
  method Handle(req: Request, key: Option<string>, fetch: Outbound -> FetchOutcome, parse: string -> Payload)
    returns (resp: Response)
    ensures Gate(req, key, fetch).Respond? ==>
      resp == Plain(Gate(req, key, fetch).status, Gate(req, key, fetch).contentType, Gate(req, key, fetch).text)
    ensures Gate(req, key, fetch).Throws? ==> resp == Failed
    ensures Gate(req, key, fetch).Stream? ==>
      var up := Gate(req, key, fetch).up;
      resp == EventStream(200, EventStreamType, NoCache, Relayed(Concat(up.chunks), up.end, RelayRule(parse)))
  {
    var verdict := Gate(req, key, fetch);
    match verdict {
      case Respond(status, contentType, text) =>
        resp := Plain(status, contentType, text);
      case Throws =>
        resp := Failed;
      case Stream(up) =>
        var w := new Writer();
        Pump(up, parse, w);
        RunMatchesReference("", up.chunks, up.end, RelayRule(parse));
        assert "" + Concat(up.chunks) == Concat(up.chunks);
        resp := EventStream(200, EventStreamType, NoCache, w.events);
    }
  }
}
