/**
 * The HTTP side of the bridge service: `NECTVHandler.do_GET` and
 * `NECTVHandler.do_POST`, with the request and the response as values.
 *
 * `Handle` is the whole request-to-response map. It takes the display's
 * behaviour as an input and says whether `send_tv_command` was invoked
 * and whether the request body was read. `Serve` does the same step by step,
 * running the `SendTvCommand` method where `do_POST` calls it.
 */
module Bridge {
  import opened Wrappers
  import opened JsonData
  import opened UrlPath
  import opened Device

  /** The Content-Length header: absent, not something `int()` accepts, or a number. */
  datatype ContentLength = Missing | NotInteger | Numeric(n: int)

  /** What `json.loads` makes of the decoded body. */
  datatype ParsedBody = Malformed | Parsed(doc: Json)

  /** The body as read from the stream: not UTF-8, or UTF-8 text with its JSON parse. */
  datatype Payload = NotUtf8 | Utf8(parsed: ParsedBody)

  /** One request: the method name, `self.path`, the Content-Length header and the body. */
  datatype Request = Request(verb: string, target: string, contentLength: ContentLength, payload: Payload)

  /** No body, a JSON document, or http.server's own HTML error page. */
  datatype Body = NoBody | JsonBody(doc: Json) | ErrorPage

  datatype Response = Response(status: nat, body: Body)

  /** The exceptions `do_POST` does not catch. */
  datatype Crash = BadContentLength | BodyNotUtf8 | NotAnObject

  /** A response, or an exception that ends the connection before any response is written. */
  datatype Outcome = Replied(response: Response) | Aborted(cause: Crash)

  /** The outcome, whether the body was read, and the action `send_tv_command` was called with. */
  datatype Exchange = Exchange(outcome: Outcome, bodyRead: bool, command: Option<string>)

  const ServiceName: string := "NEC TV Control"
  const ServiceVersion: string := "1.0.0"

  /** GET /: service identity and the configured display address. */
  function InfoBody(addr: Address): Json
  {
    JObj([("name", JStr(ServiceName)), ("version", JStr(ServiceVersion)),
          ("tv_ip", JStr(addr.host)), ("tv_port", JNum(addr.port))])
  }

  /** GET /health. */
  function HealthBody(): Json
  {
    JObj([("status", JStr("healthy")), ("service", JStr(ServiceName)), ("version", JStr(ServiceVersion))])
  }

  /** GET /discovery: one device and its power switch entity. */
  function DiscoveryBody(addr: Address): Json
  {
    JObj([
      ("devices", JArr([JObj([
        ("identifiers", JArr([JStr("nec_tv_" + addr.host)])),
        ("name", JStr("NEC TV")),
        ("manufacturer", JStr("NEC")),
        ("model", JStr("Network TV")),
        ("sw_version", JStr(ServiceVersion))])])),
      ("entities", JArr([JObj([
        ("entity_id", JStr("switch.nec_tv_power")),
        ("name", JStr("NEC TV Power")),
        ("type", JStr("switch")),
        ("device_class", JStr("switch")),
        ("state_topic", JStr("nec_tv/state")),
        ("command_topic", JStr("nec_tv/power/set"))])]))])
  }

  function ErrorBody(message: string): Json
  {
    JObj([("error", JStr(message))])
  }

  /** The reply to a valid POST /power once `send_tv_command` has returned `success`. */
  function PowerResult(action: string, success: bool): Json
  {
    JObj([("success", JBool(success)), ("action", JStr(action)),
          ("message", JStr(if success then "TV power " + action + " command sent" else "Failed to send command"))])
  }

  const NotFound: Response := Response(404, NoBody)

  /** `do_GET`, on the path part of the request target. */
  function DoGet(addr: Address, path: string): (r: Response)
    ensures r.status == 200 || r == NotFound
  {
    if path == "/" then Response(200, JsonBody(InfoBody(addr)))
    else if path == "/health" then Response(200, JsonBody(HealthBody()))
    else if path == "/discovery" then Response(200, JsonBody(DiscoveryBody(addr)))
    else NotFound
  }

  /** What `do_POST` decides for /power before any device I/O. */
  datatype PowerCheck = Reject(response: Response) | Fail(cause: Crash) | Dispatch(action: string)

  /** The validation chain of `do_POST` for /power: header, length, decoding, JSON, action. */
  function CheckPower(contentLength: ContentLength, payload: Payload): (c: PowerCheck)
    ensures c.Reject? ==> c.response.status == 400 && c.response.body.JsonBody?
    ensures c.Dispatch? ==> c.action == "on" || c.action == "off"
  {
    match contentLength
    case Missing => Reject(Response(400, JsonBody(ErrorBody("Content-Length header required"))))
    case NotInteger => Fail(BadContentLength)
    case Numeric(_) =>
      match payload
      case NotUtf8 => Fail(BodyNotUtf8)
      case Utf8(Malformed) => Reject(Response(400, JsonBody(ErrorBody("Invalid JSON"))))
      case Utf8(Parsed(doc)) =>
        if !doc.JObj? then Fail(NotAnObject)
        else match Get(doc.fields, "action")
          case Some(JStr(a)) =>
            if a == "on" || a == "off" then Dispatch(a)
            else Reject(Response(400, JsonBody(ErrorBody("Invalid action"))))
          case _ => Reject(Response(400, JsonBody(ErrorBody("Invalid action"))))
  }

  /** POST /power: the validation chain, then one call of `send_tv_command` for a valid action. */
  function HandlePower(contentLength: ContentLength, payload: Payload, peer: Peer): (e: Exchange)
    ensures e.command.Some? ==> e.command.value == "on" || e.command.value == "off"
    ensures e.bodyRead <==> contentLength.Numeric?
  {
    match CheckPower(contentLength, payload)
    case Reject(r) => Exchange(Replied(r), contentLength.Numeric?, None)
    case Fail(c) => Exchange(Aborted(c), contentLength.Numeric?, None)
    case Dispatch(a) =>
      Exchange(Replied(Response(200, JsonBody(PowerResult(a, SendSucceeds(a, peer))))), true, Some(a))
  }

  /** A request routed by its method name and the path part of its target. */
  function Respond(addr: Address, verb: string, path: string, contentLength: ContentLength, payload: Payload, peer: Peer): (e: Exchange)
    ensures e.command.Some? ==> e.command.value == "on" || e.command.value == "off"
    ensures e.command.Some? ==> e.bodyRead
  {
    if verb == "GET" then Exchange(Replied(DoGet(addr, path)), false, None)
    else if verb == "POST" then
      if path != "/power" then Exchange(Replied(NotFound), false, None)
      else HandlePower(contentLength, payload, peer)
    else
      // BaseHTTPRequestHandler has no do_<verb> for any other method name.
      Exchange(Replied(Response(501, ErrorPage)), false, None)
  }

  /** One request handled against a display that behaves as `peer`. */
  function Handle(addr: Address, req: Request, peer: Peer): (e: Exchange)
    ensures e.command.Some? ==> e.command.value == "on" || e.command.value == "off"
  {
    Respond(addr, req.verb, ParsedPath(req.target), req.contentLength, req.payload, peer)
  }

  /** The trace a handled request leaves on the display connection. */
  function TraceOf(addr: Address, e: Exchange, peer: Peer): seq<Event>
  {
    match e.command
    case None => []
    case Some(a) => ExpectedTrace(addr, a, peer)
  }

  /** POST /power step by step, with the socket exchange run as a method. */
  method ServePower(addr: Address, contentLength: ContentLength, payload: Payload, peer: Peer)
    returns (outcome: Outcome, trace: seq<Event>)
    ensures outcome == HandlePower(contentLength, payload, peer).outcome
    ensures trace == TraceOf(addr, HandlePower(contentLength, payload, peer), peer)
  {
    trace := [];
    var check := CheckPower(contentLength, payload);
    match check {
      case Reject(r) =>
        outcome := Replied(r);
      case Fail(c) =>
        outcome := Aborted(c);
      case Dispatch(a) =>
        var success;
        success, trace := SendTvCommand(addr, a, peer);
        outcome := Replied(Response(200, JsonBody(PowerResult(a, success))));
    }
  }

  /** One request handled step by step: what is answered and what the display sees. */
  method Serve(addr: Address, req: Request, peer: Peer) returns (outcome: Outcome, trace: seq<Event>)
    ensures outcome == Handle(addr, req, peer).outcome
    ensures trace == TraceOf(addr, Handle(addr, req, peer), peer)
  {
    var path := ParsedPath(req.target);
    trace := [];
    if req.verb == "GET" {
      outcome := Replied(DoGet(addr, path));
    } else if req.verb == "POST" {
      if path != "/power" {
        outcome := Replied(NotFound);
      } else {
        outcome, trace := ServePower(addr, req.contentLength, req.payload, peer);
      }
    } else {
      outcome := Replied(Response(501, ErrorPage));
    }
  }

  /** A POST to /power: the only route that reads a body or reaches the display. */
  predicate IsPowerPost(req: Request)
  {
    req.verb == "POST" && ParsedPath(req.target) == "/power"
  }

  /** The header and body for which `send_tv_command(action)` is called, stated field by field. */
  predicate ValidPowerBody(contentLength: ContentLength, payload: Payload, action: string)
  {
    && contentLength.Numeric?
    && payload.Utf8? && payload.parsed.Parsed? && payload.parsed.doc.JObj?
    && Get(payload.parsed.doc.fields, "action") == Some(JStr(action))
    && (action == "on" || action == "off")
  }

  /** A POST to /power is handled by the power chain alone. */
  lemma PowerRoute(addr: Address, req: Request, peer: Peer)
    requires IsPowerPost(req)
    ensures Handle(addr, req, peer) == HandlePower(req.contentLength, req.payload, peer)
  {
  }

  /** The power chain sends a command exactly for a valid body, and with its action. */
  lemma PowerCommandIffValid(contentLength: ContentLength, payload: Payload, peer: Peer, action: string)
    ensures HandlePower(contentLength, payload, peer).command == Some(action)
      <==> ValidPowerBody(contentLength, payload, action)
  {
  }

  /** Over all requests, a command is sent exactly for a valid POST /power, and with its action. */
  lemma CommandIffValid(addr: Address, req: Request, peer: Peer, action: string)
    ensures Handle(addr, req, peer).command == Some(action)
      <==> IsPowerPost(req) && ValidPowerBody(req.contentLength, req.payload, action)
  {
    if IsPowerPost(req) {
      PowerRoute(addr, req, peer);
      PowerCommandIffValid(req.contentLength, req.payload, peer, action);
    }
  }

  /** No Content-Length: 400, body not read, nothing sent. */
  lemma MissingContentLength(payload: Payload, peer: Peer)
    ensures HandlePower(Missing, payload, peer)
      == Exchange(Replied(Response(400, JsonBody(ErrorBody("Content-Length header required")))), false, None)
  {
  }

  /** A body that is UTF-8 but not JSON: 400 "Invalid JSON", nothing sent. */
  lemma InvalidJson(n: int, peer: Peer)
    ensures HandlePower(Numeric(n), Utf8(Malformed), peer)
      == Exchange(Replied(Response(400, JsonBody(ErrorBody("Invalid JSON")))), true, None)
  {
  }

  /** A JSON object whose `action` is absent or not the string "on" or "off": 400 "Invalid action", nothing sent. */
  lemma InvalidAction(n: int, fields: seq<(string, Json)>, peer: Peer)
    requires Get(fields, "action") != Some(JStr("on")) && Get(fields, "action") != Some(JStr("off"))
    ensures HandlePower(Numeric(n), Utf8(Parsed(JObj(fields))), peer)
      == Exchange(Replied(Response(400, JsonBody(ErrorBody("Invalid action")))), true, None)
  {
  }

  /**
   * The three failures `do_POST` does not catch: a Content-Length `int()`
   * rejects, a body that is not UTF-8, and JSON that is not an object. No
   * response is written and nothing is sent.
   */
  lemma UncaughtErrors(contentLength: ContentLength, payload: Payload, peer: Peer)
    requires || contentLength == NotInteger
             || (contentLength.Numeric? && payload == NotUtf8)
             || (contentLength.Numeric? && payload.Utf8? && payload.parsed.Parsed? && !payload.parsed.doc.JObj?)
    ensures HandlePower(contentLength, payload, peer).command == None
    ensures HandlePower(contentLength, payload, peer).outcome
      == Aborted(if contentLength == NotInteger then BadContentLength
                 else if payload == NotUtf8 then BodyNotUtf8
                 else NotAnObject)
  {
  }

  /** The members of the reply to a POST /power. */
  lemma PowerResultMembers(action: string, success: bool)
    ensures var fields := PowerResult(action, success).fields;
      && Get(fields, "success") == Some(JBool(success))
      && Get(fields, "action") == Some(JStr(action))
      && Get(fields, "message") == Some(JStr(if success then "TV power " + action + " command sent"
                                             else "Failed to send command"))
  {
    var fields := PowerResult(action, success).fields;
    assert fields[..2] == fields[..3][..2] && fields[..1] == fields[..2][..1];
    assert "message" != "success" && "message" != "action" by { assert "message"[0] == 'm'; }
    assert "action" != "success" by { assert "action"[0] == 'a'; }
    assert Get(fields[..1], "success") == Some(JBool(success));
    assert Get(fields[..2], "success") == Some(JBool(success));
    assert Get(fields[..2], "action") == Some(JStr(action));
  }

  /**
   * A valid action is sent once and always answered with 200: `success` is
   * what the send reported, the action is echoed, and the message says which.
   */
  lemma ValidActionAnswered(contentLength: ContentLength, payload: Payload, peer: Peer, action: string)
    requires ValidPowerBody(contentLength, payload, action)
    ensures HandlePower(contentLength, payload, peer)
      == Exchange(Replied(Response(200, JsonBody(PowerResult(action, SendSucceeds(action, peer))))), true, Some(action))
  {
  }

  /**
   * Only GET /, /health, /discovery and POST /power are routes; any other
   * path under GET or POST is 404 with an empty body, and any other method
   * is refused with 501 by http.server.
   */
  lemma Routing(addr: Address, req: Request, peer: Peer)
    ensures var path := ParsedPath(req.target);
      Handle(addr, req, peer).outcome == Replied(NotFound) <==>
        || (req.verb == "GET" && path != "/" && path != "/health" && path != "/discovery")
        || (req.verb == "POST" && path != "/power")
    ensures req.verb != "GET" && req.verb != "POST"
      ==> Handle(addr, req, peer) == Exchange(Replied(Response(501, ErrorPage)), false, None)
    ensures !IsPowerPost(req) ==> Handle(addr, req, peer).command == None && !Handle(addr, req, peer).bodyRead
  {
  }

  /** This revision has no GET /power: it is 404. */
  lemma GetPowerNotFound(addr: Address, req: Request, peer: Peer)
    requires req.verb == "GET" && ParsedPath(req.target) == "/power"
    ensures Handle(addr, req, peer) == Exchange(Replied(NotFound), false, None)
  {
  }

  /** GET /health is the same constant reply whatever the display's address or behaviour. */
  lemma HealthIsConstant(addr: Address, req: Request, peer: Peer)
    requires req.verb == "GET" && ParsedPath(req.target) == "/health"
    ensures Handle(addr, req, peer) == Exchange(Replied(Response(200, JsonBody(HealthBody()))), false, None)
  {
  }

  /** The health reply reports the service as healthy. */
  lemma HealthReportsHealthy()
    ensures Get(HealthBody().fields, "status") == Some(JStr("healthy"))
  {
    var fields := HealthBody().fields;
    assert fields[..2] == fields[..3][..2] && fields[..1] == fields[..2][..1];
    assert "version" != "status" && "service" != "status";
    assert Get(fields[..2], "status") == Some(JStr("healthy"));
  }

  /** GET / answers with the service identity. */
  lemma InfoRoute(addr: Address, req: Request, peer: Peer)
    requires req.verb == "GET" && ParsedPath(req.target) == "/"
    ensures Handle(addr, req, peer) == Exchange(Replied(Response(200, JsonBody(InfoBody(addr)))), false, None)
  {
  }

  /** The identity reply echoes the configured display address. */
  lemma InfoEchoesAddress(addr: Address)
    ensures Get(InfoBody(addr).fields, "tv_ip") == Some(JStr(addr.host))
    ensures Get(InfoBody(addr).fields, "tv_port") == Some(JNum(addr.port))
  {
    var fields := InfoBody(addr).fields;
    assert fields[..3] == fields[..4][..3];
    assert "tv_port" != "tv_ip";
    assert Get(fields[..3], "tv_ip") == Some(JStr(addr.host));
  }

  /** A query string or fragment does not change how a request is handled. */
  lemma QueryDoesNotChangeRoute(addr: Address, req: Request, peer: Peer, path: string, suffix: string)
    requires |path| > 0 && path[0] == '/' && '?' !in path && '#' !in path
    requires |suffix| > 0 && (suffix[0] == '?' || suffix[0] == '#')
    ensures Handle(addr, req.(target := path + suffix), peer) == Handle(addr, req.(target := path), peer)
  {
    QueryIgnored(path, suffix);
  }
}
