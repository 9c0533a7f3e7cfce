/**
 * The switch entity and the bridge service together: the entity's POST
 * reaches `Handle` as a request, and the bridge's outcome comes back to the
 * entity as its reply.
 */
module Integration {
  import opened Wrappers
  import opened JsonData
  import opened UrlPath
  import opened Device
  import opened Bridge
  import opened Switch

  /**
   * The request the bridge receives for the entity's POST: the request line
   * carries the URL's path, the body is the JSON document as text of
   * `bodyLength` bytes, with its Content-Length.
   */
  function RequestOf(post: Post, bodyLength: nat): Request
  {
    Request("POST", ParsedPath(post.url), Numeric(bodyLength), Utf8(Parsed(post.doc)))
  }

  /**
   * The bridge's outcome as the entity sees it: an uncaught exception closes
   * the connection, which makes `session.post` raise; a reply without a JSON
   * body makes `response.json()` raise.
   */
  function ReplyOf(outcome: Outcome): Reply
  {
    match outcome
    case Aborted(_) => Raised
    case Replied(r) =>
      Answered(r.status, match r.body
                         case JsonBody(doc) => Doc(doc)
                         case _ => NotJson)
  }

  /** Lower-casing leaves a string without upper-case letters unchanged. */
  lemma {:induction false} LowerUnchanged(s: string)
    requires forall i | 0 <= i < |s| :: !('A' <= s[i] <= 'Z')
    ensures Lower(s) == s
  {
    if s != [] {
      LowerUnchanged(s[1..]);
      assert [s[0]] + s[1..] == s;
    }
  }

  /** With no stop character in `s`, the first stop is at its end. */
  lemma NoStop(s: string, stops: set<char>)
    requires forall i | 0 <= i < |s| :: s[i] !in stops
    ensures FirstIndex(s, stops) == |s|
  {
  }

  /** An "http" URL splits into its scheme and what follows the ':'. */
  lemma HttpScheme(authority: string, path: string)
    ensures SplitScheme("http://" + authority + path) == ("http", "//" + authority + path)
  {
    var url := "http://" + authority + path;
    var tail := "//" + authority + path;
    assert url == "http" + (":" + tail);
    FirstIndexAppend("http", ":" + tail, {':'});
    NoStop("http", {':'});
    LowerUnchanged("http");
    assert url[..4] == "http";
    assert url[5..] == tail;
  }

  /** After an authority without '/', '?' or '#' comes the path "/power". */
  lemma PowerAfterAuthority(authority: string)
    requires forall i | 0 <= i < |authority| :: authority[i] != '/' && authority[i] != '?' && authority[i] != '#'
    ensures AfterAuthority("//" + authority + "/power") == "/power"
  {
    var tail := "//" + authority + "/power";
    var d := {'/', '?', '#'};
    assert tail[2..] == authority + "/power";
    FirstIndexAppend(authority, "/power", d);
    NoStop(authority, d);
    assert tail[2 + |authority|..] == "/power";
  }

  /** "/power" has no query, fragment or parameters to strip. */
  lemma PowerPathPart(scheme: string)
    ensures PathPart(scheme, "/power") == "/power"
  {
    NoStop("/power", {'?', '#'});
    assert ';' !in "/power";
  }

  /** The origin-form target "/power" parses to itself. */
  lemma PowerTargetPath()
    ensures ParsedPath("/power") == "/power"
  {
    assert SplitScheme("/power") == ("", "/power");
    assert AfterAuthority("/power") == "/power";
    PowerPathPart("");
  }

  /** `http://<authority>/power` has the path "/power". */
  lemma HttpPowerPath(authority: string)
    requires forall i | 0 <= i < |authority| :: authority[i] != '/' && authority[i] != '?' && authority[i] != '#'
    ensures ParsedPath("http://" + authority + "/power") == "/power"
  {
    HttpScheme(authority, "/power");
    PowerAfterAuthority(authority);
    PowerPathPart("http");
  }

  /**
   * The URL the entity posts to has path "/power" whatever the port, as
   * long as the configured host has no '/', '?' or '#' in it.
   */
  lemma PowerUrlPath(host: string, port: int)
    requires forall i | 0 <= i < |host| :: host[i] != '/' && host[i] != '?' && host[i] != '#'
    ensures ParsedPath(PowerUrl(host, port)) == "/power"
  {
    var authority := host + ":" + IntToString(port);
    assert PowerUrl(host, port) == "http://" + authority + "/power";
    HttpPowerPath(authority);
  }

  /** The entity reads the bridge's 200 reply: it adopts the action exactly when `success` is true. */
  lemma EntityReadsPowerResult(isOn: bool, action: string, success: bool)
    ensures NextIsOn(isOn, action, ReplyOf(Replied(Response(200, JsonBody(PowerResult(action, success))))))
      == if success then action == "on" else isOn
  {
    PowerResultMembers(action, success);
  }

  /** The bridge's handling of the entity's request, once its target is "/power". */
  lemma BridgeHandlesEntityPost(action: string, bodyLength: nat, addr: Address, peer: Peer)
    requires action == "on" || action == "off"
    ensures Handle(addr, Request("POST", "/power", Numeric(bodyLength), Utf8(Parsed(ActionDoc(action)))), peer)
      == Exchange(Replied(Response(200, JsonBody(PowerResult(action, SendSucceeds(action, peer))))), true, Some(action))
  {
    var req := Request("POST", "/power", Numeric(bodyLength), Utf8(Parsed(ActionDoc(action))));
    PowerTargetPath();
    PowerRoute(addr, req, peer);
    assert Get(ActionDoc(action).fields, "action") == Some(JStr(action));
    ValidActionAnswered(req.contentLength, req.payload, peer, action);
  }

  /**
   * Switching through the bridge: a POST of "on" or "off" from the entity
   * sends exactly that command to the display, and afterwards the entity
   * believes the display is in the requested state exactly when the socket
   * exchange succeeded; otherwise it keeps its earlier belief.
   */
  lemma EndToEnd(isOn: bool, host: string, port: int, action: string, bodyLength: nat, addr: Address, peer: Peer)
    requires forall i | 0 <= i < |host| :: host[i] != '/' && host[i] != '?' && host[i] != '#'
    requires action == "on" || action == "off"
    ensures var e := Handle(addr, RequestOf(Post(PowerUrl(host, port), ActionDoc(action)), bodyLength), peer);
      && e.command == Some(action)
      && NextIsOn(isOn, action, ReplyOf(e.outcome)) == if SendSucceeds(action, peer) then action == "on" else isOn
  {
    PowerUrlPath(host, port);
    assert RequestOf(Post(PowerUrl(host, port), ActionDoc(action)), bodyLength)
      == Request("POST", "/power", Numeric(bodyLength), Utf8(Parsed(ActionDoc(action))));
    BridgeHandlesEntityPost(action, bodyLength, addr, peer);
    EntityReadsPowerResult(isOn, action, SendSucceeds(action, peer));
  }

  /**
   * One press of the switch, run through both sides: the entity's request is
   * served by the bridge and the entity takes the bridge's outcome as its reply.
   */
  method Press(sw: PowerSwitch, action: string, bodyLength: nat, addr: Address, peer: Peer)
    returns (trace: seq<Event>)
    requires forall i | 0 <= i < |sw.host| :: sw.host[i] != '/' && sw.host[i] != '?' && sw.host[i] != '#'
    requires action == "on" || action == "off"
    modifies sw
    ensures trace == ExpectedTrace(addr, action, peer)
    ensures sw.isOn == if SendSucceeds(action, peer) then action == "on" else old(sw.isOn)
  {
    var req := RequestOf(Post(PowerUrl(sw.host, sw.port), ActionDoc(action)), bodyLength);
    EndToEnd(sw.isOn, sw.host, sw.port, action, bodyLength, addr, peer);
    var outcome;
    outcome, trace := Serve(addr, req, peer);
    var post := sw.SendCommand(action, ReplyOf(outcome));
  }
}
