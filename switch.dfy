/**
 * The Home Assistant switch entity `NECTVSwitch`: it posts `{"action": ...}`
 * to the bridge's /power route and believes the display is on or off only
 * after the bridge confirms the command. The HTTP round trip is outside
 * the entity; it reaches it as the `Reply` parameter.
 */
module Switch {
  import opened Wrappers
  import opened JsonData

  /** What `session.post` produced: an exception, or a status and the result of `response.json()`. */
  datatype Reply = Raised | Answered(status: int, body: ReplyBody)

  /** `response.json()` raises (not JSON), or yields a document. */
  datatype ReplyBody = NotJson | Doc(doc: Json)

  /** A POST as the entity issues it: the URL and the JSON document sent. */
  datatype Post = Post(url: string, doc: Json)

  const EntityName: string := "NEC TV Power"

  function DigitChar(d: nat): (c: char)
    requires d < 10
    ensures '0' <= c <= '9'
  {
    (d + '0' as int) as char
  }

  /** `str(n)` for a natural number: decimal digits, most significant first. */
  function NatToString(n: nat): (s: string)
    ensures |s| > 0
    ensures forall i | 0 <= i < |s| :: '0' <= s[i] <= '9'
  {
    if n < 10 then [DigitChar(n)] else NatToString(n / 10) + [DigitChar(n % 10)]
  }

  /** `str(n)` for any integer. */
  function IntToString(n: int): (s: string)
    ensures |s| > 0
    ensures forall i | 0 <= i < |s| :: '0' <= s[i] <= '9' || s[i] == '-'
  {
    if n < 0 then "-" + NatToString(-n) else NatToString(n)
  }

  /** The value of a string of decimal digits, read most significant first. */
  function DecimalValue(s: string): nat
    requires forall i | 0 <= i < |s| :: '0' <= s[i] <= '9'
  {
    if s == [] then 0 else 10 * DecimalValue(s[..|s| - 1]) + (s[|s| - 1] as int - '0' as int)
  }

  /** The decimal text of a port reads back as that port. */
  lemma {:induction false} NatToStringRoundTrip(n: nat)
    ensures DecimalValue(NatToString(n)) == n
  {
    if n >= 10 {
      var s := NatToString(n);
      assert s[..|s| - 1] == NatToString(n / 10);
      NatToStringRoundTrip(n / 10);
    }
  }

  /** `f"http://{host}:{port}/power"`. */
  function PowerUrl(host: string, port: int): string
  {
    "http://" + host + ":" + IntToString(port) + "/power"
  }

  /** `{"action": action}`. */
  function ActionDoc(action: string): Json
  {
    JObj([("action", JStr(action))])
  }

  /**
   * The bridge confirmed the command: status 200, a JSON object, and a truthy
   * "success" member. A non-object document makes `result.get` raise, which
   * the entity catches like any other error.
   */
  predicate Accepted(reply: Reply)
  {
    && reply.Answered? && reply.status == 200
    && reply.body.Doc? && reply.body.doc.JObj?
    && match Get(reply.body.doc.fields, "success")
       case None => false
       case Some(v) => Truthy(v)
  }

  /** The entity's belief after sending `action` and receiving `reply`. */
  function NextIsOn(isOn: bool, action: string, reply: Reply): (next: bool)
    ensures next != isOn ==> Accepted(reply) && next == (action == "on")
  {
    if Accepted(reply) then action == "on" else isOn
  }

  class PowerSwitch {
    const host: string
    const port: int
    const entryId: string
    const name: string
    const uniqueId: string
    var isOn: bool

    constructor (host: string, port: int, entryId: string)
      ensures this.host == host && this.port == port && this.entryId == entryId
      ensures name == EntityName && uniqueId == entryId + "_power"
      ensures !isOn
    {
      this.host := host;
      this.port := port;
      this.entryId := entryId;
      name := EntityName;
      uniqueId := entryId + "_power";
      isOn := false;
    }

    /** `_send_command`: post the action, then adopt it only if the bridge confirms. */
    method SendCommand(action: string, reply: Reply) returns (post: Post)
      modifies this
      ensures post == Post(PowerUrl(host, port), ActionDoc(action))
      ensures isOn == NextIsOn(old(isOn), action, reply)
    {
      post := Post(PowerUrl(host, port), ActionDoc(action));
      if reply.Answered? && reply.status == 200 && reply.body.Doc? && reply.body.doc.JObj? {
        var success := Get(reply.body.doc.fields, "success");
        if success.Some? && Truthy(success.value) {
          isOn := action == "on";
        }
      }
    }

    /** `async_turn_on`. */
    method TurnOn(reply: Reply) returns (post: Post)
      modifies this
      ensures post == Post(PowerUrl(host, port), ActionDoc("on"))
      ensures isOn == (Accepted(reply) || old(isOn))
    {
      post := SendCommand("on", reply);
    }

    /** `async_turn_off`. */
    method TurnOff(reply: Reply) returns (post: Post)
      modifies this
      ensures post == Post(PowerUrl(host, port), ActionDoc("off"))
      ensures isOn == (!Accepted(reply) && old(isOn))
    {
      post := SendCommand("off", reply);
    }
  }

  /** A confirmed command sets the state to the action; anything else leaves it alone. */
  lemma StateFollowsConfirmation(isOn: bool, action: string, reply: Reply)
    ensures Accepted(reply) ==> NextIsOn(isOn, action, reply) == (action == "on")
    ensures !Accepted(reply) ==> NextIsOn(isOn, action, reply) == isOn
  {
  }

  /** Repeating a command with the same reply changes nothing more. */
  lemma RepeatIsIdempotent(isOn: bool, action: string, reply: Reply)
    ensures NextIsOn(NextIsOn(isOn, action, reply), action, reply) == NextIsOn(isOn, action, reply)
  {
  }

  /** The belief after a run of commands, each with the reply it received. */
  function Replay(isOn: bool, steps: seq<(string, Reply)>): bool
    decreases |steps|
  {
    if steps == [] then isOn else Replay(NextIsOn(isOn, steps[0].0, steps[0].1), steps[1..])
  }

  /** The action of the last confirmed command in a run, if any. */
  function LastConfirmed(steps: seq<(string, Reply)>): (r: Option<string>)
    ensures r.Some? ==> exists i | 0 <= i < |steps| :: steps[i].0 == r.value && Accepted(steps[i].1)
  {
    if steps == [] then None
    else if Accepted(steps[|steps| - 1].1) then Some(steps[|steps| - 1].0)
    else LastConfirmed(steps[..|steps| - 1])
  }

  /**
   * `LastConfirmed` is None exactly when no step was confirmed; otherwise it
   * is the action of a confirmed step after which no step was confirmed.
   */
  lemma {:induction false} LastConfirmedIsLast(steps: seq<(string, Reply)>)
    ensures LastConfirmed(steps).None? <==> forall i | 0 <= i < |steps| :: !Accepted(steps[i].1)
    ensures LastConfirmed(steps).Some? ==> exists i | 0 <= i < |steps| ::
      && steps[i].0 == LastConfirmed(steps).value && Accepted(steps[i].1)
      && forall j | i < j < |steps| :: !Accepted(steps[j].1)
  {
    if steps != [] && !Accepted(steps[|steps| - 1].1) {
      var init := steps[..|steps| - 1];
      LastConfirmedIsLast(init);
      assert LastConfirmed(steps) == LastConfirmed(init);
      assert forall i | 0 <= i < |init| :: steps[i] == init[i];
      if LastConfirmed(steps).Some? {
        var i :| 0 <= i < |init| && init[i].0 == LastConfirmed(init).value && Accepted(init[i].1)
          && forall j | i < j < |init| :: !Accepted(init[j].1);
        assert forall j | i < j < |steps| :: !Accepted(steps[j].1) by {
          forall j | i < j < |steps| ensures !Accepted(steps[j].1) {
            if j < |init| { assert steps[j] == init[j]; }
          }
        }
      } else {
        forall i | 0 <= i < |steps| ensures !Accepted(steps[i].1) {
          if i < |init| { assert steps[i] == init[i]; }
        }
      }
    }
  }

  /**
   * After any run of commands the entity's belief is set by the last
   * confirmed command alone; with none it is the initial belief.
   */
  lemma {:induction false} ReplayFollowsLastConfirmed(isOn: bool, steps: seq<(string, Reply)>)
    ensures Replay(isOn, steps) == match LastConfirmed(steps)
                                   case None => isOn
                                   case Some(a) => a == "on"
  {
    if steps != [] {
      var init := steps[..|steps| - 1];
      var last := steps[|steps| - 1];
      ReplaySnoc(isOn, init, last);
      ReplayFollowsLastConfirmed(isOn, init);
      assert init + [last] == steps;
    }
  }

  /** Replaying one more step applies `NextIsOn` to the belief so far. */
  lemma {:induction false} ReplaySnoc(isOn: bool, steps: seq<(string, Reply)>, step: (string, Reply))
    ensures Replay(isOn, steps + [step]) == NextIsOn(Replay(isOn, steps), step.0, step.1)
    decreases |steps|
  {
    if steps != [] {
      assert (steps + [step])[1..] == steps[1..] + [step];
      ReplaySnoc(NextIsOn(isOn, steps[0].0, steps[0].1), steps[1..], step);
    }
  }
}
