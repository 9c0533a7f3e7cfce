/**
 * `send_tv_command`: look up the frame, open a TCP socket with a 10-second
 * timeout, connect to the display, send the frame once, close. Everything
 * runs under one catch-all, so any failure becomes `False`.
 *
 * The network is abstract: a `Peer` says whether the display accepts the
 * connection and what a single `send` does. The socket records what it did
 * as a trace of events.
 */
module Device {
  import opened Wrappers
  import opened Commands

  /** The display's address, `TV_IP` and `TV_PORT`, fixed at start-up. */
  datatype Address = Address(host: string, port: int)

  /** The address used when neither variable is set in the environment. */
  const DefaultAddress: Address := Address("192.168.1.150", 7142)

  /** `sock.settimeout(10)`. */
  const SocketTimeout: nat := 10

  /** What one `send` does: raise, or take `count` bytes of the buffer. */
  datatype SendBehaviour = SendRaises | SendAccepts(count: nat)

  /** The display as the network presents it to one connection attempt. */
  datatype Peer = Peer(acceptsConnection: bool, onSend: SendBehaviour)

  datatype Event =
    | TimeoutSet(seconds: nat)
    | Connected(host: string, port: int)
    | Wrote(bytes: seq<bv8>)
    | Closed

  datatype SocketState = Fresh | Open | Shut

  function Min(a: nat, b: nat): nat
  {
    if a <= b then a else b
  }

  /** A TCP socket talking to `peer`; `events` is everything it has done. */
  class Socket {
    const peer: Peer
    var state: SocketState
    var timeout: Option<nat>
    var events: seq<Event>

    constructor (peer: Peer)
      ensures this.peer == peer && state == Fresh && timeout == None && events == []
    {
      this.peer := peer;
      state := Fresh;
      timeout := None;
      events := [];
    }

    method SetTimeout(seconds: nat)
      modifies this
      ensures timeout == Some(seconds) && state == old(state)
      ensures events == old(events) + [TimeoutSet(seconds)]
    {
      timeout := Some(seconds);
      events := events + [TimeoutSet(seconds)];
    }

    /** `sock.connect((host, port))`; `raised` stands for the exception it may throw. */
    method Connect(addr: Address) returns (raised: bool)
      modifies this
      ensures raised == !(old(state) == Fresh && peer.acceptsConnection)
      ensures !raised ==> state == Open && events == old(events) + [Connected(addr.host, addr.port)]
      ensures raised ==> state == old(state) && events == old(events)
      ensures timeout == old(timeout)
    {
      raised := !(state == Fresh && peer.acceptsConnection);
      if !raised {
        state := Open;
        events := events + [Connected(addr.host, addr.port)];
      }
    }

    /** `sock.send(data)`: the count of bytes taken, or an exception. */
    method Send(data: seq<bv8>) returns (sent: nat, raised: bool)
      modifies this
      ensures raised == (old(state) != Open || peer.onSend.SendRaises?)
      ensures !raised ==> sent == Min(peer.onSend.count, |data|) && events == old(events) + [Wrote(data[..sent])]
      ensures raised ==> sent == 0 && events == old(events)
      ensures state == old(state) && timeout == old(timeout)
    {
      raised := state != Open || peer.onSend.SendRaises?;
      if raised {
        sent := 0;
      } else {
        sent := Min(peer.onSend.count, |data|);
        events := events + [Wrote(data[..sent])];
      }
    }

    method Close()
      modifies this
      ensures state == Shut && timeout == old(timeout)
      ensures events == old(events) + [Closed]
    {
      state := Shut;
      events := events + [Closed];
    }
  }

  /** The result `send_tv_command` reports: a known action, a connection, and a send that did not raise. */
  function SendSucceeds(action: string, peer: Peer): (ok: bool)
    ensures ok <==> (action == "on" || action == "off") && peer.acceptsConnection && !peer.onSend.SendRaises?
  {
    CommandFor(action).Some? && peer.acceptsConnection && !peer.onSend.SendRaises?
  }

  /** What the socket does on the wire during one `send_tv_command(action)`. */
  function ExpectedTrace(addr: Address, action: string, peer: Peer): seq<Event>
  {
    match CommandFor(action)
    case None => []
    case Some(frame) =>
      if !peer.acceptsConnection then [TimeoutSet(SocketTimeout)]
      else [TimeoutSet(SocketTimeout), Connected(addr.host, addr.port)] + SendAndClose(frame, peer.onSend)
  }

  /** The events after a successful connect: the write and the close, or nothing when `send` raises. */
  function SendAndClose(frame: seq<bv8>, onSend: SendBehaviour): seq<Event>
  {
    match onSend
    case SendRaises => []
    case SendAccepts(count) => [Wrote(frame[..Min(count, |frame|)]), Closed]
  }

  /** `send_tv_command(action)`, with the socket's record of what it did. */
  method SendTvCommand(addr: Address, action: string, peer: Peer) returns (ok: bool, trace: seq<Event>)
    ensures ok == SendSucceeds(action, peer)
    ensures trace == ExpectedTrace(addr, action, peer)
  {
    var command := CommandFor(action);
    if command.None? {
      // KeyError from the table lookup, caught before any socket exists.
      return false, [];
    }
    var sock := new Socket(peer);
    sock.SetTimeout(SocketTimeout);
    var raised := sock.Connect(addr);
    if raised {
      return false, sock.events;
    }
    var sent;
    sent, raised := sock.Send(command.value);
    if raised {
      return false, sock.events;
    }
    sock.Close();
    return true, sock.events;
  }

  /**
   * The socket is closed exactly when the command succeeded: every failure
   * path leaves it to the garbage collector.
   */
  lemma ClosedOnlyOnSuccess(addr: Address, action: string, peer: Peer)
    ensures Closed in ExpectedTrace(addr, action, peer) <==> SendSucceeds(action, peer)
  {
  }

  /**
   * Nothing is written before a connection to the configured address, at most
   * one write happens, and what is written is a prefix of the action's frame:
   * the count `send` returns is not checked.
   */
  lemma WritesFollowConnect(addr: Address, action: string, peer: Peer, i: nat)
    requires i < |ExpectedTrace(addr, action, peer)|
    requires ExpectedTrace(addr, action, peer)[i].Wrote?
    ensures i == 2
    ensures ExpectedTrace(addr, action, peer)[1] == Connected(addr.host, addr.port)
    ensures ExpectedTrace(addr, action, peer)[i].bytes <= CommandFor(action).value
  {
  }

  /** On success the exchange is exactly: timeout, connect, one write, close. */
  lemma SuccessfulExchange(addr: Address, action: string, peer: Peer)
    requires SendSucceeds(action, peer)
    ensures var t := ExpectedTrace(addr, action, peer);
      && |t| == 4 && t[0] == TimeoutSet(SocketTimeout) && t[1] == Connected(addr.host, addr.port)
      && t[2].Wrote? && t[2].bytes <= CommandFor(action).value && t[3] == Closed
  {
  }

  /** An action outside the table never touches the network. */
  lemma UnknownActionNoIo(addr: Address, action: string, peer: Peer)
    requires action != "on" && action != "off"
    ensures ExpectedTrace(addr, action, peer) == [] && !SendSucceeds(action, peer)
  {
  }

  /** When the display takes the whole buffer, the bytes on the wire are exactly the action's frame. */
  lemma FullWriteSendsFrame(addr: Address, action: string, count: nat)
    requires action == "on" || action == "off"
    requires count >= 21
    ensures ExpectedTrace(addr, action, Peer(true, SendAccepts(count)))[2]
      == Wrote(if action == "on" then PowerOnFrame else PowerOffFrame)
  {
    FrameLayout(PowerOnFrame);
    FrameLayout(PowerOffFrame);
  }
}
