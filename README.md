# NEC display power control bridge, in Dafny

This project models the core of hass-nec-control. The system has two parts:

- **The bridge service** (`rootfs/usr/bin/nec_tv_service.py`). It is a small HTTP server that
  - answers discovery and health requests;
  - accepts `POST /power` with `{"action": "on" | "off"}`;
  - forwards the matching fixed NEC external-control frame to the display over TCP.
- **The Home Assistant switch entity** (`custom_components/nec_tv/switch.py`). It posts to the bridge and keeps an optimistic on/off belief.

The model has these modules:

- **`NecFrame`:** the NEC external-control message format that both table entries follow.
  - A frame is SOH, the reserved byte '0', destination, source and message type, a two-digit upper-case ASCII-hex length, then STX, the message and ETX. After these come a block check (the XOR of everything from the reserved byte through ETX) and CR.
  - `Encode` and `Parse` are proved to be inverses in both directions.
- **`Commands`:** the `COMMANDS` table and the lookup `COMMANDS['power_' + action]`.
  - It proves that both stored frames are exactly the encoding of the power-control message `C203D6` with mode `0001` or `0004` for monitor 'A'.
  - Each frame is well formed: its block check and length field are correct, and it differs from the other only in the mode digit and the check byte.
- **`UrlPath`:** the `urlparse(self.path).path` that both handlers route on.
  - It covers the scheme, the "//" authority, the query and fragment, and the ';' parameters.
  - For a target that starts with '/', appending a query string or fragment does not change the path.
- **`Device`:** `send_tv_command`, as a method over a `Socket` class.
  - The socket's behaviour (whether the display accepts the connection, and whether `send` raises or how many bytes it takes) is an input.
  - The socket records the events it performs.
  - The method's result and event trace are proved equal to two specification functions.
- **`JsonData`:** JSON documents after parsing, with `dict.get` semantics (the last duplicate key wins) and Python truthiness.
- **`Bridge`:** `do_GET` and `do_POST` as the pure function `Handle`.
  - `Handle` maps a request (method, target, Content-Length header, body) to an outcome: a response, or an uncaught exception.
  - It also reports whether the body was read and which command, if any, was sent to the display.
  - `Serve` does the same step by step, running `SendTvCommand`, and is proved to agree with `Handle` and with the socket trace.
- **`Switch`:** the `NECTVSwitch` entity as a class with the mutable field `isOn`. The HTTP reply is an input.
- **`Integration`:** the two sides connected.
  - The entity's POST becomes the bridge's request, and the bridge's outcome becomes the entity's reply.
  - Across the whole round trip, the entity's belief becomes the requested state exactly when the socket exchange succeeded.

Three behaviours of the code shape the model:

- `do_GET` has no `/power` branch, so `GET /power` falls through to the empty 404 (rootfs/usr/bin/nec_tv_service.py:87-89).
- `send_tv_command` writes one frame and closes; it never reads from the socket (rootfs/usr/bin/nec_tv_service.py:138-161).
- The handler defines only `do_GET` and `do_POST`. For any other method `BaseHTTPRequestHandler` finds no `do_<method>` and answers 501 itself, so the model gives 501 there, not 404.

## Model

| member | source | states |
|---|---|---|
| JsonData.Get | rootfs/usr/bin/nec_tv_service.py:108 | a value found for a key is the value of some member with that key |
| JsonData.GetLastMember | rootfs/usr/bin/nec_tv_service.py:108 | `dict.get` is None exactly when no member has the key; otherwise it is the value of the last member with that key |
| NecFrame.HexDigit | rootfs/usr/bin/nec_tv_service.py:24-25 | every digit value below 16 is written as an upper-case ASCII hex digit |
| NecFrame.DigitValue | rootfs/usr/bin/nec_tv_service.py:24-25 | a byte reads as a digit exactly when it is an upper-case hex digit, and its value is below 16 |
| NecFrame.DigitRoundTrip | rootfs/usr/bin/nec_tv_service.py:24-25 | writing a digit and reading it back gives the digit, and reading a digit and writing it gives the byte |
| NecFrame.LengthField | rootfs/usr/bin/nec_tv_service.py:24-25 | the length field is two hex digits |
| NecFrame.LengthValue | rootfs/usr/bin/nec_tv_service.py:24-25 | a length field reads as a number exactly when both bytes are hex digits, and the number is below 256 |
| NecFrame.LengthRoundTrip | rootfs/usr/bin/nec_tv_service.py:24-25 | the two-digit length field reads back as the length below 256, and any readable field is the encoding of its value |
| NecFrame.Encode | rootfs/usr/bin/nec_tv_service.py:24-25 | a frame is 11 bytes longer than its message |
| NecFrame.EncodeLayout | rootfs/usr/bin/nec_tv_service.py:24-25 | an encoded frame has SOH, the header, a length field counting STX through ETX, the message between STX and ETX, the XOR block check and CR |
| NecFrame.ParseEncode | rootfs/usr/bin/nec_tv_service.py:24-25 | parsing an encoded frame gives back the header and the message |
| NecFrame.EncodeParse | rootfs/usr/bin/nec_tv_service.py:24-25 | every frame that parses is the encoding of what it parses to |
| Commands.CommandFor | rootfs/usr/bin/nec_tv_service.py:141 | the lookup `COMMANDS['power_' + action]` succeeds exactly for "on" and "off", and gives the power-on and power-off frames |
| Commands.CommandForInjective | rootfs/usr/bin/nec_tv_service.py:23-26 | distinct actions select distinct frames |
| Commands.SharedCheckedXor | rootfs/usr/bin/nec_tv_service.py:24-25 | the 16 bytes both frames share before the mode digit XOR to 0x41 |
| Commands.PowerChecked | rootfs/usr/bin/nec_tv_service.py:24-25 | for each mode digit, the checked part of the power-control message and its block check |
| Commands.TableFollowsFormat | rootfs/usr/bin/nec_tv_service.py:23-26 | both stored frames are the encoding of the power-control message `C203D6` + `0001` / `0004` to monitor 'A' |
| Commands.FrameLayout | rootfs/usr/bin/nec_tv_service.py:24-25 | each frame: 21 bytes, SOH at 0, STX at 7, ETX at 18, CR at 20, byte 19 the XOR of bytes 1 to 18, length field 12 = bytes 7 to 18, well formed, parses to the power-control message |
| Commands.FramesDifferOnlyInMode | rootfs/usr/bin/nec_tv_service.py:24-25 | the frames agree except at index 17 ('1' against '4') and at the block check at 19 |
| UrlPath.FirstIndex | rootfs/usr/bin/nec_tv_service.py:33 | the index of the first stop character, or the length when there is none |
| UrlPath.LastIndex | rootfs/usr/bin/nec_tv_service.py:33 | `rfind`: the last index holding the character, or -1 |
| UrlPath.SplitScheme | rootfs/usr/bin/nec_tv_service.py:33 | with no scheme the rest is the whole URL; a target that does not start with a letter has no scheme |
| UrlPath.AfterAuthority | rootfs/usr/bin/nec_tv_service.py:33 | what follows the authority is a suffix, and the whole input when there is no "//" |
| UrlPath.StripParams | rootfs/usr/bin/nec_tv_service.py:33 | removing the last segment's parameters keeps a prefix |
| UrlPath.ParsedPath | rootfs/usr/bin/nec_tv_service.py:33 | the parsed path never holds '?' or '#' |
| UrlPath.PathPart | rootfs/usr/bin/nec_tv_service.py:33 | the path is a prefix of what follows the authority, without '?' or '#' |
| UrlPath.BeforeQuery | rootfs/usr/bin/nec_tv_service.py:33 | the part before the query is a prefix without '?' or '#', cut exactly at the first '?' or '#' when there is one |
| UrlPath.OriginFormPrefix | rootfs/usr/bin/nec_tv_service.py:33 | for a target starting with a single '/', the parsed path is a prefix of the target |
| UrlPath.FirstIndexAppend | rootfs/usr/bin/nec_tv_service.py:33 | text after a stop character does not move the first stop |
| UrlPath.QueryIgnored | rootfs/usr/bin/nec_tv_service.py:93 | appending a query or fragment to a '/'-rooted path leaves the parsed path unchanged |
| UrlPath.BeforeQueryAppend | rootfs/usr/bin/nec_tv_service.py:33 | the part before the query ignores a query or fragment appended to text without either |
| UrlPath.AfterAuthorityAppend | rootfs/usr/bin/nec_tv_service.py:33 | an appended query or fragment stays after the authority |
| Device.Socket.constructor | rootfs/usr/bin/nec_tv_service.py:144 | a new socket is unconnected, has no timeout and has done nothing |
| Device.Socket.SetTimeout | rootfs/usr/bin/nec_tv_service.py:145 | the timeout is set and recorded, and nothing else changes |
| Device.Socket.Connect | rootfs/usr/bin/nec_tv_service.py:148 | connect raises exactly when the display refuses; otherwise the socket is open and the connection to the address is recorded |
| Device.Socket.Send | rootfs/usr/bin/nec_tv_service.py:151 | send raises or writes a prefix of the data whose length is the count it returns |
| Device.Socket.Close | rootfs/usr/bin/nec_tv_service.py:154 | the socket is shut and the close is recorded |
| Device.SendSucceeds | rootfs/usr/bin/nec_tv_service.py:138-161 | the command reports success exactly for a known action, an accepted connection and a send that does not raise |
| Device.ExpectedTrace | rootfs/usr/bin/nec_tv_service.py:138-161 | the socket events of one call: none for an action outside the table, the timeout alone when the connection is refused, and otherwise timeout, connect, then the write and close unless `send` raises |
| Device.SendTvCommand | rootfs/usr/bin/nec_tv_service.py:138-161 | the result is `SendSucceeds`, and the socket's events are `ExpectedTrace`: nothing for an unknown action, the timeout alone on a refused connection, then connect, write and close |
| Device.ClosedOnlyOnSuccess | rootfs/usr/bin/nec_tv_service.py:151-161 | the socket is closed exactly when the command succeeds |
| Device.WritesFollowConnect | rootfs/usr/bin/nec_tv_service.py:145-151 | the only write comes after the connection to the configured address and is a prefix of the action's frame; the byte count is not checked |
| Device.SuccessfulExchange | rootfs/usr/bin/nec_tv_service.py:140-157 | a successful command is exactly timeout, connect, one write, close |
| Device.UnknownActionNoIo | rootfs/usr/bin/nec_tv_service.py:140-141 | an action outside the table fails without touching the network |
| Device.FullWriteSendsFrame | rootfs/usr/bin/nec_tv_service.py:141-151 | when the display takes the whole buffer, the bytes written are the action's frame |
| Bridge.InfoBody | rootfs/usr/bin/nec_tv_service.py:40-45 | the GET / reply: service name, version, and the configured display host and port |
| Bridge.HealthBody | rootfs/usr/bin/nec_tv_service.py:53-57 | the constant GET /health reply: status "healthy", service name and version |
| Bridge.DiscoveryBody | rootfs/usr/bin/nec_tv_service.py:66-84 | the GET /discovery reply: one device identified by `nec_tv_` + the display host, and its power switch entity |
| Bridge.PowerResult | rootfs/usr/bin/nec_tv_service.py:117-121 | the reply to a dispatched action: `success`, the echoed `action`, and the message chosen by `success` |
| Bridge.DoGet | rootfs/usr/bin/nec_tv_service.py:31-89 | a GET is answered with 200 or with an empty 404 |
| Bridge.CheckPower | rootfs/usr/bin/nec_tv_service.py:96-133 | a rejected power request is a 400 with a JSON body, and a dispatched action is "on" or "off" |
| Bridge.HandlePower | rootfs/usr/bin/nec_tv_service.py:96-133 | a command is only ever "on" or "off", and the body is read exactly when Content-Length is numeric |
| Bridge.Respond | rootfs/usr/bin/nec_tv_service.py:31-136 | a command is sent only with a read body, and only "on" or "off" |
| Bridge.Handle | rootfs/usr/bin/nec_tv_service.py:31-136 | a command is only ever "on" or "off" |
| Bridge.ServePower | rootfs/usr/bin/nec_tv_service.py:103-122 | the step-by-step power handler gives `HandlePower`'s outcome and the socket trace of the command it sends |
| Bridge.Serve | rootfs/usr/bin/nec_tv_service.py:31-136 | the step-by-step handler gives `Handle`'s outcome; the display sees the command's trace when one is sent and nothing otherwise |
| Bridge.PowerRoute | rootfs/usr/bin/nec_tv_service.py:93-95 | a POST whose parsed path is /power is handled by the power chain alone |
| Bridge.PowerCommandIffValid | rootfs/usr/bin/nec_tv_service.py:103-111 | the power chain sends a command exactly when Content-Length is numeric, the body is a UTF-8 JSON object and its `action` is the string "on" or "off"; the command is that action |
| Bridge.CommandIffValid | rootfs/usr/bin/nec_tv_service.py:93-111 | over all requests, a command is sent exactly for a valid POST /power, with its action |
| Bridge.MissingContentLength | rootfs/usr/bin/nec_tv_service.py:96-101 | no Content-Length gives 400 `Content-Length header required`; the body is not read and nothing is sent |
| Bridge.InvalidJson | rootfs/usr/bin/nec_tv_service.py:106-133 | a UTF-8 body that is not JSON gives 400 `Invalid JSON` and nothing is sent |
| Bridge.InvalidAction | rootfs/usr/bin/nec_tv_service.py:108-127 | an object whose `action` is missing or not "on"/"off" gives 400 `Invalid action` and nothing is sent |
| Bridge.UncaughtErrors | rootfs/usr/bin/nec_tv_service.py:103-108 | a Content-Length `int()` rejects, a non-UTF-8 body, or JSON that is not an object ends in an uncaught exception, with no response and nothing sent |
| Bridge.PowerResultMembers | rootfs/usr/bin/nec_tv_service.py:117-121 | the reply's `success` is the send result, `action` is echoed, and `message` is `TV power <action> command sent` or `Failed to send command` |
| Bridge.ValidActionAnswered | rootfs/usr/bin/nec_tv_service.py:110-122 | a valid action is sent once and always answered with 200 carrying the send's result |
| Bridge.Routing | rootfs/usr/bin/nec_tv_service.py:31-136 | 404 exactly for GET paths other than /, /health and /discovery and for POST paths other than /power; 501 for any other method; no body read and no command outside POST /power |
| Bridge.GetPowerNotFound | rootfs/usr/bin/nec_tv_service.py:87-89 | GET /power is 404 |
| Bridge.HealthIsConstant | rootfs/usr/bin/nec_tv_service.py:48-58 | GET /health is the same 200 reply whatever the display's address and behaviour |
| Bridge.HealthReportsHealthy | rootfs/usr/bin/nec_tv_service.py:53-57 | the health reply's `status` is "healthy" |
| Bridge.InfoRoute | rootfs/usr/bin/nec_tv_service.py:35-46 | GET / answers 200 with the service identity |
| Bridge.InfoEchoesAddress | rootfs/usr/bin/nec_tv_service.py:40-45 | the identity reply carries the configured display host and port |
| Bridge.QueryDoesNotChangeRoute | rootfs/usr/bin/nec_tv_service.py:93-95 | a query string or fragment after a '/'-rooted path does not change how the request is handled |
| Switch.NatToStringRoundTrip | custom_components/nec_tv/switch.py:54 | the decimal text of the port reads back as the port |
| JsonData.Truthy | custom_components/nec_tv/switch.py:64 | Python truthiness of a decoded JSON value: false, null, 0, the empty string, list or object are false |
| Switch.PowerUrl | custom_components/nec_tv/switch.py:54 | the URL `http://<host>:<port>/power` with the port in decimal |
| Switch.ActionDoc | custom_components/nec_tv/switch.py:55 | the request document `{"action": action}` |
| Switch.Accepted | custom_components/nec_tv/switch.py:62-64 | the bridge confirmed: status 200, a JSON object body, and a truthy `success` member |
| Switch.NextIsOn | custom_components/nec_tv/switch.py:62-73 | the belief changes only on a confirmed reply, and then to `action == "on"` |
| Switch.PowerSwitch.constructor | custom_components/nec_tv/switch.py:35-42 | a new switch is off, named "NEC TV Power", with unique id `entry_id + "_power"` |
| Switch.PowerSwitch.SendCommand | custom_components/nec_tv/switch.py:52-73 | posts `{"action": action}` to `http://host:port/power`; the belief becomes `action == "on"` exactly on status 200 with a truthy `success`, and is otherwise unchanged |
| Switch.PowerSwitch.TurnOn | custom_components/nec_tv/switch.py:44-46 | posts "on"; afterwards the switch is on if the bridge confirmed, else as before |
| Switch.PowerSwitch.TurnOff | custom_components/nec_tv/switch.py:48-50 | posts "off"; afterwards the switch is off if the bridge confirmed, else as before |
| Switch.StateFollowsConfirmation | custom_components/nec_tv/switch.py:62-73 | a confirmed reply sets the belief to the action; a non-200 status, a missing or false `success`, a non-object or non-JSON body, or an exception leaves it alone |
| Switch.RepeatIsIdempotent | custom_components/nec_tv/switch.py:65 | repeating a command with the same reply changes nothing more |
| Switch.LastConfirmed | custom_components/nec_tv/switch.py:65 | the last confirmed action is the action of some confirmed step |
| Switch.LastConfirmedIsLast | custom_components/nec_tv/switch.py:65 | there is no confirmed action exactly when no step was confirmed; otherwise it is the action of a confirmed step after which none was confirmed |
| Switch.ReplaySnoc | custom_components/nec_tv/switch.py:65 | one more command applies the transition to the belief so far |
| Switch.ReplayFollowsLastConfirmed | custom_components/nec_tv/switch.py:65 | after any run of commands the belief is set by the last confirmed command alone, and is the initial one when none was confirmed |
| Integration.PowerUrlPath | custom_components/nec_tv/switch.py:54 | the entity's URL has the path /power for any port and any host without '/', '?' or '#' |
| Integration.PowerTargetPath | rootfs/usr/bin/nec_tv_service.py:93-95 | the target /power parses to /power |
| Integration.EntityReadsPowerResult | custom_components/nec_tv/switch.py:62-66 | the entity adopts the action from the bridge's 200 reply exactly when its `success` is true |
| Integration.BridgeHandlesEntityPost | rootfs/usr/bin/nec_tv_service.py:95-122 | the entity's request is dispatched once and answered 200 with the send's result |
| Integration.EndToEnd | custom_components/nec_tv/switch.py:52-73 | a press of "on" or "off" sends exactly that command, and the entity then believes the requested state exactly when the socket exchange succeeded, keeping its belief otherwise |
| Integration.Press | custom_components/nec_tv/switch.py:52-73 | one press run through the entity and the bridge: the display sees the command's trace, and the switch's new state follows the send's success |

## Left out

- The server loop, the listening socket on port 8124 and `log_message` are not modelled. This is process plumbing with no decisions in it.
- The `TV_IP` and `TV_PORT` environment settings are not modelled as settings. The address is a parameter of every operation, and `Device.DefaultAddress` records the defaults.
- Logging in `send_tv_command` and in the switch is left out.
- JSON serialisation of responses and JSON parsing of requests are abstract:
  - A request body is "not UTF-8", "UTF-8 but malformed", or a parsed document.
  - JSON numbers are integers only; floats are not modelled.
- Response headers and the bytes on `wfile` are left out.
- `Bridge.Handle`: the Content-Length value is not related to the bytes actually read. The model receives the body as read. A short or negative length (which makes `rfile.read` return a truncated body or block) is therefore not captured, beyond what the supplied body says.
- http.server's own error page for 501 is an opaque body (`ErrorPage`).
- http.server's collapsing of a leading "//" in the request path is not modelled.
- `UrlPath.ParsedPath` leaves out two parts of `urlparse`: the stripping of control characters and whitespace, and the validation of bracketed IPv6 hosts.
- Real socket behaviour is an input, not modelled:
  - the 10-second timeout's effect;
  - DNS;
  - partial writes beyond the count `send` returns;
  - the socket creation failure.
  - The `Peer` parameter says whether the display accepts the connection and whether `send` raises or how many bytes it takes.
- On the failure paths the socket is never closed by the code. The model records that no close happens; garbage collection is outside the model.
- In the switch, aiohttp, the 10-second client timeout, `async_write_ha_state` and the Home Assistant entity machinery are left out. The HTTP reply reaches the entity as the `Reply` parameter.
- `Integration.RequestOf` does not model the body text or its length. The entity's request is given its body as the parsed document, with the Content-Length as a parameter.
- `custom_components/nec_tv/config_flow.py` and `custom_components/nec_tv/const.py` are not part of this model. They hold framework glue and constants only.
- `test_api.py` and `test_nec_tv.py` are manual network scripts and are not part of this model.
