# proxxy protocol core in Dafny

A model of the per-connection protocol logic of proxxy, a forward proxy that
speaks SOCKS5 (RFC 1928) and HTTP CONNECT (section 9.3.6 of RFC 9110) on top
of EventMachine, with proofs about it.

- `bytes.dfy` (module `Bytes`): octets, 16-bit big-endian ports, substring
  search, socket addresses.
- `socks5_message.dfy` (module `Socks5Message`): the SOCKS5 wire codec
  `SOCKS5::Message`. It covers `auth_unpack`, `auth_pack`, `unpack` (request
  and UDP header), `pack` (reply and UDP header), the domain rejection of
  `Request#bind_ip`, and the BIND and UDP address checks. These are pure
  functions of the octets.
- `proxy.dfy` (module `Proxy`): the shared `Proxy` connection as a class
  `Connection`. It has the input buffer, the sticky `failed` flag, `proxy_to`,
  `failure`, `log` and `unbind`. The upstream `Server` is a class whose
  `connected` flag decides how the connect completion resolves. Every socket
  operation is appended, in order, to the connection's `trace`.
- `https.dfy` (module `Https`): `HTTPS#receive_message`.
  - The wait condition and the CONNECT pattern are a pure scan, `ParseConnect`.
  - `Matches` is an independent reference definition of what the regular
    expression accepts, including the engine's preference for the longest
    `\d+` and the longest `.*`.
  - The scan is proved equal to it in both directions.
  - The handler and its two completion callbacks are methods on the connection.
- `socks5.dfy` (module `Socks5`): the SOCKS5 state machine.
  - `Respond` is a function that says what one buffer does: socket
    operations, failure, flags, "done", and the command started.
  - The class `Session` (the `@authenticated`, `@finalized`, `@listen_*` and
    `@udp_relay` state) performs it, and its methods are proved against
    `Respond`.
  - `UdpRelay` models the UDP ASSOCIATE relay and its remote socket.
- `events.dfy` (module `Events`): `Proxy#receive_data` for each front end,
  and the upstream server's `connection_completed` / `unbind` events. Those
  events resolve the completion and run the callback the front end
  registered.

The outside world is a parameter:
- `ConnectAttempt` says whether `EventMachine.connect` raised, and whether
  what it raised was an `EventMachine::ConnectionError`.
- `Env.iface` is the result of the interface search of `bind_ip`.
- `Env.bound` is the local address of a socket the proxy opens.
- `sockname` and `peer` arguments are the addresses the reactor reports.

Behaviour of the code that the model keeps as written:
- When a client offers no acceptable authentication method, `authenticate`
  (lib/socks5.rb:77-79) replies `[5, 255]` and logs a failure line, but sets
  no failure flag and does not close the connection; section 3 of RFC 1928
  leaves the close to the client (`Socks5.AuthOutcome`).
- An empty message counts as "not version 5", so it fails rather than
  waits. `unpack1('C')` of an empty string is `nil`, which is not 5.
- Once a connect is launched, `proxy_to` (lib/proxy.rb:52) has the reactor
  relay the client's input straight to the upstream until the upstream
  closes; `receive_data` no longer runs. The model records such a chunk as
  one write to the upstream (`Connection.Tunnelled`). A SOCKS5 CONNECT
  session therefore relays what follows the request, and an HTTP client can
  send a second CONNECT through the tunnel to the next proxy.
- The connect errback of SOCKS5 compares the error with `Errno` classes by
  `==` and with `EventMachine::ConnectionError` by `===`
  (lib/socks5.rb:94-98). `Server#unbind` passes an errno class, which only
  the `==` tests can match; `proxy_to` passes the exception instance it
  rescued, which only the `===` test can match. So a raising
  `EventMachine.connect` is answered with reply 4 for a `ConnectionError`
  and with no reply otherwise.

## Model

| member | source | states |
|---|---|---|
| Bytes.Be16RoundTrip | lib/socks5.rb:242 | reading back the two big-endian port octets gives the port |
| Bytes.ContainsExtended | lib/https.rb:7 | once the buffer holds a terminator, every longer buffer does too |
| Socks5Message.AuthUnpack | lib/socks5.rb:215-222 | fatal exactly when the message is empty or its first octet is not 5; a method list is exactly octets 2 .. 2+nmethods-1 of a long enough message |
| Socks5Message.AuthPack | lib/socks5.rb:211-213 | the reply is the two octets 5 and the chosen method |
| Socks5Message.AuthUnpackRoundTrip | lib/socks5.rb:215-222 | a client's method list, followed by any trailing octets, decodes to exactly that list |
| Socks5Message.AuthUnpackPrefixStable | lib/socks5.rb:215-222 | a decided non-empty negotiation message decides the same way whatever follows |
| Socks5Message.AuthUnpackIncompletePrefix | lib/socks5.rb:218-220 | a non-empty prefix of an incomplete negotiation message is incomplete |
| Socks5Message.Unpack | lib/socks5.rb:245-270 | each outcome exactly for its inputs, in the source's order: fatal iff a request is empty or not version 5; code 7 iff a request of 5 or more octets has a command other than 1, 2, 3 (checked before the address type); code 8 iff the address type is not 1, 3 or 4; incomplete iff under 5 octets or under 10, 7+length or 22 octets for the address type; decoded otherwise |
| Socks5Message.UnpackEncodes | lib/socks5.rb:245-270 | a decoded message is exactly the encoding of what it decoded to (with its own reserved and fragment octets): nothing skipped or invented |
| Socks5Message.UnpackOrderExamples | lib/socks5.rb:249-268 | `[5,9,0,2,0]` gives code 7 and `[5,1,0,2,0]` code 8; a CONNECT with reserved octet 7 decodes |
| Socks5Message.UnpackPrefixStable | lib/socks5.rb:245-270 | once a non-empty prefix is decided, any extension gives the same decision with only the trailing data grown |
| Socks5Message.UnpackIncompletePrefix | lib/socks5.rb:248-265 | a non-empty prefix of an incomplete message is incomplete |
| Socks5Message.UnpackDecidedWithin | lib/socks5.rb:253-268 | 262 octets always decide a message |
| Socks5Message.UnpackRoundTrip | lib/socks5.rb:245-270 | an encoded request (version 5, known command) or UDP header (any first octet and command) decodes to itself, whatever its reserved and fragment octets hold |
| Socks5Message.Pack | lib/socks5.rb:224-243 | at least ten octets; first octet 0 when data is present (even empty data) and 5 otherwise; then the reply code and the reserved 0 |
| Socks5Message.PackWithoutAddress | lib/socks5.rb:236-242 | with no address the reply is exactly 5, code, 0, 1, 0,0,0,0, 0,0 |
| Socks5Message.PackUnpackRoundTrip | lib/socks5.rb:224-243 | a packed UDP header decodes back to the address family, address octets, port and data |
| Socks5Message.BindIp | lib/socks5.rb:192-208 | fails exactly for a domain name (code 8) or when no interface matches (code 3); otherwise the interface address |
| Socks5Message.WildcardOnlyForUdp | lib/socks5.rb:112-171 | 0.0.0.0:0 admits any IPv4 UDP source, but a BIND for 0.0.0.0 admits no real peer |
| Proxy.Dump | lib/proxy.rb:80-82 | the preview is a prefix of the data, of length min(size, 32) |
| Proxy.LogEffects | lib/proxy.rb:65-66 | a quiet connection logs nothing, any other logs one line |
| Proxy.FailureEffects | lib/proxy.rb:58-63 | a failure writes nothing to either peer and ends with the close |
| Proxy.Server.constructor | lib/proxy.rb:85-89 | a new server is pending and not connected |
| Proxy.Server.ConnectionCompleted | lib/proxy.rb:91-94 | the completion succeeds and the server is connected |
| Proxy.Server.Unbind | lib/proxy.rb:96-98 | the completion fails (errbacks fire) exactly when the server never connected |
| Proxy.ServerOutcomeExclusive | lib/proxy.rb:84-99 | a connected server is never failed; one closed before connecting is failed |
| Proxy.Connection.constructor | lib/proxy.rb:8-18 | empty buffer, not failed, no target, no upstream |
| Proxy.Connection.Append | lib/proxy.rb:22 | the buffer gains the chunk and still equals the concatenation of the chunks since the last clear |
| Proxy.Connection.ClearBuffer | lib/proxy.rb:24 | the buffer and the chunk history are emptied |
| Proxy.Connection.Log | lib/proxy.rb:65-78 | the trace gains the log line unless quiet |
| Proxy.Connection.Fail | lib/proxy.rb:58-63 | the connection is failed; the trace gains the failure line with a preview of the data, then the close |
| Proxy.Connection.ProxyTo | lib/proxy.rb:43-56 | the target is recorded first; a raising connect fails at once and wires nothing, otherwise a fresh pending server is wired |
| Proxy.Connection.Unbind | lib/proxy.rb:27-34 | with an upstream: a success line only if never failed, then the upstream close, and the upstream is forgotten; without one nothing happens |
| Https.HasTerminatorExtended | lib/https.rb:7 | the wait condition, once met, stays met as data arrives |
| Https.FirstColon | lib/https.rb:9 | the host capture ends at the first colon |
| Https.DigitsEnd | lib/https.rb:9 | a digit run ends at the first non-digit |
| Https.LastBlankLineEnd | lib/https.rb:9 | the greedy `.*\r?\n\r?\n` ends at the last blank line, and no later end exists |
| Https.Scan | lib/https.rb:8-10 | every position set the scan reports meets the pattern's conditions |
| Https.ParseSound | lib/https.rb:8-12 | every request the parser reports is a match of the pattern, with the engine's preferences |
| Https.ParseComplete | lib/https.rb:8-12 | every match of the pattern is found, with the same host, port, version and post-match payload |
| Https.LargePortAccepted | lib/https.rb:9 | a request for port 2147483648 parses, the port having no upper bound |
| Https.ParsedPortValid | lib/https.rb:9-12 | a parsed port is digits not starting with 0, and a parsed version is HTTP/0 or 1, a dot and digits |
| Https.DecimalValue | lib/https.rb:12-13 | a port not starting with 0 has a positive value |
| Https.ReceiveMessage | lib/https.rb:6-23 | "done" exactly when a terminator is present, failure included; without one nothing changes; no match fails with a preview and no reply; a match records the target and either fails (connect raised) or awaits the tunnel callback |
| Https.Established | lib/https.rb:14-17 | the post-match payload goes upstream before the confirmation, which is the request's HTTP version verbatim then " 200 Connection established" and a blank line |
| Https.ConnectFailure | lib/https.rb:18 | a connect failure only fails the connection; nothing is written to the client |
| Socks5.ErrorReply | lib/socks5.rb:94-103 | the errno classes ENETUNREACH, ETIMEDOUT and ECONNREFUSED map to 3, 4 and 5, a rescued ConnectionError instance to 4; any other class or exception has no reply |
| Socks5.AuthOutcome | lib/socks5.rb:71-83 | a complete method list is "done"; the session authenticates with reply [5,0] exactly when method 0 is offered, otherwise replies [5,255], logs a failure and does not fail |
| Socks5.AfterFinalizedFails | lib/socks5.rb:40 | after the command, a message that reaches the handler (BIND and UDP ASSOCIATE sessions, or a CONNECT whose upstream connected and has since closed) fails the connection with no reply |
| Socks5.FatalFailsSilently | lib/socks5.rb:58-59 | a message that is not version 5 fails the connection with no reply, in either phase |
| Socks5.ProtocolErrorRepliesThenFails | lib/socks5.rb:55-57 | a protocol error sends the ten-octet reply with its code first, then fails and closes |
| Socks5.FinalizesOnlyOnDispatch | lib/socks5.rb:43-54 | the session is finalized exactly when a decoded command was dispatched without a rejection, and then the message is "done" |
| Socks5.ErrbackReplies | lib/socks5.rb:91-105 | the errback replies exactly for the errors with a reply code and always fails and closes |
| Socks5.RaisedConnectReplies | lib/socks5.rb:85-105 | a CONNECT whose connect raised answers reply 4 for a ConnectionError and nothing for any other exception, then fails and closes |
| Socks5.FailingCloses | lib/socks5.rb:38-60 | every failing reaction ends with the close; a reaction with no effects is a wait |
| Socks5.RespondPrefixStable | lib/socks5.rb:38-60 | a decided method list or request reacts the same however many more octets are buffered behind it |
| Socks5.UdpRelay.constructor | lib/socks5.rb:152-158 | the relay keeps the declared endpoint; the remote socket is IPv6 exactly for an IPv6 request |
| Socks5.UdpRelay.ReceiveFromClient | lib/socks5.rb:160-171 | a datagram from an allowed source is forwarded to its header's address with its data; any other, decodable or not, gets reply 2 and nothing is forwarded |
| Socks5.UdpRelay.ReceiveFromRemote | lib/socks5.rb:145-148 | a remote datagram goes back behind a UDP header carrying the remote socket's address |
| Socks5.UdpRelay.Unbind | lib/socks5.rb:173-175 | the remote socket is closed |
| Socks5.RelayedDatagramDecodes | lib/socks5.rb:145-148 | what the client receives from the relay decodes to the remote data and the header address |
| Socks5.Session.constructor | lib/socks5.rb:30-36 | not authenticated, not finalized, no listener, no relay |
| Socks5.Session.ReceiveMessage | lib/socks5.rb:38-60 | performs `Respond` for the current flags; keeps the session invariant (finalized only after authentication, at most one of listener and relay) |
| Socks5.Session.Authenticate | lib/socks5.rb:71-83 | performs the negotiation reaction; nothing but the auth flag and the trace change |
| Socks5.Session.Command | lib/socks5.rb:41-59 | performs the command-phase reaction, the rescues included |
| Socks5.Session.Reject | lib/socks5.rb:55-57 | the reply with the error's code, then the failure |
| Socks5.Session.Dispatch | lib/socks5.rb:85-132 | CONNECT wires the completion, or runs the errback when the connect raised and leaves the upstream and callback as they were; BIND and UDP ASSOCIATE reply with the bound address and open the listener or relay, or are rejected with the `bind_ip` code and are not finalized |
| Socks5.Session.BindAccept | lib/socks5.rb:112-125 | the first peer with exactly the requested address closes the listener, is announced and relayed; any other peer is closed and the listener stays open |
| Socks5.Session.Unbind | lib/socks5.rb:62-67 | the shared close handling, then the open listening socket, the relay and the listening server are closed |
| Socks5.ConnectErrback | lib/socks5.rb:91-105 | the mapped reply, if any, then the failure |
| Socks5.ConnectCallback | lib/socks5.rb:88-90 | the success reply carries the upstream socket's local address |
| Events.FlattenAppend | lib/proxy.rb:22 | appending a chunk appends its octets to the buffer's content |
| Events.HttpReceiveData | lib/proxy.rb:20-25 | while the tunnel is wired the chunk goes upstream unseen; a failed connection ignores it; otherwise the handler gets every chunk since the last clear and reacts as `Https.ReceiveMessage` says (failure, target, callback, tunnel), and the buffer is cleared exactly when done or failed |
| Events.SocksReceiveData | lib/proxy.rb:20-25 | the same relaying and buffering, with the session reacting to the whole buffer as `Respond` says: effects, failure, flags, target, callback and tunnel (unchanged when the connect raised), listener and relay |
| Events.UpstreamConnected | lib/proxy.rb:91-94 | the completion succeeds, the server stays open (a wired tunnel keeps relaying), and the registered callback runs: tunnel payload then confirmation, or the SOCKS success reply |
| Events.UpstreamClosed | lib/proxy.rb:96-98 | a server that never connected runs the errback (silent failure, or mapped reply and failure); one that connected changes nothing |

## Left out

- EventMachine socket I/O (`send_data`, `close_connection_after_writing`, `proxy_incoming_to`, `attach_server`, `open_datagram_socket`, `send_datagram`, `stop_server`) is recorded as effects in a trace, not performed; writes to a connection that is already closed are not modelled.
- The internals of `EventMachine::Completion` are not modelled; only which callback was registered and how the server resolves it.
- The interface search of `Request#bind_ip` (`Socket.getifaddrs`, netmask matching) is the parameter `Env.iface`; only the domain-name rejection is computed.
- `IPAddr`/`Addrinfo` conversions: hosts are kept as raw octets (no `IPAddr#to_s` text), and the `ArgumentError` of `pack` for a non-IP address cannot arise because socket addresses are IPv4 or IPv6 by construction.
- Log formatting (time stamp, the client's peer address from `client_ip_port`, the target columns, CSV, `String#dump` escaping) is not modelled; a log line keeps its status, reason and preview.
- The connect timeout is not modelled; its outcome arrives as the `ETIMEDOUT` errno class.
- The reactor's stop of the relay when the upstream closes is modelled through the server's `unbound` flag; data written to the upstream before it connects is recorded like any other relayed chunk.
- The `p e` debugging print for an unmapped connect error is not modelled.
- Errors other than `Message::Error` / `Message::FatalError` (from `listen`, `attach_server`, `open_datagram_socket`) are not modelled.
- The proxied byte count of `get_proxied_bytes` is a parameter.
- Socks5.UdpRelay.ReceiveFromClient: requires a complete, valid datagram from an allowed source, because the source dereferences the result of `unpack` unchecked and a short datagram raises out of the handler; datagrams from other sources are not decoded and need not be valid.
- Socks5.Session.Dispatch: requires a command of 1, 2 or 3; the source's `raise cmd` branch is unreachable because `unpack` refuses every other command.
- Socks5Message.UnpackPrefixStable: requires a non-empty prefix, because the empty message is fatal while its extensions need not be.
- Socks5Message.AuthUnpackPrefixStable: requires a non-empty prefix, for the same reason.
- Https.DecimalValue: states only that the value is positive; the conversion of the port text by `EventMachine.connect`, and the refusal of out-of-range ports, are left to the `ConnectAttempt` parameter.
- The value the SOCKS5 `receive_message` returns after a `failure` (lib/socks5.rb:55-59) is taken as "not done"; the buffer is dropped anyway because the connection has failed. The HTTPS handler returns true after a failure (lib/https.rb:22), as modelled.
