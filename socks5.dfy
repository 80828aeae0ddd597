/** The SOCKS5 front end (`SOCKS5` in the source): method negotiation, the
    single command a client may issue (CONNECT, BIND or UDP ASSOCIATE), the
    reply codes for connect errors, the BIND peer check and the UDP relay.
    What one inbound message does is specified by the function `Respond`;
    the `Session` class performs it on a `Connection`. */
module Socks5 {
  import opened Bytes
  import opened Proxy
  import opened Socks5Message

  // ---------------------------------------------------------------------
  // The reaction to one message, as a function

  /** The command a message started, with what its later callbacks need. */
  datatype Started =
    | NoCommand
    | Connecting(target: Target)   // CONNECT: the completion's callbacks are registered
    | Listening(req: Request)      // BIND: the listening socket is attached
    | Relaying(req: Request)       // UDP ASSOCIATE: the relay is open

  /** What `receive_message` does with one buffer: the socket operations in
      order, whether `failure` ran, whether `@authenticated` / `@finalized`
      become true, the returned "done", and the command started. */
  datatype Reaction = Reaction(effects: seq<Effect>, fails: bool, authenticates: bool,
                               finalizes: bool, done: bool, started: Started)

  /** Nothing happens: the message is incomplete. */
  const Wait := Reaction([], false, false, false, false, NoCommand)

  /** A `failure` (or a rescued error ending in one); the method's value is
      then that of `close_connection_after_writing`, which is not "done" (the
      buffer is dropped because the connection failed). */
  function Failing(effects: seq<Effect>): Reaction
  {
    Reaction(effects, true, false, false, false, NoCommand)
  }

  /** The errback of CONNECT: the reply code for a connect error. The
      `Errno::X == e` tests match only the errno class `Server#unbind` passes;
      `EventMachine::ConnectionError === e` matches only a rescued
      `ConnectionError` instance. */
  function ErrorReply(e: ConnectError): (r: Option<byte>)
    ensures r.None? <==> e == ErrnoClass(OtherErrno) || e == Rescued(OtherException)
    ensures r == Some(REP_NETUNREACH) <==> e == ErrnoClass(ENetUnreach)
    ensures r == Some(REP_HOSTUNREACH) <==> e == ErrnoClass(ETimedOut) || e == Rescued(ConnectionError)
    ensures r == Some(REP_CONNREFUSED) <==> e == ErrnoClass(EConnRefused)
  {
    match e
    case ErrnoClass(ENetUnreach) => Some(REP_NETUNREACH)
    case ErrnoClass(ETimedOut) => Some(REP_HOSTUNREACH)
    case Rescued(ConnectionError) => Some(REP_HOSTUNREACH)
    case ErrnoClass(EConnRefused) => Some(REP_CONNREFUSED)
    case _ => None
  }

  /** `send_reply(reply)`: a reply without an address. */
  function Reply(code: byte): Effect
  {
    ToClient(Pack(code, None, None))
  }

  /** What the CONNECT errback emits: the mapped reply, if any, then the failure. */
  function ErrbackEffects(quiet: bool, e: ConnectError): seq<Effect>
  {
    (if ErrorReply(e).Some? then [Reply(ErrorReply(e).value)] else []) + FailureEffects(quiet, ConnectFailed(e), [])
  }

  /** `authenticate(msg)`. */
  function AuthReaction(quiet: bool, msg: seq<byte>): Reaction
  {
    match AuthUnpack(msg)
    case AuthIncomplete => Wait
    case AuthFatal => Failing(FailureEffects(quiet, NotSocks5, Dump(msg)))
    case AuthMethods(methods) =>
      if METH_NOAUTH in methods then
        Reaction([ToClient(AuthPack(METH_NOAUTH))], false, true, false, true, NoCommand)
      else
        Reaction([ToClient(AuthPack(METH_NOACCEPT))] + LogEffects(quiet, LogRecord(Failure, NoAcceptableAuth(methods), [])),
                 false, false, false, true, NoCommand)
  }

  /** `Message::Error` raised while handling a command: the reply with its
      code, then the failure. */
  function Rejection(quiet: bool, code: byte): Reaction
  {
    Failing([Reply(code)] + FailureEffects(quiet, CommandRejected(code), []))
  }

  /** `connect`, `bind` or `udp` for a decoded request, then `@finalized = true`. */
  function DispatchReaction(quiet: bool, req: Request, env: Env): Reaction
    requires ValidSockAddr(env.bound)
  {
    if req.command == CMD_CONNECT then
      var t := Target(req.host, req.port);
      match env.connect
      case Raised(x) => Reaction(ErrbackEffects(quiet, Rescued(x)), true, false, true, true, Connecting(t))
      case Launched => Reaction([Connect(t)], false, false, true, true, Connecting(t))
    else
      match BindIp(req, env.iface)
      case Failed(code) => Rejection(quiet, code)
      case Ok(ip) =>
        var reply := ToClient(Pack(REP_SUCCESS, Some(env.bound), None));
        if req.command == CMD_BIND then Reaction([Listen(ip), reply], false, false, true, true, Listening(req))
        else Reaction([OpenRelay(ip), reply], false, false, true, true, Relaying(req))
  }

  /** The command phase: after authentication, before `@finalized`. */
  function CommandReaction(quiet: bool, msg: seq<byte>, env: Env): Reaction
    requires ValidSockAddr(env.bound)
  {
    match Unpack(msg, false)
    case Incomplete => Wait
    case Fatal => Failing(FailureEffects(quiet, NotSocks5, Dump(msg)))
    case ProtocolError(code) => Rejection(quiet, code)
    case Decoded(req) => DispatchReaction(quiet, req, env)
  }

  /** `receive_message(msg)` in the state given by the two flags. */
  function Respond(quiet: bool, authenticated: bool, finalized: bool, msg: seq<byte>, env: Env): Reaction
    requires ValidSockAddr(env.bound)
  {
    if !authenticated then AuthReaction(quiet, msg)
    else if finalized then Failing(FailureEffects(quiet, UnexpectedMessage, Dump(msg)))
    else CommandReaction(quiet, msg, env)
  }

  /** No octet goes to the client in these effects. */
  predicate Silent(effects: seq<Effect>)
  {
    forall i :: 0 <= i < |effects| ==> !effects[i].ToClient?
  }

  // ---------------------------------------------------------------------
  // What the reaction guarantees

  /** Negotiation: a complete method list is always "done"; the session is
      authenticated (with reply [5, 0]) exactly when "no authentication" is
      offered, and otherwise replies [5, 255] and logs, without failing. */
  lemma AuthOutcome(quiet: bool, msg: seq<byte>, env: Env)
    requires ValidSockAddr(env.bound)
    requires AuthUnpack(msg).AuthMethods?
    ensures var r := Respond(quiet, false, false, msg, env);
      var methods := AuthUnpack(msg).methods;
      r.done && !r.fails && !r.finalizes && r.started == NoCommand &&
      (r.authenticates <==> METH_NOAUTH in methods) &&
      |r.effects| > 0 && r.effects[0] == ToClient(AuthPack(if METH_NOAUTH in methods then 0 else 255)) &&
      (!quiet && METH_NOAUTH !in methods ==> r.effects[1].Logged? && r.effects[1].record.status == Failure)
  {
  }

  /** After the command, any message that reaches the handler fails the
      connection and nothing is sent back. Such messages come only from BIND
      and UDP ASSOCIATE sessions and from a CONNECT whose upstream connected
      and has since closed: while a launched CONNECT is wired the reactor
      relays the client's input upstream, and a CONNECT that failed (raised
      or closed before connecting) has failed the connection, so
      `receive_data` drops the input (`Events.SocksReceiveData`). */
  lemma AfterFinalizedFails(quiet: bool, msg: seq<byte>, env: Env)
    requires ValidSockAddr(env.bound)
    ensures var r := Respond(quiet, true, true, msg, env);
      r.fails && !r.finalizes && !r.authenticates && Silent(r.effects) && r.effects[|r.effects| - 1] == CloseClient
  {
  }

  /** A message that is not SOCKS version 5 fails the connection silently,
      in either phase. */
  lemma FatalFailsSilently(quiet: bool, authenticated: bool, msg: seq<byte>, env: Env)
    requires ValidSockAddr(env.bound)
    requires |msg| == 0 || msg[0] != VER_SOCKS5
    ensures var r := Respond(quiet, authenticated, false, msg, env);
      r.fails && !r.finalizes && !r.authenticates && Silent(r.effects) &&
      r.effects == FailureEffects(quiet, NotSocks5, Dump(msg))
  {
  }

  /** A protocol error sends the reply with its code first, then fails. */
  lemma ProtocolErrorRepliesThenFails(quiet: bool, msg: seq<byte>, env: Env)
    requires ValidSockAddr(env.bound)
    requires Unpack(msg, false).ProtocolError?
    ensures var r := Respond(quiet, true, false, msg, env);
      var code := Unpack(msg, false).code;
      r.fails && !r.finalizes && !r.done && r.effects[0] == ToClient([5, code, 0, 1, 0, 0, 0, 0, 0, 0]) &&
      Silent(r.effects[1..]) && r.effects[|r.effects| - 1] == CloseClient
  {
    var code := Unpack(msg, false).code;
    PackWithoutAddress(code);
  }

  /** `@finalized` becomes true only once a decoded command was dispatched,
      and such a message is always "done". */
  lemma FinalizesOnlyOnDispatch(quiet: bool, authenticated: bool, finalized: bool, msg: seq<byte>, env: Env)
    requires ValidSockAddr(env.bound)
    ensures var r := Respond(quiet, authenticated, finalized, msg, env);
      r.finalizes <==> authenticated && !finalized && Unpack(msg, false).Decoded? &&
                       (Unpack(msg, false).req.command == CMD_CONNECT ||
                        BindIp(Unpack(msg, false).req, env.iface).Ok?)
    ensures var r := Respond(quiet, authenticated, finalized, msg, env);
      r.finalizes ==> r.done && r.started != NoCommand
  {
  }

  /** The CONNECT errback: a reply exactly for the known errors, and the
      connection always fails. */
  lemma ErrbackReplies(quiet: bool, e: ConnectError)
    ensures var effects := ErrbackEffects(quiet, e);
      effects[|effects| - 1] == CloseClient &&
      (Silent(effects) <==> ErrorReply(e).None?) &&
      (ErrorReply(e).Some? ==> effects[0] == Reply(ErrorReply(e).value) && Silent(effects[1..]))
  {
    var effects := ErrbackEffects(quiet, e);
    var tail := FailureEffects(quiet, ConnectFailed(e), []);
    if ErrorReply(e).Some? {
      assert effects == [Reply(ErrorReply(e).value)] + tail;
      assert effects[1..] == tail;
      assert !Silent(effects) by { assert effects[0].ToClient?; }
    } else {
      assert effects == tail;
    }
  }

  /** A CONNECT whose `EventMachine.connect` raised: an
      `EventMachine::ConnectionError` is answered with reply 4 (host
      unreachable), any other exception with no reply at all; the connection
      fails and the command is finalized either way. */
  lemma RaisedConnectReplies(quiet: bool, msg: seq<byte>, env: Env)
    requires ValidSockAddr(env.bound) && env.connect.Raised?
    requires Unpack(msg, false).Decoded? && Unpack(msg, false).req.command == CMD_CONNECT
    ensures var r := Respond(quiet, true, false, msg, env);
      r.fails && r.finalizes && r.done && r.effects[|r.effects| - 1] == CloseClient &&
      (env.connect.exception == ConnectionError ==>
         r.effects[0] == Reply(REP_HOSTUNREACH) && Silent(r.effects[1..])) &&
      (env.connect.exception == OtherException ==> Silent(r.effects))
  {
    ErrbackReplies(quiet, Rescued(env.connect.exception));
  }

  /** Every reaction that fails ends by closing the client connection, and
      every reaction that sends nothing and changes nothing is a wait. */
  lemma FailingCloses(quiet: bool, authenticated: bool, finalized: bool, msg: seq<byte>, env: Env)
    requires ValidSockAddr(env.bound)
    ensures var r := Respond(quiet, authenticated, finalized, msg, env);
      r.fails ==> |r.effects| > 0 && r.effects[|r.effects| - 1] == CloseClient
    ensures var r := Respond(quiet, authenticated, finalized, msg, env);
      r.effects == [] ==> r == Wait
  {
    var r := Respond(quiet, authenticated, finalized, msg, env);
    if authenticated && !finalized && Unpack(msg, false).Decoded? {
      var req := Unpack(msg, false).req;
      if req.command == CMD_CONNECT && env.connect.Raised? {
        ErrbackReplies(quiet, Rescued(env.connect.exception));
      }
    }
  }

  /** Chunking does not matter once a message is decided: a buffer that
      already holds a complete method list or a complete (or refused)
      request reacts exactly like any extension of it, because the trailing
      octets only land in the request's unused data. */
  lemma RespondPrefixStable(quiet: bool, authenticated: bool, msg: seq<byte>, more: seq<byte>, env: Env)
    requires ValidSockAddr(env.bound)
    requires |msg| > 0 && msg[0] == VER_SOCKS5
    requires !authenticated ==> AuthUnpack(msg).AuthMethods?
    requires authenticated ==> Unpack(msg, false).Decoded? || Unpack(msg, false).ProtocolError?
    ensures var r1 := Respond(quiet, authenticated, false, msg, env);
      var r2 := Respond(quiet, authenticated, false, msg + more, env);
      r2.effects == r1.effects && r2.fails == r1.fails && r2.authenticates == r1.authenticates &&
      r2.finalizes == r1.finalizes && r2.done == r1.done
  {
    if !authenticated {
      AuthUnpackPrefixStable(msg, more);
    } else {
      UnpackPrefixStable(msg, more, false);
    }
  }

  // ---------------------------------------------------------------------
  // The UDP relay

  /** What the relay does with its two sockets. */
  datatype RelayEffect =
    | Datagram(data: seq<byte>, addressType: byte, host: seq<byte>, port: Port) // send_datagram on the remote socket
    | ToSource(bytes: seq<byte>)                                               // send_data back to the client's datagram source
    | CloseRemote                                                              // the remote socket closed after writing

  /** `UDPRelay`: the datagram socket of a UDP ASSOCIATE, with the remote
      socket it forwards through (opened on `::` for an IPv6 request and on
      the IPv4 wildcard otherwise). */
  class UdpRelay {
    const request: Request
    const remoteFamily: Family
    var sent: seq<RelayEffect>

    constructor (req: Request)
      ensures request == req && sent == []
      ensures remoteFamily == if req.addressType == ATYP_IPV6 then IPv6 else IPv4
    {
      request := req;
      remoteFamily := if req.addressType == ATYP_IPV6 then IPv6 else IPv4;
      sent := [];
    }

    /** `receive_data` from the client: a datagram from an allowed source is
        forwarded to the address in its header, any other is answered with
        reply 2 and dropped without being decoded. Only complete datagrams
        from an allowed source are modelled. */
    method ReceiveFromClient(peer: SockAddr, data: seq<byte>)
      requires UdpSourceAllowed(request, peer) ==> Unpack(data, true).Decoded?
      modifies this
      ensures UdpSourceAllowed(request, peer) ==>
                var d := Unpack(data, true).req;
                sent == old(sent) + [Datagram(d.data, d.addressType, d.host, d.port)]
      ensures !UdpSourceAllowed(request, peer) ==> sent == old(sent) + [ToSource(Pack(REP_NOTALLOWED, None, None))]
    {
      if UdpSourceAllowed(request, peer) {
        var d := Unpack(data, true).req;
        sent := sent + [Datagram(d.data, d.addressType, d.host, d.port)];
      } else {
        sent := sent + [ToSource(Pack(REP_NOTALLOWED, None, None))];
      }
    }

    /** `Remote#receive_data`: a datagram from the far side goes back to the
        client behind a UDP header carrying the remote socket's own address. */
    method ReceiveFromRemote(sockname: SockAddr, data: seq<byte>)
      requires ValidSockAddr(sockname)
      modifies this
      ensures sent == old(sent) + [ToSource(Pack(RSV, Some(sockname), Some(data)))]
    {
      sent := sent + [ToSource(Pack(RSV, Some(sockname), Some(data)))];
    }

    /** `unbind`: the remote socket is closed after writing. */
    method Unbind()
      modifies this
      ensures sent == old(sent) + [CloseRemote]
    {
      sent := sent + [CloseRemote];
    }
  }

  /** What the client receives from the relay decodes, as a UDP datagram, to
      the data the remote side sent and the address in the header. */
  lemma RelayedDatagramDecodes(sockname: SockAddr, data: seq<byte>)
    requires ValidSockAddr(sockname)
    ensures var d := Unpack(Pack(RSV, Some(sockname), Some(data)), true);
      d.Decoded? && d.req.data == data && d.req.host == sockname.ip && d.req.port == sockname.port &&
      d.req.addressType == AddressType(sockname)
  {
    PackUnpackRoundTrip(RSV, sockname, Some(data));
  }

  // ---------------------------------------------------------------------
  // The session

  /** The state `SOCKS5` adds to the shared connection state `conn`. */
  class Session {
    const conn: Connection
    var authenticated: bool
    var finalized: bool
    var listenServer: bool           // `@listen_server` attached
    var listenSocketOpen: bool       // `@listen_socket` not yet closed
    var bindRequest: Option<Request> // the request the BIND block checks peers against
    var relay: UdpRelay?

    /** A session issues at most one command, and only after negotiation. */
    ghost predicate Valid()
      reads this
    {
      (finalized ==> authenticated) &&
      (listenSocketOpen ==> listenServer) &&
      (listenServer ==> bindRequest.Some? && finalized && relay == null) &&
      (relay != null ==> finalized)
    }

    /** `initialize` and `post_init`. */
    constructor (quiet: bool)
      ensures Valid() && fresh(conn) && conn.quiet == quiet && conn.Valid()
      ensures conn.buf == [] && !conn.failed && conn.target.None? && conn.server == null && conn.trace == []
      ensures !authenticated && !finalized && !listenServer && !listenSocketOpen && relay == null
    {
      conn := new Connection(quiet);
      authenticated, finalized := false, false;
      listenServer, listenSocketOpen, bindRequest, relay := false, false, None, null;
    }

    /** `receive_message(msg)`: performs `Respond` for the current flags. */
    method ReceiveMessage(msg: seq<byte>, env: Env) returns (done: bool)
      requires Valid() && !conn.failed && ValidSockAddr(env.bound)
      modifies this, conn
      ensures Valid()
      ensures var r := Respond(conn.quiet, old(authenticated), old(finalized), msg, env);
        conn.trace == old(conn.trace) + r.effects && conn.failed == r.fails && done == r.done &&
        authenticated == (old(authenticated) || r.authenticates) &&
        finalized == (old(finalized) || r.finalizes)
      ensures var r := Respond(conn.quiet, old(authenticated), old(finalized), msg, env);
        (r.started.Connecting? ==> conn.target == Some(r.started.target)) &&
        (r.started.Connecting? && env.connect.Launched? ==>
           conn.awaiting == SocksConnect && conn.server != null && fresh(conn.server) &&
           conn.server.Valid() && !conn.server.connected && !conn.server.unbound) &&
        (r.started.Connecting? && env.connect.Raised? ==>
           conn.server == old(conn.server) && conn.awaiting == old(conn.awaiting)) &&
        (!r.started.Connecting? ==> conn.target == old(conn.target) && conn.server == old(conn.server) &&
                                    conn.awaiting == old(conn.awaiting))
      ensures var r := Respond(conn.quiet, old(authenticated), old(finalized), msg, env);
        (r.started.Listening? ==> listenServer && listenSocketOpen && bindRequest == Some(r.started.req)) &&
        (!r.started.Listening? ==> listenServer == old(listenServer) && listenSocketOpen == old(listenSocketOpen) &&
                                   bindRequest == old(bindRequest))
      ensures var r := Respond(conn.quiet, old(authenticated), old(finalized), msg, env);
        (r.started.Relaying? ==> relay != null && fresh(relay) && relay.request == r.started.req && relay.sent == []) &&
        (!r.started.Relaying? ==> relay == old(relay))
      ensures conn.buf == old(conn.buf) && conn.chunks == old(conn.chunks)
    {
      if !authenticated {
        done := Authenticate(msg);
      } else if finalized {
        conn.Fail(UnexpectedMessage, Some(msg));
        done := false;
      } else {
        done := Command(msg, env);
      }
    }

    /** `authenticate(msg)`, with the rescue of `FatalError`. */
    method Authenticate(msg: seq<byte>) returns (done: bool)
      requires Valid() && !authenticated && !conn.failed
      modifies this, conn
      ensures Valid()
      ensures var r := AuthReaction(conn.quiet, msg);
        conn.trace == old(conn.trace) + r.effects && conn.failed == r.fails && done == r.done &&
        authenticated == r.authenticates
      ensures finalized == old(finalized) && listenServer == old(listenServer) &&
              listenSocketOpen == old(listenSocketOpen) && bindRequest == old(bindRequest) && relay == old(relay)
      ensures conn.target == old(conn.target) && conn.server == old(conn.server) && conn.awaiting == old(conn.awaiting)
      ensures conn.buf == old(conn.buf) && conn.chunks == old(conn.chunks)
    {
      match AuthUnpack(msg)
      case AuthIncomplete =>
        done := false;
      case AuthFatal =>
        conn.Fail(NotSocks5, Some(msg));
        done := false;
      case AuthMethods(methods) =>
        if METH_NOAUTH in methods {
          conn.SendToClient(AuthPack(METH_NOAUTH));
          authenticated := true;
        } else {
          conn.SendToClient(AuthPack(METH_NOACCEPT));
          conn.Log(LogRecord(Failure, NoAcceptableAuth(methods), []));
        }
        done := true;
    }

    /** The command phase of `receive_message`, with the rescues of
        `Message::Error` and `Message::FatalError`. */
    method Command(msg: seq<byte>, env: Env) returns (done: bool)
      requires Valid() && authenticated && !finalized && !conn.failed && ValidSockAddr(env.bound)
      modifies this, conn
      ensures Valid() && authenticated
      ensures var r := CommandReaction(conn.quiet, msg, env);
        conn.trace == old(conn.trace) + r.effects && conn.failed == r.fails && done == r.done &&
        finalized == r.finalizes
      ensures var r := CommandReaction(conn.quiet, msg, env);
        (r.started.Connecting? ==> conn.target == Some(r.started.target)) &&
        (r.started.Connecting? && env.connect.Launched? ==>
           conn.awaiting == SocksConnect && conn.server != null && fresh(conn.server) &&
           conn.server.Valid() && !conn.server.connected && !conn.server.unbound) &&
        (r.started.Connecting? && env.connect.Raised? ==>
           conn.server == old(conn.server) && conn.awaiting == old(conn.awaiting)) &&
        (!r.started.Connecting? ==> conn.target == old(conn.target) && conn.server == old(conn.server) &&
                                    conn.awaiting == old(conn.awaiting))
      ensures var r := CommandReaction(conn.quiet, msg, env);
        (r.started.Listening? ==> listenServer && listenSocketOpen && bindRequest == Some(r.started.req)) &&
        (!r.started.Listening? ==> listenServer == old(listenServer) && listenSocketOpen == old(listenSocketOpen) &&
                                   bindRequest == old(bindRequest))
      ensures var r := CommandReaction(conn.quiet, msg, env);
        (r.started.Relaying? ==> relay != null && fresh(relay) && relay.request == r.started.req && relay.sent == []) &&
        (!r.started.Relaying? ==> relay == old(relay))
      ensures conn.buf == old(conn.buf) && conn.chunks == old(conn.chunks)
    {
      match Unpack(msg, false)
      case Incomplete =>
        done := false;
      case Fatal =>
        conn.Fail(NotSocks5, Some(msg));
        done := false;
      case ProtocolError(code) =>
        Reject(code);
        done := false;
      case Decoded(req) =>
        done := Dispatch(req, env);
    }

    /** `send_reply(code)` then `failure(e)`, for a `Message::Error`. */
    method Reject(code: byte)
      modifies conn
      ensures conn.failed && conn.trace == old(conn.trace) + Rejection(conn.quiet, code).effects
      ensures conn.target == old(conn.target) && conn.server == old(conn.server) && conn.awaiting == old(conn.awaiting)
      ensures conn.buf == old(conn.buf) && conn.chunks == old(conn.chunks)
    {
      conn.SendToClient(Pack(code, None, None));
      conn.Fail(CommandRejected(code), None);
    }

    /** The `case req.command` of `receive_message`, then `@finalized = true`. */
    method Dispatch(req: Request, env: Env) returns (done: bool)
      requires Valid() && authenticated && !finalized && !conn.failed && ValidSockAddr(env.bound)
      requires req.command in {CMD_CONNECT, CMD_BIND, CMD_UDP}
      modifies this, conn
      ensures Valid() && authenticated
      ensures var r := DispatchReaction(conn.quiet, req, env);
        conn.trace == old(conn.trace) + r.effects && conn.failed == r.fails && done == r.done &&
        finalized == r.finalizes
      ensures var r := DispatchReaction(conn.quiet, req, env);
        (r.started.Connecting? ==> conn.target == Some(r.started.target)) &&
        (r.started.Connecting? && env.connect.Launched? ==>
           conn.awaiting == SocksConnect && conn.server != null && fresh(conn.server) &&
           conn.server.Valid() && !conn.server.connected && !conn.server.unbound) &&
        (r.started.Connecting? && env.connect.Raised? ==>
           conn.server == old(conn.server) && conn.awaiting == old(conn.awaiting)) &&
        (!r.started.Connecting? ==> conn.target == old(conn.target) && conn.server == old(conn.server) &&
                                    conn.awaiting == old(conn.awaiting))
      ensures var r := DispatchReaction(conn.quiet, req, env);
        (r.started.Listening? ==> listenServer && listenSocketOpen && bindRequest == Some(r.started.req)) &&
        (!r.started.Listening? ==> listenServer == old(listenServer) && listenSocketOpen == old(listenSocketOpen) &&
                                   bindRequest == old(bindRequest))
      ensures var r := DispatchReaction(conn.quiet, req, env);
        (r.started.Relaying? ==> relay != null && fresh(relay) && relay.request == r.started.req && relay.sent == []) &&
        (!r.started.Relaying? ==> relay == old(relay))
      ensures conn.buf == old(conn.buf) && conn.chunks == old(conn.chunks)
    {
      if req.command == CMD_CONNECT {
        var syncError := conn.ProxyTo(Target(req.host, req.port), env.connect);
        if syncError.Some? {
          // the completion already failed: the errback runs as it is registered
          ConnectErrback(conn, syncError.value);
        } else {
          conn.awaiting := SocksConnect;
        }
      } else {
        var bound := BindIp(req, env.iface);
        if bound.Failed? {
          Reject(bound.code);
          return false;
        }
        if req.command == CMD_BIND {
          conn.Emit(Listen(bound.ip));
          listenServer, listenSocketOpen, bindRequest := true, true, Some(req);
        } else {
          relay := new UdpRelay(req);
          conn.Emit(OpenRelay(bound.ip));
        }
        conn.SendToClient(Pack(REP_SUCCESS, Some(env.bound), None));
      }
      finalized := true;
      done := true;
    }

    /** The block `attach_server` runs for a connection on the BIND socket:
        the first peer with the requested address closes the listening
        socket, is announced to the client and relayed; any other peer is
        closed. */
    method BindAccept(peer: SockAddr)
      requires Valid() && listenSocketOpen && ValidSockAddr(peer)
      modifies this, conn
      ensures Valid() && listenServer && bindRequest == old(bindRequest) && relay == old(relay)
      ensures BindPeerAllowed(bindRequest.value, peer) ==>
                !listenSocketOpen &&
                conn.trace == old(conn.trace) + [CloseListener, ToClient(Pack(REP_SUCCESS, Some(peer), None)), AcceptPeer(peer)]
      ensures !BindPeerAllowed(bindRequest.value, peer) ==>
                listenSocketOpen && conn.trace == old(conn.trace) + [RejectPeer(peer)]
      ensures authenticated == old(authenticated) && finalized == old(finalized)
      ensures conn.failed == old(conn.failed) && conn.target == old(conn.target) && conn.server == old(conn.server)
      ensures conn.awaiting == old(conn.awaiting) && conn.buf == old(conn.buf) && conn.chunks == old(conn.chunks)
    {
      if BindPeerAllowed(bindRequest.value, peer) {
        conn.Emit(CloseListener);
        listenSocketOpen := false;
        conn.SendToClient(Pack(REP_SUCCESS, Some(peer), None));
        conn.Emit(AcceptPeer(peer));
      } else {
        conn.Emit(RejectPeer(peer));
      }
    }

    /** `unbind`: the shared close handling, then the listening socket (if
        still open), the relay and the listening server. */
    method Unbind(proxied: nat)
      requires Valid()
      modifies this, conn
      ensures Valid() && !listenSocketOpen
      ensures conn.trace == old(conn.trace) + UnbindEffects(old(conn.server) != null, conn.failed, conn.quiet, proxied) +
                            (if old(listenSocketOpen) then [CloseListener] else []) +
                            (if relay != null then [CloseRelay] else []) +
                            (if listenServer then [StopListenServer] else [])
      ensures conn.server == null && conn.failed == old(conn.failed)
      ensures authenticated == old(authenticated) && finalized == old(finalized) && listenServer == old(listenServer)
      ensures bindRequest == old(bindRequest) && relay == old(relay)
    {
      conn.Unbind(proxied);
      if listenSocketOpen {
        conn.Emit(CloseListener);
        listenSocketOpen := false;
      }
      if relay != null {
        conn.Emit(CloseRelay);
      }
      if listenServer {
        conn.Emit(StopListenServer);
      }
    }
  }

  /** The CONNECT errback: the reply for the error, if it has one, then
      `failure(e)`. */
  method ConnectErrback(conn: Connection, e: ConnectError)
    modifies conn
    ensures conn.failed && conn.trace == old(conn.trace) + ErrbackEffects(conn.quiet, e)
    ensures conn.target == old(conn.target) && conn.server == old(conn.server) && conn.awaiting == old(conn.awaiting)
    ensures conn.buf == old(conn.buf) && conn.chunks == old(conn.chunks)
  {
    var code := ErrorReply(e);
    if code.Some? {
      conn.SendToClient(Pack(code.value, None, None));
    }
    conn.Fail(ConnectFailed(e), None);
  }

  /** The CONNECT callback: reply success with the upstream socket's local address. */
  method ConnectCallback(conn: Connection, sockname: SockAddr)
    requires ValidSockAddr(sockname)
    modifies conn
    ensures conn.trace == old(conn.trace) + [ToClient(Pack(REP_SUCCESS, Some(sockname), None))]
    ensures conn.failed == old(conn.failed) && conn.target == old(conn.target) && conn.server == old(conn.server)
    ensures conn.awaiting == old(conn.awaiting) && conn.buf == old(conn.buf) && conn.chunks == old(conn.chunks)
  {
    conn.SendToClient(Pack(REP_SUCCESS, Some(sockname), None));
  }

  /** What the shared `unbind` emits. */
  function UnbindEffects(upstream: bool, failed: bool, quiet: bool, proxied: nat): seq<Effect>
  {
    if !upstream then []
    else (if failed then [] else LogEffects(quiet, LogRecord(Success, Relayed(proxied), []))) + [CloseUpstream]
  }
}
