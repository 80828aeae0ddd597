/** The reactor's events on a proxied connection: a chunk from the client
    (`Proxy#receive_data`, which hands the whole buffer to the front end's
    `receive_message`), and the upstream `Server` connecting or closing,
    which resolves the completion and runs the callback the front end
    registered. */
module Events {
  import opened Bytes
  import opened Proxy
  import opened Socks5Message
  import Https
  import Socks5

  /** Appending a chunk appends its octets to the concatenation. */
  lemma FlattenAppend(chunks: seq<seq<byte>>, data: seq<byte>)
    ensures Flatten(chunks + [data]) == Flatten(chunks) + data
  {
    assert (chunks + [data])[..|chunks|] == chunks;
  }

  /** The buffering rule of `receive_data`, given the state before the chunk,
      what the handler said and whether the connection failed: the buffer is
      dropped exactly when the handler was done or the connection failed,
      and otherwise keeps the chunk appended. */
  ghost predicate Buffered(oldChunks: seq<seq<byte>>, data: seq<byte>, done: bool, failed: bool,
                           buf: seq<byte>, chunks: seq<seq<byte>>)
  {
    if done || failed then buf == [] && chunks == []
    else chunks == oldChunks + [data] && buf == Flatten(oldChunks) + data
  }

  /** `receive_data(data)` on an HTTP CONNECT connection. While the tunnel
      is wired the reactor relays the chunk upstream itself and the method
      never runs; a failed connection ignores the chunk; otherwise the
      handler sees every chunk since the buffer was last cleared, in order,
      and reacts as `Https.ReceiveMessage` says. `handed` is what it was
      given. */
  method HttpReceiveData(c: Connection, data: seq<byte>, attempt: ConnectAttempt)
    returns (handed: Option<seq<byte>>, done: bool)
    requires c.Valid()
    modifies c
    ensures c.Valid()
    ensures old(c.Tunnelled()) ==>
              handed.None? && !done && c.trace == old(c.trace) + [ToUpstream(data)] && c.failed == old(c.failed) &&
              c.buf == old(c.buf) && c.chunks == old(c.chunks)
    ensures !old(c.Tunnelled()) && old(c.failed) ==>
              handed.None? && !done && c.failed && c.trace == old(c.trace) &&
              c.buf == old(c.buf) && c.chunks == old(c.chunks)
    ensures old(c.Tunnelled()) || old(c.failed) ==>
              c.target == old(c.target) && c.server == old(c.server) && c.awaiting == old(c.awaiting)
    ensures !old(c.Tunnelled()) && !old(c.failed) ==>
              handed == Some(Flatten(old(c.chunks) + [data])) && handed.value == old(c.buf) + data &&
              done == Https.HasTerminator(handed.value) &&
              Buffered(old(c.chunks), data, done, c.failed, c.buf, c.chunks)
    ensures !old(c.Tunnelled()) && !old(c.failed) && !done ==>
              !c.failed && c.trace == old(c.trace) &&
              c.target == old(c.target) && c.server == old(c.server) && c.awaiting == old(c.awaiting)
    ensures !old(c.Tunnelled()) && !old(c.failed) && done && Https.ParseConnect(handed.value).None? ==>
              c.failed && c.trace == old(c.trace) + FailureEffects(c.quiet, MalformedRequest, Dump(handed.value)) &&
              c.target == old(c.target) && c.server == old(c.server) && c.awaiting == old(c.awaiting)
    ensures !old(c.Tunnelled()) && !old(c.failed) && done && Https.ParseConnect(handed.value).Some? ==>
              var r := Https.ParseConnect(handed.value).value;
              c.target == Some(Https.TargetOf(r)) &&
              (attempt.Raised? ==>
                 c.failed && c.trace == old(c.trace) + FailureEffects(c.quiet, ConnectFailed(Rescued(attempt.exception)), []) &&
                 c.server == old(c.server) && c.awaiting == old(c.awaiting)) &&
              (attempt.Launched? ==>
                 !c.failed && c.trace == old(c.trace) + [Connect(Https.TargetOf(r))] &&
                 c.awaiting == Tunnel(r.payload, r.version) && c.Tunnelled() && fresh(c.server) &&
                 c.server.Valid() && !c.server.connected)
  {
    if c.Tunnelled() {
      // `proxy_incoming_to`: the reactor writes the chunk to the upstream
      c.trace := c.trace + [ToUpstream(data)];
      return None, false;
    }
    if c.failed {
      return None, false;
    }
    FlattenAppend(c.chunks, data);
    c.Append(data);
    handed := Some(c.buf);
    done := Https.ReceiveMessage(c, c.buf, attempt);
    if done || c.failed {
      c.ClearBuffer();
    }
  }

  /** `receive_data(data)` on a SOCKS5 connection, with the same relaying and
      buffering; the session reacts to the buffer as `Respond` says. Only a
      launched CONNECT wires the tunnel, so after BIND or UDP ASSOCIATE
      further input still reaches the handler. */
  method SocksReceiveData(s: Socks5.Session, data: seq<byte>, env: Env)
    returns (handed: Option<seq<byte>>, done: bool)
    requires s.Valid() && s.conn.Valid() && ValidSockAddr(env.bound)
    modifies s, s.conn
    ensures s.Valid() && s.conn.Valid()
    ensures old(s.conn.Tunnelled()) ==>
              handed.None? && !done && s.conn.trace == old(s.conn.trace) + [ToUpstream(data)] &&
              s.conn.failed == old(s.conn.failed)
    ensures !old(s.conn.Tunnelled()) && old(s.conn.failed) ==>
              handed.None? && !done && s.conn.failed && s.conn.trace == old(s.conn.trace)
    ensures old(s.conn.Tunnelled()) || old(s.conn.failed) ==>
              s.conn.buf == old(s.conn.buf) && s.conn.chunks == old(s.conn.chunks) &&
              s.conn.target == old(s.conn.target) && s.conn.server == old(s.conn.server) &&
              s.conn.awaiting == old(s.conn.awaiting) &&
              s.authenticated == old(s.authenticated) && s.finalized == old(s.finalized) &&
              s.listenServer == old(s.listenServer) && s.listenSocketOpen == old(s.listenSocketOpen) &&
              s.bindRequest == old(s.bindRequest) && s.relay == old(s.relay)
    ensures !old(s.conn.Tunnelled()) && !old(s.conn.failed) ==>
              handed == Some(Flatten(old(s.conn.chunks) + [data])) && handed.value == old(s.conn.buf) + data
    ensures !old(s.conn.Tunnelled()) && !old(s.conn.failed) ==>
              var r := Socks5.Respond(s.conn.quiet, old(s.authenticated), old(s.finalized), handed.value, env);
              s.conn.trace == old(s.conn.trace) + r.effects && s.conn.failed == r.fails && done == r.done &&
              s.authenticated == (old(s.authenticated) || r.authenticates) &&
              s.finalized == (old(s.finalized) || r.finalizes) &&
              Buffered(old(s.conn.chunks), data, done, s.conn.failed, s.conn.buf, s.conn.chunks)
    ensures !old(s.conn.Tunnelled()) && !old(s.conn.failed) ==>
              var r := Socks5.Respond(s.conn.quiet, old(s.authenticated), old(s.finalized), handed.value, env);
              (r.started.Connecting? ==> s.conn.target == Some(r.started.target)) &&
              (r.started.Connecting? && env.connect.Launched? ==>
                 s.conn.awaiting == SocksConnect && s.conn.Tunnelled() && fresh(s.conn.server) &&
                 s.conn.server.Valid() && !s.conn.server.connected) &&
              (r.started.Connecting? && env.connect.Raised? ==>
                 s.conn.server == old(s.conn.server) && s.conn.awaiting == old(s.conn.awaiting)) &&
              (!r.started.Connecting? ==> s.conn.target == old(s.conn.target) && s.conn.server == old(s.conn.server) &&
                                          s.conn.awaiting == old(s.conn.awaiting))
    ensures !old(s.conn.Tunnelled()) && !old(s.conn.failed) ==>
              var r := Socks5.Respond(s.conn.quiet, old(s.authenticated), old(s.finalized), handed.value, env);
              (r.started.Listening? ==> s.listenServer && s.listenSocketOpen && s.bindRequest == Some(r.started.req)) &&
              (!r.started.Listening? ==> s.listenServer == old(s.listenServer) &&
                                         s.listenSocketOpen == old(s.listenSocketOpen) &&
                                         s.bindRequest == old(s.bindRequest)) &&
              (r.started.Relaying? ==> s.relay != null && fresh(s.relay) && s.relay.request == r.started.req &&
                                       s.relay.sent == []) &&
              (!r.started.Relaying? ==> s.relay == old(s.relay))
  {
    var c := s.conn;
    if c.Tunnelled() {
      // `proxy_incoming_to`: the reactor writes the chunk to the upstream
      c.trace := c.trace + [ToUpstream(data)];
      return None, false;
    }
    if c.failed {
      return None, false;
    }
    FlattenAppend(c.chunks, data);
    c.Append(data);
    handed := Some(c.buf);
    done := s.ReceiveMessage(c.buf, env);
    if done || c.failed {
      c.ClearBuffer();
    }
  }

  /** `Server#connection_completed`: the completion succeeds and the
      registered callback runs — the tunnel's payload and confirmation for
      HTTP CONNECT, the success reply with the upstream socket's local
      address for SOCKS5. */
  method UpstreamConnected(c: Connection, srv: Server, sockname: SockAddr)
    requires srv.Valid() && !srv.connected && !srv.unbound && ValidSockAddr(sockname)
    modifies c, srv
    ensures srv.Valid() && srv.connected && !srv.unbound && srv.outcome == Succeeded
    ensures c.Tunnelled() == old(c.Tunnelled())
    ensures c.awaiting.Tunnel? ==>
              c.trace == old(c.trace) + [ToUpstream(c.awaiting.payload), ToClient(c.awaiting.version + Https.ESTABLISHED)]
    ensures c.awaiting == SocksConnect ==>
              c.trace == old(c.trace) + [ToClient(Pack(REP_SUCCESS, Some(sockname), None))]
    ensures c.awaiting == NoCallback ==> c.trace == old(c.trace)
    ensures c.failed == old(c.failed) && c.awaiting == old(c.awaiting) && c.server == old(c.server)
    ensures c.buf == old(c.buf) && c.chunks == old(c.chunks)
  {
    srv.ConnectionCompleted();
    match c.awaiting
    case Tunnel(_, _) => Https.Established(c);
    case SocksConnect => Socks5.ConnectCallback(c, sockname);
    case NoCallback =>
  }

  /** `Server#unbind(errno)`: a server that never connected fails the
      completion and the registered errback runs — a silent failure for
      HTTP CONNECT, the mapped reply and a failure for SOCKS5. A server that
      had connected changes nothing on the client side. */
  method UpstreamClosed(c: Connection, srv: Server, errno: Errno)
    requires srv.Valid() && !srv.unbound
    modifies c, srv
    ensures srv.Valid() && srv.unbound && srv.connected == old(srv.connected)
    ensures old(srv.connected) ==> c.trace == old(c.trace) && c.failed == old(c.failed)
    ensures !old(srv.connected) && c.awaiting.Tunnel? ==>
              c.failed && c.trace == old(c.trace) + FailureEffects(c.quiet, ConnectFailed(ErrnoClass(errno)), [])
    ensures !old(srv.connected) && c.awaiting == SocksConnect ==>
              c.failed && c.trace == old(c.trace) + Socks5.ErrbackEffects(c.quiet, ErrnoClass(errno))
    ensures !old(srv.connected) && c.awaiting == NoCallback ==> c.trace == old(c.trace) && c.failed == old(c.failed)
    ensures c.awaiting == old(c.awaiting) && c.server == old(c.server)
    ensures c.buf == old(c.buf) && c.chunks == old(c.chunks)
  {
    var failedNow := srv.Unbind(errno);
    if failedNow {
      match c.awaiting
      case Tunnel(_, _) => Https.ConnectFailure(c, ErrnoClass(errno));
      case SocksConnect => Socks5.ConnectErrback(c, ErrnoClass(errno));
      case NoCallback =>
    }
  }
}
