/** The behaviour shared by both front-end protocols (`Proxy` in the source):
    input buffering, the sticky failure flag, opening the upstream connection,
    the access log and the upstream `Server` connection's outcome flag.
    Socket operations are recorded, in order, in the connection's `trace`. */
module Proxy {
  import opened Bytes

  /** The errno class the reactor hands to `Server#unbind` when the upstream
      connection closes (`Errno::ENETUNREACH`, `Errno::ETIMEDOUT`,
      `Errno::ECONNREFUSED`; any other class, or none, is `OtherErrno`). */
  datatype Errno = ENetUnreach | ETimedOut | EConnRefused | OtherErrno

  /** An exception instance `EventMachine.connect` raised: an
      `EventMachine::ConnectionError`, or anything else. */
  datatype Exception = ConnectionError | OtherException

  /** What a failed connect completion carries: the errno class passed by
      `Server#unbind` (a class, so `Errno::X == e` can hold), or the exception
      instance `proxy_to` rescued (an instance, so only `===` on its class
      can match it). */
  datatype ConnectError = ErrnoClass(errno: Errno) | Rescued(exception: Exception)

  /** What the outside world answers when the proxy calls
      `EventMachine.connect`: the attempt was launched, or it raised. */
  datatype ConnectAttempt = Launched | Raised(exception: Exception)

  /** The outside world's answers to the calls one inbound chunk may make:
      `connect` for `EventMachine.connect`, `iface` for the interface search
      of `Request#bind_ip`, and `bound` for the local address of the socket a
      BIND or UDP ASSOCIATE opens. */
  datatype Env = Env(connect: ConnectAttempt, iface: Option<seq<byte>>, bound: SockAddr)

  /** Upstream host and port as passed to `EventMachine.connect`. */
  datatype Target = Target(host: seq<byte>, port: nat)

  datatype Status = Success | Failure

  /** Why a log line was written. */
  datatype Reason =
    | MalformedRequest            // HTTP request that does not match the CONNECT pattern
    | ConnectFailed(error: ConnectError)
    | UnexpectedMessage           // a SOCKS5 message after the single command
    | NotSocks5                   // Message::FatalError
    | CommandRejected(code: byte) // Message::Error
    | NoAcceptableAuth(methods: seq<byte>)
    | Relayed(bytes: nat)         // the success line written at close

  /** One access-log line: status, reason and the bounded preview of the
      offending input (empty when there is none). Time stamp and CSV
      formatting are not modelled. */
  datatype LogRecord = LogRecord(status: Status, reason: Reason, preview: seq<byte>)

  /** One socket operation, in the order the connection performs them. */
  datatype Effect =
    | ToClient(bytes: seq<byte>)       // send_data on the client connection
    | ToUpstream(bytes: seq<byte>)     // send_data on the upstream connection
    | Logged(record: LogRecord)
    | CloseClient                      // close_connection_after_writing
    | Connect(target: Target)          // EventMachine.connect and relay wiring both ways
    | CloseUpstream                    // close_connection_after_writing on the upstream
    | Listen(ip: seq<byte>)            // BIND listening socket opened
    | AcceptPeer(peer: SockAddr)       // BIND peer kept and relayed to the client
    | RejectPeer(peer: SockAddr)       // BIND peer closed
    | CloseListener                    // BIND listening socket closed
    | StopListenServer                 // EventMachine.stop_server
    | OpenRelay(ip: seq<byte>)         // UDP relay datagram socket opened
    | CloseRelay                       // UDP relay closed after writing

  /** The callback a handler registered on the connect completion. */
  datatype Callback =
    | NoCallback
    | Tunnel(payload: seq<byte>, version: seq<byte>) // HTTP CONNECT: pipelined bytes, HTTP version
    | SocksConnect                                   // SOCKS5 CONNECT reply

  /** `dump(data)`: the preview of offending input; at most its first 32
      octets (the escaping of `String#dump` is not modelled). */
  function Dump(data: seq<byte>): (r: seq<byte>)
    ensures |r| <= 32
    ensures |r| == (if |data| < 32 then |data| else 32)
    ensures r <= data
  {
    if |data| <= 32 then data else data[..32]
  }

  /** The concatenation of the chunks received since the buffer was last cleared. */
  function Flatten(chunks: seq<seq<byte>>): seq<byte>
  {
    if chunks == [] then [] else Flatten(chunks[..|chunks| - 1]) + chunks[|chunks| - 1]
  }

  /** What `log` emits: nothing when the connection is quiet. */
  function LogEffects(quiet: bool, record: LogRecord): (r: seq<Effect>)
    ensures quiet <==> r == []
  {
    if quiet then [] else [Logged(record)]
  }

  /** What `failure` emits: the failure log line, then the close. */
  function FailureEffects(quiet: bool, reason: Reason, preview: seq<byte>): (r: seq<Effect>)
    ensures |r| > 0 && r[|r| - 1] == CloseClient
    ensures forall i :: 0 <= i < |r| ==> !r[i].ToClient? && !r[i].ToUpstream?
  {
    LogEffects(quiet, LogRecord(Failure, reason, preview)) + [CloseClient]
  }

  /** The outcome of an `EventMachine::Completion` as the callbacks see it. */
  datatype Outcome = Pending | Succeeded | Failed(error: ConnectError)

  /** `Proxy::Server`: the upstream connection; it resolves the connect
      completion and remembers whether it ever connected. */
  class Server {
    var connected: bool
    var outcome: Outcome
    var unbound: bool

    ghost predicate Valid()
      reads this
    {
      (connected <==> outcome == Succeeded) &&
      (!unbound ==> outcome == Pending || outcome == Succeeded) &&
      (unbound ==> outcome != Pending)
    }

    constructor ()
      ensures Valid() && !connected && !unbound && outcome == Pending
    {
      connected, outcome, unbound := false, Pending, false;
    }

    /** `connection_completed`: the completion succeeds. */
    method ConnectionCompleted()
      requires Valid() && !connected && !unbound
      modifies this
      ensures Valid() && connected && !unbound && outcome == Succeeded
    {
      connected := true;
      outcome := Succeeded;
    }

    /** `unbind(errno)`: fails the completion with the errno class only if
        it never connected. `failedNow` says whether the errbacks fire. */
    method Unbind(errno: Errno) returns (failedNow: bool)
      requires Valid() && !unbound
      modifies this
      ensures Valid() && unbound && connected == old(connected)
      ensures failedNow <==> !old(connected)
      ensures outcome == if old(connected) then Succeeded else Failed(ErrnoClass(errno))
    {
      unbound := true;
      failedNow := !connected;
      if failedNow {
        outcome := Failed(ErrnoClass(errno));
      }
    }
  }

  /** A server that connected is never also failed, and a server that closed
      without connecting is failed. */
  lemma ServerOutcomeExclusive(s: Server)
    requires s.Valid()
    ensures s.connected ==> !s.outcome.Failed?
    ensures s.unbound && !s.connected ==> s.outcome.Failed?
  {
  }

  /** The state `Proxy` keeps for one client connection. */
  class Connection {
    var buf: seq<byte>
    ghost var chunks: seq<seq<byte>>
    var failed: bool
    const quiet: bool
    var target: Option<Target>
    var server: Server?
    var awaiting: Callback
    var trace: seq<Effect>

    /** The buffer always holds exactly the chunks received since it was
        last cleared. */
    ghost predicate Valid()
      reads this
    {
      buf == Flatten(chunks)
    }

    /** Whether the reactor relays the client's input straight to the
        upstream, bypassing `receive_data`: `proxy_to` wires this with
        `proxy_incoming_to(@server)` once the connect is launched, and it
        lasts until the upstream connection closes. */
    predicate Tunnelled()
      reads this, server
    {
      server != null && !server.unbound
    }

    /** `initialize`: an empty buffer, not failed, no upstream. */
    constructor (quiet: bool)
      ensures Valid() && this.quiet == quiet
      ensures buf == [] && chunks == [] && !failed && target.None? && server == null
      ensures awaiting == NoCallback && trace == []
    {
      this.quiet := quiet;
      buf, chunks, failed, target, server, awaiting, trace := [], [], false, None, null, NoCallback, [];
    }

    /** `@buf << data`. */
    method Append(data: seq<byte>)
      requires Valid()
      modifies this
      ensures Valid() && buf == old(buf) + data && chunks == old(chunks) + [data]
      ensures failed == old(failed) && target == old(target) && server == old(server)
      ensures awaiting == old(awaiting) && trace == old(trace)
    {
      buf := buf + data;
      chunks := chunks + [data];
    }

    /** `@buf = nil`. */
    method ClearBuffer()
      modifies this
      ensures Valid() && buf == [] && chunks == []
      ensures failed == old(failed) && target == old(target) && server == old(server)
      ensures awaiting == old(awaiting) && trace == old(trace)
    {
      buf, chunks := [], [];
    }

    /** `send_data` on the client connection. */
    method SendToClient(bytes: seq<byte>)
      modifies this
      ensures trace == old(trace) + [ToClient(bytes)]
      ensures buf == old(buf) && chunks == old(chunks) && failed == old(failed)
      ensures target == old(target) && server == old(server) && awaiting == old(awaiting)
    {
      trace := trace + [ToClient(bytes)];
    }

    /** Records a socket operation other than a write. */
    method Emit(e: Effect)
      modifies this
      ensures trace == old(trace) + [e]
      ensures buf == old(buf) && chunks == old(chunks) && failed == old(failed)
      ensures target == old(target) && server == old(server) && awaiting == old(awaiting)
    {
      trace := trace + [e];
    }

    /** `log(status, comment)`. */
    method Log(record: LogRecord)
      modifies this
      ensures trace == old(trace) + LogEffects(quiet, record)
      ensures buf == old(buf) && chunks == old(chunks) && failed == old(failed)
      ensures target == old(target) && server == old(server) && awaiting == old(awaiting)
    {
      if !quiet {
        trace := trace + [Logged(record)];
      }
    }

    /** `failure(comment, data)`: marks the connection failed for good, logs
        the reason with a preview of `data`, and closes after writing. */
    method Fail(reason: Reason, data: Option<seq<byte>>)
      modifies this
      ensures failed
      ensures trace == old(trace) + FailureEffects(quiet, reason, if data.Some? then Dump(data.value) else [])
      ensures buf == old(buf) && chunks == old(chunks)
      ensures target == old(target) && server == old(server) && awaiting == old(awaiting)
    {
      failed := true;
      Log(LogRecord(Failure, reason, if data.Some? then Dump(data.value) else []));
      Emit(CloseClient);
    }

    /** `proxy_to(host, port)`: records the target first, then attempts the
        connect. An attempt that raises fails the completion at once and
        wires nothing (`syncError`); otherwise a fresh pending `Server` is
        wired to this connection. */
    method ProxyTo(t: Target, attempt: ConnectAttempt) returns (syncError: Option<ConnectError>)
      modifies this
      ensures target == Some(t)
      ensures attempt.Raised? ==> syncError == Some(Rescued(attempt.exception)) && server == old(server) && trace == old(trace)
      ensures attempt.Launched? ==> syncError.None? && trace == old(trace) + [Connect(t)]
      ensures attempt.Launched? ==> server != null && fresh(server) && server.Valid()
      ensures attempt.Launched? ==> !server.connected && !server.unbound && server.outcome == Pending
      ensures buf == old(buf) && chunks == old(chunks) && failed == old(failed) && awaiting == old(awaiting)
    {
      target := Some(t);
      if attempt.Raised? {
        syncError := Some(Rescued(attempt.exception));
      } else {
        server := new Server();
        trace := trace + [Connect(t)];
        syncError := None;
      }
    }

    /** `unbind` (client side closed): logs success only if an upstream
        exists and the connection never failed, closes the upstream after
        writing and forgets it. `proxied` is the relayed byte count. */
    method Unbind(proxied: nat)
      modifies this
      ensures old(server) == null ==> trace == old(trace) && server == null
      ensures old(server) != null ==> server == null
      ensures old(server) != null ==>
                trace == old(trace) + (if failed then [] else LogEffects(quiet, LogRecord(Success, Relayed(proxied), []))) + [CloseUpstream]
      ensures buf == old(buf) && chunks == old(chunks) && failed == old(failed)
      ensures target == old(target) && awaiting == old(awaiting)
    {
      if server == null {
        return;
      }
      if !failed {
        Log(LogRecord(Success, Relayed(proxied), []));
      }
      Emit(CloseUpstream);
      server := null;
    }
  }
}
