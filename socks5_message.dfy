/** The SOCKS5 wire codec of RFC 1928: method negotiation (section 3), the
    request (sections 4 and 5), the reply (section 6) and the UDP request
    header (section 7). Every operation is a function of the octets. */
module Socks5Message {
  import opened Bytes

  const VER_SOCKS5: byte := 5
  const ATYP_IPV4: byte := 1
  const ATYP_DOMAIN: byte := 3
  const ATYP_IPV6: byte := 4
  const RSV: byte := 0
  const CMD_CONNECT: byte := 1
  const CMD_BIND: byte := 2
  const CMD_UDP: byte := 3
  const METH_NOAUTH: byte := 0
  const METH_NOACCEPT: byte := 255
  const REP_SUCCESS: byte := 0
  const REP_NOTALLOWED: byte := 2
  const REP_NETUNREACH: byte := 3
  const REP_HOSTUNREACH: byte := 4
  const REP_CONNREFUSED: byte := 5
  const REP_CMDNOTSUPPORTED: byte := 7
  const REP_ATYPNOTSUPPORTED: byte := 8

  // ---------------------------------------------------------------------
  // Method negotiation

  /** Outcome of decoding a method-selection message. */
  datatype AuthResult = AuthIncomplete | AuthMethods(methods: seq<byte>) | AuthFatal

  /** `Message.auth_unpack`: the version octet is checked first, then the
      two length conditions; trailing octets are ignored. */
  function AuthUnpack(msg: seq<byte>): (r: AuthResult)
    ensures r.AuthMethods? ==> |msg| >= 2 && |msg| >= 2 + msg[1] as int && msg[2..2 + msg[1] as int] == r.methods
    ensures r == AuthFatal <==> |msg| == 0 || msg[0] != VER_SOCKS5
  {
    if |msg| == 0 || msg[0] != VER_SOCKS5 then AuthFatal
    else if |msg| < 2 then AuthIncomplete
    else if msg[1] > |msg| - 2 then AuthIncomplete
    else AuthMethods(msg[2..2 + msg[1]])
  }

  /** `Message.auth_pack`: the method-selection reply. */
  function AuthPack(chosen: byte): (r: seq<byte>)
    ensures |r| == 2 && r[0] == VER_SOCKS5 && r[1] == chosen
  {
    [VER_SOCKS5, chosen]
  }

  /** The client's method-selection message (section 3 of RFC 1928),
      the reference encoding `AuthUnpack` is checked against. */
  function AuthRequest(methods: seq<byte>): seq<byte>
    requires |methods| < 256
  {
    [VER_SOCKS5, |methods|] + methods
  }

  /** Decoding a client's method-selection message gives back its methods,
      whatever follows it. */
  lemma AuthUnpackRoundTrip(methods: seq<byte>, rest: seq<byte>)
    requires |methods| < 256
    ensures AuthUnpack(AuthRequest(methods) + rest) == AuthMethods(methods)
  {
    var msg := AuthRequest(methods) + rest;
    assert msg[2..2 + |methods|] == methods;
  }

  /** Once a non-empty message is decided, later octets never change the
      decision. (The empty message is refused as fatal only because it has no
      version octet yet.) */
  lemma AuthUnpackPrefixStable(msg: seq<byte>, more: seq<byte>)
    requires |msg| > 0
    requires AuthUnpack(msg) != AuthIncomplete
    ensures AuthUnpack(msg + more) == AuthUnpack(msg)
  {
    var m := msg + more;
    assert m[0] == msg[0];
    if msg[0] == VER_SOCKS5 {
      assert m[1] == msg[1];
      assert m[2..2 + msg[1]] == msg[2..2 + msg[1]];
    }
  }

  /** An undecided message stays undecided when cut short (but not emptied):
      byte-at-a-time delivery never decides before the whole message has. */
  lemma AuthUnpackIncompletePrefix(msg: seq<byte>, k: nat)
    requires AuthUnpack(msg) == AuthIncomplete
    requires 0 < k <= |msg|
    ensures AuthUnpack(msg[..k]) == AuthIncomplete
  {
  }

  // ---------------------------------------------------------------------
  // Requests and UDP headers

  /** `Message::Request`: the decoded command. `host` keeps the raw octets
      (4 or 16 address octets, or the domain name). */
  datatype Request = Request(command: byte, fragment: byte, addressType: byte,
                             host: seq<byte>, port: Port, data: seq<byte>)

  /** Outcome of `Message.unpack`: nil, a `Request`, a `Message::Error` with
      its reply code, or a `Message::FatalError`. */
  datatype Unpacked = Incomplete | Decoded(req: Request) | ProtocolError(code: byte) | Fatal

  /** The version test of `unpack`, which UDP headers skip. */
  predicate VersionRefused(msg: seq<byte>, udp: bool)
  {
    !udp && (|msg| == 0 || msg[0] != VER_SOCKS5)
  }

  /** The command test of `unpack` on the second octet, which UDP headers skip. */
  predicate CommandRefused(msg: seq<byte>, udp: bool)
    requires |msg| >= 2
  {
    !udp && msg[1] !in {CMD_CONNECT, CMD_BIND, CMD_UDP}
  }

  /** The address types `unpack` knows. */
  predicate KnownAddressType(atyp: byte)
  {
    atyp in {ATYP_IPV4, ATYP_DOMAIN, ATYP_IPV6}
  }

  /** How many octets precede the trailing data for the address type in the
      fourth octet: 10 for IPv4, 7 plus the name length for a domain, 22 for
      IPv6. */
  function HeaderLength(msg: seq<byte>): nat
    requires |msg| >= 5
  {
    if msg[3] == ATYP_IPV4 then 10 else if msg[3] == ATYP_DOMAIN then 7 + msg[4] as nat else 22
  }

  /** `Message.unpack(msg, udp:)`. The checks run in the source's order:
      version (not for UDP), length 5, command (not for UDP), address type,
      then the length the address type needs; each outcome is characterised
      below by exactly the inputs that produce it. */
  function Unpack(msg: seq<byte>, udp: bool): (r: Unpacked)
    ensures r == Fatal <==> VersionRefused(msg, udp)
    ensures r == ProtocolError(REP_CMDNOTSUPPORTED) <==>
              !VersionRefused(msg, udp) && |msg| >= 5 && CommandRefused(msg, udp)
    ensures r == ProtocolError(REP_ATYPNOTSUPPORTED) <==>
              !VersionRefused(msg, udp) && |msg| >= 5 && !CommandRefused(msg, udp) && !KnownAddressType(msg[3])
    ensures r == Incomplete <==>
              !VersionRefused(msg, udp) &&
              (|msg| < 5 || (!CommandRefused(msg, udp) && KnownAddressType(msg[3]) && |msg| < HeaderLength(msg)))
    ensures r.Decoded? <==>
              !VersionRefused(msg, udp) && |msg| >= 5 && !CommandRefused(msg, udp) &&
              KnownAddressType(msg[3]) && |msg| >= HeaderLength(msg)
    ensures r.ProtocolError? ==> r.code == REP_CMDNOTSUPPORTED || r.code == REP_ATYPNOTSUPPORTED
    ensures r.Decoded? ==> udp || r.req.command in {CMD_CONNECT, CMD_BIND, CMD_UDP}
    ensures r.Decoded? ==> r.req.addressType in {ATYP_IPV4, ATYP_DOMAIN, ATYP_IPV6}
    ensures r.Decoded? && r.req.addressType == ATYP_IPV4 ==> |r.req.host| == 4
    ensures r.Decoded? && r.req.addressType == ATYP_IPV6 ==> |r.req.host| == 16
    ensures r.Decoded? && r.req.addressType == ATYP_DOMAIN ==> |msg| >= 5 && |r.req.host| == msg[4]
  {
    if !udp && (|msg| == 0 || msg[0] != VER_SOCKS5) then Fatal
    else if |msg| < 5 then Incomplete
    else if !udp && msg[1] != CMD_CONNECT && msg[1] != CMD_BIND && msg[1] != CMD_UDP then
      ProtocolError(REP_CMDNOTSUPPORTED)
    else if msg[3] == ATYP_IPV4 then
      if |msg| < 10 then Incomplete
      else Decoded(Request(msg[1], msg[2], ATYP_IPV4, msg[4..8], Be16Value(msg[8], msg[9]), msg[10..]))
    else if msg[3] == ATYP_DOMAIN then
      var len: nat := msg[4];
      if |msg| < 7 + len then Incomplete
      else Decoded(Request(msg[1], msg[2], ATYP_DOMAIN, msg[5..5 + len],
                           Be16Value(msg[5 + len], msg[6 + len]), msg[7 + len..]))
    else if msg[3] == ATYP_IPV6 then
      if |msg| < 22 then Incomplete
      else Decoded(Request(msg[1], msg[2], ATYP_IPV6, msg[4..20], Be16Value(msg[20], msg[21]), msg[22..]))
    else ProtocolError(REP_ATYPNOTSUPPORTED)
  }

  /** The same decision with `more` appended to the trailing data. */
  function Extended(r: Unpacked, more: seq<byte>): Unpacked
  {
    if r.Decoded? then Decoded(r.req.(data := r.req.data + more)) else r
  }

  /** Prefix stability: once a non-empty prefix is decided (request, protocol
      error or fatal error), every extension is decided the same way and only
      the trailing data grows. */
  lemma UnpackPrefixStable(msg: seq<byte>, more: seq<byte>, udp: bool)
    requires |msg| > 0
    requires Unpack(msg, udp) != Incomplete
    ensures Unpack(msg + more, udp) == Extended(Unpack(msg, udp), more)
  {
    var m := msg + more;
    assert m[0] == msg[0];
    if |msg| >= 5 {
      assert m[1] == msg[1] && m[2] == msg[2] && m[3] == msg[3] && m[4] == msg[4];
      if Unpack(msg, udp).Decoded? {
        if msg[3] == ATYP_IPV4 {
          DecodedStableIPv4(msg, more, udp);
        } else if msg[3] == ATYP_DOMAIN {
          DecodedStableDomain(msg, more, udp);
        } else {
          DecodedStableIPv6(msg, more, udp);
        }
      }
    }
  }

  lemma DecodedStableIPv4(msg: seq<byte>, more: seq<byte>, udp: bool)
    requires |msg| >= 10 && msg[3] == ATYP_IPV4 && Unpack(msg, udp).Decoded?
    ensures Unpack(msg + more, udp) == Extended(Unpack(msg, udp), more)
  {
    var m := msg + more;
    assert m[..10] == msg[..10];
    assert m[4..8] == msg[4..8];
    assert m[10..] == msg[10..] + more;
  }

  lemma DecodedStableDomain(msg: seq<byte>, more: seq<byte>, udp: bool)
    requires |msg| >= 5 && msg[3] == ATYP_DOMAIN && Unpack(msg, udp).Decoded?
    ensures Unpack(msg + more, udp) == Extended(Unpack(msg, udp), more)
  {
    var m := msg + more;
    var len: nat := msg[4];
    assert m[..7 + len] == msg[..7 + len];
    assert m[5..5 + len] == msg[5..5 + len];
    assert m[7 + len..] == msg[7 + len..] + more;
  }

  lemma DecodedStableIPv6(msg: seq<byte>, more: seq<byte>, udp: bool)
    requires |msg| >= 22 && msg[3] == ATYP_IPV6 && Unpack(msg, udp).Decoded?
    ensures Unpack(msg + more, udp) == Extended(Unpack(msg, udp), more)
  {
    var m := msg + more;
    assert m[..22] == msg[..22];
    assert m[4..20] == msg[4..20];
    assert m[22..] == msg[22..] + more;
  }

  /** An undecided message stays undecided when cut short (but not emptied). */
  lemma UnpackIncompletePrefix(msg: seq<byte>, k: nat, udp: bool)
    requires Unpack(msg, udp) == Incomplete
    requires 0 < k <= |msg|
    ensures Unpack(msg[..k], udp) == Incomplete
  {
  }

  /** Conversely, every decoded message is exactly the encoding of what it
      decoded to: no octet is skipped or invented. */
  lemma UnpackEncodes(msg: seq<byte>, udp: bool)
    requires Unpack(msg, udp).Decoded?
    ensures AddressWellFormed(Unpack(msg, udp).req)
    ensures msg == Encode(msg[0], Unpack(msg, udp).req)
    ensures !udp ==> msg[0] == VER_SOCKS5 && WellFormed(Unpack(msg, udp).req)
  {
    var req := Unpack(msg, udp).req;
    var n := |req.host|;
    var h := if msg[3] == ATYP_DOMAIN then 5 else 4;  // where the address starts
    var head := [msg[0], req.command, req.fragment, req.addressType] + (if msg[3] == ATYP_DOMAIN then [msg[4]] else []);
    assert msg[..h] == head;
    assert msg[h..h + n] == req.host;
    assert msg[h + n..h + n + 2] == Be16(req.port);
    assert msg[h + n + 2..] == req.data;
    assert msg == msg[..h] + msg[h..h + n] + msg[h + n..h + n + 2] + msg[h + n + 2..];
  }

  /** The command is checked before the address type, and the reserved
      octet of a request is never checked. */
  lemma UnpackOrderExamples()
    ensures Unpack([5, 9, 0, 2, 0], false) == ProtocolError(REP_CMDNOTSUPPORTED)
    ensures Unpack([5, 1, 0, 2, 0], false) == ProtocolError(REP_ATYPNOTSUPPORTED)
    ensures Unpack([5, 1, 7, 1, 127, 0, 0, 1, 0, 80], false) == Decoded(Request(CMD_CONNECT, 7, ATYP_IPV4, [127, 0, 0, 1], 80, []))
    ensures Unpack([5, 1, 7, 1, 127, 0, 0, 1, 0], false) == Incomplete
  {
    assert [5, 1, 7, 1, 127, 0, 0, 1, 0, 80][4..8] == [127, 0, 0, 1];
  }

  /** Waiting is bounded: 262 octets (a 255-octet domain name) always decide
      a request. */
  lemma UnpackDecidedWithin(msg: seq<byte>, udp: bool)
    requires |msg| >= 262
    ensures Unpack(msg, udp) != Incomplete
  {
  }

  /** An address a request or UDP header can carry: a known address type
      with 4 octets, a name of at most 255 octets, or 16 octets. */
  predicate AddressWellFormed(req: Request)
  {
    (req.addressType == ATYP_IPV4 && |req.host| == 4) ||
    (req.addressType == ATYP_DOMAIN && |req.host| < 256) ||
    (req.addressType == ATYP_IPV6 && |req.host| == 16)
  }

  /** A well-formed client request (sections 4 and 5 of RFC 1928). The
      reserved octet is whatever the client sent: `unpack` does not check it. */
  predicate WellFormed(req: Request)
  {
    req.command in {CMD_CONNECT, CMD_BIND, CMD_UDP} && AddressWellFormed(req)
  }

  /** The encoding of a request (first octet 5) or of a UDP header (first
      octet reserved) followed by its trailing data: the reference `Unpack`
      is checked against. The second and third octets are the command and
      reserved octets of a request, and the reserved and FRAG octets of a
      UDP header. */
  function Encode(first: byte, req: Request): seq<byte>
    requires AddressWellFormed(req)
  {
    [first, req.command, req.fragment, req.addressType] +
    (if req.addressType == ATYP_DOMAIN then [|req.host|] else []) +
    req.host + Be16(req.port) + req.data
  }

  /** Decoding an encoded request or UDP header gives it back, whatever its
      reserved and fragment octets hold. */
  lemma UnpackRoundTrip(first: byte, req: Request, udp: bool)
    requires AddressWellFormed(req)
    requires !udp ==> first == VER_SOCKS5 && WellFormed(req)
    ensures Unpack(Encode(first, req), udp) == Decoded(req)
  {
    var m := Encode(first, req);
    var n := |req.host|;
    Be16RoundTrip(req.port);
    if req.addressType == ATYP_DOMAIN {
      assert m[5..5 + n] == req.host;
      assert m[5 + n] == Be16(req.port)[0] && m[6 + n] == Be16(req.port)[1];
      assert m[7 + n..] == req.data;
    } else {
      assert m[4..4 + n] == req.host;
      assert m[4 + n] == Be16(req.port)[0] && m[5 + n] == Be16(req.port)[1];
      assert m[6 + n..] == req.data;
    }
  }

  // ---------------------------------------------------------------------
  // Replies and UDP headers

  /** The address type that announces a socket address of this family. */
  function AddressType(a: SockAddr): byte
  {
    if a.family == IPv4 then ATYP_IPV4 else ATYP_IPV6
  }

  /** `Message.pack(reply:, sockaddr:, data:)`. With data present (even empty
      data) the first octet is the reserved 0 of a UDP header, otherwise the
      version 5 of a reply; without an address the bound address is 0.0.0.0:0. */
  function Pack(reply: byte, sockaddr: Option<SockAddr>, data: Option<seq<byte>>): (r: seq<byte>)
    requires sockaddr.Some? ==> ValidSockAddr(sockaddr.value)
    ensures |r| >= 10
    ensures r[0] == (if data.Some? then RSV else VER_SOCKS5) && r[1] == reply && r[2] == RSV
  {
    var (atyp, ip, port) :=
      if sockaddr.Some? then (AddressType(sockaddr.value), sockaddr.value.ip, sockaddr.value.port)
      else (ATYP_IPV4, [0, 0, 0, 0], 0);
    [if data.Some? then RSV else VER_SOCKS5, reply, RSV, atyp] + ip + Be16(port) +
    (if data.Some? then data.value else [])
  }

  /** A reply with no address is exactly the ten octets the tests expect. */
  lemma PackWithoutAddress(reply: byte)
    ensures Pack(reply, None, None) == [5, reply, 0, 1, 0, 0, 0, 0, 0, 0]
  {
  }

  /** Decoding what `Pack` builds as a UDP header gives back the address
      family, address octets, port and data (the reply code lands in the
      command field, which UDP decoding does not check). */
  lemma PackUnpackRoundTrip(reply: byte, a: SockAddr, data: Option<seq<byte>>)
    requires ValidSockAddr(a)
    ensures Unpack(Pack(reply, Some(a), data), true) ==
            Decoded(Request(reply, RSV, AddressType(a), a.ip, a.port,
                            if data.Some? then data.value else []))
  {
    var m := Pack(reply, Some(a), data);
    var n := |a.ip|;
    var d := if data.Some? then data.value else [];
    Be16RoundTrip(a.port);
    assert m[4..4 + n] == a.ip;
    assert m[4 + n] == Be16(a.port)[0] && m[5 + n] == Be16(a.port)[1];
    assert m[6 + n..] == d;
  }

  // ---------------------------------------------------------------------
  // Address checks of BIND and UDP ASSOCIATE

  /** `Request#bind_ip`: a domain name is refused with code 8; otherwise the
      address of the local interface whose network holds the host. The
      interface search is the outside world's answer `iface`; no such
      interface gives code 3. */
  function BindIp(req: Request, iface: Option<seq<byte>>): (r: Result)
    ensures r.Failed? <==> req.addressType == ATYP_DOMAIN || iface.None?
    ensures r.Failed? ==> r.code == (if req.addressType == ATYP_DOMAIN then REP_ATYPNOTSUPPORTED else REP_NETUNREACH)
    ensures r.Ok? ==> Some(r.ip) == iface
  {
    if req.addressType == ATYP_DOMAIN then Failed(REP_ATYPNOTSUPPORTED)
    else if iface.None? then Failed(REP_NETUNREACH)
    else Ok(iface.value)
  }

  datatype Result = Ok(ip: seq<byte>) | Failed(code: byte)

  /** `IPAddr#==` against a peer address: same family and same octets. */
  predicate SameAddress(addressType: byte, host: seq<byte>, peer: SockAddr)
  {
    addressType == AddressType(peer) && host == peer.ip
  }

  /** The BIND peer check: only the requested address itself, no wildcard. */
  predicate BindPeerAllowed(req: Request, peer: SockAddr)
  {
    SameAddress(req.addressType, req.host, peer)
  }

  /** The UDP relay source filter: the declared address is 0.0.0.0 or the
      peer's, and the declared port is 0 or the peer's. */
  predicate UdpSourceAllowed(req: Request, peer: SockAddr)
  {
    var ipOk := (req.addressType == ATYP_IPV4 && req.host == [0, 0, 0, 0]) ||
                SameAddress(req.addressType, req.host, peer);
    var portOk := req.port == 0 || req.port == peer.port;
    ipOk && portOk
  }

  /** The wildcard asymmetry: a client declaring 0.0.0.0 may send UDP from any
      IPv4 address, but a BIND for 0.0.0.0 admits no real peer. */
  lemma WildcardOnlyForUdp(req: Request, peer: SockAddr)
    requires req.addressType == ATYP_IPV4 && req.host == [0, 0, 0, 0] && req.port == 0
    requires peer.family == IPv4 && peer.ip != [0, 0, 0, 0]
    ensures UdpSourceAllowed(req, peer) && !BindPeerAllowed(req, peer)
  {
  }
}
