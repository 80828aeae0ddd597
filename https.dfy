/** The HTTP CONNECT front end (section 9.3.6 of RFC 9110): wait for a blank
    line, match the request against
      \ACONNECT ([^:]+):([1-9][0-9]*) (HTTP\/[0-1]\.\d+).*\r?\n\r?\n   (dot matches newlines)
    open the tunnel, forward the pipelined bytes and confirm to the client. */
module Https {
  import opened Bytes
  import opened Proxy

  const LF: byte := 10
  const CR: byte := 13
  const SP: byte := 32
  const DOT: byte := 46
  const COLON: byte := 58

  /** "CONNECT " */
  const CONNECT_PREFIX: seq<byte> := [67, 79, 78, 78, 69, 67, 84, 32]
  /** "HTTP/" */
  const HTTP_SLASH: seq<byte> := [72, 84, 84, 80, 47]
  const ESTABLISHED: seq<byte> := Ascii(" 200 Connection established\r\n\r\n")

  predicate IsDigit(b: byte) { 48 <= b <= 57 }
  predicate IsNonZeroDigit(b: byte) { 49 <= b <= 57 }

  /** The wait condition: the buffer holds "\r\n\r\n" or "\n\n" somewhere. */
  predicate HasTerminator(msg: seq<byte>)
  {
    Contains(msg, [CR, LF, CR, LF]) || Contains(msg, [LF, LF])
  }

  /** Once present, the terminator stays present however much more arrives. */
  lemma HasTerminatorExtended(msg: seq<byte>, more: seq<byte>)
    requires HasTerminator(msg)
    ensures HasTerminator(msg + more)
  {
    if Contains(msg, [CR, LF, CR, LF]) {
      ContainsExtended(msg, more, [CR, LF, CR, LF]);
    } else {
      ContainsExtended(msg, more, [LF, LF]);
    }
  }

  /** The captures of a match, and `post_match`, the pipelined payload. */
  datatype ConnectRequest = ConnectRequest(host: seq<byte>, port: seq<byte>, version: seq<byte>, payload: seq<byte>)

  // ---------------------------------------------------------------------
  // The pattern, stated declaratively

  /** `[^:]+` */
  predicate ValidHost(h: seq<byte>)
  {
    |h| > 0 && forall i :: 0 <= i < |h| ==> h[i] != COLON
  }

  /** `[1-9][0-9]*` */
  predicate ValidPort(p: seq<byte>)
  {
    |p| > 0 && IsNonZeroDigit(p[0]) && forall i :: 0 <= i < |p| ==> IsDigit(p[i])
  }

  /** `HTTP\/[0-1]\.\d+` */
  predicate ValidVersion(v: seq<byte>)
  {
    |v| >= 8 && v[..5] == HTTP_SLASH && (v[5] == 48 || v[5] == 49) && v[6] == DOT &&
    forall i :: 7 <= i < |v| ==> IsDigit(v[i])
  }

  /** `.*\r?\n\r?\n` matches `t` exactly (the dot matches every octet). */
  predicate EndsWithBlankLine(t: seq<byte>)
  {
    |t| >= 2 && t[|t| - 1] == LF &&
    (t[|t| - 2] == LF || (|t| >= 3 && t[|t| - 2] == CR && t[|t| - 3] == LF))
  }

  /** The request text the captures, the header block and the payload make up. */
  function Assemble(r: ConnectRequest, headers: seq<byte>): seq<byte>
  {
    CONNECT_PREFIX + r.host + [COLON] + r.port + [SP] + r.version + headers + r.payload
  }

  /** Where each piece of an assembled request lies. */
  ghost predicate Layout(msg: seq<byte>, r: ConnectRequest, headers: seq<byte>)
  {
    var c := 8 + |r.host|; var p := c + 1 + |r.port|; var v := p + 1;
    var ve := v + |r.version|; var e := ve + |headers|;
    |msg| == e + |r.payload| && msg[..8] == CONNECT_PREFIX && msg[8..c] == r.host && msg[c] == COLON &&
    msg[c + 1..p] == r.port && msg[p] == SP && msg[v..ve] == r.version && msg[ve..e] == headers && msg[e..] == r.payload
  }

  lemma AssembleLayout(r: ConnectRequest, headers: seq<byte>)
    ensures Layout(Assemble(r, headers), r, headers)
  {
  }

  /** A text whose pieces lie where `AssembleLayout` puts them is the assembled request. */
  lemma LayoutAssembles(msg: seq<byte>, r: ConnectRequest, headers: seq<byte>)
    requires Layout(msg, r, headers)
    ensures msg == Assemble(r, headers)
  {
    AssembleLayout(r, headers);
    var m := Assemble(r, headers);
    assert |m| == |msg|;
    forall i | 0 <= i < |msg| ensures msg[i] == m[i] {
      var c := 8 + |r.host|; var p := c + 1 + |r.port|; var v := p + 1;
      var ve := v + |r.version|; var e := ve + |headers|;
      if i < 8 { assert msg[i] == msg[..8][i] && m[i] == m[..8][i]; }
      else if i < c { assert msg[i] == msg[8..c][i - 8] && m[i] == m[8..c][i - 8]; }
      else if i == c { }
      else if i < p { assert msg[i] == msg[c + 1..p][i - c - 1] && m[i] == m[c + 1..p][i - c - 1]; }
      else if i == p { }
      else if i < ve { assert msg[i] == msg[v..ve][i - v] && m[i] == m[v..ve][i - v]; }
      else if i < e { assert msg[i] == msg[ve..e][i - ve] && m[i] == m[ve..e][i - ve]; }
      else { assert msg[i] == msg[e..][i - e] && m[i] == m[e..][i - e]; }
    }
  }

  /** `msg` matches the pattern with these captures, `headers` being the text
      the `.*\r?\n\r?\n` part consumes. Of all the ways to match, the regex
      engine keeps the longest `\d+` and the longest `.*`, so the version is
      not followed by a digit and no longer `headers` ends in a blank line. */
  ghost predicate Matches(msg: seq<byte>, r: ConnectRequest, headers: seq<byte>)
  {
    msg == Assemble(r, headers) && Preferred(r, headers)
  }

  /** The conditions on the pieces of a match, the engine's preferences included. */
  ghost predicate Preferred(r: ConnectRequest, headers: seq<byte>)
  {
    ValidHost(r.host) && ValidPort(r.port) && ValidVersion(r.version) &&
    EndsWithBlankLine(headers) && !IsDigit(headers[0]) &&
    forall k :: 0 < k <= |r.payload| ==> !EndsWithBlankLine(headers + r.payload[..k])
  }

  // ---------------------------------------------------------------------
  // The pattern, as a scan of the buffer

  /** Index of the first ':' at or after `i`, or `|msg|`. */
  function FirstColon(msg: seq<byte>, i: nat): (r: nat)
    requires i <= |msg|
    ensures i <= r <= |msg|
    ensures forall j :: i <= j < r ==> msg[j] != COLON
    ensures r < |msg| ==> msg[r] == COLON
    decreases |msg| - i
  {
    if i == |msg| || msg[i] == COLON then i else FirstColon(msg, i + 1)
  }

  /** Index of the first non-digit at or after `i`, or `|msg|`. */
  function DigitsEnd(msg: seq<byte>, i: nat): (r: nat)
    requires i <= |msg|
    ensures i <= r <= |msg|
    ensures forall j :: i <= j < r ==> IsDigit(msg[j])
    ensures r < |msg| ==> !IsDigit(msg[r])
    decreases |msg| - i
  {
    if i == |msg| || !IsDigit(msg[i]) then i else DigitsEnd(msg, i + 1)
  }

  /** `msg[s..e]` is a `.*\r?\n\r?\n` match. */
  predicate BlankLineEndAt(msg: seq<byte>, s: nat, e: nat)
  {
    s <= e <= |msg| && EndsWithBlankLine(msg[s..e])
  }

  /** The greedy `.*`: the largest `e` no larger than `hi` such that
      `msg[s..e]` ends in a blank line. */
  function LastBlankLineEnd(msg: seq<byte>, s: nat, hi: nat): (r: Option<nat>)
    requires s <= hi <= |msg|
    ensures r.Some? ==> s <= r.value <= hi && BlankLineEndAt(msg, s, r.value)
    ensures r.Some? ==> forall e :: r.value < e <= hi ==> !BlankLineEndAt(msg, s, e)
    ensures r.None? ==> forall e :: s <= e <= hi ==> !BlankLineEndAt(msg, s, e)
    decreases hi
  {
    if BlankLineEndAt(msg, s, hi) then Some(hi)
    else if hi == s then None
    else LastBlankLineEnd(msg, s, hi - 1)
  }

  /** Where a match puts its pieces: the ':' after the host, the ' ' after
      the port, the end of the version and the end of the match. */
  datatype Marks = Marks(colon: nat, portEnd: nat, versionEnd: nat, end: nat)

  /** "CONNECT " then a host of non-colons up to the ':' at `colon`. */
  ghost predicate HostOk(msg: seq<byte>, colon: nat)
  {
    8 < colon < |msg| && msg[..8] == CONNECT_PREFIX && msg[colon] == COLON &&
    forall j :: 8 <= j < colon ==> msg[j] != COLON
  }

  /** A port of digits, the first not 0, up to the ' ' at `portEnd`. */
  ghost predicate PortOk(msg: seq<byte>, colon: nat, portEnd: nat)
  {
    colon + 1 < portEnd < |msg| && IsNonZeroDigit(msg[colon + 1]) && msg[portEnd] == SP &&
    forall j :: colon + 1 <= j < portEnd ==> IsDigit(msg[j])
  }

  /** "HTTP/", 0 or 1, '.', and the longest run of digits, ending at `versionEnd`. */
  ghost predicate VersionOk(msg: seq<byte>, portEnd: nat, versionEnd: nat)
  {
    portEnd + 9 <= versionEnd <= |msg| && msg[portEnd + 1..portEnd + 6] == HTTP_SLASH &&
    (msg[portEnd + 6] == 48 || msg[portEnd + 6] == 49) && msg[portEnd + 7] == DOT &&
    (forall j :: portEnd + 8 <= j < versionEnd ==> IsDigit(msg[j])) &&
    (versionEnd < |msg| ==> !IsDigit(msg[versionEnd]))
  }

  /** The longest `.*\r?\n\r?\n` after the version ends at `end`. */
  ghost predicate EndOk(msg: seq<byte>, versionEnd: nat, end: nat)
  {
    BlankLineEndAt(msg, versionEnd, end) &&
    forall e :: end < e <= |msg| ==> !BlankLineEndAt(msg, versionEnd, e)
  }

  ghost predicate MarksOk(msg: seq<byte>, m: Marks)
  {
    HostOk(msg, m.colon) && PortOk(msg, m.colon, m.portEnd) &&
    VersionOk(msg, m.portEnd, m.versionEnd) && EndOk(msg, m.versionEnd, m.end)
  }

  /** The scan for the pattern: the positions of a match, or none. */
  function Scan(msg: seq<byte>): (r: Option<Marks>)
    ensures r.Some? ==> MarksOk(msg, r.value)
  {
    if |msg| < 8 || msg[..8] != CONNECT_PREFIX then None
    else
      var colon := FirstColon(msg, 8);
      if colon == 8 || colon == |msg| then None
      else ScanPort(msg, colon)
  }

  function ScanPort(msg: seq<byte>, colon: nat): (r: Option<Marks>)
    requires HostOk(msg, colon)
    ensures r.Some? ==> MarksOk(msg, r.value) && r.value.colon == colon
  {
    if colon + 1 >= |msg| || !IsNonZeroDigit(msg[colon + 1]) then None
    else
      var portEnd := DigitsEnd(msg, colon + 2);
      if portEnd == |msg| || msg[portEnd] != SP then None
      else ScanVersion(msg, colon, portEnd)
  }

  function ScanVersion(msg: seq<byte>, colon: nat, portEnd: nat): (r: Option<Marks>)
    requires HostOk(msg, colon) && PortOk(msg, colon, portEnd)
    ensures r.Some? ==> MarksOk(msg, r.value) && r.value.colon == colon && r.value.portEnd == portEnd
  {
    var v := portEnd + 1;
    if v + 8 > |msg| || msg[v..v + 5] != HTTP_SLASH || (msg[v + 5] != 48 && msg[v + 5] != 49) ||
       msg[v + 6] != DOT || !IsDigit(msg[v + 7]) then None
    else
      var versionEnd := DigitsEnd(msg, v + 8);
      var e := LastBlankLineEnd(msg, versionEnd, |msg|);
      if e.None? then None else Some(Marks(colon, portEnd, versionEnd, e.value))
  }

  /** The captures and `post_match` at the given positions. */
  function Captures(msg: seq<byte>, m: Marks): ConnectRequest
    requires m.colon < m.portEnd < m.versionEnd <= m.end <= |msg| && 8 <= m.colon
  {
    ConnectRequest(msg[8..m.colon], msg[m.colon + 1..m.portEnd], msg[m.portEnd + 1..m.versionEnd], msg[m.end..])
  }

  /** `msg.match(pattern)`: the captures and `post_match`, or no match. */
  function ParseConnect(msg: seq<byte>): Option<ConnectRequest>
  {
    var m := Scan(msg);
    if m.None? then None else Some(Captures(msg, m.value))
  }

  // ---------------------------------------------------------------------
  // The scan finds exactly the regex match

  lemma PortCapture(msg: seq<byte>, colon: nat, portEnd: nat)
    requires PortOk(msg, colon, portEnd)
    ensures ValidPort(msg[colon + 1..portEnd])
  {
    var p := msg[colon + 1..portEnd];
    forall i | 0 <= i < |p| ensures IsDigit(p[i]) {
      assert p[i] == msg[colon + 1 + i];
    }
  }

  lemma VersionCapture(msg: seq<byte>, portEnd: nat, versionEnd: nat)
    requires VersionOk(msg, portEnd, versionEnd)
    ensures ValidVersion(msg[portEnd + 1..versionEnd])
  {
    var v := msg[portEnd + 1..versionEnd];
    assert v[..5] == msg[portEnd + 1..portEnd + 6];
    forall i | 7 <= i < |v| ensures IsDigit(v[i]) {
      assert v[i] == msg[portEnd + 1 + i];
    }
  }

  /** The longest match end, restated over the header block and the payload. */
  lemma GreedyCapture(msg: seq<byte>, versionEnd: nat, end: nat)
    requires EndOk(msg, versionEnd, end)
    ensures forall k :: 0 < k <= |msg| - end ==> !EndsWithBlankLine(msg[versionEnd..end] + msg[end..][..k])
  {
    forall k | 0 < k <= |msg| - end
      ensures !EndsWithBlankLine(msg[versionEnd..end] + msg[end..][..k])
    {
      assert msg[versionEnd..end] + msg[end..][..k] == msg[versionEnd..end + k];
      assert !BlankLineEndAt(msg, versionEnd, end + k);
    }
  }

  /** Positions that satisfy the pattern's conditions give a match. */
  lemma MarksMatch(msg: seq<byte>, m: Marks)
    requires MarksOk(msg, m)
    ensures Matches(msg, Captures(msg, m), msg[m.versionEnd..m.end])
  {
    LayoutAssembles(msg, Captures(msg, m), msg[m.versionEnd..m.end]);
    PortCapture(msg, m.colon, m.portEnd);
    VersionCapture(msg, m.portEnd, m.versionEnd);
    GreedyCapture(msg, m.versionEnd, m.end);
  }

  lemma MatchHostPort(msg: seq<byte>, r: ConnectRequest, headers: seq<byte>)
    requires Layout(msg, r, headers) && Preferred(r, headers)
    ensures HostOk(msg, 8 + |r.host|) && PortOk(msg, 8 + |r.host|, 9 + |r.host| + |r.port|)
  {
    var colon := 8 + |r.host|;
    var portEnd := colon + 1 + |r.port|;
    forall j | 8 <= j < colon ensures msg[j] != COLON {
      assert msg[j] == msg[8..colon][j - 8];
    }
    forall j | colon + 1 <= j < portEnd ensures IsDigit(msg[j]) {
      assert msg[j] == msg[colon + 1..portEnd][j - colon - 1];
    }
    assert msg[colon + 1] == r.port[0];
  }

  lemma MatchVersion(msg: seq<byte>, r: ConnectRequest, headers: seq<byte>)
    requires Layout(msg, r, headers) && Preferred(r, headers)
    ensures VersionOk(msg, 9 + |r.host| + |r.port|, 10 + |r.host| + |r.port| + |r.version|)
  {
    var v := 10 + |r.host| + |r.port|;
    var versionEnd := v + |r.version|;
    forall j | v + 7 <= j < versionEnd ensures IsDigit(msg[j]) {
      assert msg[j] == msg[v..versionEnd][j - v];
    }
    assert msg[v..v + 5] == r.version[..5];
    assert msg[v + 5] == r.version[5] && msg[v + 6] == r.version[6];
    assert msg[versionEnd] == headers[0];
  }

  lemma MatchEnd(msg: seq<byte>, r: ConnectRequest, headers: seq<byte>)
    requires Layout(msg, r, headers) && Preferred(r, headers)
    ensures var versionEnd := 10 + |r.host| + |r.port| + |r.version|;
      EndOk(msg, versionEnd, versionEnd + |headers|)
  {
    var versionEnd := 10 + |r.host| + |r.port| + |r.version|;
    GreedyEnd(msg, versionEnd, versionEnd + |headers|, headers, r.payload);
  }

  /** A header block ending in a blank line, no longer prefix of block and
      payload doing so, is where the greedy `.*\r?\n\r?\n` stops. */
  lemma GreedyEnd(msg: seq<byte>, s: nat, e: nat, headers: seq<byte>, payload: seq<byte>)
    requires s <= e <= |msg| && msg[s..e] == headers && msg[e..] == payload && EndsWithBlankLine(headers)
    requires forall k :: 0 < k <= |payload| ==> !EndsWithBlankLine(headers + payload[..k])
    ensures EndOk(msg, s, e)
  {
    forall e' | e < e' <= |msg| ensures !BlankLineEndAt(msg, s, e') {
      assert msg[s..e'] == headers + payload[..e' - e];
    }
  }

  /** A match gives positions that satisfy the pattern's conditions. */
  lemma MatchMarks(msg: seq<byte>, r: ConnectRequest, headers: seq<byte>)
    requires Layout(msg, r, headers) && Preferred(r, headers)
    ensures MarksOk(msg, MarksOf(r, headers))
  {
    MatchHostPort(msg, r, headers);
    MatchVersion(msg, r, headers);
    MatchEnd(msg, r, headers);
  }

  lemma ScanFindsVersion(msg: seq<byte>, m: Marks)
    requires MarksOk(msg, m)
    ensures ScanVersion(msg, m.colon, m.portEnd) == Some(m)
  {
    assert DigitsEnd(msg, m.portEnd + 9) == m.versionEnd;
    assert LastBlankLineEnd(msg, m.versionEnd, |msg|) == Some(m.end);
  }

  /** The positions of a match are unique, and the scan finds them. */
  lemma ScanFinds(msg: seq<byte>, m: Marks)
    requires MarksOk(msg, m)
    ensures Scan(msg) == Some(m)
  {
    assert FirstColon(msg, 8) == m.colon;
    assert DigitsEnd(msg, m.colon + 2) == m.portEnd;
    ScanFindsVersion(msg, m);
  }

  /** Every match the scan reports is a match of the pattern, with the
      engine's preferences (longest version, longest `.*`). */
  lemma ParseSound(msg: seq<byte>)
    requires ParseConnect(msg).Some?
    ensures exists headers :: Matches(msg, ParseConnect(msg).value, headers)
  {
    var m := Scan(msg).value;
    MarksMatch(msg, m);
  }

  /** Every match of the pattern (with the engine's preferences) is found by
      the scan, with the same captures and payload. */
  lemma ParseComplete(msg: seq<byte>, r: ConnectRequest, headers: seq<byte>)
    requires Matches(msg, r, headers)
    ensures ParseConnect(msg) == Some(r)
  {
    AssembleLayout(r, headers);
    LayoutParses(msg, r, headers);
  }

  lemma LayoutParses(msg: seq<byte>, r: ConnectRequest, headers: seq<byte>)
    requires Layout(msg, r, headers) && Preferred(r, headers)
    ensures ParseConnect(msg) == Some(r)
  {
    var m := MarksOf(r, headers);
    MatchMarks(msg, r, headers);
    ScanFinds(msg, m);
    ParseOfScan(msg, m);
    LayoutCaptures(msg, r, headers);
  }

  /** Where a match of these pieces puts its marks. */
  function MarksOf(r: ConnectRequest, headers: seq<byte>): Marks
  {
    var colon := 8 + |r.host|;
    var portEnd := colon + 1 + |r.port|;
    var versionEnd := portEnd + 1 + |r.version|;
    Marks(colon, portEnd, versionEnd, versionEnd + |headers|)
  }

  lemma LayoutCaptures(msg: seq<byte>, r: ConnectRequest, headers: seq<byte>)
    requires Layout(msg, r, headers)
    ensures Captures(msg, MarksOf(r, headers)) == r
  {
  }

  lemma ParseOfScan(msg: seq<byte>, m: Marks)
    requires Scan(msg) == Some(m)
    ensures ParseConnect(msg) == Some(Captures(msg, m))
  {
  }

  /** The pattern puts no upper bound on the port: "CONNECT
      127.0.0.1:2147483648 HTTP/1.1\r\n\r\n" is accepted by the parser (the
      connect attempt is what refuses it). */
  lemma LargePortAccepted()
    ensures var host: seq<byte> := [49, 50, 55, 46, 48, 46, 48, 46, 49];
      var port: seq<byte> := [50, 49, 52, 55, 52, 56, 51, 54, 52, 56];
      var version: seq<byte> := [72, 84, 84, 80, 47, 49, 46, 49];
      ParseConnect(CONNECT_PREFIX + host + [COLON] + port + [SP] + version + [CR, LF, CR, LF]) ==
      Some(ConnectRequest(host, port, version, []))
  {
    var r := ConnectRequest([49, 50, 55, 46, 48, 46, 48, 46, 49], [50, 49, 52, 55, 52, 56, 51, 54, 52, 56],
                            [72, 84, 84, 80, 47, 49, 46, 49], []);
    var headers: seq<byte> := [CR, LF, CR, LF];
    assert Assemble(r, headers) == CONNECT_PREFIX + r.host + [COLON] + r.port + [SP] + r.version + headers;
    ParseComplete(Assemble(r, headers), r, headers);
  }

  // ---------------------------------------------------------------------
  // The handler

  /** The decimal value of a run of digits (how the port string reaches
      `EventMachine.connect`); unbounded, like the pattern. */
  function DecimalValue(digits: seq<byte>): (n: nat)
    requires forall i :: 0 <= i < |digits| ==> IsDigit(digits[i])
    ensures |digits| > 0 && IsNonZeroDigit(digits[0]) ==> n > 0
  {
    if digits == [] then 0
    else
      var init := digits[..|digits| - 1];
      assert IsDigit(digits[|digits| - 1]);
      assert |init| > 0 ==> init[0] == digits[0];
      DecimalValue(init) * 10 + (digits[|digits| - 1] as int - 48)
  }

  /** The upstream a parsed request asks for. */
  function TargetOf(r: ConnectRequest): Target
    requires ValidPort(r.port)
  {
    Target(r.host, DecimalValue(r.port))
  }

  /** A parsed request always carries a well-formed port. */
  lemma ParsedPortValid(msg: seq<byte>)
    requires ParseConnect(msg).Some?
    ensures ValidPort(ParseConnect(msg).value.port) && ValidVersion(ParseConnect(msg).value.version)
  {
    ParseSound(msg);
  }

  /** `HTTPS#receive_message`: waits for a blank line; then either opens the
      tunnel (registering the callbacks that forward the payload and confirm)
      or fails with a preview of the request. Returns "done" exactly when the
      terminator is present. */
  method ReceiveMessage(c: Connection, msg: seq<byte>, attempt: ConnectAttempt) returns (done: bool)
    requires !c.failed
    modifies c
    ensures done <==> HasTerminator(msg)
    ensures c.buf == old(c.buf) && c.chunks == old(c.chunks)
    ensures !HasTerminator(msg) ==>
              !c.failed && c.trace == old(c.trace) && c.target == old(c.target) &&
              c.server == old(c.server) && c.awaiting == old(c.awaiting)
    ensures HasTerminator(msg) && ParseConnect(msg).None? ==>
              c.failed && c.trace == old(c.trace) + FailureEffects(c.quiet, MalformedRequest, Dump(msg)) &&
              c.target == old(c.target) && c.server == old(c.server) && c.awaiting == old(c.awaiting)
    ensures HasTerminator(msg) && ParseConnect(msg).Some? ==>
              var r := ParseConnect(msg).value;
              ValidPort(r.port) && c.target == Some(TargetOf(r)) &&
              (attempt.Raised? ==>
                 c.failed && c.trace == old(c.trace) + FailureEffects(c.quiet, ConnectFailed(Rescued(attempt.exception)), []) &&
                 c.server == old(c.server) && c.awaiting == old(c.awaiting)) &&
              (attempt.Launched? ==>
                 !c.failed && c.trace == old(c.trace) + [Connect(TargetOf(r))] &&
                 c.awaiting == Tunnel(r.payload, r.version) &&
                 c.server != null && fresh(c.server) && c.server.Valid() &&
                 !c.server.connected && !c.server.unbound)
  {
    if !HasTerminator(msg) {
      return false;
    }
    var m := ParseConnect(msg);
    if m.Some? {
      var r := m.value;
      ParsedPortValid(msg);
      var syncError := c.ProxyTo(TargetOf(r), attempt);
      if syncError.Some? {
        // the completion failed already: the errback runs at registration
        ConnectFailure(c, syncError.value);
      } else {
        c.awaiting := Tunnel(r.payload, r.version);
      }
    } else {
      c.Fail(MalformedRequest, Some(msg));
    }
    done := true;
  }

  /** The success callback: the pipelined payload goes upstream first, then
      the confirmation goes to the client: the request's own HTTP version
      followed by " 200 Connection established" and a blank line. */
  method Established(c: Connection)
    requires c.awaiting.Tunnel?
    modifies c
    ensures c.trace == old(c.trace) + [ToUpstream(old(c.awaiting).payload), ToClient(old(c.awaiting).version + ESTABLISHED)]
    ensures c.buf == old(c.buf) && c.chunks == old(c.chunks) && c.failed == old(c.failed)
    ensures c.target == old(c.target) && c.server == old(c.server) && c.awaiting == old(c.awaiting)
  {
    c.trace := c.trace + [ToUpstream(c.awaiting.payload)];
    c.SendToClient(c.awaiting.version + ESTABLISHED);
  }

  /** The failure callback: the connection fails; nothing is written to the client. */
  method ConnectFailure(c: Connection, error: ConnectError)
    modifies c
    ensures c.failed && c.trace == old(c.trace) + FailureEffects(c.quiet, ConnectFailed(error), [])
    ensures c.buf == old(c.buf) && c.chunks == old(c.chunks)
    ensures c.target == old(c.target) && c.server == old(c.server) && c.awaiting == old(c.awaiting)
  {
    c.Fail(ConnectFailed(error), None);
  }
}
