/** Octets, big-endian port fields, ASCII literals and socket addresses shared
    by the SOCKS5 codec, the HTTP CONNECT parser and the connection model. */
module Bytes {

  /** One octet of a Ruby binary string. */
  type byte = x: int | 0 <= x < 256

  /** A TCP or UDP port number: the range of a 16-bit big-endian field. */
  type Port = x: int | 0 <= x < 0x1_0000

  datatype Option<+T> = None | Some(value: T)

  /** The octets of an ASCII string literal. */
  function Ascii(s: string): (r: seq<byte>)
    requires forall i :: 0 <= i < |s| ==> s[i] as int < 256
    ensures |r| == |s|
    ensures forall i :: 0 <= i < |s| ==> r[i] == s[i] as int
  {
    seq(|s|, i requires 0 <= i < |s| => s[i] as int)
  }

  /** Ruby's `pack('n')`: a port as two big-endian octets. */
  function Be16(port: Port): (r: seq<byte>)
    ensures |r| == 2
  {
    [port / 256, port % 256]
  }

  /** Ruby's `unpack('n')`: two big-endian octets as a port. */
  function Be16Value(hi: byte, lo: byte): (r: Port)
    ensures r / 256 == hi && r % 256 == lo
  {
    hi * 256 + lo
  }

  lemma Be16RoundTrip(port: Port)
    ensures Be16Value(Be16(port)[0], Be16(port)[1]) == port
  {
  }

  /** `s.include?(pat)`: `pat` occurs somewhere in `s`. */
  predicate Contains(s: seq<byte>, pat: seq<byte>)
  {
    exists i | 0 <= i <= |s| - |pat| :: OccursAt(s, pat, i)
  }

  /** `pat` occurs in `s` starting at index `i`. */
  predicate OccursAt(s: seq<byte>, pat: seq<byte>, i: int)
  {
    0 <= i <= |s| - |pat| && s[i..i + |pat|] == pat
  }

  /** An occurrence of a pattern survives any extension of the text. */
  lemma ContainsExtended(s: seq<byte>, more: seq<byte>, pat: seq<byte>)
    requires Contains(s, pat)
    ensures Contains(s + more, pat)
  {
    var i :| 0 <= i <= |s| - |pat| && OccursAt(s, pat, i);
    assert (s + more)[i..i + |pat|] == s[i..i + |pat|];
    assert OccursAt(s + more, pat, i);
  }

  /** Address families of the sockets the proxy opens. */
  datatype Family = IPv4 | IPv6

  /** A socket address as `Addrinfo` reports it: family, network-order
      address octets and port. */
  datatype SockAddr = SockAddr(family: Family, ip: seq<byte>, port: Port)

  predicate ValidSockAddr(a: SockAddr)
  {
    |a.ip| == (if a.family == IPv4 then 4 else 16)
  }
}
