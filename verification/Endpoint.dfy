/** UDP endpoints and the text keys under which the programs file them (net.JoinHostPort, net.UDPAddr.String and
    udpAddrKey). */
module Endpoint {
  import opened Text
  import opened Decimal

  type Byte = x: int | 0 <= x < 256

  datatype UdpAddr = UdpAddr(ip: seq<Byte>, port: int)

  /** net.IP.To4: four bytes, or sixteen with the IPv4-mapped prefix. */
  function To4(ip: seq<Byte>): (r: Option<seq<Byte>>)
    ensures r.Some? ==> |r.value| == 4
  {
    if |ip| == 4 then Some(ip)
    else if |ip| == 16 && (forall i :: 0 <= i < 10 ==> ip[i] == 0) && ip[10] == 255 && ip[11] == 255 then Some(ip[12..])
    else None
  }

  function JoinHostPort(host: string, port: string): string {
    if ':' in host then "[" + host + "]:" + port else host + ":" + port
  }

  function Ipv4Text(ip: seq<Byte>): string
    requires |ip| == 4
  {
    FormatNat(ip[0]) + "." + (FormatNat(ip[1]) + "." + (FormatNat(ip[2]) + "." + FormatNat(ip[3])))
  }

  /** The key of an IPv4 endpoint. */
  function EndpointKey(ip: seq<Byte>, port: int): string
    requires |ip| == 4
  {
    JoinHostPort(Ipv4Text(ip), FormatInt(port))
  }

  /** raddr.String(), for the addresses a socket of network "udp4" can report. */
  function AddrText(a: UdpAddr): string
    requires To4(a.ip).Some?
  {
    EndpointKey(To4(a.ip).value, a.port)
  }

  datatype Keyed = Keyed(key: string, ip: seq<Byte>, port: int)

  /** udpAddrKey, without the LastSeen stamp. */
  function UdpAddrKey(a: UdpAddr): Option<Keyed> {
    match To4(a.ip)
    case None => None
    case Some(ip4) =>
      if a.port < 1 || a.port > 65535 then None
      else Some(Keyed(JoinHostPort(Ipv4Text(ip4), FormatInt(a.port)), ip4, a.port))
  }

  /** On every address of the socket, udpAddrKey either fails because of the port or agrees with raddr.String(). */
  lemma KeysAgree(a: UdpAddr)
    requires To4(a.ip).Some?
    ensures UdpAddrKey(a).Some? <==> 1 <= a.port <= 65535
    ensures UdpAddrKey(a).Some? ==> UdpAddrKey(a).value.key == AddrText(a)
  {
  }

  lemma AfterSeparator(b: string, q: string, i: int)
    requires ':' !in q && |b| < i < |b| + 1 + |q|
    ensures (b + ":" + q)[i] != ':'
  {
    assert (b + ":" + q)[i] == q[i - |b| - 1];
  }

  lemma LastSeparator(a: string, p: string, b: string, q: string)
    requires a + ":" + p == b + ":" + q
    requires ':' !in p && ':' !in q
    ensures a == b && p == q
  {
    var s := a + ":" + p;
    assert s[|a|] == s[|b|] == ':';
    if |b| < |a| {
      AfterSeparator(b, q, |a|);
    } else if |a| < |b| {
      AfterSeparator(a, p, |b|);
    } else {
      assert a == s[..|a|] == b;
      assert p == s[|a| + 1..] == q;
    }
  }

  /** Two hosts and two port texts share a key only when they are the same. */
  lemma JoinHostPortInjective(h: string, p: string, h': string, p': string)
    requires ':' !in p && ':' !in p'
    requires JoinHostPort(h, p) == JoinHostPort(h', p')
    ensures h == h' && p == p'
  {
    var left := if ':' in h then "[" + h + "]" else h;
    var left' := if ':' in h' then "[" + h' + "]" else h';
    assert JoinHostPort(h, p) == left + ":" + p;
    assert JoinHostPort(h', p') == left' + ":" + p';
    LastSeparator(left, p, left', p');
    if ':' in h {
      var i :| 0 <= i < |h| && h[i] == ':';
      assert left[i + 1] == ':';
      assert h == left[1..|left| - 1];
    }
    if ':' in h' {
      var i :| 0 <= i < |h'| && h'[i] == ':';
      assert left'[i + 1] == ':';
      assert h' == left'[1..|left'| - 1];
    }
  }

  lemma DotPeel(m: nat, s: string, n: nat, t: string)
    requires FormatNat(m) + "." + s == FormatNat(n) + "." + t
    ensures m == n && s == t
  {
    CutAt(FormatNat(m), '.', s);
    CutAt(FormatNat(n), '.', t);
    FormatNatInjective(m, n);
  }

  /** Distinct IPv4 endpoints have distinct keys, so a map over keys is a map over endpoints. */
  lemma EndpointKeyInjective(ip: seq<Byte>, port: int, ip': seq<Byte>, port': int)
    requires |ip| == |ip'| == 4
    requires EndpointKey(ip, port) == EndpointKey(ip', port')
    ensures ip == ip' && port == port'
  {
    JoinHostPortInjective(Ipv4Text(ip), FormatInt(port), Ipv4Text(ip'), FormatInt(port'));
    FormatIntInjective(port, port');
    DotPeel(ip[0], Ipv4Text(ip)[|FormatNat(ip[0])| + 1..], ip'[0], Ipv4Text(ip')[|FormatNat(ip'[0])| + 1..]);
    DotPeel(ip[1], FormatNat(ip[2]) + "." + FormatNat(ip[3]), ip'[1], FormatNat(ip'[2]) + "." + FormatNat(ip'[3]));
    DotPeel(ip[2], FormatNat(ip[3]), ip'[2], FormatNat(ip'[3]));
    FormatNatInjective(ip[3], ip'[3]);
  }

  /** Four bytes are an IPv4 address, and so are the last four of sixteen after ten zeros and two 255s; nothing else is,
      and the order of the bytes stays. */
  lemma To4Exactly(ip: seq<Byte>, v4: seq<Byte>)
    ensures To4(ip) == Some(v4) <==>
              |v4| == 4 && (ip == v4 || ip == [0, 0, 0, 0, 0, 0, 0, 0, 0, 0, 255, 255] + v4)
  {
    if |ip| == 16 && To4(ip) == Some(v4) {
      assert ip == ip[..12] + ip[12..];
      assert ip[..12] == [0, 0, 0, 0, 0, 0, 0, 0, 0, 0, 255, 255];
    }
  }

  /** How keys are written. */
  lemma KeysAreWritten(a: Byte, b: Byte, c: Byte, d: Byte, port: int)
    ensures EndpointKey([a, b, c, d], port)
         == FormatNat(a) + "." + FormatNat(b) + "." + FormatNat(c) + "." + FormatNat(d) + ":" + FormatInt(port)
  {
    var h := Ipv4Text([a, b, c, d]);
    DottedText(FormatNat(a), FormatNat(b), FormatNat(c), FormatNat(d));
    assert ':' !in h;
    assert EndpointKey([a, b, c, d], port) == h + ":" + FormatInt(port);
  }

  lemma DottedText(a: string, b: string, c: string, d: string)
    ensures a + "." + (b + "." + (c + "." + d)) == a + "." + b + "." + c + "." + d
  {
  }
}
