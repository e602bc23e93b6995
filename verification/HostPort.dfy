/** Endpoint texts taken apart again: net.SplitHostPort, and the IPv4 part of net.ParseIP. */
module HostPort {
  import opened Text
  import opened Decimal
  import opened Endpoint

  /** strings.IndexByte and its counterpart from the end: -1 if the character does not occur. */
  function Index(s: string, c: char): (i: int)
    ensures -1 <= i < |s| && (i >= 0 ==> s[i] == c) && (i < 0 <==> c !in s)
    ensures i >= 0 ==> c !in s[..i]
  {
    if s == "" then -1
    else if s[0] == c then 0
    else
      var i := Index(s[1..], c);
      if i < 0 then -1 else i + 1
  }

  function LastIndex(s: string, c: char): (i: int)
    ensures -1 <= i < |s| && (i >= 0 ==> s[i] == c) && (i < 0 <==> c !in s)
    ensures i >= 0 ==> c !in s[i + 1..]
  {
    if s == "" then -1
    else if s[|s| - 1] == c then |s| - 1
    else LastIndex(s[..|s| - 1], c)
  }

  datatype HostPort = HostPort(host: string, port: string)

  function SplitHostPort(s: string): Option<HostPort> {
    var i := LastIndex(s, ':');
    if i < 0 then None
    else if s[0] == '[' then
      var end := Index(s, ']');
      if end < 0 || end + 1 != i || '[' in s[1..] || ']' in s[end + 1..] then None
      else Some(HostPort(s[1..end], s[i + 1..]))
    else if ':' in s[..i] || '[' in s || ']' in s then None
    else Some(HostPort(s[..i], s[i + 1..]))
  }

  function Octet(s: string): Option<Byte> {
    if s == "" || !AllDigits(s) || (|s| > 1 && s[0] == '0') || DigitsValue(s) > 255 then None
    else Some(DigitsValue(s))
  }

  /** Four decimal numbers up to 255 without leading zeros. */
  function ParseIPv4(s: string): Option<seq<Byte>> {
    var parts := Split(s, '.');
    if |parts| != 4 then None
    else
      match (Octet(parts[0]), Octet(parts[1]), Octet(parts[2]), Octet(parts[3]))
      case (Some(w), Some(x), Some(y), Some(z)) => Some([w, x, y, z])
      case _ => None
  }

  // ----- what the programs print is taken apart again -----

  /** A character of a number or an IPv4 address. */
  predicate Plain(c: char) {
    IsDigit(c) || c == '.'
  }

  predicate AllPlain(s: string) {
    forall i :: 0 <= i < |s| ==> Plain(s[i])
  }

  lemma {:induction false} FirstDigit(n: nat)
    ensures n > 0 ==> FormatNat(n)[0] != '0'
  {
    if n >= 10 {
      FirstDigit(n / 10);
    }
  }

  lemma OctetOfNumber(n: Byte)
    ensures Octet(FormatNat(n)) == Some(n)
  {
    FormatNatValue(n);
    FirstDigit(n);
  }

  lemma Ipv4TextPlain(ip: seq<Byte>)
    requires |ip| == 4
    ensures AllPlain(Ipv4Text(ip)) && Ipv4Text(ip) != ""
  {
  }

  lemma Ipv4TextSplits(ip: seq<Byte>)
    requires |ip| == 4
    ensures Split(Ipv4Text(ip), '.') == [FormatNat(ip[0]), FormatNat(ip[1]), FormatNat(ip[2]), FormatNat(ip[3])]
  {
    var last := FormatNat(ip[3]);
    var two := FormatNat(ip[2]) + ['.'] + last;
    var three := FormatNat(ip[1]) + ['.'] + two;
    SplitNone(last, '.');
    SplitFirst(FormatNat(ip[2]), '.', last);
    SplitFirst(FormatNat(ip[1]), '.', two);
    SplitFirst(FormatNat(ip[0]), '.', three);
    assert Ipv4Text(ip) == FormatNat(ip[0]) + ['.'] + three;
  }

  /** Printing and parsing an IPv4 address is the identity. */
  lemma ParseIpv4Text(ip: seq<Byte>)
    requires |ip| == 4
    ensures ParseIPv4(Ipv4Text(ip)) == Some(ip)
  {
    Ipv4TextSplits(ip);
    OctetOfNumber(ip[0]);
    OctetOfNumber(ip[1]);
    OctetOfNumber(ip[2]);
    OctetOfNumber(ip[3]);
    assert ip == [ip[0], ip[1], ip[2], ip[3]];
  }

  lemma LastIndexOf(h: string, p: string)
    requires ':' !in p
    ensures LastIndex(h + ":" + p, ':') == |h|
  {
    var s := h + ":" + p;
    assert s[|h|] == ':' && s[|h| + 1..] == p;
  }

  lemma IndexOf(h: string, c: char, p: string)
    requires c !in h
    ensures Index(h + [c] + p, c) == |h|
  {
    var s := h + [c] + p;
    assert s[|h|] == c && s[..|h|] == h;
  }

  lemma BracketIndices(h: string, p: string)
    requires ']' !in h && ':' !in p
    ensures var s := "[" + h + "]:" + p; Index(s, ']') == |h| + 1 && LastIndex(s, ':') == |h| + 2
  {
    var s := "[" + h + "]:" + p;
    assert s == ("[" + h + "]") + ":" + p;
    LastIndexOf("[" + h + "]", p);
    assert s == ("[" + h) + [']'] + (":" + p);
    IndexOf("[" + h, ']', ":" + p);
  }

  lemma BracketParts(h: string, p: string)
    requires '[' !in h && '[' !in p && ']' !in p
    ensures var s := "[" + h + "]:" + p;
            && s[0] == '[' && '[' !in s[1..] && ']' !in s[|h| + 2..]
            && s[1..|h| + 1] == h && s[|h| + 3..] == p
  {
    var s := "[" + h + "]:" + p;
    assert s[1..] == h + "]:" + p;
    assert s[|h| + 2..] == ":" + p;
  }

  /** A host in brackets is taken out of them. */
  lemma SplitsBracketed(h: string, p: string)
    requires '[' !in h && ']' !in h && ':' !in p && '[' !in p && ']' !in p
    ensures SplitHostPort("[" + h + "]:" + p) == Some(HostPort(h, p))
  {
    BracketIndices(h, p);
    BracketParts(h, p);
  }

  lemma PlainHas(s: string)
    requires AllPlain(s)
    ensures ':' !in s && '[' !in s && ']' !in s
  {
  }

  lemma SplitsPlain(h: string, p: string)
    requires AllPlain(h) && AllPlain(p) && h != ""
    ensures SplitHostPort(h + ":" + p) == Some(HostPort(h, p))
  {
    var s := h + ":" + p;
    PlainHas(h);
    PlainHas(p);
    LastIndexOf(h, p);
    assert s[..|h|] == h && s[|h| + 1..] == p && s[0] == h[0];
  }

  lemma EndpointKeyText(ip: seq<Byte>, port: nat)
    requires |ip| == 4
    ensures EndpointKey(ip, port) == Ipv4Text(ip) + ":" + FormatNat(port)
  {
    Ipv4TextPlain(ip);
    PlainHas(Ipv4Text(ip));
  }

  /** Splitting undoes joining on every IPv4 endpoint. */
  lemma SplitsEndpointKey(ip: seq<Byte>, port: nat)
    requires |ip| == 4
    ensures SplitHostPort(EndpointKey(ip, port)) == Some(HostPort(Ipv4Text(ip), FormatInt(port)))
  {
    EndpointKeyText(ip, port);
    Ipv4TextPlain(ip);
    assert AllPlain(FormatNat(port));
    SplitsPlain(Ipv4Text(ip), FormatNat(port));
  }

  lemma PlainVisible(s: string)
    requires forall i :: 0 <= i < |s| ==> Plain(s[i]) || s[i] == ':'
    ensures '\n' !in s && TrimSpace(s) == s
  {
    if s != "" {
      TrimKeeps(s);
    }
  }

  // ----- exactly what is accepted -----

  predicate NoneOf(s: string) {
    ':' !in s && '[' !in s && ']' !in s
  }

  /** The two ways to write an endpoint. */
  predicate Writes(s: string, hp: HostPort) {
    || (s == hp.host + ":" + hp.port && NoneOf(hp.host) && NoneOf(hp.port))
    || (s == "[" + hp.host + "]:" + hp.port && '[' !in hp.host && ']' !in hp.host && NoneOf(hp.port))
  }

  lemma PlainForm(s: string, i: nat)
    requires i < |s| && s[i] == ':' && ':' !in s[i + 1..] && ':' !in s[..i] && '[' !in s && ']' !in s
    ensures Writes(s, HostPort(s[..i], s[i + 1..]))
  {
    assert s == s[..i] + ":" + s[i + 1..];
  }

  lemma BracketForm(s: string, i: nat)
    requires 2 <= i < |s| && s[0] == '[' && s[i - 1] == ']' && s[i] == ':'
    requires ':' !in s[i + 1..] && ']' !in s[..i - 1] && '[' !in s[1..] && ']' !in s[i..]
    ensures Writes(s, HostPort(s[1..i - 1], s[i + 1..]))
  {
    var h, p := s[1..i - 1], s[i + 1..];
    assert s == "[" + h + "]:" + p;
    assert forall q :: 0 <= q < |h| ==> h[q] == s[1..][q] && h[q] == s[..i - 1][q + 1];
    assert forall q :: 0 <= q < |p| ==> p[q] == s[1..][q + i] && p[q] == s[i..][q + 1];
  }

  lemma SplitsWritten(s: string, hp: HostPort)
    requires SplitHostPort(s) == Some(hp)
    ensures Writes(s, hp)
  {
    var i := LastIndex(s, ':');
    if s[0] == '[' {
      BracketForm(s, i);
    } else {
      PlainForm(s, i);
    }
  }

  lemma WrittenSplits(h: string, p: string)
    requires NoneOf(h) && NoneOf(p)
    ensures SplitHostPort(h + ":" + p) == Some(HostPort(h, p))
  {
    var s := h + ":" + p;
    LastIndexOf(h, p);
    assert s[..|h|] == h && s[|h| + 1..] == p;
    assert s[0] == if h == "" then ':' else h[0];
  }

  /** net.SplitHostPort accepts exactly these two forms, and takes them apart. */
  lemma SplitHostPortExactly(s: string, hp: HostPort)
    ensures SplitHostPort(s) == Some(hp) <==> Writes(s, hp)
  {
    if SplitHostPort(s) == Some(hp) {
      SplitsWritten(s, hp);
    }
    if Writes(s, hp) {
      if NoneOf(hp.host) && s == hp.host + ":" + hp.port {
        WrittenSplits(hp.host, hp.port);
      } else {
        SplitsBracketed(hp.host, hp.port);
      }
    }
  }

  /** Splitting undoes joining for every host without brackets. */
  lemma SplitUndoesJoin(h: string, p: string)
    requires '[' !in h && ']' !in h && NoneOf(p)
    ensures SplitHostPort(JoinHostPort(h, p)) == Some(HostPort(h, p))
  {
    SplitHostPortExactly(JoinHostPort(h, p), HostPort(h, p));
  }

  /** A number without leading zeros is what printing it gives. */
  lemma {:induction false} DigitsPrint(s: string)
    requires s != "" && AllDigits(s) && (|s| > 1 ==> s[0] != '0')
    ensures FormatNat(DigitsValue(s)) == s
    ensures s[0] != '0' ==> DigitsValue(s) > 0
  {
    var init, last := s[..|s| - 1], s[|s| - 1];
    assert s == init + [last];
    if |s| == 1 {
      assert DigitsValue(init) == 0;
    } else {
      DigitsPrint(init);
    }
    assert DigitChar(DigitValue(last)) == last;
  }

  lemma OctetExactly(s: string, n: Byte)
    ensures Octet(s) == Some(n) <==> s == FormatNat(n)
  {
    if Octet(s) == Some(n) {
      DigitsPrint(s);
    }
    OctetOfNumber(n);
  }

  lemma FourParts(s: string)
    requires |Split(s, '.')| == 4
    ensures var p := Split(s, '.'); s == p[0] + "." + (p[1] + "." + (p[2] + "." + p[3]))
  {
    JoinSplit(s, '.');
    var t := s[|Split(s, '.')[0]| + 1..];
    JoinSplit(t, '.');
    var u := t[|Split(t, '.')[0]| + 1..];
    JoinSplit(u, '.');
    JoinSplit(u[|Split(u, '.')[0]| + 1..], '.');
  }

  /** The texts accepted as IPv4 addresses are exactly the printed ones: four numbers, none above 255, none with a
      leading zero. */
  lemma ParseIPv4Exactly(s: string, ip: seq<Byte>)
    ensures ParseIPv4(s) == Some(ip) <==> |ip| == 4 && s == Ipv4Text(ip)
  {
    if ParseIPv4(s) == Some(ip) {
      var p := Split(s, '.');
      FourParts(s);
      OctetExactly(p[0], ip[0]);
      OctetExactly(p[1], ip[1]);
      OctetExactly(p[2], ip[2]);
      OctetExactly(p[3], ip[3]);
    }
    if |ip| == 4 && s == Ipv4Text(ip) {
      ParseIpv4Text(ip);
    }
  }
}
