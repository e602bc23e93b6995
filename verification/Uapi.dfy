/** The text of WireGuard's configuration protocol: the stanza printed by wgUpsertPeer and the reader parseWGUAPI
    (dht/wireguard.go). */
module Uapi {
  import opened Text
  import opened Decimal
  import opened Endpoint
  import opened HostPort
  import WgKey

  datatype PeerRec = PeerRec(pubHex: string, endpoint: string, allowedIPs: seq<string>,
                             hsSec: int, hsNSec: int, keepaliveSec: int)

  /** The peers read so far and the key of the peer being read. */
  datatype Reading = Reading(peers: map<string, PeerRec>, cur: Option<string>)

  predicate Consistent(r: Reading) {
    r.cur.Some? ==> r.cur.value in r.peers
  }

  datatype Field = PublicKey | EndpointField | AllowedIP | HandshakeSec | HandshakeNSec | Keepalive | Unknown

  function FieldOf(k: string): Field {
    if k == "public_key" then PublicKey
    else if k == "endpoint" then EndpointField
    else if k == "allowed_ip" then AllowedIP
    else if k == "last_handshake_time_sec" then HandshakeSec
    else if k == "last_handshake_time_nsec" then HandshakeNSec
    else if k == "persistent_keepalive_interval" then Keepalive
    else Unknown
  }

  /** One field of the current record; a number that does not parse changes nothing. */
  function SetField(rec: PeerRec, f: Field, v: string): PeerRec {
    match f
    case EndpointField => rec.(endpoint := v)
    case AllowedIP => rec.(allowedIPs := rec.allowedIPs + [v])
    case HandshakeSec => if ParseInt(v).Some? then rec.(hsSec := ParseInt(v).value) else rec
    case HandshakeNSec => if ParseInt(v).Some? then rec.(hsNSec := ParseInt(v).value) else rec
    case Keepalive => if ParseInt(v).Some? then rec.(keepaliveSec := ParseInt(v).value) else rec
    case _ => rec
  }

  function ReadField(r: Reading, f: Field, v: string): (r': Reading)
    requires Consistent(r)
    ensures Consistent(r')
  {
    if f == PublicKey then Reading(r.peers[v := PeerRec(v, "", [], 0, 0, 0)], Some(v))
    else if r.cur.None? then r
    else r.(peers := r.peers[r.cur.value := SetField(r.peers[r.cur.value], f, v)])
  }

  /** The field and the value that a line carries, if it has a key and a value. */
  function ParseLine(line: string): Option<(Field, string)> {
    var ln := TrimSpace(line);
    if ln == "" then None
    else
      match Cut(ln, '=')
      case None => None
      case Some((k, v)) => Some((FieldOf(k), TrimSpace(v)))
  }

  function Take(r: Reading, kv: Option<(Field, string)>): (r': Reading)
    requires Consistent(r)
    ensures Consistent(r')
  {
    if kv.None? then r else ReadField(r, kv.value.0, kv.value.1)
  }

  function ReadLine(r: Reading, line: string): (r': Reading)
    requires Consistent(r)
    ensures Consistent(r')
  {
    Take(r, ParseLine(line))
  }

  function ReadLines(r: Reading, lines: seq<string>): (r': Reading)
    requires Consistent(r)
    ensures Consistent(r')
    decreases |lines|
  {
    if lines == [] then r else ReadLines(ReadLine(r, lines[0]), lines[1..])
  }

  function Parse(uapi: string): map<string, PeerRec> {
    ReadLines(Reading(map[], None), Split(uapi, '\n')).peers
  }

  // ----- the reader on objects -----

  class PeerUAPI {
    var pubHex: string
    var endpoint: string
    var allowedIPs: seq<string>
    var hsSec: int
    var hsNSec: int
    var keepaliveSec: int

    constructor (pubHex: string)
      ensures View() == PeerRec(pubHex, "", [], 0, 0, 0)
    {
      this.pubHex, endpoint, allowedIPs, hsSec, hsNSec, keepaliveSec := pubHex, "", [], 0, 0, 0;
    }

    function View(): PeerRec
      reads this
    {
      PeerRec(pubHex, endpoint, allowedIPs, hsSec, hsNSec, keepaliveSec)
    }
  }

  /** Each object is filed under its own key, and the current object is one of them. */
  ghost predicate Filed(peers: map<string, PeerUAPI>, cur: PeerUAPI?)
    reads peers.Values
  {
    && (forall k :: k in peers ==> peers[k].pubHex == k)
    && (cur != null ==> cur in peers.Values)
  }

  ghost function ViewOf(peers: map<string, PeerUAPI>, cur: PeerUAPI?): (r: Reading)
    requires Filed(peers, cur)
    reads peers.Values
    ensures Consistent(r)
  {
    Reading(map k | k in peers :: peers[k].View(), if cur == null then None else Some(cur.pubHex))
  }

  /** One field of a record, in place. */
  method SetInPlace(cur: PeerUAPI, k: string, v: string)
    requires k != "public_key"
    modifies cur
    ensures cur.View() == SetField(old(cur.View()), FieldOf(k), v) && cur.pubHex == old(cur.pubHex)
  {
    if k == "endpoint" {
      cur.endpoint := v;
    } else if k == "allowed_ip" {
      cur.allowedIPs := cur.allowedIPs + [v];
    } else if k == "last_handshake_time_sec" {
      var n := ParseInt(v);
      if n.Some? {
        cur.hsSec := n.value;
      }
    } else if k == "last_handshake_time_nsec" {
      var n := ParseInt(v);
      if n.Some? {
        cur.hsNSec := n.value;
      }
    } else if k == "persistent_keepalive_interval" {
      var n := ParseInt(v);
      if n.Some? {
        cur.keepaliveSec := n.value;
      }
    }
  }

  lemma OnlyKeyField(k: string)
    ensures FieldOf(k) == PublicKey <==> k == "public_key"
  {
  }

  /** The switch over one key and its trimmed value. The current object is written in place, and the map sees it. */
  method StoreField(peers: map<string, PeerUAPI>, cur: PeerUAPI?, k: string, v: string)
      returns (peers': map<string, PeerUAPI>, cur': PeerUAPI?)
    requires Filed(peers, cur)
    modifies peers.Values
    ensures Filed(peers', cur') && forall p :: p in peers'.Values ==> p in peers.Values || fresh(p)
    ensures ViewOf(peers', cur') == ReadField(old(ViewOf(peers, cur)), FieldOf(k), v)
  {
    OnlyKeyField(k);
    peers', cur' := peers, cur;
    if k == "public_key" {
      cur' := new PeerUAPI(v);
      peers' := peers[v := cur'];
      assert peers'[v] == cur';
    } else if cur != null {
      assert peers[cur.pubHex] == cur;
      SetInPlace(cur, k, v);
    }
  }

  method ParseWGUAPI(uapi: string) returns (peers: map<string, PeerUAPI>)
    ensures fresh(peers.Values) && Filed(peers, null)
    ensures ViewOf(peers, null).peers == Parse(uapi)
  {
    peers := map[];
    var cur: PeerUAPI? := null;
    var lines := Split(uapi, '\n');
    for i := 0 to |lines|
      invariant fresh(peers.Values) && Filed(peers, cur)
      invariant ReadLines(ViewOf(peers, cur), lines[i..]).peers == Parse(uapi)
    {
      assert lines[i..][0] == lines[i] && lines[i..][1..] == lines[i + 1..];
      var ln := TrimSpace(lines[i]);
      if ln == "" {
        continue;
      }
      var kv := Cut(ln, '=');
      if kv.None? {
        continue;
      }
      peers, cur := StoreField(peers, cur, kv.value.0, TrimSpace(kv.value.1));
    }
  }

  // ----- printing and reading back -----

  /** A value that survives on a line of its own. */
  predicate Clean(v: string) {
    '\n' !in v && TrimSpace(v) == v
  }

  datatype Entry = Entry(pubHex: string, allowedIP: string, endpoint: string)

  predicate CleanEntry(e: Entry) {
    Clean(e.pubHex) && Clean(e.allowedIP) && Clean(e.endpoint)
  }

  function Stanza(e: Entry): string {
    "public_key=" + e.pubHex + "\n" + "replace_allowed_ips=true\n" + "allowed_ip=" + e.allowedIP + "\n"
    + "endpoint=" + e.endpoint + "\n" + "persistent_keepalive_interval=25\n"
  }

  function Stanzas(es: seq<Entry>): string {
    if es == [] then "" else Stanza(es[0]) + Stanzas(es[1..])
  }

  function RecOf(e: Entry): PeerRec {
    PeerRec(e.pubHex, e.endpoint, [e.allowedIP], 0, 0, 25)
  }

  /** The last entry of each key. */
  function LastEntries(es: seq<Entry>): map<string, PeerRec> {
    if es == [] then map[]
    else LastEntries(es[..|es| - 1])[es[|es| - 1].pubHex := RecOf(es[|es| - 1])]
  }

  /** White space around a line makes no difference. */
  lemma LineTrims(line: string)
    ensures ParseLine(line) == ParseLine(TrimSpace(line))
  {
    TrimTwice(line);
  }

  /** A field is read with its value trimmed. */
  lemma ReadsTrimmed(k: string, v: string)
    requires k != "" && !IsSpace(k[0]) && '=' !in k
    ensures ParseLine(k + "=" + v) == Some((FieldOf(k), TrimSpace(v)))
  {
    var a := k + "=";
    var line := a + v;
    TrimRightStops(a, v);
    assert line[0] == k[0];
    assert TrimSpace(line) == k + ['='] + TrimRight(v);
    CutAt(k, '=', TrimRight(v));
    TrimsRightFirst(v);
  }

  /** A printed field is read back as it was. */
  lemma ReadsField(k: string, v: string)
    requires k != "" && !IsSpace(k[0]) && '=' !in k && Clean(v)
    ensures ParseLine(k + "=" + v) == Some((FieldOf(k), v))
  {
    ReadsTrimmed(k, v);
  }

  lemma LineFirst(a: string, rest: string)
    requires '\n' !in a
    ensures Split(a + "\n" + rest, '\n') == [a] + Split(rest, '\n')
  {
    SplitFirst(a, '\n', rest);
    assert a + "\n" + rest == a + ['\n'] + rest;
  }

  // The five lines of a stanza.
  function KeyLine(e: Entry): string { "public_key" + "=" + e.pubHex }
  const REPLACE_LINE := "replace_allowed_ips" + "=" + "true"
  function AllowedLine(e: Entry): string { "allowed_ip" + "=" + e.allowedIP }
  function EndpointLine(e: Entry): string { "endpoint" + "=" + e.endpoint }
  const KEEPALIVE_LINE := "persistent_keepalive_interval" + "=" + "25"

  function Lines(e: Entry): seq<string> {
    [KeyLine(e), REPLACE_LINE, AllowedLine(e), EndpointLine(e), KEEPALIVE_LINE]
  }

  lemma TwoLinesSplit(a: string, b: string, rest: string)
    requires '\n' !in a && '\n' !in b
    ensures Split(a + "\n" + b + "\n" + rest, '\n') == [a, b] + Split(rest, '\n')
  {
    assert a + "\n" + b + "\n" + rest == a + "\n" + (b + "\n" + rest);
    LineFirst(a, b + "\n" + rest);
    LineFirst(b, rest);
    JoinTwo(a, b, Split(rest, '\n'));
  }

  lemma JoinTwo(a: string, b: string, rest: seq<string>)
    ensures [a] + ([b] + rest) == [a, b] + rest
  {
  }

  lemma ThreeLinesSplit(c: string, d: string, e: string, rest: string)
    requires '\n' !in c && '\n' !in d && '\n' !in e
    ensures Split(c + "\n" + d + "\n" + e + "\n" + rest, '\n') == [c, d, e] + Split(rest, '\n')
  {
    LineFirst(e, rest);
    TwoLinesSplit(c, d, e + "\n" + rest);
    assert c + "\n" + d + "\n" + e + "\n" + rest == c + "\n" + d + "\n" + (e + "\n" + rest);
    assert [c, d] + ([e] + Split(rest, '\n')) == [c, d, e] + Split(rest, '\n');
  }

  lemma FiveLinesSplit(a: string, b: string, c: string, d: string, e: string, rest: string)
    requires '\n' !in a && '\n' !in b && '\n' !in c && '\n' !in d && '\n' !in e
    ensures Split(a + "\n" + b + "\n" + c + "\n" + d + "\n" + e + "\n" + rest, '\n')
        == [a, b, c, d, e] + Split(rest, '\n')
  {
    var tail := c + "\n" + d + "\n" + e + "\n" + rest;
    ThreeLinesSplit(c, d, e, rest);
    TwoLinesSplit(a, b, tail);
    assert a + "\n" + b + "\n" + c + "\n" + d + "\n" + e + "\n" + rest == a + "\n" + b + "\n" + tail;
    JoinFive(a, b, c, d, e, Split(rest, '\n'));
  }

  lemma JoinFive(a: string, b: string, c: string, d: string, e: string, rest: seq<string>)
    ensures [a, b] + ([c, d, e] + rest) == [a, b, c, d, e] + rest
  {
  }

  lemma LinesHaveNoBreaks(e: Entry)
    requires CleanEntry(e)
    ensures '\n' !in KeyLine(e) && '\n' !in REPLACE_LINE && '\n' !in AllowedLine(e)
    ensures '\n' !in EndpointLine(e) && '\n' !in KEEPALIVE_LINE
  {
  }

  lemma StanzaLines(e: Entry)
    ensures Stanza(e) == KeyLine(e) + "\n" + REPLACE_LINE + "\n" + AllowedLine(e) + "\n" + EndpointLine(e) + "\n"
                         + KEEPALIVE_LINE + "\n"
  {
  }

  lemma StanzaSplits(e: Entry, rest: string)
    requires CleanEntry(e)
    ensures Split(Stanza(e) + rest, '\n') == Lines(e) + Split(rest, '\n')
  {
    LinesHaveNoBreaks(e);
    StanzaLines(e);
    FiveLinesSplit(KeyLine(e), REPLACE_LINE, AllowedLine(e), EndpointLine(e), KEEPALIVE_LINE, rest);
  }

  /** The text that goes to the device, line by line. */
  lemma StanzaText(e: Entry)
    requires CleanEntry(e)
    ensures Split(Stanza(e), '\n') ==
              ["public_key=" + e.pubHex, "replace_allowed_ips=true", "allowed_ip=" + e.allowedIP,
               "endpoint=" + e.endpoint, "persistent_keepalive_interval=25", ""]
  {
    StanzaSplits(e, "");
    assert Stanza(e) + "" == Stanza(e) && Split("", '\n') == [""];
    StanzaLinesSpelt(e);
  }

  lemma StanzaLinesSpelt(e: Entry)
    ensures Lines(e) == ["public_key=" + e.pubHex, "replace_allowed_ips=true", "allowed_ip=" + e.allowedIP,
                         "endpoint=" + e.endpoint, "persistent_keepalive_interval=25"]
  {
    assert "public_key" + "=" == "public_key=" && "allowed_ip" + "=" == "allowed_ip=";
    assert "endpoint" + "=" == "endpoint=";
    assert REPLACE_LINE == "replace_allowed_ips=true";
    assert KEEPALIVE_LINE == "persistent_keepalive_interval=25";
  }

  lemma {:induction false} ReadLinesConcat(r: Reading, a: seq<string>, b: seq<string>)
    requires Consistent(r)
    ensures ReadLines(r, a + b) == ReadLines(ReadLines(r, a), b)
    decreases |a|
  {
    if a == [] {
      assert a + b == b;
    } else {
      assert (a + b)[0] == a[0] && (a + b)[1..] == a[1..] + b;
      ReadLinesConcat(ReadLine(r, a[0]), a[1..], b);
    }
  }

  function TakeAll(r: Reading, kvs: seq<Option<(Field, string)>>): (r': Reading)
    requires Consistent(r)
    ensures Consistent(r')
    decreases |kvs|
  {
    if kvs == [] then r else TakeAll(Take(r, kvs[0]), kvs[1..])
  }

  /** Reading lines is taking what they carry. */
  lemma {:induction false} ReadLinesTakes(r: Reading, lines: seq<string>, kvs: seq<Option<(Field, string)>>)
    requires Consistent(r) && |kvs| == |lines| && forall i :: 0 <= i < |lines| ==> ParseLine(lines[i]) == kvs[i]
    ensures ReadLines(r, lines) == TakeAll(r, kvs)
    decreases |lines|
  {
    if lines != [] {
      ReadLinesTakes(ReadLine(r, lines[0]), lines[1..], kvs[1..]);
    }
  }

  lemma FieldNames()
    ensures FieldOf("public_key") == PublicKey
    ensures FieldOf("replace_allowed_ips") == Unknown
    ensures FieldOf("allowed_ip") == AllowedIP
    ensures FieldOf("endpoint") == EndpointField
    ensures FieldOf("persistent_keepalive_interval") == Keepalive
  {
  }

  lemma KeyCarries(e: Entry)
    requires Clean(e.pubHex)
    ensures ParseLine(KeyLine(e)) == Some((PublicKey, e.pubHex))
  {
    ReadsField("public_key", e.pubHex);
  }

  lemma ReplaceCarries()
    ensures ParseLine(REPLACE_LINE) == Some((Unknown, "true"))
  {
    FieldNames();
    TrimKeeps("true");
    ReadsField("replace_allowed_ips", "true");
  }

  lemma AllowedCarries(e: Entry)
    requires Clean(e.allowedIP)
    ensures ParseLine(AllowedLine(e)) == Some((AllowedIP, e.allowedIP))
  {
    ReadsField("allowed_ip", e.allowedIP);
  }

  lemma EndpointCarries(e: Entry)
    requires Clean(e.endpoint)
    ensures ParseLine(EndpointLine(e)) == Some((EndpointField, e.endpoint))
  {
    ReadsField("endpoint", e.endpoint);
  }

  lemma KeepaliveCarries()
    ensures ParseLine(KEEPALIVE_LINE) == Some((Keepalive, "25"))
  {
    FieldNames();
    TrimKeeps("25");
    ReadsField("persistent_keepalive_interval", "25");
  }

  /** What the lines of a stanza carry. */
  function Carried(e: Entry): seq<Option<(Field, string)>> {
    [Some((PublicKey, e.pubHex)), Some((Unknown, "true")), Some((AllowedIP, e.allowedIP)),
     Some((EndpointField, e.endpoint)), Some((Keepalive, "25"))]
  }

  lemma FixedLineCarries(e: Entry, i: nat)
    requires i == 1 || i == 4
    ensures ParseLine(Lines(e)[i]) == Carried(e)[i]
  {
    if i == 1 {
      ReplaceCarries();
    } else {
      KeepaliveCarries();
    }
  }

  lemma OwnLineCarries(e: Entry, i: nat)
    requires CleanEntry(e) && (i == 0 || i == 2 || i == 3)
    ensures ParseLine(Lines(e)[i]) == Carried(e)[i]
  {
    if i == 0 {
      KeyCarries(e);
    } else if i == 2 {
      AllowedCarries(e);
    } else {
      EndpointCarries(e);
    }
  }

  lemma TakeFive(r: Reading, k: seq<Option<(Field, string)>>)
    requires Consistent(r) && |k| == 5
    ensures TakeAll(r, k) == Take(Take(Take(Take(Take(r, k[0]), k[1]), k[2]), k[3]), k[4])
  {
    var r1 := Take(r, k[0]);
    var r2 := Take(r1, k[1]);
    var r3 := Take(r2, k[2]);
    var r4 := Take(r3, k[3]);
    assert k[1..][1..] == k[2..] && k[2..][1..] == k[3..] && k[3..][1..] == k[4..] && k[4..][1..] == [];
    assert TakeAll(r4, k[4..]) == Take(r4, k[4]);
    assert TakeAll(r3, k[3..]) == TakeAll(r4, k[4..]);
    assert TakeAll(r2, k[2..]) == TakeAll(r3, k[3..]);
    assert TakeAll(r1, k[1..]) == TakeAll(r2, k[2..]);
  }

  lemma TakesStanza(r: Reading, e: Entry)
    requires Consistent(r)
    ensures TakeAll(r, Carried(e)) == Reading(r.peers[e.pubHex := RecOf(e)], Some(e.pubHex))
  {
    FormatParse(25);
    assert FormatInt(25) == "25";
    TakeFive(r, Carried(e));
    assert [] + [e.allowedIP] == [e.allowedIP];
  }

  /** Reading a stanza files exactly its entry, whatever was filed under that key before. */
  lemma ReadsStanza(r: Reading, e: Entry)
    requires Consistent(r) && CleanEntry(e)
    ensures ReadLines(r, Lines(e)) == Reading(r.peers[e.pubHex := RecOf(e)], Some(e.pubHex))
  {
    forall i | 0 <= i < 5 ensures ParseLine(Lines(e)[i]) == Carried(e)[i] {
      if i == 1 || i == 4 { FixedLineCarries(e, i); } else { OwnLineCarries(e, i); }
    }
    ReadLinesTakes(r, Lines(e), Carried(e));
    TakesStanza(r, e);
  }

  lemma ReadsStanzaFirst(r: Reading, e: Entry, rest: string)
    requires Consistent(r) && CleanEntry(e)
    ensures ReadLines(r, Split(Stanza(e) + rest, '\n'))
         == ReadLines(Reading(r.peers[e.pubHex := RecOf(e)], Some(e.pubHex)), Split(rest, '\n'))
  {
    StanzaSplits(e, rest);
    ReadLinesConcat(r, Lines(e), Split(rest, '\n'));
    ReadsStanza(r, e);
  }

  lemma AddThenMerge<K, V>(m: map<K, V>, k: K, v: V, n: map<K, V>)
    ensures m[k := v] + n == m + (map[k := v] + n)
  {
  }

  lemma {:induction false} ReadsStanzas(es: seq<Entry>, r: Reading)
    requires Consistent(r) && AllClean(es)
    ensures ReadLines(r, Split(Stanzas(es), '\n')).peers == r.peers + LastEntries(es)
  {
    if es == [] {
      ReadsNothing(r);
    } else {
      assert CleanAt(es, 0);
      assert AllClean(es[1..]) by {
        forall i | 0 <= i < |es[1..]| ensures CleanAt(es[1..], i) { assert CleanAt(es, i + 1); }
      }
      ReadsStanzaFirst(r, es[0], Stanzas(es[1..]));
      ReadsStanzas(es[1..], Reading(r.peers[es[0].pubHex := RecOf(es[0])], Some(es[0].pubHex)));
      LastEntriesCons(es);
      AddThenMerge(r.peers, es[0].pubHex, RecOf(es[0]), LastEntries(es[1..]));
    }
  }

  predicate CleanAt(es: seq<Entry>, i: nat) {
    i < |es| && CleanEntry(es[i])
  }

  predicate AllClean(es: seq<Entry>) {
    forall i :: 0 <= i < |es| ==> CleanAt(es, i)
  }

  lemma ReadsNothing(r: Reading)
    requires Consistent(r)
    ensures ReadLines(r, Split("", '\n')) == r
  {
    assert Split("", '\n') == [""];
    assert ReadLines(r, [""]) == ReadLines(ReadLine(r, ""), [""][1..]);
  }

  lemma {:induction false} LastEntriesCons(es: seq<Entry>)
    requires es != []
    ensures LastEntries(es) == map[es[0].pubHex := RecOf(es[0])] + LastEntries(es[1..])
  {
    if |es| > 1 {
      LastEntriesCons(es[..|es| - 1]);
      assert es[..|es| - 1][1..] == es[1..][..|es[1..]| - 1];
    }
  }

  // ----- what wgUpsertPeer prints -----

  datatype Upsert = Upsert(pub: string, allowedIP: string, endpoint: string)

  /** netip.ParsePrefix as a test, and the texts of IPv4 addresses in IPv6 form that net.ParseIP accepts. */
  datatype Validators = Validators(prefix: string -> bool, mapped: string -> bool)

  /** No accepted prefix has a line break. */
  ghost predicate PrefixSyntax(v: Validators) {
    forall s :: v.prefix(s) ==> '\n' !in s
  }

  predicate ValidIPv4(v: Validators, s: string) {
    ParseIPv4(TrimSpace(s)).Some? || v.mapped(TrimSpace(s))
  }

  predicate ValidEndpoint(v: Validators, endpoint: string) {
    match SplitHostPort(endpoint)
    case None => false
    case Some(hp) => ValidIPv4(v, hp.host) && ParseInt(hp.port).Some? && 1 <= ParseInt(hp.port).value <= 65535
  }

  /** The entry that a call of wgUpsertPeer prints, if its checks pass. */
  function EntryOf(v: Validators, u: Upsert): Option<Entry> {
    var hex := WgKey.WgPubB64ToHex(u.pub);
    if hex.Bad? then None
    else if !v.prefix(TrimSpace(TrimSpace(u.allowedIP))) then None
    else if !ValidEndpoint(v, TrimSpace(u.endpoint)) then None
    else Some(Entry(hex.text, TrimSpace(u.allowedIP), TrimSpace(u.endpoint)))
  }

  lemma EndpointKeyKeeps(ip: seq<Byte>, port: nat)
    requires |ip| == 4
    ensures TrimSpace(EndpointKey(ip, port)) == EndpointKey(ip, port) && '\n' !in EndpointKey(ip, port)
  {
    EndpointKeyText(ip, port);
    Ipv4TextPlain(ip);
    PlainJoins(Ipv4Text(ip), FormatNat(port));
  }

  lemma PlainJoins(h: string, p: string)
    requires AllPlain(h) && AllPlain(p)
    ensures TrimSpace(h + ":" + p) == h + ":" + p && '\n' !in h + ":" + p
  {
    PlainVisible(h + ":" + p);
  }

  lemma Ipv4TextsAreValid(v: Validators, ip: seq<Byte>)
    requires |ip| == 4
    ensures ValidIPv4(v, Ipv4Text(ip))
  {
    ParseIpv4Text(ip);
    Ipv4TextPlain(ip);
    PlainVisible(Ipv4Text(ip));
  }

  /** The endpoints that the program itself builds pass exactly when their port is one. */
  lemma EndpointKeysAreValid(v: Validators, ip: seq<Byte>, port: nat)
    requires |ip| == 4 && IsInt64(port)
    ensures ValidEndpoint(v, EndpointKey(ip, port)) <==> 1 <= port <= 65535
  {
    SplitsEndpointKey(ip, port);
    Ipv4TextsAreValid(v, ip);
    FormatParse(port);
  }

  /** An endpoint text and its parts pass the checks. */
  predicate GoodParts(v: Validators, endpoint: string, hp: HostPort) {
    && Writes(endpoint, hp)
    && (v.mapped(TrimSpace(hp.host)) || ParseIPv4(TrimSpace(hp.host)).Some?)
    && ParseInt(hp.port).Some? && 1 <= ParseInt(hp.port).value <= 65535
  }

  /** Exactly which endpoint texts pass the checks. */
  lemma EndpointsExactly(v: Validators, endpoint: string)
    ensures ValidEndpoint(v, endpoint) <==> exists hp :: GoodParts(v, endpoint, hp)
  {
    var r := SplitHostPort(endpoint);
    if r.Some? {
      SplitHostPortExactly(endpoint, r.value);
      assert ValidEndpoint(v, endpoint) ==> GoodParts(v, endpoint, r.value);
    }
    if hp :| GoodParts(v, endpoint, hp) {
      SplitHostPortExactly(endpoint, hp);
    }
  }

  lemma {:induction false} HexVisible(b: seq<Byte>)
    ensures forall i :: 0 <= i < |WgKey.HexText(b)| ==> !IsSpace(WgKey.HexText(b)[i])
  {
    if b != [] {
      HexVisible(b[1..]);
    }
  }

  lemma VisibleIsClean(v: string)
    requires forall i :: 0 <= i < |v| ==> !IsSpace(v[i])
    ensures Clean(v)
  {
    if v != "" {
      TrimKeeps(v);
    }
  }

  lemma {:induction false} TrimLeftStarts(s: string)
    ensures TrimLeft(s) != "" ==> !IsSpace(TrimLeft(s)[0])
  {
    if s != "" && IsSpace(s[0]) {
      TrimLeftStarts(s[1..]);
    }
  }

  lemma TrimTwice(s: string)
    ensures TrimSpace(TrimSpace(s)) == TrimSpace(s)
  {
    TrimLeftStarts(s);
    TrimRightEnds(TrimLeft(s));
    if TrimSpace(s) != "" {
      assert TrimSpace(s)[0] == TrimLeft(s)[0];
      TrimKeeps(TrimSpace(s));
    }
  }

  lemma PrintedEntryIsClean(v: Validators, u: Upsert)
    requires PrefixSyntax(v) && EntryOf(v, u).Some? && '\n' !in TrimSpace(u.endpoint)
    ensures CleanEntry(EntryOf(v, u).value)
  {
    HexVisible(WgKey.DecodeEither(u.pub).value);
    VisibleIsClean(WgKey.HexText(WgKey.DecodeEither(u.pub).value));
    TrimTwice(u.allowedIP);
    TrimTwice(u.endpoint);
  }

  /** The i-th call passed its checks and printed the i-th entry, on five lines. */
  predicate PrintedAt(v: Validators, us: seq<Upsert>, es: seq<Entry>, i: nat) {
    i < |us| && i < |es| && EntryOf(v, us[i]) == Some(es[i]) && '\n' !in es[i].endpoint
  }

  lemma PrintedClean(v: Validators, us: seq<Upsert>, es: seq<Entry>, i: nat)
    requires PrefixSyntax(v) && PrintedAt(v, us, es, i)
    ensures CleanAt(es, i)
  {
    PrintedEntryIsClean(v, us[i]);
  }

  lemma ParsesStanzas(es: seq<Entry>)
    requires AllClean(es)
    ensures Parse(Stanzas(es)) == LastEntries(es)
  {
    ReadsStanzas(es, Reading(map[], None));
    assert map[] + LastEntries(es) == LastEntries(es);
  }

  /** A call succeeds exactly when its key decodes to 32 bytes, its address is a prefix and its endpoint is valid; and
      it then prints the hexadecimal of those bytes, the address and the endpoint, the latter two trimmed. */
  lemma EntryExactly(v: Validators, u: Upsert)
    ensures EntryOf(v, u).Some? <==>
              && !Blank(u.pub) && WgKey.DecodeEither(u.pub).Some? && |WgKey.DecodeEither(u.pub).value| == 32
              && v.prefix(TrimSpace(u.allowedIP)) && ValidEndpoint(v, TrimSpace(u.endpoint))
    ensures EntryOf(v, u).Some? ==>
              var e := EntryOf(v, u).value;
              && |e.pubHex| == 64 && WgKey.ReadHex(e.pubHex) == WgKey.DecodeEither(u.pub)
              && e.allowedIP == TrimSpace(u.allowedIP) && e.endpoint == TrimSpace(u.endpoint)
  {
    WgKey.HexExactly(u.pub);
    TrimTwice(u.allowedIP);
  }

  predicate SameKey(t: Upsert, u: Upsert) {
    WgKey.DecodeEither(t.pub) == WgKey.DecodeEither(u.pub)
  }

  /** No later call was for the same key. */
  predicate LastCall(us: seq<Upsert>, i: nat)
    requires i < |us|
  {
    forall j :: i < j < |us| ==> !SameKey(us[j], us[i])
  }

  /** The peer that a call asks for, read back. */
  predicate AskedFor(u: Upsert, rec: PeerRec) {
    && WgKey.ReadHex(rec.pubHex) == WgKey.DecodeEither(u.pub)
    && rec.endpoint == TrimSpace(u.endpoint) && rec.allowedIPs == [TrimSpace(u.allowedIP)]
    && rec.keepaliveSec == 25 && rec.hsSec == 0 && rec.hsNSec == 0
  }

  predicate AnyAsksFor(us: seq<Upsert>, k: string, rec: PeerRec) {
    exists i :: 0 <= i < |us| && AskedFor(us[i], rec) && rec.pubHex == k
  }

  lemma PrintedIsAsked(v: Validators, us: seq<Upsert>, es: seq<Entry>, i: nat)
    requires PrintedAt(v, us, es, i)
    ensures AskedFor(us[i], RecOf(es[i])) && RecOf(es[i]).pubHex == es[i].pubHex
  {
    EntryExactly(v, us[i]);
  }

  /** Whatever sequence of peers wgUpsertPeer configures, as long as no endpoint has a line break, reading back
      everything it printed yields a record for every last call for a key, with the key, endpoint and address that call
      asked for; and every record is what some call asked for. */
  lemma PrintThenParse(v: Validators, us: seq<Upsert>, es: seq<Entry>, i: nat)
    requires PrefixSyntax(v) && |es| == |us| && i < |us|
    requires forall j :: 0 <= j < |us| ==> PrintedAt(v, us, es, j)
    ensures LastCall(us, i) ==> es[i].pubHex in Parse(Stanzas(es)) && AskedFor(us[i], Parse(Stanzas(es))[es[i].pubHex])
    ensures forall k :: k in Parse(Stanzas(es)) ==> AnyAsksFor(us, k, Parse(Stanzas(es))[k])
  {
    ParsesToLast(v, us, es);
    if LastCall(us, i) {
      forall j | i < j < |es| ensures es[j].pubHex != es[i].pubHex {
        assert PrintedAt(v, us, es, j) && PrintedAt(v, us, es, i) && !SameKey(us[j], us[i]);
        PrintedIsAsked(v, us, es, j);
        PrintedIsAsked(v, us, es, i);
      }
      LastEntryOf(es, i);
      PrintedIsAsked(v, us, es, i);
    }
    forall k | k in LastEntries(es) ensures AnyAsksFor(us, k, LastEntries(es)[k]) {
      var j := SomeLast(es, k);
      LastEntryOf(es, j);
      PrintedIsAsked(v, us, es, j);
    }
  }

  lemma {:induction false} SomeLast(es: seq<Entry>, k: string) returns (i: nat)
    requires k in LastEntries(es)
    ensures i < |es| && IsLast(es, i) && es[i].pubHex == k
  {
    var before := es[..|es| - 1];
    if es[|es| - 1].pubHex == k {
      i := |es| - 1;
    } else {
      i := SomeLast(before, k);
      assert forall j :: i < j < |before| ==> before[j] == es[j];
    }
  }

  lemma ParsesToLast(v: Validators, us: seq<Upsert>, es: seq<Entry>)
    requires PrefixSyntax(v) && |es| == |us|
    requires forall i :: 0 <= i < |us| ==> PrintedAt(v, us, es, i)
    ensures Parse(Stanzas(es)) == LastEntries(es)
  {
    forall i | 0 <= i < |es| ensures CleanAt(es, i) { PrintedClean(v, us, es, i); }
    ParsesStanzas(es);
  }

  /** One record for each hex key printed, with the endpoint and the single allowed address of the last call for that
      key, no handshake, and keep-alive 25. */
  lemma LastEntriesExactly(es: seq<Entry>, i: nat)
    requires i < |es|
    ensures forall k :: k in LastEntries(es) <==> Has(es, k)
    ensures IsLast(es, i) ==>
              es[i].pubHex in LastEntries(es) &&
              LastEntries(es)[es[i].pubHex] == PeerRec(es[i].pubHex, es[i].endpoint, [es[i].allowedIP], 0, 0, 25)
  {
    forall k ensures k in LastEntries(es) <==> Has(es, k) { LastEntryKeys(es, k); }
    if IsLast(es, i) {
      LastEntryOf(es, i);
    }
  }

  predicate Has(es: seq<Entry>, k: string) {
    exists i :: 0 <= i < |es| && es[i].pubHex == k
  }

  predicate IsLast(es: seq<Entry>, i: nat)
    requires i < |es|
  {
    forall j :: i < j < |es| ==> es[j].pubHex != es[i].pubHex
  }

  lemma {:induction false} LastEntryKeys(es: seq<Entry>, k: string)
    ensures k in LastEntries(es) <==> Has(es, k)
  {
    if es != [] {
      var before := es[..|es| - 1];
      LastEntryKeys(before, k);
      if Has(before, k) {
        var i :| 0 <= i < |before| && before[i].pubHex == k;
        assert es[i].pubHex == k;
      }
      if Has(es, k) && es[|es| - 1].pubHex != k {
        var i :| 0 <= i < |es| && es[i].pubHex == k;
        assert before[i].pubHex == k;
      }
    }
  }

  lemma {:induction false} LastEntryOf(es: seq<Entry>, i: nat)
    requires i < |es| && IsLast(es, i)
    ensures es[i].pubHex in LastEntries(es) && LastEntries(es)[es[i].pubHex] == RecOf(es[i])
  {
    var before := es[..|es| - 1];
    if i < |before| {
      assert es[|es| - 1].pubHex != es[i].pubHex;
      assert forall j :: i < j < |before| ==> before[j] == es[j];
      LastEntryOf(before, i);
    }
  }

  // ----- every field of a record -----

  /** What one line does while a record is being read. */
  function AfterLine(rec: PeerRec, line: string): PeerRec {
    var r := ReadLine(Reading(map[rec.pubHex := rec], Some(rec.pubHex)), line);
    if rec.pubHex in r.peers then r.peers[rec.pubHex] else rec
  }

  lemma FieldLine(rec: PeerRec, k: string, line: string, v: string)
    requires k != "" && !IsSpace(k[0]) && '=' !in k && FieldOf(k) != PublicKey
    requires line == k + "=" + v
    ensures AfterLine(rec, line) == SetField(rec, FieldOf(k), TrimSpace(v))
  {
    ReadsTrimmed(k, v);
  }

  lemma EndpointLineSets(rec: PeerRec, v: string)
    ensures AfterLine(rec, "endpoint=" + v) == rec.(endpoint := TrimSpace(v))
  {
    assert "endpoint" + "=" == "endpoint=";
    FieldLine(rec, "endpoint", "endpoint=" + v, v);
  }

  lemma AllowedLineAdds(rec: PeerRec, v: string)
    ensures AfterLine(rec, "allowed_ip=" + v) == rec.(allowedIPs := rec.allowedIPs + [TrimSpace(v)])
  {
    assert "allowed_ip" + "=" == "allowed_ip=";
    FieldLine(rec, "allowed_ip", "allowed_ip=" + v, v);
  }

  // The three numbers; what is not a 64-bit decimal number changes nothing.

  lemma SecondsLineSets(rec: PeerRec, v: string)
    ensures AfterLine(rec, "last_handshake_time_sec=" + v)
         == if ParseInt(TrimSpace(v)).Some? then rec.(hsSec := ParseInt(TrimSpace(v)).value) else rec
  {
    assert "last_handshake_time_sec" + "=" == "last_handshake_time_sec=";
    FieldLine(rec, "last_handshake_time_sec", "last_handshake_time_sec=" + v, v);
  }

  lemma NanosecondsLineSets(rec: PeerRec, v: string)
    ensures AfterLine(rec, "last_handshake_time_nsec=" + v)
         == if ParseInt(TrimSpace(v)).Some? then rec.(hsNSec := ParseInt(TrimSpace(v)).value) else rec
  {
    assert "last_handshake_time_nsec" + "=" == "last_handshake_time_nsec=";
    FieldLine(rec, "last_handshake_time_nsec", "last_handshake_time_nsec=" + v, v);
  }

  lemma KeepaliveLineSets(rec: PeerRec, v: string)
    ensures AfterLine(rec, "persistent_keepalive_interval=" + v)
         == if ParseInt(TrimSpace(v)).Some? then rec.(keepaliveSec := ParseInt(TrimSpace(v)).value) else rec
  {
    FieldNames();
    assert "persistent_keepalive_interval" + "=" == "persistent_keepalive_interval=";
    FieldLine(rec, "persistent_keepalive_interval", "persistent_keepalive_interval=" + v, v);
  }

  /** A key starts a new record and forgets what was read for that key before. */
  lemma KeyLineStarts(r: Reading, v: string)
    requires Consistent(r)
    ensures var k := TrimSpace(v);
            ReadLine(r, "public_key=" + v) == Reading(r.peers[k := PeerRec(k, "", [], 0, 0, 0)], Some(k))
  {
    assert "public_key" + "=" == "public_key=";
    ReadsTrimmed("public_key", v);
  }

  predicate KnownKey(k: string) {
    || k == "public_key" || k == "endpoint" || k == "allowed_ip" || k == "last_handshake_time_sec"
    || k == "last_handshake_time_nsec" || k == "persistent_keepalive_interval"
  }

  /** Fields before the first key, other keys, lines without '=' and blank lines change nothing. */
  lemma IgnoredLines(r: Reading, k: string, v: string)
    requires Consistent(r) && k != "" && !IsSpace(k[0]) && '=' !in k
    ensures r.cur.None? && k != "public_key" ==> ReadLine(r, k + "=" + v) == r
    ensures !KnownKey(k) && r.cur.Some? ==> ReadLine(r, k + "=" + v) == r
    ensures '=' !in v ==> ReadLine(r, v) == r
  {
    ReadsTrimmed(k, v);
    if '=' !in v {
      TrimPart(v, '=');
      CutNone(TrimSpace(v), '=');
    }
    if r.cur.Some? {
      assert r.peers[r.cur.value := r.peers[r.cur.value]] == r.peers;
    }
  }

  // ----- endpoints with line breaks -----

  /** No record that the reader has filed holds a line break in its endpoint. */
  ghost predicate Unbroken(r: Reading) {
    forall k :: k in r.peers ==> '\n' !in r.peers[k].endpoint
  }

  lemma {:induction false} TrimLeftPart(s: string, c: char)
    requires c !in s
    ensures c !in TrimLeft(s)
  {
    if s != "" && IsSpace(s[0]) {
      TrimLeftPart(s[1..], c);
    }
  }

  lemma TrimPart(s: string, c: char)
    requires c !in s
    ensures c !in TrimSpace(s)
  {
    TrimLeftPart(s, c);
    TrimRightEnds(TrimLeft(s));
  }

  lemma {:induction false} CutPart(s: string, sep: char, c: char)
    requires c !in s && Cut(s, sep).Some?
    ensures c !in Cut(s, sep).value.1
  {
    if s[0] != sep {
      CutPart(s[1..], sep, c);
    }
  }

  lemma LinePart(line: string)
    requires '\n' !in line && ParseLine(line).Some?
    ensures '\n' !in ParseLine(line).value.1
  {
    TrimPart(line, '\n');
    CutPart(TrimSpace(line), '=', '\n');
    TrimPart(Cut(TrimSpace(line), '=').value.1, '\n');
  }

  lemma {:induction false} ReadLinesUnbroken(r: Reading, lines: seq<string>)
    requires Consistent(r) && Unbroken(r) && forall i :: 0 <= i < |lines| ==> '\n' !in lines[i]
    ensures Unbroken(ReadLines(r, lines))
    decreases |lines|
  {
    if lines != [] {
      if ParseLine(lines[0]).Some? {
        LinePart(lines[0]);
      }
      ReadLinesUnbroken(ReadLine(r, lines[0]), lines[1..]);
    }
  }

  lemma OneStanza(e: Entry)
    requires CleanEntry(e)
    ensures Parse(Stanza(e)) == map[e.pubHex := RecOf(e)]
  {
    assert [e][1..] == [] && [e][..0] == [];
    assert Stanzas([e]) == Stanza(e);
    assert CleanAt([e], 0);
    ParsesStanzas([e]);
  }

  /** A printed stanza reads back as the peer it configures if and only if its endpoint has no line break. */
  lemma StanzaReadsBackExactly(v: Validators, u: Upsert, e: Entry)
    requires PrefixSyntax(v) && EntryOf(v, u) == Some(e)
    ensures Parse(Stanza(e)) == map[e.pubHex := RecOf(e)] <==> '\n' !in e.endpoint
  {
    if '\n' !in e.endpoint {
      PrintedEntryIsClean(v, u);
      OneStanza(e);
    } else {
      ParsesUnbroken(Stanza(e));
      assert map[e.pubHex := RecOf(e)][e.pubHex].endpoint == e.endpoint;
    }
  }

  lemma ParsesUnbroken(text: string)
    ensures forall k :: k in Parse(text) ==> '\n' !in Parse(text)[k].endpoint
  {
    ReadLinesUnbroken(Reading(map[], None), Split(text, '\n'));
  }

  /** A host in brackets, after a line break. */
  function BrokenEndpoint(host: string, port: string): string {
    "[" + ("\n" + host) + "]:" + port
  }

  lemma BreakTrims(host: string)
    ensures TrimSpace("\n" + host) == TrimSpace(host)
  {
    assert ("\n" + host)[1..] == host;
  }

  lemma BrokenIsValid(v: Validators, host: string, port: string)
    requires '[' !in host && ']' !in host && ':' !in port && '[' !in port && ']' !in port
    requires ValidIPv4(v, host) && ParseInt(port).Some? && 1 <= ParseInt(port).value <= 65535
    ensures ValidEndpoint(v, BrokenEndpoint(host, port))
  {
    SplitsBracketed("\n" + host, port);
    BreakTrims(host);
  }

  /** The host between brackets is only checked after trimming, so such endpoints exist for every address and port. */
  lemma SomeEndpointsBreak(v: Validators, ip: seq<Byte>, port: nat)
    requires |ip| == 4 && 1 <= port <= 65535
    ensures ValidEndpoint(v, BrokenEndpoint(Ipv4Text(ip), FormatNat(port)))
    ensures '\n' in BrokenEndpoint(Ipv4Text(ip), FormatNat(port))
  {
    var h, p := Ipv4Text(ip), FormatNat(port);
    Ipv4TextPlain(ip);
    Ipv4TextsAreValid(v, ip);
    NumberIsPlain(port);
    PlainHas(h);
    BrokenIsValid(v, h, p);
    BrokenHas(h, p);
  }

  lemma NumberIsPlain(n: nat)
    requires IsInt64(n)
    ensures ParseInt(FormatNat(n)) == Some(n)
    ensures ':' !in FormatNat(n) && '[' !in FormatNat(n) && ']' !in FormatNat(n)
  {
    FormatParse(n);
    PlainHas(FormatNat(n));
  }

  lemma BrokenHas(host: string, port: string)
    ensures '\n' in BrokenEndpoint(host, port)
  {
    assert BrokenEndpoint(host, port)[1] == '\n';
  }
}
