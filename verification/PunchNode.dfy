/** One node of the DHT hole-punch protocol as a value: the critical sections of udpReadLoop and
    handleDiscoveredFromDHT, one function each. Between two sections of one goroutine any other goroutine may run. */
module PunchNode {
  import opened Text
  import opened PunchPacket

  type Key = string

  datatype Kind = Hello | Reply | Ack | Other

  /** What the read loop looks at in a packet. */
  datatype Signal = Signal(kind: Kind, sid: string, payload: Option<Payload>)

  function KindText(k: Kind): string
    requires k != Other
  {
    match k
    case Hello => "HELLO"
    case Reply => "REPLY"
    case Ack => "ACK"
  }

  function KindOf(t: string): Kind {
    if t == "HELLO" then Hello else if t == "REPLY" then Reply else if t == "ACK" then Ack else Other
  }

  function SignalOf(p: Packet): Signal {
    Signal(KindOf(p.kind), p.sid, p.payload)
  }

  /** A signal sent through the text codec arrives unchanged, up to a payload that does not travel. */
  lemma SignalTravels(j: Json, k: Kind, sid: string, ts: Option<int>, p: Option<Payload>)
    requires Lawful(j) && k != Other && '|' !in sid
    requires ts.Some? ==> Decimal.IsInt64(ts.value)
    ensures var r := Unpack(j, Pack(j, KindText(k), sid, ts, p));
            r.Some? && SignalOf(r.value) == Signal(k, sid, Carried(j, p))
  {
    assert '|' !in KindText(k);
    PackRoundTrip(j, KindText(k), sid, ts, p);
  }

  /** The kinds as they are written, and nothing else is one of them. */
  lemma KindsAreWritten(j: Json, sid: string, p: Option<Payload>, t: string)
    requires '|' !in sid
    ensures Split(Pack(j, KindText(Hello), sid, None, p), '|') == ["PUNCH1", "HELLO", sid, "", PayloadText(j, p)]
    ensures Split(Pack(j, KindText(Reply), sid, None, p), '|') == ["PUNCH1", "REPLY", sid, "", PayloadText(j, p)]
    ensures Split(Pack(j, KindText(Ack), sid, None, p), '|') == ["PUNCH1", "ACK", sid, "", PayloadText(j, p)]
    ensures KindOf(t) == Hello <==> t == "HELLO"
    ensures KindOf(t) == Reply <==> t == "REPLY"
    ensures KindOf(t) == Ack <==> t == "ACK"
  {
    assert forall k :: k != Other ==> '|' !in KindText(k);
    PackSplits(j, KindText(Hello), sid, None, p);
    PackSplits(j, KindText(Reply), sid, None, p);
    PackSplits(j, KindText(Ack), sid, None, p);
  }

  datatype Pending = Pending(sid: string, remote: Option<Payload>)

  /** Where the read loop stands: waiting for a packet, about to answer one, or about to confirm its sender. */
  datatype Reader = Idle | Answering(from: Key, sig: Signal) | Confirming(from: Key, sig: Signal)

  /** A call of onConfirmed. */
  datatype Handler = Handler(from: Key, remote: Option<Payload>)

  datatype Node = Node(pending: map<Key, Pending>, confirmed: set<Key>, tried: set<Key>,
                    reader: Reader, started: seq<Handler>)

  const NEW_NODE := Node(map[], {}, {}, Idle, [])

  /** The pending entry of an endpoint, created with a fresh session id when there is none. */
  function Touch(pending: map<Key, Pending>, k: Key, freshSid: string): map<Key, Pending> {
    if k in pending then pending else pending[k := Pending(freshSid, None)]
  }

  function Absorb(pending: map<Key, Pending>, k: Key, payload: Option<Payload>): map<Key, Pending>
    requires k in pending
  {
    if payload.Some? then pending[k := pending[k].(remote := MergePayload(pending[k].remote, payload))] else pending
  }

  /** First section of an iteration of the read loop. */
  function Receive(n: Node, from: Key, sig: Signal, freshSid: string): Node {
    var reader :=
      match sig.kind
      case Hello => Answering(from, sig)
      case Reply => Answering(from, sig)
      case Ack => Confirming(from, sig)
      case Other => Idle;
    n.(pending := Absorb(Touch(n.pending, from, freshSid), from, sig.payload), reader := reader)
  }

  /** The packet written between the sections: it echoes the session id received. */
  function AnswerTo(sig: Signal, identity: Option<Payload>): Signal {
    Signal(if sig.kind == Hello then Reply else Ack, sig.sid, identity)
  }

  function Answered(n: Node): Node
    requires n.reader.Answering?
  {
    n.(reader := if n.reader.sig.kind == Hello then Idle else Confirming(n.reader.from, n.reader.sig))
  }

  /** Second section: the first confirmation of an endpoint starts its handler. */
  function Confirm(n: Node): Node
    requires n.reader.Confirming?
  {
    var k := n.reader.from;
    if k in n.confirmed then n.(reader := Idle)
    else
      var remote := if k in n.pending then n.pending[k].remote else None;
      n.(confirmed := n.confirmed + {k}, started := n.started + [Handler(k, remote)], reader := Idle)
  }

  /** The section of handleDiscoveredFromDHT; the caller starts a prober exactly when Probes holds. */
  function Discover(n: Node, k: Key, freshSid: string): Node {
    if !Probes(n, k) then n
    else n.(tried := n.tried + {k}, pending := Touch(n.pending, k, freshSid))
  }

  predicate Probes(n: Node, k: Key) {
    k !in n.confirmed && k !in n.tried
  }

  /** Entries stay, and their session ids never change. */
  ghost predicate Keeps(n: Node, n': Node) {
    forall k :: k in n.pending ==> k in n'.pending && n'.pending[k].sid == n.pending[k].sid
  }

  lemma ReceiveKeeps(n: Node, from: Key, sig: Signal, freshSid: string)
    ensures Keeps(n, Receive(n, from, sig, freshSid))
    ensures from in Receive(n, from, sig, freshSid).pending
  {
  }

  lemma DiscoverKeeps(n: Node, k: Key, freshSid: string)
    ensures Keeps(n, Discover(n, k, freshSid))
    ensures Probes(n, k) ==> k in Discover(n, k, freshSid).pending
  {
  }

  /** What a received packet does to the identity held for its sender and for every other endpoint k. */
  lemma RemoteAfterReceive(n: Node, from: Key, sig: Signal, freshSid: string, k: Key)
    ensures var n' := Receive(n, from, sig, freshSid);
            && (k != from ==> (k in n'.pending <==> k in n.pending))
            && (k != from && k in n.pending ==> n'.pending[k] == n.pending[k])
            && from in n'.pending
            && n'.pending[from].remote ==
               (var before := if from in n.pending then n.pending[from].remote else None;
                if sig.payload.Some? then MergePayload(before, sig.payload) else before)
            && n'.started == n.started && n'.confirmed == n.confirmed
  {
  }
}
