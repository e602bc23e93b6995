/** The hole-punch protocol among any number of nodes over a network that loses, duplicates and reorders packets
    but does not forge them. A run is a sequence of events; every event is one critical section or one packet
    write of one goroutine, or one act of the network. */
module PunchWorld {
  import opened Text
  import opened PunchPacket
  import opened PunchNode

  const PROBES: nat := 260

  datatype Msg = Msg(src: Key, dst: Key, sig: Signal)

  datatype Link = Link(src: Key, dst: Key)

  datatype Phase = Checking | Armed | Done

  /** The goroutine that probes one endpoint: the session id it captured and the probes it may still send. */
  datatype Prober = Prober(sid: string, left: nat, phase: Phase)

  /** The nodes with the identity each of them sends, the probers, the packets in flight, and two histories. */
  datatype World = World(
    nodes: map<Key, Node>,
    identity: map<Key, Option<Payload>>,
    probers: map<Link, Prober>,
    net: multiset<Msg>,
    sent: multiset<Msg>,
    delivered: set<Msg>)

  datatype Event =
    | Find(a: Key, b: Key, freshSid: string)  // a learns the endpoint b from the DHT
    | Look(link: Link)                        // a prober reads confirmedEndpoint
    | Probe(link: Link)                       // a prober writes a HELLO
    | Deliver(m: Msg, freshSid: string)       // the read loop takes a packet through its first section
    | Answer(a: Key)                          // the read loop writes a REPLY or an ACK
    | Settle(a: Key)                          // the read loop confirms the sender
    | Drop(m: Msg)
    | Duplicate(m: Msg)

  ghost predicate Init(w: World) {
    && w.identity.Keys == w.nodes.Keys
    && (forall a :: a in w.nodes ==> w.nodes[a] == NEW_NODE)
    && w.probers == map[]
    && w.net == w.sent == multiset{}
    && w.delivered == {}
  }

  predicate Enabled(w: World, e: Event) {
    match e
    case Find(a, b, _) => a in w.nodes
    case Look(l) => l in w.probers && w.probers[l].phase == Checking && l.src in w.nodes
    case Probe(l) => l in w.probers && w.probers[l].phase == Armed && w.probers[l].left > 0 && l.src in w.identity
    case Deliver(m, _) => m in w.net && m.dst in w.nodes && w.nodes[m.dst].reader.Idle?
    case Answer(a) => a in w.nodes && w.nodes[a].reader.Answering? && a in w.identity
    case Settle(a) => a in w.nodes && w.nodes[a].reader.Confirming?
    case Drop(m) => m in w.net
    case Duplicate(m) => m in w.net
  }

  function Emit(w: World, m: Msg): World {
    w.(net := w.net + multiset{m}, sent := w.sent + multiset{m})
  }

  function Apply(w: World, e: Event): (w': World)
    requires Enabled(w, e)
    ensures w'.nodes.Keys == w.nodes.Keys && w'.identity == w.identity
    ensures w.sent <= w'.sent && w.delivered <= w'.delivered
  {
    match e
    case Find(a, b, freshSid) =>
      var n := Discover(w.nodes[a], b, freshSid);
      if !Probes(w.nodes[a], b) then w
      else w.(nodes := w.nodes[a := n], probers := w.probers[Link(a, b) := Prober(n.pending[b].sid, PROBES, Checking)])
    case Look(l) =>
      var p := w.probers[l];
      var stop := p.left == 0 || l.dst in w.nodes[l.src].confirmed;
      w.(probers := w.probers[l := p.(phase := if stop then Done else Armed)])
    case Probe(l) =>
      var p := w.probers[l];
      Emit(w.(probers := w.probers[l := p.(left := p.left - 1, phase := Checking)]),
           Msg(l.src, l.dst, Signal(Hello, p.sid, w.identity[l.src])))
    case Deliver(m, freshSid) =>
      w.(nodes := w.nodes[m.dst := Receive(w.nodes[m.dst], m.src, m.sig, freshSid)],
         net := w.net - multiset{m}, delivered := w.delivered + {m})
    case Answer(a) =>
      var n := w.nodes[a];
      Emit(w.(nodes := w.nodes[a := Answered(n)]), Msg(a, n.reader.from, AnswerTo(n.reader.sig, w.identity[a])))
    case Settle(a) =>
      w.(nodes := w.nodes[a := Confirm(w.nodes[a])])
    case Drop(m) => w.(net := w.net - multiset{m})
    case Duplicate(m) => w.(net := w.net + multiset{m})
  }

  /** The events can happen one after the other from w. */
  predicate Possible(w: World, run: seq<Event>)
    decreases |run|, 0
  {
    run == [] ||
    (var before := run[..|run| - 1]; Possible(w, before) && Enabled(After(w, before), run[|run| - 1]))
  }

  function After(w: World, run: seq<Event>): World
    requires Possible(w, run)
    decreases |run|, 1
  {
    if run == [] then w else Apply(After(w, run[..|run| - 1]), run[|run| - 1])
  }

  // ----- what every step keeps -----

  /** The session id under which a files b. */
  function Sid(w: World, a: Key, b: Key): string {
    if a in w.nodes && b in w.nodes[a].pending then w.nodes[a].pending[b].sid else ""
  }

  function IdentityOf(w: World, a: Key): Option<Payload> {
    if a in w.identity then w.identity[a] else None
  }

  /** The only packets of each kind that a run can send from a to b. */
  function HelloMsg(w: World, a: Key, b: Key): Msg { Msg(a, b, Signal(Hello, Sid(w, a, b), IdentityOf(w, a))) }
  function ReplyMsg(w: World, a: Key, b: Key): Msg { Msg(a, b, Signal(Reply, Sid(w, b, a), IdentityOf(w, a))) }
  function AckMsg(w: World, a: Key, b: Key): Msg { Msg(a, b, Signal(Ack, Sid(w, a, b), IdentityOf(w, a))) }

  predicate Knows(w: World, a: Key, b: Key) {
    a in w.nodes && b in w.nodes[a].pending
  }

  /** A packet is what its sender had to send, and what it answers was delivered. */
  predicate Justified(w: World, m: Msg) {
    && m.src in w.nodes
    && match m.sig.kind
       case Hello => Knows(w, m.src, m.dst) && m == HelloMsg(w, m.src, m.dst)
       case Reply => Knows(w, m.dst, m.src) && m == ReplyMsg(w, m.src, m.dst)
          && HelloMsg(w, m.dst, m.src) in w.delivered
       case Ack => Knows(w, m.src, m.dst) && m == AckMsg(w, m.src, m.dst) && ReplyMsg(w, m.dst, m.src) in w.delivered
       case Other => false
  }

  /** a's probe of b and b's answer both arrived, under one session id of a. */
  predicate Exchanged(w: World, a: Key, b: Key) {
    Knows(w, a, b) && HelloMsg(w, a, b) in w.delivered && ReplyMsg(w, b, a) in w.delivered
  }

  /** The evidence on which a confirms b: a reply to its own probe, or the acknowledgement of its reply. */
  predicate Evidence(w: World, a: Key, b: Key) {
    Exchanged(w, a, b) || (Exchanged(w, b, a) && AckMsg(w, b, a) in w.delivered)
  }

  predicate ReaderJustified(w: World, a: Key)
    requires a in w.nodes
  {
    match w.nodes[a].reader
    case Idle => true
    case Answering(b, sig) =>
      (sig.kind == Hello || sig.kind == Reply) && Msg(b, a, sig) in w.delivered
    case Confirming(b, sig) =>
      (sig.kind == Reply || sig.kind == Ack) && Msg(b, a, sig) in w.delivered
  }

  /** The network does not forge, and what was delivered is filed. */
  ghost predicate Traffic(w: World) {
    && (forall m :: m in w.net ==> m in w.sent)
    && (forall m :: m in w.delivered ==> m in w.sent && Knows(w, m.dst, m.src))
  }

  ghost predicate ProbersFiled(w: World) {
    forall l :: l in w.probers ==> Knows(w, l.src, l.dst) && w.probers[l].sid == Sid(w, l.src, l.dst)
  }

  ghost predicate Sound(w: World) {
    && w.identity.Keys == w.nodes.Keys
    && Traffic(w)
    && ProbersFiled(w)
    && (forall m :: m in w.sent ==> Justified(w, m))
    && (forall a :: a in w.nodes ==> ReaderJustified(w, a))
    && (forall a, b :: a in w.nodes && b in w.nodes[a].confirmed ==> Evidence(w, a, b))
  }

  /** Session ids and deliveries are never taken back. */
  ghost predicate Grows(w: World, w': World) {
    && w.nodes.Keys == w'.nodes.Keys && w.identity == w'.identity
    && w.delivered <= w'.delivered
    && (forall a, b :: Knows(w, a, b) ==> Knows(w', a, b) && Sid(w, a, b) == Sid(w', a, b))
  }

  predicate ActsOn(e: Event, a: Key) {
    match e
    case Find(x, _, _) => x == a
    case Deliver(m, _) => m.dst == a
    case Answer(x) => x == a
    case Settle(x) => x == a
    case _ => false
  }

  /** An event changes at most one node. */
  lemma NodeFrame(w: World, e: Event, a: Key)
    requires Enabled(w, e) && a in w.nodes && !ActsOn(e, a)
    ensures Apply(w, e).nodes[a] == w.nodes[a]
  {
  }

  lemma NodeActs(w: World, e: Event, a: Key)
    requires Enabled(w, e) && a in w.nodes && ActsOn(e, a)
    ensures Apply(w, e).nodes[a] ==
              match e
              case Find(_, b, freshSid) => Discover(w.nodes[a], b, freshSid)
              case Deliver(m, freshSid) => Receive(w.nodes[a], m.src, m.sig, freshSid)
              case Answer(_) => Answered(w.nodes[a])
              case Settle(_) => Confirm(w.nodes[a])
  {
  }

  /** Only the second section of the read loop confirms and starts handlers. */
  lemma ConfirmedFrame(w: World, e: Event, a: Key)
    requires Enabled(w, e) && a in w.nodes && e != Settle(a)
    ensures Apply(w, e).nodes[a].confirmed == w.nodes[a].confirmed
    ensures Apply(w, e).nodes[a].started == w.nodes[a].started
  {
    if ActsOn(e, a) {
      NodeActs(w, e, a);
    } else {
      NodeFrame(w, e, a);
    }
  }

  lemma NodeKeeps(w: World, e: Event, a: Key)
    requires Enabled(w, e) && a in w.nodes
    ensures Keeps(w.nodes[a], Apply(w, e).nodes[a])
  {
    if !ActsOn(e, a) {
      NodeFrame(w, e, a);
    } else {
      NodeActs(w, e, a);
      match e
      case Find(_, b, freshSid) => DiscoverKeeps(w.nodes[a], b, freshSid);
      case Deliver(m, freshSid) => ReceiveKeeps(w.nodes[a], m.src, m.sig, freshSid);
      case _ =>
    }
  }

  lemma ApplyGrows(w: World, e: Event)
    requires Enabled(w, e)
    ensures Grows(w, Apply(w, e))
  {
    forall a, b | Knows(w, a, b)
      ensures Knows(Apply(w, e), a, b) && Sid(w, a, b) == Sid(Apply(w, e), a, b)
    {
      NodeKeeps(w, e, a);
    }
  }

  lemma JustifiedGrows(w: World, w': World, m: Msg)
    requires Grows(w, w') && Justified(w, m)
    ensures Justified(w', m)
  {
  }

  lemma EvidenceGrows(w: World, w': World, a: Key, b: Key)
    requires Grows(w, w') && Evidence(w, a, b)
    ensures Evidence(w', a, b)
  {
  }

  /** A packet that reached a and calls for confirmation is evidence. */
  lemma DeliveredIsEvidence(w: World, a: Key, b: Key, sig: Signal)
    requires Sound(w) && Msg(b, a, sig) in w.delivered
    requires sig.kind == Reply || sig.kind == Ack
    ensures Evidence(w, a, b)
  {
    var m := Msg(b, a, sig);
    assert Justified(w, m);
    if sig.kind == Ack {
      assert Justified(w, ReplyMsg(w, a, b));
    }
  }

  lemma NetStep(w: World, e: Event, m: Msg)
    requires Sound(w) && Enabled(w, e) && m in Apply(w, e).net
    ensures m in Apply(w, e).sent
  {
  }

  lemma DeliveredStep(w: World, e: Event, m: Msg)
    requires Sound(w) && Enabled(w, e) && m in Apply(w, e).delivered
    ensures m in Apply(w, e).sent && Knows(Apply(w, e), m.dst, m.src)
  {
    if m in w.delivered {
      NodeKeeps(w, e, m.dst);
    } else {
      ReceiveKeeps(w.nodes[m.dst], m.src, m.sig, e.freshSid);
    }
  }

  lemma TrafficStep(w: World, e: Event)
    requires Sound(w) && Enabled(w, e)
    ensures Traffic(Apply(w, e))
  {
    forall m | m in Apply(w, e).net ensures m in Apply(w, e).sent { NetStep(w, e, m); }
    forall m | m in Apply(w, e).delivered ensures m in Apply(w, e).sent && Knows(Apply(w, e), m.dst, m.src) {
      DeliveredStep(w, e, m);
    }
  }

  lemma ProberStep(w: World, e: Event, l: Link)
    requires Sound(w) && Enabled(w, e) && l in Apply(w, e).probers
    ensures Knows(Apply(w, e), l.src, l.dst) && Apply(w, e).probers[l].sid == Sid(Apply(w, e), l.src, l.dst)
  {
    if e.Find? && l !in w.probers {
      NodeActs(w, e, l.src);
      DiscoverKeeps(w.nodes[e.a], e.b, e.freshSid);
    } else {
      ProberStays(w, e, l);
      NodeKeeps(w, e, l.src);
    }
  }

  lemma ProberStays(w: World, e: Event, l: Link)
    requires Sound(w) && Enabled(w, e) && l in w.probers
    ensures Apply(w, e).probers[l].sid == Sid(w, l.src, l.dst)
  {
    if e.Find? && Probes(w.nodes[e.a], e.b) {
      DiscoverKeeps(w.nodes[e.a], e.b, e.freshSid);
    }
  }

  lemma ProbersStep(w: World, e: Event)
    requires Sound(w) && Enabled(w, e)
    ensures ProbersFiled(Apply(w, e))
  {
    var w' := Apply(w, e);
    forall l | l in w'.probers ensures Knows(w', l.src, l.dst) && w'.probers[l].sid == Sid(w', l.src, l.dst) {
      ProberStep(w, e, l);
    }
  }

  lemma SentStep(w: World, e: Event, m: Msg)
    requires Sound(w) && Enabled(w, e)
    requires m in Apply(w, e).sent
    ensures Justified(Apply(w, e), m)
  {
    var w' := Apply(w, e);
    ApplyGrows(w, e);
    if m in w.sent {
      JustifiedGrows(w, w', m);
    } else if e.Answer? {
      AnswerJustified(w, e.a);
      JustifiedGrows(w, w', m);
    }
  }

  /** What the read loop answers is justified before it is written. */
  lemma AnswerJustified(w: World, a: Key)
    requires Sound(w) && a in w.nodes && w.nodes[a].reader.Answering?
    ensures Justified(w, Msg(a, w.nodes[a].reader.from, AnswerTo(w.nodes[a].reader.sig, w.identity[a])))
  {
    var r := w.nodes[a].reader;
    assert ReaderJustified(w, a);
    assert Justified(w, Msg(r.from, a, r.sig));
  }

  lemma ReaderStep(w: World, e: Event, a: Key)
    requires Sound(w) && Enabled(w, e) && a in w.nodes
    ensures ReaderJustified(Apply(w, e), a)
  {
    assert ReaderJustified(w, a);
    if ActsOn(e, a) {
      NodeActs(w, e, a);
      if e.Deliver? {
        assert Justified(w, e.m);
        assert e.m in Apply(w, e).delivered;
      }
    } else {
      NodeFrame(w, e, a);
    }
  }

  lemma SettledEvidence(w: World, a: Key)
    requires Sound(w) && Enabled(w, Settle(a))
    ensures Evidence(w, a, w.nodes[a].reader.from)
  {
    var r := w.nodes[a].reader;
    assert ReaderJustified(w, a);
    DeliveredIsEvidence(w, a, r.from, r.sig);
  }

  lemma ConfirmedStep(w: World, e: Event, a: Key, b: Key)
    requires Sound(w) && Enabled(w, e) && a in w.nodes
    requires b in Apply(w, e).nodes[a].confirmed
    ensures Evidence(Apply(w, e), a, b)
  {
    if e == Settle(a) {
      NodeActs(w, e, a);
      SettledEvidence(w, a);
    } else {
      ConfirmedFrame(w, e, a);
    }
    assert Evidence(w, a, b);
    ApplyGrows(w, e);
    EvidenceGrows(w, Apply(w, e), a, b);
  }

  lemma SoundStep(w: World, e: Event)
    requires Sound(w) && Enabled(w, e)
    ensures Sound(Apply(w, e))
  {
    var w' := Apply(w, e);
    ApplyGrows(w, e);
    TrafficStep(w, e);
    ProbersStep(w, e);
    forall m | m in w'.sent ensures Justified(w', m) { SentStep(w, e, m); }
    forall a | a in w'.nodes ensures ReaderJustified(w', a) { ReaderStep(w, e, a); }
    forall a, b | a in w'.nodes && b in w'.nodes[a].confirmed ensures Evidence(w', a, b) { ConfirmedStep(w, e, a, b); }
  }

  lemma {:induction false} SoundRun(w: World, run: seq<Event>)
    requires Init(w) && Possible(w, run)
    ensures Sound(After(w, run))
  {
    if run != [] {
      SoundRun(w, run[..|run| - 1]);
      SoundStep(After(w, run[..|run| - 1]), run[|run| - 1]);
    }
  }

  lemma {:induction false} NodesStay(w0: World, run: seq<Event>)
    requires Possible(w0, run)
    ensures After(w0, run).nodes.Keys == w0.nodes.Keys && After(w0, run).identity == w0.identity
  {
    if run != [] {
      NodesStay(w0, run[..|run| - 1]);
      ApplyGrows(After(w0, run[..|run| - 1]), run[|run| - 1]);
    }
  }

  // ----- putting runs together -----

  lemma LastStep(w: World, run: seq<Event>)
    requires Possible(w, run) && run != []
    ensures Possible(w, run[..|run| - 1]) && Enabled(After(w, run[..|run| - 1]), run[|run| - 1])
    ensures After(w, run) == Apply(After(w, run[..|run| - 1]), run[|run| - 1])
  {
  }

  /** From w the run leads to w'. */
  ghost predicate Leads(w: World, run: seq<Event>, w': World) {
    Possible(w, run) && After(w, run) == w'
  }

  lemma LeadsOn(w: World, run: seq<Event>, mid: World)
    requires run != [] && Leads(w, run[..|run| - 1], mid) && Enabled(mid, run[|run| - 1])
    ensures Leads(w, run, Apply(mid, run[|run| - 1]))
  {
  }

  lemma {:induction false} LeadsJoin(w: World, run: seq<Event>, mid: World, more: seq<Event>, whole: seq<Event>)
    requires Leads(w, run, mid) && Possible(mid, more) && whole == run + more
    ensures Leads(w, whole, After(mid, more))
  {
    if more == [] {
      assert whole == run;
    } else {
      var before := more[..|more| - 1];
      LastStep(mid, more);
      LeadsJoin(w, run, mid, before, run + before);
      assert whole[..|whole| - 1] == run + before && whole[|whole| - 1] == more[|more| - 1];
      LeadsOn(w, whole, After(mid, before));
    }
  }

  lemma RunsJoin(w: World, run: seq<Event>, more: seq<Event>)
    requires Possible(w, run) && Possible(After(w, run), more)
    ensures Possible(w, run + more) && After(w, run + more) == After(After(w, run), more)
  {
    LeadsJoin(w, run, After(w, run), more, run + more);
  }

  lemma FirstStep(w: World, e: Event)
    requires Enabled(w, e)
    ensures Possible(w, [e]) && After(w, [e]) == Apply(w, e)
  {
    assert [e][..0] == [];
  }
}
