/** What a confirmation means, over whole runs of the hole-punch protocol. */
module PunchSafety {
  import opened Text
  import opened PunchPacket
  import opened PunchNode
  import opened PunchWorld

  /** A confirmed peer took part: packets passed both ways, either as probe and reply under a's session id, or as
      probe, reply and acknowledgement under b's. */
  lemma ConfirmationIsSound(w0: World, run: seq<Event>, a: Key, b: Key)
    requires Init(w0) && Possible(w0, run)
    requires a in w0.nodes && a in After(w0, run).nodes && b in After(w0, run).nodes[a].confirmed
    ensures var w := After(w0, run);
            && (exists m :: m in w.delivered && m.src == a && m.dst == b)
            && (exists m :: m in w.delivered && m.src == b && m.dst == a)
            && (|| (HelloMsg(w, a, b) in w.delivered && ReplyMsg(w, b, a) in w.delivered)
                || (HelloMsg(w, b, a) in w.delivered && ReplyMsg(w, a, b) in w.delivered
                   && AckMsg(w, b, a) in w.delivered))
  {
    SoundRun(w0, run);
    assert Evidence(After(w0, run), a, b);
  }

  /** Session ids are never compared, and yet a reply always carries the id its receiver files the sender under, and
      an acknowledgement the id its sender files the receiver under. */
  lemma SessionIdsMatch(w0: World, run: seq<Event>, m: Msg)
    requires Init(w0) && Possible(w0, run) && m in After(w0, run).sent
    ensures var w := After(w0, run);
            && (m.sig.kind == Hello ==> Knows(w, m.src, m.dst) && m.sig.sid == w.nodes[m.src].pending[m.dst].sid)
            && (m.sig.kind == Reply ==> Knows(w, m.dst, m.src) && m.sig.sid == w.nodes[m.dst].pending[m.src].sid)
            && (m.sig.kind == Ack ==> Knows(w, m.src, m.dst) && m.sig.sid == w.nodes[m.src].pending[m.dst].sid)
  {
    SoundRun(w0, run);
    assert Justified(After(w0, run), m);
  }

  // ----- identities -----

  /** An identity as its receivers keep it: blank fields dropped. */
  function Shown(p: Option<Payload>): Option<Payload> {
    MergePayload(None, p)
  }

  lemma ShownAgain(p: Option<Payload>)
    ensures MergePayload(Shown(p), p) == Shown(p)
  {
    assert Blank("");
  }

  /** What a has merged for b is nothing or b's identity, and is b's identity once a packet of b arrived. */
  predicate RemoteAuthentic(w: World, a: Key, b: Key)
    requires Knows(w, a, b)
  {
    w.nodes[a].pending[b].remote == None || w.nodes[a].pending[b].remote == Shown(IdentityOf(w, b))
  }

  predicate Met(w: World, m: Msg) {
    Knows(w, m.dst, m.src) && w.nodes[m.dst].pending[m.src].remote == Shown(IdentityOf(w, m.src))
  }

  /** The handler starts once for each confirmed endpoint, with the identity of the node behind it. */
  ghost predicate StartsAuthentic(n: Node, identity: map<Key, Option<Payload>>) {
    && (forall i :: 0 <= i < |n.started| ==> StartAuthentic(n.started[i], n.confirmed, identity))
    && (forall b :: b in n.confirmed ==> exists i :: 0 <= i < |n.started| && n.started[i].from == b)
    && (forall i, j :: 0 <= i < j < |n.started| ==> n.started[i].from != n.started[j].from)
  }

  predicate StartAuthentic(s: Handler, confirmed: set<Key>, identity: map<Key, Option<Payload>>) {
    s.from in confirmed && s.remote == Shown(if s.from in identity then identity[s.from] else None)
  }

  ghost predicate Authentic(w: World) {
    && (forall a, b :: Knows(w, a, b) ==> RemoteAuthentic(w, a, b))
    && (forall m :: m in w.delivered ==> Met(w, m))
    && (forall a :: a in w.nodes ==> StartsAuthentic(w.nodes[a], w.identity))
  }

  /** A packet that carries its sender's identity completes what is held for the sender. */
  lemma ReceivedRemote(n: Node, from: Key, sig: Signal, freshSid: string)
    requires from in n.pending ==> n.pending[from].remote == None || n.pending[from].remote == Shown(sig.payload)
    ensures from in Receive(n, from, sig, freshSid).pending
    ensures Receive(n, from, sig, freshSid).pending[from].remote == Shown(sig.payload)
  {
    ShownAgain(sig.payload);
    RemoteAfterReceive(n, from, sig, freshSid, from);
  }

  lemma ReceiveAuthentic(w: World, e: Event)
    requires Sound(w) && Authentic(w) && Enabled(w, e) && e.Deliver?
    ensures Met(Apply(w, e), e.m)
  {
    var m := e.m;
    assert Justified(w, m);
    assert Knows(w, m.dst, m.src) ==> RemoteAuthentic(w, m.dst, m.src);
    ReceivedRemote(w.nodes[m.dst], m.src, m.sig, e.freshSid);
    NodeActs(w, e, m.dst);
  }

  /** A packet leaves what is held for the endpoints it did not come from. */
  lemma ReceiveElsewhere(w: World, e: Event, b: Key)
    requires Enabled(w, e) && e.Deliver? && b != e.m.src
    ensures Knows(Apply(w, e), e.m.dst, b) <==> Knows(w, e.m.dst, b)
    ensures Knows(w, e.m.dst, b) ==> Apply(w, e).nodes[e.m.dst].pending[b] == w.nodes[e.m.dst].pending[b]
  {
    RemoteAfterReceive(w.nodes[e.m.dst], e.m.src, e.m.sig, e.freshSid, b);
    NodeActs(w, e, e.m.dst);
  }

  /** Steps other than a delivery to a leave what a has merged, and may file a new endpoint without an identity. */
  lemma RemoteFrame(w: World, e: Event, a: Key, b: Key)
    requires Enabled(w, e) && !(e.Deliver? && e.m.dst == a) && a in w.nodes && Knows(Apply(w, e), a, b)
    ensures Knows(w, a, b) ==> Apply(w, e).nodes[a].pending[b] == w.nodes[a].pending[b]
    ensures !Knows(w, a, b) ==> Apply(w, e).nodes[a].pending[b].remote == None
  {
    if e.Find? && e.a == a {
      DiscoverFiles(w.nodes[a], e.b, e.freshSid, b);
      assert Apply(w, e).nodes[a] == Discover(w.nodes[a], e.b, e.freshSid);
    } else {
      PendingFrame(w, e, a);
    }
  }

  lemma DiscoverFiles(n: Node, k: Key, freshSid: string, b: Key)
    requires b in Discover(n, k, freshSid).pending
    ensures b in n.pending ==> Discover(n, k, freshSid).pending[b] == n.pending[b]
    ensures b !in n.pending ==> Discover(n, k, freshSid).pending[b].remote == None
  {
  }

  lemma PendingFrame(w: World, e: Event, a: Key)
    requires Enabled(w, e) && a in w.nodes && !(e.Deliver? && e.m.dst == a) && !(e.Find? && e.a == a)
    ensures Apply(w, e).nodes[a].pending == w.nodes[a].pending
  {
    if ActsOn(e, a) {
      NodeActs(w, e, a);
    } else {
      NodeFrame(w, e, a);
    }
  }

  lemma RemotesStep(w: World, e: Event, a: Key, b: Key)
    requires Sound(w) && Authentic(w) && Enabled(w, e) && Knows(Apply(w, e), a, b)
    ensures RemoteAuthentic(Apply(w, e), a, b)
  {
    if e.Deliver? && e.m.dst == a && e.m.src == b {
      ReceiveAuthentic(w, e);
    } else if e.Deliver? && e.m.dst == a {
      ReceiveElsewhere(w, e, b);
      assert RemoteAuthentic(w, a, b);
    } else {
      RemoteFrame(w, e, a, b);
      assert Knows(w, a, b) ==> RemoteAuthentic(w, a, b);
    }
  }

  lemma MetElsewhere(w: World, e: Event, m: Msg)
    requires Enabled(w, e) && Met(w, m) && !(e.Deliver? && e.m.dst == m.dst)
    ensures Met(Apply(w, e), m)
  {
    NodeKeeps(w, e, m.dst);
    RemoteFrame(w, e, m.dst, m.src);
  }

  lemma MetBeside(w: World, e: Event, m: Msg)
    requires Enabled(w, e) && Met(w, m) && e.Deliver? && e.m.dst == m.dst && e.m.src != m.src
    ensures Met(Apply(w, e), m)
  {
    ReceiveElsewhere(w, e, m.src);
  }

  lemma MetStays(w: World, e: Event, m: Msg)
    requires Sound(w) && Authentic(w) && Enabled(w, e) && Met(w, m)
    ensures Met(Apply(w, e), m)
  {
    if e.Deliver? && e.m.dst == m.dst && e.m.src == m.src {
      ReceiveAuthentic(w, e);
    } else if e.Deliver? && e.m.dst == m.dst {
      MetBeside(w, e, m);
    } else {
      MetElsewhere(w, e, m);
    }
  }

  lemma NewlyDelivered(w: World, e: Event, m: Msg)
    requires Enabled(w, e) && m in Apply(w, e).delivered && m !in w.delivered
    ensures e.Deliver? && e.m == m
  {
  }

  lemma MetStep(w: World, e: Event, m: Msg)
    requires Sound(w) && Authentic(w) && Enabled(w, e) && m in Apply(w, e).delivered
    ensures Met(Apply(w, e), m)
  {
    if m in w.delivered {
      MetStays(w, e, m);
    } else {
      NewlyDelivered(w, e, m);
      ReceiveAuthentic(w, e);
    }
  }

  lemma ConfirmAuthentic(n: Node, identity: map<Key, Option<Payload>>)
    requires StartsAuthentic(n, identity) && n.reader.Confirming? && n.reader.from in n.pending
    requires n.pending[n.reader.from].remote ==
            Shown(if n.reader.from in identity then identity[n.reader.from] else None)
    ensures StartsAuthentic(Confirm(n), identity)
  {
    var n' := Confirm(n);
    forall b | b in n'.confirmed
      ensures exists i :: 0 <= i < |n'.started| && n'.started[i].from == b
    {
      if b in n.confirmed {
        var i :| 0 <= i < |n.started| && n.started[i].from == b;
        assert n'.started[i].from == b;
      } else {
        assert n'.started[|n.started|].from == b;
      }
    }
    forall i, j | 0 <= i < j < |n'.started|
      ensures n'.started[i].from != n'.started[j].from
    {
      assert StartAuthentic(n.started[i], n.confirmed, identity);
    }
    forall i | 0 <= i < |n'.started|
      ensures StartAuthentic(n'.started[i], n'.confirmed, identity)
    {
      if i < |n.started| {
        assert StartAuthentic(n.started[i], n.confirmed, identity);
      }
    }
  }

  lemma StartsStep(w: World, e: Event, a: Key)
    requires Sound(w) && Authentic(w) && Enabled(w, e) && a in w.nodes
    ensures StartsAuthentic(Apply(w, e).nodes[a], w.identity)
  {
    var n := w.nodes[a];
    if e == Settle(a) {
      assert ReaderJustified(w, a);
      assert Met(w, Msg(n.reader.from, a, n.reader.sig));
      ConfirmAuthentic(n, w.identity);
      NodeActs(w, e, a);
    } else {
      ConfirmedFrame(w, e, a);
    }
  }

  lemma AuthenticStep(w: World, e: Event)
    requires Sound(w) && Authentic(w) && Enabled(w, e)
    ensures Authentic(Apply(w, e))
  {
    var w' := Apply(w, e);
    ApplyGrows(w, e);
    forall a, b | Knows(w', a, b) ensures RemoteAuthentic(w', a, b) { RemotesStep(w, e, a, b); }
    forall m | m in w'.delivered ensures Met(w', m) { MetStep(w, e, m); }
    forall a | a in w'.nodes ensures StartsAuthentic(w'.nodes[a], w'.identity) { StartsStep(w, e, a); }
  }

  lemma {:induction false} AuthenticRun(w0: World, run: seq<Event>)
    requires Init(w0) && Possible(w0, run)
    ensures Authentic(After(w0, run))
  {
    if run != [] {
      SoundRun(w0, run[..|run| - 1]);
      AuthenticRun(w0, run[..|run| - 1]);
      AuthenticStep(After(w0, run[..|run| - 1]), run[|run| - 1]);
    }
  }

  /** In every run each node calls the confirmation handler exactly once per confirmed endpoint, and hands it the
      identity of the node at that endpoint without its blank fields, whatever the network does. */
  lemma HandlerGetsTheIdentity(w0: World, run: seq<Event>, a: Key)
    requires Init(w0) && Possible(w0, run) && a in w0.nodes
    ensures a in After(w0, run).nodes
    ensures var n := After(w0, run).nodes[a];
            && (forall i :: 0 <= i < |n.started| ==>
                  && n.started[i].from in n.confirmed && n.started[i].from in w0.identity
                  && n.started[i].remote == Shown(w0.identity[n.started[i].from]))
            && (forall b :: b in n.confirmed ==> exists i :: 0 <= i < |n.started| && n.started[i].from == b)
            && (forall i, j :: 0 <= i < j < |n.started| ==> n.started[i].from != n.started[j].from)
  {
    NodesStay(w0, run);
    AuthenticRun(w0, run);
    var n := After(w0, run).nodes[a];
    assert StartsAuthentic(n, w0.identity);
    forall i | 0 <= i < |n.started| ensures n.started[i].from in w0.identity {
      assert StartAuthentic(n.started[i], n.confirmed, w0.identity);
      ConfirmedIsNode(w0, run, a, n.started[i].from);
    }
  }

  lemma ConfirmedIsNode(w0: World, run: seq<Event>, a: Key, b: Key)
    requires Init(w0) && Possible(w0, run)
    requires a in After(w0, run).nodes && b in After(w0, run).nodes[a].confirmed
    ensures b in w0.identity
  {
    NodesStay(w0, run);
    SoundRun(w0, run);
    var w := After(w0, run);
    assert Evidence(w, a, b);
    assert Exchanged(w, a, b) ==> Justified(w, ReplyMsg(w, b, a));
    assert Exchanged(w, b, a) ==> Justified(w, HelloMsg(w, b, a));
  }

  /** What is shown of an identity: its visible fields, and nothing if there is none. */
  lemma ShownFields(p: Option<Payload>)
    ensures Shown(p) == if Fields(p) == ("", "") then None else Some(Payload(Fields(p).0, Fields(p).1))
  {
    assert Blank("");
  }
}
