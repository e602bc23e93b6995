/** From discovery to the peer table: the protocol among many nodes joined with the handlers that each node starts. */
module EndToEnd {
  import opened Text
  import opened Endpoint
  import opened PunchPacket
  import opened PunchNode
  import opened PeerTable
  import W = PunchWorld
  import S = PunchSafety
  import L = PunchLive
  import C = PunchComplete
  import R = PeerRun
  import F = PeerFiled

  // ----- one node of a world as a node of its own -----

  /** What an event of a single node does to its protocol state; handlers do nothing to it. */
  function Step(n: Node, e: R.Event): Node {
    match e
    case Packet(raddr, sig, freshSid) =>
      if To4(raddr.ip).Some? then Receive(n, AddrText(raddr), sig, freshSid) else n
    case Write => if n.reader.Answering? then Answered(n) else n
    case Settle => if n.reader.Confirming? then Confirm(n) else n
    case Find(k, freshSid) => Discover(n, k, freshSid)
    case Handle(_, _, _, _) => n
  }

  function NodeAfter(run: seq<R.Event>): Node {
    if run == [] then NEW_NODE else Step(NodeAfter(run[..|run| - 1]), run[|run| - 1])
  }

  function WithoutHandlers(run: seq<R.Event>): seq<R.Event> {
    if run == [] then []
    else
      var before, e := WithoutHandlers(run[..|run| - 1]), run[|run| - 1];
      if e.Handle? then before else before + [e]
  }

  /** The part of an event that happens at a, whose packets come from the addresses of their senders. */
  function LocalStep(e: W.Event, a: Key, addr: Key -> UdpAddr): seq<R.Event> {
    match e
    case Find(x, b, freshSid) => if x == a then [R.Find(b, freshSid)] else []
    case Deliver(m, freshSid) => if m.dst == a then [R.Packet(addr(m.src), m.sig, freshSid)] else []
    case Answer(x) => if x == a then [R.Write] else []
    case Settle(x) => if x == a then [R.Settle] else []
    case _ => []
  }

  function Local(run: seq<W.Event>, a: Key, addr: Key -> UdpAddr): seq<R.Event> {
    if run == [] then []
    else Local(run[..|run| - 1], a, addr) + LocalStep(run[|run| - 1], a, addr)
  }

  /** Every node is named by the text of its IPv4 endpoint. */
  ghost predicate Named(w0: W.World, addr: Key -> UdpAddr) {
    forall k :: k in w0.nodes ==>
      To4(addr(k).ip).Some? && 1 <= addr(k).port <= 65535 && AddrText(addr(k)) == k
  }

  lemma {:induction false} HandlersDoNothing(run: seq<R.Event>)
    ensures NodeAfter(WithoutHandlers(run)) == NodeAfter(run)
  {
    if run != [] {
      var before, e := run[..|run| - 1], run[|run| - 1];
      HandlersDoNothing(before);
      if !e.Handle? {
        var rest := WithoutHandlers(run);
        assert rest[..|rest| - 1] == WithoutHandlers(before);
      }
    }
  }

  lemma SysStep(cfg: R.Config, s: R.Sys, e: R.Event)
    requires R.Enabled(cfg, s, e)
    ensures R.Apply(cfg, s, e).node == Step(s.node, e)
  {
  }

  lemma {:induction false} SysNode(cfg: R.Config, s0: R.Sys, run: seq<R.Event>)
    requires R.Init(s0) && R.Possible(cfg, s0, run)
    ensures R.After(cfg, s0, run).node == NodeAfter(run)
  {
    if run != [] {
      SysNode(cfg, s0, run[..|run| - 1]);
      SysStep(cfg, R.After(cfg, s0, run[..|run| - 1]), run[|run| - 1]);
    }
  }

  lemma SenderIsNode(w: W.World, m: W.Msg)
    requires W.Sound(w) && m in w.net
    ensures m.src in w.nodes
  {
    assert W.Justified(w, m);
  }

  lemma DeliveredLocally(w: W.World, e: W.Event, addr: Key -> UdpAddr)
    requires W.Sound(w) && W.Enabled(w, e) && e.Deliver? && Named(w, addr)
    ensures W.Apply(w, e).nodes[e.m.dst] == Step(w.nodes[e.m.dst], R.Packet(addr(e.m.src), e.m.sig, e.freshSid))
  {
    SenderIsNode(w, e.m);
    W.NodeActs(w, e, e.m.dst);
    assert AddrText(addr(e.m.src)) == e.m.src;
  }

  lemma LocalExactly(e: W.Event, a: Key, addr: Key -> UdpAddr)
    ensures W.ActsOn(e, a) <==> LocalStep(e, a, addr) != []
    ensures W.ActsOn(e, a) ==> LocalStep(e, a, addr) == [LocalStep(e, a, addr)[0]] && !LocalStep(e, a, addr)[0].Handle?
  {
  }

  lemma ActedLocally(w: W.World, e: W.Event, a: Key, addr: Key -> UdpAddr)
    requires W.Enabled(w, e) && !e.Deliver? && a in w.nodes && W.ActsOn(e, a)
    ensures LocalStep(e, a, addr) != [] && W.Apply(w, e).nodes[a] == Step(w.nodes[a], LocalStep(e, a, addr)[0])
  {
    W.NodeActs(w, e, a);
  }

  /** An event changes a node exactly as its local part does. */
  lemma LocalNodeStep(w: W.World, e: W.Event, a: Key, addr: Key -> UdpAddr)
    requires W.Sound(w) && W.Enabled(w, e) && a in w.nodes && Named(w, addr)
    ensures !W.ActsOn(e, a) ==> W.Apply(w, e).nodes[a] == w.nodes[a]
    ensures W.ActsOn(e, a) ==>
              LocalStep(e, a, addr) != [] && W.Apply(w, e).nodes[a] == Step(w.nodes[a], LocalStep(e, a, addr)[0])
  {
    if !W.ActsOn(e, a) {
      W.NodeFrame(w, e, a);
    } else if e.Deliver? {
      DeliveredLocally(w, e, addr);
    } else {
      ActedLocally(w, e, a, addr);
    }
  }

  lemma NodeGrows(run: seq<R.Event>, e: R.Event)
    ensures NodeAfter(run + [e]) == Step(NodeAfter(run), e)
  {
    assert (run + [e])[..|run + [e]| - 1] == run;
  }

  lemma WorldNodeGrows(w: W.World, e: W.Event, a: Key, addr: Key -> UdpAddr, local: seq<R.Event>)
    requires W.Sound(w) && W.Enabled(w, e) && a in w.nodes && Named(w, addr) && w.nodes[a] == NodeAfter(local)
    ensures W.Apply(w, e).nodes[a] == NodeAfter(local + LocalStep(e, a, addr))
  {
    LocalNodeStep(w, e, a, addr);
    LocalExactly(e, a, addr);
    if W.ActsOn(e, a) {
      NodeGrows(local, LocalStep(e, a, addr)[0]);
    } else {
      assert local + LocalStep(e, a, addr) == local;
    }
  }

  /** The protocol state of a node of a world is that of the node by itself, given the events that happen at it. */
  lemma {:induction false} WorldNode(w0: W.World, run: seq<W.Event>, a: Key, addr: Key -> UdpAddr)
    requires W.Init(w0) && W.Possible(w0, run) && a in w0.nodes && Named(w0, addr)
    ensures a in W.After(w0, run).nodes && W.After(w0, run).nodes[a] == NodeAfter(Local(run, a, addr))
  {
    if run != [] {
      var before, e := run[..|run| - 1], run[|run| - 1];
      WorldNode(w0, before, a, addr);
      W.SoundRun(w0, before);
      W.NodesStay(w0, before);
      WorldNodeGrows(W.After(w0, before), e, a, addr, Local(before, a, addr));
    }
  }

  // ----- handlers and what they were handed -----

  predicate SameHandler(h: R.Handed, s: Handler) {
    && h.job.endpointKey == s.from && h.job.remote == s.remote
    && To4(h.job.raddr.ip).Some? && AddrText(h.job.raddr) == s.from
  }

  ghost predicate HandedAsStarted(s: R.Sys) {
    |s.handed| == |s.node.started| && forall i :: 0 <= i < |s.handed| ==> SameHandler(s.handed[i], s.node.started[i])
  }

  lemma HandedStep(cfg: R.Config, s: R.Sys, e: R.Event)
    requires R.Good(s) && HandedAsStarted(s) && R.Enabled(cfg, s, e)
    ensures HandedAsStarted(R.Apply(cfg, s, e))
  {
    if e.Settle? {
      R.SettleShape(cfg, s);
    }
  }

  lemma {:induction false} HandedRun(cfg: R.Config, s0: R.Sys, run: seq<R.Event>)
    requires R.Init(s0) && R.Possible(cfg, s0, run)
    ensures HandedAsStarted(R.After(cfg, s0, run))
  {
    if run != [] {
      R.GoodRun(cfg, s0, run[..|run| - 1]);
      HandedRun(cfg, s0, run[..|run| - 1]);
      HandedStep(cfg, R.After(cfg, s0, run[..|run| - 1]), run[|run| - 1]);
    }
  }

  // ----- the two joined -----

  /** What makes b's announcements acceptable to a node with this configuration. */
  predicate Welcome(cfg: R.Config, identity: Option<Payload>, wgPub: string) {
    && identity == LocalPayload(wgPub, cfg.room) && !Blank(wgPub)
    && TrimSpace(cfg.room) == cfg.room && cfg.derive(TrimSpace(wgPub)).Some?
  }

  /** A handler that was handed such an identity files it under that key, and under no other. */
  lemma WelcomeBelongs(cfg: R.Config, identity: Option<Payload>, wgPub: string, j: R.Job, pub: string)
    requires Welcome(cfg, identity, wgPub) && j.remote == S.Shown(identity) && 1 <= j.raddr.port <= 65535
    ensures F.Belongs(cfg, j, pub) <==> pub == TrimSpace(wgPub)
  {
    S.ShownFields(identity);
    assert Blank("");
  }

  lemma SameAddressSamePort(x: UdpAddr, y: UdpAddr)
    requires To4(x.ip).Some? && To4(y.ip).Some? && AddrText(x) == AddrText(y)
    ensures x.port == y.port
  {
    EndpointKeyInjective(To4(x.ip).value, x.port, To4(y.ip).value, y.port);
  }

  /** The run of a by itself, handlers included, has the events at a of a run of the world. */
  ghost predicate RunsAt(cfg: R.Config, s0: R.Sys, own: seq<R.Event>, run: seq<W.Event>, a: Key, addr: Key -> UdpAddr) {
    R.Init(s0) && R.Possible(cfg, s0, own) && WithoutHandlers(own) == Local(run, a, addr)
  }

  lemma SameNode(w0: W.World, run: seq<W.Event>, a: Key, addr: Key -> UdpAddr,
                 cfg: R.Config, s0: R.Sys, own: seq<R.Event>)
    requires W.Init(w0) && W.Possible(w0, run) && a in w0.nodes && Named(w0, addr) && RunsAt(cfg, s0, own, run, a, addr)
    ensures a in W.After(w0, run).nodes && R.After(cfg, s0, own).node == W.After(w0, run).nodes[a]
  {
    WorldNode(w0, run, a, addr);
    SysNode(cfg, s0, own);
    HandlersDoNothing(own);
  }

  /** The endpoints that handlers were started for are distinct. */
  lemma StartedOnce(handed: seq<R.Handed>, started: seq<Handler>, cfg: R.Config, i: nat, pub: string)
    requires |handed| == |started| && i < |started|
    requires forall q :: 0 <= q < |handed| ==> SameHandler(handed[q], started[q])
    requires forall p, q :: 0 <= p < q < |started| ==> started[p].from != started[q].from
    ensures F.Introduced(cfg, handed, started[i].from, pub) <==> F.Belongs(cfg, handed[i].job, pub)
  {
    assert SameHandler(handed[i], started[i]);
    if F.Introduced(cfg, handed, started[i].from, pub) {
      var q :| 0 <= q < |handed| && F.StartedAs(cfg, handed[q], started[i].from, pub);
      assert SameHandler(handed[q], started[q]);
      assert q == i;
    }
    if F.Belongs(cfg, handed[i].job, pub) {
      assert F.StartedAs(cfg, handed[i], started[i].from, pub);
    }
  }

  /** A confirmed node is introduced under its own key only. */
  lemma ConfirmedIsIntroduced(w0: W.World, run: seq<W.Event>, a: Key, b: Key, addr: Key -> UdpAddr,
                              cfg: R.Config, s0: R.Sys, own: seq<R.Event>, wgPub: string, pub: string)
    requires W.Init(w0) && W.Possible(w0, run) && a in w0.nodes && b in w0.nodes && Named(w0, addr)
    requires RunsAt(cfg, s0, own, run, a, addr)
    requires a in W.After(w0, run).nodes && b in W.After(w0, run).nodes[a].confirmed
    requires Welcome(cfg, W.IdentityOf(w0, b), wgPub)
    ensures F.Introduced(cfg, R.After(cfg, s0, own).handed, b, pub) <==> pub == TrimSpace(wgPub)
  {
    var s := R.After(cfg, s0, own);
    SameNode(w0, run, a, addr, cfg, s0, own);
    HandedRun(cfg, s0, own);
    S.HandlerGetsTheIdentity(w0, run, a);
    var i :| 0 <= i < |s.node.started| && s.node.started[i].from == b;
    assert SameHandler(s.handed[i], s.node.started[i]);
    SameAddressSamePort(s.handed[i].job.raddr, addr(b));
    WelcomeBelongs(cfg, W.IdentityOf(w0, b), wgPub, s.handed[i].job, pub);
    StartedOnce(s.handed, s.node.started, cfg, i, pub);
  }

  /** From discovery to the peer table. When a run has nothing left to do, no packet between a and b was dropped, one of
      them discovered the other, and the handlers of a have run, in whatever order, then a has filed b's endpoint under
      b's public key and under no other key. By symmetry b has filed a's. */
  lemma DiscoveredPeersAreFiled(w0: W.World, run: seq<W.Event>, a: Key, b: Key, addr: Key -> UdpAddr,
                                cfg: R.Config, s0: R.Sys, own: seq<R.Event>, wgPub: string, pub: string)
    requires W.Init(w0) && W.Possible(w0, run) && L.Stuck(W.After(w0, run)) && C.Uncut(run, a, b)
    requires a in w0.nodes && b in w0.nodes && Named(w0, addr)
    requires L.Found(run, a, b) || L.Found(run, b, a)
    requires RunsAt(cfg, s0, own, run, a, addr) && R.After(cfg, s0, own).jobs == multiset{}
    requires Welcome(cfg, W.IdentityOf(w0, b), wgPub)
    ensures b in CandidatesOf(R.After(cfg, s0, own).peers, pub) <==> pub == TrimSpace(wgPub)
  {
    if L.Found(run, a, b) {
      L.DiscoveriesConfirmBothEnds(w0, run, a, b);
    } else {
      C.UncutBothWays(run, a, b);
      L.DiscoveriesConfirmBothEnds(w0, run, b, a);
    }
    SameNode(w0, run, a, addr, cfg, s0, own);
    F.CandidatesAreExact(cfg, s0, own, pub, b);
    ConfirmedIsIntroduced(w0, run, a, b, addr, cfg, s0, own, wgPub, pub);
  }

  // ----- such a run of a by itself always exists -----

  /** bestCandidateKey has a result for any candidates. */
  lemma {:induction false} SomeBest(candidates: map<string, Meta>, now: Time) returns (best: string)
    ensures IsBest(candidates, now, best)
    decreases |candidates|
  {
    if candidates == map[] {
      best := "";
    } else {
      var k :| k in candidates;
      var rest := candidates - {k};
      best := SomeBest(rest, now);
      assert forall q :: q in candidates ==> q == k || q in rest;
      if Score(candidates[k], now) >= 0 &&
         (best !in rest || Score(rest[best], now) < 0 || Score(rest[best], now) < Score(candidates[k], now)) {
        best := k;
      }
    }
  }

  /** A handler that waits can run. */
  lemma SomeHandler(cfg: R.Config, s: R.Sys) returns (e: R.Event)
    requires s.jobs != multiset{}
    ensures e.Handle? && R.Enabled(cfg, s, e) && |R.Apply(cfg, s, e).jobs| < |s.jobs|
  {
    var job :| job in s.jobs;
    var t := s.clock;
    var at := Readings(t, t, t, t);
    var best := "";
    if R.Admit(cfg, job, t).Some? {
      var a := R.Admit(cfg, job, t).value;
      best := SomeBest(Added(s.peers, a.pub, a.allowedIP, a.key, a.em, at)[a.pub].candidates, t);
    }
    e := R.Handle(job, t, at, best);
  }

  lemma {:induction false} HandlersFinish(cfg: R.Config, s0: R.Sys, run: seq<R.Event>) returns (own: seq<R.Event>)
    requires R.Possible(cfg, s0, run)
    ensures R.Possible(cfg, s0, own) && R.After(cfg, s0, own).jobs == multiset{}
    ensures WithoutHandlers(own) == WithoutHandlers(run)
    decreases |R.After(cfg, s0, run).jobs|
  {
    if R.After(cfg, s0, run).jobs == multiset{} {
      own := run;
    } else {
      var e := SomeHandler(cfg, R.After(cfg, s0, run));
      assert (run + [e])[..|run + [e]| - 1] == run;
      own := HandlersFinish(cfg, s0, run + [e]);
    }
  }

  lemma DeliveryEnabled(w: W.World, e: W.Event, addr: Key -> UdpAddr, cfg: R.Config, s: R.Sys)
    requires W.Sound(w) && W.Enabled(w, e) && e.Deliver? && Named(w, addr) && s.node == w.nodes[e.m.dst]
    ensures R.Enabled(cfg, s, R.Packet(addr(e.m.src), e.m.sig, e.freshSid))
  {
    SenderIsNode(w, e.m);
  }

  lemma OwnEnabled(w: W.World, e: W.Event, a: Key, addr: Key -> UdpAddr, cfg: R.Config, s: R.Sys)
    requires W.Enabled(w, e) && !e.Deliver? && a in w.nodes && s.node == w.nodes[a] && LocalStep(e, a, addr) != []
    ensures R.Enabled(cfg, s, LocalStep(e, a, addr)[0])
  {
  }

  lemma LocalEnabled(w: W.World, e: W.Event, a: Key, addr: Key -> UdpAddr, cfg: R.Config, s: R.Sys)
    requires W.Sound(w) && W.Enabled(w, e) && a in w.nodes && Named(w, addr) && s.node == w.nodes[a]
    requires LocalStep(e, a, addr) != []
    ensures R.Enabled(cfg, s, LocalStep(e, a, addr)[0])
  {
    if e.Deliver? {
      DeliveryEnabled(w, e, addr, cfg, s);
    } else {
      OwnEnabled(w, e, a, addr, cfg, s);
    }
  }

  lemma OwnRunGrows(cfg: R.Config, s0: R.Sys, run: seq<R.Event>, e: R.Event)
    requires R.Possible(cfg, s0, run) && R.Enabled(cfg, R.After(cfg, s0, run), e) && !e.Handle?
    ensures R.Possible(cfg, s0, run + [e]) && WithoutHandlers(run + [e]) == WithoutHandlers(run) + [e]
  {
    assert (run + [e])[..|run + [e]| - 1] == run;
  }

  lemma LocalGrows(w0: W.World, run: seq<W.Event>, e: W.Event, a: Key, addr: Key -> UdpAddr, cfg: R.Config, s0: R.Sys)
    requires W.Init(w0) && W.Possible(w0, run) && a in w0.nodes && Named(w0, addr) && R.Init(s0)
    requires R.Possible(cfg, s0, Local(run, a, addr)) && W.Enabled(W.After(w0, run), e) && W.ActsOn(e, a)
    ensures R.Possible(cfg, s0, Local(run, a, addr) + LocalStep(e, a, addr))
    ensures WithoutHandlers(Local(run, a, addr) + LocalStep(e, a, addr))
         == WithoutHandlers(Local(run, a, addr)) + LocalStep(e, a, addr)
  {
    var local := Local(run, a, addr);
    WorldNode(w0, run, a, addr);
    SysNode(cfg, s0, local);
    W.SoundRun(w0, run);
    W.NodesStay(w0, run);
    LocalExactly(e, a, addr);
    LocalEnabled(W.After(w0, run), e, a, addr, cfg, R.After(cfg, s0, local));
    OwnRunGrows(cfg, s0, local, LocalStep(e, a, addr)[0]);
  }

  lemma {:induction false} LocalPossible(w0: W.World, run: seq<W.Event>, a: Key, addr: Key -> UdpAddr,
                                         cfg: R.Config, s0: R.Sys)
    requires W.Init(w0) && W.Possible(w0, run) && a in w0.nodes && Named(w0, addr) && R.Init(s0)
    ensures R.Possible(cfg, s0, Local(run, a, addr))
    ensures WithoutHandlers(Local(run, a, addr)) == Local(run, a, addr)
  {
    if run != [] {
      var before, e := run[..|run| - 1], run[|run| - 1];
      LocalPossible(w0, before, a, addr, cfg, s0);
      LocalExactly(e, a, addr);
      if W.ActsOn(e, a) {
        LocalGrows(w0, before, e, a, addr, cfg, s0);
      } else {
        assert Local(run, a, addr) == Local(before, a, addr);
      }
    }
  }

  /** Whatever happens in the world, each node can have run all of the handlers it started. */
  lemma HandlersCanRun(w0: W.World, run: seq<W.Event>, a: Key, addr: Key -> UdpAddr, cfg: R.Config, s0: R.Sys)
      returns (own: seq<R.Event>)
    requires W.Init(w0) && W.Possible(w0, run) && a in w0.nodes && Named(w0, addr) && R.Init(s0)
    ensures RunsAt(cfg, s0, own, run, a, addr) && R.After(cfg, s0, own).jobs == multiset{}
  {
    LocalPossible(w0, run, a, addr, cfg, s0);
    own := HandlersFinish(cfg, s0, Local(run, a, addr));
  }
}
