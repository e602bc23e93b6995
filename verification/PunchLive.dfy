/** Progress: every discovery between two running nodes ends with both of them confirmed, in whatever order things
    happen, unless the network loses a packet between them. */
module PunchLive {
  import opened PunchNode
  import opened PunchWorld
  import opened Sums
  import PunchBound
  import PunchComplete

  /** A prober stops early only because of a confirmation. */
  ghost predicate ProberOk(w: World, l: Link)
    requires l in w.probers
  {
    var p := w.probers[l];
    && (p.phase == Armed ==> p.left > 0)
    && (p.phase == Done ==> p.left == 0 || (l.src in w.nodes && l.dst in w.nodes[l.src].confirmed))
  }

  ghost predicate ProbersOk(w: World) {
    forall l :: l in w.probers ==> ProberOk(w, l)
  }

  lemma ConfirmedStays(w: World, e: Event, a: Key)
    requires Enabled(w, e) && a in w.nodes
    ensures w.nodes[a].confirmed <= Apply(w, e).nodes[a].confirmed
  {
    if e == Settle(a) {
      NodeActs(w, e, a);
    } else {
      ConfirmedFrame(w, e, a);
    }
  }

  lemma ProberOkStep(w: World, e: Event, l: Link)
    requires Enabled(w, e) && l in Apply(w, e).probers && (l in w.probers ==> ProberOk(w, l))
    ensures ProberOk(Apply(w, e), l)
  {
    if l.src in w.nodes {
      ConfirmedStays(w, e, l.src);
    }
  }

  lemma ProbersOkStep(w: World, e: Event)
    requires ProbersOk(w) && Enabled(w, e)
    ensures ProbersOk(Apply(w, e))
  {
    forall l | l in Apply(w, e).probers ensures ProberOk(Apply(w, e), l) {
      assert l in w.probers ==> ProberOk(w, l);
      ProberOkStep(w, e, l);
    }
  }

  lemma {:induction false} ProbersOkRun(w0: World, run: seq<Event>)
    requires Init(w0) && Possible(w0, run)
    ensures ProbersOk(After(w0, run))
  {
    if run != [] {
      ProbersOkRun(w0, run[..|run| - 1]);
      ProbersOkStep(After(w0, run[..|run| - 1]), run[|run| - 1]);
    }
  }

  /** A prober that has stopped without a confirmation has sent all of its 260 probes. */
  lemma UnansweredProberSendsAll(w0: World, run: seq<Event>, l: Link)
    requires Init(w0) && Possible(w0, run)
    requires var w := After(w0, run);
             l in w.probers && w.probers[l].phase == Done && l.src in w.nodes && l.dst !in w.nodes[l.src].confirmed
    ensures PunchBound.HellosOn(After(w0, run), l) == 260
  {
    ProbersOkRun(w0, run);
    assert ProberOk(After(w0, run), l);
    PunchBound.HellosRun(w0, run, l);
  }

  /** Nothing is left to happen but new discoveries and acts of the network against its own duty to deliver. */
  ghost predicate Stuck(w: World) {
    forall e :: Enabled(w, e) ==> e.Find? || e.Drop? || e.Duplicate?
  }

  lemma StuckReaders(w: World, a: Key)
    requires Sound(w) && Stuck(w) && a in w.nodes
    ensures w.nodes[a].reader.Idle?
  {
    if w.nodes[a].reader.Answering? {
      assert Enabled(w, Answer(a));
    } else if w.nodes[a].reader.Confirming? {
      assert Enabled(w, Settle(a));
    }
  }

  lemma StuckNet(w: World, m: Msg)
    requires Sound(w) && Stuck(w) && m.dst in w.nodes
    ensures m !in w.net
  {
    StuckReaders(w, m.dst);
    assert m in w.net ==> Enabled(w, Deliver(m, ""));
  }

  lemma StuckProber(w: World, l: Link)
    requires Sound(w) && ProbersOk(w) && Stuck(w) && l in w.probers && l.src in w.nodes
    ensures w.probers[l].phase == Done
  {
    assert ProberOk(w, l);
    if w.probers[l].phase == Checking {
      assert Enabled(w, Look(l));
    } else if w.probers[l].phase == Armed {
      assert Enabled(w, Probe(l));
    }
  }

  lemma StuckTracked(w: World, a: Key, b: Key)
    requires Sound(w) && Stuck(w) && a in w.nodes && b in w.nodes && PunchComplete.Tracked(w, a, b)
    ensures b in w.nodes[a].confirmed && a in w.nodes[b].confirmed
  {
    StuckReaders(w, a);
    StuckReaders(w, b);
    StuckNet(w, HelloMsg(w, a, b));
    StuckNet(w, ReplyMsg(w, b, a));
    StuckNet(w, AckMsg(w, a, b));
  }

  lemma SomeHello(b: multiset<Msg>, l: Link) returns (m: Msg)
    requires SumBag(b, PunchBound.IsHelloOn(l)) > 0
    ensures m in b && m.src == l.src && m.dst == l.dst && m.sig.kind == Hello
    decreases |b|
  {
    m := PickElement(b);
    if PunchBound.IsHelloOn(l)(m) == 0 {
      m := SomeHello(b - multiset{m}, l);
    }
  }

  /** A prober that has stopped sent a probe itself or was confirmed through a probe of the other side. */
  lemma StoppedMeansProbed(w0: World, run: seq<Event>, l: Link)
    requires Init(w0) && Possible(w0, run)
    requires var w := After(w0, run); l in w.probers && w.probers[l].phase == Done && l.src in w.nodes
    ensures var w := After(w0, run); HelloMsg(w, l.src, l.dst) in w.sent || HelloMsg(w, l.dst, l.src) in w.sent
  {
    SoundRun(w0, run);
    var w := After(w0, run);
    if l.dst in w.nodes[l.src].confirmed {
      assert Evidence(w, l.src, l.dst);
    } else {
      UnansweredProberSendsAll(w0, run, l);
      var m := SomeHello(w.sent, l);
      assert Justified(w, m);
    }
  }

  /** In the run, a learnt of b from the DHT. */
  predicate Finds(e: Event, a: Key, b: Key) {
    e.Find? && e.a == a && e.b == b
  }

  ghost predicate Found(run: seq<Event>, a: Key, b: Key) {
    exists i :: 0 <= i < |run| && Finds(run[i], a, b)
  }

  lemma FindTries(w: World, e: Event, a: Key, b: Key)
    requires Enabled(w, e) && Finds(e, a, b)
    ensures b in Apply(w, e).nodes[a].tried || b in Apply(w, e).nodes[a].confirmed
  {
    NodeActs(w, e, a);
  }

  lemma TriedOrConfirmedStays(w: World, e: Event, a: Key, b: Key)
    requires Enabled(w, e) && a in w.nodes && (b in w.nodes[a].tried || b in w.nodes[a].confirmed)
    ensures b in Apply(w, e).nodes[a].tried || b in Apply(w, e).nodes[a].confirmed
  {
    ConfirmedStays(w, e, a);
    if !e.Find? {
      PunchBound.SameTried(w, e);
    }
  }

  /** A discovery is never without effect: from then on the endpoint is tried or confirmed. */
  lemma {:induction false} DiscoveriesAreTried(w0: World, run: seq<Event>, a: Key, b: Key)
    requires Possible(w0, run) && Found(run, a, b)
    ensures a in After(w0, run).nodes
    ensures b in After(w0, run).nodes[a].tried || b in After(w0, run).nodes[a].confirmed
  {
    var before, e := run[..|run| - 1], run[|run| - 1];
    if Finds(e, a, b) {
      FindTries(After(w0, before), e, a, b);
    } else {
      var i :| 0 <= i < |run| && Finds(run[i], a, b);
      assert Finds(before[i], a, b);
      DiscoveriesAreTried(w0, before, a, b);
      TriedOrConfirmedStays(After(w0, before), e, a, b);
    }
  }

  /** A probe passed between two nodes if one of them tried the other or has confirmed it. */
  lemma SomeProbe(w0: World, run: seq<Event>, a: Key, b: Key)
    requires Init(w0) && Possible(w0, run) && Stuck(After(w0, run)) && a in After(w0, run).nodes
    requires b in After(w0, run).nodes[a].tried || b in After(w0, run).nodes[a].confirmed
    ensures var w := After(w0, run); HelloMsg(w, a, b) in w.sent || HelloMsg(w, b, a) in w.sent
  {
    var w := After(w0, run);
    SoundRun(w0, run);
    if b in w.nodes[a].confirmed {
      assert Evidence(w, a, b);
    } else {
      ProbersOkRun(w0, run);
      PunchBound.AccountedRun(w0, run);
      StuckProber(w, Link(a, b));
      StoppedMeansProbed(w0, run, Link(a, b));
    }
  }

  /** In every run that has nothing left to do and dropped no packet between two nodes, a discovery of one by the
      other has made both confirm each other: no schedule, reordering, duplication or loss elsewhere can prevent it. */
  lemma DiscoveriesConfirmBothEnds(w0: World, run: seq<Event>, a: Key, b: Key)
    requires Init(w0) && Possible(w0, run) && PunchComplete.Uncut(run, a, b) && Stuck(After(w0, run))
    requires Found(run, a, b) && b in w0.nodes
    ensures a in After(w0, run).nodes && b in After(w0, run).nodes
    ensures b in After(w0, run).nodes[a].confirmed && a in After(w0, run).nodes[b].confirmed
  {
    var w := After(w0, run);
    NodesStay(w0, run);
    SoundRun(w0, run);
    DiscoveriesAreTried(w0, run, a, b);
    SomeProbe(w0, run, a, b);
    if HelloMsg(w, a, b) in w.sent {
      PunchComplete.ProbesTrackedRun(w0, run, a, b);
      StuckTracked(w, a, b);
    } else {
      PunchComplete.UncutBothWays(run, a, b);
      PunchComplete.ProbesTrackedRun(w0, run, b, a);
      StuckTracked(w, b, a);
    }
  }

  /** A step of the nodes, their probers, or a delivery. */
  predicate Proper(e: Event) {
    !e.Find? && !e.Drop? && !e.Duplicate?
  }

  predicate AllProper(run: seq<Event>) {
    forall i :: 0 <= i < |run| ==> Proper(run[i])
  }

  ghost function WorkLeft(w: World): nat {
    PunchBound.Weight(w, PunchBound.WORK)
  }

  lemma NextStep(w: World) returns (e: Event)
    requires !Stuck(w)
    ensures Enabled(w, e) && Proper(e) && WorkLeft(Apply(w, e)) < WorkLeft(w)
  {
    e :| Enabled(w, e) && !e.Find? && !e.Drop? && !e.Duplicate?;
    PunchBound.EveryStepIsCheaper(w, e);
  }

  /** From every state, whatever was lost before, proper steps alone lead to a state with nothing left to do, and no
      more of them are needed than there was work left. */
  lemma {:induction false} CanFinish(w: World) returns (more: seq<Event>)
    ensures Possible(w, more) && AllProper(more) && Stuck(After(w, more))
    ensures |more| <= WorkLeft(w)
    decreases WorkLeft(w)
  {
    if Stuck(w) {
      more := [];
    } else {
      var e := NextStep(w);
      var rest := CanFinish(Apply(w, e));
      FirstStep(w, e);
      RunsJoin(w, [e], rest);
      more := [e] + rest;
    }
  }

  /** No run is ever at a dead end: it can always go on, by proper steps alone, to a state in which every discovery
      made so far between two nodes that lost no packet of each other has made both confirm each other. */
  lemma DiscoveriesCanAlwaysSucceed(w0: World, run: seq<Event>) returns (more: seq<Event>)
    requires Init(w0) && Possible(w0, run)
    ensures Possible(w0, run + more) && AllProper(more)
    ensures After(w0, run + more).nodes.Keys == w0.nodes.Keys
    ensures var w := After(w0, run + more);
            forall a, b :: b in w.nodes && Found(run, a, b) && PunchComplete.Uncut(run, a, b) ==>
              a in w.nodes && b in w.nodes[a].confirmed && a in w.nodes[b].confirmed
  {
    more := CanFinish(After(w0, run));
    RunsJoin(w0, run, more);
    var w := After(w0, run + more);
    NodesStay(w0, run + more);
    forall a, b | b in w.nodes && Found(run, a, b) && PunchComplete.Uncut(run, a, b)
      ensures a in w.nodes && b in w.nodes[a].confirmed && a in w.nodes[b].confirmed
    {
      UncutJoins(run, more, a, b);
      FoundJoins(run, more, a, b);
      DiscoveriesConfirmBothEnds(w0, run + more, a, b);
    }
  }

  lemma UncutJoins(run: seq<Event>, more: seq<Event>, a: Key, b: Key)
    requires PunchComplete.Uncut(run, a, b) && AllProper(more)
    ensures PunchComplete.Uncut(run + more, a, b)
  {
    forall i | 0 <= i < |run + more| ensures !PunchComplete.Cuts((run + more)[i], a, b) {
      assert i >= |run| ==> Proper(more[i - |run|]);
    }
  }

  lemma FoundJoins(run: seq<Event>, more: seq<Event>, a: Key, b: Key)
    requires Found(run, a, b)
    ensures Found(run + more, a, b)
  {
    var i :| 0 <= i < |run| && Finds(run[i], a, b);
    assert Finds((run + more)[i], a, b);
  }

  // ----- confirmation stops a prober -----

  function ArmedOn(w: World, l: Link): nat {
    if l in w.probers && w.probers[l].phase == Armed then 1 else 0
  }

  lemma StopsStep(w: World, e: Event, l: Link)
    requires Enabled(w, e) && l.src in w.nodes && l.dst in w.nodes[l.src].confirmed
    ensures PunchBound.ProbesUsed(Apply(w, e), l) + ArmedOn(Apply(w, e), l)
         <= PunchBound.ProbesUsed(w, l) + ArmedOn(w, l)
  {
  }

  lemma {:induction false} StopsRun(w0: World, run: seq<Event>, more: seq<Event>, l: Link)
    requires Possible(w0, run) && Possible(After(w0, run), more)
    requires l.src in After(w0, run).nodes && l.dst in After(w0, run).nodes[l.src].confirmed
    ensures var w, w' := After(w0, run), After(After(w0, run), more);
            && l.src in w'.nodes && l.dst in w'.nodes[l.src].confirmed
            && PunchBound.ProbesUsed(w', l) + ArmedOn(w', l) <= PunchBound.ProbesUsed(w, l) + ArmedOn(w, l)
  {
    if more != [] {
      var before, e := more[..|more| - 1], more[|more| - 1];
      StopsRun(w0, run, before, l);
      ConfirmedStays(After(After(w0, run), before), e, l.src);
      StopsStep(After(After(w0, run), before), e, l);
    }
  }

  /** Once a node has confirmed an endpoint, however the run goes on, it sends it at most one more HELLO. */
  lemma ConfirmationStopsProbes(w0: World, run: seq<Event>, more: seq<Event>, l: Link)
    requires Init(w0) && Possible(w0, run) && Possible(w0, run + more) && Possible(After(w0, run), more)
    requires l.src in After(w0, run).nodes && l.dst in After(w0, run).nodes[l.src].confirmed
    ensures PunchBound.HellosOn(After(w0, run + more), l) <= PunchBound.HellosOn(After(w0, run), l) + 1
  {
    StopsRun(w0, run, more, l);
    RunsJoin(w0, run, more);
    PunchBound.HellosRun(w0, run, l);
    PunchBound.HellosRun(w0, run + more, l);
  }
}
