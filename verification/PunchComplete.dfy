/** Completeness at quiescence: between two nodes that lose no packet of each other, no probe is in vain. */
module PunchComplete {
  import opened PunchNode
  import opened PunchWorld

  predicate Quiet(w: World) {
    w.net == multiset{} && forall a :: a in w.nodes ==> w.nodes[a].reader.Idle?
  }

  predicate Between(m: Msg, a: Key, b: Key) {
    (m.src == a && m.dst == b) || (m.src == b && m.dst == a)
  }

  /** A drop of a packet between a and b. */
  predicate Cuts(e: Event, a: Key, b: Key) {
    e.Drop? && Between(e.m, a, b)
  }

  predicate Uncut(run: seq<Event>, a: Key, b: Key) {
    forall i :: 0 <= i < |run| ==> !Cuts(run[i], a, b)
  }

  lemma UncutBothWays(run: seq<Event>, a: Key, b: Key)
    requires Uncut(run, a, b)
    ensures Uncut(run, b, a)
  {
    forall i | 0 <= i < |run| ensures !Cuts(run[i], b, a) { assert !Cuts(run[i], a, b); }
  }

  predicate Holds(w: World, a: Key, r: Reader) {
    a in w.nodes && w.nodes[a].reader == r
  }

  /** a has confirmed b or is about to. */
  predicate Confirms(w: World, a: Key, b: Key) {
    a in w.nodes && (b in w.nodes[a].confirmed || (w.nodes[a].reader.Confirming? && w.nodes[a].reader.from == b))
  }

  /** How far the probe h has got, given the reply r to it and the acknowledgement k of that reply. */
  predicate TrackedBy(w: World, h: Msg, r: Msg, k: Msg) {
    var a, b := h.src, h.dst;
    || h in w.net
    || Holds(w, b, Answering(a, h.sig))
    || r in w.net
    || Holds(w, a, Answering(b, r.sig))
    || (Confirms(w, a, b) && (k in w.net || Confirms(w, b, a)))
  }

  predicate Tracked(w: World, a: Key, b: Key) {
    TrackedBy(w, HelloMsg(w, a, b), ReplyMsg(w, b, a), AckMsg(w, a, b))
  }

  /** Every probe ever sent from a to b is tracked. */
  ghost predicate ProbesTracked(w: World, a: Key, b: Key) {
    HelloMsg(w, a, b) in w.sent ==> Tracked(w, a, b)
  }

  /** The read loop's own steps never lose a confirmation. */
  lemma ConfirmsStays(w: World, e: Event, a: Key, b: Key)
    requires Enabled(w, e) && Confirms(w, a, b)
    ensures Confirms(Apply(w, e), a, b)
  {
    if e == Settle(a) {
      NodeActs(w, e, a);
    } else {
      ConfirmedFrame(w, e, a);
      if ActsOn(e, a) {
        NodeActs(w, e, a);
      } else {
        NodeFrame(w, e, a);
      }
    }
  }

  /** Only the read loop's own next step ends its hold on a packet. */
  lemma HoldsStays(w: World, e: Event, a: Key, r: Reader)
    requires Enabled(w, e) && Holds(w, a, r) && r.Answering? && e != Answer(a)
    ensures Holds(Apply(w, e), a, r)
  {
  }

  lemma NetStays(w: World, e: Event, m: Msg)
    requires Enabled(w, e) && m in w.net && e != Drop(m) && !(e.Deliver? && e.m == m)
    ensures m in Apply(w, e).net
  {
  }

  lemma DeliverTakes(w: World, e: Event, m: Msg)
    requires Enabled(w, e) && e.Deliver? && e.m == m
    ensures m.sig.kind in {Hello, Reply} ==> Holds(Apply(w, e), m.dst, Answering(m.src, m.sig))
    ensures m.sig.kind == Ack ==> Confirms(Apply(w, e), m.dst, m.src)
  {
  }

  lemma AnswerSends(w: World, e: Event, m: Msg)
    requires Enabled(w, e) && e == Answer(m.src) && w.nodes[m.src].reader.from == m.dst
    requires m.sig == AnswerTo(w.nodes[m.src].reader.sig, w.identity[m.src])
    ensures m in Apply(w, e).net
    ensures w.nodes[m.src].reader.sig.kind != Hello ==> Confirms(Apply(w, e), m.src, m.dst)
  {
  }

  lemma TrackedByStep(w: World, e: Event, h: Msg, r: Msg, k: Msg)
    requires Enabled(w, e) && !Cuts(e, h.src, h.dst) && TrackedBy(w, h, r, k)
    requires h.sig.kind == Hello && r.sig.kind == Reply && k.sig.kind == Ack
    requires r == Msg(h.dst, h.src, AnswerTo(h.sig, IdentityOf(w, h.dst)))
    requires k == Msg(h.src, h.dst, AnswerTo(r.sig, IdentityOf(w, h.src)))
    ensures TrackedBy(Apply(w, e), h, r, k)
  {
    var a, b := h.src, h.dst;
    if h in w.net {
      if e.Deliver? && e.m == h { DeliverTakes(w, e, h); } else { NetStays(w, e, h); }
    } else if Holds(w, b, Answering(a, h.sig)) {
      if e == Answer(b) { AnswerSends(w, e, r); } else { HoldsStays(w, e, b, Answering(a, h.sig)); }
    } else if r in w.net {
      if e.Deliver? && e.m == r { DeliverTakes(w, e, r); } else { NetStays(w, e, r); }
    } else if Holds(w, a, Answering(b, r.sig)) {
      if e == Answer(a) { AnswerSends(w, e, k); } else { HoldsStays(w, e, a, Answering(b, r.sig)); }
    } else {
      ConfirmsStays(w, e, a, b);
      if Confirms(w, b, a) {
        ConfirmsStays(w, e, b, a);
      } else if e.Deliver? && e.m == k {
        DeliverTakes(w, e, k);
      } else {
        NetStays(w, e, k);
      }
    }
  }

  lemma TrackedStep(w: World, e: Event, a: Key, b: Key)
    requires Enabled(w, e) && !Cuts(e, a, b)
    requires Knows(w, a, b) && Tracked(w, a, b)
    ensures Tracked(Apply(w, e), a, b)
  {
    ApplyGrows(w, e);
    TrackedByStep(w, e, HelloMsg(w, a, b), ReplyMsg(w, b, a), AckMsg(w, a, b));
  }

  lemma ProbesTrackedStep(w: World, e: Event, a: Key, b: Key)
    requires Sound(w) && ProbesTracked(w, a, b) && Enabled(w, e) && !Cuts(e, a, b)
    ensures ProbesTracked(Apply(w, e), a, b)
  {
    var w' := Apply(w, e);
    var h := HelloMsg(w', a, b);
    SoundStep(w, e);
    if h in w'.sent {
      assert Justified(w', h);
      if h in w.sent {
        assert Justified(w, h);
        TrackedStep(w, e, a, b);
      }
    }
  }

  lemma {:induction false} ProbesTrackedRun(w0: World, run: seq<Event>, a: Key, b: Key)
    requires Init(w0) && Possible(w0, run) && Uncut(run, a, b)
    ensures ProbesTracked(After(w0, run), a, b)
  {
    if run != [] {
      SoundRun(w0, run[..|run| - 1]);
      ProbesTrackedRun(w0, run[..|run| - 1], a, b);
      ProbesTrackedStep(After(w0, run[..|run| - 1]), run[|run| - 1], a, b);
    }
  }

  /** In every run that drops no packet between the two ends, once nothing is in flight or being handled, any probe
      ever sent has made both ends confirm each other, whatever was duplicated, reordered or lost elsewhere. */
  lemma ProbesConfirmBothEnds(w0: World, run: seq<Event>, m: Msg)
    requires Init(w0) && Possible(w0, run) && Uncut(run, m.src, m.dst)
    requires Quiet(After(w0, run))
    requires m in After(w0, run).sent && m.sig.kind == Hello
    ensures var w := After(w0, run);
            && m.src in w.nodes && m.dst in w.nodes
            && m.dst in w.nodes[m.src].confirmed && m.src in w.nodes[m.dst].confirmed
  {
    SoundRun(w0, run);
    assert Justified(After(w0, run), m);
    ProbesTrackedRun(w0, run, m.src, m.dst);
  }
}
