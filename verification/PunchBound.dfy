/** How much traffic and how many steps the hole-punch protocol can cause. */
module PunchBound {
  import opened PunchNode
  import opened PunchWorld
  import opened Sums

  /** How many packets the network duplicated. */
  function Duplications(run: seq<Event>): nat {
    if run == [] then 0
    else Duplications(run[..|run| - 1]) + (if run[|run| - 1].Duplicate? then 1 else 0)
  }

  /** The number of (node, endpoint) pairs for which a node has started probing. */
  ghost function TriedEndpoints(w: World): nat {
    SumMap(w.nodes, TriedBy)
  }

  function TriedBy(n: Node): nat { |n.tried| }

  // ----- probes per endpoint -----

  ghost function IsHelloOn(l: Link): Msg -> nat {
    (m: Msg) => if m.src == l.src && m.dst == l.dst && m.sig.kind == Hello then 1 else 0
  }

  ghost function HellosOn(w: World, l: Link): nat {
    SumBag(w.sent, IsHelloOn(l))
  }

  function ProbesUsed(w: World, l: Link): int {
    if l in w.probers then PROBES - w.probers[l].left else 0
  }

  /** There is one prober for each tried endpoint. */
  ghost predicate AccountedIn(nodes: map<Key, Node>, probers: map<Link, Prober>) {
    && (forall l :: l in probers <==> l.src in nodes && l.dst in nodes[l.src].tried)
    && (forall l :: l in probers ==> probers[l].left <= PROBES)
    && |probers| == SumMap(nodes, TriedBy)
  }

  ghost predicate Accounted(w: World) {
    AccountedIn(w.nodes, w.probers)
  }

  lemma OneMoreKey<K, V>(m: map<K, V>, k: K, v: V)
    requires k !in m
    ensures |m[k := v]| == |m| + 1
  {
    assert m[k := v].Keys == m.Keys + {k};
    assert |m[k := v].Keys| == |m.Keys| + 1;
  }

  lemma AddTried(nodes: map<Key, Node>, probers: map<Link, Prober>, a: Key, n: Node, b: Key, p: Prober)
    requires AccountedIn(nodes, probers) && a in nodes && b !in nodes[a].tried
    requires n.tried == nodes[a].tried + {b} && p.left <= PROBES
    ensures Link(a, b) !in probers && |probers[Link(a, b) := p]| == |probers| + 1
    ensures AccountedIn(nodes[a := n], probers[Link(a, b) := p])
  {
    OneMoreKey(probers, Link(a, b), p);
    OneMoreTried(nodes, a, n, b);
    forall l ensures l in probers[Link(a, b) := p] <==> l.src in nodes[a := n] && l.dst in nodes[a := n][l.src].tried {
      assert l == Link(a, b) <==> l.src == a && l.dst == b;
    }
  }

  lemma OneMoreTried(nodes: map<Key, Node>, a: Key, n: Node, b: Key)
    requires a in nodes && b !in nodes[a].tried && n.tried == nodes[a].tried + {b}
    ensures SumMap(nodes[a := n], TriedBy) == SumMap(nodes, TriedBy) + 1
  {
    SumMapUpdate(nodes, TriedBy, a, n);
    assert TriedBy(n) == TriedBy(nodes[a]) + 1;
  }

  lemma DiscoverTries(n: Node, k: Key, freshSid: string)
    requires Probes(n, k)
    ensures Discover(n, k, freshSid).tried == n.tried + {k} && k !in n.tried
  {
  }

  lemma FindShape(w: World, e: Event)
    requires Enabled(w, e) && e.Find? && Probes(w.nodes[e.a], e.b)
    ensures var n := Discover(w.nodes[e.a], e.b, e.freshSid);
            && Apply(w, e).nodes == w.nodes[e.a := n]
            && n.reader == w.nodes[e.a].reader && Apply(w, e).sent == w.sent
            && Apply(w, e).probers == w.probers[Link(e.a, e.b) := Prober(n.pending[e.b].sid, PROBES, Checking)]
  {
  }

  lemma FindAccounted(w: World, e: Event)
    requires Accounted(w) && Enabled(w, e) && e.Find? && Probes(w.nodes[e.a], e.b)
    ensures Accounted(Apply(w, e)) && |Apply(w, e).probers| == |w.probers| + 1
    ensures Link(e.a, e.b) !in w.probers
  {
    var n := Discover(w.nodes[e.a], e.b, e.freshSid);
    FindShape(w, e);
    DiscoverTries(w.nodes[e.a], e.b, e.freshSid);
    AddTried(w.nodes, w.probers, e.a, n, e.b, Prober(n.pending[e.b].sid, PROBES, Checking));
  }

  /** Writing one node without touching what it has tried. */
  lemma SameTriedAt(nodes: map<Key, Node>, a: Key, n: Node)
    requires a in nodes && n.tried == nodes[a].tried
    ensures forall b :: b in nodes ==> nodes[a := n][b].tried == nodes[b].tried
    ensures SumMap(nodes[a := n], TriedBy) == SumMap(nodes, TriedBy)
  {
    SumMapUpdate(nodes, TriedBy, a, n);
  }

  lemma SameTried(w: World, e: Event)
    requires Enabled(w, e) && !e.Find?
    ensures forall a :: a in w.nodes ==> Apply(w, e).nodes[a].tried == w.nodes[a].tried
    ensures TriedEndpoints(Apply(w, e)) == TriedEndpoints(w)
  {
    match e {
      case Deliver(m, freshSid) => SameTriedAt(w.nodes, m.dst, Receive(w.nodes[m.dst], m.src, m.sig, freshSid));
      case Answer(a) => SameTriedAt(w.nodes, a, Answered(w.nodes[a]));
      case Settle(a) => SameTriedAt(w.nodes, a, Confirm(w.nodes[a]));
      case _ =>
    }
  }

  lemma SameProbers(w: World, e: Event)
    requires Enabled(w, e) && !e.Find?
    ensures Apply(w, e).probers.Keys == w.probers.Keys && |Apply(w, e).probers| == |w.probers|
  {
    assert Apply(w, e).probers.Keys == w.probers.Keys;
    assert |w.probers| == |w.probers.Keys| && |Apply(w, e).probers| == |Apply(w, e).probers.Keys|;
  }

  lemma SameAccounts(w: World, e: Event)
    requires Accounted(w) && Enabled(w, e) && !e.Find?
    ensures Accounted(Apply(w, e))
  {
    SameTried(w, e);
    SameProbers(w, e);
  }

  lemma AccountedStep(w: World, e: Event)
    requires Accounted(w) && Enabled(w, e)
    ensures Accounted(Apply(w, e))
  {
    if e.Find? {
      if Probes(w.nodes[e.a], e.b) {
        FindAccounted(w, e);
      }
    } else {
      SameAccounts(w, e);
    }
  }

  lemma {:induction false} AccountedRun(w0: World, run: seq<Event>)
    requires Init(w0) && Possible(w0, run)
    ensures Accounted(After(w0, run))
  {
    if run == [] {
      NothingTried(w0.nodes);
    } else {
      AccountedRun(w0, run[..|run| - 1]);
      AccountedStep(After(w0, run[..|run| - 1]), run[|run| - 1]);
    }
  }

  lemma {:induction false} NothingTried(nodes: map<Key, Node>)
    requires forall a :: a in nodes ==> nodes[a] == NEW_NODE
    ensures SumMap(nodes, TriedBy) == 0
  {
    if nodes != map[] {
      NothingTried(nodes - {PickKey(nodes)});
    }
  }

  lemma ProbeHellos(w: World, p: Link, l: Link)
    requires Enabled(w, Probe(p))
    requires HellosOn(w, l) == ProbesUsed(w, l)
    ensures HellosOn(Apply(w, Probe(p)), l) == ProbesUsed(Apply(w, Probe(p)), l)
  {
    SumBagAdd(w.sent, IsHelloOn(l), Msg(p.src, p.dst, Signal(Hello, w.probers[p].sid, w.identity[p.src])));
    assert p == l <==> p.src == l.src && p.dst == l.dst;
  }

  lemma AnswerHellos(w: World, a: Key, l: Link)
    requires Enabled(w, Answer(a))
    ensures HellosOn(Apply(w, Answer(a)), l) == HellosOn(w, l)
    ensures ProbesUsed(Apply(w, Answer(a)), l) == ProbesUsed(w, l)
  {
    var r := w.nodes[a].reader;
    SumBagAdd(w.sent, IsHelloOn(l), Msg(a, r.from, AnswerTo(r.sig, w.identity[a])));
  }

  lemma HellosStep(w: World, e: Event, l: Link)
    requires Accounted(w) && Enabled(w, e)
    requires HellosOn(w, l) == ProbesUsed(w, l)
    ensures HellosOn(Apply(w, e), l) == ProbesUsed(Apply(w, e), l)
  {
    if e.Probe? {
      ProbeHellos(w, e.link, l);
    } else if e.Answer? {
      AnswerHellos(w, e.a, l);
    } else {
      assert Apply(w, e).sent == w.sent;
      if e.Find? && Probes(w.nodes[e.a], e.b) {
        FindAccounted(w, e);
      }
      assert ProbesUsed(Apply(w, e), l) == ProbesUsed(w, l);
    }
  }

  lemma {:induction false} HellosRun(w0: World, run: seq<Event>, l: Link)
    requires Init(w0) && Possible(w0, run)
    ensures HellosOn(After(w0, run), l) == ProbesUsed(After(w0, run), l)
  {
    if run != [] {
      AccountedRun(w0, run[..|run| - 1]);
      HellosRun(w0, run[..|run| - 1], l);
      HellosStep(After(w0, run[..|run| - 1]), run[|run| - 1], l);
    }
  }

  /** In every run, with any losses and duplications, a node writes at most 260 probes to an endpoint, and none to an
      endpoint it has not tried. */
  lemma AtMost260Probes(w0: World, run: seq<Event>, l: Link)
    requires Init(w0) && Possible(w0, run)
    ensures HellosOn(After(w0, run), l) <= 260
    ensures HellosOn(After(w0, run), l) > 0 ==>
              l.src in After(w0, run).nodes && l.dst in After(w0, run).nodes[l.src].tried
  {
    HellosRun(w0, run, l);
    AccountedRun(w0, run);
  }

  // ----- weights -----

  /** A weighting of everything that can still cause steps or packets. */
  datatype Weights = Weights(prober: Prober -> nat, msg: Msg -> nat, node: Node -> nat)

  ghost function Weight(w: World, x: Weights): nat {
    SumMap(w.probers, x.prober) + SumBag(w.net, x.msg) + SumMap(w.nodes, x.node)
  }

  // How each kind of event changes a weight, stated without subtraction.

  lemma FindWeight(w: World, e: Event, x: Weights)
    requires Enabled(w, e) && e.Find? && Probes(w.nodes[e.a], e.b) && Link(e.a, e.b) !in w.probers
    ensures var n' := Discover(w.nodes[e.a], e.b, e.freshSid);
            Weight(Apply(w, e), x) + x.node(w.nodes[e.a])
            == Weight(w, x) + x.node(n') + x.prober(Prober(n'.pending[e.b].sid, PROBES, Checking))
  {
    var n' := Discover(w.nodes[e.a], e.b, e.freshSid);
    SumMapUpdate(w.nodes, x.node, e.a, n');
    SumMapUpdate(w.probers, x.prober, Link(e.a, e.b), Prober(n'.pending[e.b].sid, PROBES, Checking));
  }

  lemma LookWeight(w: World, l: Link, x: Weights)
    requires Enabled(w, Look(l))
    ensures Weight(Apply(w, Look(l)), x) + x.prober(w.probers[l]) ==
            Weight(w, x) + x.prober(Apply(w, Look(l)).probers[l])
  {
    SumMapUpdate(w.probers, x.prober, l, Apply(w, Look(l)).probers[l]);
  }

  lemma ProbeWeight(w: World, l: Link, x: Weights)
    requires Enabled(w, Probe(l))
    ensures var p := w.probers[l];
            Weight(Apply(w, Probe(l)), x) + x.prober(p)
            == Weight(w, x) + x.prober(p.(left := p.left - 1, phase := Checking))
               + x.msg(Msg(l.src, l.dst, Signal(Hello, p.sid, w.identity[l.src])))
  {
    var p := w.probers[l];
    SumMapUpdate(w.probers, x.prober, l, p.(left := p.left - 1, phase := Checking));
    SumBagAdd(w.net, x.msg, Msg(l.src, l.dst, Signal(Hello, p.sid, w.identity[l.src])));
  }

  lemma DeliverWeight(w: World, e: Event, x: Weights)
    requires Enabled(w, e) && e.Deliver?
    ensures Weight(Apply(w, e), x) + x.msg(e.m) + x.node(w.nodes[e.m.dst])
            == Weight(w, x) + x.node(Receive(w.nodes[e.m.dst], e.m.src, e.m.sig, e.freshSid))
  {
    SumMapUpdate(w.nodes, x.node, e.m.dst, Receive(w.nodes[e.m.dst], e.m.src, e.m.sig, e.freshSid));
    SumBagRemove(w.net, x.msg, e.m);
  }

  lemma AnswerWeight(w: World, a: Key, x: Weights)
    requires Enabled(w, Answer(a))
    ensures var n := w.nodes[a];
            Weight(Apply(w, Answer(a)), x) + x.node(n)
            == Weight(w, x) + x.node(Answered(n)) + x.msg(Msg(a, n.reader.from, AnswerTo(n.reader.sig, w.identity[a])))
  {
    var n := w.nodes[a];
    SumMapUpdate(w.nodes, x.node, a, Answered(n));
    SumBagAdd(w.net, x.msg, Msg(a, n.reader.from, AnswerTo(n.reader.sig, w.identity[a])));
  }

  lemma SettleWeight(w: World, a: Key, x: Weights)
    requires Enabled(w, Settle(a))
    ensures Weight(Apply(w, Settle(a)), x) + x.node(w.nodes[a]) == Weight(w, x) + x.node(Confirm(w.nodes[a]))
  {
    SumMapUpdate(w.nodes, x.node, a, Confirm(w.nodes[a]));
  }

  lemma DropWeight(w: World, m: Msg, x: Weights)
    requires Enabled(w, Drop(m))
    ensures Weight(Apply(w, Drop(m)), x) + x.msg(m) == Weight(w, x)
  {
    SumBagRemove(w.net, x.msg, m);
  }

  lemma {:induction false} NewNodesWeigh0(nodes: map<Key, Node>, node: Node -> nat)
    requires forall a :: a in nodes ==> nodes[a] == NEW_NODE
    requires node(NEW_NODE) == 0
    ensures SumMap(nodes, node) == 0
  {
    if nodes != map[] {
      NewNodesWeigh0(nodes - {PickKey(nodes)}, node);
    }
  }

  // ----- all packets -----

  // The packets each part of the world can still cause to be sent.
  function OwedByProber(p: Prober): nat { 3 * p.left }
  function OwedByMsg(m: Msg): nat { match m.sig.kind case Hello => 2 case Reply => 1 case Ack => 0 case Other => 0 }
  function OwedByNode(n: Node): nat {
    if !n.reader.Answering? then 0 else if n.reader.sig.kind == Hello then 2 else 1
  }

  const OWED: Weights := Weights(OwedByProber, OwedByMsg, OwedByNode)

  // The steps each part of the world can still cause.
  function WorkOfProber(p: Prober): nat {
    match p.phase case Checking => 9 * p.left + 1 case Armed => 9 * p.left case Done => 0
  }
  function WorkOfMsg(m: Msg): nat { match m.sig.kind case Hello => 7 case Reply => 5 case Ack => 2 case Other => 1 }
  function WorkOfNode(n: Node): nat {
    match n.reader
    case Idle => 0
    case Answering(_, sig) => if sig.kind == Hello then 6 else 4
    case Confirming(_, _) => 1
  }

  const WORK: Weights := Weights(WorkOfProber, WorkOfMsg, WorkOfNode)

  /** One step used up work and did not add to the packets sent or owed. */
  ghost predicate Cheaper(w: World, w': World) {
    && Weight(w', WORK) < Weight(w, WORK)
    && |w'.sent| + Weight(w', OWED) <= |w.sent| + Weight(w, OWED)
  }

  lemma LookCheaper(w: World, l: Link)
    requires Enabled(w, Look(l))
    ensures Cheaper(w, Apply(w, Look(l)))
  {
    LookWeight(w, l, WORK);
    LookWeight(w, l, OWED);
  }

  lemma ProbeCheaper(w: World, l: Link)
    requires Enabled(w, Probe(l))
    ensures Cheaper(w, Apply(w, Probe(l)))
  {
    ProbeWeight(w, l, WORK);
    ProbeWeight(w, l, OWED);
  }

  lemma DeliverCheaper(w: World, e: Event)
    requires Enabled(w, e) && e.Deliver?
    ensures Cheaper(w, Apply(w, e))
  {
    DeliverWeight(w, e, WORK);
    DeliverWeight(w, e, OWED);
  }

  lemma AnswerCheaper(w: World, a: Key)
    requires Enabled(w, Answer(a))
    ensures Cheaper(w, Apply(w, Answer(a)))
  {
    AnswerWeight(w, a, WORK);
    AnswerWeight(w, a, OWED);
  }

  lemma SettleCheaper(w: World, a: Key)
    requires Enabled(w, Settle(a))
    ensures Cheaper(w, Apply(w, Settle(a)))
  {
    SettleWeight(w, a, WORK);
    SettleWeight(w, a, OWED);
  }

  lemma DropCheaper(w: World, m: Msg)
    requires Enabled(w, Drop(m))
    ensures Cheaper(w, Apply(w, Drop(m)))
  {
    DropWeight(w, m, WORK);
    DropWeight(w, m, OWED);
  }

  /** From any state at all, every send, delivery, drop, look and section of the read loop uses up work; only a
      discovery or a duplication can bring new work. */
  lemma EveryStepIsCheaper(w: World, e: Event)
    requires Enabled(w, e) && !e.Find? && !e.Duplicate?
    ensures Cheaper(w, Apply(w, e))
  {
    match e
    case Look(l) => LookCheaper(w, l);
    case Probe(l) => ProbeCheaper(w, l);
    case Deliver(_, _) => DeliverCheaper(w, e);
    case Answer(a) => AnswerCheaper(w, a);
    case Settle(a) => SettleCheaper(w, a);
    case Drop(m) => DropCheaper(w, m);
  }

  /** A duplication leaves the sender's history alone and adds what one packet can still cause. */
  lemma DuplicateWeight(w: World, m: Msg, x: Weights)
    requires Enabled(w, Duplicate(m))
    ensures Weight(Apply(w, Duplicate(m)), x) == Weight(w, x) + x.msg(m)
  {
    SumBagAdd(w.net, x.msg, m);
  }

  /** The packets sent and owed, given the number of duplications. */
  ghost predicate WithinBudget(w: World, duplications: nat) {
    |w.sent| + Weight(w, OWED) <= 780 * |w.probers| + 2 * duplications
  }

  lemma FindBudget(w: World, e: Event, d: nat)
    requires Accounted(w) && WithinBudget(w, d) && Enabled(w, e) && e.Find? && Probes(w.nodes[e.a], e.b)
    ensures WithinBudget(Apply(w, e), d)
  {
    FindAccounted(w, e);
    FindWeight(w, e, OWED);
    FindShape(w, e);
    assert OWED.node(Discover(w.nodes[e.a], e.b, e.freshSid)) == OWED.node(w.nodes[e.a]);
  }

  lemma DuplicateBudget(w: World, m: Msg, d: nat)
    requires WithinBudget(w, d) && Enabled(w, Duplicate(m))
    ensures WithinBudget(Apply(w, Duplicate(m)), d + 1)
  {
    DuplicateWeight(w, m, OWED);
    assert OWED.msg(m) <= 2;
  }

  lemma BudgetStep(w: World, e: Event, d: nat)
    requires Accounted(w) && WithinBudget(w, d) && Enabled(w, e)
    ensures WithinBudget(Apply(w, e), d + if e.Duplicate? then 1 else 0)
  {
    if e.Find? {
      if Probes(w.nodes[e.a], e.b) {
        FindBudget(w, e, d);
      }
    } else if e.Duplicate? {
      DuplicateBudget(w, e.m, d);
    } else {
      EveryStepIsCheaper(w, e);
      SameProbers(w, e);
    }
  }

  lemma {:induction false} BudgetRun(w0: World, run: seq<Event>)
    requires Init(w0) && Possible(w0, run)
    ensures WithinBudget(After(w0, run), Duplications(run))
  {
    if run == [] {
      NewNodesWeigh0(w0.nodes, OWED.node);
    } else {
      var before := run[..|run| - 1];
      AccountedRun(w0, before);
      BudgetRun(w0, before);
      BudgetStep(After(w0, before), run[|run| - 1], Duplications(before));
    }
  }

  /** In every run, all packets of all kinds ever written number at most three times 260 for each endpoint that some
      node has tried, and two more for each packet the network duplicated. */
  lemma PacketBound(w0: World, run: seq<Event>)
    requires Init(w0) && Possible(w0, run)
    ensures |After(w0, run).sent| <= 3 * 260 * TriedEndpoints(After(w0, run)) + 2 * Duplications(run)
  {
    BudgetRun(w0, run);
    AccountedRun(w0, run);
  }

  // ----- termination -----

  function Steps(run: seq<Event>): nat {
    if run == [] then 0
    else Steps(run[..|run| - 1]) + (if run[|run| - 1].Find? then 0 else 1)
  }

  lemma WorkStep(w: World, e: Event)
    requires Accounted(w) && Enabled(w, e)
    ensures Weight(Apply(w, e), WORK) + (if e.Find? then 0 else 1) + 2341 * |w.probers|
            <= Weight(w, WORK) + 2341 * |Apply(w, e).probers| + (if e.Duplicate? then 8 else 0)
  {
    if e.Find? {
      if Probes(w.nodes[e.a], e.b) {
        FindAccounted(w, e);
        FindWeight(w, e, WORK);
      }
    } else if e.Duplicate? {
      DuplicateWeight(w, e.m, WORK);
      assert WORK.msg(e.m) <= 7;
    } else {
      EveryStepIsCheaper(w, e);
      SameProbers(w, e);
    }
  }

  lemma {:induction false} WorkRun(w0: World, run: seq<Event>)
    requires Init(w0) && Possible(w0, run)
    ensures Steps(run) + Weight(After(w0, run), WORK) <= 2341 * |After(w0, run).probers| + 8 * Duplications(run)
  {
    if run == [] {
      NewNodesWeigh0(w0.nodes, WORK.node);
    } else {
      var before := run[..|run| - 1];
      AccountedRun(w0, before);
      WorkRun(w0, before);
      WorkStep(After(w0, before), run[|run| - 1]);
    }
  }

  /** The protocol falls silent: whatever the schedule, a run has at most 2341 steps for each endpoint some node has
      tried and eight for each duplication, besides the discoveries themselves. */
  lemma RunsAreBounded(w0: World, run: seq<Event>)
    requires Init(w0) && Possible(w0, run)
    ensures Steps(run) <= 2341 * TriedEndpoints(After(w0, run)) + 8 * Duplications(run)
  {
    WorkRun(w0, run);
    AccountedRun(w0, run);
  }
}
