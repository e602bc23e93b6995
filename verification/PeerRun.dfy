/** One node of the DHT program over whole runs, with packets from anywhere: the read loop, discoveries, and the
    confirmation handlers it starts, which run in any order. */
module PeerRun {
  import opened Text
  import opened Endpoint
  import opened PunchPacket
  import opened PunchNode
  import opened PeerTable

  /** The room, and the VPN prefix derived from the room and a public key if that succeeds. */
  datatype Config = Config(room: string, derive: string -> Option<string>)

  /** A running call of handleConfirmedPeer. */
  datatype Job = Job(remote: Option<Payload>, endpointKey: string, raddr: UdpAddr)

  datatype Arrival = Arrival(from: Key, sig: Signal)

  /** A started handler and the number of packets that had arrived by then. */
  datatype Handed = Handed(job: Job, upTo: nat)

  datatype Sys = Sys(
    node: Node,
    raddr: UdpAddr,         // sender of the packet the read loop holds
    jobs: multiset<Job>,    // handlers that have not yet entered their critical section
    peers: Peers,
    clock: Time,
    log: seq<Arrival>,      // history: all packets
    handed: seq<Handed>,    // history: all handlers started
    done: set<Key>)         // history: endpoints whose handler has finished

  datatype Event =
    | Packet(raddr: UdpAddr, sig: Signal, freshSid: string)
    | Write
    | Settle
    | Find(k: Key, freshSid: string)
    | Handle(job: Job, seen: Time, at: Readings, best: string)

  datatype Admission = Admission(pub: string, allowedIP: string, key: string, em: Meta)

  /** The part of handleConfirmedPeer before its critical section. */
  function Admit(cfg: Config, job: Job, seen: Time): Option<Admission> {
    if job.remote.None? then None
    else
      var remote := job.remote.value;
      if TrimSpace(remote.room) != "" && TrimSpace(remote.room) != cfg.room then None
      else
        var pub := TrimSpace(remote.wgPub);
        if pub == "" then None
        else
          match (cfg.derive(pub), UdpAddrKey(job.raddr))
          case (Some(allowedIP), Some(keyed)) =>
            Some(Admission(pub, allowedIP, keyed.key, Meta(keyed.ip, keyed.port, seen, None, 0)))
          case _ => None
  }

  ghost predicate Init(s: Sys) {
    s.node == NEW_NODE && s.jobs == multiset{} && s.peers == map[] && s.log == [] && s.handed == [] && s.done == {}
  }

  ghost predicate Enabled(cfg: Config, s: Sys, e: Event) {
    match e
    case Packet(raddr, _, _) => s.node.reader.Idle? && To4(raddr.ip).Some?
    case Write => s.node.reader.Answering?
    case Settle => s.node.reader.Confirming?
    case Find(_, _) => true
    case Handle(job, seen, at, best) =>
      && job in s.jobs
      && s.clock <= at.add <= at.best <= at.since <= at.mark
      && match Admit(cfg, job, seen)
         case None => true
         case Some(a) => IsBest(Added(s.peers, a.pub, a.allowedIP, a.key, a.em, at)[a.pub].candidates, at.best, best)
  }

  function Apply(cfg: Config, s: Sys, e: Event): Sys
    requires Enabled(cfg, s, e)
  {
    match e
    case Packet(raddr, sig, freshSid) =>
      s.(node := Receive(s.node, AddrText(raddr), sig, freshSid), raddr := raddr,
         log := s.log + [Arrival(AddrText(raddr), sig)])
    case Write => s.(node := Answered(s.node))
    case Settle =>
      var n := Confirm(s.node);
      if |n.started| == |s.node.started| then s.(node := n)
      else
        var job := Job(n.started[|n.started| - 1].remote, s.node.reader.from, s.raddr);
        s.(node := n, jobs := s.jobs + multiset{job}, handed := s.handed + [Handed(job, |s.log|)])
    case Find(k, freshSid) => s.(node := Discover(s.node, k, freshSid))
    case Handle(job, seen, at, best) =>
      var peers :=
        match Admit(cfg, job, seen)
        case None => s.peers
        case Some(a) => Confirmed(s.peers, a.pub, a.allowedIP, a.key, a.em, best, at);
      s.(jobs := s.jobs - multiset{job}, peers := peers, clock := at.mark, done := s.done + {job.endpointKey})
  }

  ghost predicate Possible(cfg: Config, s: Sys, run: seq<Event>)
    decreases |run|, 0
  {
    run == [] ||
    (var before := run[..|run| - 1]; Possible(cfg, s, before) && Enabled(cfg, After(cfg, s, before), run[|run| - 1]))
  }

  ghost function After(cfg: Config, s: Sys, run: seq<Event>): Sys
    requires Possible(cfg, s, run)
    decreases |run|, 1
  {
    if run == [] then s else Apply(cfg, After(cfg, s, run[..|run| - 1]), run[|run| - 1])
  }

  // ----- identities -----

  /** The payloads of the packets that came from k, in order. */
  function From(log: seq<Arrival>, k: Key): seq<Option<Payload>> {
    if log == [] then []
    else
      var before := From(log[..|log| - 1], k);
      if log[|log| - 1].from == k then before + [log[|log| - 1].sig.payload] else before
  }

  predicate Remembers(s: Sys, k: Key) {
    (if k in s.node.pending then s.node.pending[k].remote else None) == MergeAll(From(s.log, k))
  }

  /** A handler got what had been merged when the confirming packet was the last to have arrived. */
  predicate HandedRight(log: seq<Arrival>, h: Handed) {
    && 0 < h.upTo <= |log|
    && log[h.upTo - 1].from == h.job.endpointKey
    && log[h.upTo - 1].sig.kind in {Reply, Ack}
    && h.job.remote == MergeAll(From(log[..h.upTo], h.job.endpointKey))
  }

  ghost predicate Merged(s: Sys) {
    && (forall k :: Remembers(s, k))
    && (s.node.reader.Answering? ==> s.node.reader.sig.kind in {Hello, Reply})
    && (s.node.reader.Confirming? ==> s.node.reader.sig.kind in {Reply, Ack})
    && (!s.node.reader.Idle? ==> s.log != [] && s.log[|s.log| - 1] == Arrival(s.node.reader.from, s.node.reader.sig))
    && (forall i :: 0 <= i < |s.handed| ==> HandedRight(s.log, s.handed[i]))
  }

  lemma MergeAllSnoc(got: seq<Option<Payload>>, p: Option<Payload>)
    ensures MergeAll(got + [p]) == if p.Some? then MergePayload(MergeAll(got), p) else MergeAll(got)
  {
    assert (got + [p])[..|got|] == got;
  }

  lemma RemembersPacket(n: Node, log: seq<Arrival>, from: Key, sig: Signal, freshSid: string, k: Key)
    requires (if k in n.pending then n.pending[k].remote else None) == MergeAll(From(log, k))
    ensures var n', log' := Receive(n, from, sig, freshSid), log + [Arrival(from, sig)];
            (if k in n'.pending then n'.pending[k].remote else None) == MergeAll(From(log', k))
  {
    var log' := log + [Arrival(from, sig)];
    assert log'[..|log'| - 1] == log;
    RemoteAfterReceive(n, from, sig, freshSid, k);
    if k == from {
      MergeAllSnoc(From(log, k), sig.payload);
    }
  }

  lemma MergedPacket(cfg: Config, s: Sys, e: Event)
    requires Merged(s) && Enabled(cfg, s, e) && e.Packet?
    ensures Merged(Apply(cfg, s, e))
  {
    var s' := Apply(cfg, s, e);
    forall k ensures Remembers(s', k) {
      assert Remembers(s, k);
      RemembersPacket(s.node, s.log, AddrText(e.raddr), e.sig, e.freshSid, k);
    }
    forall i | 0 <= i < |s'.handed| ensures HandedRight(s'.log, s'.handed[i]) {
      assert HandedRight(s.log, s.handed[i]);
      assert s'.log[..s.handed[i].upTo] == s.log[..s.handed[i].upTo];
    }
  }

  lemma MergedSettle(cfg: Config, s: Sys)
    requires Merged(s) && Enabled(cfg, s, Settle)
    ensures Merged(Apply(cfg, s, Settle))
  {
    var s' := Apply(cfg, s, Settle);
    assert Remembers(s, s.node.reader.from);
    assert s.log[..|s.log|] == s.log;
    forall k ensures Remembers(s', k) { assert Remembers(s, k); }
  }

  lemma MergedStep(cfg: Config, s: Sys, e: Event)
    requires Merged(s) && Enabled(cfg, s, e)
    ensures Merged(Apply(cfg, s, e))
  {
    if e.Packet? {
      MergedPacket(cfg, s, e);
    } else if e.Settle? {
      MergedSettle(cfg, s);
    } else {
      var s' := Apply(cfg, s, e);
      assert s'.log == s.log && s'.handed == s.handed;
      forall k ensures Remembers(s', k) { assert Remembers(s, k); }
    }
  }

  lemma {:induction false} MergedRun(cfg: Config, s0: Sys, run: seq<Event>)
    requires Init(s0) && Possible(cfg, s0, run)
    ensures Merged(After(cfg, s0, run))
  {
    if run != [] {
      MergedRun(cfg, s0, run[..|run| - 1]);
      MergedStep(cfg, After(cfg, s0, run[..|run| - 1]), run[|run| - 1]);
    }
  }

  /** Every handler ever started was given, field by field, the last visible value among the packets that had come
      from its endpoint, the last of which is the reply or acknowledgement that confirmed it. */
  lemma HandlersGetTheLastVisible(cfg: Config, s0: Sys, run: seq<Event>, i: nat)
    requires Init(s0) && Possible(cfg, s0, run) && i < |After(cfg, s0, run).handed|
    ensures var s := After(cfg, s0, run);
            var h := s.handed[i];
            && 0 < h.upTo <= |s.log|
            && s.log[h.upTo - 1].from == h.job.endpointKey && s.log[h.upTo - 1].sig.kind in {Reply, Ack}
            && (var got := From(s.log[..h.upTo], h.job.endpointKey);
                var wgPub, room := LastVisible(got, (p: Payload) => p.wgPub), LastVisible(got, (p: Payload) => p.room);
                h.job.remote == if wgPub == "" && room == "" then None else Some(Payload(wgPub, room)))
  {
    MergedRun(cfg, s0, run);
    var s := After(cfg, s0, run);
    assert HandedRight(s.log, s.handed[i]);
    MergeAllIsLastVisible(From(s.log[..s.handed[i].upTo], s.handed[i].job.endpointKey));
  }

  // ----- once per endpoint -----

  /** A running handler belongs to a confirmed endpoint that has not been handled. */
  predicate JobOk(confirmed: set<Key>, done: set<Key>, j: Job) {
    && To4(j.raddr.ip).Some? && j.endpointKey == AddrText(j.raddr)
    && j.endpointKey in confirmed && j.endpointKey !in done
  }

  ghost predicate JobsOnce(jobs: multiset<Job>, confirmed: set<Key>, done: set<Key>) {
    && (forall j :: j in jobs ==> JobOk(confirmed, done, j) && jobs[j] == 1)
    && (forall i, j :: i in jobs && j in jobs && i.endpointKey == j.endpointKey ==> i == j)
    && done <= confirmed
  }

  predicate ReaderOk(r: Reader, raddr: UdpAddr) {
    !r.Idle? ==> To4(raddr.ip).Some? && r.from == AddrText(raddr)
  }

  ghost predicate HandedOnce(handed: seq<Handed>, confirmed: set<Key>) {
    && (forall i :: 0 <= i < |handed| ==> handed[i].job.endpointKey in confirmed)
    && (forall i, j :: 0 <= i < j < |handed| ==> handed[i].job.endpointKey != handed[j].job.endpointKey)
  }

  /** Candidates come from finished handlers, and no endpoint belongs to two public keys. */
  ghost predicate CandidatesApart(peers: Peers, done: set<Key>) {
    && (forall pub :: CandidatesOf(peers, pub).Keys <= done)
    && (forall p, q, k :: k in CandidatesOf(peers, p) && k in CandidatesOf(peers, q) ==> p == q)
  }

  ghost predicate Good(s: Sys) {
    && JobsOnce(s.jobs, s.node.confirmed, s.done)
    && ReaderOk(s.node.reader, s.raddr)
    && HandedOnce(s.handed, s.node.confirmed)
    && CandidatesApart(s.peers, s.done)
    && TableOk(s.peers)
  }

  lemma KeyVisible(host: string, port: string)
    ensures JoinHostPort(host, port) != ""
  {
  }

  /** The endpoint a handler files is new to every peer, so addCandidate never updates an existing entry. */
  lemma HandlerFilesNewEndpoint(cfg: Config, s: Sys, e: Event)
    requires Good(s) && Enabled(cfg, s, e) && e.Handle? && Admit(cfg, e.job, e.seen).Some?
    ensures var a := Admit(cfg, e.job, e.seen).value;
            && a.key == e.job.endpointKey
            && NewEndpoint(s.peers, a.pub, a.key, a.em)
            && (forall q :: q in s.peers ==> a.key !in s.peers[q].candidates)
  {
    KeysAgree(e.job.raddr);
    assert JobOk(s.node.confirmed, s.done, e.job);
    assert forall q :: q in s.peers ==> CandidatesOf(s.peers, q) == s.peers[q].candidates;
    KeyVisible(Ipv4Text(To4(e.job.raddr.ip).value), Decimal.FormatInt(e.job.raddr.port));
  }

  lemma HandleShape(cfg: Config, s: Sys, e: Event)
    requires Good(s) && Enabled(cfg, s, e) && e.Handle?
    ensures Admit(cfg, e.job, e.seen).None? ==> Apply(cfg, s, e).peers == s.peers
    ensures Admit(cfg, e.job, e.seen).Some? ==>
              var a := Admit(cfg, e.job, e.seen).value;
              && a.key == e.job.endpointKey && NewEndpoint(s.peers, a.pub, a.key, a.em)
              && a.key !in CandidatesOf(s.peers, a.pub)
              && IsBest(Added(s.peers, a.pub, a.allowedIP, a.key, a.em, e.at)[a.pub].candidates, e.at.best, e.best)
              && Apply(cfg, s, e).peers == Confirmed(s.peers, a.pub, a.allowedIP, a.key, a.em, e.best, e.at)
  {
    if Admit(cfg, e.job, e.seen).Some? {
      HandlerFilesNewEndpoint(cfg, s, e);
    }
  }

  /** How the critical section changes the candidates of each public key. */
  lemma HandleCandidates(cfg: Config, s: Sys, e: Event, q: string)
    requires Good(s) && Enabled(cfg, s, e) && e.Handle?
    ensures var a, r := Admit(cfg, e.job, e.seen), Apply(cfg, s, e).peers;
            && TableOk(r)
            && CandidatesOf(r, q).Keys ==
                 CandidatesOf(s.peers, q).Keys + (if a.Some? && q == a.value.pub then {e.job.endpointKey} else {})
            && (a.Some? && q == a.value.pub ==> e.job.endpointKey !in CandidatesOf(s.peers, q))
            && (!(a.Some? && q == a.value.pub) ==> ActiveOf(r, q) == ActiveOf(s.peers, q))
  {
    HandleShape(cfg, s, e);
    if Admit(cfg, e.job, e.seen).Some? {
      var a := Admit(cfg, e.job, e.seen).value;
      ConfirmedKeepsTable(s.peers, a.pub, a.allowedIP, a.key, a.em, e.best, e.at);
      ConfirmedCandidates(s.peers, a.pub, a.allowedIP, a.key, a.em, e.best, e.at, q);
    }
  }

  lemma HandleApart(cfg: Config, s: Sys, e: Event)
    requires Good(s) && Enabled(cfg, s, e) && e.Handle?
    ensures CandidatesApart(Apply(cfg, s, e).peers, s.done + {e.job.endpointKey}) && TableOk(Apply(cfg, s, e).peers)
  {
    forall q ensures var r := Apply(cfg, s, e).peers;
                     && CandidatesOf(r, q).Keys <= CandidatesOf(s.peers, q).Keys + {e.job.endpointKey}
                     && (e.job.endpointKey in CandidatesOf(r, q) ==>
                           Admit(cfg, e.job, e.seen).Some? && q == Admit(cfg, e.job, e.seen).value.pub)
    {
      HandleCandidates(cfg, s, e, q);
      assert JobOk(s.node.confirmed, s.done, e.job);
    }
    HandleCandidates(cfg, s, e, "");
  }

  lemma JobLeaves(jobs: multiset<Job>, confirmed: set<Key>, done: set<Key>, job: Job)
    requires JobsOnce(jobs, confirmed, done) && job in jobs
    ensures JobsOnce(jobs - multiset{job}, confirmed, done + {job.endpointKey})
  {
    assert JobOk(confirmed, done, job);
    assert jobs[job] == 1;
    forall j | j in jobs - multiset{job} ensures JobOk(confirmed, done + {job.endpointKey}, j) {
      assert JobOk(confirmed, done, j);
    }
  }

  lemma JobEnters(jobs: multiset<Job>, confirmed: set<Key>, done: set<Key>, job: Job)
    requires JobsOnce(jobs, confirmed, done) && job.endpointKey !in confirmed
    requires To4(job.raddr.ip).Some? && job.endpointKey == AddrText(job.raddr)
    ensures JobsOnce(jobs + multiset{job}, confirmed + {job.endpointKey}, done)
  {
    forall j | j in jobs ensures JobOk(confirmed + {job.endpointKey}, done, j) && j.endpointKey != job.endpointKey {
      assert JobOk(confirmed, done, j);
    }
  }

  lemma GoodHandle(cfg: Config, s: Sys, e: Event)
    requires Good(s) && Enabled(cfg, s, e) && e.Handle?
    ensures Good(Apply(cfg, s, e))
  {
    HandleApart(cfg, s, e);
    JobLeaves(s.jobs, s.node.confirmed, s.done, e.job);
  }

  lemma SettleShape(cfg: Config, s: Sys)
    requires Enabled(cfg, s, Settle)
    ensures var s', k := Apply(cfg, s, Settle), s.node.reader.from;
            && s'.node.reader == Idle && s'.node.confirmed == s.node.confirmed + {k}
            && s'.peers == s.peers && s'.done == s.done
            && (k in s.node.confirmed ==> s'.jobs == s.jobs && s'.handed == s.handed)
            && (k !in s.node.confirmed ==>
                  var job := Job(Confirm(s.node).started[|s.node.started|].remote, k, s.raddr);
                  s'.jobs == s.jobs + multiset{job} && s'.handed == s.handed + [Handed(job, |s.log|)])
  {
  }

  lemma GoodSettleAgain(cfg: Config, s: Sys)
    requires Good(s) && Enabled(cfg, s, Settle) && s.node.reader.from in s.node.confirmed
    ensures Good(Apply(cfg, s, Settle))
  {
    SettleShape(cfg, s);
    assert s.node.confirmed + {s.node.reader.from} == s.node.confirmed;
  }

  lemma HandedGrows(handed: seq<Handed>, confirmed: set<Key>, h: Handed)
    requires HandedOnce(handed, confirmed) && h.job.endpointKey !in confirmed
    ensures HandedOnce(handed + [h], confirmed + {h.job.endpointKey})
  {
  }

  /** The handler that the first confirmation of an endpoint starts. */
  function NewJob(s: Sys): Job
    requires s.node.reader.Confirming? && s.node.reader.from !in s.node.confirmed
  {
    Job(Confirm(s.node).started[|s.node.started|].remote, s.node.reader.from, s.raddr)
  }

  lemma GoodSettleFirst(cfg: Config, s: Sys)
    requires Good(s) && Enabled(cfg, s, Settle) && s.node.reader.from !in s.node.confirmed
    ensures Good(Apply(cfg, s, Settle))
  {
    var job := NewJob(s);
    SettleShape(cfg, s);
    JobEnters(s.jobs, s.node.confirmed, s.done, job);
    HandedGrows(s.handed, s.node.confirmed, Handed(job, |s.log|));
  }

  lemma GoodStep(cfg: Config, s: Sys, e: Event)
    requires Good(s) && Enabled(cfg, s, e)
    ensures Good(Apply(cfg, s, e))
  {
    if e.Handle? {
      GoodHandle(cfg, s, e);
    } else if e.Settle? {
      if s.node.reader.from in s.node.confirmed {
        GoodSettleAgain(cfg, s);
      } else {
        GoodSettleFirst(cfg, s);
      }
    } else {
      assert Apply(cfg, s, e).node.confirmed == s.node.confirmed;
    }
  }

  lemma {:induction false} GoodRun(cfg: Config, s0: Sys, run: seq<Event>)
    requires Init(s0) && Possible(cfg, s0, run)
    ensures Good(After(cfg, s0, run))
  {
    if run != [] {
      GoodRun(cfg, s0, run[..|run| - 1]);
      GoodStep(cfg, After(cfg, s0, run[..|run| - 1]), run[|run| - 1]);
    }
  }

  /** Whatever packets arrive, in any run: each endpoint starts at most one handler, and after every step each peer's
      active endpoint is one of its candidates, all of which have succeeded and never failed, and no endpoint is a
      candidate of two public keys. */
  lemma PeersStayGood(cfg: Config, s0: Sys, run: seq<Event>)
    requires Init(s0) && Possible(cfg, s0, run)
    ensures var s := After(cfg, s0, run);
            && (forall i, j :: 0 <= i < j < |s.handed| ==> s.handed[i].job.endpointKey != s.handed[j].job.endpointKey)
            && (forall pub :: pub in s.peers ==>
                  && s.peers[pub].active in s.peers[pub].candidates
                  && forall k :: k in s.peers[pub].candidates ==>
                       s.peers[pub].candidates[k].failCount == 0 && s.peers[pub].candidates[k].lastSuccess.Some?)
            && (forall p, q, k ::
                  p in s.peers && q in s.peers && k in s.peers[p].candidates && k in s.peers[q].candidates ==> p == q)
  {
    GoodRun(cfg, s0, run);
    var peers := After(cfg, s0, run).peers;
    assert forall q :: q in peers ==> CandidatesOf(peers, q) == peers[q].candidates && PeerOk(peers[q]);
  }

  /** At every critical section a run can reach: the endpoint is new, so only the insertion branch of addCandidate
      runs, and a best endpoint exists, so the "no best endpoint" exit is not taken. */
  lemma UnreachableBranches(cfg: Config, s0: Sys, run: seq<Event>, e: Event)
    requires Init(s0) && Possible(cfg, s0, run)
    requires Enabled(cfg, After(cfg, s0, run), e) && e.Handle? && Admit(cfg, e.job, e.seen).Some?
    ensures var s, a := After(cfg, s0, run), Admit(cfg, e.job, e.seen).value;
            a.key !in CandidatesOf(s.peers, a.pub) && e.best != ""
  {
    GoodRun(cfg, s0, run);
    var s, a := After(cfg, s0, run), Admit(cfg, e.job, e.seen).value;
    HandlerFilesNewEndpoint(cfg, s, e);
    BestExists(s.peers, a.pub, a.allowedIP, a.key, a.em, e.best, e.at);
  }

  // ----- fail-over -----

  /** Along any run, an active endpoint a gives way to b only in the critical section of a handler of that peer, and
      only if a last succeeded more than 45 seconds ago and b scores highest; and if b is the endpoint being
      confirmed, nothing of the peer succeeded within the last two minutes. */
  lemma FailoverNeedsSilence(cfg: Config, s0: Sys, run: seq<Event>, e: Event, pub: string)
    requires Init(s0) && Possible(cfg, s0, run) && Enabled(cfg, After(cfg, s0, run), e)
    requires var s := After(cfg, s0, run);
             ActiveOf(s.peers, pub) != "" && ActiveOf(Apply(cfg, s, e).peers, pub) != ActiveOf(s.peers, pub)
    ensures var s := After(cfg, s0, run);
            var a, b, known := ActiveOf(s.peers, pub), ActiveOf(Apply(cfg, s, e).peers, pub),
                CandidatesOf(s.peers, pub);
            && e.Handle? && Admit(cfg, e.job, e.seen).Some? && Admit(cfg, e.job, e.seen).value.pub == pub
            && b == e.best
            && a in known && known[a].lastSuccess.Some?
            && e.at.since - known[a].lastSuccess.value > 45_000_000_000
            && (b == e.job.endpointKey ==> forall k :: k in known ==>
                  known[k].lastSuccess.Some? && e.at.best - known[k].lastSuccess.value >= 120_000_000_000)
            && (b != e.job.endpointKey ==>
                  b in known && forall k :: k in known ==> Score(known[k], e.at.best) <= Score(known[b], e.at.best))
  {
    GoodRun(cfg, s0, run);
    var s := After(cfg, s0, run);
    if e.Handle? {
      HandleCandidates(cfg, s, e, pub);
      HandleShape(cfg, s, e);
      var a := Admit(cfg, e.job, e.seen).value;
      FailoverRule(s.peers, a.pub, a.allowedIP, a.key, a.em, e.best, e.at);
      assert PeerOk(s.peers[pub]);
    } else {
      PeersFrame(cfg, s, e);
    }
  }

  lemma PeersFrame(cfg: Config, s: Sys, e: Event)
    requires Enabled(cfg, s, e) && !e.Handle?
    ensures Apply(cfg, s, e).peers == s.peers
  {
  }

  /** How often the active endpoint of pub changed, its first setting included. */
  ghost function ActiveChanges(cfg: Config, s0: Sys, run: seq<Event>, pub: string): nat
    requires Possible(cfg, s0, run)
    decreases |run|
  {
    if run == [] then 0
    else
      var before := run[..|run| - 1];
      ActiveChanges(cfg, s0, before, pub)
      + (if ActiveOf(After(cfg, s0, run).peers, pub) != ActiveOf(After(cfg, s0, before).peers, pub) then 1 else 0)
  }

  lemma ChangeAddsCandidate(cfg: Config, s: Sys, e: Event, pub: string)
    requires Good(s) && Enabled(cfg, s, e)
    ensures var s' := Apply(cfg, s, e);
            var before, after := |CandidatesOf(s.peers, pub)|, |CandidatesOf(s'.peers, pub)|;
            before <= after && (ActiveOf(s'.peers, pub) != ActiveOf(s.peers, pub) ==> after == before + 1)
  {
    if e.Handle? {
      HandleCandidates(cfg, s, e, pub);
      assert |CandidatesOf(s.peers, pub)| == |CandidatesOf(s.peers, pub).Keys|;
      var r := Apply(cfg, s, e).peers;
      assert |CandidatesOf(r, pub)| == |CandidatesOf(r, pub).Keys|;
    } else {
      PeersFrame(cfg, s, e);
    }
  }

  /** The active endpoint of a peer changes at most as often as the peer has candidates. */
  lemma {:induction false} ChangesBounded(cfg: Config, s0: Sys, run: seq<Event>, pub: string)
    requires Init(s0) && Possible(cfg, s0, run)
    ensures ActiveChanges(cfg, s0, run, pub) <= |CandidatesOf(After(cfg, s0, run).peers, pub)|
  {
    if run != [] {
      var before := run[..|run| - 1];
      GoodRun(cfg, s0, before);
      ChangesBounded(cfg, s0, before, pub);
      ChangeAddsCandidate(cfg, After(cfg, s0, before), run[|run| - 1], pub);
    }
  }
}
