/** Exactly which endpoints a node files under which public key, over whole runs. */
module PeerFiled {
  import opened Text
  import opened Endpoint
  import opened PunchNode
  import opened PeerTable
  import opened PeerRun

  /** What a handler's packet must say to be filed under pub: the node's own room or none, and a key that has a VPN
      address; and its sender must have a port. */
  predicate Belongs(cfg: Config, j: Job, pub: string) {
    && j.remote.Some?
    && (Blank(j.remote.value.room) || TrimSpace(j.remote.value.room) == cfg.room)
    && pub != "" && pub == TrimSpace(j.remote.value.wgPub)
    && cfg.derive(pub).Some?
    && 1 <= j.raddr.port <= 65535
  }

  lemma AdmitExactly(cfg: Config, j: Job, seen: Time, pub: string)
    requires To4(j.raddr.ip).Some?
    ensures Belongs(cfg, j, pub) <==> Admit(cfg, j, seen).Some? && Admit(cfg, j, seen).value.pub == pub
    ensures Belongs(cfg, j, pub) ==>
              Admit(cfg, j, seen).value == Admission(pub, cfg.derive(pub).value, AddrText(j.raddr),
                                                     Meta(To4(j.raddr.ip).value, j.raddr.port, seen, None, 0))
  {
    KeysAgree(j.raddr);
  }

  predicate StartedAs(cfg: Config, h: Handed, k: Key, pub: string) {
    h.job.endpointKey == k && Belongs(cfg, h.job, pub)
  }

  /** A handler for k was started with a payload that belongs to pub. */
  ghost predicate Introduced(cfg: Config, handed: seq<Handed>, k: Key, pub: string) {
    exists i :: 0 <= i < |handed| && StartedAs(cfg, handed[i], k, pub)
  }

  ghost predicate Started(handed: seq<Handed>, j: Job) {
    exists i :: 0 <= i < |handed| && handed[i].job == j
  }

  ghost predicate StartedFor(handed: seq<Handed>, k: Key) {
    exists i :: 0 <= i < |handed| && handed[i].job.endpointKey == k
  }

  predicate RunsFor(jobs: multiset<Job>, h: Handed) {
    h.job in jobs
  }

  ghost predicate JobsStarted(jobs: multiset<Job>, handed: seq<Handed>) {
    forall j :: j in jobs ==> Started(handed, j)
  }

  ghost predicate RunOrDone(jobs: multiset<Job>, handed: seq<Handed>, done: set<Key>) {
    forall i :: 0 <= i < |handed| ==> RunsFor(jobs, handed[i]) || handed[i].job.endpointKey in done
  }

  ghost predicate FiledAsIntroduced(cfg: Config, peers: Peers, handed: seq<Handed>, done: set<Key>) {
    forall pub, k :: k in CandidatesOf(peers, pub) <==> k in done && Introduced(cfg, handed, k, pub)
  }

  /** Every handler started is running or done, nothing else is, and the done ones are filed as they should be. */
  ghost predicate FiledExactly(cfg: Config, s: Sys) {
    JobsStarted(s.jobs, s.handed) && RunOrDone(s.jobs, s.handed, s.done)
    && FiledAsIntroduced(cfg, s.peers, s.handed, s.done)
  }

  /** No endpoint is handed over twice, so only its own handler introduces it. */
  lemma IntroducedBy(cfg: Config, s: Sys, j: Job, pub: string)
    requires HandedOnce(s.handed, s.node.confirmed) && Started(s.handed, j)
    ensures Introduced(cfg, s.handed, j.endpointKey, pub) <==> Belongs(cfg, j, pub)
  {
    var i :| 0 <= i < |s.handed| && s.handed[i].job == j;
    if Introduced(cfg, s.handed, j.endpointKey, pub) {
      var q :| 0 <= q < |s.handed| && StartedAs(cfg, s.handed[q], j.endpointKey, pub);
      assert q == i;
    }
    if Belongs(cfg, j, pub) {
      assert StartedAs(cfg, s.handed[i], j.endpointKey, pub);
    }
  }

  lemma HandleLeaves(cfg: Config, s: Sys, e: Event)
    requires Enabled(cfg, s, e) && e.Handle?
    ensures var s' := Apply(cfg, s, e);
            s'.jobs == s.jobs - multiset{e.job} && s'.handed == s.handed && s'.done == s.done + {e.job.endpointKey}
  {
  }

  /** The section files the endpoint of its job under the key the job belongs to, and nothing else. */
  lemma HandleAdds(cfg: Config, s: Sys, e: Event, pub: string)
    requires Good(s) && Enabled(cfg, s, e) && e.Handle?
    ensures CandidatesOf(Apply(cfg, s, e).peers, pub).Keys
         == CandidatesOf(s.peers, pub).Keys + (if Belongs(cfg, e.job, pub) then {e.job.endpointKey} else {})
    ensures e.job.endpointKey !in s.done
  {
    assert JobOk(s.node.confirmed, s.done, e.job);
    AdmitExactly(cfg, e.job, e.seen, pub);
    HandleCandidates(cfg, s, e, pub);
  }

  lemma HandleFiles(cfg: Config, s: Sys, e: Event, pub: string, k: Key)
    requires Good(s) && FiledExactly(cfg, s) && Enabled(cfg, s, e) && e.Handle?
    ensures k in CandidatesOf(Apply(cfg, s, e).peers, pub)
       <==> k in s.done + {e.job.endpointKey} && Introduced(cfg, s.handed, k, pub)
  {
    HandleAdds(cfg, s, e, pub);
    IntroducedBy(cfg, s, e.job, pub);
    assert k in CandidatesOf(s.peers, pub).Keys <==> k in s.done && Introduced(cfg, s.handed, k, pub);
  }

  lemma JobDone(jobs: multiset<Job>, handed: seq<Handed>, done: set<Key>, job: Job)
    requires JobsStarted(jobs, handed) && RunOrDone(jobs, handed, done) && job in jobs
    ensures JobsStarted(jobs - multiset{job}, handed)
    ensures RunOrDone(jobs - multiset{job}, handed, done + {job.endpointKey})
  {
    forall i | 0 <= i < |handed|
      ensures RunsFor(jobs - multiset{job}, handed[i]) || handed[i].job.endpointKey in done + {job.endpointKey}
    {
      assert RunsFor(jobs, handed[i]) || handed[i].job.endpointKey in done;
    }
  }

  lemma JobStarts(jobs: multiset<Job>, handed: seq<Handed>, done: set<Key>, h: Handed)
    requires JobsStarted(jobs, handed) && RunOrDone(jobs, handed, done)
    ensures JobsStarted(jobs + multiset{h.job}, handed + [h]) && RunOrDone(jobs + multiset{h.job}, handed + [h], done)
  {
    forall j | j in jobs + multiset{h.job} ensures Started(handed + [h], j) {
      if j in jobs {
        var i :| 0 <= i < |handed| && handed[i].job == j;
        assert (handed + [h])[i].job == j;
      } else {
        assert (handed + [h])[|handed|].job == j;
      }
    }
    forall i | 0 <= i < |handed + [h]|
      ensures RunsFor(jobs + multiset{h.job}, (handed + [h])[i]) || (handed + [h])[i].job.endpointKey in done
    {
      assert i < |handed| ==> RunsFor(jobs, handed[i]) || handed[i].job.endpointKey in done;
    }
  }

  lemma HandleFilesAll(cfg: Config, s: Sys, e: Event)
    requires Good(s) && FiledExactly(cfg, s) && Enabled(cfg, s, e) && e.Handle?
    ensures FiledAsIntroduced(cfg, Apply(cfg, s, e).peers, s.handed, s.done + {e.job.endpointKey})
  {
    var peers := Apply(cfg, s, e).peers;
    forall pub, k ensures k in CandidatesOf(peers, pub)
                     <==> k in s.done + {e.job.endpointKey} && Introduced(cfg, s.handed, k, pub) {
      HandleFiles(cfg, s, e, pub, k);
    }
  }

  lemma HandleFiledExactly(cfg: Config, s: Sys, e: Event)
    requires Good(s) && FiledExactly(cfg, s) && Enabled(cfg, s, e) && e.Handle?
    ensures FiledExactly(cfg, Apply(cfg, s, e))
  {
    HandleLeaves(cfg, s, e);
    JobDone(s.jobs, s.handed, s.done, e.job);
    HandleFilesAll(cfg, s, e);
  }

  lemma IntroducedLater(cfg: Config, handed: seq<Handed>, h: Handed, k: Key, pub: string)
    requires h.job.endpointKey != k
    ensures Introduced(cfg, handed + [h], k, pub) <==> Introduced(cfg, handed, k, pub)
  {
    if Introduced(cfg, handed, k, pub) {
      var i :| 0 <= i < |handed| && StartedAs(cfg, handed[i], k, pub);
      assert StartedAs(cfg, (handed + [h])[i], k, pub);
    }
  }

  lemma SettleFiledExactly(cfg: Config, s: Sys)
    requires Good(s) && FiledExactly(cfg, s) && Enabled(cfg, s, Settle)
    requires s.node.reader.from !in s.node.confirmed
    ensures FiledExactly(cfg, Apply(cfg, s, Settle))
  {
    var s' := Apply(cfg, s, Settle);
    SettleShape(cfg, s);
    var h := s'.handed[|s.handed|];
    JobStarts(s.jobs, s.handed, s.done, h);
    forall pub, k ensures k in CandidatesOf(s'.peers, pub) <==> k in s'.done && Introduced(cfg, s'.handed, k, pub) {
      if k in s.done {
        IntroducedLater(cfg, s.handed, h, k, pub);
      }
    }
  }

  lemma FiledFrame(cfg: Config, s: Sys, e: Event)
    requires Enabled(cfg, s, e) && !e.Handle? && !(e.Settle? && s.node.reader.from !in s.node.confirmed)
    ensures var s' := Apply(cfg, s, e);
            s'.jobs == s.jobs && s'.handed == s.handed && s'.done == s.done && s'.peers == s.peers
  {
  }

  lemma {:induction false} FiledExactlyRun(cfg: Config, s0: Sys, run: seq<Event>)
    requires Init(s0) && Possible(cfg, s0, run)
    ensures FiledExactly(cfg, After(cfg, s0, run))
  {
    if run != [] {
      var before, e := run[..|run| - 1], run[|run| - 1];
      var s := After(cfg, s0, before);
      GoodRun(cfg, s0, before);
      FiledExactlyRun(cfg, s0, before);
      if e.Handle? {
        HandleFiledExactly(cfg, s, e);
      } else if e.Settle? && s.node.reader.from !in s.node.confirmed {
        SettleFiledExactly(cfg, s);
      } else {
        FiledFrame(cfg, s, e);
      }
    }
  }

  /** The converse: every confirmed endpoint has had its handler started. */
  lemma {:induction false} ConfirmedWereHanded(cfg: Config, s0: Sys, run: seq<Event>)
    requires Init(s0) && Possible(cfg, s0, run)
    ensures forall k :: k in After(cfg, s0, run).node.confirmed ==> StartedFor(After(cfg, s0, run).handed, k)
  {
    if run != [] {
      var before, e := run[..|run| - 1], run[|run| - 1];
      var s, s' := After(cfg, s0, before), After(cfg, s0, run);
      ConfirmedWereHanded(cfg, s0, before);
      if e.Settle? {
        SettleShape(cfg, s);
      }
      forall k | k in s'.node.confirmed ensures StartedFor(s'.handed, k) {
        if k in s.node.confirmed {
          var i :| 0 <= i < |s.handed| && s.handed[i].job.endpointKey == k;
          assert s'.handed[i].job.endpointKey == k;
        } else {
          assert s'.handed[|s.handed|].job.endpointKey == k;
        }
      }
    }
  }

  /** Once the handlers have run, the peer table is exactly the confirmed endpoints, each filed under the public key
      that was merged for it, if that belongs in the room; nothing is lost, and nothing is invented. */
  lemma CandidatesAreExact(cfg: Config, s0: Sys, run: seq<Event>, pub: string, k: Key)
    requires Init(s0) && Possible(cfg, s0, run) && After(cfg, s0, run).jobs == multiset{}
    ensures var s := After(cfg, s0, run);
            k in CandidatesOf(s.peers, pub) <==> k in s.node.confirmed && Introduced(cfg, s.handed, k, pub)
  {
    var s := After(cfg, s0, run);
    GoodRun(cfg, s0, run);
    FiledExactlyRun(cfg, s0, run);
    ConfirmedWereHanded(cfg, s0, run);
    if k in s.node.confirmed {
      var i :| 0 <= i < |s.handed| && s.handed[i].job.endpointKey == k;
      assert RunsFor(s.jobs, s.handed[i]) || s.handed[i].job.endpointKey in s.done;
    }
  }
}
