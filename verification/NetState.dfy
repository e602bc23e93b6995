/** The shared state of the DHT program as the objects it is made of (dht/state.go, and the critical sections of
    dht/udp_logic.go and dht/dht_logic.go). Every clock reading is a parameter. */
module NetState {
  import opened Text
  import opened Endpoint
  import opened PunchPacket
  import opened PunchNode
  import opened PeerTable
  import PeerRun
  import Uapi

  lemma ValuesInsert<K, V>(m: map<K, V>, k: K, v: V)
    requires k !in m
    ensures m[k := v].Values == m.Values + {v}
  {
    forall x | x in m.Values ensures x in m[k := v].Values {
      var q :| q in m && m[q] == x;
      assert m[k := v][q] == x;
    }
    assert m[k := v][k] == v;
  }

  class EndpointMeta {
    var ip: seq<Byte>
    var port: int
    var lastSeen: Time
    var lastSuccess: Option<Time>
    var failCount: int
    ghost var owner: string  // the public key and the endpoint key under which it is filed
    ghost var key: string

    function View(): Meta
      reads this
    {
      Meta(ip, port, lastSeen, lastSuccess, failCount)
    }

    constructor (ip: seq<Byte>, port: int, lastSeen: Time)
      ensures View() == Meta(ip, port, lastSeen, None, 0)
    {
      this.ip, this.port, this.lastSeen := ip, port, lastSeen;
      lastSuccess, failCount := None, 0;
    }
  }

  class PeerState {
    const pubKey: string
    var allowedIP: string
    var candidates: map<string, EndpointMeta>
    var active: string

    constructor (pubKey: string, allowedIP: string)
      ensures this.pubKey == pubKey && this.allowedIP == allowedIP && candidates == map[] && active == ""
    {
      this.pubKey, this.allowedIP, candidates, active := pubKey, allowedIP, map[], "";
    }

    ghost function View(): Peer
      reads this, candidates.Values
    {
      Peer(allowedIP, map k | k in candidates :: candidates[k].View(), active)
    }
  }

  class NetState {
    var peersByPub: map<string, PeerState>
    var pendingByEndpoint: map<string, Pending>
    var confirmedEndpoint: set<string>
    var triedByEndpoint: set<string>

    constructor ()
      ensures Valid() && Table() == map[] && NodeView() == NEW_NODE
      ensures fresh(Footprint())
    {
      peersByPub, pendingByEndpoint, confirmedEndpoint, triedByEndpoint := map[], map[], {}, {};
    }

    ghost function Metas(): set<EndpointMeta>
      reads this, peersByPub.Values
    {
      set p, k | p in peersByPub.Values && k in p.candidates :: p.candidates[k]
    }

    ghost function Footprint(): set<object>
      reads this, peersByPub.Values
    {
      {this} + peersByPub.Values + Metas()
    }

    /** Every peer and every candidate is filed in exactly one place. */
    ghost predicate Valid()
      reads this, peersByPub.Values, Metas()
    {
      && (forall pub :: pub in peersByPub ==> peersByPub[pub].pubKey == pub)
      && (forall pub, k :: pub in peersByPub && k in peersByPub[pub].candidates ==>
            peersByPub[pub].candidates[k].owner == pub && peersByPub[pub].candidates[k].key == k)
    }

    ghost function Table(): Peers
      reads this, peersByPub.Values, Metas()
    {
      map pub | pub in peersByPub :: peersByPub[pub].View()
    }

    ghost function NodeView(): Node
      reads this
    {
      Node(pendingByEndpoint, confirmedEndpoint, triedByEndpoint, Idle, [])
    }

    /** Peers that did not change, and whose candidates did not, look the same. */
    twostate lemma SameView(p: PeerState)
      requires unchanged(p) && unchanged(p.candidates.Values)
      ensures p.View() == old(p.View())
    {
      forall k | k in p.candidates ensures p.candidates[k].View() == old(p.candidates[k].View()) {
        assert p.candidates[k] in p.candidates.Values;
      }
    }

    method FilePeer(pub: string, allowed: string) returns (p: PeerState)
      requires Valid() && pub !in peersByPub
      modifies this`peersByPub
      ensures Valid() && fresh(p)
      ensures peersByPub == old(peersByPub)[pub := p]
      ensures Footprint() == old(Footprint()) + {p} && Metas() == old(Metas())
      ensures Table() == old(Table())[pub := Peer(allowed, map[], "")]
    {
      p := new PeerState(pub, allowed);
      peersByPub := peersByPub[pub := p];
      ValuesInsert(old(peersByPub), pub, p);
      forall q | q in old(peersByPub) ensures peersByPub[q].View() == old(peersByPub[q].View()) {
        SameView(peersByPub[q]);
      }
      FiledTable(pub, p);
    }

    /** A new peer without candidates leaves every other peer as it was. */
    twostate lemma FiledTable(pub: string, new p: PeerState)
      requires pub !in old(peersByPub) && peersByPub == old(peersByPub)[pub := p]
      requires peersByPub.Values == old(peersByPub.Values) + {p}
      requires forall q :: q in old(peersByPub.Values) ==> q.candidates == old(q.candidates)
      requires forall q :: q in old(peersByPub) ==> peersByPub[q].View() == old(peersByPub[q].View())
      requires p.candidates == map[] && p.active == ""
      ensures Metas() == old(Metas())
      ensures Table() == old(Table())[pub := Peer(p.allowedIP, map[], "")]
    {
      assert p.View() == Peer(p.allowedIP, map[], "");
      forall m | m in old(Metas()) ensures m in Metas() {
        var q, k :| q in old(peersByPub.Values) && k in old(q.candidates) && old(q.candidates[k]) == m;
        assert q in peersByPub.Values;
      }
    }

    method GetOrCreatePeer(pub: string, allowed: string) returns (p: PeerState)
      requires Valid()
      modifies this`peersByPub, peersByPub.Values
      ensures Valid() && fresh(Footprint() - old(Footprint())) && Metas() == old(Metas())
      ensures Table() == GetOrCreate(old(Table()), pub, allowed)
      ensures pub in peersByPub && p == peersByPub[pub] && Metas() == old(Metas())
    {
      if pub !in peersByPub {
        p := FilePeer(pub, allowed);
      } else {
        p := peersByPub[pub];
        FillAllowedIP(p, allowed);
      }
    }

    method FillAllowedIP(p: PeerState, allowed: string)
      requires Valid() && p.pubKey in peersByPub && peersByPub[p.pubKey] == p
      modifies p`allowedIP
      ensures Valid() && Metas() == old(Metas())
      ensures Table() == GetOrCreate(old(Table()), p.pubKey, allowed)
    {
      if p.allowedIP == "" && allowed != "" {
        p.allowedIP := allowed;
        OneRow(p.pubKey);
        assert p.View().candidates == old(p.View()).candidates;
      }
    }

    /** When only the entries of one peer were written, only its row of the table changes. */
    twostate lemma OneRow(pub: string)
      requires old(Valid()) && pub in old(peersByPub) && peersByPub == old(peersByPub)
      requires forall q :: q in old(peersByPub) && q != pub ==>
                 unchanged(peersByPub[q]) &&
                   forall k :: k in peersByPub[q].candidates ==> unchanged(peersByPub[q].candidates[k])
      ensures Table() == old(Table())[pub := peersByPub[pub].View()]
    {
      forall q | q in old(peersByPub) && q != pub ensures peersByPub[q].View() == old(peersByPub[q].View()) {
        assert unchanged(peersByPub[q].candidates.Values);
        SameView(peersByPub[q]);
      }
    }

    /** When only one entry of one peer was written, only that entry of the table changes. */
    twostate lemma OneCandidate(pub: string, new key: string)
      requires old(Valid()) && pub in old(peersByPub) && peersByPub == old(peersByPub)
      requires unchanged(peersByPub[pub]) && key in peersByPub[pub].candidates
      requires forall k :: k in peersByPub[pub].candidates && k != key ==> unchanged(peersByPub[pub].candidates[k])
      requires forall q :: q in old(peersByPub) && q != pub ==>
                 unchanged(peersByPub[q]) &&
                   forall k :: k in peersByPub[q].candidates ==> unchanged(peersByPub[q].candidates[k])
      ensures Table() == old(Table())[pub := old(Table())[pub].(candidates :=
                old(Table())[pub].candidates[key := peersByPub[pub].candidates[key].View()])]
    {
      OneRow(pub);
      var p := peersByPub[pub];
      assert forall k :: k in p.candidates && k != key ==> p.candidates[k].View() == old(p.candidates[k].View());
      assert p.View().candidates == old(p.View()).candidates[key := p.candidates[key].View()];
    }

    /** The new entry of a peer is filed under its keys. */
    method FileCandidate(p: PeerState, key: string, em: EndpointMeta)
      requires Valid() && p.pubKey in peersByPub && peersByPub[p.pubKey] == p
      requires key !in p.candidates && em !in Metas()
      modifies p`candidates, em`owner, em`key
      ensures Valid() && Metas() == old(Metas()) + {em}
      ensures Table() == old(Table())[p.pubKey :=
              old(p.View()).(candidates := old(p.View()).candidates[key := old(em.View())])]
    {
      p.candidates := p.candidates[key := em];
      em.owner := p.pubKey;
      em.key := key;
      OneRow(p.pubKey);
      FiledMeta(p, key, em);
      forall k | k in old(p.candidates) ensures p.candidates[k].View() == old(p.candidates[k].View()) {
        assert old(p.candidates[k]) in old(Metas());
      }
      assert p.View().candidates == old(p.View()).candidates[key := old(em.View())];
    }

    twostate lemma FiledMeta(p: PeerState, new key: string, new em: EndpointMeta)
      requires peersByPub == old(peersByPub) && p in peersByPub.Values
      requires key !in old(p.candidates) && p.candidates == old(p.candidates)[key := em]
      requires forall q :: q in peersByPub.Values && q != p ==> q.candidates == old(q.candidates)
      ensures Metas() == old(Metas()) + {em}
    {
      assert p.candidates[key] == em;
      forall m | m in old(Metas()) ensures m in Metas() {
        var q, k :| q in peersByPub.Values && k in old(q.candidates) && old(q.candidates[k]) == m;
        assert q.candidates[k] == m;
      }
    }

    method RefreshCandidate(p: PeerState, key: string, em: EndpointMeta, now: Time)
      requires Valid() && p.pubKey in peersByPub && peersByPub[p.pubKey] == p
      requires key in p.candidates && em !in Metas()
      modifies p.candidates[key]
      ensures Valid() && Metas() == old(Metas())
      ensures var was := old(Table())[p.pubKey];
              Table() == old(Table())[p.pubKey :=
                was.(candidates := was.candidates[key := Refreshed(was.candidates[key], em.View(), now)])]
    {
      var ex := p.candidates[key];
      assert p in peersByPub.Values && ex in Metas();
      ex.lastSeen := now;
      ex.ip := em.ip;
      ex.port := em.port;
      OneCandidate(p.pubKey, key);
    }

    method PutCandidate(p: PeerState, key: string, em: EndpointMeta, now: Time)
      requires Valid() && p.pubKey in peersByPub && peersByPub[p.pubKey] == p
      requires em !in Metas()
      modifies p`candidates, Metas(), em
      ensures Valid() && Metas() <= old(Metas()) + {em}
      ensures Table() == PeerTable.PutCandidate(old(Table()), p.pubKey, key, old(em.View()), now)
    {
      assert Table()[p.pubKey] == p.View();
      if key !in p.candidates {
        FileCandidate(p, key, em);
        return;
      }
      assert p in peersByPub.Values && p.candidates[key] in Metas();
      RefreshCandidate(p, key, em, now);
    }

    method AddCandidate(pub: string, allowed: string, key: string, em: EndpointMeta, now: Time)
      requires Valid() && em !in Metas()
      modifies Footprint(), em
      ensures Valid() && fresh(Footprint() - old(Footprint()) - {em})
      ensures Table() == PeerTable.AddCandidate(old(Table()), pub, allowed, key, old(em.View()), now)
      ensures NodeView() == old(NodeView())
    {
      var p := GetOrCreatePeer(pub, allowed);
      PutCandidate(p, key, em, now);
    }

    /** The loop over the candidates takes them in an arbitrary order. */
    method BestCandidateKey(p: PeerState, now: Time) returns (bestKey: string)
      ensures IsBest(p.View().candidates, now, bestKey)
    {
      bestKey := "";
      var bestScore := -1;
      var rest := p.candidates.Keys;
      ghost var all := p.View().candidates;
      while rest != {}
        invariant rest <= p.candidates.Keys
        invariant bestScore == -1 ==> bestKey == "" && forall k :: k in all.Keys - rest ==> Score(all[k], now) < 0
        invariant bestScore != -1 ==>
                    && bestScore >= 0 && bestKey in all && Score(all[bestKey], now) == bestScore
                    && forall k :: k in all.Keys - rest ==> Score(all[k], now) <= bestScore
        decreases |rest|
      {
        var k :| k in rest;
        rest := rest - {k};
        var em := p.candidates[k];
        var score := 0;
        if em.lastSuccess.Some? {
          var age := now - em.lastSuccess.value;
          if age < THIRTY_SECONDS {
            score := score + 50;
          } else if age < TWO_MINUTES {
            score := score + 10;
          }
        }
        score := score - em.failCount * 20;
        assert score == Score(all[k], now);
        if score > bestScore {
          bestScore := score;
          bestKey := k;
        }
      }
    }

    method ShouldSwitchEndpoint(p: PeerState, newKey: string, now: Time) returns (b: bool)
      ensures b == ShouldSwitch(p.View(), newKey, now)
    {
      if newKey == "" {
        return false;
      }
      if p.active == "" {
        return true;
      }
      if p.active == newKey {
        return false;
      }
      if newKey !in p.candidates {
        return false;
      }
      if p.active !in p.candidates {
        return true;
      }
      var cur := p.candidates[p.active];
      if cur.lastSuccess.None? {
        return true;
      }
      if now - cur.lastSuccess.value > FAILOVER_AFTER {
        return true;
      }
      return false;
    }

    method MarkSuccess(pub: string, endpointKey: string, now: Time)
      requires Valid()
      modifies Metas()
      ensures Valid() && Metas() == old(Metas())
      ensures Table() == PeerTable.MarkSuccess(old(Table()), pub, endpointKey, now)
    {
      if pub !in peersByPub {
        return;
      }
      var p := peersByPub[pub];
      if endpointKey !in p.candidates {
        return;
      }
      var em := p.candidates[endpointKey];
      assert p in peersByPub.Values && em in Metas();
      em.lastSuccess := Some(now);
      em.failCount := 0;
      OneCandidate(pub, endpointKey);
    }

    /** Setting the active endpoint. */
    method Activate(p: PeerState, key: string)
      requires Valid() && p.pubKey in peersByPub && peersByPub[p.pubKey] == p
      modifies p`active
      ensures Valid() && Metas() == old(Metas())
      ensures Table() == old(Table())[p.pubKey := old(Table())[p.pubKey].(active := key)]
    {
      p.active := key;
      OneRow(p.pubKey);
      assert p.View().candidates == old(p.View()).candidates;
    }

    method Decide(p: PeerState, at: Readings) returns (bestKey: string, switchNow: bool)
      requires p.pubKey in peersByPub && peersByPub[p.pubKey] == p
      ensures IsBest(Table()[p.pubKey].candidates, at.best, bestKey)
      ensures switchNow == SwitchNow(Table()[p.pubKey], bestKey, at)
    {
      assert Table()[p.pubKey] == p.View();
      bestKey := BestCandidateKey(p, at.best);
      if p.active == "" {
        switchNow := true;
      } else {
        switchNow := ShouldSwitchEndpoint(p, bestKey, at.since);
      }
    }

    /** The middle of the critical section: the best candidate of p, made active if the rule says so. */
    method SwitchIfDue(p: PeerState, at: Readings) returns (bestKey: string, switchNow: bool)
      requires Valid() && p.pubKey in peersByPub && peersByPub[p.pubKey] == p
      modifies p`active
      ensures Valid() && Metas() == old(Metas())
      ensures IsBest(old(Table())[p.pubKey].candidates, at.best, bestKey)
      ensures switchNow == SwitchNow(old(Table())[p.pubKey], bestKey, at)
      ensures Table() ==
              if switchNow then old(Table())[p.pubKey := old(Table())[p.pubKey].(active := bestKey)] else old(Table())
    {
      bestKey, switchNow := Decide(p, at);
      if switchNow {
        Activate(p, bestKey);
      }
    }

    /** The first part of the critical section: the endpoint is filed and its peer looked up. */
    method AddToPeer(pub: string, allowedIP: string, endpointKey: string, em: EndpointMeta, at: Readings)
        returns (p: PeerState)
      requires Valid() && em !in Metas()
      modifies Footprint(), em
      ensures Valid() && fresh(Footprint() - old(Footprint()) - {em})
      ensures Table() == Added(old(Table()), pub, allowedIP, endpointKey, old(em.View()), at)
      ensures p.pubKey == pub && pub in peersByPub && peersByPub[pub] == p
      ensures NodeView() == old(NodeView())
    {
      AddCandidate(pub, allowedIP, endpointKey, em, at.add);
      p := GetOrCreatePeer(pub, allowedIP);
    }

    /** The critical section of handleConfirmedPeer: the endpoint is added, the best one is looked for, the active
        one is switched if the rule says so, and the confirmed one is marked. */
    method ConfirmPeer(pub: string, allowedIP: string, endpointKey: string, em: EndpointMeta, at: Readings)
        returns (bestKey: string, switchNow: bool)
      requires Valid() && em !in Metas()
      modifies Footprint(), em
      ensures Valid() && fresh(Footprint() - old(Footprint()) - {em})
      ensures var p := Added(old(Table()), pub, allowedIP, endpointKey, old(em.View()), at)[pub];
              IsBest(p.candidates, at.best, bestKey) && switchNow == SwitchNow(p, bestKey, at)
      ensures Table() == Confirmed(old(Table()), pub, allowedIP, endpointKey, old(em.View()), bestKey, at)
      ensures NodeView() == old(NodeView())
    {
      var p := AddToPeer(pub, allowedIP, endpointKey, em, at);
      bestKey, switchNow := SwitchIfDue(p, at);
      MarkSuccess(pub, endpointKey, at.mark);
    }

    /** The checks of handleConfirmedPeer before its critical section. */
    method AdmitPeer(cfg: PeerRun.Config, job: PeerRun.Job, seen: Time) returns (a: Option<PeerRun.Admission>)
      ensures a == PeerRun.Admit(cfg, job, seen)
    {
      if job.remote.None? {
        return None;
      }
      var remote := job.remote.value;
      if TrimSpace(remote.room) != "" && TrimSpace(remote.room) != cfg.room {
        return None;
      }
      var pub := TrimSpace(remote.wgPub);
      if pub == "" {
        return None;
      }
      var allowedIP := cfg.derive(pub);
      if allowedIP.None? {
        return None;
      }
      var keyed := UdpAddrKey(job.raddr);
      if keyed.None? {
        return None;
      }
      return Some(PeerRun.Admission(pub, allowedIP.value, keyed.value.key,
                                    Meta(keyed.value.ip, keyed.value.port, seen, None, 0)));
    }

    /** handleConfirmedPeer: what it does to the table is one handler step of a run. It calls wgUpsertPeer with the best
        endpoint exactly when that has just become the active one, and WireGuard is configured with what that prints,
        if anything; the table keeps the endpoint as active even when wgUpsertPeer refuses it. */
    method HandleConfirmedPeer(cfg: PeerRun.Config, v: Uapi.Validators, job: PeerRun.Job, seen: Time, at: Readings)
        returns (bestKey: string, asked: bool, configured: Option<Uapi.Entry>)
      requires Valid()
      modifies Footprint()
      ensures Valid()
      ensures match PeerRun.Admit(cfg, job, seen)
              case None => Table() == old(Table()) && !asked && configured == None
              case Some(a) =>
                var before := Added(old(Table()), a.pub, a.allowedIP, a.key, a.em, at)[a.pub];
                && IsBest(before.candidates, at.best, bestKey)
                && Table() == Confirmed(old(Table()), a.pub, a.allowedIP, a.key, a.em, bestKey, at)
                && asked == (bestKey != "" && SwitchNow(before, bestKey, at))
                && configured == if asked then Uapi.EntryOf(v, Uapi.Upsert(a.pub, a.allowedIP, bestKey)) else None
      ensures NodeView() == old(NodeView())
    {
      bestKey, asked, configured := "", false, None;
      var a := AdmitPeer(cfg, job, seen);
      if a.Some? {
        bestKey, asked := InstallPeer(a.value, at);
        if asked {
          configured := Uapi.EntryOf(v, Uapi.Upsert(a.value.pub, a.value.allowedIP, bestKey));
        }
      }
    }

    method InstallPeer(a: PeerRun.Admission, at: Readings) returns (bestKey: string, asked: bool)
      requires Valid() && a.em == Meta(a.em.ip, a.em.port, a.em.lastSeen, None, 0)
      modifies Footprint()
      ensures Valid()
      ensures var before := Added(old(Table()), a.pub, a.allowedIP, a.key, a.em, at)[a.pub];
              && IsBest(before.candidates, at.best, bestKey)
              && Table() == Confirmed(old(Table()), a.pub, a.allowedIP, a.key, a.em, bestKey, at)
              && asked == (bestKey != "" && SwitchNow(before, bestKey, at))
      ensures NodeView() == old(NodeView())
    {
      var em := new EndpointMeta(a.em.ip, a.em.port, a.em.lastSeen);
      var switchNow;
      bestKey, switchNow := ConfirmPeer(a.pub, a.allowedIP, a.key, em, at);
      asked := bestKey != "" && switchNow;
    }

    // ----- the protocol state -----

    /** First section of an iteration of the read loop. */
    method Register(from: string, sig: Signal, freshSid: string)
      modifies this`pendingByEndpoint
      ensures NodeView() == Receive(old(NodeView()), from, sig, freshSid).(reader := Idle)
    {
      if from !in pendingByEndpoint {
        pendingByEndpoint := pendingByEndpoint[from := Pending(freshSid, None)];
      }
      if sig.payload.Some? {
        var ps := pendingByEndpoint[from];
        var merged := MergeInto(ps.remote, sig.payload);
        pendingByEndpoint := pendingByEndpoint[from := ps.(remote := merged)];
      }
    }

    /** Second section: whether this packet is the first confirmation, and what is known of the sender by then. */
    method ConfirmEndpoint(from: string, ghost sig: Signal) returns (handler: Option<Handler>)
      modifies this`confirmedEndpoint
      ensures confirmedEndpoint == old(confirmedEndpoint) + {from}
      ensures handler == if from in old(confirmedEndpoint) then None
                         else Some(Handler(from, if from in pendingByEndpoint then pendingByEndpoint[from].remote
                                                 else None))
      ensures NodeView() == Confirm(old(NodeView()).(reader := Confirming(from, sig))).(started := [])
      ensures Confirm(old(NodeView()).(reader := Confirming(from, sig))).started
        == if handler.Some? then [handler.value] else []
    {
      handler := None;
      if from !in confirmedEndpoint {
        confirmedEndpoint := confirmedEndpoint + {from};
        var remote := if from in pendingByEndpoint then pendingByEndpoint[from].remote else None;
        handler := Some(Handler(from, remote));
      }
    }

    /** An iteration of the read loop on a hole-punch packet, undisturbed by other goroutines: it answers a HELLO with a
        REPLY and a REPLY with an ACK under the same session id, and a REPLY or an ACK confirms the sender, which
        starts a handler the first time. */
    method HandlePacket(from: string, sig: Signal, freshSid: string, identity: Option<Payload>)
        returns (written: Option<Signal>, handler: Option<Handler>)
      modifies this`pendingByEndpoint, this`confirmedEndpoint
      ensures sig.kind == Hello ==> written == Some(Signal(Reply, sig.sid, identity))
      ensures sig.kind == Reply ==> written == Some(Signal(Ack, sig.sid, identity))
      ensures sig.kind == Ack || sig.kind == Other ==> written == None
      ensures confirmedEndpoint ==
                if sig.kind == Reply || sig.kind == Ack then old(confirmedEndpoint) + {from} else old(confirmedEndpoint)
      ensures handler.Some? <==> (sig.kind == Reply || sig.kind == Ack) && from !in old(confirmedEndpoint)
      ensures from in pendingByEndpoint
      ensures handler.Some? ==> handler.value == Handler(from, pendingByEndpoint[from].remote)
      ensures forall k :: k != from ==> (k in pendingByEndpoint <==> k in old(pendingByEndpoint))
      ensures forall k :: k != from && k in pendingByEndpoint ==> pendingByEndpoint[k] == old(pendingByEndpoint)[k]
      ensures var was :=
                if from in old(pendingByEndpoint) then old(pendingByEndpoint)[from] else Pending(freshSid, None);
              pendingByEndpoint[from] ==
                if sig.payload.None? then was else Pending(was.sid, MergePayload(was.remote, sig.payload))
      ensures var r := Receive(old(NodeView()), from, sig, freshSid);
              var a := if r.reader.Answering? then Answered(r) else r;
              var c := if a.reader.Confirming? then Confirm(a) else a;
              && NodeView() == c.(started := [])
              && c.started == (if handler.Some? then [handler.value] else [])
              && written == if r.reader.Answering? then Some(AnswerTo(sig, identity)) else None
    {
      Register(from, sig, freshSid);
      written, handler := None, None;
      match sig.kind {
        case Hello =>
          written := Some(Signal(Reply, sig.sid, identity));
        case Reply =>
          written := Some(Signal(Ack, sig.sid, identity));
          handler := ConfirmEndpoint(from, sig);
        case Ack =>
          handler := ConfirmEndpoint(from, sig);
        case Other =>
      }
    }

    /** handleDiscoveredFromDHT up to the start of its goroutine: an IPv4 endpoint with a port, other than the node's
        own, is probed exactly when it is neither confirmed nor tried; it is tried from then on, and the session id to
        use is the one it is filed under, which is fresh if it was not filed. */
    method HandleDiscovered(ip: seq<Byte>, port: int, publicIP: string, wgPort: int, freshSid: string)
        returns (target: Option<(string, string)>)
      modifies this`pendingByEndpoint, this`triedByEndpoint
      ensures IsTarget(ip, port, publicIP, wgPort) <==>
                To4(ip).Some? && 1 <= port <= 65535 &&
                (publicIP == "" || Ipv4Text(To4(ip).value) != publicIP || port != wgPort)
      ensures target.None? ==> NodeView() == old(NodeView())
      ensures target.Some? <==>
                IsTarget(ip, port, publicIP, wgPort) &&
                var key := EndpointKey(To4(ip).value, port);
                key !in old(confirmedEndpoint) && key !in old(triedByEndpoint)
      ensures target.Some? ==>
                var key := EndpointKey(To4(ip).value, port);
                && key in pendingByEndpoint && target.value == (key, pendingByEndpoint[key].sid)
                && triedByEndpoint == old(triedByEndpoint) + {key}
                && pendingByEndpoint == (if key in old(pendingByEndpoint) then old(pendingByEndpoint)
                                         else old(pendingByEndpoint)[key := Pending(freshSid, None)])
      ensures IsTarget(ip, port, publicIP, wgPort) ==>
                var key := EndpointKey(To4(ip).value, port);
                && NodeView() == Discover(old(NodeView()), key, freshSid)
                && (target.Some? <==> Probes(old(NodeView()), key))
    {
      var ip4 := To4(ip);
      if ip4.None? {
        return None;
      }
      var host := Ipv4Text(ip4.value);
      if port < 1 || port > 65535 {
        return None;
      }
      if publicIP != "" && host == publicIP && port == wgPort {
        return None;
      }
      var key := JoinHostPort(host, Decimal.FormatInt(port));
      if key in confirmedEndpoint || key in triedByEndpoint {
        return None;
      }
      triedByEndpoint := triedByEndpoint + {key};
      if key !in pendingByEndpoint {
        pendingByEndpoint := pendingByEndpoint[key := Pending(freshSid, None)];
      }
      return Some((key, pendingByEndpoint[key].sid));
    }
  }

  /** An IPv4 endpoint other than the node's own, as far as the node knows its public address. */
  predicate IsTarget(ip: seq<Byte>, port: int, publicIP: string, wgPort: int) {
    && To4(ip).Some? && 1 <= port <= 65535
    && !(publicIP != "" && Ipv4Text(To4(ip).value) == publicIP && port == wgPort)
  }

  /** The sending loop of a prober, given what each look at confirmedEndpoint finds: it sends one probe per look that
      finds nothing, and stops at the first confirmation or after 260 probes. */
  method ProbeLoop(confirmed: nat -> bool) returns (sent: nat)
    ensures sent <= 260
    ensures forall i :: 0 <= i < sent ==> !confirmed(i)
    ensures sent < 260 ==> confirmed(sent)
  {
    sent := 0;
    for i := 0 to 260
      invariant sent == i
      invariant forall j :: 0 <= j < i ==> !confirmed(j)
    {
      if confirmed(i) {
        return;
      }
      sent := sent + 1;
    }
  }
}
