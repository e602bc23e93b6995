/** Peers, their candidate endpoints and the fail-over rule as values (dht/state.go and the critical section of
    handleConfirmedPeer). Times are nanoseconds of a monotonic clock; a zero time.Time is None. */
module PeerTable {
  import opened Text
  import opened Endpoint

  type Time = int

  const THIRTY_SECONDS: Time := 30_000_000_000
  const FAILOVER_AFTER: Time := 45_000_000_000
  const TWO_MINUTES: Time := 120_000_000_000

  datatype Meta = Meta(ip: seq<Byte>, port: int, lastSeen: Time, lastSuccess: Option<Time>, failCount: int)

  datatype Peer = Peer(allowedIP: string, candidates: map<string, Meta>, active: string)

  /** peersByPub: the public key is the map key. */
  type Peers = map<string, Peer>

  function Score(m: Meta, now: Time): int {
    var recent :=
      if m.lastSuccess.None? then 0
      else if now - m.lastSuccess.value < THIRTY_SECONDS then 50
      else if now - m.lastSuccess.value < TWO_MINUTES then 10
      else 0;
    recent - m.failCount * 20
  }

  /** What bestCandidateKey may return: the map is ranged over in an unspecified order, and a score must exceed -1. */
  ghost predicate IsBest(candidates: map<string, Meta>, now: Time, best: string) {
    if best in candidates && Score(candidates[best], now) >= 0
    then forall k :: k in candidates ==> Score(candidates[k], now) <= Score(candidates[best], now)
    else best == "" && forall k :: k in candidates ==> Score(candidates[k], now) < 0
  }

  function GetOrCreate(peers: Peers, pub: string, allowed: string): Peers {
    if pub !in peers then peers[pub := Peer(allowed, map[], "")]
    else if peers[pub].allowedIP == "" && allowed != "" then peers[pub := peers[pub].(allowedIP := allowed)]
    else peers
  }

  /** A known endpoint keeps its successes and failures. */
  function Refreshed(ex: Meta, em: Meta, now: Time): Meta {
    ex.(lastSeen := now, ip := em.ip, port := em.port)
  }

  function PutCandidate(peers: Peers, pub: string, key: string, em: Meta, now: Time): Peers
    requires pub in peers
  {
    var p := peers[pub];
    var m := if key in p.candidates then Refreshed(p.candidates[key], em, now) else em;
    peers[pub := p.(candidates := p.candidates[key := m])]
  }

  function AddCandidate(peers: Peers, pub: string, allowed: string, key: string, em: Meta, now: Time): (r: Peers)
    ensures pub in r
  {
    PutCandidate(GetOrCreate(peers, pub, allowed), pub, key, em, now)
  }

  function ShouldSwitch(p: Peer, newKey: string, now: Time): bool {
    if newKey == "" then false
    else if p.active == "" then true
    else if p.active == newKey then false
    else if newKey !in p.candidates then false
    else if p.active !in p.candidates then true
    else if p.candidates[p.active].lastSuccess.None? then true
    else now - p.candidates[p.active].lastSuccess.value > FAILOVER_AFTER
  }

  function MarkSuccess(peers: Peers, pub: string, key: string, now: Time): Peers {
    if pub !in peers || key !in peers[pub].candidates then peers
    else
      var p := peers[pub];
      peers[pub := p.(candidates := p.candidates[key := p.candidates[key].(lastSuccess := Some(now), failCount := 0)])]
  }

  /** The clock readings inside one critical section, in order. */
  datatype Readings = Readings(add: Time, best: Time, since: Time, mark: Time)

  /** The table in which the best candidate is looked for. */
  function Added(peers: Peers, pub: string, allowed: string, key: string, em: Meta, at: Readings): (r: Peers)
    ensures pub in r
  {
    GetOrCreate(AddCandidate(peers, pub, allowed, key, em, at.add), pub, allowed)
  }

  function SwitchNow(p: Peer, best: string, at: Readings): bool {
    if p.active == "" then true else ShouldSwitch(p, best, at.since)
  }

  /** The rest of the section, on the table with the endpoint added. */
  function Finished(peers: Peers, pub: string, key: string, best: string, at: Readings): Peers
    requires pub in peers
  {
    var switched := if SwitchNow(peers[pub], best, at) then peers[pub := peers[pub].(active := best)] else peers;
    MarkSuccess(switched, pub, key, at.mark)
  }

  /** The critical section of handleConfirmedPeer, given the best candidate found in it. */
  function Confirmed(peers: Peers, pub: string, allowed: string, key: string, em: Meta,
                     best: string, at: Readings): Peers {
    Finished(Added(peers, pub, allowed, key, em, at), pub, key, best, at)
  }

  /** Among candidates that never failed, the best one is as recent as any: it succeeded within 30 seconds if some
      candidate did, and within two minutes if some candidate did. */
  lemma BestIsMostRecent(candidates: map<string, Meta>, now: Time, best: string, k: string)
    requires IsBest(candidates, now, best) && k in candidates
    requires forall q :: q in candidates ==> candidates[q].failCount == 0
    requires candidates[k].lastSuccess.Some?
    ensures best in candidates
    ensures now - candidates[k].lastSuccess.value < 120_000_000_000 ==>
              candidates[best].lastSuccess.Some? && now - candidates[best].lastSuccess.value < 120_000_000_000
    ensures now - candidates[k].lastSuccess.value < 30_000_000_000 ==>
              candidates[best].lastSuccess.Some? && now - candidates[best].lastSuccess.value < 30_000_000_000
  {
    assert Score(candidates[k], now) >= 0;
  }

  /** What a failure costs, in each band of recency. */
  lemma FailuresCost(m: Meta, now: Time)
    ensures var recent := m.lastSuccess.Some? && now - m.lastSuccess.value < 30_000_000_000;
            var known := m.lastSuccess.Some? && now - m.lastSuccess.value < 120_000_000_000;
            && Score(m.(failCount := 0), now) == (if recent then 50 else if known then 10 else 0)
            && Score(m.(failCount := m.failCount + 1), now) == Score(m, now) - 20
  {
  }

  /** The allowed address of a peer is set once and then kept, and nothing else of it changes. */
  lemma AllowedIsSetOnce(peers: Peers, pub: string, allowed: string)
    ensures var r := GetOrCreate(peers, pub, allowed);
            && r.Keys == peers.Keys + {pub}
            && (forall q :: q in peers && q != pub ==> r[q] == peers[q])
            && (pub !in peers ==> r[pub] == Peer(allowed, map[], ""))
            && (pub in peers ==> r[pub].candidates == peers[pub].candidates && r[pub].active == peers[pub].active)
            && (pub in peers && peers[pub].allowedIP != "" ==> r[pub].allowedIP == peers[pub].allowedIP)
            && (pub in peers && peers[pub].allowedIP == "" ==> r[pub].allowedIP == allowed)
  {
  }

  /** An endpoint that is added again gets the new address and time, and keeps its successes and failures. */
  lemma AddedAgain(peers: Peers, pub: string, allowed: string, key: string, em: Meta, now: Time)
    requires pub in peers && key in peers[pub].candidates
    ensures var was, r := peers[pub].candidates[key], AddCandidate(peers, pub, allowed, key, em, now)[pub];
            && r.candidates == peers[pub].candidates[key := r.candidates[key]]
            && r.candidates[key].ip == em.ip && r.candidates[key].port == em.port && r.candidates[key].lastSeen == now
            && r.candidates[key].lastSuccess == was.lastSuccess && r.candidates[key].failCount == was.failCount
    ensures forall at: Readings :: at.add == now ==>
              Added(peers, pub, allowed, key, em, at)[pub].candidates ==
              AddCandidate(peers, pub, allowed, key, em, now)[pub].candidates
  {
  }

  /** Exactly when an endpoint other than the active one takes over. */
  lemma SwitchExactly(p: Peer, newKey: string, now: Time)
    ensures ShouldSwitch(p, newKey, now) <==>
              && newKey != "" && newKey != p.active
              && (p.active == "" ||
                  (newKey in p.candidates &&
                   (p.active in p.candidates && p.candidates[p.active].lastSuccess.Some? ==>
                      now - p.candidates[p.active].lastSuccess.value > 45_000_000_000)))
  {
  }

  // ----- what every critical section keeps -----

  ghost predicate PeerOk(p: Peer) {
    && p.active in p.candidates
    && "" !in p.candidates
    && forall k :: k in p.candidates ==> p.candidates[k].failCount == 0 && p.candidates[k].lastSuccess.Some?
  }

  ghost predicate TableOk(peers: Peers) {
    forall pub :: pub in peers ==> PeerOk(peers[pub])
  }

  /** A new endpoint of pub, stamped but not yet tried. */
  predicate NewEndpoint(peers: Peers, pub: string, key: string, em: Meta) {
    && key != "" && em.lastSuccess.None? && em.failCount == 0
    && (pub in peers ==> key !in peers[pub].candidates)
  }

  function CandidatesOf(peers: Peers, pub: string): map<string, Meta> {
    if pub in peers then peers[pub].candidates else map[]
  }

  function ActiveOf(peers: Peers, pub: string): string {
    if pub in peers then peers[pub].active else ""
  }

  lemma AddedTable(peers: Peers, pub: string, allowed: string, key: string, em: Meta, at: Readings)
    requires NewEndpoint(peers, pub, key, em)
    ensures var p := Added(peers, pub, allowed, key, em, at)[pub];
            p.candidates == CandidatesOf(peers, pub)[key := em] && p.active == ActiveOf(peers, pub)
    ensures Added(peers, pub, allowed, key, em, at).Keys == peers.Keys + {pub}
    ensures forall q :: q in peers && q != pub ==> Added(peers, pub, allowed, key, em, at)[q] == peers[q]
  {
  }

  lemma FinishedRow(peers: Peers, pub: string, key: string, best: string, at: Readings)
    requires pub in peers && key in peers[pub].candidates
    ensures var p, r := peers[pub], Finished(peers, pub, key, best, at);
            && r.Keys == peers.Keys
            && (forall q :: q in peers && q != pub ==> r[q] == peers[q])
            && r[pub] == Peer(p.allowedIP,
                              p.candidates[key := p.candidates[key].(lastSuccess := Some(at.mark), failCount := 0)],
                              if SwitchNow(p, best, at) then best else p.active)
  {
  }

  /** In a good table a best candidate exists, so the handler never leaves through its "no best endpoint" exit. */
  lemma BestExists(peers: Peers, pub: string, allowed: string, key: string, em: Meta, best: string, at: Readings)
    requires TableOk(peers) && NewEndpoint(peers, pub, key, em)
    requires IsBest(Added(peers, pub, allowed, key, em, at)[pub].candidates, at.best, best)
    ensures best != "" && best in CandidatesOf(peers, pub)[key := em]
  {
    AddedTable(peers, pub, allowed, key, em, at);
    var cs := CandidatesOf(peers, pub)[key := em];
    assert key in cs && Score(cs[key], at.best) == 0;
    assert pub in peers ==> PeerOk(peers[pub]);
  }

  /** The three parts of the section after the candidate was added, put together. */
  lemma ConfirmedShape(peers: Peers, pub: string, allowed: string, key: string, em: Meta, best: string, at: Readings)
    requires NewEndpoint(peers, pub, key, em)
    ensures var p, r := Added(peers, pub, allowed, key, em, at)[pub], Confirmed(peers, pub, allowed, key, em, best, at);
            && r.Keys == peers.Keys + {pub}
            && (forall q :: q in peers && q != pub ==> r[q] == peers[q])
            && r[pub] == Peer(p.allowedIP,
                              CandidatesOf(peers, pub)[key := em.(lastSuccess := Some(at.mark))],
                              if SwitchNow(p, best, at) then best else ActiveOf(peers, pub))
  {
    AddedTable(peers, pub, allowed, key, em, at);
    FinishedRow(Added(peers, pub, allowed, key, em, at), pub, key, best, at);
    assert em.(lastSuccess := Some(at.mark), failCount := 0) == em.(lastSuccess := Some(at.mark));
  }

  lemma ConfirmedKeepsTable(peers: Peers, pub: string, allowed: string, key: string, em: Meta,
                             best: string, at: Readings)
    requires TableOk(peers) && NewEndpoint(peers, pub, key, em)
    requires IsBest(Added(peers, pub, allowed, key, em, at)[pub].candidates, at.best, best)
    ensures var r := Confirmed(peers, pub, allowed, key, em, best, at);
            && TableOk(r)
            && r.Keys == peers.Keys + {pub}
            && (forall q :: q in peers && q != pub ==> r[q] == peers[q])
            && CandidatesOf(r, pub) == CandidatesOf(peers, pub)[key := em.(lastSuccess := Some(at.mark))]
  {
    AddedTable(peers, pub, allowed, key, em, at);
    BestExists(peers, pub, allowed, key, em, best, at);
    ConfirmedShape(peers, pub, allowed, key, em, best, at);
    var r := Confirmed(peers, pub, allowed, key, em, best, at);
    assert pub in peers ==> PeerOk(peers[pub]);
    assert PeerOk(r[pub]);
    forall q | q in r && q != pub ensures PeerOk(r[q]) { assert PeerOk(peers[q]); }
  }

  /** One section adds the endpoint to its own peer and leaves every other peer alone. */
  lemma ConfirmedCandidates(peers: Peers, pub: string, allowed: string, key: string, em: Meta,
                             best: string, at: Readings,
                            q: string)
    requires TableOk(peers) && NewEndpoint(peers, pub, key, em)
    requires IsBest(Added(peers, pub, allowed, key, em, at)[pub].candidates, at.best, best)
    ensures var r := Confirmed(peers, pub, allowed, key, em, best, at);
            && CandidatesOf(r, q).Keys == CandidatesOf(peers, q).Keys + (if q == pub then {key} else {})
            && (q != pub ==> ActiveOf(r, q) == ActiveOf(peers, q))
  {
    ConfirmedKeepsTable(peers, pub, allowed, key, em, best, at);
    var r := Confirmed(peers, pub, allowed, key, em, best, at);
    if q == pub {
      assert CandidatesOf(peers, pub)[key := em.(lastSuccess := Some(at.mark))].Keys ==
           CandidatesOf(peers, pub).Keys + {key};
    } else {
      assert q in r <==> q in peers;
    }
  }

  /** The active endpoint leaves a for b only when a's last success is more than 45 seconds old and b scores highest;
      if b is the endpoint being confirmed, nothing of this peer has succeeded within the last two minutes. */
  lemma FailoverRule(peers: Peers, pub: string, allowed: string, key: string, em: Meta, best: string, at: Readings)
    requires TableOk(peers) && NewEndpoint(peers, pub, key, em)
    requires IsBest(Added(peers, pub, allowed, key, em, at)[pub].candidates, at.best, best)
    ensures var r := Confirmed(peers, pub, allowed, key, em, best, at);
            var a, b, known := ActiveOf(peers, pub), ActiveOf(r, pub), CandidatesOf(peers, pub);
            && (a == "" ==> b == best)
            && (a != "" && b != a ==>
                  && b == best
                  && a in known && known[a].lastSuccess.Some?
                  && at.since - known[a].lastSuccess.value > 45_000_000_000
                  && (b == key ==> forall k :: k in known ==> at.best - known[k].lastSuccess.value >= 120_000_000_000)
                  && (b != key ==> b in known && forall k :: k in known ==>
                        Score(known[k], at.best) <= Score(known[b], at.best)))
            && (a != "" && b == a ==>
                  best == a || at.since - known[a].lastSuccess.value <= 45_000_000_000)
  {
    AddedTable(peers, pub, allowed, key, em, at);
    BestExists(peers, pub, allowed, key, em, best, at);
    ConfirmedShape(peers, pub, allowed, key, em, best, at);
    var known, cs := CandidatesOf(peers, pub), CandidatesOf(peers, pub)[key := em];
    assert pub in peers ==> PeerOk(peers[pub]);
    assert forall k :: k in known ==> k != key && cs[k] == known[k];
    forall k | k in known && best == key
      ensures at.best - known[k].lastSuccess.value >= 120_000_000_000
    {
      assert Score(cs[k], at.best) <= Score(cs[key], at.best) == 0;
    }
  }
}
