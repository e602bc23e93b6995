/** Which of the endpoints that become active WireGuard is really configured with (the end of handleConfirmedPeer and
    wgUpsertPeer in dht/). */
module Install {
  import opened Text
  import opened Endpoint
  import opened PunchPacket
  import opened PeerTable
  import opened PeerRun
  import opened Uapi
  import opened WgKey

  /** What the derivation of VPN addresses depends on: the hash, the room's bytes, and the text of an address. */
  datatype Naming = Naming(sha: Hash, room: seq<Byte>, show: seq<Byte> -> string)

  /** deriveVPNAddr followed by vpnAddrCIDR. It does not look at the length of the decoded key. */
  function Derive(n: Naming, pub: string): Option<string> {
    match DecodeEither(pub)
    case None => None
    case Some(raw) => Some(n.show(VpnAddr(n.sha, n.room, raw)))
  }

  function ConfigOf(room: string, n: Naming): Config {
    Config(room, pub => Derive(n, pub))
  }

  /** Texts of addresses are accepted prefixes. */
  ghost predicate ShowsPrefixes(n: Naming, v: Validators) {
    forall addr :: |addr| == 16 ==> v.prefix(TrimSpace(TrimSpace(n.show(addr))))
  }

  // ----- every candidate is filed under the text of its endpoint -----

  predicate Fits(key: string, m: Meta) {
    |m.ip| == 4 && 1 <= m.port <= 65535 && key == EndpointKey(m.ip, m.port)
  }

  ghost predicate KeysFit(candidates: map<string, Meta>) {
    forall k :: k in candidates ==> Fits(k, candidates[k])
  }

  ghost predicate AllFit(peers: Peers) {
    forall pub :: KeysFit(CandidatesOf(peers, pub))
  }

  lemma AdmittedFits(cfg: Config, j: Job, seen: Time)
    requires Admit(cfg, j, seen).Some?
    ensures Fits(Admit(cfg, j, seen).value.key, Admit(cfg, j, seen).value.em)
  {
  }

  lemma FitsAdded(candidates: map<string, Meta>, key: string, m: Meta, t: Time)
    requires KeysFit(candidates) && Fits(key, m)
    ensures KeysFit(candidates[key := m.(lastSuccess := Some(t))])
  {
    assert Fits(key, m.(lastSuccess := Some(t)));
  }

  lemma ConfirmedFits(peers: Peers, a: Admission, best: string, at: Readings, q: string)
    requires TableOk(peers) && NewEndpoint(peers, a.pub, a.key, a.em) && Fits(a.key, a.em)
    requires KeysFit(CandidatesOf(peers, q))
    requires IsBest(Added(peers, a.pub, a.allowedIP, a.key, a.em, at)[a.pub].candidates, at.best, best)
    ensures KeysFit(CandidatesOf(Confirmed(peers, a.pub, a.allowedIP, a.key, a.em, best, at), q))
  {
    ConfirmedKeepsTable(peers, a.pub, a.allowedIP, a.key, a.em, best, at);
    if q == a.pub {
      FitsAdded(CandidatesOf(peers, q), a.key, a.em, at.mark);
    }
  }

  lemma HandleFits(cfg: Config, s: Sys, e: Event)
    requires Good(s) && AllFit(s.peers) && Enabled(cfg, s, e) && e.Handle?
    ensures AllFit(Apply(cfg, s, e).peers)
  {
    HandleShape(cfg, s, e);
    if Admit(cfg, e.job, e.seen).Some? {
      AdmittedFits(cfg, e.job, e.seen);
      forall q ensures KeysFit(CandidatesOf(Apply(cfg, s, e).peers, q)) {
        assert KeysFit(CandidatesOf(s.peers, q));
        ConfirmedFits(s.peers, Admit(cfg, e.job, e.seen).value, e.best, e.at, q);
      }
    }
  }

  lemma {:induction false} FitRun(cfg: Config, s0: Sys, run: seq<Event>)
    requires Init(s0) && Possible(cfg, s0, run)
    ensures AllFit(After(cfg, s0, run).peers)
  {
    if run != [] {
      var before, e := run[..|run| - 1], run[|run| - 1];
      GoodRun(cfg, s0, before);
      FitRun(cfg, s0, before);
      if e.Handle? {
        HandleFits(cfg, After(cfg, s0, before), e);
      } else {
        PeersFrame(cfg, After(cfg, s0, before), e);
      }
    }
  }

  /** The best endpoint found at a critical section is the text of some IPv4 endpoint. */
  lemma BestFits(cfg: Config, s: Sys, e: Event)
    requires Good(s) && AllFit(s.peers) && Enabled(cfg, s, e) && e.Handle? && Admit(cfg, e.job, e.seen).Some?
    ensures exists m :: Fits(e.best, m)
  {
    var a := Admit(cfg, e.job, e.seen).value;
    HandlerFilesNewEndpoint(cfg, s, e);
    BestExists(s.peers, a.pub, a.allowedIP, a.key, a.em, e.best, e.at);
    AdmittedFits(cfg, e.job, e.seen);
    assert KeysFit(CandidatesOf(s.peers, a.pub));
    assert Fits(e.best, CandidatesOf(s.peers, a.pub)[a.key := a.em][e.best]);
  }

  // ----- what wgUpsertPeer makes of it -----

  lemma ConfigurableExactly(n: Naming, v: Validators, pub: string, key: string, m: Meta)
    requires ShowsPrefixes(n, v) && Fits(key, m) && Derive(n, pub).Some? && TrimSpace(pub) != ""
    ensures EntryOf(v, Upsert(pub, Derive(n, pub).value, key)).Some? <==> |DecodeEither(pub).value| == 32
  {
    InRoom(n.sha, n.room, DecodeEither(pub).value);
    EndpointKeyKeeps(m.ip, m.port);
    EndpointKeysAreValid(v, m.ip, m.port);
  }

  lemma AdmittedNames(room: string, n: Naming, j: Job, seen: Time)
    requires Admit(ConfigOf(room, n), j, seen).Some?
    ensures var a := Admit(ConfigOf(room, n), j, seen).value;
            && Derive(n, a.pub) == Some(a.allowedIP)
            && a.pub == TrimSpace(j.remote.value.wgPub) && a.pub != "" && TrimSpace(a.pub) == a.pub
  {
    TrimTwice(j.remote.value.wgPub);
  }

  /** At every critical section that a run can reach, what the handler asks of wgUpsertPeer succeeds if and only if the
      key it was given decodes to 32 bytes; in particular it does for every key of the accepted shape. What is then
      configured is that key, its own VPN address, and the best endpoint, which is the active one if it was switched. */
  lemma InstallsExactly(room: string, n: Naming, v: Validators, s0: Sys, run: seq<Event>, e: Event)
    requires ShowsPrefixes(n, v) && Init(s0) && Possible(ConfigOf(room, n), s0, run)
    requires Enabled(ConfigOf(room, n), After(ConfigOf(room, n), s0, run), e) && e.Handle?
    requires Admit(ConfigOf(room, n), e.job, e.seen).Some?
    ensures var a := Admit(ConfigOf(room, n), e.job, e.seen).value;
            && DecodeEither(a.pub).Some?
            && (EntryOf(v, Upsert(a.pub, a.allowedIP, e.best)).Some? <==> |DecodeEither(a.pub).value| == 32)
            && (Accepted(a.pub) ==> EntryOf(v, Upsert(a.pub, a.allowedIP, e.best)).Some?)
    ensures var a := Admit(ConfigOf(room, n), e.job, e.seen).value;
            var entry := EntryOf(v, Upsert(a.pub, a.allowedIP, e.best));
            entry.Some? ==>
              && ReadHex(entry.value.pubHex) == DecodeEither(a.pub)
              && entry.value.allowedIP == TrimSpace(n.show(VpnAddr(n.sha, n.room, DecodeEither(a.pub).value)))
              && entry.value.endpoint == e.best
    ensures var s, a := After(ConfigOf(room, n), s0, run), Admit(ConfigOf(room, n), e.job, e.seen).value;
            SwitchNow(Added(s.peers, a.pub, a.allowedIP, a.key, a.em, e.at)[a.pub], e.best, e.at) ==>
              ActiveOf(Apply(ConfigOf(room, n), s, e).peers, a.pub) == e.best
  {
    var cfg := ConfigOf(room, n);
    var s, a := After(cfg, s0, run), Admit(cfg, e.job, e.seen).value;
    GoodRun(cfg, s0, run);
    FitRun(cfg, s0, run);
    BestFits(cfg, s, e);
    var m :| Fits(e.best, m);
    AdmittedNames(room, n, e.job, e.seen);
    ConfigurableExactly(n, v, a.pub, e.best, m);
    EndpointKeyKeeps(m.ip, m.port);
    EntryExactly(v, Upsert(a.pub, a.allowedIP, e.best));
    if Accepted(a.pub) {
      AcceptedDecodes(a.pub);
    }
    SwitchedTo(cfg, s, e);
  }

  lemma SwitchedTo(cfg: Config, s: Sys, e: Event)
    requires Good(s) && Enabled(cfg, s, e) && e.Handle? && Admit(cfg, e.job, e.seen).Some?
    ensures var a := Admit(cfg, e.job, e.seen).value;
            SwitchNow(Added(s.peers, a.pub, a.allowedIP, a.key, a.em, e.at)[a.pub], e.best, e.at) ==>
              ActiveOf(Apply(cfg, s, e).peers, a.pub) == e.best
  {
    var a := Admit(cfg, e.job, e.seen).value;
    HandleShape(cfg, s, e);
    ConfirmedShape(s.peers, a.pub, a.allowedIP, a.key, a.em, e.best, e.at);
  }

  // ----- the allowed address of a peer -----

  /** Every peer is allowed the address derived from its own key. */
  ghost predicate AllowedDerived(cfg: Config, peers: Peers) {
    forall pub :: pub in peers ==> cfg.derive(pub) == Some(peers[pub].allowedIP)
  }

  lemma AllowedStays(cfg: Config, peers: Peers, a: Admission, best: string, at: Readings)
    requires AllowedDerived(cfg, peers) && cfg.derive(a.pub) == Some(a.allowedIP)
    ensures AllowedDerived(cfg, Confirmed(peers, a.pub, a.allowedIP, a.key, a.em, best, at))
  {
  }

  lemma {:induction false} AllowedRun(cfg: Config, s0: Sys, run: seq<Event>)
    requires Init(s0) && Possible(cfg, s0, run)
    ensures AllowedDerived(cfg, After(cfg, s0, run).peers)
  {
    if run != [] {
      var before, e := run[..|run| - 1], run[|run| - 1];
      var s := After(cfg, s0, before);
      AllowedRun(cfg, s0, before);
      if e.Handle? {
        if Admit(cfg, e.job, e.seen).Some? {
          AllowedStays(cfg, s.peers, Admit(cfg, e.job, e.seen).value, e.best, e.at);
        }
      } else {
        PeersFrame(cfg, s, e);
      }
    }
  }

  // ----- a key that is filed and never configured -----

  /** Three bytes in base64. */
  const SHORT_KEY := "QUJD"

  lemma GroupDecodes(s: string, x: Byte, y: Byte, z: Byte)
    requires s == Base64.EncodeGroup(Base64.Std, x, y, z)
    ensures DecodeEither(s) == Some([x, y, z]) && TrimSpace(s) == s
  {
    Base64.GroupRoundTrip(Base64.Std, x, y, z);
    Base64.SymbolsAreClean(Base64.Std, s);
    TrimKeeps(s);
    Base64.CleanStays(s);
    assert s[..4] == s && s[4..] == "";
    var b: seq<Byte> := [x, y, z];
    assert b + [] == b;
    assert Base64.DecodeClean(Base64.Std, true, s) == Some(b);
  }

  lemma ShortKeyDecodes()
    ensures DecodeEither(SHORT_KEY) == Some([0x41, 0x42, 0x43]) && TrimSpace(SHORT_KEY) == SHORT_KEY
  {
    GroupDecodes(SHORT_KEY, 0x41, 0x42, 0x43);
  }

  /** A peer that announces such a key is admitted, filed, and made active, and WireGuard never hears of it. */
  lemma ShortKeyIsFiledButRefused(room: string, n: Naming, v: Validators, raddr: UdpAddr, seen: Time, at: Readings)
    requires UdpAddrKey(raddr).Some?
    ensures var key := UdpAddrKey(raddr).value.key;
            var a := Admit(ConfigOf(room, n), Job(Some(Payload(SHORT_KEY, "")), key, raddr), seen);
            && a.Some? && a.value.pub == SHORT_KEY
            && ActiveOf(Confirmed(map[], a.value.pub, a.value.allowedIP, a.value.key, a.value.em, key, at), SHORT_KEY)
               == key
            && EntryOf(v, Upsert(a.value.pub, a.value.allowedIP, key)) == None
  {
    ShortKeyDecodes();
    assert TrimSpace("") == "";
    var key := UdpAddrKey(raddr).value.key;
    var a := Admit(ConfigOf(room, n), Job(Some(Payload(SHORT_KEY, "")), key, raddr), seen).value;
    KeyVisible(Ipv4Text(To4(raddr.ip).value), Decimal.FormatInt(raddr.port));
    ConfirmedShape(map[], a.pub, a.allowedIP, a.key, a.em, key, at);
    AddedTable(map[], a.pub, a.allowedIP, a.key, a.em, at);
  }
}
