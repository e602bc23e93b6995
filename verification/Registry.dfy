/** The registry of the group onion service (tor/onion_server.go): registrations that expire, a sweeper that deletes
    expired ones, and listings. Sweeps and listings read the clock before they take the lock. */
module Registry {
  import opened Text
  import opened Endpoint

  type Time = int

  datatype TorPeer = TorPeer(ip: string, port: int, wgPub: string, localIP: string)

  datatype Entry = Entry(peer: TorPeer, expiresAt: Time)

  type Entries = map<string, Entry>

  function RegistryKey(p: TorPeer): string {
    JoinHostPort(p.ip, Decimal.FormatInt(p.port))
  }

  /** Two registrations replace each other exactly when address and port are the same. */
  lemma KeyIdentifiesEndpoint(p: TorPeer, q: TorPeer)
    ensures RegistryKey(p) == RegistryKey(q) <==> p.ip == q.ip && p.port == q.port
  {
    if RegistryKey(p) == RegistryKey(q) {
      JoinHostPortInjective(p.ip, Decimal.FormatInt(p.port), q.ip, Decimal.FormatInt(q.port));
      Decimal.FormatIntInjective(p.port, q.port);
    }
  }

  function Unexpired(entries: Entries, now: Time): map<string, TorPeer> {
    map k | k in entries && entries[k].expiresAt > now :: entries[k].peer
  }

  function Swept(entries: Entries, now: Time): Entries {
    map k | k in entries && entries[k].expiresAt > now :: entries[k]
  }

  // ----- interleavings -----

  /** A registration and when it was made. */
  datatype Upserted = Upserted(peer: TorPeer, at: Time)

  /** A finished listing: its own clock reading, the time at which it held the lock, what it returned, and the latest
      registration of every endpoint at that time. */
  datatype Listing = Listing(read: Time, lock: Time, out: map<string, TorPeer>, latest: map<string, Upserted>)

  datatype State = State(
    entries: Entries,
    ttl: Time,
    clock: Time,
    sweep: Option<Time>,         // the sweeper has read the clock and not yet locked
    readings: map<nat, Time>,    // so have these listings
    latest: map<string, Upserted>,  // history: the latest registration of every endpoint
    results: seq<Listing>)       // history: all listings

  datatype Event =
    | Upsert(p: TorPeer, now: Time)
    | SweepRead(now: Time)
    | SweepLock(now: Time)
    | ListRead(id: nat, now: Time)
    | ListLock(id: nat, now: Time)

  ghost predicate Init(s: State) {
    s.entries == map[] && s.latest == map[] && s.sweep == None && s.readings == map[] && s.results == []
  }

  /** The clock never goes back. */
  predicate Enabled(s: State, e: Event) {
    && e.now >= s.clock
    && match e
       case Upsert(_, _) => true
       case SweepRead(_) => s.sweep.None?
       case SweepLock(_) => s.sweep.Some?
       case ListRead(id, _) => id !in s.readings
       case ListLock(id, _) => id in s.readings
  }

  function Apply(s: State, e: Event): State
    requires Enabled(s, e)
  {
    var t := s.(clock := e.now);
    match e
    case Upsert(p, now) =>
      var k := RegistryKey(p);
      t.(entries := s.entries[k := Entry(p, now + s.ttl)], latest := s.latest[k := Upserted(p, now)])
    case SweepRead(now) => t.(sweep := Some(now))
    case SweepLock(_) => t.(entries := Swept(s.entries, s.sweep.value), sweep := None)
    case ListRead(id, now) => t.(readings := s.readings[id := now])
    case ListLock(id, now) =>
      t.(readings := s.readings - {id},
         results := s.results + [Listing(s.readings[id], now, Unexpired(s.entries, s.readings[id]), s.latest)])
  }

  ghost predicate Possible(s: State, run: seq<Event>)
    decreases |run|, 0
  {
    run == [] ||
    (var before := run[..|run| - 1]; Possible(s, before) && Enabled(After(s, before), run[|run| - 1]))
  }

  ghost function After(s: State, run: seq<Event>): State
    requires Possible(s, run)
    decreases |run|, 1
  {
    if run == [] then s else Apply(After(s, run[..|run| - 1]), run[|run| - 1])
  }

  /** What a listing owes its caller. */
  ghost predicate ListingRight(l: Listing, ttl: Time) {
    && l.read <= l.lock
    && (forall k :: k in l.latest && l.latest[k].at + ttl > l.lock ==> k in l.out)
    && (forall k :: k in l.out ==> k in l.latest && l.out[k] == l.latest[k].peer && l.latest[k].at + ttl > l.read)
  }

  /** The entries are the latest registrations, except some that have expired. */
  ghost predicate Good(s: State) {
    && (forall k :: k in s.entries ==>
          k in s.latest && s.entries[k] == Entry(s.latest[k].peer, s.latest[k].at + s.ttl))
    && (forall k :: k in s.latest && k !in s.entries ==> s.latest[k].at + s.ttl <= s.clock)
    && (s.sweep.Some? ==> s.sweep.value <= s.clock)
    && (forall id :: id in s.readings ==> s.readings[id] <= s.clock)
    && (forall i :: 0 <= i < |s.results| ==> ListingRight(s.results[i], s.ttl))
  }

  lemma GoodStep(s: State, e: Event)
    requires Good(s) && Enabled(s, e)
    ensures Good(Apply(s, e))
  {
    if e.ListLock? {
      var l := Listing(s.readings[e.id], e.now, Unexpired(s.entries, s.readings[e.id]), s.latest);
      assert ListingRight(l, s.ttl);
    }
  }

  lemma {:induction false} GoodRun(s0: State, run: seq<Event>)
    requires Init(s0) && Possible(s0, run)
    ensures Good(After(s0, run))
  {
    if run != [] {
      GoodRun(s0, run[..|run| - 1]);
      GoodStep(After(s0, run[..|run| - 1]), run[|run| - 1]);
    }
  }

  lemma {:induction false} TtlStays(s0: State, run: seq<Event>)
    requires Possible(s0, run)
    ensures After(s0, run).ttl == s0.ttl
  {
    if run != [] {
      TtlStays(s0, run[..|run| - 1]);
    }
  }

  /** The latest registration of an endpoint, read off the run. */
  function LatestIn(run: seq<Event>, k: string): Option<Upserted> {
    if run == [] then None
    else
      var e := run[|run| - 1];
      if e.Upsert? && JoinHostPort(e.p.ip, Decimal.FormatInt(e.p.port)) == k then Some(Upserted(e.p, e.now))
      else LatestIn(run[..|run| - 1], k)
  }

  /** The history is what the run says. */
  lemma {:induction false} LatestIsRead(s0: State, run: seq<Event>, k: string)
    requires Init(s0) && Possible(s0, run)
    ensures var s := After(s0, run);
            if k in s.latest then LatestIn(run, k) == Some(s.latest[k]) else LatestIn(run, k) == None
  {
    if run != [] {
      LatestIsRead(s0, run[..|run| - 1], k);
    }
  }

  /** For every interleaving of registrations, sweeps and listings: a listing returns every endpoint whose latest
      registration is unexpired when it holds the lock, with that registration's record, and none whose latest
      registration had expired at its own clock reading; when reading and locking coincide, exactly the unexpired
      ones. A registration expires the registry's time to live after it was made. */
  lemma ListingsAreRight(s0: State, run: seq<Event>, i: nat)
    requires Init(s0) && Possible(s0, run) && i < |After(s0, run).results|
    ensures var l := After(s0, run).results[i];
            && (forall k :: k in l.latest && l.latest[k].at + s0.ttl > l.lock ==>
                  k in l.out && l.out[k] == l.latest[k].peer)
            && (forall k :: k in l.out ==>
                  k in l.latest && l.out[k] == l.latest[k].peer && l.latest[k].at + s0.ttl > l.read)
            && (l.read == l.lock ==> forall k :: k in l.out <==> k in l.latest && l.latest[k].at + s0.ttl > l.lock)
  {
    GoodRun(s0, run);
    TtlStays(s0, run);
    assert ListingRight(After(s0, run).results[i], s0.ttl);
  }

  /** What a listing that ends now records: its own two times, the latest registrations, and what it returns. */
  lemma ListingsAreRecorded(s0: State, run: seq<Event>, id: nat, now: Time)
    requires Init(s0) && Possible(s0, run) && Enabled(After(s0, run), ListLock(id, now))
    ensures var s, s' := After(s0, run), Apply(After(s0, run), ListLock(id, now));
            && |s'.results| == |s.results| + 1 && s'.results[..|s.results|] == s.results
            && s'.results[|s.results|].read == s.readings[id] && s'.results[|s.results|].lock == now
            && forall k :: LatestIn(run, k) == if k in s'.results[|s.results|].latest
                                               then Some(s'.results[|s.results|].latest[k]) else None
  {
    forall k ensures LatestIn(run, k) == if k in After(s0, run).latest then Some(After(s0, run).latest[k]) else None {
      LatestIsRead(s0, run, k);
    }
  }

  /** A sweep leaves nothing that had expired at its clock reading, and takes nothing else. */
  lemma SweepsExactly(s0: State, run: seq<Event>, now: Time)
    requires Init(s0) && Possible(s0, run) && Enabled(After(s0, run), SweepLock(now))
    ensures var s, s' := After(s0, run), Apply(After(s0, run), SweepLock(now));
            forall k :: k in s'.entries <==>
                          k in s.entries && k in s.latest && s.latest[k].at + s0.ttl > s.sweep.value
  {
    GoodRun(s0, run);
    TtlStays(s0, run);
  }

  // ----- sweeps are invisible -----

  function WithoutSweeps(run: seq<Event>): seq<Event> {
    if run == [] then []
    else
      var before, e := WithoutSweeps(run[..|run| - 1]), run[|run| - 1];
      if e.SweepRead? || e.SweepLock? then before else before + [e]
  }

  /** The same listing with and without sweeps: without them it may also return registrations that expired between
      the clock reading and the lock. */
  ghost predicate SameUpToExpired(l: Listing, l': Listing, ttl: Time) {
    && l'.read == l.read && l'.lock == l.lock && l'.latest == l.latest
    && (forall k :: k in l.out ==> k in l'.out && l'.out[k] == l.out[k])
    && (forall k :: k in l'.out && k !in l.out ==> k in l.latest && l.read < l.latest[k].at + ttl <= l.lock)
  }

  ghost predicate SameResults(results: seq<Listing>, results': seq<Listing>, ttl: Time) {
    |results'| == |results| && forall i :: 0 <= i < |results| ==> SameUpToExpired(results[i], results'[i], ttl)
  }

  /** The entries of a registry that forgets nothing. */
  function Kept(latest: map<string, Upserted>, ttl: Time): Entries {
    map k | k in latest :: Entry(latest[k].peer, latest[k].at + ttl)
  }

  /** The same world, s with a sweeper and t without. */
  ghost predicate Alike(s: State, t: State) {
    && t.latest == s.latest && t.readings == s.readings && t.ttl == s.ttl && t.clock <= s.clock
    && t.entries == Kept(t.latest, t.ttl)
    && SameResults(s.results, t.results, s.ttl)
  }

  lemma SameListing(s: State, read: Time, lock: Time)
    requires Good(s) && s.clock <= lock
    ensures SameUpToExpired(Listing(read, lock, Unexpired(s.entries, read), s.latest),
                            Listing(read, lock, Unexpired(Kept(s.latest, s.ttl), read), s.latest), s.ttl)
  {
  }

  lemma AlikeStep(s: State, t: State, e: Event)
    requires Good(s) && Alike(s, t) && Enabled(s, e)
    requires !e.SweepRead? && !e.SweepLock?
    ensures Enabled(t, e) && Alike(Apply(s, e), Apply(t, e))
  {
    if e.ListLock? {
      SameListing(s, s.readings[e.id], e.now);
    }
  }

  lemma AlikeSwept(s: State, t: State, e: Event)
    requires Alike(s, t) && Enabled(s, e) && (e.SweepRead? || e.SweepLock?)
    ensures Alike(Apply(s, e), t)
  {
  }

  lemma {:induction false} AlikeRun(s0: State, run: seq<Event>)
    requires Init(s0) && Possible(s0, run)
    ensures Possible(s0, WithoutSweeps(run)) && Alike(After(s0, run), After(s0, WithoutSweeps(run)))
  {
    if run != [] {
      var before, e := run[..|run| - 1], run[|run| - 1];
      AlikeRun(s0, before);
      GoodRun(s0, before);
      if e.SweepRead? || e.SweepLock? {
        AlikeSwept(After(s0, before), After(s0, WithoutSweeps(before)), e);
      } else {
        AlikeStep(After(s0, before), After(s0, WithoutSweeps(before)), e);
        var rest := WithoutSweeps(run);
        assert rest[..|rest| - 1] == WithoutSweeps(before);
      }
    }
  }

  /** Removing all sweeps from any run leaves a possible run with the same listings, each of which returns what it did
      before and beyond that only registrations that expired after its own clock reading and before it held the lock. */
  lemma SweepsAreInvisible(s0: State, run: seq<Event>)
    requires Init(s0) && Possible(s0, run)
    ensures Possible(s0, WithoutSweeps(run))
    ensures SameResults(After(s0, run).results, After(s0, WithoutSweeps(run)).results, s0.ttl)
  {
    AlikeRun(s0, run);
    TtlStays(s0, run);
  }

  /** In particular a listing that reads the clock and locks in one step returns the same with and without sweeps. */
  lemma SweepsAreInvisibleToPromptListings(s0: State, run: seq<Event>, i: nat)
    requires Init(s0) && Possible(s0, run) && i < |After(s0, run).results|
    requires After(s0, run).results[i].read == After(s0, run).results[i].lock
    ensures Possible(s0, WithoutSweeps(run)) && i < |After(s0, WithoutSweeps(run)).results|
    ensures After(s0, WithoutSweeps(run)).results[i] == After(s0, run).results[i]
  {
    SweepsAreInvisible(s0, run);
    var l, l' := After(s0, run).results[i], After(s0, WithoutSweeps(run)).results[i];
    assert SameUpToExpired(l, l', s0.ttl);
    assert l'.out == l.out;
  }

  // ----- the registry itself -----

  /** The records in out are those of m, each key once, in the order of keys. */
  ghost predicate Lists(keys: seq<string>, out: seq<TorPeer>, m: map<string, TorPeer>) {
    && |keys| == |out|
    && (forall i, j :: 0 <= i < j < |keys| ==> keys[i] != keys[j])
    && (forall i :: 0 <= i < |keys| ==> keys[i] in m && out[i] == m[keys[i]])
    && (forall k :: k in m ==> k in keys)
  }

  ghost function Among(m: map<string, TorPeer>, keys: set<string>): map<string, TorPeer> {
    map k | k in m && k in keys :: m[k]
  }

  lemma ListsOneMore(keys: seq<string>, out: seq<TorPeer>, m: map<string, TorPeer>, k: string, p: TorPeer)
    requires Lists(keys, out, m) && k !in m
    ensures Lists(keys + [k], out + [p], m[k := p])
  {
  }

  class PeerRegistry {
    var entries: Entries
    const ttl: Time
    var localURL: string

    constructor (ttl: Time)
      ensures entries == map[] && this.ttl == ttl && localURL == ""
    {
      this.ttl := ttl;
      entries, localURL := map[], "";
    }

    method Upsert(p: TorPeer, now: Time)
      modifies this`entries
      ensures entries == old(entries)[RegistryKey(p) := Entry(p, now + ttl)]
    {
      var key := JoinHostPort(p.ip, Decimal.FormatInt(p.port));
      entries := entries[key := Entry(p, now + ttl)];
    }

    /** The unexpired peers, one for each endpoint, in an arbitrary order. */
    method List(now: Time) returns (out: seq<TorPeer>)
      ensures exists keys :: Lists(keys, out, Unexpired(entries, now))
    {
      out := [];
      ghost var keys := [];
      var rest := entries.Keys;
      while rest != {}
        invariant rest <= entries.Keys
        invariant Lists(keys, out, Among(Unexpired(entries, now), entries.Keys - rest))
        decreases |rest|
      {
        var k :| k in rest;
        ghost var before := Among(Unexpired(entries, now), entries.Keys - rest);
        rest := rest - {k};
        var e := entries[k];
        if e.expiresAt > now {
          ListsOneMore(keys, out, before, k, e.peer);
          assert Among(Unexpired(entries, now), entries.Keys - rest) == before[k := e.peer];
          out := out + [e.peer];
          keys := keys + [k];
        } else {
          assert Among(Unexpired(entries, now), entries.Keys - rest) == before;
        }
      }
      assert Among(Unexpired(entries, now), entries.Keys - rest) == Unexpired(entries, now);
      assert Lists(keys, out, Unexpired(entries, now));
    }

    /** One round of expireLoop: expired entries are deleted while the map is ranged over. */
    method Sweep(now: Time)
      modifies this`entries
      ensures entries == Swept(old(entries), now)
      ensures forall k :: k in entries <==> k in old(entries) && old(entries)[k].expiresAt > now
      ensures forall k :: k in entries ==> entries[k] == old(entries)[k]
    {
      var rest := entries.Keys;
      while rest != {}
        invariant rest <= entries.Keys <= old(entries).Keys
        invariant forall k :: k in entries ==> entries[k] == old(entries)[k]
        invariant forall k :: k in rest ==> k in entries
        invariant forall k :: k in old(entries) && k !in rest ==> (k in entries <==> old(entries)[k].expiresAt > now)
        decreases |rest|
      {
        var k :| k in rest;
        rest := rest - {k};
        var e := entries[k];
        if !(e.expiresAt > now) {
          entries := entries - {k};
        }
      }
    }
  }
}
