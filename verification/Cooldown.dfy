/** The cool-down by which nostr's relay goroutines together accept each public key at most once in five minutes
    (nostr/nostr_logic.go). */
module Cooldown {
  import opened Text
  import WgKey

  type Time = int

  const COOLDOWN: Time := 300_000_000_000

  datatype Record = Record(ip: string, port: int, wgPub: string)

  /** The filters before the lock is taken. */
  predicate Passes(p: Record, selfWgPub: string) {
    p.ip != "" && 1 <= p.port <= 65535 && p.wgPub != "" && p.wgPub != selfWgPub
  }

  /** A key never seen has the zero time, since which more than five minutes have always passed. */
  predicate Fresh(seen: map<string, Time>, key: string, now: Time) {
    key !in seen || now - seen[key] > COOLDOWN
  }

  class Seen {
    var seen: map<string, Time>

    constructor ()
      ensures seen == map[]
    {
      seen := map[];
    }

    /** The section under the lock, which reads the clock twice. */
    method Admit(key: string, since: Time, now: Time) returns (accepted: bool)
      modifies this
      ensures accepted == Fresh(old(seen), key, since)
      ensures accepted <==> (key in old(seen) ==> since - old(seen)[key] > 300_000_000_000)
      ensures seen == if accepted then old(seen)[key := now] else old(seen)
    {
      if key in seen {
        var last := seen[key];
        accepted := since - last > COOLDOWN;
      } else {
        accepted := true;
      }
      if accepted {
        seen := seen[key := now];
      }
    }
  }

  // ----- runs over all relays -----

  /** An event from any relay: the record, and the two clock readings under the lock. */
  datatype Event = Event(p: Record, since: Time, now: Time)

  /** The stamps with which each event of a key was accepted, oldest first; and whether the program has panicked. */
  datatype State = State(seen: map<string, Time>, clock: Time, accepted: map<string, seq<Time>>, panicked: bool)

  /** Nothing happens after a panic. */
  predicate Enabled(s: State, e: Event) {
    s.clock <= e.since <= e.now && !s.panicked
  }

  /** The slice of line 167 needs a key of at least eight bytes. */
  predicate TooShortToLog(key: string) {
    Utf8Length(key) < 8
  }

  function Stamps(s: State, key: string): seq<Time> {
    if key in s.accepted then s.accepted[key] else []
  }

  function Apply(selfWgPub: string, s: State, e: Event): State
    requires Enabled(s, e)
  {
    var k := e.p.wgPub;
    if !Passes(e.p, selfWgPub) then s
    else if Fresh(s.seen, k, e.since)
    then State(s.seen[k := e.now], e.now, s.accepted[k := Stamps(s, k) + [e.now]], TooShortToLog(k))
    else s.(clock := e.now)
  }

  ghost predicate Possible(selfWgPub: string, s: State, run: seq<Event>)
    decreases |run|, 0
  {
    run == [] ||
    (var before := run[..|run| - 1];
     Possible(selfWgPub, s, before) && Enabled(After(selfWgPub, s, before), run[|run| - 1]))
  }

  ghost function After(selfWgPub: string, s: State, run: seq<Event>): State
    requires Possible(selfWgPub, s, run)
    decreases |run|, 1
  {
    if run == [] then s else Apply(selfWgPub, After(selfWgPub, s, run[..|run| - 1]), run[|run| - 1])
  }

  ghost predicate Init(s: State) {
    s.seen == map[] && s.accepted == map[] && !s.panicked
  }

  ghost predicate Spaced(stamps: seq<Time>) {
    forall i, j :: 0 <= i < j < |stamps| ==> stamps[j] - stamps[i] > COOLDOWN
  }

  /** seen holds the latest stamp of every key accepted so far. */
  ghost predicate GoodKey(s: State, k: string) {
    && (k in s.seen <==> Stamps(s, k) != [])
    && Spaced(Stamps(s, k))
    && (k in s.seen ==> s.seen[k] == Stamps(s, k)[|Stamps(s, k)| - 1] && s.seen[k] <= s.clock)
  }

  ghost predicate Good(s: State) {
    forall k :: GoodKey(s, k)
  }

  lemma SpacedNext(stamps: seq<Time>, t: Time)
    requires Spaced(stamps) && (stamps != [] ==> t - stamps[|stamps| - 1] > COOLDOWN)
    ensures Spaced(stamps + [t])
  {
    forall i | 0 <= i < |stamps| ensures t - stamps[i] > COOLDOWN {
      if i < |stamps| - 1 {
        assert stamps[|stamps| - 1] - stamps[i] > COOLDOWN;
      }
    }
  }

  lemma GoodStep(selfWgPub: string, s: State, e: Event)
    requires Good(s) && Enabled(s, e)
    ensures Good(Apply(selfWgPub, s, e))
  {
    var s', k := Apply(selfWgPub, s, e), e.p.wgPub;
    forall q ensures GoodKey(s', q) {
      assert GoodKey(s, q);
      if q == k && Passes(e.p, selfWgPub) && Fresh(s.seen, k, e.since) {
        SpacedNext(Stamps(s, k), e.now);
      } else {
        assert Stamps(s', q) == Stamps(s, q);
      }
    }
  }

  lemma {:induction false} GoodRun(selfWgPub: string, s0: State, run: seq<Event>)
    requires Init(s0) && Possible(selfWgPub, s0, run)
    ensures Good(After(selfWgPub, s0, run))
  {
    if run != [] {
      GoodRun(selfWgPub, s0, run[..|run| - 1]);
      GoodStep(selfWgPub, After(selfWgPub, s0, run[..|run| - 1]), run[|run| - 1]);
    }
  }

  /** For each public key, across all relays, acceptances are more than five minutes apart; and an event is accepted
      exactly when it names an address, a port and a key other than the node's own that was not accepted in the last
      five minutes. */
  lemma AcceptancesAreSpaced(selfWgPub: string, s0: State, run: seq<Event>, key: string)
    requires Init(s0) && Possible(selfWgPub, s0, run)
    ensures var stamps := Stamps(After(selfWgPub, s0, run), key);
            forall i, j :: 0 <= i < j < |stamps| ==> stamps[j] - stamps[i] > 300_000_000_000
    ensures forall e :: Enabled(After(selfWgPub, s0, run), e) && e.p.wgPub == key ==>
              var s := After(selfWgPub, s0, run);
              var stamps := Stamps(s, key);
              Stamps(Apply(selfWgPub, s, e), key) ==
                if e.p.ip != "" && 1 <= e.p.port <= 65535 && key != "" && key != selfWgPub
                   && (stamps == [] || e.since - stamps[|stamps| - 1] > 300_000_000_000)
                then stamps + [e.now] else stamps
  {
    GoodRun(selfWgPub, s0, run);
    var s := After(selfWgPub, s0, run);
    assert GoodKey(s, key);
  }

  // ----- the panic -----

  /** An event of a run was let through with a key too short for the log line that follows. */
  predicate Fatal(selfWgPub: string, s: State, e: Event) {
    Passes(e.p, selfWgPub) && Fresh(s.seen, e.p.wgPub, e.since) && Utf8Length(e.p.wgPub) < 8
  }

  ghost predicate FatalAt(selfWgPub: string, s0: State, run: seq<Event>, i: nat)
    requires Possible(selfWgPub, s0, run) && i < |run|
  {
    Possible(selfWgPub, s0, run[..i]) && Fatal(selfWgPub, After(selfWgPub, s0, run[..i]), run[i])
  }

  /** A run has panicked exactly when its last event passed the filters and the
      cool-down with a key of less than eight bytes, and no event before it did. */
  lemma {:induction false} PanicsExactly(selfWgPub: string, s0: State, run: seq<Event>)
    requires Init(s0) && Possible(selfWgPub, s0, run)
    ensures After(selfWgPub, s0, run).panicked <==> run != [] && FatalAt(selfWgPub, s0, run, |run| - 1)
    ensures After(selfWgPub, s0, run).panicked ==> Utf8Length(run[|run| - 1].p.wgPub) < 8
    ensures forall i :: 0 <= i < |run| - 1 ==> !FatalAt(selfWgPub, s0, run, i)
  {
    if run != [] {
      var before := run[..|run| - 1];
      PanicsExactly(selfWgPub, s0, before);
      forall i | 0 <= i < |run| - 1 ensures !FatalAt(selfWgPub, s0, run, i) {
        assert before[..i] == run[..i] && before[i] == run[i];
        assert FatalAt(selfWgPub, s0, run, i) ==> FatalAt(selfWgPub, s0, before, i);
      }
    }
  }

  /** The very first event can be such a one. */
  lemma ShortKeyPanics(s0: State, t: Time)
    requires Init(s0) && s0.clock <= t
    ensures var e := Event(Record("192.0.2.1", 51820, "x"), t, t);
            Enabled(s0, e) && Apply("self", s0, e).panicked
  {
    assert "x"[..0] == "";
    assert Utf8Length("x") == 1;
  }

  lemma {:induction false} BytesOfText(s: string)
    ensures Utf8Length(s) >= |s|
  {
    if s != "" {
      BytesOfText(s[..|s| - 1]);
    }
  }

  /** A key of the shape of a WireGuard key never panics it. */
  lemma ProperKeysAreSafe(selfWgPub: string, s: State, e: Event)
    requires WgKey.Accepted(e.p.wgPub)
    ensures !Fatal(selfWgPub, s, e)
  {
    BytesOfText(e.p.wgPub);
  }

  lemma {:induction false} SpreadOut(stamps: seq<Time>, i: nat, j: nat)
    requires Spaced(stamps) && i <= j < |stamps|
    ensures stamps[j] - stamps[i] >= (j - i) * COOLDOWN
  {
    if i < j {
      SpreadOut(stamps, i, j - 1);
    }
  }

  /** How many of the stamps lie in the window from x to y. */
  function CountIn(stamps: seq<Time>, x: Time, y: Time): nat {
    if stamps == [] then 0
    else CountIn(stamps[..|stamps| - 1], x, y) + (if x <= stamps[|stamps| - 1] <= y then 1 else 0)
  }

  lemma {:induction false} WindowEnds(stamps: seq<Time>, x: Time, y: Time) returns (i: nat, j: nat)
    requires CountIn(stamps, x, y) > 0
    ensures i <= j < |stamps| && x <= stamps[i] <= y && x <= stamps[j] <= y
    ensures CountIn(stamps, x, y) <= j - i + 1
  {
    var before := stamps[..|stamps| - 1];
    if CountIn(before, x, y) == 0 {
      i, j := |stamps| - 1, |stamps| - 1;
    } else {
      i, j := WindowEnds(before, x, y);
      if x <= stamps[|stamps| - 1] <= y {
        j := |stamps| - 1;
      }
    }
  }

  /** In every run, any window of length L holds at most L / 5 min + 1 acceptances of a key. */
  lemma WindowBound(selfWgPub: string, s0: State, run: seq<Event>, key: string, x: Time, L: nat)
    requires Init(s0) && Possible(selfWgPub, s0, run)
    ensures CountIn(Stamps(After(selfWgPub, s0, run), key), x, x + L) <= L / 300_000_000_000 + 1
  {
    GoodRun(selfWgPub, s0, run);
    var stamps := Stamps(After(selfWgPub, s0, run), key);
    assert GoodKey(After(selfWgPub, s0, run), key);
    if CountIn(stamps, x, x + L) > 0 {
      var i, j := WindowEnds(stamps, x, x + L);
      SpreadOut(stamps, i, j);
      assert (j - i) * COOLDOWN <= L;
    }
  }
}
