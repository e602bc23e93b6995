/** Matching STUN responses to the queries that wait for them (tor/stun.go): one reader, any number of concurrent
    queries, each step under one lock or one channel operation. */
module StunTable {
  import opened Text
  import opened Endpoint
  import opened StunWire
  import opened StunParser
  import opened Demux

  type Bytes = seq<Byte>

  datatype Phase = Waiting | Took(pkt: Bytes) | GaveUp

  /** A call of stunQuery; open means that its deferred clean-up has not run. */
  datatype Query = Query(tx: TxId, phase: Phase, open: bool)

  datatype Reader = Idle | Holding(q: nat, pkt: Bytes)

  /** Queries are numbered; a query's number also stands for its channel, which holds at most one packet. */
  datatype State = State(queries: map<nat, Query>, table: map<TxId, nat>, chans: map<nat, Option<Bytes>>,
                         reader: Reader)

  datatype Event =
    | Ask(q: nat, tx: TxId)   // a query registers its channel
    | Look(data: Bytes)       // the read loop looks the transaction id up
    | Put                     // and sends on the channel it found, unless that is full
    | Take(q: nat)            // a query receives
    | Expire(q: nat)          // a query times out, or could not write its request
    | Close(q: nat)           // a query's deferred clean-up

  ghost predicate Init(s: State) {
    s == State(map[], map[], map[], Idle)
  }

  /** Transaction ids are fresh: no open query has the id of a new one. */
  predicate Enabled(s: State, e: Event) {
    match e
    case Ask(q, tx) => q !in s.queries && tx !in s.table
    case Look(_) => s.reader.Idle?
    case Put => s.reader.Holding? && s.reader.q in s.chans
    case Take(q) => q in s.queries && s.queries[q].phase.Waiting? && q in s.chans && s.chans[q].Some?
    case Expire(q) => q in s.queries && s.queries[q].phase.Waiting?
    case Close(q) => q in s.queries && !s.queries[q].phase.Waiting? && s.queries[q].open
  }

  function Apply(s: State, e: Event): State
    requires Enabled(s, e)
  {
    match e
    case Ask(q, tx) =>
      s.(queries := s.queries[q := Query(tx, Waiting, true)], table := s.table[tx := q], chans := s.chans[q := None])
    case Look(data) =>
      if Route(data) == Stun && TransactionOf(data) in s.table
      then s.(reader := Holding(s.table[TransactionOf(data)], data)) else s
    case Put =>
      var q := s.reader.q;
      s.(reader := Idle, chans := if s.chans[q].None? then s.chans[q := Some(s.reader.pkt)] else s.chans)
    case Take(q) =>
      s.(queries := s.queries[q := s.queries[q].(phase := Took(s.chans[q].value))], chans := s.chans[q := None])
    case Expire(q) => s.(queries := s.queries[q := s.queries[q].(phase := GaveUp)])
    case Close(q) =>
      s.(queries := s.queries[q := s.queries[q].(open := false)], table := s.table - {s.queries[q].tx})
  }

  ghost predicate Possible(s: State, run: seq<Event>)
    decreases |run|, 0
  {
    run == [] ||
    (var before := run[..|run| - 1]; Possible(s, before) && Enabled(After(s, before), run[|run| - 1]))
  }

  ghost function After(s: State, run: seq<Event>): State
    requires Possible(s, run)
    decreases |run|, 1
  {
    if run == [] then s else Apply(After(s, run[..|run| - 1]), run[|run| - 1])
  }

  /** The table holds exactly the open queries. */
  ghost predicate TableExact(s: State) {
    && (forall tx :: tx in s.table ==>
          s.table[tx] in s.queries && s.queries[s.table[tx]].open && s.queries[s.table[tx]].tx == tx)
    && (forall q :: q in s.queries && s.queries[q].open ==> s.queries[q].tx in s.table && s.table[s.queries[q].tx] == q)
    && (forall q :: q in s.queries && !s.queries[q].open ==> !s.queries[q].phase.Waiting?)
  }

  predicate Own(s: State, q: nat, pkt: Bytes) {
    q in s.queries && HeaderError(pkt, s.queries[q].tx).None?
  }

  /** Every packet on its way to a query, or taken by it, answers that query. */
  ghost predicate Matched(s: State) {
    && s.chans.Keys == s.queries.Keys
    && (s.reader.Holding? ==> Own(s, s.reader.q, s.reader.pkt))
    && (forall q :: q in s.chans && s.chans[q].Some? ==> Own(s, q, s.chans[q].value))
    && (forall q :: q in s.queries && s.queries[q].phase.Took? ==> Own(s, q, s.queries[q].phase.pkt))
  }

  ghost predicate Good(s: State) {
    TableExact(s) && Matched(s)
  }

  lemma TableStep(s: State, e: Event)
    requires Good(s) && Enabled(s, e)
    ensures TableExact(Apply(s, e))
  {
  }

  /** The query that the reader finds is the one its packet answers. */
  lemma LookMatches(s: State, data: Bytes)
    requires TableExact(s) && Route(data) == Stun && TransactionOf(data) in s.table
    ensures Own(s, s.table[TransactionOf(data)], data)
  {
    BindingResponsesReachTheTable(data);
    TableChecksSuffice(data, TransactionOf(data));
  }

  lemma MatchedStep(s: State, e: Event)
    requires Good(s) && Enabled(s, e)
    ensures Matched(Apply(s, e))
  {
    var s' := Apply(s, e);
    if e.Look? && Route(e.data) == Stun && TransactionOf(e.data) in s.table {
      LookMatches(s, e.data);
    }
    assert forall q :: q in s.queries ==> q in s'.queries && s'.queries[q].tx == s.queries[q].tx;
    assert forall q, pkt :: Own(s, q, pkt) ==> Own(s', q, pkt);
  }

  lemma {:induction false} GoodRun(s0: State, run: seq<Event>)
    requires Init(s0) && Possible(s0, run)
    ensures Good(After(s0, run))
  {
    if run != [] {
      GoodRun(s0, run[..|run| - 1]);
      TableStep(After(s0, run[..|run| - 1]), run[|run| - 1]);
      MatchedStep(After(s0, run[..|run| - 1]), run[|run| - 1]);
    }
  }

  /** In every interleaving the table maps exactly the transaction ids of the open queries to them; and a packet that
      a query took has passed every header check of its parser: parsing it can only fail in its attributes. */
  lemma QueriesGetTheirOwn(s0: State, run: seq<Event>, q: nat)
    requires Init(s0) && Possible(s0, run)
    ensures var s := After(s0, run);
            && (forall tx :: tx in s.table && s.table[tx] == q <==>
                  q in s.queries && s.queries[q].open && s.queries[q].tx == tx)
            && (q in s.queries && s.queries[q].phase.Took? ==>
                  var r := Parse(s.queries[q].phase.pkt, s.queries[q].tx);
                  r.Failed? ==> r.error == LengthOverflow || r.error == NoAddress)
  {
    GoodRun(s0, run);
    var s := After(s0, run);
    if q in s.queries && s.queries[q].phase.Took? {
      assert Own(s, q, s.queries[q].phase.pkt);
      OnlyAttributeErrors(s.queries[q].phase.pkt, s.queries[q].tx);
    }
  }

  lemma OnlyAttributeErrors(data: Bytes, tx: TxId)
    requires HeaderError(data, tx).None?
    ensures var r := Parse(data, tx); r.Failed? ==> r.error == LengthOverflow || r.error == NoAddress
  {
    if U16At(data[2..4]) <= |data| - 20 {
      WalkErrors(Declared(data), U32At(data[4..8]), None);
    }
  }

  /** How many packets query q has received. */
  function Takes(run: seq<Event>, q: nat): nat {
    if run == [] then 0
    else Takes(run[..|run| - 1], q) + (if run[|run| - 1] == Take(q) then 1 else 0)
  }

  /** A query consumes at most one packet: it has received one exactly when its phase says so. */
  lemma {:induction false} AtMostOnePacket(s0: State, run: seq<Event>, q: nat)
    requires Init(s0) && Possible(s0, run)
    ensures var s := After(s0, run);
            Takes(run, q) == if q in s.queries && s.queries[q].phase.Took? then 1 else 0
  {
    if run != [] {
      AtMostOnePacket(s0, run[..|run| - 1], q);
    }
  }

  // ----- which packet a query takes -----

  /** The read loop looks at a response to the open query q. */
  predicate LooksFor(s: State, e: Event, q: nat) {
    e.Look? && Route(e.data) == Stun && TransactionOf(e.data) in s.table && s.table[TransactionOf(e.data)] == q
  }

  /** The first packet of a run that the read loop found query q for. */
  ghost function FirstRead(s0: State, run: seq<Event>, q: nat): Option<Bytes>
    requires Possible(s0, run)
    decreases |run|
  {
    if run == [] then None
    else
      var before, e := run[..|run| - 1], run[|run| - 1];
      var earlier := FirstRead(s0, before, q);
      if earlier.None? && LooksFor(After(s0, before), e, q) then Some(e.data) else earlier
  }

  /** Where the first packet read for q is: nowhere yet, on its way, or taken. */
  predicate Tracked(s: State, q: nat, first: Option<Bytes>) {
    if q !in s.queries then first.None?
    else
      match s.queries[q].phase
      case GaveUp => true
      case Took(pkt) => first == Some(pkt)
      case Waiting =>
        q in s.chans &&
        if first.None? then s.chans[q].None? && !(s.reader.Holding? && s.reader.q == q)
        else s.chans[q] == first || (s.chans[q].None? && s.reader == Holding(q, first.value))
  }

  lemma TrackedStep(s: State, e: Event, q: nat, first: Option<Bytes>)
    requires Good(s) && Enabled(s, e) && Tracked(s, q, first)
    ensures Tracked(Apply(s, e), q, if first.None? && LooksFor(s, e, q) then Some(e.data) else first)
  {
  }

  lemma {:induction false} TrackedRun(s0: State, run: seq<Event>, q: nat)
    requires Init(s0) && Possible(s0, run)
    ensures Tracked(After(s0, run), q, FirstRead(s0, run, q))
  {
    if run != [] {
      var before := run[..|run| - 1];
      GoodRun(s0, before);
      TrackedRun(s0, before, q);
      TrackedStep(After(s0, before), run[|run| - 1], q, FirstRead(s0, before, q));
    }
  }

  /** In every interleaving a query takes the first response the read loop reads for it, whatever else is read, and no
      response is lost: while the query waits, taking it is possible as soon as the read loop has moved on. */
  lemma QueryTakesTheFirstResponse(s0: State, run: seq<Event>, q: nat)
    requires Init(s0) && Possible(s0, run)
    ensures var s, first := After(s0, run), FirstRead(s0, run, q);
            q in s.queries ==>
              && (s.queries[q].phase.Took? ==> first == Some(s.queries[q].phase.pkt))
              && (s.queries[q].phase.Waiting? && first.Some? && s.reader.Idle? ==>
                    Enabled(s, Take(q)) && Apply(s, Take(q)).queries[q].phase == Took(first.value))
              && (s.queries[q].phase.Waiting? && first.None? ==> !Enabled(s, Take(q)))
  {
    TrackedRun(s0, run, q);
  }

  /** Whatever happens before and after, if the first packet read for a query is a response made of any attributes, the
      query can only end with what those attributes mean, or by giving up. */
  lemma ResponseReachesItsQuery(s0: State, run: seq<Event>, q: nat, items: seq<Item>, trailing: seq<Byte>)
    requires Init(s0) && Possible(s0, run) && q in After(s0, run).queries
    requires AllValid(items) && |Encode(items)| <= 0xffff
    requires FirstRead(s0, run, q) == Some(Message(After(s0, run).queries[q].tx, Encode(items), trailing))
    ensures var query := After(s0, run).queries[q];
            query.phase.Took? ==> Parse(query.phase.pkt, query.tx) == Conclude(Meaning(items))
  {
    QueryTakesTheFirstResponse(s0, run, q);
    assert Encode(items) + [] == Encode(items);
    ParserMeetsSpecification(After(s0, run).queries[q].tx, items, [], trailing);
  }

  /** A response to an open query always finds it, whoever else is asking. */
  lemma ResponseFindsItsQuery(s0: State, run: seq<Event>, q: nat, items: seq<Item>, trailing: seq<Byte>)
    requires Init(s0) && Possible(s0, run)
    requires q in After(s0, run).queries && After(s0, run).queries[q].open
    requires AllValid(items) && |Encode(items)| <= 0xffff
    ensures LooksFor(After(s0, run), Look(Message(After(s0, run).queries[q].tx, Encode(items), trailing)), q)
  {
    GoodRun(s0, run);
    var tx := After(s0, run).queries[q].tx;
    MessageFields(tx, Encode(items), trailing);
    TableChecksSuffice(Message(tx, Encode(items), trailing), tx);
    BindingResponsesReachTheTable(Message(tx, Encode(items), trailing));
  }

  // ----- the table itself -----

  /** A Go channel of capacity one. */
  class Chan {
    var buffer: seq<Bytes>

    constructor ()
      ensures buffer == []
    {
      buffer := [];
    }

    /** A send inside a select with a default case. */
    method TrySend(pkt: Bytes)
      modifies this
      ensures buffer == if old(buffer) == [] then [pkt] else old(buffer)
    {
      if buffer == [] {
        buffer := [pkt];
      }
    }
  }

  class StunRxTable {
    var m: map<TxId, Chan>

    constructor ()
      ensures m == map[]
    {
      m := map[];
    }

    method Register(tx: TxId) returns (ch: Chan)
      modifies this
      ensures fresh(ch) && ch.buffer == [] && m == old(m)[tx := ch]
    {
      ch := new Chan();
      m := m[tx := ch];
    }

    method Unregister(tx: TxId)
      modifies this
      ensures m == old(m) - {tx}
    {
      m := m - {tx};
    }

    /** deliverSTUNPacket, undisturbed: it claims exactly the responses to registered transactions, and at most fills
        the one channel registered under the packet's id. */
    method Deliver(data: Bytes) returns (claimed: bool)
      modifies m.Values
      ensures claimed <==> IsBindingResponse(data) && TransactionOf(data) in m
      ensures forall tx :: tx in m ==>
                m[tx].buffer == if claimed && m[tx] == m[TransactionOf(data)] && old(m[tx].buffer) == [] then [data]
                                else old(m[tx].buffer)
    {
      if |data| < 20 {
        return false;
      }
      if U32At(data[4..8]) != MAGIC_COOKIE {
        return false;
      }
      if U16At(data[0..2]) != BINDING_RESPONSE {
        return false;
      }
      var txID := data[8..20];
      if txID !in m {
        return false;
      }
      var ch := m[txID];
      ch.TrySend(data);
      return true;
    }

    /** stunQuery, given the packets that the read loop delivers before the time is up: it returns what the first one
        with its transaction id says, and leaves no trace in the table. */
    method Query(tx: TxId, arriving: seq<Bytes>) returns (r: Option<Outcome>)
      requires tx !in m
      modifies this, m.Values
      ensures m == old(m)
      ensures r == (match FirstAnswer(arriving, tx) case None => None case Some(pkt) => Some(Parse(pkt, tx)))
    {
      var ch := Register(tx);
      for i := 0 to |arriving|
        invariant m == old(m)[tx := ch] && fresh(ch)
        invariant ch.buffer == match FirstAnswer(arriving[..i], tx) case None => [] case Some(pkt) => [pkt]
      {
        assert arriving[..i + 1][..i] == arriving[..i];
        var _ := Deliver(arriving[i]);
      }
      assert arriving[..|arriving|] == arriving;
      Unregister(tx);
      assert m == old(m);
      if ch.buffer == [] {
        return None;
      }
      var found := ParseSTUNResponse(ch.buffer[0], tx);
      return Some(found);
    }
  }

  predicate Answers(data: Bytes, tx: TxId) {
    IsBindingResponse(data) && TransactionOf(data) == tx
  }

  function FirstAnswer(arriving: seq<Bytes>, tx: TxId): Option<Bytes> {
    if arriving == [] then None
    else
      var earlier := FirstAnswer(arriving[..|arriving| - 1], tx);
      if earlier.None? && Answers(arriving[|arriving| - 1], tx) then Some(arriving[|arriving| - 1]) else earlier
  }
}
