/** Hole-punch packets: identity payloads, their merging, and the text codec (dht/punch_proto.go). */
module PunchPacket {
  import opened Text
  import opened Decimal
  import opened Endpoint
  import opened Base64

  const MAGIC: string := "PUNCH1"

  datatype Payload = Payload(wgPub: string, room: string)

  datatype Packet = Packet(kind: string, sid: string, ts: Option<int>, payload: Option<Payload>)

  /** encoding/json on payloads, with its errors left out of the marshalling direction. */
  datatype Json = Json(marshal: Payload -> seq<Byte>, unmarshal: seq<Byte> -> Option<Payload>)

  /** What the codec needs of JSON: decoding undoes encoding, and only the object without fields has two bytes. */
  ghost predicate Lawful(j: Json) {
    && (forall p :: j.unmarshal(j.marshal(p)) == Some(p))
    && (forall p :: |j.marshal(p)| <= 2 <==> p == Payload("", ""))
  }

  function LocalPayload(wgPub: string, room: string): Option<Payload> {
    if Blank(wgPub) then None else Some(Payload(wgPub, room))
  }

  /** Field-wise: a new value replaces the old one unless it is blank; two blank fields are no payload. */
  function MergePayload(prev: Option<Payload>, nw: Option<Payload>): Option<Payload> {
    if prev.None? && nw.None? then None
    else
      var o := if prev.Some? then prev.value else Payload("", "");
      var p := if nw.Some? && !Blank(nw.value.wgPub) then o.(wgPub := nw.value.wgPub) else o;
      var q := if nw.Some? && !Blank(nw.value.room) then p.(room := nw.value.room) else p;
      if Blank(q.wgPub) && Blank(q.room) then None else Some(q)
  }

  method MergeInto(prev: Option<Payload>, nw: Option<Payload>) returns (r: Option<Payload>)
    ensures r == MergePayload(prev, nw)
  {
    if prev.None? && nw.None? {
      return None;
    }
    var out := Payload("", "");
    if prev.Some? {
      out := out.(wgPub := prev.value.wgPub);
      out := out.(room := prev.value.room);
    }
    if nw.Some? {
      if !Blank(nw.value.wgPub) {
        out := out.(wgPub := nw.value.wgPub);
      }
      if !Blank(nw.value.room) {
        out := out.(room := nw.value.room);
      }
    }
    if Blank(out.wgPub) && Blank(out.room) {
      return None;
    }
    return Some(out);
  }

  /** The two fields of an optional payload, blank values read as absent. */
  function Fields(p: Option<Payload>): (string, string) {
    if p.None? then ("", "")
    else (if Blank(p.value.wgPub) then "" else p.value.wgPub, if Blank(p.value.room) then "" else p.value.room)
  }

  lemma MergeFields(prev: Option<Payload>, nw: Option<Payload>)
    ensures Fields(MergePayload(prev, nw)).0 == if Fields(nw).0 != "" then Fields(nw).0 else Fields(prev).0
    ensures Fields(MergePayload(prev, nw)).1 == if Fields(nw).1 != "" then Fields(nw).1 else Fields(prev).1
  {
    assert Blank("");
  }

  /** Merging is associative once blank values are read as absent. */
  lemma MergeAssociative(a: Option<Payload>, b: Option<Payload>, c: Option<Payload>)
    ensures Fields(MergePayload(MergePayload(a, b), c)) == Fields(MergePayload(a, MergePayload(b, c)))
  {
    MergeFields(a, b);
    MergeFields(MergePayload(a, b), c);
    MergeFields(b, c);
    MergeFields(a, MergePayload(b, c));
  }

  /** What a node holds after merging a sequence of received payloads, oldest first. */
  function MergeAll(received: seq<Option<Payload>>): Option<Payload> {
    if received == [] then None
    else
      var before := MergeAll(received[..|received| - 1]);
      var last := received[|received| - 1];
      if last.Some? then MergePayload(before, last) else before
  }

  /** The last visible value of one field in a sequence of received payloads, or "". */
  function LastVisible(received: seq<Option<Payload>>, field: Payload -> string): string {
    if received == [] then ""
    else
      var last := received[|received| - 1];
      if last.Some? && !Blank(field(last.value)) then field(last.value)
      else LastVisible(received[..|received| - 1], field)
  }

  /** Merging keeps, field by field, the last visible value received, and nothing else. */
  lemma {:induction false} MergeAllIsLastVisible(received: seq<Option<Payload>>)
    ensures var wgPub, room := LastVisible(received, (p: Payload) => p.wgPub),
                LastVisible(received, (p: Payload) => p.room);
            MergeAll(received) == if wgPub == "" && room == "" then None else Some(Payload(wgPub, room))
    ensures MergeAll(received).Some? ==>
              var p := MergeAll(received).value;
              (p.wgPub == "" || !Blank(p.wgPub)) && (p.room == "" || !Blank(p.room))
  {
    assert Blank("");
    if received != [] {
      MergeAllIsLastVisible(received[..|received| - 1]);
    }
  }

  // ----- the text codec -----

  /** The payload part of a packet: "" when the payload is absent, has no fields or is too long. */
  function PayloadText(j: Json, p: Option<Payload>): string {
    if p.Some? && 2 < |j.marshal(p.value)| <= 900 then EncodeRaw(Url, j.marshal(p.value)) else ""
  }

  function TimestampText(ts: Option<int>): string {
    if ts.Some? then FormatInt(ts.value) else ""
  }

  function Pack(j: Json, kind: string, sid: string, ts: Option<int>, p: Option<Payload>): string {
    MAGIC + "|" + kind + "|" + sid + "|" + TimestampText(ts) + "|" + PayloadText(j, p)
  }

  function ParsePayload(j: Json, parts: seq<string>): Option<Payload> {
    if |parts| >= 5 && parts[4] != "" then
      match Decode(Url, false, parts[4])
      case None => None
      case Some(raw) => j.unmarshal(raw)
    else None
  }

  function Unpack(j: Json, b: string): Option<Packet> {
    var s := TrimSpace(b);
    if !HasPrefix(s, MAGIC + "|") then None
    else
      var parts := Split(s, '|');
      if |parts| < 4 then None
      else
        var ts := if parts[3] != "" then ParseInt(parts[3]) else None;
        Some(Packet(parts[1], parts[2], ts, ParsePayload(j, parts)))
  }

  /** The payloads that travel: the encoder drops the ones with two empty fields and the ones over 900 bytes. */
  function Carried(j: Json, p: Option<Payload>): Option<Payload> {
    if p.Some? && p.value != Payload("", "") && |j.marshal(p.value)| <= 900 then p else None
  }

  lemma PackTrims(j: Json, kind: string, sid: string, ts: Option<int>, p: Option<Payload>)
    ensures TrimSpace(Pack(j, kind, sid, ts, p)) == Pack(j, kind, sid, ts, p)
  {
    var s, pay := Pack(j, kind, sid, ts, p), PayloadText(j, p);
    assert s[0] == 'P';
    if pay == "" {
      assert s[|s| - 1] == '|';
    } else {
      EncodeRawSymbols(Url, j.marshal(p.value));
      SymbolsAreClean(Url, pay);
      assert s[|s| - 1] == pay[|pay| - 1];
    }
    TrimKeeps(s);
  }

  lemma SplitThree(c: string, d: string, e: string)
    requires '|' !in c && '|' !in d && '|' !in e
    ensures Split(c + "|" + d + "|" + e, '|') == [c, d, e]
  {
    SplitNone(e, '|');
    SplitFirst(d, '|', e);
    SplitFirst(c, '|', d + ['|'] + e);
    assert c + "|" + d + "|" + e == c + ['|'] + (d + ['|'] + e);
  }

  lemma SplitFive(a: string, b: string, c: string, d: string, e: string)
    requires '|' !in a && '|' !in b && '|' !in c && '|' !in d && '|' !in e
    ensures Split(a + "|" + b + "|" + c + "|" + d + "|" + e, '|') == [a, b, c, d, e]
  {
    var rest := c + "|" + d + "|" + e;
    SplitThree(c, d, e);
    SplitFirst(b, '|', rest);
    SplitFirst(a, '|', b + ['|'] + rest);
    assert a + "|" + b + "|" + c + "|" + d + "|" + e == a + ['|'] + (b + ['|'] + rest);
  }

  lemma PackSplits(j: Json, kind: string, sid: string, ts: Option<int>, p: Option<Payload>)
    requires '|' !in kind && '|' !in sid
    ensures Split(Pack(j, kind, sid, ts, p), '|') == [MAGIC, kind, sid, TimestampText(ts), PayloadText(j, p)]
    ensures Split(Pack(j, kind, sid, ts, p), '|') ==
              ["PUNCH1", kind, sid, if ts.Some? then FormatInt(ts.value) else "",
               if p.Some? && 2 < |j.marshal(p.value)| <= 900 then EncodeRaw(Url, j.marshal(p.value)) else ""]
  {
    if PayloadText(j, p) != "" {
      EncodeRawSymbols(Url, j.marshal(p.value));
      SymbolsAreClean(Url, PayloadText(j, p));
    }
    SplitFive(MAGIC, kind, sid, TimestampText(ts), PayloadText(j, p));
  }

  lemma PayloadRoundTrip(j: Json, p: Option<Payload>, parts: seq<string>)
    requires Lawful(j) && |parts| == 5 && parts[4] == PayloadText(j, p)
    ensures ParsePayload(j, parts) == Carried(j, p)
  {
    if p.Some? {
      assert |j.marshal(p.value)| <= 2 <==> p.value == Payload("", "");
      if PayloadText(j, p) != "" {
        RawRoundTrip(Url, j.marshal(p.value));
      } else if 2 < |j.marshal(p.value)| <= 900 {
        EncodeRawSymbols(Url, j.marshal(p.value));
      }
    }
  }

  /** Unpacking undoes packing, with the payload absent exactly when it does not travel. */
  lemma PackRoundTrip(j: Json, kind: string, sid: string, ts: Option<int>, p: Option<Payload>)
    requires Lawful(j)
    requires '|' !in kind && '|' !in sid
    requires ts.Some? ==> IsInt64(ts.value)
    ensures Unpack(j, Pack(j, kind, sid, ts, p)) == Some(Packet(kind, sid, ts, Carried(j, p)))
  {
    var s := Pack(j, kind, sid, ts, p);
    PackTrims(j, kind, sid, ts, p);
    PackSplits(j, kind, sid, ts, p);
    assert s[..|MAGIC + "|"|] == MAGIC + "|";
    if ts.Some? {
      FormatParse(ts.value);
    }
    PayloadRoundTrip(j, p, Split(s, '|'));
  }

  /** Whatever bytes unpack accepts, packing the result again and unpacking gives the same packet back, up to a
      payload that does not travel. */
  lemma RepackStable(j: Json, b: string)
    requires Lawful(j) && Unpack(j, b).Some?
    ensures var q := Unpack(j, b).value;
            Unpack(j, Pack(j, q.kind, q.sid, q.ts, q.payload)) == Some(q.(payload := Carried(j, q.payload)))
  {
    var q := Unpack(j, b).value;
    PackRoundTrip(j, q.kind, q.sid, q.ts, q.payload);
  }

  lemma PrefixIsFirstPart(s: string)
    ensures HasPrefix(s, MAGIC + "|") <==> |Split(s, '|')| >= 2 && Split(s, '|')[0] == "PUNCH1"
  {
    if HasPrefix(s, MAGIC + "|") {
      assert s == "PUNCH1" + ['|'] + s[7..];
      SplitFirst("PUNCH1", '|', s[7..]);
    }
    JoinSplit(s, '|');
  }

  /** Exactly what unpack accepts: at least four parts, the first of them PUNCH1. Further parts than five are ignored, a
      timestamp that is no number and a payload that cannot be read are left out, and the packet is still accepted. */
  lemma UnpackExactly(j: Json, b: string)
    ensures var parts := Split(TrimSpace(b), '|');
            && (Unpack(j, b).Some? <==> |parts| >= 4 && parts[0] == "PUNCH1")
            && (Unpack(j, b).Some? ==>
                  var q := Unpack(j, b).value;
                  && q.kind == parts[1] && q.sid == parts[2] && q.ts == ParseInt(parts[3])
                  && (|parts| == 4 || parts[4] == "" ==> q.payload == None)
                  && (|parts| > 4 && parts[4] != "" ==>
                        q.payload == match Decode(Url, false, parts[4])
                                     case None => None
                                     case Some(raw) => j.unmarshal(raw)))
  {
    PrefixIsFirstPart(TrimSpace(b));
  }

  /** What a node with this key in this room sends of itself. */
  lemma IdentityOnTheWire(j: Json, kind: string, sid: string, ts: Option<int>, wgPub: string, room: string)
    requires Lawful(j) && '|' !in kind && '|' !in sid && (ts.Some? ==> IsInt64(ts.value))
    ensures var q := Unpack(j, Pack(j, kind, sid, ts, LocalPayload(wgPub, room)));
            q.Some? && q.value.payload ==
              if Blank(wgPub) || |j.marshal(Payload(wgPub, room))| > 900 then None else Some(Payload(wgPub, room))
  {
    PackRoundTrip(j, kind, sid, ts, LocalPayload(wgPub, room));
    assert Blank("");
  }
}
