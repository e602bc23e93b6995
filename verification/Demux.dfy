/** The order in which a shared UDP socket hands packets to its consumers (tor/udp_logic.go,
    dht/udp_wireguard_demux.go). */
module Demux {
  import opened Text
  import opened Endpoint
  import opened StunWire
  import opened StunParser
  import opened PunchPacket

  function LittleEndian32(b: seq<Byte>): nat
    requires |b| >= 4
  {
    var b0: int, b1: int, b2: int, b3: int := b[0], b[1], b[2], b[3];
    b0 + 0x100 * b1 + 0x1_0000 * b2 + 0x100_0000 * b3
  }

  predicate LooksLikeWireGuard(b: seq<Byte>) {
    |b| >= 4 &&
    var t := LittleEndian32(b);
    if t == 1 then |b| >= 148
    else if t == 2 then |b| >= 92
    else if t == 3 then |b| >= 64
    else if t == 4 then |b| >= 32
    else false
  }

  /** The checks of deliverSTUNPacket before it looks into its table. */
  predicate IsBindingResponse(data: seq<Byte>) {
    |data| >= 20 && U32At(data[4..8]) == MAGIC_COOKIE && U16At(data[..2]) == BINDING_RESPONSE
  }

  function TransactionOf(data: seq<Byte>): TxId
    requires |data| >= 20
  {
    data[8..20]
  }

  datatype Consumer = WireGuard | Stun | Nobody

  function Route(data: seq<Byte>): Consumer {
    if LooksLikeWireGuard(data) then WireGuard
    else if IsBindingResponse(data) then Stun
    else Nobody
  }

  /** The four kinds of WireGuard messages, by their first four bytes and from their full length on, and nothing else go
      to WireGuard. */
  lemma WireGuardExactly(data: seq<Byte>)
    ensures Route(data) == WireGuard <==>
              || (|data| >= 148 && data[..4] == [1, 0, 0, 0])
              || (|data| >= 92 && data[..4] == [2, 0, 0, 0])
              || (|data| >= 64 && data[..4] == [3, 0, 0, 0])
              || (|data| >= 32 && data[..4] == [4, 0, 0, 0])
  {
    if |data| >= 4 {
      FirstWord(data, 1);
      FirstWord(data, 2);
      FirstWord(data, 3);
      FirstWord(data, 4);
    }
  }

  lemma FirstWord(data: seq<Byte>, t: Byte)
    requires |data| >= 4
    ensures LittleEndian32(data) == t <==> data[..4] == [t, 0, 0, 0]
  {
    assert data[..4] == [data[0], data[1], data[2], data[3]];
  }

  /** No binding response is ever taken for WireGuard traffic, and exactly the packets with these bytes reach the
      table. */
  lemma BindingResponsesReachTheTable(data: seq<Byte>)
    ensures Route(data) == Stun <==>
              |data| >= 20 && data[..2] == [0x01, 0x01] && data[4..8] == [0x21, 0x12, 0xa4, 0x42]
    ensures Route(data) == Stun <==> IsBindingResponse(data)
  {
    if |data| >= 20 {
      GetPut16(data[..2]);
      GetPut32(data[4..8]);
      PutGet32(MAGIC_COOKIE);
      assert PutU16(BINDING_RESPONSE) == [0x01, 0x01] && PutU32(MAGIC_COOKIE) == [0x21, 0x12, 0xa4, 0x42];
      WireGuardExactly(data);
      assert data[..2][0] == data[..4][0] && data[..2][1] == data[..4][1];
    }
  }

  /** The table's checks and the parser's header checks are the same, once the transaction id is right. */
  lemma TableChecksSuffice(data: seq<Byte>, tx: TxId)
    ensures HeaderError(data, tx).None? <==> IsBindingResponse(data) && TransactionOf(data) == tx
  {
  }

  /** The first byte of a text in UTF-8. */
  predicate StartsText(data: seq<Byte>, text: string) {
    |data| > 0 && |text| > 0 && if text[0] < '\U{80}' then data[0] == text[0] as int else data[0] >= 0xc2
  }

  /** Nothing that unpack accepts, leading white space included, is ever taken for WireGuard traffic. */
  lemma PunchPacketsAreNotWireGuard(j: Json, text: string, data: seq<Byte>)
    requires Unpack(j, text).Some? && StartsText(data, text)
    ensures !LooksLikeWireGuard(data)
  {
    if !IsSpace(text[0]) {
      TrimRightEnds(text);
      assert (MAGIC + "|")[0] == 'P';
    }
  }
}
