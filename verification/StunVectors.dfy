/** The STUN parser on bytes written out: headers, attribute types, families and the masks of RFC 5389 as numbers. */
module StunVectors {
  import opened Text
  import opened Endpoint
  import opened StunWire
  import opened StunParser

  /** The twenty bytes before the attributes of a binding response. */
  function ResponseHeader(length: Byte, tx: TxId): seq<Byte> {
    [0x01, 0x01, 0x00, length, 0x21, 0x12, 0xa4, 0x42] + tx
  }

  predicate AllBits(p: seq<nat>) {
    forall i :: 0 <= i < |p| ==> p[i] < 2
  }

  /** The number with these binary digits. */
  function Word(p: seq<nat>): nat {
    if p == [] then 0 else 2 * Word(p[..|p| - 1]) + p[|p| - 1]
  }

  lemma WordStep(p: seq<nat>, d: nat)
    ensures Word(p + [d]) == 2 * Word(p) + d
  {
    assert (p + [d])[..|p|] == p;
  }

  function XorSeq(p: seq<nat>, q: seq<nat>): (r: seq<nat>)
    requires |p| == |q| && AllBits(p) && AllBits(q)
    ensures |r| == |p| && forall i :: 0 <= i < |p| ==> r[i] == XorBit(p[i], q[i])
  {
    seq(|p|, i requires 0 <= i < |p| => XorBit(p[i], q[i]))
  }

  lemma WordFits(p: seq<nat>)
    requires AllBits(p)
    ensures Word(p) < Pow2(|p|)
  {
    if p != [] {
      WordFits(p[..|p| - 1]);
    }
  }

  lemma XorStep(x: nat, y: nat, p: nat, q: nat, bits: nat)
    requires x < Pow2(bits) && y < Pow2(bits) && p < 2 && q < 2
    ensures 2 * x + p < Pow2(bits + 1) && 2 * y + q < Pow2(bits + 1)
    ensures XorBits(2 * x + p, 2 * y + q, bits + 1) == 2 * XorBits(x, y, bits) + XorBit(p, q)
  {
    assert (2 * x + p) / 2 == x && (2 * x + p) % 2 == p;
    assert (2 * y + q) / 2 == y && (2 * y + q) % 2 == q;
  }

  /** Exclusive or works on each binary digit. */
  lemma {:induction false} XorWords(p: seq<nat>, q: seq<nat>)
    requires |p| == |q| && AllBits(p) && AllBits(q)
    ensures Word(p) < Pow2(|p|) && Word(q) < Pow2(|p|)
    ensures XorBits(Word(p), Word(q), |p|) == Word(XorSeq(p, q))
  {
    WordFits(p);
    WordFits(q);
    if p != [] {
      var n := |p| - 1;
      XorWords(p[..n], q[..n]);
      XorStep(Word(p[..n]), Word(q[..n]), p[n], q[n], n);
      assert XorSeq(p, q)[..n] == XorSeq(p[..n], q[..n]);
    }
  }

  /** The bits of two words, and what their exclusive or is. */
  lemma XorOfWords(x: nat, y: nat, z: nat, bits: nat, p: seq<nat>, q: seq<nat>, r: seq<nat>)
    requires |p| == |q| == |r| == bits && AllBits(p) && AllBits(q)
    requires x == Word(p) && y == Word(q) && z == Word(r) && forall i :: 0 <= i < bits ==> r[i] == XorBit(p[i], q[i])
    ensures x < Pow2(bits) && y < Pow2(bits) && XorBits(x, y, bits) == z
  {
    XorWords(p, q);
    assert r == XorSeq(p, q);
  }

  lemma Hex(p: seq<nat>, a: nat, b: nat, c: nat, d: nat)
    ensures Word(p + [a, b, c, d]) == 16 * Word(p) + 8 * a + 4 * b + 2 * c + d
  {
    WordStep(p, a);
    WordStep(p + [a], b);
    WordStep(p + [a] + [b], c);
    WordStep(p + [a] + [b] + [c], d);
    assert p + [a] + [b] + [c] + [d] == p + [a, b, c, d];
  }

  /** The number that four hexadecimal digits make, given in binary. */
  function HexValue(p: seq<nat>): nat
    requires |p| == 16
  {
    4096 * (8 * p[0] + 4 * p[1] + 2 * p[2] + p[3]) + 256 * (8 * p[4] + 4 * p[5] + 2 * p[6] + p[7])
    + 16 * (8 * p[8] + 4 * p[9] + 2 * p[10] + p[11]) + 8 * p[12] + 4 * p[13] + 2 * p[14] + p[15]
  }

  lemma TwoDigits(h: seq<nat>, p: seq<nat>)
    requires |p| == 8
    ensures Word(h + p) == 256 * Word(h) + 16 * (8 * p[0] + 4 * p[1] + 2 * p[2] + p[3])
                           + 8 * p[4] + 4 * p[5] + 2 * p[6] + p[7]
  {
    Hex(h, p[0], p[1], p[2], p[3]);
    Hex(h + [p[0], p[1], p[2], p[3]], p[4], p[5], p[6], p[7]);
    assert h + [p[0], p[1], p[2], p[3]] + [p[4], p[5], p[6], p[7]] == h + p;
  }

  lemma FourDigits(h: seq<nat>, p: seq<nat>)
    requires |p| == 16
    ensures Word(h + p) == 0x1_0000 * Word(h) + HexValue(p)
  {
    TwoDigits(h, p[..8]);
    TwoDigits(h + p[..8], p[8..]);
    assert h + p[..8] + p[8..] == h + p;
  }

  lemma WordOf16(p: seq<nat>)
    requires |p| == 16
    ensures Word(p) == HexValue(p)
  {
    FourDigits([], p);
    assert [] + p == p;
  }

  lemma Xor16Bits(x: U16, y: U16, z: U16, p: seq<nat>, q: seq<nat>, r: seq<nat>)
    requires |p| == |q| == |r| == 16 && AllBits(p) && AllBits(q)
    requires forall i :: 0 <= i < 16 ==> r[i] == XorBit(p[i], q[i])
    requires x == HexValue(p) && y == HexValue(q) && z == HexValue(r)
    ensures Xor16(x, y) == z
  {
    WordOf16(p);
    WordOf16(q);
    WordOf16(r);
    XorOfWords(x, y, z, 16, p, q, r);
  }

  lemma Xor32Halves(x: U32, y: U32, z: U32,
                    p: seq<nat>, q: seq<nat>, r: seq<nat>, s: seq<nat>, t: seq<nat>, u: seq<nat>)
    requires |p| == |q| == |r| == 16 && AllBits(p) && AllBits(q)
    requires |s| == |t| == |u| == 16 && AllBits(s) && AllBits(t)
    requires forall i :: 0 <= i < 16 ==> r[i] == XorBit(p[i], q[i]) && u[i] == XorBit(s[i], t[i])
    requires x == 0x1_0000 * HexValue(p) + HexValue(s)
    requires y == 0x1_0000 * HexValue(q) + HexValue(t)
    requires z == 0x1_0000 * HexValue(r) + HexValue(u)
    ensures Xor32(x, y) == z
  {
    WordOf32(p, s);
    WordOf32(q, t);
    WordOf32(r, u);
    XorOfWords(x, y, z, 32, p + s, q + t, r + u);
  }

  lemma WordOf32(p: seq<nat>, s: seq<nat>)
    requires |p| == |s| == 16
    ensures Word(p + s) == 0x1_0000 * HexValue(p) + HexValue(s)
  {
    WordOf16(p);
    FourDigits(p, s);
  }

  /** The port and the address of the sample, with the mask undone. */
  lemma SamplePort(x: U16, y: U16)
    requires x == 0xa147 && y == 0x2112
    ensures Xor16(x, y) == 32853
  {
    Xor16Bits(x, y, 32853,
              [1, 0, 1, 0, 0, 0, 0, 1, 0, 1, 0, 0, 0, 1, 1, 1],
              [0, 0, 1, 0, 0, 0, 0, 1, 0, 0, 0, 1, 0, 0, 1, 0],
              [1, 0, 0, 0, 0, 0, 0, 0, 0, 1, 0, 1, 0, 1, 0, 1]);
  }

  predicate Masks(x: nat, y: nat, z: nat, p: seq<nat>, q: seq<nat>, r: seq<nat>) {
    && |p| == |q| == |r| == 16 && AllBits(p) && AllBits(q)
    && (forall i :: 0 <= i < 16 ==> r[i] == XorBit(p[i], q[i]))
    && x == HexValue(p) && y == HexValue(q) && z == HexValue(r)
  }

  lemma HighHalf() returns (p: seq<nat>, q: seq<nat>, r: seq<nat>)
    ensures Masks(0xe112, 0x2112, 0xc000, p, q, r)
  {
    p := [1, 1, 1, 0, 0, 0, 0, 1, 0, 0, 0, 1, 0, 0, 1, 0];
    q := [0, 0, 1, 0, 0, 0, 0, 1, 0, 0, 0, 1, 0, 0, 1, 0];
    r := [1, 1, 0, 0, 0, 0, 0, 0, 0, 0, 0, 0, 0, 0, 0, 0];
  }

  lemma LowHalf() returns (p: seq<nat>, q: seq<nat>, r: seq<nat>)
    ensures Masks(0xa643, 0xa442, 0x0201, p, q, r)
  {
    p := [1, 0, 1, 0, 0, 1, 1, 0, 0, 1, 0, 0, 0, 0, 1, 1];
    q := [1, 0, 1, 0, 0, 1, 0, 0, 0, 1, 0, 0, 0, 0, 1, 0];
    r := [0, 0, 0, 0, 0, 0, 1, 0, 0, 0, 0, 0, 0, 0, 0, 1];
  }

  lemma SampleAddress(x: U32, y: U32)
    requires x == 0xe112_a643 && y == 0x2112_a442
    ensures Xor32(x, y) == 0xc000_0201
  {
    var p, q, r := HighHalf();
    var s, t, u := LowHalf();
    Xor32Halves(x, y, 0xc000_0201, p, q, r, s, t, u);
  }

  lemma CookieBytes()
    ensures PutU32(MAGIC_COOKIE) == [0x21, 0x12, 0xa4, 0x42] && U32At([0x21, 0x12, 0xa4, 0x42]) == MAGIC_COOKIE
    ensures COOKIE_HIGH == 0x21 * 256 + 0x12
  {
    PutGet32(MAGIC_COOKIE);
  }

  lemma HeaderBytes(length: Byte, tx: TxId)
    ensures Header(BINDING_RESPONSE, length, tx) == ResponseHeader(length, tx)
  {
    CookieBytes();
    assert PutU16(BINDING_RESPONSE) == [0x01, 0x01] && PutU16(length) == [0x00, length];
  }

  lemma ParsesHeader(attrs: seq<Byte>, tx: TxId)
    requires |attrs| < 256
    ensures Parse(ResponseHeader(|attrs|, tx) + attrs, tx) == Walk(attrs, MAGIC_COOKIE, None)
  {
    HeaderBytes(|attrs|, tx);
    MessageIs(tx, attrs, ResponseHeader(|attrs|, tx));
    ParsesMessage(tx, attrs, []);
  }

  lemma MessageIs(tx: TxId, attrs: seq<Byte>, h: seq<Byte>)
    requires |attrs| < 256 && h == Header(BINDING_RESPONSE, |attrs|, tx)
    ensures Message(tx, attrs, []) == h + attrs
  {
  }

  /** One attribute whose value takes eight bytes and whose family is IPv4. */
  function AddressAttribute(kind: Byte, reserved: Byte, port: seq<Byte>, ip: seq<Byte>): (b: seq<Byte>)
    requires |port| == 2 && |ip| == 4
    ensures |b| == 12
  {
    [0x00, kind, 0x00, 0x08, reserved, 0x01] + port + ip
  }

  lemma AddressFields(kind: Byte, reserved: Byte, port: seq<Byte>, ip: seq<Byte>)
    requires |port| == 2 && |ip| == 4
    ensures var b := AddressAttribute(kind, reserved, port, ip);
            && U16At(b[..2]) == kind && U16At(b[2..4]) == 8 && b[12..] == []
            && b[4..12] == [reserved, 0x01] + port + ip
    ensures var v: seq<Byte> := [reserved, 0x01] + port + ip;
            v[1] == 0x01 && v[2..4] == port && v[4..8] == ip
  {
    var b := AddressAttribute(kind, reserved, port, ip);
    assert b[..2] == [0x00, kind] && b[2..4] == [0x00, 0x08];
    assert b == [0x00, kind, 0x00, 0x08] + ([reserved, 0x01] + port + ip);
  }

  lemma WalksOneAddress(kind: Byte, reserved: Byte, port: seq<Byte>, ip: seq<Byte>)
    requires |port| == 2 && |ip| == 4
    ensures var b := AddressAttribute(kind, reserved, port, ip);
            Walk(b, MAGIC_COOKIE, None) == Conclude(Visit(kind, b[4..12], MAGIC_COOKIE, None))
  {
    var b := AddressAttribute(kind, reserved, port, ip);
    AddressFields(kind, reserved, port, ip);
    assert b[4..4 + 8] == b[4..12] && b[4 + Padded(8)..] == [];
  }

  /** A response with attribute 0x0001 says what its bytes say. */
  lemma MappedResponse(tx: TxId, reserved: Byte, port: seq<Byte>, ip: seq<Byte>)
    requires |port| == 2 && |ip| == 4
    ensures var hi: int, lo: int := port[0], port[1];
            Parse(ResponseHeader(12, tx) + AddressAttribute(0x01, reserved, port, ip), tx)
            == Found(Address(ip, hi * 256 + lo))
  {
    ParsesHeader(AddressAttribute(0x01, reserved, port, ip), tx);
    WalksOneAddress(0x01, reserved, port, ip);
    AddressFields(0x01, reserved, port, ip);
  }

  /** In a response with attribute 0x0020 the port and the address are masked with these numbers. */
  lemma XorMappedResponse(tx: TxId, reserved: Byte, port: seq<Byte>, ip: seq<Byte>)
    requires |port| == 2 && |ip| == 4
    ensures Parse(ResponseHeader(12, tx) + AddressAttribute(0x20, reserved, port, ip), tx)
         == Found(Address(PutU32(Xor32(U32At(ip), 0x2112_a442)), Xor16(U16At(port), 0x2112)))
  {
    ParsesHeader(AddressAttribute(0x20, reserved, port, ip), tx);
    WalksOneAddress(0x20, reserved, port, ip);
    AddressFields(0x20, reserved, port, ip);
    XorVisit([reserved, 0x01] + port + ip, port, ip);
  }

  lemma XorVisit(v: seq<Byte>, port: seq<Byte>, ip: seq<Byte>)
    requires |v| == 8 && v[1] == 0x01 && v[2..4] == port && v[4..8] == ip
    ensures Visit(0x20, v, MAGIC_COOKIE, None)
         == Some(Address(PutU32(Xor32(U32At(ip), 0x2112_a442)), Xor16(U16At(port), 0x2112)))
  {
    assert COOKIE_HIGH == 0x2112;
  }

  lemma SampleWords()
    ensures U16At([0xa1, 0x47]) == 0xa147 && U32At([0xe1, 0x12, 0xa6, 0x43]) == 0xe112_a643
    ensures PutU32(0xc000_0201) == [192, 0, 2, 1]
  {
    var ip: seq<Byte> := [0xe1, 0x12, 0xa6, 0x43];
    assert ip[..2] == [0xe1, 0x12] && ip[2..] == [0xa6, 0x43];
  }

  /** The mapped address of the sample response in section 2.2 of RFC 5769, alone in a response. */
  lemma SampleResponse(tx: TxId)
    ensures Parse([0x01, 0x01, 0x00, 0x0c, 0x21, 0x12, 0xa4, 0x42] + tx
                  + [0x00, 0x20, 0x00, 0x08, 0x00, 0x01, 0xa1, 0x47, 0xe1, 0x12, 0xa6, 0x43], tx)
         == Found(Address([192, 0, 2, 1], 32853))
  {
    var b: seq<Byte> := [0x00, 0x20, 0x00, 0x08, 0x00, 0x01, 0xa1, 0x47, 0xe1, 0x12, 0xa6, 0x43];
    assert b == AddressAttribute(0x20, 0x00, [0xa1, 0x47], [0xe1, 0x12, 0xa6, 0x43]);
    XorMappedResponse(tx, 0x00, [0xa1, 0x47], [0xe1, 0x12, 0xa6, 0x43]);
    SampleWords();
    SamplePort(U16At([0xa1, 0x47]), 0x2112);
    SampleAddress(U32At([0xe1, 0x12, 0xa6, 0x43]), 0x2112_a442);
  }

  /** Which check of the header a packet fails first, in bytes. */
  lemma HeaderErrorsExactly(data: seq<Byte>, tx: TxId)
    ensures Parse(data, tx) == Failed(TooShort) <==> |data| < 20
    ensures Parse(data, tx) == Failed(WrongType) <==> |data| >= 20 && data[..2] != [0x01, 0x01]
    ensures Parse(data, tx) == Failed(BadCookie) <==>
              |data| >= 20 && data[..2] == [0x01, 0x01] && data[4..8] != [0x21, 0x12, 0xa4, 0x42]
    ensures Parse(data, tx) == Failed(WrongTransaction) <==>
              |data| >= 20 && data[..2] == [0x01, 0x01] && data[4..8] == [0x21, 0x12, 0xa4, 0x42] && data[8..20] != tx
    ensures Parse(data, tx) == Failed(LengthOverflow) <==>
              && |data| >= 20 && data[..2] == [0x01, 0x01] && data[4..8] == [0x21, 0x12, 0xa4, 0x42]
              && data[8..20] == tx
              && var hi: int, lo: int := data[2], data[3]; hi * 256 + lo > |data| - 20
  {
    if |data| >= 20 {
      CookieBytes();
      GetPut16(data[..2]);
      GetPut32(data[4..8]);
      if HeaderError(data, tx).None? && U16At(data[2..4]) <= |data| - 20 {
        WalkErrors(data[20..20 + U16At(data[2..4])], U32At(data[4..8]), None);
      }
    }
  }
}
