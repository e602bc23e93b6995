/** STUN binding requests and responses (tor/stun.go; sections 6, 15, 15.1 and 15.2 of RFC 5389). */
module StunParser {
  import opened Text
  import opened Endpoint
  import opened StunWire

  const BINDING_REQUEST: U16 := 0x0001
  const BINDING_RESPONSE: U16 := 0x0101
  const MAGIC_COOKIE: U32 := 0x2112_A442
  const COOKIE_HIGH: U16 := MAGIC_COOKIE / 0x1_0000
  const MAPPED_ADDRESS: U16 := 0x0001
  const XOR_MAPPED_ADDRESS: U16 := 0x0020
  const FAMILY_IPV4: Byte := 1

  type TxId = s: seq<Byte> | |s| == 12 witness seq(12, i => 0)

  datatype Address = Address(ip: seq<Byte>, port: U16)

  datatype StunError = TooShort | WrongType | BadCookie | WrongTransaction | LengthOverflow | NoAddress

  /** OutOfRange stands for the slice expression of line 107 whose bound lies beyond the slice. */
  datatype Outcome = Found(addr: Address) | Failed(error: StunError) | OutOfRange

  function Header(kind: U16, length: U16, tx: TxId): seq<Byte> {
    PutU16(kind) + PutU16(length) + PutU32(MAGIC_COOKIE) + tx
  }

  method BuildSTUNRequest(transactionID: TxId) returns (msg: array<Byte>)
    ensures fresh(msg) && msg[..] == Header(BINDING_REQUEST, 0, transactionID)
    ensures msg[..] == [0x00, 0x01, 0x00, 0x00, 0x21, 0x12, 0xa4, 0x42] + transactionID
  {
    msg := new Byte[20](i => 0);
    Put(msg, 0, PutU16(BINDING_REQUEST));
    Put(msg, 2, PutU16(0));
    Put(msg, 4, PutU32(MAGIC_COOKIE));
    Put(msg, 8, transactionID);
    assert |PutU32(MAGIC_COOKIE)| == 4;
    assert msg[..] == msg[0..2] + msg[2..4] + msg[4..8] + msg[8..20];
    assert PutU16(BINDING_REQUEST) == [0x00, 0x01] && PutU16(0) == [0x00, 0x00];
    assert PutU32(MAGIC_COOKIE) == [0x21, 0x12, 0xa4, 0x42];
  }

  /** Copying into a buffer. */
  method Put(a: array<Byte>, at: nat, b: seq<Byte>)
    requires at + |b| <= a.Length
    modifies a
    ensures a[at..at + |b|] == b
    ensures forall i :: 0 <= i < at || at + |b| <= i < a.Length ==> a[i] == old(a[i])
  {
    for i := 0 to |b|
      invariant a[at..at + i] == b[..i]
      invariant forall j :: 0 <= j < at || at + i <= j < a.Length ==> a[j] == old(a[j])
    {
      a[at + i] := b[i];
    }
  }

  // ----- the parser -----

  function Padded(n: nat): nat {
    (n + 3) / 4 * 4
  }

  predicate IsIpv4(val: seq<Byte>) {
    |val| >= 8 && val[1] == FAMILY_IPV4
  }

  function XorDecoded(val: seq<Byte>, cookie: U32): Address
    requires |val| >= 8
  {
    Address(PutU32(Xor32(U32At(val[4..8]), cookie)), Xor16(U16At(val[2..4]), COOKIE_HIGH))
  }

  function Decoded(val: seq<Byte>): Address
    requires |val| >= 8
  {
    Address(val[4..8], U16At(val[2..4]))
  }

  /** What one attribute does to the result so far. */
  function Visit(kind: U16, val: seq<Byte>, cookie: U32, result: Option<Address>): Option<Address> {
    if kind == XOR_MAPPED_ADDRESS && IsIpv4(val) then Some(XorDecoded(val, cookie))
    else if kind == MAPPED_ADDRESS && result.None? && IsIpv4(val) then Some(Decoded(val))
    else result
  }

  function Conclude(result: Option<Address>): Outcome {
    if result.None? then Failed(NoAddress) else Found(result.value)
  }

  function Walk(attrs: seq<Byte>, cookie: U32, result: Option<Address>): Outcome {
    if |attrs| < 4 then Conclude(result)
    else
      var kind, n := U16At(attrs[..2]), U16At(attrs[2..4]);
      if n > |attrs| - 4 then Conclude(result)
      else if 4 + Padded(n) > |attrs| then OutOfRange
      else Walk(attrs[4 + Padded(n)..], cookie, Visit(kind, attrs[4..4 + n], cookie, result))
  }

  function HeaderError(data: seq<Byte>, tx: TxId): Option<StunError> {
    if |data| < 20 then Some(TooShort)
    else if U16At(data[..2]) != BINDING_RESPONSE then Some(WrongType)
    else if U32At(data[4..8]) != MAGIC_COOKIE then Some(BadCookie)
    else if data[8..20] != tx then Some(WrongTransaction)
    else None
  }

  function Parse(data: seq<Byte>, tx: TxId): Outcome {
    if HeaderError(data, tx).Some? then Failed(HeaderError(data, tx).value)
    else if U16At(data[2..4]) > |data| - 20 then Failed(LengthOverflow)
    else Walk(data[20..20 + U16At(data[2..4])], U32At(data[4..8]), None)
  }

  /** The switch over one attribute. */
  method VisitAttribute(aType: U16, val: seq<Byte>, xorCookie: U32, before: Option<Address>)
      returns (result: Option<Address>)
    ensures result == Visit(aType, val, xorCookie, before)
  {
    result := before;
    if aType == XOR_MAPPED_ADDRESS {
      if |val| >= 8 && val[1] == FAMILY_IPV4 {
        var port := Xor16(U16At(val[2..4]), COOKIE_HIGH);
        var mapped := Xor32(U32At(val[4..8]), xorCookie);
        result := Some(Address(PutU32(mapped), port));
      }
    } else if aType == MAPPED_ADDRESS {
      if result.None? && |val| >= 8 && val[1] == FAMILY_IPV4 {
        result := Some(Address(val[4..8], U16At(val[2..4])));
      }
    }
  }

  /** The loop over a shrinking slice. The slice bound 4+aLen is computed in uint16 and never wraps. */
  method WalkAttributes(region: seq<Byte>, xorCookie: U32) returns (r: Outcome)
    requires |region| <= 0xffff
    ensures r == Walk(region, xorCookie, None)
  {
    var attrs := region;
    var result: Option<Address> := None;
    while |attrs| >= 4
      invariant |attrs| <= 0xffff
      invariant Walk(attrs, xorCookie, result) == Walk(region, xorCookie, None)
      decreases |attrs|
    {
      var aType := U16At(attrs[0..2]);
      var aLen := U16At(attrs[2..4]);
      if aLen > |attrs| - 4 {
        break;
      }
      var high: U16 := (4 + aLen) % 0x1_0000;
      assert high == 4 + aLen;
      var val := attrs[4..high];
      result := VisitAttribute(aType, val, xorCookie, result);
      var padded := Padded(aLen);
      if 4 + padded > |attrs| {
        return OutOfRange;
      }
      attrs := attrs[4 + padded..];
    }
    r := Conclude(result);
  }

  method ParseSTUNResponse(data: seq<Byte>, transactionID: TxId) returns (r: Outcome)
    ensures r == Parse(data, transactionID)
  {
    if |data| < 20 {
      return Failed(TooShort);
    }
    if U16At(data[0..2]) != BINDING_RESPONSE {
      return Failed(WrongType);
    }
    if U32At(data[4..8]) != MAGIC_COOKIE {
      return Failed(BadCookie);
    }
    if data[8..20] != transactionID {
      return Failed(WrongTransaction);
    }
    var attrLen := U16At(data[2..4]);
    var attrs := data[20..];
    if attrLen > |attrs| {
      return Failed(LengthOverflow);
    }
    attrs := attrs[..attrLen];
    assert attrs == data[20..20 + attrLen];
    r := WalkAttributes(attrs, U32At(data[4..8]));
  }

  /** Once the walk has begun, the only error is that there was no address. */
  lemma {:induction false} WalkErrors(attrs: seq<Byte>, cookie: U32, result: Option<Address>)
    ensures Walk(attrs, cookie, result).Failed? ==> Walk(attrs, cookie, result).error == NoAddress
  {
    if |attrs| >= 4 && U16At(attrs[2..4]) <= |attrs| - 4 {
      var n := U16At(attrs[2..4]);
      if 4 + Padded(n) <= |attrs| {
        WalkErrors(attrs[4 + Padded(n)..], cookie, Visit(U16At(attrs[..2]), attrs[4..4 + n], cookie, result));
      }
    }
  }

  // ----- attribute lists -----

  /** An attribute as its sender means it. An address may carry any reserved first byte and any bytes after the
      address; everything that is not an IPv4 address of the two kinds is foreign. */
  datatype Attribute =
    | XorMapped(addr: Address, reserved: Byte, extra: seq<Byte>)
    | Mapped(addr: Address, reserved: Byte, extra: seq<Byte>)
    | Foreign(kind: U16, val: seq<Byte>)

  function Kind(a: Attribute): U16 {
    match a
    case XorMapped(_, _, _) => XOR_MAPPED_ADDRESS
    case Mapped(_, _, _) => MAPPED_ADDRESS
    case Foreign(kind, _) => kind
  }

  /** The value of an attribute: sections 15.1 and 15.2 of RFC 5389. */
  function Val(a: Attribute): seq<Byte> {
    match a
    case XorMapped(addr, reserved, extra) =>
      [reserved, FAMILY_IPV4] + PutU16(Xor16(addr.port, COOKIE_HIGH))
      + (if |addr.ip| == 4 then PutU32(Xor32(U32At(addr.ip), MAGIC_COOKIE)) else []) + extra
    case Mapped(addr, reserved, extra) => [reserved, FAMILY_IPV4] + PutU16(addr.port) + addr.ip + extra
    case Foreign(_, val) => val
  }

  predicate Meant(a: Attribute) {
    && |Val(a)| <= 0xffff
    && match a
       case XorMapped(addr, _, _) => |addr.ip| == 4
       case Mapped(addr, _, _) => |addr.ip| == 4
       case Foreign(kind, val) => !IsIpv4(val) || (kind != XOR_MAPPED_ADDRESS && kind != MAPPED_ADDRESS)
  }

  /** An attribute on the wire, with the bytes that pad its value to a multiple of four (section 15). */
  datatype Item = Item(attr: Attribute, pad: seq<Byte>)

  predicate Valid(i: Item) {
    Meant(i.attr) && |i.pad| == Padded(|Val(i.attr)|) - |Val(i.attr)|
  }

  function EncodeItem(i: Item): seq<Byte>
    requires Meant(i.attr)
  {
    PutU16(Kind(i.attr)) + PutU16(|Val(i.attr)|) + Val(i.attr) + i.pad
  }

  predicate AllValid(items: seq<Item>) {
    forall i :: 0 <= i < |items| ==> Valid(items[i])
  }

  function Encode(items: seq<Item>): seq<Byte>
    requires AllValid(items)
  {
    if items == [] then [] else EncodeItem(items[0]) + Encode(items[1..])
  }

  function LastXor(items: seq<Item>): Option<Address> {
    if items == [] then None
    else
      var last := items[|items| - 1].attr;
      if last.XorMapped? then Some(last.addr) else LastXor(items[..|items| - 1])
  }

  function FirstMapped(items: seq<Item>): Option<Address> {
    if items == [] then None
    else if items[0].attr.Mapped? then Some(items[0].attr.addr)
    else FirstMapped(items[1..])
  }

  /** What a list of attributes says: the last XOR-mapped address, else the first mapped one. */
  function Meaning(items: seq<Item>): Option<Address> {
    if LastXor(items).Some? then LastXor(items) else FirstMapped(items)
  }

  /** After the last whole attribute: nothing that could still be one. */
  predicate Stops(tail: seq<Byte>) {
    |tail| < 4 || U16At(tail[2..4]) > |tail| - 4
  }

  /** A last attribute whose value is whole but whose padding is not. */
  predicate PaddingCut(tail: seq<Byte>) {
    |tail| >= 4 && U16At(tail[2..4]) <= |tail| - 4 && 4 + Padded(U16At(tail[2..4])) > |tail|
  }

  lemma ItemFields(i: Item, rest: seq<Byte>)
    requires Valid(i)
    ensures var s, n := EncodeItem(i) + rest, |Val(i.attr)|;
            && |s| >= 4 && U16At(s[..2]) == Kind(i.attr) && U16At(s[2..4]) == n
            && n <= |s| - 4 && 4 + Padded(n) <= |s|
            && s[4..4 + n] == Val(i.attr) && s[4 + Padded(n)..] == rest
  {
    var s := EncodeItem(i) + rest;
    assert s[..2] == PutU16(Kind(i.attr));
    assert s[2..4] == PutU16(|Val(i.attr)|);
    PutGet16(Kind(i.attr));
    PutGet16(|Val(i.attr)|);
  }

  lemma DecodesXor(addr: Address, reserved: Byte, extra: seq<Byte>)
    requires |addr.ip| == 4
    ensures var v := Val(XorMapped(addr, reserved, extra)); IsIpv4(v) && XorDecoded(v, MAGIC_COOKIE) == addr
  {
    var v, port, ip := Val(XorMapped(addr, reserved, extra)), Xor16(addr.port, COOKIE_HIGH),
        Xor32(U32At(addr.ip), MAGIC_COOKIE);
    PutGet32(ip);
    PutGet16(port);
    assert v[2..4] == PutU16(port) && v[4..8] == PutU32(ip);
    XorTwice16(addr.port, COOKIE_HIGH);
    XorTwice32(U32At(addr.ip), MAGIC_COOKIE);
    GetPut32(addr.ip);
  }

  lemma DecodesMapped(addr: Address, reserved: Byte, extra: seq<Byte>)
    requires |addr.ip| == 4
    ensures var v := Val(Mapped(addr, reserved, extra)); IsIpv4(v) && Decoded(v) == addr
  {
    var v := Val(Mapped(addr, reserved, extra));
    PutGet16(addr.port);
    assert v[2..4] == PutU16(addr.port) && v[4..8] == addr.ip;
  }

  /** The decoder undoes what the sender of an attribute did, and ignores foreign attributes. */
  lemma VisitMeans(a: Attribute, result: Option<Address>)
    requires Meant(a)
    ensures Visit(Kind(a), Val(a), MAGIC_COOKIE, result) ==
              match a
              case XorMapped(addr, _, _) => Some(addr)
              case Mapped(addr, _, _) => if result.None? then Some(addr) else result
              case Foreign(_, _) => result
  {
    match a
    case XorMapped(addr, reserved, extra) => DecodesXor(addr, reserved, extra);
    case Mapped(addr, reserved, extra) => DecodesMapped(addr, reserved, extra);
    case Foreign(_, _) =>
  }

  /** The result of visiting a list of attributes from an initial result. */
  function Gathered(items: seq<Item>, result: Option<Address>): Option<Address> {
    if LastXor(items).Some? then LastXor(items)
    else if result.Some? then result
    else FirstMapped(items)
  }

  lemma {:induction false} LastXorCons(items: seq<Item>)
    requires items != []
    ensures LastXor(items) == if LastXor(items[1..]).Some? then LastXor(items[1..])
                              else if items[0].attr.XorMapped? then Some(items[0].attr.addr) else None
  {
    if |items| > 1 {
      LastXorCons(items[..|items| - 1]);
      assert items[..|items| - 1][1..] == items[1..][..|items[1..]| - 1];
    }
  }

  /** Walking over encoded attributes gathers what they mean and goes on with the bytes after them. */
  lemma {:induction false} WalkItems(items: seq<Item>, tail: seq<Byte>, result: Option<Address>)
    requires AllValid(items)
    ensures Walk(Encode(items) + tail, MAGIC_COOKIE, result) == Walk(tail, MAGIC_COOKIE, Gathered(items, result))
  {
    if items == [] {
      assert Encode(items) + tail == tail;
    } else {
      var rest := Encode(items[1..]) + tail;
      assert Encode(items) + tail == EncodeItem(items[0]) + rest;
      ItemFields(items[0], rest);
      VisitMeans(items[0].attr, result);
      LastXorCons(items);
      WalkItems(items[1..], tail, Visit(Kind(items[0].attr), Val(items[0].attr), MAGIC_COOKIE, result));
    }
  }

  function Message(tx: TxId, attrs: seq<Byte>, trailing: seq<Byte>): seq<Byte>
    requires |attrs| <= 0xffff
  {
    Header(BINDING_RESPONSE, |attrs|, tx) + attrs + trailing
  }

  lemma HeaderFields(kind: U16, length: U16, tx: TxId, rest: seq<Byte>)
    ensures var data := Header(kind, length, tx) + rest;
            && |data| == 20 + |rest|
            && data[..2] == PutU16(kind) && data[2..4] == PutU16(length)
            && data[4..8] == PutU32(MAGIC_COOKIE) && data[8..20] == tx && data[20..] == rest
  {
    assert |PutU32(MAGIC_COOKIE)| == 4;
  }

  lemma HeaderAccepted(data: seq<Byte>, length: U16, tx: TxId)
    requires |data| >= 20
    requires data[..2] == PutU16(BINDING_RESPONSE) && data[2..4] == PutU16(length)
    requires data[4..8] == PutU32(MAGIC_COOKIE) && data[8..20] == tx
    ensures HeaderError(data, tx).None?
    ensures U16At(data[2..4]) == length && U32At(data[4..8]) == MAGIC_COOKIE
  {
    PutGet16(BINDING_RESPONSE);
    PutGet16(length);
    PutGet32(MAGIC_COOKIE);
  }

  lemma MessageFields(tx: TxId, attrs: seq<Byte>, trailing: seq<Byte>)
    requires |attrs| <= 0xffff
    ensures var data := Message(tx, attrs, trailing);
            && |data| == 20 + |attrs| + |trailing|
            && HeaderError(data, tx).None?
            && U16At(data[2..4]) == |attrs| && U32At(data[4..8]) == MAGIC_COOKIE
            && data[20..20 + |attrs|] == attrs
  {
    var h, rest := Header(BINDING_RESPONSE, |attrs|, tx), attrs + trailing;
    HeaderFields(BINDING_RESPONSE, |attrs|, tx, rest);
    assert Message(tx, attrs, trailing) == h + rest;
    HeaderAccepted(h + rest, |attrs|, tx);
    RegionOf(h + rest, rest, attrs, trailing);
  }

  lemma ParsesMessage(tx: TxId, attrs: seq<Byte>, trailing: seq<Byte>)
    requires |attrs| <= 0xffff
    ensures Parse(Message(tx, attrs, trailing), tx) == Walk(attrs, MAGIC_COOKIE, None)
  {
    MessageFields(tx, attrs, trailing);
  }

  lemma RegionOf(data: seq<Byte>, rest: seq<Byte>, attrs: seq<Byte>, trailing: seq<Byte>)
    requires |data| >= 20 && data[20..] == rest && rest == attrs + trailing
    ensures data[20..20 + |attrs|] == attrs
  {
    assert data[20..20 + |attrs|] == rest[..|attrs|];
  }

  /** The parser meets the specification: on a binding response with any attributes in any order, whatever foreign
      ones stand between them, it finds the last IPv4 XOR-mapped address with the exclusive-or undone, else the
      first IPv4 mapped address, else reports that there is none. */
  lemma ParserMeetsSpecification(tx: TxId, items: seq<Item>, tail: seq<Byte>, trailing: seq<Byte>)
    requires AllValid(items) && Stops(tail) && |Encode(items) + tail| <= 0xffff
    ensures Parse(Message(tx, Encode(items) + tail, trailing), tx) == Conclude(Meaning(items))
  {
    ParsesMessage(tx, Encode(items) + tail, trailing);
    WalkItems(items, tail, None);
  }

  // ----- every message is covered -----

  /** Reads one attribute back from its wire form. */
  function ReadItem(s: seq<Byte>): Item
    requires !Stops(s) && !PaddingCut(s)
  {
    var kind, n := U16At(s[..2]), U16At(s[2..4]);
    var val := s[4..4 + n];
    var pad := s[4 + n..4 + Padded(n)];
    if kind == XOR_MAPPED_ADDRESS && IsIpv4(val) then
        Item(XorMapped(XorDecoded(val, MAGIC_COOKIE), val[0], val[8..]), pad)
    else if kind == MAPPED_ADDRESS && IsIpv4(val) then Item(Mapped(Decoded(val), val[0], val[8..]), pad)
    else Item(Foreign(kind, val), pad)
  }

  lemma ReadXor(val: seq<Byte>)
    requires IsIpv4(val)
    ensures Val(XorMapped(XorDecoded(val, MAGIC_COOKIE), val[0], val[8..])) == val
  {
    var addr := XorDecoded(val, MAGIC_COOKIE);
    PutGet32(Xor32(U32At(val[4..8]), MAGIC_COOKIE));
    XorTwice16(U16At(val[2..4]), COOKIE_HIGH);
    XorTwice32(U32At(val[4..8]), MAGIC_COOKIE);
    GetPut16(val[2..4]);
    GetPut32(val[4..8]);
    assert val == [val[0], val[1]] + val[2..4] + val[4..8] + val[8..];
  }

  lemma ReadMapped(val: seq<Byte>)
    requires IsIpv4(val)
    ensures Val(Mapped(Decoded(val), val[0], val[8..])) == val
  {
    GetPut16(val[2..4]);
    assert val == [val[0], val[1]] + val[2..4] + val[4..8] + val[8..];
  }

  lemma Pieces(s: seq<Byte>, n: nat, m: nat)
    requires 4 + n <= m <= |s|
    ensures s == s[..2] + s[2..4] + s[4..4 + n] + s[4 + n..m] + s[m..]
  {
    assert s[..4] == s[..2] + s[2..4];
    assert s[..4 + n] == s[..4] + s[4..4 + n];
    assert s[..m] == s[..4 + n] + s[4 + n..m];
  }

  lemma ReadBack(s: seq<Byte>)
    requires !Stops(s) && !PaddingCut(s)
    ensures var i := ReadItem(s); Valid(i) && s == EncodeItem(i) + s[4 + Padded(U16At(s[2..4]))..]
  {
    var n := U16At(s[2..4]);
    var val := s[4..4 + n];
    if U16At(s[..2]) == XOR_MAPPED_ADDRESS && IsIpv4(val) {
      ReadXor(val);
    } else if U16At(s[..2]) == MAPPED_ADDRESS && IsIpv4(val) {
      ReadMapped(val);
    }
    GetPut16(s[..2]);
    GetPut16(s[2..4]);
    Pieces(s, n, 4 + Padded(n));
  }

  /** Any bytes are some attributes followed by a tail that stops the parser or cuts a padding short. */
  lemma {:induction false} Decompose(s: seq<Byte>) returns (items: seq<Item>, tail: seq<Byte>)
    ensures AllValid(items) && s == Encode(items) + tail && (Stops(tail) || PaddingCut(tail))
  {
    if Stops(s) || PaddingCut(s) {
      items, tail := [], s;
    } else {
      ReadBack(s);
      var i := ReadItem(s);
      var rest;
      rest, tail := Decompose(s[4 + Padded(U16At(s[2..4]))..]);
      items := [i] + rest;
      assert items[1..] == rest;
      assert s == EncodeItem(i) + (Encode(rest) + tail);
    }
  }

  /** The attribute bytes a message declares. */
  function Declared(data: seq<Byte>): seq<Byte>
    requires |data| >= 20 && U16At(data[2..4]) <= |data| - 20
  {
    data[20..20 + U16At(data[2..4])]
  }

  ghost predicate CutShort(s: seq<Byte>) {
    exists items, tail :: AllValid(items) && PaddingCut(tail) && s == Encode(items) + tail
  }

  /** Exactly when the bound of line 107 leaves the slice: the message passes all checks, and its declared attributes
      are whole attributes followed by one whose value is whole and whose padding is not. */
  lemma OutOfRangeExactly(data: seq<Byte>, tx: TxId)
    ensures Parse(data, tx) == OutOfRange <==>
              HeaderError(data, tx).None? && U16At(data[2..4]) <= |data| - 20 && CutShort(Declared(data))
  {
    if HeaderError(data, tx).None? && U16At(data[2..4]) <= |data| - 20 {
      var s := Declared(data);
      if Parse(data, tx) == OutOfRange {
        var items, tail := Decompose(s);
        WalkItems(items, tail, None);
      }
      if CutShort(s) {
        var items, tail :| AllValid(items) && PaddingCut(tail) && s == Encode(items) + tail;
        WalkItems(items, tail, None);
      }
    }
  }

  /** A length that is a multiple of four, which section 6 of RFC 5389 demands, rules that out. */
  lemma {:induction false} WalkInRange(attrs: seq<Byte>, cookie: U32, result: Option<Address>)
    requires |attrs| % 4 == 0
    ensures Walk(attrs, cookie, result) != OutOfRange
  {
    if |attrs| >= 4 && U16At(attrs[2..4]) <= |attrs| - 4 {
      var n := U16At(attrs[2..4]);
      assert 4 + Padded(n) <= |attrs|;
      WalkInRange(attrs[4 + Padded(n)..], cookie, Visit(U16At(attrs[..2]), attrs[4..4 + n], cookie, result));
    }
  }

  lemma MultipleOfFourIsSafe(data: seq<Byte>, tx: TxId)
    requires |data| >= 20 && U16At(data[2..4]) % 4 == 0
    ensures Parse(data, tx) != OutOfRange
  {
    if HeaderError(data, tx).None? && U16At(data[2..4]) <= |data| - 20 {
      WalkInRange(Declared(data), U32At(data[4..8]), None);
    }
  }

  /** A response of which only the length field breaks section 6: its one foreign attribute has one byte of value and
      no padding. */
  lemma LengthOfFive(tx: TxId)
    ensures Parse(Message(tx, [0x80, 0x22, 0, 1, 7], []), tx) == OutOfRange
  {
    ParsesMessage(tx, [0x80, 0x22, 0, 1, 7], []);
  }
}
