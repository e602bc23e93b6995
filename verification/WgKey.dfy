/** WireGuard public keys as text, and the VPN addresses derived from them (dht/config.go, dht/wireguard.go,
    dht/vpnaddr.go). SHA-256 is a parameter. */
module WgKey {
  import opened Text
  import opened Endpoint
  import opened Base64

  /** reWgPub: 42 symbols, one symbol whose two low bits are zero, and an optional '='. */
  predicate Accepted(s: string) {
    && (|s| == 43 || (|s| == 44 && s[43] == '='))
    && (forall i :: 0 <= i < 42 ==> SymbolValue(Std, s[i]).Some?)
    && s[42] in "AEIMQUYcgkosw048"
  }

  /** The decoding of wgPubB64ToHex and deriveVPNAddr: padded first, unpadded if that fails. */
  function DecodeEither(s: string): Option<seq<Byte>> {
    var padded := Decode(Std, true, TrimSpace(s));
    if padded.Some? then padded else Decode(Std, false, TrimSpace(s))
  }

  function HexDigit(v: nat): char
    requires v < 16
  {
    if v < 10 then '0' + v as char else 'a' + (v - 10) as char
  }

  function HexText(b: seq<Byte>): string {
    if b == [] then "" else
      var x: int := b[0];
      [HexDigit(x / 16), HexDigit(x % 16)] + HexText(b[1..])
  }

  /** Reading hexadecimal back: the value of a digit is its place in the sixteen. */
  function HexDigitValue(c: char): Option<nat> {
    if '0' <= c <= '9' then Some((c - '0') as nat)
    else if 'a' <= c <= 'f' then Some(10 + (c - 'a') as nat)
    else None
  }

  function ReadHex(s: string): Option<seq<Byte>> {
    if s == "" then Some([])
    else if |s| < 2 then None
    else
      match (HexDigitValue(s[0]), HexDigitValue(s[1]), ReadHex(s[2..]))
      case (Some(high), Some(low), Some(rest)) => Some([16 * high + low] + rest)
      case _ => None
  }

  /** encoding/hex: two digits for each byte, the high one first. */
  lemma {:induction false} HexReadsBack(b: seq<Byte>)
    ensures |HexText(b)| == 2 * |b| && ReadHex(HexText(b)) == Some(b)
  {
    if b != [] {
      HexReadsBack(b[1..]);
      assert HexText(b)[2..] == HexText(b[1..]);
      assert b == [b[0]] + b[1..];
    }
  }

  datatype KeyError = Empty | NotBase64 | WrongLength

  datatype HexResult = Hex(text: string) | Bad(error: KeyError)

  function WgPubB64ToHex(s: string): HexResult {
    if TrimSpace(s) == "" then Bad(Empty)
    else
      match DecodeEither(s)
      case None => Bad(NotBase64)
      case Some(raw) => if |raw| != 32 then Bad(WrongLength) else Hex(HexText(raw))
  }

  // ----- decoding accepted keys -----

  lemma SextetsOfBytes(p: Sextet, q: Sextet, r: Sextet, t: Sextet)
    ensures Sextet0(Byte0(p, q)) == p
    ensures Sextet1(Byte0(p, q), Byte1(q, r)) == q
    ensures Sextet2(Byte1(q, r), Byte2(r, t)) == r
    ensures Sextet3(Byte2(r, t)) == t
    ensures r % 4 == 0 ==> Sextet2(Byte1(q, r), 0) == r
  {
  }

  lemma GroupCanonical(s: string)
    requires |s| == 4 && InAlphabet(Std, s)
    ensures var b := DecodeGroup(Std, s); |b| == 3 && EncodeGroup(Std, b[0], b[1], b[2]) == s
  {
    SextetsOfBytes(Value(Std, s[0]), Value(Std, s[1]), Value(Std, s[2]), Value(Std, s[3]));
    SymbolUnique(Std, s[0]);
    SymbolUnique(Std, s[1]);
    SymbolUnique(Std, s[2]);
    SymbolUnique(Std, s[3]);
  }

  lemma TailCanonical(s: string)
    requires |s| == 3 && InAlphabet(Std, s) && Value(Std, s[2]) % 4 == 0
    ensures Tail(Std, s).Some? && |Tail(Std, s).value| == 2 && EncodeRaw(Std, Tail(Std, s).value) == s
  {
    SextetsOfBytes(Value(Std, s[0]), Value(Std, s[1]), Value(Std, s[2]), 0);
    SymbolUnique(Std, s[0]);
    SymbolUnique(Std, s[1]);
    SymbolUnique(Std, s[2]);
  }

  /** Text of whole groups and three more symbols, the last of them without stray bits, decodes in exactly one way:
      unpadded as it stands, padded with '=' appended, and encoding gives it back. */
  lemma {:induction false} CanonicalText(s: string)
    requires |s| % 4 == 3 && InAlphabet(Std, s) && Value(Std, s[|s| - 1]) % 4 == 0
    ensures var d := DecodeClean(Std, false, s);
            && d.Some? && |d.value| == |s| / 4 * 3 + 2 && EncodeRaw(Std, d.value) == s
            && DecodeClean(Std, true, s + "=") == d
            && DecodeClean(Std, true, s) == None
  {
    if |s| == 3 {
      ShortCanonicalText(s);
    } else {
      var g, rest := s[..4], s[4..];
      CanonicalText(rest);
      GroupCanonical(g);
      assert (s + "=")[..4] == g && (s + "=")[4..] == rest + "=";
      var b, r := DecodeGroup(Std, g), DecodeClean(Std, false, rest).value;
      assert (b + r)[3..] == r;
      assert s == g + rest;
    }
  }

  lemma ShortCanonicalText(s: string)
    requires |s| == 3 && InAlphabet(Std, s) && Value(Std, s[2]) % 4 == 0
    ensures var d := DecodeClean(Std, false, s);
            && d.Some? && |d.value| == 2 && EncodeRaw(Std, d.value) == s
            && DecodeClean(Std, true, s + "=") == d
            && DecodeClean(Std, true, s) == None
  {
    TailCanonical(s);
    var t := s + "=";
    assert t[..3] == s && t[..4] == t && t[3] == '=' && t[2] == s[2];
    assert !InAlphabet(Std, t);
  }

  lemma LastSymbols(c: char)
    requires c in "AEIMQUYcgkosw048"
    ensures SymbolValue(Std, c).Some? && Value(Std, c) % 4 == 0
  {
  }

  lemma LastSymbolsExactly(v: Sextet)
    requires v % 4 == 0
    ensures Symbol(Std, v) in "AEIMQUYcgkosw048"
  {
    var c := Symbol(Std, v);
    assert v in {0, 4, 8, 12, 16, 20, 24, 28, 32, 36, 40, 44, 48, 52, 56, 60};
  }

  /** The symbols of an accepted key. */
  function Symbols(s: string): string
    requires Accepted(s)
  {
    s[..43]
  }

  lemma AcceptedText(s: string)
    requires Accepted(s)
    ensures InAlphabet(Std, Symbols(s)) && Value(Std, Symbols(s)[42]) % 4 == 0
    ensures TrimSpace(s) == s && DropLineBreaks(s) == s
    ensures s == Symbols(s) || s == Symbols(s) + "="
  {
    LastSymbols(s[42]);
    var t := Symbols(s);
    SymbolsAreClean(Std, t);
    assert s == t || s == t + "=";
    assert s[0] == t[0];
    TrimKeeps(s);
    CleanStays(s);
  }

  /** Every accepted key decodes to exactly 32 bytes, with or without its '=', and its symbols are the encoding of
      those bytes. */
  lemma AcceptedDecodes(s: string)
    requires Accepted(s)
    ensures DecodeEither(s).Some? && |DecodeEither(s).value| == 32
    ensures EncodeRaw(Std, DecodeEither(s).value) == Symbols(s)
    ensures WgPubB64ToHex(s).Hex? && |WgPubB64ToHex(s).text| == 64
    ensures ReadHex(WgPubB64ToHex(s).text) == DecodeEither(s)
  {
    AcceptedText(s);
    CanonicalText(Symbols(s));
    HexReadsBack(DecodeEither(s).value);
  }

  /** What the conversion to hexadecimal yields for any text at all. */
  lemma HexExactly(s: string)
    ensures WgPubB64ToHex(s) == Bad(Empty) <==> Blank(s)
    ensures WgPubB64ToHex(s) == Bad(NotBase64) <==> !Blank(s) && DecodeEither(s).None?
    ensures WgPubB64ToHex(s) == Bad(WrongLength) <==>
              !Blank(s) && DecodeEither(s).Some? && |DecodeEither(s).value| != 32
    ensures WgPubB64ToHex(s).Hex? ==>
              var t := WgPubB64ToHex(s).text;
              |t| == 64 && ReadHex(t) == DecodeEither(s) && DecodeEither(s).Some? && |DecodeEither(s).value| == 32
  {
    if DecodeEither(s).Some? {
      HexReadsBack(DecodeEither(s).value);
    }
  }

  lemma {:induction false} EncodeRawLast(b: seq<Byte>)
    requires |b| % 3 == 2
    ensures var s := EncodeRaw(Std, b); |s| == |b| / 3 * 4 + 3 && s[|s| - 1] in "AEIMQUYcgkosw048"
  {
    if |b| == 2 {
      LastSymbolsExactly(Sextet2(b[1], 0));
    } else {
      EncodeRawLast(b[3..]);
    }
  }

  lemma EncodingAccepted(raw: seq<Byte>)
    requires |raw| == 32
    ensures |EncodeRaw(Std, raw)| == 43 && Accepted(EncodeRaw(Std, raw))
  {
    var t := EncodeRaw(Std, raw);
    EncodeRawSymbols(Std, raw);
    EncodeRawLast(raw);
    assert |t| == 43 && t[42] == t[|t| - 1];
  }

  /** Without its '=' an accepted key is decoded by the unpadded decoder. */
  lemma UnpaddedDecodes(s: string)
    requires Accepted(s) && |s| == 43
    ensures DecodeEither(s) == Decode(Std, false, s)
  {
    AcceptedText(s);
    assert Symbols(s) == s;
    CanonicalText(s);
  }

  /** Every 32-byte key has one accepted text of 43 characters, its encoding, and no other. */
  lemma OneTextPerKey(raw: seq<Byte>, s: string)
    requires |raw| == 32
    ensures |EncodeRaw(Std, raw)| == 43 && Accepted(EncodeRaw(Std, raw))
            && DecodeEither(EncodeRaw(Std, raw)) == Some(raw)
    ensures Accepted(s) && |s| == 43 && DecodeEither(s) == Some(raw) ==> s == EncodeRaw(Std, raw)
  {
    EncodingAccepted(raw);
    UnpaddedDecodes(EncodeRaw(Std, raw));
    RawRoundTrip(Std, raw);
    if Accepted(s) && |s| == 43 {
      AcceptedDecodes(s);
      assert Symbols(s) == s;
    }
  }

  /** Two accepted keys name the same WireGuard peer exactly when they differ at most in the final '='. */
  lemma SameHexExactly(s: string, t: string)
    requires Accepted(s) && Accepted(t)
    ensures WgPubB64ToHex(s) == WgPubB64ToHex(t) <==> Symbols(s) == Symbols(t)
  {
    AcceptedDecodes(s);
    AcceptedDecodes(t);
    if Symbols(s) == Symbols(t) {
      SameSymbolsSameKey(s, t);
    }
  }

  /** The accepted texts are exactly the encodings of 32 bytes, with or without their '='. */
  lemma AcceptedExactly(s: string)
    ensures Accepted(s) <==> exists raw: seq<Byte> :: Encodes(raw, s)
  {
    if Accepted(s) {
      AcceptedDecodes(s);
      AcceptedText(s);
      assert Encodes(DecodeEither(s).value, s);
    }
    if raw :| Encodes(raw, s) {
      EncodingAccepted(raw);
      assert forall i :: 0 <= i < 43 ==> s[i] == EncodeRaw(Std, raw)[i];
    }
  }

  predicate Encodes(raw: seq<Byte>, s: string) {
    |raw| == 32 && (s == EncodeRaw(Std, raw) || s == EncodeRaw(Std, raw) + "=")
  }

  /** Any bytes are decoded from their encoding, padded or not. */
  lemma DecodesEither(raw: seq<Byte>)
    ensures DecodeEither(EncodeRaw(Std, raw)) == Some(raw)
    ensures DecodeEither(EncodeRaw(Std, raw) + Padding(|raw|)) == Some(raw)
  {
    var s, t := EncodeRaw(Std, raw), EncodeRaw(Std, raw) + Padding(|raw|);
    EncodeRawSymbols(Std, raw);
    SymbolsAreClean(Std, s);
    if s != "" {
      TrimKeeps(s);
      assert t[0] == s[0];
      TrimKeeps(t);
    }
    PaddedRoundTrip(Std, raw);
    RawRoundTrip(Std, raw);
  }

  // ----- VPN addresses -----

  /** A hash function with 32 bytes of output. */
  type Hash = h: seq<Byte> -> seq<Byte> | forall b :: |h(b)| == 32 witness (b => seq(32, i => 0))

  function VpnAddr(sha: Hash, room: seq<Byte>, key: seq<Byte>): seq<Byte> {
    [0xfd] + sha(room)[..5] + sha(key)[..10]
  }

  /** deriveVPNAddr fills a sixteen-byte buffer. */
  method DeriveVPNAddr(sha: Hash, room: seq<Byte>, wgPubKeyB64: string) returns (addr: Option<seq<Byte>>)
    ensures addr == match DecodeEither(wgPubKeyB64)
                    case None => None
                    case Some(raw) => Some(VpnAddr(sha, room, raw))
    ensures addr.Some? ==>
              && DecodeEither(wgPubKeyB64).Some? && |addr.value| == 16 && addr.value[0] == 0xfd
              && (forall i :: 0 <= i < 5 ==> addr.value[1 + i] == sha(room)[i])
              && (forall i :: 0 <= i < 10 ==> addr.value[6 + i] == sha(DecodeEither(wgPubKeyB64).value)[i])
  {
    var pubRaw := Decode(Std, true, TrimSpace(wgPubKeyB64));
    if pubRaw.None? {
      pubRaw := Decode(Std, false, TrimSpace(wgPubKeyB64));
      if pubRaw.None? {
        return None;
      }
    }
    var raw := FillAddr(sha(room), sha(pubRaw.value));
    return Some(raw[..]);
  }

  method FillAddr(roomHash: seq<Byte>, keyHash: seq<Byte>) returns (raw: array<Byte>)
    requires |roomHash| == |keyHash| == 32
    ensures fresh(raw) && raw[..] == [0xfd] + roomHash[..5] + keyHash[..10]
  {
    raw := new Byte[16](i => 0);
    raw[0] := 0xfd;
    forall i | 1 <= i < 6 {
      raw[i] := roomHash[i - 1];
    }
    forall i | 6 <= i < 16 {
      raw[i] := keyHash[i - 6];
    }
    assert raw[1..6] == roomHash[..5] && raw[6..16] == keyHash[..10];
    assert raw[..] == raw[..1] + raw[1..6] + raw[6..16];
  }

  datatype Prefix = Prefix(addr: seq<Byte>, bits: nat)

  method DeriveVPNPrefix(sha: Hash, room: seq<Byte>) returns (p: Prefix)
    ensures p == Prefix([0xfd] + sha(room)[..5] + seq(10, i => 0), 48)
  {
    var roomHash := sha(room);
    var raw := new Byte[16](i => 0);
    raw[0] := 0xfd;
    forall i | 1 <= i < 6 {
      raw[i] := roomHash[i - 1];
    }
    assert raw[1..6] == roomHash[..5] && raw[6..16] == seq(10, i => 0);
    assert raw[..] == raw[..1] + raw[1..6] + raw[6..16];
    return Prefix(raw[..], 48);
  }

  /** netip.Prefix.Contains for prefixes of whole bytes. */
  predicate Contains(p: Prefix, addr: seq<Byte>) {
    |addr| == |p.addr| && p.bits % 8 == 0 && p.bits / 8 <= |addr| && addr[..p.bits / 8] == p.addr[..p.bits / 8]
  }

  lemma InRoom(sha: Hash, room: seq<Byte>, key: seq<Byte>)
    ensures |VpnAddr(sha, room, key)| == 16
    ensures Contains(Prefix([0xfd] + sha(room)[..5] + seq(10, i => 0), 48), VpnAddr(sha, room, key))
  {
    var head: seq<Byte> := [0xfd] + sha(room)[..5];
    assert VpnAddr(sha, room, key)[..6] == head;
    assert (head + seq(10, i => 0))[..6] == head;
  }

  lemma SameSymbolsSameKey(s: string, t: string)
    requires Accepted(s) && Accepted(t) && Symbols(s) == Symbols(t)
    ensures DecodeEither(s) == DecodeEither(t)
  {
    AcceptedText(s);
    AcceptedText(t);
    CanonicalText(Symbols(s));
  }

  /** Every accepted key has a VPN address, inside the prefix of the room whatever the key, and keys that differ at
      most in the final '=' have the same one. */
  lemma AcceptedAddresses(sha: Hash, room: seq<Byte>, s: string, t: string)
    requires Accepted(s) && Accepted(t)
    ensures DecodeEither(s).Some? && DecodeEither(t).Some?
    ensures var a, b := VpnAddr(sha, room, DecodeEither(s).value), VpnAddr(sha, room, DecodeEither(t).value);
            && |a| == 16
            && Contains(Prefix([0xfd] + sha(room)[..5] + seq(10, i => 0), 48), a)
            && a[..6] == [0xfd] + sha(room)[..5]
            && (Symbols(s) == Symbols(t) ==> a == b)
  {
    AcceptedDecodes(s);
    AcceptedDecodes(t);
    InRoom(sha, room, DecodeEither(s).value);
    if Symbols(s) == Symbols(t) {
      SameSymbolsSameKey(s, t);
    }
  }
}
