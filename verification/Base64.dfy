/** encoding/base64, non-strict: the padded and unpadded standard alphabet and the unpadded URL alphabet
    (sections 3.5, 4 and 5 of RFC 4648). */
module Base64 {
  import opened Text
  import opened Endpoint

  type Sextet = x: int | 0 <= x < 64

  datatype Alphabet = Std | Url

  function Symbol(a: Alphabet, v: Sextet): char {
    if v < 26 then 'A' + v as char
    else if v < 52 then 'a' + (v - 26) as char
    else if v < 62 then '0' + (v - 52) as char
    else if v == 62 then (if a.Std? then '+' else '-')
    else (if a.Std? then '/' else '_')
  }

  function SymbolValue(a: Alphabet, c: char): Option<Sextet> {
    if 'A' <= c <= 'Z' then Some((c - 'A') as int)
    else if 'a' <= c <= 'z' then Some((c - 'a') as int + 26)
    else if '0' <= c <= '9' then Some((c - '0') as int + 52)
    else if c == (if a.Std? then '+' else '-') then Some(62)
    else if c == (if a.Std? then '/' else '_') then Some(63)
    else None
  }

  predicate InAlphabet(a: Alphabet, s: string) {
    forall i :: 0 <= i < |s| ==> SymbolValue(a, s[i]).Some?
  }

  // Three bytes are four sextets: the first sextet of a group of bytes, and so on.
  function Sextet0(x: Byte): Sextet { var v: int := x; v / 4 }
  function Sextet1(x: Byte, y: Byte): Sextet { var v: int, w: int := x, y; v % 4 * 16 + w / 16 }
  function Sextet2(y: Byte, z: Byte): Sextet { var v: int, w: int := y, z; v % 16 * 4 + w / 64 }
  function Sextet3(z: Byte): Sextet { var v: int := z; v % 64 }

  function Byte0(p: Sextet, q: Sextet): Byte { var v: int, w: int := p, q; v * 4 + w / 16 }
  function Byte1(q: Sextet, r: Sextet): Byte { var v: int, w: int := q, r; v % 16 * 16 + w / 4 }
  function Byte2(r: Sextet, t: Sextet): Byte { var v: int, w: int := r, t; v % 4 * 64 + w }

  lemma BytesOfSextets(x: Byte, y: Byte, z: Byte)
    ensures Byte0(Sextet0(x), Sextet1(x, y)) == x
    ensures Byte1(Sextet1(x, y), Sextet2(y, z)) == y
    ensures Byte2(Sextet2(y, z), Sextet3(z)) == z
  {
  }

  /** EncodeToString of the unpadded encodings. */
  function EncodeRaw(a: Alphabet, b: seq<Byte>): string {
    if |b| == 0 then ""
    else if |b| == 1 then [Symbol(a, Sextet0(b[0])), Symbol(a, Sextet1(b[0], 0))]
    else if |b| == 2 then [Symbol(a, Sextet0(b[0])), Symbol(a, Sextet1(b[0], b[1])), Symbol(a, Sextet2(b[1], 0))]
    else EncodeGroup(a, b[0], b[1], b[2]) + EncodeRaw(a, b[3..])
  }

  function EncodeGroup(a: Alphabet, x: Byte, y: Byte, z: Byte): string {
    [Symbol(a, Sextet0(x)), Symbol(a, Sextet1(x, y)), Symbol(a, Sextet2(y, z)), Symbol(a, Sextet3(z))]
  }

  /** The decoder skips line breaks wherever they stand. */
  function DropLineBreaks(s: string): string {
    if s == "" then ""
    else if s[0] == '\n' || s[0] == '\r' then DropLineBreaks(s[1..])
    else [s[0]] + DropLineBreaks(s[1..])
  }

  function Value(a: Alphabet, c: char): Sextet
    requires SymbolValue(a, c).Some?
  {
    SymbolValue(a, c).value
  }

  function DecodeGroup(a: Alphabet, s: string): seq<Byte>
    requires |s| == 4 && InAlphabet(a, s)
  {
    var p, q, r, t := Value(a, s[0]), Value(a, s[1]), Value(a, s[2]), Value(a, s[3]);
    [Byte0(p, q), Byte1(q, r), Byte2(r, t)]
  }

  /** What a final quantum of two or three symbols stands for; the bits left over are dropped unchecked. */
  function Tail(a: Alphabet, s: string): Option<seq<Byte>> {
    if !InAlphabet(a, s) || |s| < 2 || |s| > 3 then None
    else if |s| == 2 then Some([Byte0(Value(a, s[0]), Value(a, s[1]))])
    else Some([Byte0(Value(a, s[0]), Value(a, s[1])), Byte1(Value(a, s[1]), Value(a, s[2]))])
  }

  /** Decoding of text without line breaks. */
  function DecodeClean(a: Alphabet, padded: bool, s: string): Option<seq<Byte>> {
    if s == "" then Some([])
    else if |s| >= 4 && InAlphabet(a, s[..4]) then
      match DecodeClean(a, padded, s[4..])
      case None => None
      case Some(rest) =>
        Some(DecodeGroup(a, s[..4]) + rest)
    else if !padded then Tail(a, s)
    else if |s| != 4 || s[3] != '=' then None
    else if s[2] == '=' then Tail(a, s[..2])
    else Tail(a, s[..3])
  }

  /** DecodeString. */
  function Decode(a: Alphabet, padded: bool, s: string): Option<seq<Byte>> {
    DecodeClean(a, padded, DropLineBreaks(s))
  }

  lemma SymbolRoundTrip(a: Alphabet, v: Sextet)
    ensures SymbolValue(a, Symbol(a, v)) == Some(v)
    ensures Symbol(a, v) != '\n' && Symbol(a, v) != '\r' && Symbol(a, v) != '|' && Symbol(a, v) != '='
    ensures !IsSpace(Symbol(a, v))
  {
  }

  lemma SymbolUnique(a: Alphabet, c: char)
    requires SymbolValue(a, c).Some?
    ensures Symbol(a, SymbolValue(a, c).value) == c
  {
  }

  lemma {:induction false} CleanStays(s: string)
    requires '\n' !in s && '\r' !in s
    ensures DropLineBreaks(s) == s
  {
    if s != "" {
      CleanStays(s[1..]);
      assert s == [s[0]] + s[1..];
    }
  }

  /** Every character an encoder emits is a symbol, hence visible and neither '|' nor a line break. */
  lemma {:induction false} EncodeRawSymbols(a: Alphabet, b: seq<Byte>)
    ensures forall i :: 0 <= i < |EncodeRaw(a, b)| ==> SymbolValue(a, EncodeRaw(a, b)[i]).Some?
    ensures b != [] ==> EncodeRaw(a, b) != ""
  {
    if |b| >= 3 {
      EncodeRawSymbols(a, b[3..]);
      GroupSymbols(a, b[0], b[1], b[2]);
    }
  }

  lemma GroupSymbols(a: Alphabet, x: Byte, y: Byte, z: Byte)
    ensures InAlphabet(a, EncodeGroup(a, x, y, z))
  {
  }

  lemma SymbolsAreClean(a: Alphabet, s: string)
    requires InAlphabet(a, s)
    ensures '\n' !in s && '\r' !in s && '|' !in s && '=' !in s
    ensures forall i :: 0 <= i < |s| ==> !IsSpace(s[i])
  {
  }

  lemma GroupRoundTrip(a: Alphabet, x: Byte, y: Byte, z: Byte)
    ensures InAlphabet(a, EncodeGroup(a, x, y, z)) && DecodeGroup(a, EncodeGroup(a, x, y, z)) == [x, y, z]
  {
    BytesOfSextets(x, y, z);
    SymbolRoundTrip(a, Sextet0(x));
    SymbolRoundTrip(a, Sextet1(x, y));
    SymbolRoundTrip(a, Sextet2(y, z));
    SymbolRoundTrip(a, Sextet3(z));
  }

  lemma TailRoundTrip(a: Alphabet, b: seq<Byte>)
    requires 1 <= |b| <= 2
    ensures Tail(a, EncodeRaw(a, b)) == Some(b)
  {
    var y := if |b| == 2 then b[1] else 0;
    BytesOfSextets(b[0], y, 0);
    SymbolRoundTrip(a, Sextet0(b[0]));
    SymbolRoundTrip(a, Sextet1(b[0], y));
    SymbolRoundTrip(a, Sextet2(y, 0));
    assert b == if |b| == 1 then [b[0]] else [b[0], y];
  }

  lemma {:induction false} DecodeCleanEncoded(a: Alphabet, b: seq<Byte>)
    ensures DecodeClean(a, false, EncodeRaw(a, b)) == Some(b)
  {
    if |b| >= 3 {
      var s, g := EncodeRaw(a, b), EncodeGroup(a, b[0], b[1], b[2]);
      GroupRoundTrip(a, b[0], b[1], b[2]);
      DecodeCleanEncoded(a, b[3..]);
      assert s[..4] == g && s[4..] == EncodeRaw(a, b[3..]);
      assert b == [b[0], b[1], b[2]] + b[3..];
    } else if b != [] {
      TailRoundTrip(a, b);
    }
  }

  /** Unpadded encoding followed by decoding is the identity on all byte strings. */
  lemma RawRoundTrip(a: Alphabet, b: seq<Byte>)
    ensures Decode(a, false, EncodeRaw(a, b)) == Some(b)
  {
    EncodeRawSymbols(a, b);
    SymbolsAreClean(a, EncodeRaw(a, b));
    CleanStays(EncodeRaw(a, b));
    DecodeCleanEncoded(a, b);
  }

  // ----- the encodings of RFC 4648 -----

  /** Tables 1 and 2 of RFC 4648: three ranges of consecutive characters, and two characters that tell the alphabets
      apart. */
  lemma SymbolsAreTheTable(a: Alphabet, v: Sextet)
    ensures Symbol(a, 0) == 'A' && Symbol(a, 25) == 'Z' && Symbol(a, 26) == 'a' && Symbol(a, 51) == 'z'
    ensures Symbol(a, 52) == '0' && Symbol(a, 61) == '9'
    ensures Symbol(Std, 62) == '+' && Symbol(Std, 63) == '/' && Symbol(Url, 62) == '-' && Symbol(Url, 63) == '_'
    ensures v < 61 && v != 25 && v != 51 ==> Symbol(a, v + 1) as int == Symbol(a, v) as int + 1
  {
  }

  /** Three bytes are one number of 24 bits, and its four sextets, the highest first, are the symbols. */
  lemma EncodesBigEndian(a: Alphabet, x: Byte, y: Byte, z: Byte, p: Sextet, q: Sextet, r: Sextet, t: Sextet)
    requires (var u: int, v: int, w: int := x, y, z;
              var k: int, l: int, m: int, n: int := p, q, r, t;
              0x1_0000 * u + 0x100 * v + w == 0x4_0000 * k + 0x1000 * l + 0x40 * m + n)
    ensures EncodeGroup(a, x, y, z) == [Symbol(a, p), Symbol(a, q), Symbol(a, r), Symbol(a, t)]
    ensures EncodeRaw(a, [x, y, z]) == EncodeGroup(a, x, y, z)
  {
    Sextets(x, y, z, p, q, r, t);
    assert [x, y, z][3..] == [];
  }

  lemma Sextets(x: Byte, y: Byte, z: Byte, p: Sextet, q: Sextet, r: Sextet, t: Sextet)
    requires (var u: int, v: int, w: int := x, y, z;
              var k: int, l: int, m: int, n: int := p, q, r, t;
              0x1_0000 * u + 0x100 * v + w == 0x4_0000 * k + 0x1000 * l + 0x40 * m + n)
    ensures Sextet0(x) == p && Sextet1(x, y) == q && Sextet2(y, z) == r && Sextet3(z) == t
  {
  }

  /** One or two bytes are encoded as the start of what they and zeros would be. */
  lemma EncodesTails(a: Alphabet, x: Byte, y: Byte)
    ensures EncodeRaw(a, [x]) == EncodeRaw(a, [x, 0, 0])[..2]
    ensures EncodeRaw(a, [x, y]) == EncodeRaw(a, [x, y, 0])[..3]
  {
    assert [x, 0, 0][3..] == [] && [x, y, 0][3..] == [];
  }

  function Padding(n: nat): string {
    if n % 3 == 0 then "" else if n % 3 == 1 then "==" else "="
  }

  lemma PaddedTail(a: Alphabet, b: seq<Byte>)
    requires 1 <= |b| <= 2
    ensures DecodeClean(a, true, EncodeRaw(a, b) + Padding(|b|)) == Some(b)
    ensures DecodeClean(a, true, EncodeRaw(a, b)) == None
  {
    var s := EncodeRaw(a, b);
    var t := s + Padding(|b|);
    TailRoundTrip(a, b);
    assert |t| == 4 && t[3] == '=' && t[..4] == t;
    assert !InAlphabet(a, t) by { assert SymbolValue(a, t[3]).None?; }
    if |b| == 1 {
      assert t[..2] == s && t[2] == '=';
    } else {
      EncodeRawSymbols(a, b);
      assert t[..3] == s && SymbolValue(a, s[2]).Some? && t[2] == s[2];
    }
  }

  lemma DecodesGroup(a: Alphabet, g: string, rest: string, b: seq<Byte>, tail: Option<seq<Byte>>)
    requires |g| == 4 && InAlphabet(a, g) && DecodeGroup(a, g) == b && DecodeClean(a, true, rest) == tail
    ensures DecodeClean(a, true, g + rest) == if tail.Some? then Some(b + tail.value) else None
  {
    var s := g + rest;
    assert s[..4] == g && s[4..] == rest;
  }

  lemma DecodesThree(a: Alphabet, b: seq<Byte>, text: string, rest: string, tail: Option<seq<Byte>>)
    requires |b| >= 3 && text == EncodeGroup(a, b[0], b[1], b[2]) + rest
    requires DecodeClean(a, true, rest) == tail && (tail.Some? ==> tail.value == b[3..])
    ensures DecodeClean(a, true, text) == if tail.Some? then Some(b) else None
  {
    GroupRoundTrip(a, b[0], b[1], b[2]);
    DecodesGroup(a, EncodeGroup(a, b[0], b[1], b[2]), rest, [b[0], b[1], b[2]], tail);
    assert b == [b[0], b[1], b[2]] + b[3..];
  }

  /** How a text ends, and what padded decoding makes of it. */
  ghost predicate Reads(a: Alphabet, text: string, tail: Option<seq<Byte>>) {
    DecodeClean(a, true, text) == tail
  }

  lemma ReadsThree(a: Alphabet, b: seq<Byte>, end: string, tail: Option<seq<Byte>>)
    requires |b| >= 3 && Reads(a, EncodeRaw(a, b[3..]) + end, tail) && (tail.Some? ==> tail.value == b[3..])
    ensures Reads(a, EncodeRaw(a, b) + end, if tail.Some? then Some(b) else None)
  {
    var rest := EncodeRaw(a, b[3..]) + end;
    assert EncodeRaw(a, b) + end == EncodeGroup(a, b[0], b[1], b[2]) + rest;
    DecodesThree(a, b, EncodeRaw(a, b) + end, rest, tail);
  }

  lemma PaddedShort(a: Alphabet, b: seq<Byte>)
    requires |b| < 3
    ensures Reads(a, EncodeRaw(a, b) + Padding(|b|), Some(b))
    ensures Reads(a, EncodeRaw(a, b) + "", if |b| == 0 then Some(b) else None)
  {
    assert EncodeRaw(a, b) + "" == EncodeRaw(a, b);
    if b == [] {
      assert EncodeRaw(a, b) + Padding(|b|) == "";
    } else {
      PaddedTail(a, b);
    }
  }

  /** Padded decoding undoes padded encoding on all bytes. */
  lemma {:induction false} PaddedClean(a: Alphabet, b: seq<Byte>)
    ensures Reads(a, EncodeRaw(a, b) + Padding(|b|), Some(b))
  {
    if |b| < 3 {
      PaddedShort(a, b);
    } else {
      assert Padding(|b|) == Padding(|b[3..]|);
      PaddedClean(a, b[3..]);
      ReadsThree(a, b, Padding(|b[3..]|), Some(b[3..]));
    }
  }

  /** Padded decoding takes unpadded text only if it needs no padding. */
  lemma {:induction false} UnpaddedClean(a: Alphabet, b: seq<Byte>)
    ensures Reads(a, EncodeRaw(a, b) + "", if |b| % 3 == 0 then Some(b) else None)
  {
    if |b| < 3 {
      PaddedShort(a, b);
    } else {
      assert |b[3..]| % 3 == |b| % 3;
      UnpaddedClean(a, b[3..]);
      ReadsThree(a, b, "", if |b[3..]| % 3 == 0 then Some(b[3..]) else None);
    }
  }

  lemma PaddedRoundTrip(a: Alphabet, b: seq<Byte>)
    ensures Decode(a, true, EncodeRaw(a, b) + Padding(|b|)) == Some(b)
    ensures Decode(a, true, EncodeRaw(a, b)) == if |b| % 3 == 0 then Some(b) else None
  {
    EncodeRawSymbols(a, b);
    SymbolsAreClean(a, EncodeRaw(a, b));
    CleanStays(EncodeRaw(a, b));
    CleanStays(EncodeRaw(a, b) + Padding(|b|));
    PaddedClean(a, b);
    UnpaddedClean(a, b);
    assert EncodeRaw(a, b) + "" == EncodeRaw(a, b);
  }

  // ----- what the decoders accept -----

  /** Line breaks are skipped wherever they stand. */
  lemma {:induction false} LineBreaksAreSkipped(x: string, c: char, y: string)
    requires c == '\n' || c == '\r'
    ensures DropLineBreaks(x + [c] + y) == DropLineBreaks(x + y)
  {
    if x == "" {
      assert x + [c] + y == [c] + y && x + y == y;
    } else {
      LineBreaksAreSkipped(x[1..], c, y);
      assert (x + [c] + y)[1..] == x[1..] + [c] + y && (x + y)[1..] == x[1..] + y;
    }
  }

  lemma ClosedUnderParts(a: Alphabet, s: string)
    requires |s| >= 4
    ensures InAlphabet(a, s) <==> InAlphabet(a, s[..4]) && InAlphabet(a, s[4..])
  {
    assert s == s[..4] + s[4..];
  }

  /** The unpadded decoder takes exactly the texts of symbols that do not leave one over. */
  lemma {:induction false} UnpaddedAccepts(a: Alphabet, s: string)
    ensures DecodeClean(a, false, s).Some? <==> InAlphabet(a, s) && |s| % 4 != 1
  {
    if |s| >= 4 {
      ClosedUnderParts(a, s);
      UnpaddedAccepts(a, s[4..]);
      assert |s[4..]| % 4 == |s| % 4;
    }
  }

  /** The padded decoder takes whole quanta, of which only the last may end in one or two '='. */
  ghost predicate PaddedText(a: Alphabet, s: string) {
    && |s| % 4 == 0
    && (|| InAlphabet(a, s)
        || (|s| > 0 && s[|s| - 1] == '=' && InAlphabet(a, s[..|s| - 1]))
        || (|s| > 1 && s[|s| - 1] == '=' && s[|s| - 2] == '=' && InAlphabet(a, s[..|s| - 2])))
  }

  lemma LastQuantum(a: Alphabet, s: string)
    requires |s| == 4
    ensures DecodeClean(a, true, s).Some? <==> PaddedText(a, s)
  {
    assert s[4..] == "" && s[..4] == s;
    assert SymbolValue(a, '=').None?;
    if s[3] == '=' && s[2] == '=' {
      assert s[2] == s[..3][2];
    }
  }

  lemma LongerText(a: Alphabet, s: string)
    requires |s| >= 8
    ensures PaddedText(a, s) <==> InAlphabet(a, s[..4]) && PaddedText(a, s[4..])
  {
    var t := s[4..];
    ClosedUnderParts(a, s);
    ClosedUnderParts(a, s[..|s| - 1]);
    ClosedUnderParts(a, s[..|s| - 2]);
    assert |t| % 4 == |s| % 4;
    assert s[..|s| - 1][..4] == s[..4] && s[..|s| - 1][4..] == t[..|t| - 1];
    assert s[..|s| - 2][..4] == s[..4] && s[..|s| - 2][4..] == t[..|t| - 2];
  }

  lemma {:induction false} PaddedAccepts(a: Alphabet, s: string)
    ensures DecodeClean(a, true, s).Some? <==> PaddedText(a, s)
  {
    if |s| >= 8 {
      LongerText(a, s);
      PaddedAccepts(a, s[4..]);
    } else if |s| == 4 {
      LastQuantum(a, s);
    } else if |s| > 4 {
      PaddedAccepts(a, s[4..]);
    }
  }

  /** The bits that two or three symbols leave over are dropped unchecked. */
  lemma TailIsCutGroup(a: Alphabet, s: string, t: string)
    requires InAlphabet(a, s) && 2 <= |s| <= 3 && t == (if |s| == 2 then s + "AA" else s + "A")
    ensures InAlphabet(a, t) && Tail(a, s) == Some(DecodeGroup(a, t)[..|s| - 1])
  {
    assert SymbolValue(a, 'A') == Some(0);
    assert t[0] == s[0] && t[1] == s[1] && (|s| == 3 ==> t[2] == s[2]);
    var g := DecodeGroup(a, t);
    assert |s| == 2 ==> g[..1] == [g[0]];
    assert |s| == 3 ==> g[..2] == [g[0], g[1]];
  }
}
