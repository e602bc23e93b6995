/** Words on the wire: big-endian integers and exclusive-or, bit by bit. */
module StunWire {
  import opened Endpoint

  type U16 = x: int | 0 <= x < 0x1_0000
  type U32 = x: int | 0 <= x < 0x1_0000_0000

  function PutU16(x: U16): seq<Byte> {
    var v: int := x;
    [v / 256, v % 256]
  }

  function PutU32(x: U32): seq<Byte> {
    var v: int := x;
    PutU16(v / 0x1_0000) + PutU16(v % 0x1_0000)
  }

  function U16At(b: seq<Byte>): U16
    requires |b| == 2
  {
    var hi: int, lo: int := b[0], b[1];
    hi * 256 + lo
  }

  function U32At(b: seq<Byte>): U32
    requires |b| == 4
  {
    var hi: int, lo: int := U16At(b[..2]), U16At(b[2..]);
    hi * 0x1_0000 + lo
  }

  lemma PutGet16(x: U16)
    ensures U16At(PutU16(x)) == x
  {
  }

  lemma GetPut16(b: seq<Byte>)
    requires |b| == 2
    ensures PutU16(U16At(b)) == b
  {
  }

  lemma PutGet32(x: U32)
    ensures |PutU32(x)| == 4 && U32At(PutU32(x)) == x
  {
    var v: int := x;
    assert PutU32(x)[..2] == PutU16(v / 0x1_0000) && PutU32(x)[2..] == PutU16(v % 0x1_0000);
  }

  lemma GetPut32(b: seq<Byte>)
    requires |b| == 4
    ensures PutU32(U32At(b)) == b
  {
    GetPut16(b[..2]);
    GetPut16(b[2..]);
    var hi: int, lo: int := U16At(b[..2]), U16At(b[2..]);
    assert (hi * 0x1_0000 + lo) / 0x1_0000 == hi && (hi * 0x1_0000 + lo) % 0x1_0000 == lo;
    assert b == b[..2] + b[2..];
  }

  function Pow2(n: nat): nat {
    if n == 0 then 1 else 2 * Pow2(n - 1)
  }

  lemma WordSizes()
    ensures Pow2(16) == 0x1_0000 && Pow2(32) == 0x1_0000_0000
  {
    assert Pow2(8) == 256;
    assert Pow2(16) == 0x1_0000;
    assert Pow2(24) == 0x100_0000;
  }

  function XorBit(p: nat, q: nat): (r: nat)
    requires p < 2 && q < 2
    ensures r < 2
  {
    if p == q then 0 else 1
  }

  /** Exclusive or of two words of the given number of bits. */
  function XorBits(x: nat, y: nat, bits: nat): (r: nat)
    requires x < Pow2(bits) && y < Pow2(bits)
    ensures r < Pow2(bits)
    decreases bits, x
  {
    if bits == 0 then 0 else 2 * XorBits(x / 2, y / 2, bits - 1) + XorBit(x % 2, y % 2)
  }

  /** Exclusive or undoes itself. */
  lemma {:induction false} XorTwice(x: nat, y: nat, bits: nat)
    requires x < Pow2(bits) && y < Pow2(bits)
    ensures XorBits(XorBits(x, y, bits), y, bits) == x
  {
    if bits > 0 {
      var high, low := XorBits(x / 2, y / 2, bits - 1), XorBit(x % 2, y % 2);
      XorTwice(x / 2, y / 2, bits - 1);
      assert XorBits(x, y, bits) == 2 * high + low;
      assert (2 * high + low) / 2 == high && (2 * high + low) % 2 == low;
    }
  }

  function Xor16(x: U16, y: U16): U16 {
    WordSizes();
    XorBits(x, y, 16)
  }

  function Xor32(x: U32, y: U32): U32 {
    WordSizes();
    XorBits(x, y, 32)
  }

  lemma XorTwice16(x: U16, y: U16)
    ensures Xor16(Xor16(x, y), y) == x
  {
    WordSizes();
    XorTwice(x, y, 16);
  }

  lemma XorTwice32(x: U32, y: U32)
    ensures Xor32(Xor32(x, y), y) == x
  {
    WordSizes();
    XorTwice(x, y, 32);
  }
}
