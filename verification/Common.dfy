/** Result types and byte orders shared by the other modules. */
module Common {
  import opened Bits

  datatype Option<+T> = None | Some(value: T)

  datatype Result<+T> = Ok(value: T) | Err(error: string)

  // ----- 32-bit big-endian numbers

  function ToBE32(n: U32): (r: seq<Byte>)
    ensures |r| == 4
  {
    [n / 0x100_0000, n / 0x1_0000 % 0x100, n / 0x100 % 0x100, n % 0x100]
  }

  function FromBE32(s: seq<Byte>): U32
    requires |s| == 4
  {
    var b0: int, b1: int, b2: int, b3: int := s[0], s[1], s[2], s[3];
    0x100_0000 * b0 + 0x1_0000 * b1 + 0x100 * b2 + b3
  }

  lemma BE32RoundTrip(n: U32)
    ensures FromBE32(ToBE32(n)) == n
  {
    var q := n / 0x100;
    var p := q / 0x100;
    assert p == n / 0x1_0000 && p / 0x100 == n / 0x100_0000;
    assert n == 0x100 * q + n % 0x100;
    assert q == 0x100 * p + q % 0x100;
    assert p == 0x100 * (p / 0x100) + p % 0x100;
  }

  lemma BE32OfBytes(s: seq<Byte>)
    requires |s| == 4
    ensures ToBE32(FromBE32(s)) == s
  {
    var b0: int, b1: int, b2: int, b3: int := s[0], s[1], s[2], s[3];
    var p := 0x100 * b0 + b1;
    var q := 0x100 * p + b2;
    var n := FromBE32(s);
    assert n == 0x100 * q + b3;
    assert n / 0x100 == q && q / 0x100 == p && p / 0x100 == b0;
    assert n / 0x1_0000 == p && n / 0x100_0000 == b0;
  }

  // ----- bit sets as bytes, lowest byte first

  function ByteValue(b: Bitset): (v: Byte)
    requires |b| == 8
    ensures ToBits(v, 8) == b
  {
    ToNatBound(b);
    BitsOfNumber(b);
    assert Pow2(8) == 0x100 by { assert Pow2(4) == 16; }
    ToNat(b)
  }

  function WriteBitset(b: Bitset): (r: seq<Byte>)
    requires |b| % 8 == 0
    ensures |r| == |b| / 8
  {
    seq(|b| / 8, k requires 0 <= k < |b| / 8 => ByteValue(b[8 * k..8 * k + 8]))
  }

  function ReadBitset(bytes: seq<Byte>): (b: Bitset)
    ensures |b| == 8 * |bytes|
  {
    seq(8 * |bytes|, i requires 0 <= i < 8 * |bytes| => ToBits(bytes[i / 8], 8)[i % 8])
  }

  lemma ReadUndoesWrite(b: Bitset)
    requires |b| % 8 == 0
    ensures ReadBitset(WriteBitset(b)) == b
  {
    forall i | 0 <= i < |b|
      ensures ReadBitset(WriteBitset(b))[i] == b[i]
    {
      var k := i / 8;
      assert ToBits(WriteBitset(b)[k], 8) == b[8 * k..8 * k + 8];
    }
  }

  lemma ReadByte(bytes: seq<Byte>, k: nat)
    requires k < |bytes|
    ensures ReadBitset(bytes)[8 * k..8 * k + 8] == ToBits(bytes[k], 8)
  {
    forall r | 0 <= r < 8
      ensures ReadBitset(bytes)[8 * k + r] == ToBits(bytes[k], 8)[r]
    {
      ByteIndex(8 * k + r, k, r);
    }
  }

  lemma WriteUndoesRead(bytes: seq<Byte>)
    ensures WriteBitset(ReadBitset(bytes)) == bytes
  {
    forall k | 0 <= k < |bytes|
      ensures WriteBitset(ReadBitset(bytes))[k] == bytes[k]
    {
      ReadByte(bytes, k);
      ByteIsItsBits(bytes[k]);
    }
  }

  lemma ByteIsItsBits(v: Byte)
    ensures ByteValue(ToBits(v, 8)) == v
  {
    NumberOfBits(v, 8);
    assert Pow2(8) == 0x100 by { assert Pow2(4) == 16; }
  }
}
