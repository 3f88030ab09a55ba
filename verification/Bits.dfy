/** Fixed-width bit sets and the bit helpers of `srs::common`. */
module Bits {

  // A `std::bitset<n>` is a sequence of `n` booleans whose element 0 is the least significant bit, so
  // every statement below holds for every width at once.

  type Byte = x: int | 0 <= x < 0x100 witness 0
  type U16 = x: int | 0 <= x < 0x1_0000 witness 0
  type U32 = x: int | 0 <= x < 0x1_0000_0000 witness 0
  type U64 = x: int | 0 <= x < 0x1_0000_0000_0000_0000 witness 0

  type Bitset = seq<bool>

  // ----- numbers and bit sets

  function Pow2(n: nat): (p: nat)
    ensures p > 0
  {
    if n == 0 then 1 else 2 * Pow2(n - 1)
  }

  /** `to_ullong`. */
  function ToNat(b: Bitset): nat {
    if b == [] then 0 else (if b[0] then 1 else 0) + 2 * ToNat(b[1..])
  }

  /** `std::bitset<w>{ n }`: the low `w` bits of `n`. */
  function ToBits(n: nat, w: nat): (b: Bitset)
    ensures |b| == w
  {
    if w == 0 then [] else [n % 2 == 1] + ToBits(n / 2, w - 1)
  }

  lemma {:induction false} ToNatBound(b: Bitset)
    ensures ToNat(b) < Pow2(|b|)
  {
    if b == [] {
    } else {
      ToNatBound(b[1..]);
    }
  }

  /** No bit pattern is lost by reading it as a number. */
  lemma {:induction false} BitsOfNumber(b: Bitset)
    ensures ToBits(ToNat(b), |b|) == b
  {
    if b == [] {
    } else {
      BitsOfNumber(b[1..]);
      assert ToNat(b) / 2 == ToNat(b[1..]);
    }
  }

  /** A number survives a `w`-bit field exactly when it is below two to the power `w`. */
  lemma {:induction false} NumberOfBits(n: nat, w: nat)
    ensures ToNat(ToBits(n, w)) == n <==> n < Pow2(w)
  {
    if w == 0 {
    } else {
      NumberOfBits(n / 2, w - 1);
      assert ToBits(n, w)[1..] == ToBits(n / 2, w - 1);
    }
  }

  // ----- shifts and bitwise operators

  function Zeros(n: nat): (b: Bitset)
    ensures |b| == n
  {
    seq(n, i => false)
  }

  function Shl(b: Bitset, k: nat): (r: Bitset)
    ensures |r| == |b|
  {
    seq(|b|, i requires 0 <= i < |b| => k <= i && b[i - k])
  }

  function Shr(b: Bitset, k: nat): (r: Bitset)
    ensures |r| == |b|
  {
    seq(|b|, i requires 0 <= i < |b| => i + k < |b| && b[i + k])
  }

  function Or(a: Bitset, b: Bitset): (r: Bitset)
    requires |a| == |b|
    ensures |r| == |a|
  {
    seq(|a|, i requires 0 <= i < |a| => a[i] || b[i])
  }

  function Xor(a: Bitset, b: Bitset): (r: Bitset)
    requires |a| == |b|
    ensures |r| == |a|
  {
    seq(|a|, i requires 0 <= i < |a| => a[i] != b[i])
  }

  /** `std::bitset<w>{ b.to_ullong() }`: cut off or filled with zeros. */
  function Resize(b: Bitset, w: nat): (r: Bitset)
    ensures |r| == w
  {
    seq(w, i requires 0 <= i < w => i < |b| && b[i])
  }

  lemma ResizeShape(b: Bitset, w: nat)
    ensures Resize(b, w) == if w <= |b| then b[..w] else b + Zeros(w - |b|)
  {
  }

  /** It is the number's low bits. */
  lemma {:induction false} ResizeIsOfNumber(b: Bitset, w: nat)
    ensures Resize(b, w) == ToBits(ToNat(b), w)
  {
    if w == 0 {
    } else if b == [] {
      ResizeIsOfNumber([], w - 1);
      assert ToBits(0, w) == [false] + ToBits(0, w - 1);
    } else {
      ResizeIsOfNumber(b[1..], w - 1);
      assert ToNat(b) / 2 == ToNat(b[1..]);
      assert Resize(b, w) == [b[0]] + Resize(b[1..], w - 1);
    }
  }

  // ----- single bits of shifted and resized words

  lemma ShlAt(b: Bitset, k: nat, i: nat)
    requires i < |b|
    ensures Shl(b, k)[i] == (k <= i && b[i - k])
  {
  }

  lemma ShrAt(b: Bitset, k: nat, i: nat)
    requires i < |b|
    ensures Shr(b, k)[i] == (i + k < |b| && b[i + k])
  {
  }

  lemma ResizeAt(b: Bitset, w: nat, i: nat)
    requires i < w
    ensures Resize(b, w)[i] == (i < |b| && b[i])
  {
  }

  // ----- helpers of CommonFunctions.hpp

  /** The bits of the half open range [min, max), by two shifts. */
  function Subset(b: Bitset, max: nat, min: nat): Bitset
    requires min < max <= |b| && max - min <= 64
  {
    var ignoreHigh := |b| - max;
    Resize(Shr(Shl(b, ignoreHigh), ignoreHigh + min), max - min)
  }

  function MergeBits(high: Bitset, low: Bitset): Bitset
    requires |high| + |low| <= 64
  {
    var w := |high| + |low|;
    Or(Shl(Resize(high, w), |low|), Resize(low, w))
  }

  function GetLowBits(b: Bitset, lowSize: nat): Bitset
    requires lowSize <= |b| <= 64
  {
    var highSize := |b| - lowSize;
    Resize(Shr(Shl(b, highSize), highSize), lowSize)
  }

  function GetHighBits(b: Bitset, highSize: nat): Bitset
    requires highSize <= |b| <= 64
  {
    Resize(Shr(b, |b| - highSize), highSize)
  }

  /** `std::byteswap` of a 64-bit word. */
  function ByteSwap64(b: Bitset): (r: Bitset)
    requires |b| == 64
    ensures |r| == 64
  {
    seq(64, i requires 0 <= i < 64 => b[8 * (7 - i / 8) + i % 8])
  }

  /** `byte_swap`: shift to the top of a 64-bit word, swap its bytes, cut back to the width. */
  function ByteSwap(b: Bitset): (r: Bitset)
    requires |b| <= 64
    ensures |r| == |b|
  {
    Resize(ByteSwap64(Shl(Resize(b, 64), 64 - |b|)), |b|)
  }

  /** Bits shifted up by `up` and then down by `down` have moved down by the difference. */
  lemma ShiftedTwiceAt(b: Bitset, up: nat, down: nat, i: nat)
    requires up <= down && i + down < |b|
    ensures Shr(Shl(b, up), down)[i] == b[i + down - up]
  {
    ShrAt(Shl(b, up), down, i);
    ShlAt(b, up, i + down);
  }

  lemma SubsetAt(b: Bitset, max: nat, min: nat, i: nat)
    requires min < max <= |b| && max - min <= 64 && i < max - min
    ensures Subset(b, max, min)[i] == b[min + i]
  {
    var ignoreHigh := |b| - max;
    ResizeAt(Shr(Shl(b, ignoreHigh), ignoreHigh + min), max - min, i);
    ShiftedTwiceAt(b, ignoreHigh, ignoreHigh + min, i);
  }

  /** The shifts of `subset` cut out exactly the bits of the range. */
  lemma SubsetIsRange(b: Bitset, max: nat, min: nat)
    requires min < max <= |b| && max - min <= 64
    ensures Subset(b, max, min) == b[min..max]
  {
    var cut, range := Subset(b, max, min), b[min..max];
    forall i | 0 <= i < max - min
      ensures cut[i] == range[i]
    {
      SubsetAt(b, max, min, i);
    }
  }

  lemma LowBitsAreTheBottom(b: Bitset, lowSize: nat)
    requires lowSize <= |b| <= 64
    ensures GetLowBits(b, lowSize) == b[..lowSize]
  {
    var highSize := |b| - lowSize;
    forall i | 0 <= i < lowSize
      ensures GetLowBits(b, lowSize)[i] == b[i]
    {
      ResizeAt(Shr(Shl(b, highSize), highSize), lowSize, i);
      ShiftedTwiceAt(b, highSize, highSize, i);
    }
  }

  lemma HighBitsAreTheTop(b: Bitset, highSize: nat)
    requires highSize <= |b| <= 64
    ensures GetHighBits(b, highSize) == b[|b| - highSize..]
  {
    var lowSize := |b| - highSize;
    forall i | 0 <= i < highSize
      ensures GetHighBits(b, highSize)[i] == b[lowSize + i]
    {
      ResizeAt(Shr(b, lowSize), highSize, i);
      ShrAt(b, lowSize, i);
    }
  }

  lemma MergeIsConcatenation(high: Bitset, low: Bitset)
    requires |high| + |low| <= 64
    ensures MergeBits(high, low) == low + high
  {
    var w := |high| + |low|;
    forall i | 0 <= i < w
      ensures MergeBits(high, low)[i] == (low + high)[i]
    {
      ResizeAt(low, w, i);
      ShlAt(Resize(high, w), |low|, i);
      if |low| <= i {
        ResizeAt(high, w, i - |low|);
      }
    }
  }

  /** Splitting a word at any position and merging the parts gives the word back. */
  lemma MergeUndoesSplit(b: Bitset, lowSize: nat)
    requires lowSize <= |b| <= 64
    ensures |GetHighBits(b, |b| - lowSize)| + |GetLowBits(b, lowSize)| <= 64
    ensures MergeBits(GetHighBits(b, |b| - lowSize), GetLowBits(b, lowSize)) == b
  {
    LowBitsAreTheBottom(b, lowSize);
    HighBitsAreTheTop(b, |b| - lowSize);
    MergeIsConcatenation(b[lowSize..], b[..lowSize]);
  }

  /** Both parts of a merged word are recovered by splitting it. */
  lemma SplitUndoesMerge(high: Bitset, low: Bitset)
    requires |high| + |low| <= 64
    ensures |MergeBits(high, low)| == |high| + |low|
    ensures GetHighBits(MergeBits(high, low), |high|) == high
    ensures GetLowBits(MergeBits(high, low), |low|) == low
  {
    MergeIsConcatenation(high, low);
    LowBitsAreTheBottom(low + high, |low|);
    HighBitsAreTheTop(low + high, |high|);
  }

  // ----- byte order

  /** The bytes of a bit set, lowest byte first. */
  function BytesOf(b: Bitset): (r: seq<Bitset>)
    requires |b| % 8 == 0
    ensures |r| == |b| / 8
    ensures forall k :: 0 <= k < |r| ==> |r[k]| == 8
  {
    seq(|b| / 8, k requires 0 <= k < |b| / 8 => b[8 * k..8 * k + 8])
  }

  function Reverse<T>(s: seq<T>): (r: seq<T>)
    ensures |r| == |s|
  {
    seq(|s|, i requires 0 <= i < |s| => s[|s| - 1 - i])
  }

  /** A position within a byte. */
  lemma ByteIndex(i: nat, q: nat, r: nat)
    requires i == 8 * q + r && r < 8
    ensures i / 8 == q && i % 8 == r
  {
  }

  /** Where each bit of a swapped word comes from; `false` where only shifted-in zeros arrive. */
  lemma ByteSwapAt(b: Bitset, i: nat, q: nat, r: nat)
    requires i < |b| <= 64 && i == 8 * q + r && r < 8
    ensures var j := 8 * (7 - q) + r - (64 - |b|);
            ByteSwap(b)[i] == (0 <= j && b[j])
  {
    var wide := Resize(b, 64);
    var top := Shl(wide, 64 - |b|);
    var j := 8 * (7 - q) + r;
    ByteIndex(i, q, r);
    ResizeAt(ByteSwap64(top), |b|, i);
    assert ByteSwap64(top)[i] == top[j];
    ShlAt(wide, 64 - |b|, j);
    if 64 - |b| <= j {
      ResizeAt(b, 64, j - (64 - |b|));
    }
  }

  /** With `n` whole bytes, bit `r` of byte `q` comes from bit `r` of byte `n - 1 - q`. */
  lemma WholeBytesSwapAt(b: Bitset, n: nat, q: nat, r: nat)
    requires |b| == 8 * n <= 64 && q < n && r < 8
    ensures ByteSwap(b)[8 * q + r] == b[8 * (n - 1 - q) + r]
  {
    ByteSwapAt(b, 8 * q + r, q, r);
  }

  lemma SwappedByte(b: Bitset, n: nat, q: nat)
    requires |b| == 8 * n <= 64 && q < n
    ensures ByteSwap(b)[8 * q..8 * q + 8] == b[8 * (n - 1 - q)..8 * (n - 1 - q) + 8]
  {
    var p := n - 1 - q;
    var swapped, original := ByteSwap(b)[8 * q..8 * q + 8], b[8 * p..8 * p + 8];
    forall r | 0 <= r < 8
      ensures swapped[r] == original[r]
    {
      WholeBytesSwapAt(b, n, q, r);
    }
  }

  /** For whole bytes, swapping reverses the byte list. */
  lemma ByteSwapReversesBytes(b: Bitset)
    requires |b| <= 64 && |b| % 8 == 0
    ensures BytesOf(ByteSwap(b)) == Reverse(BytesOf(b))
  {
    var n := |b| / 8;
    forall q | 0 <= q < n
      ensures BytesOf(ByteSwap(b))[q] == Reverse(BytesOf(b))[q]
    {
      SwappedByte(b, n, q);
    }
  }

  lemma ByteSwapTwiceAt(b: Bitset, i: nat)
    requires i < |b| <= 64 && |b| % 8 == 0
    ensures ByteSwap(ByteSwap(b))[i] == b[i]
  {
    var n, q, r := |b| / 8, i / 8, i % 8;
    WholeBytesSwapAt(ByteSwap(b), n, q, r);
    WholeBytesSwapAt(b, n, n - 1 - q, r);
  }

  /** A width with a partial byte loses the bit at the start of that byte. */
  lemma PartialByteIsLost(w: nat, b: Bitset)
    requires w <= 64 && w % 8 != 0 && |b| == w
    ensures !ByteSwap(b)[8 * (w / 8)]
  {
    ByteSwapAt(b, 8 * (w / 8), w / 8, 0);
  }

  /** `byte_swap` is its own inverse exactly at the widths made of whole bytes. */
  lemma ByteSwapInvolutive(w: nat)
    requires w <= 64
    ensures (forall b: Bitset | |b| == w :: ByteSwap(ByteSwap(b)) == b) <==> w % 8 == 0
  {
    if w % 8 == 0 {
      forall b: Bitset | |b| == w
        ensures ByteSwap(ByteSwap(b)) == b
      {
        forall i | 0 <= i < w
          ensures ByteSwap(ByteSwap(b))[i] == b[i]
        {
          ByteSwapTwiceAt(b, i);
        }
      }
    } else {
      var ones: Bitset := seq(w, i => true);
      PartialByteIsLost(w, ByteSwap(ones));
      assert ones[8 * (w / 8)];
    }
  }
}
