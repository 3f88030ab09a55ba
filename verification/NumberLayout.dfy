/** Numbers in parts: how slices of bits, bytes and elements are read off a number.

A slice of bits is a division and a remainder, and the number of an element is a weighted sum of its six
bytes. What this says about the fields of a frame is the matter of `ByteLayout`.
*/
module NumberLayout {
  import opened Bits
  import opened Common
  import opened Gray
  import opened Seqs
  import opened SrsData
  import opened FrameFormat

  // ----- numbers in parts

  lemma AtLeast(p: nat, a: nat, q: nat)
    requires a < q
    ensures p * q >= p * a + p
  {
    Distributes(p, a + 1, q - a - 1);
    Distributes(p, a, 1);
  }

  lemma Distributes(p: nat, x: nat, y: nat)
    ensures p * (x + y) == p * x + p * y && p * y >= 0
  {
  }

  lemma DivModUnique(n: nat, p: nat, q: nat, r: nat)
    requires p > 0 && r < p && n == p * q + r
    ensures n / p == q && n % p == r
  {
    var a := n / p;
    assert n == p * a + n % p;
    if a < q {
      AtLeast(p, a, q);
    } else if a > q {
      AtLeast(p, q, a);
    }
  }

  /** A number is its low bits, and its high bits times a power of two. */
  lemma {:induction false} NumberParts(b: Bitset, k: nat)
    requires k <= |b|
    ensures ToNat(b) == Pow2(k) * ToNat(b[k..]) + ToNat(b[..k])
  {
    if k == 0 {
    } else {
      NumberParts(b[1..], k - 1);
      RestParts(b, k);
      Doubled(Pow2(k - 1), ToNat(b[k..]));
    }
  }

  lemma RestParts(b: Bitset, k: nat)
    requires 0 < k <= |b|
    ensures b[1..][k - 1..] == b[k..] && b[1..][..k - 1] == b[..k][1..] && b[..k][0] == b[0]
  {
  }

  lemma Doubled(p: nat, x: nat)
    ensures (2 * p) * x == 2 * (p * x)
  {
  }

  /** A slice of bits is read off the number by a division and a remainder. */
  lemma SliceValue(b: Bitset, low: nat, length: nat)
    requires low + length <= |b|
    ensures ToNat(b[low..low + length]) == ToNat(b) / Pow2(low) % Pow2(length)
  {
    var upper := b[low..];
    NumberParts(b, low);
    ToNatBound(b[..low]);
    DivModUnique(ToNat(b), Pow2(low), ToNat(upper), ToNat(b[..low]));
    NumberParts(upper, length);
    ToNatBound(upper[..length]);
    DivModUnique(ToNat(upper), Pow2(length), ToNat(upper[length..]), ToNat(upper[..length]));
    assert upper[..length] == b[low..low + length];
  }

  lemma BitValue(b: Bitset, i: nat)
    requires i < |b|
    ensures ToNat(b) / Pow2(i) % 2 == if b[i] then 1 else 0
  {
    SliceValue(b, i, 1);
    assert b[i..i + 1] == [b[i]];
    assert ToNat([b[i]]) == (if b[i] then 1 else 0) + 2 * ToNat([]);
    assert Pow2(1) == 2;
  }

  lemma CodeBit(b: Bitset, i: nat)
    requires i < |b|
    ensures BinaryToGray(b)[i] == (b[i] != (i + 1 < |b| && b[i + 1]))
  {
  }

  /** The bit of a number at `i`, also above its width. */
  lemma NumberBit(n: nat, w: nat, i: nat)
    requires n < Pow2(w) && i <= w
    ensures n / Pow2(i) % 2 == if i < w && ToBits(n, w)[i] then 1 else 0
  {
    NumberOfBits(n, w);
    if i < w {
      BitValue(ToBits(n, w), i);
    } else {
      DivModUnique(n, Pow2(w), 0, n);
    }
  }

  /** The bit above is a bit of the half. */
  lemma HalfBit(n: nat, w: nat, i: nat)
    requires n < Pow2(w) && i < w
    ensures n / 2 / Pow2(i) % 2 == if i + 1 < w && ToBits(n, w)[i + 1] then 1 else 0
  {
    assert n / 2 < Pow2(w - 1);
    NumberBit(n / 2, w - 1, i);
    assert ToBits(n, w)[1..] == ToBits(n / 2, w - 1);
  }

  /** The code of `n` is the exclusive or of `n` and half of `n`, bit by bit. */
  lemma CodeOfNumberBits(n: nat, w: nat, i: nat)
    requires n < Pow2(w) && i < w
    ensures ToNat(BinaryToGray(ToBits(n, w))) / Pow2(i) % 2 == 1 <==> n / Pow2(i) % 2 != n / 2 / Pow2(i) % 2
  {
    var b := ToBits(n, w);
    BitValue(BinaryToGray(b), i);
    CodeBit(b, i);
    NumberBit(n, w, i);
    HalfBit(n, w, i);
  }

  // ----- an element as a 48-bit number

  lemma BytesOfWord(c: Element, k: nat)
    requires k < 6
    ensures WordOf(c)[8 * k..8 * k + 8] == ToBits(c[5 - k], 8)
  {
    var bytes := WriteBitset(WordOf(c));
    WireOfWord(c);
    assert Reverse(bytes)[5 - k] == bytes[k] == ByteValue(WordOf(c)[8 * k..8 * k + 8]);
  }

  lemma LowByte(b: Bitset, v: Byte)
    requires |b| >= 8 && b[..8] == ToBits(v, 8)
    ensures ToNat(b) == 0x100 * ToNat(b[8..]) + v
  {
    NumberParts(b, 8);
    NumberOfBits(v, 8);
    SmallPowers();
  }

  /** The number in all but the last `k` bytes. */
  function Upper(c: Element, k: nat): nat
    requires k <= 6
  {
    ToNat(WordOf(c)[8 * k..])
  }

  lemma UpperSlices(b: Bitset, k: nat)
    requires k + 8 <= |b|
    ensures b[k..][..8] == b[k..k + 8] && b[k..][8..] == b[k + 8..]
  {
  }

  lemma UpperByte(c: Element, k: nat)
    requires k < 6
    ensures Upper(c, k) == 0x100 * Upper(c, k + 1) + c[5 - k]
  {
    BytesOfWord(c, k);
    UpperSlices(WordOf(c), 8 * k);
    LowByte(WordOf(c)[8 * k..], c[5 - k]);
  }

  lemma UpperEnds(c: Element)
    ensures Upper(c, 0) == ToNat(WordOf(c)) && Upper(c, 6) == 0
  {
    assert WordOf(c)[0..] == WordOf(c) && WordOf(c)[48..] == [];
  }

  lemma UpperThree(c: Element)
    ensures var d: seq<int> := c;
            Upper(c, 0) == 0x100_0000 * Upper(c, 3) + 0x1_0000 * d[3] + 0x100 * d[4] + d[5]
  {
    UpperByte(c, 0);
    UpperByte(c, 1);
    UpperByte(c, 2);
  }

  lemma LowerThree(c: Element)
    ensures var d: seq<int> := c; Upper(c, 3) == 0x1_0000 * d[0] + 0x100 * d[1] + d[2]
  {
    UpperEnds(c);
    UpperByte(c, 3);
    UpperByte(c, 4);
    UpperByte(c, 5);
  }

  /** The number of a word has the first byte as its highest one. */
  lemma WordValue(c: Element)
    ensures var d: seq<int> := c;
            ToNat(WordOf(c)) == 0x100_0000_0000 * d[0] + 0x1_0000_0000 * d[1] + 0x100_0000 * d[2]
                                + 0x1_0000 * d[3] + 0x100 * d[4] + d[5]
  {
    UpperEnds(c);
    UpperThree(c);
    LowerThree(c);
  }

  lemma SliceOfExpanded(word: Word, low: nat, high: nat)
    requires low <= high <= 48
    ensures Expanded(word)[16 + low..16 + high] == word[low..high]
  {
  }

  lemma FieldValue(word: Word, low: nat, length: nat)
    requires low + length <= 48
    ensures Field(Expanded(word), 16 + low, length) == ToNat(word) / Pow2(low) % Pow2(length)
  {
    SliceValue(word, low, length);
    SliceOfExpanded(word, low, low + length);
    FieldIsSlice(Expanded(word), 16 + low, length, word[low..low + length]);
  }

  lemma FieldIsSlice(c: Bitset, low: nat, length: nat, slice: Bitset)
    requires low + length <= |c| && c[low..low + length] == slice
    ensures Field(c, low, length) == ToNat(slice)
  {
  }

  lemma LargePowers()
    ensures Pow2(14) == 0x4000 && Pow2(15) == 0x8000 && Pow2(28) == 0x1000_0000 && Pow2(38) == 0x40_0000_0000
    ensures Pow2(43) == 0x800_0000_0000 && Pow2(32) == 0x1_0000_0000
  {
    SmallPowers();
    assert Pow2(13) == 0x2000;
    assert Pow2(18) == 0x4_0000 && Pow2(23) == 0x80_0000;
  }

  // ----- fields of a word

  /** The fields of a hit in the number of its word. */
  lemma HighFields(word: Word, n: nat)
    requires n == ToNat(word)
    ensures HitOf(word).offset == n / 0x800_0000_0000 % 32
    ensures HitOf(word).vmmId == n / 0x40_0000_0000 % 32
    ensures HitOf(word).adc == n / 0x1000_0000 % 1024
  {
    SmallPowers();
    LargePowers();
    FieldValue(word, 43, 5);
    FieldValue(word, 38, 5);
    FieldValue(word, 28, 10);
  }

  lemma ChannelField(word: Word, n: nat)
    requires n == ToNat(word)
    ensures HitOf(word).channelNum == n / 0x100 % 64
  {
    SmallPowers();
    FieldValue(word, 8, 6);
  }

  lemma TimeField(word: Word, n: nat)
    requires n == ToNat(word)
    ensures HitOf(word).tdc == n % 256
  {
    SmallPowers();
    FieldValue(word, 0, 8);
  }

  lemma FlagBits(word: Word, n: nat)
    requires n == ToNat(word)
    ensures HitOf(word).isOverThreshold == (n / 0x4000 % 2 == 1)
    ensures IsHit(word) <==> n / 0x8000 % 2 == 1
  {
    LargePowers();
    BitValue(word, 14);
    BitValue(word, 15);
    assert Expanded(word)[30] == word[14];
  }

  lemma CodeValue(n: nat, q: nat, r: nat, x: nat, y: nat)
    requires n == 0x1_0000 * q + r && r < 0x1_0000 && q == 4096 * x + y
    ensures n / 0x1_0000 % 4096 == y % 4096
  {
  }

  /** The twelve bits of the code. */
  lemma CodeInBytes(c: Element, y: nat)
    requires var d: seq<int> := c; y == 0x1_0000 * d[1] + 0x100 * d[2] + d[3]
    ensures ToNat(WordOf(c)[16..28]) == y % 4096
  {
    var d: seq<int> := c;
    WordValue(c);
    SmallPowers();
    SliceValue(WordOf(c), 16, 12);
    CodeValue(ToNat(WordOf(c)), 0x100_0000 * d[0] + y, 0x100 * d[4] + d[5], 4096 * d[0], y);
  }

  lemma CrossingBits(word: Word, i: nat)
    requires i < 12
    ensures var bcId := HitOf(word).bcId;
            && bcId < 4096
            && (ToNat(word[16..28]) / Pow2(i) % 2 == 1 <==> bcId / Pow2(i) % 2 != bcId / 2 / Pow2(i) % 2)
  {
    SmallPowers();
    BcIdIsNarrow(word);
    CodeOfDecoded(word[16..28]);
    CodeOfNumberBits(HitOf(word).bcId, 12, i);
  }

  lemma MarkerNumber(word: Word, n: nat)
    requires n == ToNat(word)
    ensures MarkerOf(word).vmmId == n / 0x400 % 32 && MarkerOf(word).srsTimestamp == 1024 * (n / 0x1_0000) + n % 1024
  {
    SmallPowers();
    FieldValue(word, 10, 5);
    MergedTimestamp(word);
    TimestampParts(word);
  }

  lemma TimestampParts(word: Word)
    ensures ToNat(word[16..48]) == ToNat(word) / 0x1_0000 && ToNat(word[0..10]) == ToNat(word) % 1024
  {
    SmallPowers();
    NumberParts(word, 16);
    ToNatBound(word[..16]);
    DivModUnique(ToNat(word), 0x1_0000, ToNat(word[16..]), ToNat(word[..16]));
    assert word[16..] == word[16..48];
    SliceValue(word, 0, 10);
  }

  lemma MergedTimestamp(word: Word)
    ensures MarkerOf(word).srsTimestamp == 1024 * ToNat(word[16..48]) + ToNat(word[0..10])
  {
    var c := Expanded(word);
    var merged := MergeBits(c[32..64], c[16..26]);
    MergeIsConcatenation(c[32..64], c[16..26]);
    SliceOfExpanded(word, 16, 48);
    SliceOfExpanded(word, 0, 10);
    NumberParts(merged, 10);
    SmallPowers();
    assert merged[..10] == word[0..10] && merged[10..] == word[16..48];
  }

  // ----- lists of elements

  lemma MappedAt<T, U, V>(f: T -> V, s: seq<T>, g: U -> V, t: seq<U>, k: nat)
    requires k < |s| + |t|
    ensures (Map(f, s) + Map(g, t))[k] == if k < |s| then f(s[k]) else g(t[k - |s|])
  {
  }

  lemma BehindHeader(header: seq<Byte>, cs: seq<Element>, k: nat)
    requires |header| == 16 && k < |cs|
    ensures var frame := header + Flatten(cs); |frame| == 16 + 6 * |cs| && frame[16 + 6 * k..22 + 6 * k] == cs[k]
  {
    FlattenLength(cs);
    FlattenAt(cs, k);
    SliceBehind(header, Flatten(cs), 6 * k, 6 * k + 6);
  }

  lemma SliceBehind(a: seq<Byte>, b: seq<Byte>, low: nat, high: nat)
    requires low <= high <= |b|
    ensures (a + b)[|a| + low..|a| + high] == b[low..high]
  {
  }

  lemma {:induction false} FlattenAt(cs: seq<Element>, k: nat)
    requires k < |cs|
    ensures 6 * k + 6 <= |Flatten(cs)| && Flatten(cs)[6 * k..6 * k + 6] == cs[k]
  {
    ElementsOfFlatten(cs);
    FlattenLength(cs);
    ElementsAt(Flatten(cs), k);
  }

  lemma BitIsZeroOrOne(n: nat)
    ensures n % 2 == 0 || n % 2 == 1
  {
  }

  lemma TopBit(v: Byte)
    ensures ToBits(v, 8)[7] <==> v >= 128
  {
    SmallPowers();
    NumberBit(v, 8, 7);
    assert Pow2(7) == 128;
  }

  lemma {:induction false} FilterSame<T>(p: T -> bool, q: T -> bool, s: seq<T>)
    requires forall i :: 0 <= i < |s| ==> (p(s[i]) <==> q(s[i]))
    ensures Filter(p, s) == Filter(q, s)
  {
    if s == [] {
    } else {
      FilterSame(p, q, s[..|s| - 1]);
    }
  }

  lemma GroupsAreElements(d: seq<Byte>, cs: seq<Element>)
    requires |d| >= 16 && |cs| == (|d| - 16) / 6
    requires forall i :: 0 <= i < |cs| ==> cs[i] == d[16 + 6 * i..22 + 6 * i]
    ensures Elements(d[16..]) == cs
  {
    ElementsCount(d[16..]);
    forall i | 0 <= i < |cs|
      ensures Elements(d[16..])[i] == cs[i]
    {
      ElementsAt(d[16..], i);
      SliceOfRest(d, 16, 6 * i, 6 * i + 6);
    }
  }
}
