/** The frame structures, their bit-field layouts and what a frame means, independent of any buffer. */
module SrsData {
  import opened Bits
  import opened Common
  import opened Gray

  type VmmTag = t: seq<Byte> | |t| == 3 witness [0, 0, 0]

  datatype Header = Header(frameCounter: U32, vmmTag: VmmTag, fecId: Byte, udpTimestamp: U32, overflow: U32)

  datatype MarkerData = MarkerData(vmmId: Byte, srsTimestamp: U64)

  datatype HitData = HitData(
    isOverThreshold: bool, channelNum: Byte, tdc: Byte, offset: Byte, vmmId: Byte, adc: U16, bcId: U16)

  datatype StructData = StructData(header: Header, markers: seq<MarkerData>, hits: seq<HitData>)

  const EMPTY_STRUCT := StructData(Header(0, [0, 0, 0], 0, 0, 0), [], [])

  const CHANNEL_NUM_BIT_LENGTH := 6
  const TDC_BIT_LENGTH := 8
  const BC_ID_BIT_LENGTH := 12
  const ADC_BIT_LENGTH := 10
  const VMM_ID_BIT_LENGTH := 5
  const OFFSET_BIT_LENGTH := 5
  const SRS_TIMESTAMP_HIGH_BIT_LENGTH := 32
  const SRS_TIMESTAMP_LOW_BIT_LENGTH := 10
  const SRS_TIMESTAMP_BIT_LENGTH := SRS_TIMESTAMP_LOW_BIT_LENGTH + SRS_TIMESTAMP_HIGH_BIT_LENGTH
  const HIT_DATA_BIT_LENGTH := 48
  const FLAG_BIT_POSITION := 15
  const HEADER_BYTES := 16
  const ELEMENT_BYTES := 6

  /** The 48 bits of a hit or marker. */
  type Word = w: Bitset | |w| == HIT_DATA_BIT_LENGTH witness Zeros(HIT_DATA_BIT_LENGTH)

  // ----- the header

  function HeaderBytes(h: Header): (r: seq<Byte>)
    ensures |r| == HEADER_BYTES
  {
    ToBE32(h.frameCounter) + h.vmmTag + [h.fecId] + ToBE32(h.udpTimestamp) + ToBE32(h.overflow)
  }

  function HeaderOf(d: seq<Byte>): Header
    requires |d| >= HEADER_BYTES
  {
    Header(FromBE32(d[0..4]), d[4..7], d[7], FromBE32(d[8..12]), FromBE32(d[12..16]))
  }

  lemma HeaderRoundTrip(h: Header, rest: seq<Byte>)
    ensures HeaderOf(HeaderBytes(h) + rest) == h
  {
    var d := HeaderBytes(h) + rest;
    BE32RoundTrip(h.frameCounter);
    BE32RoundTrip(h.udpTimestamp);
    BE32RoundTrip(h.overflow);
    assert d[0..4] == ToBE32(h.frameCounter);
    assert d[4..7] == h.vmmTag;
    assert d[8..12] == ToBE32(h.udpTimestamp);
    assert d[12..16] == ToBE32(h.overflow);
  }

  lemma HeaderOfBytes(d: seq<Byte>)
    requires |d| >= HEADER_BYTES
    ensures HeaderBytes(HeaderOf(d)) == d[..HEADER_BYTES]
  {
    BE32OfBytes(d[0..4]);
    BE32OfBytes(d[8..12]);
    BE32OfBytes(d[12..16]);
  }

  // ----- which values a word can hold

  predicate Fits(value: nat, length: nat) {
    value < Pow2(length)
  }

  predicate HitFits(h: HitData) {
    && Fits(h.channelNum, CHANNEL_NUM_BIT_LENGTH)
    && Fits(h.bcId, BC_ID_BIT_LENGTH)
    && Fits(h.adc, ADC_BIT_LENGTH)
    && Fits(h.vmmId, VMM_ID_BIT_LENGTH)
    && Fits(h.offset, OFFSET_BIT_LENGTH)
  }

  predicate MarkerFits(m: MarkerData) {
    Fits(m.vmmId, VMM_ID_BIT_LENGTH) && Fits(m.srsTimestamp, SRS_TIMESTAMP_BIT_LENGTH)
  }

  predicate Representable(s: StructData) {
    && (forall i :: 0 <= i < |s.hits| ==> HitFits(s.hits[i]))
    && (forall i :: 0 <= i < |s.markers| ==> MarkerFits(s.markers[i]))
  }

  // ----- the 64-bit layouts, least significant field first

  /** The Gray code is computed in the 32-bit base type of the bit field and cut back to the field. */
  function GrayField(bcId: nat): (r: Bitset)
    ensures |r| == BC_ID_BIT_LENGTH
  {
    Resize(BinaryToGray(Resize(ToBits(bcId, BC_ID_BIT_LENGTH), 32)), BC_ID_BIT_LENGTH)
  }

  function HitCompact(h: HitData): (r: Bitset)
    ensures |r| == 64
  {
    Zeros(16)
    + ToBits(h.tdc, TDC_BIT_LENGTH)
    + ToBits(h.channelNum, CHANNEL_NUM_BIT_LENGTH)
    + [h.isOverThreshold]
    + [true]
    + GrayField(h.bcId)
    + ToBits(h.adc, ADC_BIT_LENGTH)
    + ToBits(h.vmmId, VMM_ID_BIT_LENGTH)
    + ToBits(h.offset, OFFSET_BIT_LENGTH)
  }

  function MarkerCompact(m: MarkerData): (r: Bitset)
    ensures |r| == 64
  {
    var timestamp := ToBits(m.srsTimestamp, SRS_TIMESTAMP_BIT_LENGTH);
    Zeros(16)
    + GetLowBits(timestamp, SRS_TIMESTAMP_LOW_BIT_LENGTH)
    + ToBits(m.vmmId, OFFSET_BIT_LENGTH)
    + [false]
    + GetHighBits(timestamp, SRS_TIMESTAMP_HIGH_BIT_LENGTH)
  }

  /** The 64-bit word a 48-bit element is expanded to before it is read as a bit-field struct. */
  function Expanded(word: Word): (r: Bitset)
    ensures |r| == 64
    ensures r == Zeros(16) + word
  {
    ResizeShape(word, 64);
    var r := Shl(Resize(word, 64), 64 - HIT_DATA_BIT_LENGTH);
    assert r == Zeros(16) + word by {
      assert (word + Zeros(16))[..48] == word;
    }
    r
  }

  predicate IsHit(word: Word) {
    word[FLAG_BIT_POSITION]
  }

  predicate IsMarker(word: Word) {
    !word[FLAG_BIT_POSITION]
  }

  /** A field of a layout as a number. */
  function Field(b: Bitset, low: nat, length: nat): (v: nat)
    requires low + length <= |b|
    ensures v < Pow2(length)
  {
    ToNatBound(b[low..low + length]);
    ToNat(b[low..low + length])
  }

  lemma SmallPowers()
    ensures Pow2(5) == 32 && Pow2(6) == 64 && Pow2(8) == 0x100 && Pow2(10) == 0x400 && Pow2(12) == 0x1000
    ensures Pow2(16) == 0x1_0000 && Pow2(42) == 0x400_0000_0000
  {
    assert Pow2(4) == 16;
    assert Pow2(8) == 0x100;
    assert Pow2(14) == 0x4000;
    assert Pow2(20) == 0x10_0000;
    assert Pow2(26) == 0x400_0000;
    assert Pow2(32) == 0x1_0000_0000;
    assert Pow2(38) == 0x40_0000_0000;
  }

  function HitOf(word: Word): HitData
  {
    SmallPowers();
    var c := Expanded(word);
    var gray := Resize(c[32..44], 16);
    ToNatBound(Decoded(gray));
    HitData(c[30], Field(c, 24, 6), Field(c, 16, 8), Field(c, 59, 5), Field(c, 54, 5), Field(c, 44, 10),
            ToNat(Decoded(gray)))
  }

  function MarkerOf(word: Word): MarkerData
  {
    SmallPowers();
    var c := Expanded(word);
    var merged := MergeBits(c[32..64], c[16..26]);
    MergeIsConcatenation(c[32..64], c[16..26]);
    ToNatBound(merged);
    MarkerData(Field(c, 26, 5), ToNat(merged))
  }

  // ----- layouts and fields invert each other

  lemma GrayFieldIsNarrow(bcId: nat)
    ensures GrayField(bcId) == BinaryToGray(ToBits(bcId, BC_ID_BIT_LENGTH))
  {
    var b := ToBits(bcId, BC_ID_BIT_LENGTH);
    ResizeShape(b, 32);
    WidthKept(b, 20);
    ResizeShape(BinaryToGray(b + Zeros(20)), BC_ID_BIT_LENGTH);
    assert (BinaryToGray(b) + Zeros(20))[..12] == BinaryToGray(b);
  }

  /** The field is decoded with four clear bits above it. */
  lemma BcIdIs(word: Word)
    ensures HitOf(word).bcId == ToNat(Decoded(word[16..28]) + Zeros(4))
  {
    var code := word[16..28];
    assert Expanded(word)[32..44] == code;
    ResizeShape(code, 16);
    WidthKept(code, 4);
  }

  /** Decoding in the 16-bit type of the hit field reads the same number as decoding the 12-bit field. */
  lemma BcIdIsNarrow(word: Word)
    ensures ToBits(HitOf(word).bcId, BC_ID_BIT_LENGTH) == Decoded(word[16..28])
    ensures Fits(HitOf(word).bcId, BC_ID_BIT_LENGTH)
  {
    var narrow := Decoded(word[16..28]);
    BcIdIs(word);
    AppendZeros(narrow, 4);
    ToNatBound(narrow);
    BitsOfNumber(narrow);
  }

  lemma {:induction false} AppendZeros(b: Bitset, n: nat)
    ensures ToNat(b + Zeros(n)) == ToNat(b)
    decreases n
  {
    if n == 0 {
      assert b + Zeros(n) == b;
    } else {
      AppendZeros(b, n - 1);
      AppendFalse(b + Zeros(n - 1));
      assert b + Zeros(n - 1) + [false] == b + Zeros(n);
    }
  }

  lemma HitCompactFields(h: HitData)
    ensures var c := HitCompact(h);
            && c[..16] == Zeros(16)
            && c[16..24] == ToBits(h.tdc, TDC_BIT_LENGTH)
            && c[24..30] == ToBits(h.channelNum, CHANNEL_NUM_BIT_LENGTH)
            && c[30] == h.isOverThreshold
            && c[31]
            && c[32..44] == GrayField(h.bcId)
            && c[44..54] == ToBits(h.adc, ADC_BIT_LENGTH)
            && c[54..59] == ToBits(h.vmmId, VMM_ID_BIT_LENGTH)
            && c[59..64] == ToBits(h.offset, OFFSET_BIT_LENGTH)
  {
    var tdc, channel := ToBits(h.tdc, TDC_BIT_LENGTH), ToBits(h.channelNum, CHANNEL_NUM_BIT_LENGTH);
    var adc, vmm := ToBits(h.adc, ADC_BIT_LENGTH), ToBits(h.vmmId, VMM_ID_BIT_LENGTH);
    var offset := ToBits(h.offset, OFFSET_BIT_LENGTH);
    FiveParts(Zeros(16), tdc, channel, [h.isOverThreshold], [true]);
    var low := Zeros(16) + tdc + channel + [h.isOverThreshold] + [true];
    FiveParts(low, GrayField(h.bcId), adc, vmm, offset);
    SliceOfFront(HitCompact(h), low);
  }

  lemma FiveParts(a: Bitset, b: Bitset, c: Bitset, d: Bitset, e: Bitset)
    ensures var all := a + b + c + d + e;
            var ab, abc, abcd := |a| + |b|, |a| + |b| + |c|, |a| + |b| + |c| + |d|;
            && all[..|a|] == a && all[|a|..ab] == b && all[ab..abc] == c && all[abc..abcd] == d && all[abcd..] == e
  {
  }

  lemma SliceOfFront(all: Bitset, front: Bitset)
    requires front <= all
    ensures forall lo, hi :: 0 <= lo <= hi <= |front| ==> all[lo..hi] == front[lo..hi]
  {
  }

  lemma FieldOfNumber(c: Bitset, low: nat, n: nat, length: nat)
    requires low + length <= |c| && c[low..low + length] == ToBits(n, length) && Fits(n, length)
    ensures Field(c, low, length) == n
  {
    NumberOfBits(n, length);
  }

  /** Every field of a hit that fits is recovered from its word, and the word is flagged as a hit. */
  lemma HitUnpacksPacked(h: HitData)
    requires HitFits(h)
    ensures IsHit(HitCompact(h)[16..])
    ensures HitOf(HitCompact(h)[16..]) == h
  {
    var c := HitCompact(h);
    HitCompactFields(h);
    assert Expanded(c[16..]) == c;
    SmallPowers();
    FieldOfNumber(c, 16, h.tdc, 8);
    FieldOfNumber(c, 24, h.channelNum, 6);
    FieldOfNumber(c, 44, h.adc, 10);
    FieldOfNumber(c, 54, h.vmmId, 5);
    FieldOfNumber(c, 59, h.offset, 5);
    BcIdUnpacksPacked(h);
  }

  lemma BcIdUnpacksPacked(h: HitData)
    requires HitFits(h)
    ensures HitOf(HitCompact(h)[16..]).bcId == h.bcId
  {
    HitCompactFields(h);
    var word := HitCompact(h)[16..];
    assert word[16..28] == GrayField(h.bcId);
    GrayFieldIsNarrow(h.bcId);
    DecodedOfCode(ToBits(h.bcId, BC_ID_BIT_LENGTH));
    BcIdIsNarrow(word);
    NumberOfBits(h.bcId, BC_ID_BIT_LENGTH);
    NumberOfBits(HitOf(word).bcId, BC_ID_BIT_LENGTH);
  }

  lemma MarkerCompactFields(m: MarkerData)
    ensures var c := MarkerCompact(m);
            var timestamp := ToBits(m.srsTimestamp, SRS_TIMESTAMP_BIT_LENGTH);
            && c[..16] == Zeros(16)
            && c[16..26] == GetLowBits(timestamp, SRS_TIMESTAMP_LOW_BIT_LENGTH)
            && c[26..31] == ToBits(m.vmmId, OFFSET_BIT_LENGTH)
            && !c[31]
            && c[32..64] == GetHighBits(timestamp, SRS_TIMESTAMP_HIGH_BIT_LENGTH)
  {
  }

  lemma MarkerUnpacksPacked(m: MarkerData)
    requires MarkerFits(m)
    ensures IsMarker(MarkerCompact(m)[16..])
    ensures MarkerOf(MarkerCompact(m)[16..]) == m
  {
    var c := MarkerCompact(m);
    MarkerCompactFields(m);
    assert Expanded(c[16..]) == c;
    var timestamp := ToBits(m.srsTimestamp, SRS_TIMESTAMP_BIT_LENGTH);
    FieldOfNumber(c, 26, m.vmmId, 5);
    MergeUndoesSplit(timestamp, SRS_TIMESTAMP_LOW_BIT_LENGTH);
    NumberOfBits(m.srsTimestamp, SRS_TIMESTAMP_BIT_LENGTH);
  }

  lemma HitSlices(c: Bitset)
    requires |c| == 64 && c[..16] == Zeros(16)
    ensures c == Zeros(16) + c[16..24] + c[24..30] + [c[30]] + [c[31]] + c[32..44]
                 + c[44..54] + c[54..59] + c[59..64]
  {
    assert c == c[..59] + c[59..64];
    assert c[..59] == c[..54] + c[54..59];
    assert c[..54] == c[..44] + c[44..54];
    assert c[..44] == c[..32] + c[32..44];
    assert c[..32] == c[..30] + [c[30]] + [c[31]];
    assert c[..30] == Zeros(16) + c[16..24] + c[24..30];
  }

  /** Every flagged 48-bit word is the word of the hit read from it, whose fields all fit. */
  lemma HitPacksUnpacked(word: Word)
    requires IsHit(word)
    ensures HitFits(HitOf(word))
    ensures HitCompact(HitOf(word))[16..] == word
  {
    var c := Expanded(word);
    var h := HitOf(word);
    BitsOfNumber(c[16..24]);
    BitsOfNumber(c[24..30]);
    BitsOfNumber(c[44..54]);
    BitsOfNumber(c[54..59]);
    BitsOfNumber(c[59..64]);
    BcIdIsNarrow(word);
    GrayFieldIsNarrow(h.bcId);
    CodeOfDecoded(word[16..28]);
    assert c[32..44] == word[16..28];
    assert c[31];
    HitSlices(c);
    assert HitCompact(h) == c;
  }

  lemma MarkerSlices(c: Bitset)
    requires |c| == 64 && c[..16] == Zeros(16)
    ensures c == Zeros(16) + c[16..26] + c[26..31] + [c[31]] + c[32..64]
  {
    assert c == c[..32] + c[32..64];
    assert c[..32] == c[..31] + [c[31]];
    assert c[..31] == Zeros(16) + c[16..26] + c[26..31];
  }

  lemma MarkerPacksUnpacked(word: Word)
    requires IsMarker(word)
    ensures MarkerFits(MarkerOf(word))
    ensures MarkerCompact(MarkerOf(word))[16..] == word
  {
    var c := Expanded(word);
    var m := MarkerOf(word);
    var merged := MergeBits(c[32..64], c[16..26]);
    SplitUndoesMerge(c[32..64], c[16..26]);
    ToNatBound(merged);
    BitsOfNumber(merged);
    BitsOfNumber(c[26..31]);
    assert !c[31];
    MarkerSlices(c);
    assert MarkerCompact(m) == c;
  }
}
