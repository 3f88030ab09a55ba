/** Where the fields of a frame lie, in bytes and powers of two alone. */
module ByteLayout {
  import opened Bits
  import opened Common
  import opened Seqs
  import opened SrsData
  import opened FrameFormat
  import opened NumberLayout

  // ----- the header

  /** Where the header fields are read: counter, tag, front-end, timestamp and overflow, highest byte first. */
  lemma HeaderFields(d: seq<Byte>)
    requires |d| >= 16
    ensures var b: seq<int> := d;
            && HeaderOf(d).frameCounter == 0x100_0000 * b[0] + 0x1_0000 * b[1] + 0x100 * b[2] + b[3]
            && HeaderOf(d).vmmTag == [b[4], b[5], b[6]] && HeaderOf(d).fecId == b[7]
            && HeaderOf(d).udpTimestamp == 0x100_0000 * b[8] + 0x1_0000 * b[9] + 0x100 * b[10] + b[11]
            && HeaderOf(d).overflow == 0x100_0000 * b[12] + 0x1_0000 * b[13] + 0x100 * b[14] + b[15]
  {
  }

  /** Where they are written, in front of whatever follows. */
  lemma HeaderFieldsWritten(h: Header, rest: seq<Byte>)
    ensures var d: seq<int> := HeaderBytes(h) + rest;
            && 0x100_0000 * d[0] + 0x1_0000 * d[1] + 0x100 * d[2] + d[3] == h.frameCounter
            && [d[4], d[5], d[6]] == h.vmmTag && d[7] == h.fecId
            && 0x100_0000 * d[8] + 0x1_0000 * d[9] + 0x100 * d[10] + d[11] == h.udpTimestamp
            && 0x100_0000 * d[12] + 0x1_0000 * d[13] + 0x100 * d[14] + d[15] == h.overflow
  {
    HeaderRoundTrip(h, rest);
    HeaderFields(HeaderBytes(h) + rest);
  }

  /** The first sixteen bytes of a printed frame. */
  lemma PrintedHeaderFields(s: StructData)
    ensures var d: seq<int> := Printed(s);
            && |d| >= 16
            && 0x100_0000 * d[0] + 0x1_0000 * d[1] + 0x100 * d[2] + d[3] == s.header.frameCounter
            && [d[4], d[5], d[6]] == s.header.vmmTag && d[7] == s.header.fecId
            && 0x100_0000 * d[8] + 0x1_0000 * d[9] + 0x100 * d[10] + d[11] == s.header.udpTimestamp
            && 0x100_0000 * d[12] + 0x1_0000 * d[13] + 0x100 * d[14] + d[15] == s.header.overflow
  {
    HeaderFieldsWritten(s.header, Flatten(Map(HitElement, s.hits) + Map(MarkerElement, s.markers)));
  }

  // ----- hits and markers

  /** What a flagged element is read as: from the top, five bits of offset, five of the chip, ten of charge,
      twelve of coded crossing, the flag, the threshold bit, six bits of channel and eight of time. */
  lemma HitFields(c: Element, n: nat)
    requires var d: seq<int> := c;
             n == 0x100_0000_0000 * d[0] + 0x1_0000_0000 * d[1] + 0x100_0000 * d[2]
                  + 0x1_0000 * d[3] + 0x100 * d[4] + d[5]
    ensures var h := HitOf(WordOf(c));
            && h.offset == n / 0x800_0000_0000 % 32 && h.vmmId == n / 0x40_0000_0000 % 32
            && h.adc == n / 0x1000_0000 % 1024
            && h.isOverThreshold == (n / 0x4000 % 2 == 1)
            && h.channelNum == n / 0x100 % 64 && h.tdc == n % 256
            && (IsHit(WordOf(c)) <==> n / 0x8000 % 2 == 1)
  {
    WordValue(c);
    HighFields(WordOf(c), n);
    ChannelField(WordOf(c), n);
    TimeField(WordOf(c), n);
    FlagBits(WordOf(c), n);
  }

  /** The crossing number is the one whose code the element holds in its twelve bits. */
  lemma HitCrossing(c: Element, y: nat, i: nat)
    requires var d: seq<int> := c; y == 0x1_0000 * d[1] + 0x100 * d[2] + d[3]
    requires i < 12
    ensures var bcId := HitOf(WordOf(c)).bcId;
            && bcId < 4096
            && (y % 4096 / Pow2(i) % 2 == 1 <==> bcId / Pow2(i) % 2 != bcId / 2 / Pow2(i) % 2)
  {
    CrossingBits(WordOf(c), i);
    CodeInBytes(c, y);
  }

  /** What any other element is read as: from the top, the 32 high bits of the timestamp, a clear flag, five
      bits of the chip and the ten low bits of the timestamp. */
  lemma MarkerFields(c: Element, n: nat)
    requires var d: seq<int> := c;
             n == 0x100_0000_0000 * d[0] + 0x1_0000_0000 * d[1] + 0x100_0000 * d[2]
                  + 0x1_0000 * d[3] + 0x100 * d[4] + d[5]
    ensures var m := MarkerOf(WordOf(c));
            && m.vmmId == n / 0x400 % 32
            && m.srsTimestamp == 1024 * (n / 0x1_0000) + n % 1024
            && (IsMarker(WordOf(c)) <==> n / 0x8000 % 2 == 0)
  {
    WordValue(c);
    MarkerNumber(WordOf(c), n);
    FlagBits(WordOf(c), n);
  }

  // ----- which fields fit

  /** The widths of the fields: six bits of channel, twelve of crossing, ten of charge, five of chip and offset. */
  lemma HitWidths(h: HitData)
    ensures HitFits(h) <==> h.channelNum < 64 && h.bcId < 4096 && h.adc < 1024 && h.vmmId < 32 && h.offset < 32
  {
    SmallPowers();
  }

  lemma MarkerWidths(m: MarkerData)
    ensures MarkerFits(m) <==> m.vmmId < 32 && m.srsTimestamp < 0x400_0000_0000
  {
    SmallPowers();
  }

  // ----- elements that are written

  /** The six bytes of a hit that fits. */
  lemma HitWritten(h: HitData, n: nat)
    requires HitFits(h)
    requires var d: seq<int> := HitElement(h);
             n == 0x100_0000_0000 * d[0] + 0x1_0000_0000 * d[1] + 0x100_0000 * d[2]
                  + 0x1_0000 * d[3] + 0x100 * d[4] + d[5]
    ensures n / 0x800_0000_0000 % 32 == h.offset && n / 0x40_0000_0000 % 32 == h.vmmId
    ensures n / 0x1000_0000 % 1024 == h.adc && n / 0x8000 % 2 == 1
    ensures n / 0x4000 % 2 == if h.isOverThreshold then 1 else 0
    ensures n / 0x100 % 64 == h.channelNum && n % 256 == h.tdc
  {
    HitUnpacksPacked(h);
    WordOfWire(HitWord(h));
    HitFields(HitElement(h), n);
    BitIsZeroOrOne(n / 0x4000);
  }

  /** Its crossing number goes out as its code. */
  lemma HitCrossingWritten(h: HitData, y: nat, i: nat)
    requires HitFits(h) && i < 12
    requires var d: seq<int> := HitElement(h); y == 0x1_0000 * d[1] + 0x100 * d[2] + d[3]
    ensures y % 4096 / Pow2(i) % 2 == 1 <==> h.bcId / Pow2(i) % 2 != h.bcId / 2 / Pow2(i) % 2
  {
    HitUnpacksPacked(h);
    WordOfWire(HitWord(h));
    HitCrossing(HitElement(h), y, i);
  }

  /** The six bytes of a marker that fits. */
  lemma MarkerWritten(m: MarkerData, n: nat)
    requires MarkerFits(m)
    requires var d: seq<int> := MarkerElement(m);
             n == 0x100_0000_0000 * d[0] + 0x1_0000_0000 * d[1] + 0x100_0000 * d[2]
                  + 0x1_0000 * d[3] + 0x100 * d[4] + d[5]
    ensures n / 0x400 % 32 == m.vmmId && n / 0x8000 % 2 == 0
    ensures 1024 * (n / 0x1_0000) + n % 1024 == m.srsTimestamp
  {
    MarkerUnpacksPacked(m);
    WordOfWire(MarkerWord(m));
    MarkerFields(MarkerElement(m), n);
  }

  /** Where the elements lie in a printed frame: behind sixteen bytes, first the hits and then the markers. */
  lemma PrintedElements(s: StructData, k: nat)
    requires k < |s.hits| + |s.markers|
    ensures |Printed(s)| == 16 + 6 * (|s.hits| + |s.markers|)
    ensures Printed(s)[16 + 6 * k..22 + 6 * k]
         == if k < |s.hits| then HitElement(s.hits[k]) else MarkerElement(s.markers[k - |s.hits|])
  {
    BehindHeader(HeaderBytes(s.header), Map(HitElement, s.hits) + Map(MarkerElement, s.markers), k);
    MappedAt(HitElement, s.hits, MarkerElement, s.markers, k);
  }

  // ----- frames that are read

  /** The flag is the top bit of the fifth byte. */
  lemma FlagByte(c: Element)
    ensures IsHit(WordOf(c)) <==> c[4] >= 128
    ensures IsMarker(WordOf(c)) <==> c[4] < 128
  {
    BytesOfWord(c, 1);
    assert WordOf(c)[15] == WordOf(c)[8..16][7] == ToBits(c[4], 8)[7];
    TopBit(c[4]);
  }

  /** What a frame is read as: nothing below 22 bytes; otherwise its six-byte groups in order, those with the
      top bit of the fifth byte set as hits and the others as markers, and a trailing part is ignored. */
  lemma ParsedInBytes(d: seq<Byte>, cs: seq<Element>, high: Element -> bool, low: Element -> bool)
    requires |d| >= 16 ==> |cs| == (|d| - 16) / 6
    requires |d| >= 16 ==> forall i :: 0 <= i < |cs| ==> cs[i] == d[16 + 6 * i..22 + 6 * i]
    requires forall c :: (high(c) <==> c[4] >= 128) && (low(c) <==> c[4] < 128)
    ensures |d| <= 16 ==> Parsed(d) == Err("Deserialization: The size of the binary data is too small!")
    ensures 16 < |d| < 22 ==> Parsed(d) == Err("Deserialization: Cannot read the header correctly!")
    ensures |d| >= 22 ==> Parsed(d) == Ok(StructData(HeaderOf(d), Map(MarkerOf, Map(WordOf, Filter(low, cs))),
                                                     Map(HitOf, Map(WordOf, Filter(high, cs)))))
  {
    ParsedOk(d);
    if |d| >= 22 {
      GroupsAreElements(d, cs);
      forall i | 0 <= i < |cs|
        ensures (high(cs[i]) <==> Flagged(cs[i])) && (low(cs[i]) <==> Unflagged(cs[i]))
      {
        FlagByte(cs[i]);
      }
      FilterSame(high, Flagged, cs);
      FilterSame(low, Unflagged, cs);
      FilterMap(WordOf, IsHit, Flagged, cs);
      FilterMap(WordOf, IsMarker, Unflagged, cs);
    }
  }

}
