/** The serializer task: checks every field, packs hits and markers and appends them to its output. */
module StructSerializer {
  import opened Bits
  import opened Common
  import opened Gray
  import opened Seqs
  import opened SrsData
  import opened FrameFormat
  import opened ByteLayout

  const SIZE_LIMIT := "Serialization: exceeding size limit!"

  /** From `i` on, the first hit with a field that does not fit. */
  function HitsEnd(hits: seq<HitData>, i: nat): (n: nat)
    requires i <= |hits|
    ensures i <= n <= |hits|
    decreases |hits| - i
  {
    if i < |hits| && HitFits(hits[i]) then HitsEnd(hits, i + 1) else i
  }

  function MarkersEnd(markers: seq<MarkerData>, i: nat): (n: nat)
    requires i <= |markers|
    ensures i <= n <= |markers|
    decreases |markers| - i
  {
    if i < |markers| && MarkerFits(markers[i]) then MarkersEnd(markers, i + 1) else i
  }

  /** What the first `n` elements become if each goes out with `before` in front of it and `after` behind it. */
  function Surrounded(before: seq<Byte>, after: seq<Byte>, cs: seq<Element>, n: nat): seq<Byte>
    requires n <= |cs|
  {
    if n == 0 then [] else Surrounded(before, after, cs, n - 1) + (before + cs[n - 1] + after)
  }

  /** What a conversion writes before it succeeds or stops at the first field that does not fit. With every hit
      the buffers of all lines go out, of which its own element is one. */
  function Written(s: StructData, before: seq<Byte>, after: seq<Byte>): seq<Byte> {
    var n := HitsEnd(s.hits, 0);
    HeaderBytes(s.header) + Surrounded(before, after, Map(HitElement, s.hits), n)
    + Surrounded([], [], Map(MarkerElement, s.markers), if n == |s.hits| then MarkersEnd(s.markers, 0) else 0)
  }

  /** What is in a line's buffer after `n` elements. */
  function Kept(buffer: seq<Byte>, cs: seq<Element>, n: nat): seq<Byte>
    requires n <= |cs|
  {
    if n == 0 then buffer else cs[n - 1]
  }

  /** What a successful conversion leaves in the line's own buffer. */
  function LastElement(s: StructData): seq<Byte> {
    Kept(Kept([], Map(HitElement, s.hits), |s.hits|), Map(MarkerElement, s.markers), |s.markers|)
  }

  lemma {:induction false} AllHitsFit(hits: seq<HitData>, i: nat)
    requires i <= |hits|
    ensures HitsEnd(hits, i) == |hits| <==> forall k :: i <= k < |hits| ==> HitFits(hits[k])
    decreases |hits| - i
  {
    if i == |hits| {
    } else {
      AllHitsFit(hits, i + 1);
    }
  }

  lemma {:induction false} AllMarkersFit(markers: seq<MarkerData>, i: nat)
    requires i <= |markers|
    ensures MarkersEnd(markers, i) == |markers| <==> forall k :: i <= k < |markers| ==> MarkerFits(markers[k])
    decreases |markers| - i
  {
    if i == |markers| {
    } else {
      AllMarkersFit(markers, i + 1);
    }
  }

  lemma FitsExactly(s: StructData)
    ensures Representable(s) <==> HitsEnd(s.hits, 0) == |s.hits| && MarkersEnd(s.markers, 0) == |s.markers|
  {
    AllHitsFit(s.hits, 0);
    AllMarkersFit(s.markers, 0);
  }

  lemma Regrouping(out: seq<Byte>, done: seq<Byte>, more: seq<Byte>)
    ensures out + (done + more) == (out + done) + more
  {
  }

  // ----- what is written and what should be

  lemma RestOfJoin(a: seq<Element>, b: seq<Element>)
    requires a != []
    ensures (a + b)[0] == a[0] && (a + b)[1..] == a[1..] + b
  {
  }

  lemma {:induction false} FlattenJoin(a: seq<Element>, b: seq<Element>)
    ensures Flatten(a + b) == Flatten(a) + Flatten(b)
  {
    if a == [] {
      assert a + b == b;
    } else {
      RestOfJoin(a, b);
      FlattenJoin(a[1..], b);
      Regrouping(a[0], Flatten(a[1..]), Flatten(b));
    }
  }

  lemma {:induction false} SurroundedByNothing(cs: seq<Element>, n: nat)
    requires n <= |cs|
    ensures Surrounded([], [], cs, n) == Flatten(cs[..n])
  {
    if n == 0 {
    } else {
      SurroundedByNothing(cs, n - 1);
      FlattenAppend(cs[..n - 1], cs[n - 1]);
      assert cs[..n] == cs[..n - 1] + [cs[n - 1]];
    }
  }

  lemma {:induction false} SurroundedIsLonger(before: seq<Byte>, after: seq<Byte>, cs: seq<Element>, n: nat)
    requires n <= |cs|
    ensures |Surrounded(before, after, cs, n)| >= 6 * n
    ensures |Surrounded(before, after, cs, n)| == 6 * n <==> n == 0 || (before == [] && after == [])
  {
    if n == 0 {
    } else {
      SurroundedIsLonger(before, after, cs, n - 1);
    }
  }

  lemma WholeSurroundedByNothing(cs: seq<Element>)
    ensures Surrounded([], [], cs, |cs|) == Flatten(cs)
  {
    SurroundedByNothing(cs, |cs|);
    assert cs[..|cs|] == cs;
  }

  lemma Parts(header: seq<Byte>, hits: seq<Element>, markers: seq<Element>)
    ensures header + Flatten(hits + markers)
         == header + Surrounded([], [], hits, |hits|) + Surrounded([], [], markers, |markers|)
  {
    WholeSurroundedByNothing(hits);
    WholeSurroundedByNothing(markers);
    FlattenJoin(hits, markers);
    Regrouping(header, Flatten(hits), Flatten(markers));
  }

  /** Whatever else is written, the header comes first. */
  lemma WrittenHeader(s: StructData, before: seq<Byte>, after: seq<Byte>)
    ensures var h, d: seq<int> := s.header, Written(s, before, after);
            && |d| >= 16
            && 0x100_0000 * d[0] + 0x1_0000 * d[1] + 0x100 * d[2] + d[3] == h.frameCounter
            && [d[4], d[5], d[6]] == h.vmmTag && d[7] == h.fecId
            && 0x100_0000 * d[8] + 0x1_0000 * d[9] + 0x100 * d[10] + d[11] == h.udpTimestamp
            && 0x100_0000 * d[12] + 0x1_0000 * d[13] + 0x100 * d[14] + d[15] == h.overflow
  {
    var n := HitsEnd(s.hits, 0);
    var hits := Surrounded(before, after, Map(HitElement, s.hits), n);
    var m := if n == |s.hits| then MarkersEnd(s.markers, 0) else 0;
    var markers := Surrounded([], [], Map(MarkerElement, s.markers), m);
    HeaderFieldsWritten(s.header, hits + markers);
    Regrouping(HeaderBytes(s.header), hits, markers);
  }

  /** The first `n` hits are those before the first one that does not fit. */
  lemma {:induction false} HitsEndAt(hits: seq<HitData>, i: nat, n: nat)
    requires i <= n <= |hits|
    requires (forall k :: i <= k < n ==> HitFits(hits[k])) && (n < |hits| ==> !HitFits(hits[n]))
    ensures HitsEnd(hits, i) == n
    decreases n - i
  {
    if i == n {
    } else {
      HitsEndAt(hits, i + 1, n);
    }
  }

  lemma {:induction false} MarkersEndAt(markers: seq<MarkerData>, i: nat, n: nat)
    requires i <= n <= |markers|
    requires (forall k :: i <= k < n ==> MarkerFits(markers[k])) && (n < |markers| ==> !MarkerFits(markers[n]))
    ensures MarkersEnd(markers, i) == n
    decreases n - i
  {
    if i == n {
    } else {
      MarkersEndAt(markers, i + 1, n);
    }
  }

  lemma MapOfFront<T, U>(f: T -> U, s: seq<T>, n: nat)
    requires n <= |s|
    ensures Map(f, s)[..n] == Map(f, s[..n])
  {
  }

  /** Where a field does not fit, a lone line has written what comes before it, and no marker unless all hits fit. */
  lemma WrittenBeforeError(s: StructData, h: nat, m: nat)
    requires h <= |s.hits| && m <= |s.markers|
    requires (forall k :: 0 <= k < h ==> HitFits(s.hits[k])) && (h < |s.hits| ==> !HitFits(s.hits[h]))
    requires (forall k :: 0 <= k < m ==> MarkerFits(s.markers[k])) && (m < |s.markers| ==> !MarkerFits(s.markers[m]))
    ensures Written(s, [], [])
         == Printed(StructData(s.header, if h == |s.hits| then s.markers[..m] else [], s.hits[..h]))
  {
    var n := if h == |s.hits| then m else 0;
    var hits, markers := Map(HitElement, s.hits[..h]), Map(MarkerElement, s.markers[..n]);
    HitsEndAt(s.hits, 0, h);
    MarkersEndAt(s.markers, 0, m);
    SurroundedByNothing(Map(HitElement, s.hits), h);
    SurroundedByNothing(Map(MarkerElement, s.markers), n);
    MapOfFront(HitElement, s.hits, h);
    MapOfFront(MarkerElement, s.markers, n);
    FlattenJoin(hits, markers);
    Regrouping(HeaderBytes(s.header), Flatten(hits), Flatten(markers));
  }

  /** What is written is the printed frame exactly if the frame has no hits or the other lines' buffers
      are empty. */
  lemma PrintsExactlyAlone(s: StructData, before: seq<Byte>, after: seq<Byte>)
    requires Representable(s)
    ensures Written(s, before, after) == Printed(s) <==> s.hits == [] || (before == [] && after == [])
  {
    var hits, markers := Map(HitElement, s.hits), Map(MarkerElement, s.markers);
    FitsExactly(s);
    Parts(HeaderBytes(s.header), hits, markers);
    SurroundedIsLonger(before, after, hits, |hits|);
    SurroundedIsLonger([], [], hits, |hits|);
  }

  /** Once one line has converted anything, a frame with hits that goes through another line comes out wrong. */
  lemma SecondLineIsWrong(first: StructData, second: StructData)
    requires Representable(second) && second.hits != []
    requires first.hits != [] || first.markers != []
    ensures Written(second, LastElement(first), []) != Printed(second)
  {
    PrintsExactlyAlone(second, LastElement(first), []);
  }

  // ----- the class

  method MarkerToCompact(m: MarkerData) returns (r: Result<Bitset>)
    ensures r == if MarkerFits(m) then Ok(MarkerCompact(m)) else Err(SIZE_LIMIT)
  {
    if !Fits(m.vmmId, VMM_ID_BIT_LENGTH) || !Fits(m.srsTimestamp, SRS_TIMESTAMP_BIT_LENGTH) {
      return Err(SIZE_LIMIT);
    }
    var timestamp := ToBits(m.srsTimestamp, SRS_TIMESTAMP_BIT_LENGTH);
    var low := GetLowBits(timestamp, SRS_TIMESTAMP_LOW_BIT_LENGTH);
    var high := GetHighBits(timestamp, SRS_TIMESTAMP_HIGH_BIT_LENGTH);
    return Ok(Zeros(16) + low + ToBits(m.vmmId, OFFSET_BIT_LENGTH) + [false] + high);
  }

  method HitToCompact(h: HitData) returns (r: Result<Bitset>)
    ensures r == if HitFits(h) then Ok(HitCompact(h)) else Err(SIZE_LIMIT)
  {
    if !Fits(h.channelNum, CHANNEL_NUM_BIT_LENGTH) || !Fits(h.bcId, BC_ID_BIT_LENGTH)
       || !Fits(h.adc, ADC_BIT_LENGTH) || !Fits(h.vmmId, VMM_ID_BIT_LENGTH)
       || !Fits(h.offset, OFFSET_BIT_LENGTH) {
      return Err(SIZE_LIMIT);
    }
    var vmmId, flag, adc := ToBits(h.vmmId, VMM_ID_BIT_LENGTH), true, ToBits(h.adc, ADC_BIT_LENGTH);
    var bcId := ToBits(h.bcId, BC_ID_BIT_LENGTH);
    bcId := Resize(BinaryToGray(Resize(bcId, 32)), BC_ID_BIT_LENGTH);
    var channelNum, isOverThreshold := ToBits(h.channelNum, CHANNEL_NUM_BIT_LENGTH), h.isOverThreshold;
    var offset, tdc := ToBits(h.offset, OFFSET_BIT_LENGTH), ToBits(h.tdc, TDC_BIT_LENGTH);
    return Ok(Zeros(16) + tdc + channelNum + [isOverThreshold] + [flag] + bcId + adc + vmmId + offset);
  }

  /** The two padding bytes lie first. */
  lemma WordAfterPadding(c: Bitset)
    requires |c| == 64
    ensures WriteBitset(c)[2..] == WriteBitset(c[16..])
  {
    forall k | 0 <= k < 6
      ensures WriteBitset(c)[2..][k] == WriteBitset(c[16..])[k]
    {
      assert c[16..][8 * k..8 * k + 8] == c[8 * (k + 2)..8 * (k + 2) + 8];
    }
  }

  // ----- the buffers of all lines

  /** The bytes of the lines before `line`, and of those after it. */
  function Before(compact: seq<seq<Byte>>, line: nat): seq<Byte>
    requires line < |compact|
  {
    Concat(compact[..line])
  }

  function After(compact: seq<seq<Byte>>, line: nat): seq<Byte>
    requires line < |compact|
  {
    Concat(compact[line + 1..])
  }

  /** At most the buffer of `line` differs. */
  predicate OnlyAt(buffers: seq<seq<Byte>>, buffers': seq<seq<Byte>>, line: nat) {
    |buffers'| == |buffers| && forall k :: 0 <= k < |buffers| && k != line ==> buffers'[k] == buffers[k]
  }

  lemma OthersStay(compact: seq<seq<Byte>>, compact': seq<seq<Byte>>, line: nat)
    requires OnlyAt(compact, compact', line) && line < |compact|
    ensures Before(compact', line) == Before(compact, line) && After(compact', line) == After(compact, line)
  {
    assert compact'[..line] == compact[..line];
    assert compact'[line + 1..] == compact[line + 1..];
  }

  class StructSerializer {
    var output: seq<seq<Byte>>
    var compact: seq<seq<Byte>>

    constructor (nLines: nat)
      ensures output == compact == seq(nLines, l => [])
    {
      output, compact := seq(nLines, l => []), seq(nLines, l => []);
    }

    /** Eight bytes, lowest first; the two padding bytes are erased and the rest reversed. */
    method CompactToVector(c: Bitset, line: nat)
      requires |c| == 64 && line < |compact|
      modifies this`compact
      ensures compact == old(compact)[line := Wire(c[16..])]
    {
      var buffer := WriteBitset(c);
      buffer := buffer[2..];
      WordAfterPadding(c);
      buffer := Reverse(buffer);
      compact := compact[line := buffer];
    }

    /** One hit: its element goes into the line's buffer, and the buffers of all lines go out. */
    method WriteHit(hit: HitData, line: nat, ghost before: seq<Byte>, ghost after: seq<Byte>, ghost c: Element)
      returns (ok: bool)
      requires line < |output| == |compact| && c == HitElement(hit)
      requires before == Before(compact, line) && after == After(compact, line)
      modifies this
      ensures ok <==> HitFits(hit)
      ensures OnlyAt(old(compact), compact, line) && OnlyAt(old(output), output, line)
      ensures ok ==> compact[line] == c
      ensures before == Before(compact, line) && after == After(compact, line)
      ensures output[line] == old(output)[line] + if ok then before + c + after else []
    {
      compact := compact[line := seq(|compact[line]|, k => 0)];
      var packed := HitToCompact(hit);
      if packed.Err? {
        OthersStay(old(compact), compact, line);
        return false;
      }
      CompactToVector(packed.value, line);
      OthersStay(old(compact), compact, line);
      ConcatAround(compact, line);
      output := output[line := output[line] + Concat(compact)];
      return true;
    }

    /** One marker: its element alone goes out. */
    method WriteMarker(marker: MarkerData, line: nat, ghost c: Element) returns (ok: bool)
      requires line < |output| == |compact| && c == MarkerElement(marker)
      modifies this
      ensures ok <==> MarkerFits(marker)
      ensures OnlyAt(old(compact), compact, line) && OnlyAt(old(output), output, line)
      ensures ok ==> compact[line] == c
      ensures output[line] == old(output)[line] + if ok then c else []
    {
      compact := compact[line := seq(|compact[line]|, k => 0)];
      var packed := MarkerToCompact(marker);
      if packed.Err? {
        return false;
      }
      CompactToVector(packed.value, line);
      output := output[line := output[line] + compact[line]];
      return true;
    }

    method WriteHits(hits: seq<HitData>, line: nat, ghost before: seq<Byte>, ghost after: seq<Byte>,
                     ghost cs: seq<Element>) returns (ok: bool)
      requires line < |output| == |compact| && cs == Map(HitElement, hits)
      requires before == Before(compact, line) && after == After(compact, line)
      modifies this
      ensures ok <==> HitsEnd(hits, 0) == |hits|
      ensures OnlyAt(old(compact), compact, line) && OnlyAt(old(output), output, line)
      ensures ok ==> compact[line] == Kept(old(compact)[line], cs, |cs|)
      ensures output[line] == old(output)[line] + Surrounded(before, after, cs, HitsEnd(hits, 0))
    {
      ghost var out := output[line];
      for i := 0 to |hits|
        invariant HitsEnd(hits, i) == HitsEnd(hits, 0)
        invariant OnlyAt(old(compact), compact, line) && OnlyAt(old(output), output, line)
        invariant before == Before(compact, line) && after == After(compact, line)
        invariant compact[line] == Kept(old(compact)[line], cs, i)
        invariant output[line] == out + Surrounded(before, after, cs, i)
      {
        ok := WriteHit(hits[i], line, before, after, cs[i]);
        if !ok {
          return;
        }
        Regrouping(out, Surrounded(before, after, cs, i), before + cs[i] + after);
      }
      return true;
    }

    method WriteMarkers(markers: seq<MarkerData>, line: nat, ghost cs: seq<Element>) returns (ok: bool)
      requires line < |output| == |compact| && cs == Map(MarkerElement, markers)
      modifies this
      ensures ok <==> MarkersEnd(markers, 0) == |markers|
      ensures OnlyAt(old(compact), compact, line) && OnlyAt(old(output), output, line)
      ensures ok ==> compact[line] == Kept(old(compact)[line], cs, |cs|)
      ensures output[line] == old(output)[line] + Surrounded([], [], cs, MarkersEnd(markers, 0))
    {
      ghost var out := output[line];
      for i := 0 to |markers|
        invariant MarkersEnd(markers, i) == MarkersEnd(markers, 0)
        invariant OnlyAt(old(compact), compact, line) && OnlyAt(old(output), output, line)
        invariant compact[line] == Kept(old(compact)[line], cs, i)
        invariant output[line] == out + Surrounded([], [], cs, i)
      {
        ok := WriteMarker(markers[i], line, cs[i]);
        if !ok {
          return;
        }
        Regrouping(out, Surrounded([], [], cs, i), [] + cs[i] + []);
      }
      return true;
    }

    /** Succeeds exactly when every field fits. The output never keeps bytes of an earlier frame of its line, but
        with every hit it gets what the conversions on other lines left behind. */
    method Convert(input: StructData, line: nat) returns (r: Result<nat>)
      requires line < |output| == |compact|
      modifies this
      ensures r == if Representable(input) then Ok(|input.markers| + |input.hits|) else Err(SIZE_LIMIT)
      ensures r.Err? ==> r.error == "Serialization: exceeding size limit!"
      ensures OnlyAt(old(compact), compact, line) && OnlyAt(old(output), output, line)
      ensures output[line] == Written(input, Before(old(compact), line), After(old(compact), line))
      ensures r.Ok? ==> compact[line] == LastElement(input)
      ensures |output[line]| >= 16
      ensures var h, d: seq<int> := input.header, output[line];
              && 0x100_0000 * d[0] + 0x1_0000 * d[1] + 0x100 * d[2] + d[3] == h.frameCounter
              && [d[4], d[5], d[6]] == h.vmmTag && d[7] == h.fecId
              && 0x100_0000 * d[8] + 0x1_0000 * d[9] + 0x100 * d[10] + d[11] == h.udpTimestamp
              && 0x100_0000 * d[12] + 0x1_0000 * d[13] + 0x100 * d[14] + d[15] == h.overflow
    {
      WrittenHeader(input, Before(compact, line), After(compact, line));
      compact := compact[line := []];
      output := output[line := HeaderBytes(input.header)];
      OthersStay(old(compact), compact, line);
      FitsExactly(input);
      var ok := WriteHits(input.hits, line, Before(compact, line), After(compact, line), Map(HitElement, input.hits));
      if !ok {
        return Err(SIZE_LIMIT);
      }
      ok := WriteMarkers(input.markers, line, Map(MarkerElement, input.markers));
      if !ok {
        return Err(SIZE_LIMIT);
      }
      return Ok(|input.markers| + |input.hits|);
    }
  }
}
