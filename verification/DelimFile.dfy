/** The length-prefixed raw file: converter, writer and reader. */
module DelimFile {
  import opened Bits
  import opened Common
  import opened Seqs

  type Bytes = seq<Byte>

  const SIZE_MODULUS := 0x1_0000_0000

  // ----- what is written

  /** The length that is written: 32 bits of it. */
  function Stated(size: nat): (r: U32)
    ensures r <= size && (size < SIZE_MODULUS ==> r == size)
  {
    size % SIZE_MODULUS
  }

  /** A frame with its length in front. */
  function Delimited(frame: Bytes): Bytes {
    ToBE32(Stated(|frame|)) + frame
  }

  function Content(frames: seq<Bytes>): Bytes {
    if frames == [] then [] else Delimited(frames[0]) + Content(frames[1..])
  }

  /** In bytes: the length modulo two to the 32, highest byte first, and the frame. */
  lemma DelimitedBytes(frame: Bytes)
    ensures var d: seq<int> := Delimited(frame);
            |d| == 4 + |frame| && 0x100_0000 * d[0] + 0x1_0000 * d[1] + 0x100 * d[2] + d[3] == |frame| % 0x1_0000_0000
    ensures Delimited(frame)[4..] == frame
  {
    BE32RoundTrip(Stated(|frame|));
  }

  /** A stream of delimited chunks is the content of a file of the frames. */
  lemma {:induction false} StreamOfFrames(frames: seq<Bytes>)
    ensures Concat(Map(Delimited, frames)) == Content(frames)
  {
    if frames == [] {
    } else {
      StreamOfFrames(frames[1..]);
      assert Map(Delimited, frames)[1..] == Map(Delimited, frames[1..]);
    }
  }

  class Raw2DelimRawConverter {
    var output: seq<Bytes>

    constructor (nLines: nat)
      ensures output == seq(nLines, l => [])
    {
      output := seq(nLines, l => []);
    }

    /** Appends to whatever the slot holds. */
    method Convert(input: Bytes, line: nat)
      requires line < |output|
      modifies this
      ensures output == old(output)[line := old(output)[line] + Delimited(input)]
    {
      var size := |input| % SIZE_MODULUS;
      assert output[line] + ToBE32(size) + input == output[line] + Delimited(input);
      output := output[line := output[line] + ToBE32(size) + input];
    }

    /** Clears the line's slot first, so the slot is the delimited frame alone. */
    method Run(input: Bytes, line: nat)
      requires line < |output|
      modifies this
      ensures output == old(output)[line := Delimited(input)]
    {
      output := output[line := []];
      Convert(input, line);
      assert [] + Delimited(input) == Delimited(input);
    }
  }

  class BinaryFile {
    var counts: seq<nat>
    var streams: seq<Bytes>
    ghost var chunks: seq<seq<Bytes>>

    ghost predicate Valid()
      reads this
    {
      && |counts| == |streams| == |chunks|
      && (forall l :: 0 <= l < |counts| ==> counts[l] == |streams[l]| && streams[l] == Concat(chunks[l]))
    }

    constructor (nLines: nat)
      ensures Valid() && |counts| == nLines && forall l :: 0 <= l < nLines ==> chunks[l] == []
    {
      counts := seq(nLines, l => 0);
      streams := seq(nLines, l => []);
      chunks := seq(nLines, l => []);
    }

    /** Appends to the line's stream; the running count stays the length of the stream. */
    method Run(input: Bytes, line: nat) returns (count: nat)
      requires Valid() && line < |counts|
      modifies this
      ensures Valid()
      ensures chunks == old(chunks)[line := old(chunks)[line] + [input]]
      ensures streams == old(streams)[line := old(streams)[line] + input]
      ensures count == counts[line] == |streams[line]|
    {
      counts := counts[line := counts[line] + |input|];
      streams := streams[line := streams[line] + input];
      ConcatAppend(chunks[line], input);
      chunks := chunks[line := chunks[line] + [input]];
      count := counts[line];
    }
  }

  // ----- what is read

  /** An input file stream: position and the two state bits that `read` consults and sets. */
  datatype Stream = Stream(file: Bytes, position: nat, eof: bool, fail: bool)

  predicate Good(st: Stream) {
    st.position <= |st.file| && !st.eof && !st.fail
  }

  /** `std::istream::read`: the new stream and the bytes that were extracted. */
  function Read(st: Stream, n: nat): (r: (Stream, Bytes))
    requires st.position <= |st.file|
    ensures r.0.position <= |r.0.file| && |r.1| <= n
  {
    if st.eof || st.fail then (st.(fail := true), [])
    else if st.position + n <= |st.file| then
      (st.(position := st.position + n), st.file[st.position..st.position + n])
    else (st.(position := |st.file|, eof := true, fail := true), st.file[st.position..])
  }

  /** `vector::resize(n, 0)` keeps the old front and zero-fills. */
  function Resized(buffer: Bytes, n: nat): (r: Bytes)
    ensures |r| == n
  {
    if n <= |buffer| then buffer[..n] else buffer + seq(n - |buffer|, i => 0)
  }

  datatype Reader = Reader(stream: Stream, buffer: Bytes)

  /** One call of `read_one_frame` on an open file: the new reader and the returned byte count. */
  function ReadFrame(r: Reader): (res: (Reader, nat))
    requires r.stream.position <= |r.stream.file|
    ensures res.0.stream.position <= |res.0.stream.file|
  {
    if r.stream.eof then (r, 0)
    else
      var (afterSize, prefix) := Read(r.stream, 4);
      var size := FromBE32(Resized(prefix, 4));
      var (afterData, got) := Read(afterSize, size);
      var resized := Resized(r.buffer, size);
      (Reader(afterData, got + resized[|got|..]), |got|)
  }

  class RawFrame {
    var isOpen: bool
    var stream: Stream
    var buffer: Bytes

    ghost predicate Valid()
      reads this
    {
      stream.position <= |stream.file|
    }

    ghost function View(): Reader
      reads this
    {
      Reader(stream, buffer)
    }

    constructor (file: Bytes)
      ensures Valid() && isOpen && View() == Opened(file)
    {
      isOpen, stream, buffer := true, Stream(file, 0, false, false), [];
    }

    method ReadOneFrame() returns (r: Result<nat>)
      requires Valid()
      modifies this`stream, this`buffer
      ensures Valid()
      ensures !isOpen ==> r.Err? && View() == old(View())
      ensures isOpen ==> r == Ok(ReadFrame(old(View())).1) && View() == ReadFrame(old(View())).0
    {
      if !isOpen {
        return Err("The input file is not open!");
      }
      if stream.eof {
        return Ok(0);
      }
      var prefix: Bytes;
      var (afterSize, sizeBytes) := Read(stream, 4);
      stream, prefix := afterSize, Resized(sizeBytes, 4);
      var size := FromBE32(prefix);
      buffer := Resized(buffer, size);
      var (afterData, got) := Read(stream, size);
      stream, buffer := afterData, got + buffer[|got|..];
      return Ok(|got|);
    }

    /** Back to the start of the file with the state bits cleared; the buffer is kept. */
    method Reset()
      requires Valid()
      modifies this`stream
      ensures Valid() && stream == Stream(old(stream.file), 0, false, false)
    {
      stream := Stream(stream.file, 0, false, false);
    }
  }

  function Opened(file: Bytes): (r: Reader)
    ensures r.stream.position <= |r.stream.file|
  {
    Reader(Stream(file, 0, false, false), [])
  }

  /** The reader after `n` calls. */
  function AfterReads(r: Reader, n: nat): (res: Reader)
    requires r.stream.position <= |r.stream.file|
    ensures res.stream.position <= |res.stream.file|
    decreases n
  {
    if n == 0 then r else AfterReads(ReadFrame(r).0, n - 1)
  }

  /** The byte count and the buffer that call number `n` delivers. */
  function Delivered(r: Reader, n: nat): (nat, Bytes)
    requires r.stream.position <= |r.stream.file|
  {
    var (after, count) := ReadFrame(AfterReads(r, n));
    (count, after.buffer)
  }

  lemma DeliveredLater(r: Reader, n: nat)
    requires r.stream.position <= |r.stream.file| && n > 0
    ensures Delivered(r, n) == Delivered(ReadFrame(r).0, n - 1)
  {
  }

  lemma DeliveredNow(r: Reader)
    requires r.stream.position <= |r.stream.file|
    ensures Delivered(r, 0) == (ReadFrame(r).1, ReadFrame(r).0.buffer)
  {
  }

  // ----- the round trip

  /** The reader stands at the start of the given frames. */
  predicate At(r: Reader, frames: seq<Bytes>) {
    Good(r.stream) && r.stream.file[r.stream.position..] == Content(frames)
  }

  /** The reader stands before the bytes `rest`. */
  predicate Before(st: Stream, rest: Bytes) {
    Good(st) && st.file[st.position..] == rest
  }

  lemma ReadEnough(st: Stream, rest: Bytes, n: nat)
    requires Before(st, rest) && n <= |rest|
    ensures Read(st, n).1 == rest[..n] && Before(Read(st, n).0, rest[n..])
  {
    var p := st.position;
    assert |st.file| == p + |rest|;
    assert st.file[p..p + n] == st.file[p..][..n];
    assert st.file[p + n..] == st.file[p..][n..];
  }

  lemma ReadTooLittle(st: Stream, rest: Bytes, n: nat)
    requires Before(st, rest) && n > |rest|
    ensures Read(st, n).1 == rest && Read(st, n).0.eof && Read(st, n).0.fail
  {
  }

  lemma WholePrefix(prefix: Bytes)
    requires |prefix| == 4
    ensures Resized(prefix, 4) == prefix
  {
  }

  /** A frame that is there completely. */
  lemma ReadWhole(r: Reader, rest: Bytes)
    requires Before(r.stream, rest) && |rest| >= 4 && |rest| - 4 >= FromBE32(rest[..4])
    ensures var size := FromBE32(rest[..4]);
            var (after, count) := ReadFrame(r);
            count == size && after.buffer == rest[4..][..size] && Before(after.stream, rest[4..][size..])
  {
    var size := FromBE32(rest[..4]);
    ReadEnough(r.stream, rest, 4);
    WholePrefix(rest[..4]);
    ReadEnough(Read(r.stream, 4).0, rest[4..], size);
    assert Resized(r.buffer, size)[size..] == [];
  }

  /** A read delivers the frame, except that only its length modulo two to the 32 is read. */
  lemma ReadOne(r: Reader, frames: seq<Bytes>)
    requires frames != [] && At(r, frames)
    ensures var (after, count) := ReadFrame(r);
            && count == Stated(|frames[0]|)
            && after.buffer == frames[0][..count]
            && (|frames[0]| < SIZE_MODULUS ==> At(after, frames[1..]))
  {
    var size := Stated(|frames[0]|);
    ContentStart(frames);
    BE32RoundTrip(size);
    ReadWhole(r, Content(frames));
    StartOfFrame(frames[0], Content(frames[1..]), size);
  }

  lemma StartOfFrame(frame: Bytes, others: Bytes, size: nat)
    requires size <= |frame|
    ensures (frame + others)[..size] == frame[..size]
    ensures size == |frame| ==> frame[..size] == frame && (frame + others)[size..] == others
  {
  }

  lemma ContentStart(frames: seq<Bytes>)
    requires frames != []
    ensures |Content(frames)| >= 4
    ensures Content(frames)[..4] == ToBE32(Stated(|frames[0]|))
    ensures Content(frames)[4..] == frames[0] + Content(frames[1..])
  {
    var size := ToBE32(Stated(|frames[0]|));
    assert Content(frames) == size + (frames[0] + Content(frames[1..]));
  }

  lemma {:induction false} ReadAfterEnd(r: Reader, n: nat)
    requires r.stream.position <= |r.stream.file| && r.stream.eof && r.buffer == []
    ensures Delivered(r, n) == (0, [])
    decreases n
  {
    if n == 0 {
    } else {
      ReadAfterEnd(r, n - 1);
    }
  }

  /** Past the last frame every read returns zero with an empty buffer. */
  lemma ReadAtEnd(r: Reader, n: nat)
    requires At(r, [])
    ensures Delivered(r, n) == (0, [])
  {
    assert |r.stream.file[r.stream.position..]| == 0;
    assert r.stream.position == |r.stream.file|;
    assert Read(r.stream, 4).1 == [];
    assert Resized([], 4) == [0, 0, 0, 0];
    if n > 0 {
      ReadAfterEnd(ReadFrame(r).0, n - 1);
    }
  }

  lemma WholeFrame(frame: Bytes)
    ensures frame[..|frame|] == frame
  {
  }

  /** Frames below 2^32 bytes come back one per read in order, and then only empty reads. */
  lemma {:induction false} FileRoundTrip(r: Reader, frames: seq<Bytes>, n: nat)
    requires At(r, frames)
    requires forall i :: 0 <= i < |frames| ==> |frames[i]| < SIZE_MODULUS
    ensures Delivered(r, n) == if n < |frames| then (|frames[n]|, frames[n]) else (0, [])
    decreases |frames|
  {
    if frames == [] {
      ReadAtEnd(r, n);
    } else {
      ReadOne(r, frames);
      WholeFrame(frames[0]);
      if n == 0 {
        DeliveredNow(r);
      } else {
        FileRoundTrip(ReadFrame(r).0, frames[1..], n - 1);
        DeliveredLater(r, n);
      }
    }
  }

  /** Every written frame is the one its read delivers. */
  predicate ReadsBack(frames: seq<Bytes>) {
    forall n :: 0 <= n < |frames| ==>
      Delivered(Opened(Content(frames)), n) == (|frames[n]|, frames[n])
  }

  lemma {:induction false} FirstLongFrame(r: Reader, frames: seq<Bytes>, n: nat)
    requires At(r, frames) && n < |frames|
    requires forall i :: 0 <= i < n ==> |frames[i]| < SIZE_MODULUS
    requires |frames[n]| >= SIZE_MODULUS
    ensures Delivered(r, n).1 != frames[n]
    decreases n
  {
    ReadOne(r, frames);
    if n == 0 {
    } else {
      FirstLongFrame(ReadFrame(r).0, frames[1..], n - 1);
    }
  }

  function FirstLong(frames: seq<Bytes>): (n: nat)
    requires exists i :: 0 <= i < |frames| && |frames[i]| >= SIZE_MODULUS
    ensures n < |frames| && |frames[n]| >= SIZE_MODULUS
    ensures forall i :: 0 <= i < n ==> |frames[i]| < SIZE_MODULUS
  {
    if |frames[0]| >= SIZE_MODULUS then 0
    else
      assert exists i :: 0 <= i < |frames[1..]| && |frames[1..][i]| >= SIZE_MODULUS by {
        var i :| 0 <= i < |frames| && |frames[i]| >= SIZE_MODULUS;
        assert frames[1..][i - 1] == frames[i];
      }
      1 + FirstLong(frames[1..])
  }

  /** A file gives all its frames back exactly when every frame is shorter than 2^32 bytes. */
  lemma ReadsBackExactly(frames: seq<Bytes>)
    ensures ReadsBack(frames) <==> forall i :: 0 <= i < |frames| ==> |frames[i]| < SIZE_MODULUS
  {
    var r := Opened(Content(frames));
    assert At(r, frames);
    if forall i :: 0 <= i < |frames| ==> |frames[i]| < SIZE_MODULUS {
      forall n | 0 <= n < |frames|
        ensures Delivered(r, n) == (|frames[n]|, frames[n])
      {
        FileRoundTrip(r, frames, n);
      }
    } else {
      var n := FirstLong(frames);
      FirstLongFrame(r, frames, n);
    }
  }

  /** A read of zero bytes means the end of the file exactly when no frame is empty. */
  lemma ZeroMeansEnd(frames: seq<Bytes>)
    requires forall i :: 0 <= i < |frames| ==> |frames[i]| < SIZE_MODULUS
    ensures (forall n: nat :: Delivered(Opened(Content(frames)), n).0 == 0 ==> n >= |frames|)
       <==> (forall i :: 0 <= i < |frames| ==> frames[i] != [])
  {
    var r := Opened(Content(frames));
    assert At(r, frames);
    forall n: nat
      ensures Delivered(r, n) == if n < |frames| then (|frames[n]|, frames[n]) else (0, [])
    {
      FileRoundTrip(r, frames, n);
    }
    if i :| 0 <= i < |frames| && frames[i] == [] {
      assert Delivered(r, i).0 == 0;
    }
  }

  // ----- a file that was cut

  /** The number of frames that lie completely in the first `m` bytes. */
  function Complete(frames: seq<Bytes>, m: nat): (k: nat)
    ensures k <= |frames|
  {
    if frames == [] || m < 4 + |frames[0]| then 0 else 1 + Complete(frames[1..], m - 4 - |frames[0]|)
  }

  /** The bytes of the first `m` that belong to no complete frame. */
  function Leftover(frames: seq<Bytes>, m: nat): nat {
    if frames == [] || m < 4 + |frames[0]| then m else Leftover(frames[1..], m - 4 - |frames[0]|)
  }

  /** The reader stands before the first `m` bytes of the frames, and nothing follows. */
  predicate AtCut(r: Reader, frames: seq<Bytes>, m: nat) {
    m <= |Content(frames)| && Before(r.stream, Content(frames)[..m])
  }

  lemma CutPrefix(content: Bytes, m: nat)
    requires 4 <= m <= |content|
    ensures content[..m][..4] == content[..4] && content[..m][4..] == content[4..][..m - 4]
  {
  }

  lemma CutStart(frames: seq<Bytes>, m: nat)
    requires frames != [] && 4 <= m <= |Content(frames)| && |frames[0]| < SIZE_MODULUS
    ensures FromBE32(Content(frames)[..m][..4]) == |frames[0]|
    ensures |Content(frames)| == 4 + |frames[0]| + |Content(frames[1..])|
    ensures Content(frames)[..m][4..] == (frames[0] + Content(frames[1..]))[..m - 4]
  {
    ContentStart(frames);
    BE32RoundTrip(|frames[0]|);
    CutPrefix(Content(frames), m);
  }

  lemma ReadComplete(r: Reader, frames: seq<Bytes>, m: nat)
    requires frames != [] && AtCut(r, frames, m) && 4 + |frames[0]| <= m && |frames[0]| < SIZE_MODULUS
    ensures var (after, count) := ReadFrame(r);
            count == |frames[0]| && after.buffer == frames[0] && AtCut(after, frames[1..], m - 4 - |frames[0]|)
  {
    CutStart(frames, m);
    ReadWhole(r, Content(frames)[..m]);
    CutOfFrame(frames[0], Content(frames[1..]), m - 4);
  }

  lemma CutOfFrame(frame: Bytes, others: Bytes, m: nat)
    requires m <= |frame| + |others|
    ensures |frame| <= m ==> (frame + others)[..m][..|frame|] == frame
                             && (frame + others)[..m][|frame|..] == others[..m - |frame|]
    ensures m < |frame| ==> (frame + others)[..m] == frame[..m]
  {
  }

  /** A frame of which only part of the payload is there. */
  lemma ReadPart(r: Reader, rest: Bytes)
    requires Before(r.stream, rest) && |rest| >= 4 && |rest| - 4 < FromBE32(rest[..4])
    ensures var (after, count) := ReadFrame(r);
            && after.stream.eof && count == |rest| - 4
            && |after.buffer| == FromBE32(rest[..4]) && after.buffer[..count] == rest[4..]
  {
    var size := FromBE32(rest[..4]);
    ReadEnough(r.stream, rest, 4);
    WholePrefix(rest[..4]);
    ReadTooLittle(Read(r.stream, 4).0, rest[4..], size);
  }

  /** Not even a length. */
  lemma ReadNoLength(r: Reader, rest: Bytes)
    requires Before(r.stream, rest) && |rest| < 4
    ensures var (after, count) := ReadFrame(r);
            after.stream.eof && count == 0 && (rest == [] ==> after.buffer == [])
  {
    ReadTooLittle(r.stream, rest, 4);
    if rest == [] {
      assert Resized([], 4) == [0, 0, 0, 0];
    }
  }

  /** The read at the cut ends the file: it delivers what is there of the payload, and nothing of a
      length that is cut itself. */
  lemma ReadCut(r: Reader, frames: seq<Bytes>, m: nat)
    requires AtCut(r, frames, m) && (frames == [] || (m < 4 + |frames[0]| && |frames[0]| < SIZE_MODULUS))
    ensures var (after, count) := ReadFrame(r);
            && after.stream.eof && count == (if m < 4 then 0 else m - 4)
            && (m == 0 ==> after.buffer == [])
            && (m >= 4 ==> |after.buffer| == |frames[0]| && after.buffer[..count] == frames[0][..count])
  {
    if m < 4 {
      ReadNoLength(r, Content(frames)[..m]);
    } else {
      CutStart(frames, m);
      ReadPart(r, Content(frames)[..m]);
      CutOfFrame(frames[0], Content(frames[1..]), m - 4);
    }
  }

  lemma {:induction false} StaysAtEnd(r: Reader, n: nat)
    requires r.stream.position <= |r.stream.file| && r.stream.eof
    ensures AfterReads(r, n) == r
    decreases n
  {
    if n == 0 {
    } else {
      StaysAtEnd(r, n - 1);
    }
  }

  /** What the read number `n` delivers of a file cut after `m` bytes: a complete frame; at the cut the part
      of the payload that is there, short of the frame; after that nothing, the buffer left as it is. */
  predicate CutDelivers(frames: seq<Bytes>, m: nat, n: nat, atCut: Bytes, got: (nat, Bytes)) {
    var k, left := Complete(frames, m), Leftover(frames, m);
    if n < k then got == (|frames[n]|, frames[n])
    else if n > k then got == (0, atCut)
    else
      && got == ((if left < 4 then 0 else left - 4), atCut)
      && (left == 0 ==> atCut == [])
      && (left >= 4 ==>
            k < |frames| && left - 4 < |atCut| == |frames[k]| && atCut[..left - 4] == frames[k][..left - 4])
  }

  lemma CutDeliversLater(frames: seq<Bytes>, m: nat, n: nat, atCut: Bytes, got: (nat, Bytes))
    requires frames != [] && 4 + |frames[0]| <= m && n > 0
    requires CutDelivers(frames[1..], m - 4 - |frames[0]|, n - 1, atCut, got)
    ensures CutDelivers(frames, m, n, atCut, got)
  {
  }

  lemma CutDeliversNow(frames: seq<Bytes>, m: nat, r: Reader)
    requires AtCut(r, frames, m) && (frames == [] || (m < 4 + |frames[0]| && |frames[0]| < SIZE_MODULUS))
    ensures CutDelivers(frames, m, 0, ReadFrame(r).0.buffer, (ReadFrame(r).1, ReadFrame(r).0.buffer))
    ensures ReadFrame(r).0.stream.eof
  {
    ReadCut(r, frames, m);
    assert frames == [] ==> Content(frames) == [];
  }

  lemma DeliveredAtEnd(r: Reader, n: nat)
    requires r.stream.position <= |r.stream.file| && ReadFrame(r).0.stream.eof && n > 0
    ensures Delivered(r, n) == (0, ReadFrame(r).0.buffer)
  {
    DeliveredLater(r, n);
    StaysAtEnd(ReadFrame(r).0, n - 1);
  }

  lemma CutNothingComplete(r: Reader, frames: seq<Bytes>, m: nat, n: nat)
    requires AtCut(r, frames, m) && (frames == [] || (m < 4 + |frames[0]| && |frames[0]| < SIZE_MODULUS))
    ensures CutDelivers(frames, m, n, ReadFrame(r).0.buffer, Delivered(r, n))
  {
    CutDeliversNow(frames, m, r);
    DeliveredNow(r);
    if n > 0 {
      DeliveredAtEnd(r, n);
    }
  }

  lemma CutFirstComplete(r: Reader, frames: seq<Bytes>, m: nat, n: nat, atCut: Bytes)
    requires frames != [] && AtCut(r, frames, m) && 4 + |frames[0]| <= m && |frames[0]| < SIZE_MODULUS
    requires n > 0 ==> CutDelivers(frames[1..], m - 4 - |frames[0]|, n - 1, atCut, Delivered(ReadFrame(r).0, n - 1))
    ensures CutDelivers(frames, m, n, atCut, Delivered(r, n))
  {
    ReadComplete(r, frames, m);
    DeliveredNow(r);
    if n > 0 {
      DeliveredLater(r, n);
      CutDeliversLater(frames, m, n, atCut, Delivered(r, n));
    }
  }

  lemma {:induction false} CutReader(r: Reader, frames: seq<Bytes>, m: nat) returns (atCut: Bytes)
    requires AtCut(r, frames, m)
    requires forall i :: 0 <= i < |frames| ==> |frames[i]| < SIZE_MODULUS
    ensures forall n: nat :: CutDelivers(frames, m, n, atCut, Delivered(r, n))
    decreases |frames|
  {
    if frames == [] || m < 4 + |frames[0]| {
      atCut := ReadFrame(r).0.buffer;
      forall n: nat
        ensures CutDelivers(frames, m, n, atCut, Delivered(r, n))
      {
        CutNothingComplete(r, frames, m, n);
      }
    } else {
      ReadComplete(r, frames, m);
      atCut := CutReader(ReadFrame(r).0, frames[1..], m - 4 - |frames[0]|);
      forall n: nat
        ensures CutDelivers(frames, m, n, atCut, Delivered(r, n))
      {
        CutFirstComplete(r, frames, m, n, atCut);
      }
    }
  }

  /** All reads of the file cut after `m` bytes. */
  ghost predicate CutReads(frames: seq<Bytes>, m: nat, atCut: Bytes)
    requires m <= |Content(frames)|
  {
    forall n: nat :: CutDelivers(frames, m, n, atCut, Delivered(Opened(Content(frames)[..m]), n))
  }

  /** For a file that was cut anywhere: the complete frames come back one per read in order, then one read
      is short, and every later read gives 0. */
  lemma CutFile(frames: seq<Bytes>, m: nat)
    requires m <= |Content(frames)| && forall i :: 0 <= i < |frames| ==> |frames[i]| < SIZE_MODULUS
    ensures exists atCut :: CutReads(frames, m, atCut)
  {
    var atCut := CutReader(Opened(Content(frames)[..m]), frames, m);
    assert CutReads(frames, m, atCut);
  }

  // ----- a read in bytes

  /** What a read delivers from the bytes that are left: four of them are the length `n`, highest byte first, then
      come `n` bytes, or fewer if the file ends before. */
  lemma ReadInBytes(r: Reader, rest: Bytes, n: nat)
    requires !r.stream.eof && !r.stream.fail
    requires r.stream.position <= |r.stream.file| && rest == r.stream.file[r.stream.position..]
    requires |rest| >= 4 && var b: seq<int> := rest; n == 0x100_0000 * b[0] + 0x1_0000 * b[1] + 0x100 * b[2] + b[3]
    ensures var (after, count) := ReadFrame(r);
            && after.stream.file == r.stream.file && |after.buffer| == n
            && (4 + n <= |rest| ==> count == n && after.buffer == rest[4..4 + n]
                                    && after.stream.position == r.stream.position + 4 + n
                                    && !after.stream.eof && !after.stream.fail)
            && (4 + n > |rest| ==> count == |rest| - 4 && after.buffer[..count] == rest[4..]
                                   && after.stream.position == |r.stream.file|
                                   && after.stream.eof && after.stream.fail)
  {
    LengthInBytes(rest, n);
    FileStays(r);
    if 4 + n <= |rest| {
      ReadWhole(r, rest);
      SliceAfterFour(rest, n);
      PositionAfter(r, n);
    } else {
      ReadPart(r, rest);
      PositionAfter(r, n);
    }
  }

  lemma LengthInBytes(rest: Bytes, n: nat)
    requires |rest| >= 4 && var b: seq<int> := rest; n == 0x100_0000 * b[0] + 0x1_0000 * b[1] + 0x100 * b[2] + b[3]
    ensures FromBE32(rest[..4]) == n
  {
  }

  lemma FileStays(r: Reader)
    requires r.stream.position <= |r.stream.file|
    ensures ReadFrame(r).0.stream.file == r.stream.file
  {
  }

  lemma SliceAfterFour(rest: Bytes, n: nat)
    requires 4 + n <= |rest|
    ensures rest[4..][..n] == rest[4..4 + n]
  {
  }

  lemma PositionAfter(r: Reader, n: nat)
    requires Good(r.stream) && r.stream.position + 4 <= |r.stream.file|
    requires FromBE32(r.stream.file[r.stream.position..][..4]) == n
    ensures var st, end := ReadFrame(r).0.stream, r.stream.position + 4 + n;
            if end <= |r.stream.file| then st.position == end && !st.eof && !st.fail
            else st.position == |r.stream.file| && st.eof && st.fail
  {
    var file, p := r.stream.file, r.stream.position;
    WholePrefix(file[p..p + 4]);
    assert file[p..p + 4] == file[p..][..4];
  }

  /** Fewer than four bytes, or a file that was read to its end, deliver nothing. */
  lemma NothingLeft(r: Reader)
    requires r.stream.position <= |r.stream.file|
    requires r.stream.eof || (|r.stream.file| - r.stream.position < 4 && !r.stream.fail)
    ensures ReadFrame(r).1 == 0 && ReadFrame(r).0.stream.eof
  {
    if !r.stream.eof {
      ReadNoLength(r, r.stream.file[r.stream.position..]);
    }
  }
}
