/** The deserializer task: one slot per pipeline line, reset and refilled for every frame. */
module StructDeserializer {
  import opened Bits
  import opened Common
  import opened Gray
  import opened Seqs
  import opened SrsData
  import opened FrameFormat
  import opened ByteLayout

  /** What a line's slot holds after a frame: the parsed struct, or an empty one for a rejected frame. */
  function Slot(data: seq<Byte>): StructData {
    match Parsed(data)
    case Ok(s) => s
    case Err(_) => EMPTY_STRUCT
  }

  /** What a conversion makes of a slot. */
  function Appended(slot: StructData, data: seq<Byte>): StructData {
    match Parsed(data)
    case Ok(s) => StructData(s.header, slot.markers + s.markers, slot.hits + s.hits)
    case Err(_) => slot
  }

  /** On a slot that was reset it is the parsed struct alone. */
  lemma AppendedToEmpty(data: seq<Byte>)
    ensures Appended(EMPTY_STRUCT, data) == Slot(data)
  {
    if Parsed(data).Ok? {
      var s := Parsed(data).value;
      assert [] + s.markers == s.markers && [] + s.hits == s.hits;
    }
  }

  method ArrayToHit(word: Word) returns (h: HitData)
    ensures h == HitOf(word)
  {
    SmallPowers();
    var c := Expanded(word);
    var bcId := GrayToBinary(Resize(c[32..44], 16));
    ToNatBound(bcId);
    h := HitData(c[30], Field(c, 24, 6), Field(c, 16, 8), Field(c, 59, 5), Field(c, 54, 5), Field(c, 44, 10),
                 ToNat(bcId));
  }

  /** Reverses the byte order of every word in place. */
  method ByteReverseDataSq(words: array<Word>)
    modifies words
    ensures forall i :: 0 <= i < words.Length ==> words[i] == ByteSwap(old(words[i]))
  {
    for i := 0 to words.Length
      invariant forall k :: 0 <= k < i ==> words[k] == ByteSwap(old(words[k]))
      invariant forall k :: i <= k < words.Length ==> words[k] == old(words[k])
    {
      words[i] := ByteSwap(words[i]);
    }
  }

  /** The 48-bit words of a frame body, read lowest byte first and then put into wire order. */
  method ReadElements(body: seq<Byte>) returns (words: array<Word>)
    ensures fresh(words) && words.Length == |body| / 6
    ensures words[..] == Map(WordOf, Elements(body))
  {
    words := new Word[|body| / 6](i => Zeros(HIT_DATA_BIT_LENGTH));
    for i := 0 to words.Length
      invariant forall k :: 0 <= k < i ==> words[k] == ReadBitset(body[6 * k..6 * k + 6])
    {
      words[i] := ReadBitset(body[6 * i..6 * i + 6]);
    }
    ByteReverseDataSq(words);
    WordsRead(body, words[..]);
  }

  class StructDeserializer {
    var output: seq<StructData>

    ghost predicate Valid(nLines: nat)
      reads this
    {
      |output| == nLines
    }

    constructor (nLines: nat)
      ensures Valid(nLines) && forall l :: 0 <= l < nLines ==> output[l] == EMPTY_STRUCT
    {
      output := seq(nLines, l => EMPTY_STRUCT);
    }

    method TranslateRawData(words: seq<Word>, line: nat)
      requires line < |output|
      modifies this
      ensures output == old(output)[line := StructData(
                old(output)[line].header,
                old(output)[line].markers + MarkersOf(words),
                old(output)[line].hits + HitsOf(words))]
    {
      ghost var start := output[line];
      assert start.markers + MarkersOf(words[..0]) == start.markers;
      assert start.hits + HitsOf(words[..0]) == start.hits;
      for i := 0 to |words|
        invariant |output| == |old(output)|
        invariant output == old(output)[line := StructData(
                    start.header, start.markers + MarkersOf(words[..i]), start.hits + HitsOf(words[..i]))]
      {
        var word := words[i];
        assert words[..i + 1] == words[..i] + [word];
        AppendWord(words[..i], word, start);
        if IsHit(word) {
          var hit := ArrayToHit(word);
          output := output[line := output[line].(hits := output[line].hits + [hit])];
        } else {
          output := output[line := output[line].(markers := output[line].markers + [MarkerOf(word)])];
        }
      }
      assert words[..|words|] == words;
    }

    /** Sets the header and appends hits and markers to whatever the slot holds; an error leaves the slot alone. */
    method Convert(data: seq<Byte>, line: nat) returns (r: Result<nat>)
      requires line < |output|
      modifies this
      ensures output == old(output)[line := Appended(old(output)[line], data)]
      ensures r.Ok? <==> Parsed(data).Ok?
      ensures r.Ok? ==> r.value == (|data| - HEADER_BYTES) / 6
      ensures r.Err? ==> r.error == Parsed(data).error && output == old(output)
      ensures r.Ok? ==> output[line].hits == old(output)[line].hits + Parsed(data).value.hits
      ensures r.Ok? ==> output[line].markers == old(output)[line].markers + Parsed(data).value.markers
      ensures r.Ok? ==> var h, b: seq<int> := output[line].header, data;
                            && h.frameCounter == 0x100_0000 * b[0] + 0x1_0000 * b[1] + 0x100 * b[2] + b[3]
                            && h.vmmTag == [b[4], b[5], b[6]] && h.fecId == b[7]
                            && h.udpTimestamp == 0x100_0000 * b[8] + 0x1_0000 * b[9] + 0x100 * b[10] + b[11]
                            && h.overflow == 0x100_0000 * b[12] + 0x1_0000 * b[13] + 0x100 * b[14] + b[15]
    {
      if |data| <= HEADER_BYTES {
        return Err(TOO_SMALL);
      }
      ElementsCount(data[HEADER_BYTES..]);
      if (|data| - HEADER_BYTES) / 6 == 0 {
        return Err(NO_ELEMENT);
      }
      var words := ReadElements(data[HEADER_BYTES..]);
      output := output[line := output[line].(header := HeaderOf(data))];
      HeaderFields(data);
      TranslateRawData(words[..], line);
      return Ok(words.Length);
    }

    /** Resets the line's slot, then converts: nothing of an earlier frame is left, even on an error. */
    method Run(data: seq<Byte>, line: nat) returns (r: Result<StructData>)
      requires line < |output|
      modifies this
      ensures output == old(output)[line := Slot(data)]
      ensures r == Parsed(data)
      ensures r.Ok? ==> var h, b: seq<int> := output[line].header, data;
                            && h.frameCounter == 0x100_0000 * b[0] + 0x1_0000 * b[1] + 0x100 * b[2] + b[3]
                            && h.vmmTag == [b[4], b[5], b[6]] && h.fecId == b[7]
                            && h.udpTimestamp == 0x100_0000 * b[8] + 0x1_0000 * b[9] + 0x100 * b[10] + b[11]
                            && h.overflow == 0x100_0000 * b[12] + 0x1_0000 * b[13] + 0x100 * b[14] + b[15]
    {
      output := output[line := EMPTY_STRUCT];
      AppendedToEmpty(data);
      var size := Convert(data, line);
      if size.Err? {
        return Err(size.error);
      }
      return Ok(output[line]);
    }
  }

  lemma AppendWord(words: seq<Word>, word: Word, start: StructData)
    ensures start.hits + HitsOf(words + [word])
         == if IsHit(word) then start.hits + HitsOf(words) + [HitOf(word)] else start.hits + HitsOf(words)
    ensures start.markers + MarkersOf(words + [word])
         == if IsHit(word) then start.markers + MarkersOf(words)
            else start.markers + MarkersOf(words) + [MarkerOf(word)]
  {
    assert (words + [word])[..|words + [word]| - 1] == words;
  }

  lemma WordsRead(body: seq<Byte>, words: seq<Word>)
    requires |words| == |body| / 6
    requires forall i :: 0 <= i < |words| ==> words[i] == ByteSwap(ReadBitset(body[6 * i..6 * i + 6]))
    ensures words == Map(WordOf, Elements(body))
  {
    ElementsCount(body);
    forall i | 0 <= i < |words|
      ensures words[i] == WordOf(Elements(body)[i])
    {
      ElementsAt(body, i);
    }
  }
}
