/** What a frame's bytes mean: printing, parsing and how the two invert each other. */
module FrameFormat {
  import opened Bits
  import opened Common
  import opened Seqs
  import opened SrsData

  type Element = c: seq<Byte> | |c| == ELEMENT_BYTES witness [0, 0, 0, 0, 0, 0]

  // ----- one element

  /** The bytes of a word on the wire: highest byte first. */
  function Wire(word: Word): Element {
    Reverse(WriteBitset(word))
  }

  /** The word of six received bytes, after the byte order of the bit set reader is undone. */
  function WordOf(c: Element): Word {
    ByteSwap(ReadBitset(c))
  }

  lemma WriteOfSwapped(b: Word)
    ensures WriteBitset(ByteSwap(b)) == Reverse(WriteBitset(b))
  {
    ByteSwapReversesBytes(b);
    forall k | 0 <= k < ELEMENT_BYTES
      ensures WriteBitset(ByteSwap(b))[k] == Reverse(WriteBitset(b))[k]
    {
      assert BytesOf(ByteSwap(b))[k] == BytesOf(b)[ELEMENT_BYTES - 1 - k];
    }
  }

  lemma WireOfWord(c: Element)
    ensures Wire(WordOf(c)) == c
  {
    WriteOfSwapped(ReadBitset(c));
    WriteUndoesRead(c);
  }

  lemma WordOfWire(word: Word)
    ensures WordOf(Wire(word)) == word
  {
    var c := Wire(word);
    WriteOfSwapped(ReadBitset(c));
    WriteUndoesRead(c);
    assert Reverse(c) == WriteBitset(word);
    ReadUndoesWrite(word);
    ReadUndoesWrite(WordOf(c));
  }

  // ----- lists of elements

  function Flatten(cs: seq<Element>): (r: seq<Byte>) {
    if cs == [] then [] else cs[0] + Flatten(cs[1..])
  }

  /** The whole elements of a frame body; a trailing part of an element is ignored. */
  function Elements(body: seq<Byte>): (r: seq<Element>) {
    if |body| < ELEMENT_BYTES then [] else [body[..ELEMENT_BYTES]] + Elements(body[ELEMENT_BYTES..])
  }

  lemma {:induction false} ElementsOfFlatten(cs: seq<Element>)
    ensures Elements(Flatten(cs)) == cs
  {
    if cs == [] {
    } else {
      ElementsOfFlatten(cs[1..]);
      assert Flatten(cs)[..ELEMENT_BYTES] == cs[0] && Flatten(cs)[ELEMENT_BYTES..] == Flatten(cs[1..]);
    }
  }

  lemma {:induction false} FlattenAppend(cs: seq<Element>, c: Element)
    ensures Flatten(cs + [c]) == Flatten(cs) + c
  {
    if cs == [] {
      assert cs + [c] == [c] && Flatten([]) == [] && c + [] == c;
    } else {
      FlattenAppend(cs[1..], c);
      assert (cs + [c])[1..] == cs[1..] + [c];
    }
  }

  lemma {:induction false} FlattenLength(cs: seq<Element>)
    ensures |Flatten(cs)| == 6 * |cs|
  {
    if cs == [] {
    } else {
      FlattenLength(cs[1..]);
    }
  }

  lemma {:induction false} ElementsCount(body: seq<Byte>)
    ensures |Elements(body)| == |body| / 6
  {
    if |body| < 6 {
    } else {
      ElementsCount(body[6..]);
    }
  }

  lemma SliceOfRest(body: seq<Byte>, skip: nat, low: nat, high: nat)
    requires skip + low <= skip + high <= |body|
    ensures body[skip..][low..high] == body[skip + low..skip + high]
  {
  }

  /** Where each element lies in the body. */
  lemma {:induction false} ElementsAt(body: seq<Byte>, i: nat)
    requires i < |body| / 6
    ensures i < |Elements(body)| && Elements(body)[i] == body[6 * i..6 * i + 6]
  {
    if i == 0 {
      ElementsCount(body);
    } else {
      var low := 6 * (i - 1);
      ElementsAt(body[6..], i - 1);
      SliceOfRest(body, 6, low, low + 6);
    }
  }

  // ----- printing and parsing

  function HitWord(h: HitData): Word {
    HitCompact(h)[16..]
  }

  function MarkerWord(m: MarkerData): Word {
    MarkerCompact(m)[16..]
  }

  function HitElement(h: HitData): Element {
    Wire(HitWord(h))
  }

  function MarkerElement(m: MarkerData): Element {
    Wire(MarkerWord(m))
  }

  /** A frame: the header, all hits, then all markers. */
  function Printed(s: StructData): seq<Byte> {
    HeaderBytes(s.header) + Flatten(Map(HitElement, s.hits) + Map(MarkerElement, s.markers))
  }

  function HitsOf(words: seq<Word>): seq<HitData> {
    Map(HitOf, Filter(IsHit, words))
  }

  function MarkersOf(words: seq<Word>): seq<MarkerData> {
    Map(MarkerOf, Filter(IsMarker, words))
  }

  const TOO_SMALL := "Deserialization: The size of the binary data is too small!"
  const NO_ELEMENT := "Deserialization: Cannot read the header correctly!"

  function Parsed(data: seq<Byte>): Result<StructData> {
    if |data| <= HEADER_BYTES then Err(TOO_SMALL)
    else
      var elements := Elements(data[HEADER_BYTES..]);
      if elements == [] then Err(NO_ELEMENT)
      else
        var words := Map(WordOf, elements);
        Ok(StructData(HeaderOf(data), MarkersOf(words), HitsOf(words)))
  }

  // ----- parsing undoes printing

  lemma WordsOfHits(hits: seq<HitData>)
    ensures Map(WordOf, Map(HitElement, hits)) == Map(HitWord, hits)
  {
    forall i | 0 <= i < |hits|
      ensures WordOf(HitElement(hits[i])) == HitWord(hits[i])
    {
      WordOfWire(HitWord(hits[i]));
    }
  }

  lemma WordsOfMarkers(markers: seq<MarkerData>)
    ensures Map(WordOf, Map(MarkerElement, markers)) == Map(MarkerWord, markers)
  {
    forall i | 0 <= i < |markers|
      ensures WordOf(MarkerElement(markers[i])) == MarkerWord(markers[i])
    {
      WordOfWire(MarkerWord(markers[i]));
    }
  }

  lemma ParsedHits(hits: seq<HitData>)
    requires forall i :: 0 <= i < |hits| ==> HitFits(hits[i])
    ensures var words := Map(HitWord, hits);
            Filter(IsHit, words) == words && Filter(IsMarker, words) == [] && Map(HitOf, words) == hits
  {
    var words := Map(HitWord, hits);
    forall i | 0 <= i < |hits|
      ensures IsHit(words[i]) && !IsMarker(words[i]) && HitOf(words[i]) == hits[i]
    {
      HitUnpacksPacked(hits[i]);
    }
    FilterAll(IsHit, words);
    FilterNone(IsMarker, words);
  }

  lemma ParsedMarkers(markers: seq<MarkerData>)
    requires forall i :: 0 <= i < |markers| ==> MarkerFits(markers[i])
    ensures var words := Map(MarkerWord, markers);
            Filter(IsMarker, words) == words && Filter(IsHit, words) == [] && Map(MarkerOf, words) == markers
  {
    var words := Map(MarkerWord, markers);
    forall i | 0 <= i < |markers|
      ensures IsMarker(words[i]) && !IsHit(words[i]) && MarkerOf(words[i]) == markers[i]
    {
      MarkerUnpacksPacked(markers[i]);
    }
    FilterAll(IsMarker, words);
    FilterNone(IsHit, words);
  }

  lemma ParsedBody(s: StructData)
    requires Representable(s)
    ensures var words := Map(WordOf, Map(HitElement, s.hits) + Map(MarkerElement, s.markers));
            HitsOf(words) == s.hits && MarkersOf(words) == s.markers
  {
    var hitPart, markerPart := Map(HitElement, s.hits), Map(MarkerElement, s.markers);
    var a, b := Map(HitWord, s.hits), Map(MarkerWord, s.markers);
    WordsOfHits(s.hits);
    WordsOfMarkers(s.markers);
    assert Map(WordOf, hitPart + markerPart) == Map(WordOf, hitPart) + Map(WordOf, markerPart) == a + b;
    FilterAppend(IsHit, a, b);
    FilterAppend(IsMarker, a, b);
    ParsedHits(s.hits);
    ParsedMarkers(s.markers);
    assert a + [] == a && [] + b == b;
  }

  /** A struct whose fields fit and that holds a hit or a marker is read back unchanged. */
  lemma ParseUndoesPrint(s: StructData)
    requires Representable(s)
    ensures Parsed(Printed(s)) == (if s.hits == [] && s.markers == [] then Err(TOO_SMALL) else Ok(s))
  {
    var hitPart, markerPart := Map(HitElement, s.hits), Map(MarkerElement, s.markers);
    HeaderRoundTrip(s.header, Flatten(hitPart + markerPart));
    assert Printed(s)[HEADER_BYTES..] == Flatten(hitPart + markerPart);
    ElementsOfFlatten(hitPart + markerPart);
    ParsedBody(s);
  }

  // ----- printing a parsed frame

  predicate Flagged(c: Element) {
    IsHit(WordOf(c))
  }

  predicate Unflagged(c: Element) {
    IsMarker(WordOf(c))
  }

  /** The flagged elements, then the others, each group in its order. */
  function HitsFirst(cs: seq<Element>): seq<Element> {
    Filter(Flagged, cs) + Filter(Unflagged, cs)
  }

  /** The normal form of a frame: header, flagged elements, other elements; no trailing part. */
  function NormalForm(data: seq<Byte>): (r: seq<Byte>)
    requires |data| >= HEADER_BYTES
    ensures |r| >= HEADER_BYTES
  {
    data[..HEADER_BYTES] + Flatten(HitsFirst(Elements(data[HEADER_BYTES..])))
  }

  lemma ElementsOfNormalForm(data: seq<Byte>)
    requires |data| >= HEADER_BYTES
    ensures NormalForm(data)[..HEADER_BYTES] == data[..HEADER_BYTES]
    ensures Elements(NormalForm(data)[HEADER_BYTES..]) == HitsFirst(Elements(data[HEADER_BYTES..]))
  {
    var sorted := HitsFirst(Elements(data[HEADER_BYTES..]));
    ElementsOfFlatten(sorted);
    assert NormalForm(data)[HEADER_BYTES..] == Flatten(sorted);
  }

  lemma FlaggedElementPrints(c: Element)
    requires Flagged(c)
    ensures HitElement(HitOf(WordOf(c))) == c && HitFits(HitOf(WordOf(c)))
  {
    HitPacksUnpacked(WordOf(c));
    WireOfWord(c);
  }

  lemma UnflaggedElementPrints(c: Element)
    requires Unflagged(c)
    ensures MarkerElement(MarkerOf(WordOf(c))) == c && MarkerFits(MarkerOf(WordOf(c)))
  {
    MarkerPacksUnpacked(WordOf(c));
    WireOfWord(c);
  }

  lemma MapBack<T, U, V>(f: T -> U, g: U -> V, h: V -> T, s: seq<T>)
    requires forall i :: 0 <= i < |s| ==> h(g(f(s[i]))) == s[i]
    ensures Map(h, Map(g, Map(f, s))) == s
  {
  }

  lemma PrintedHits(cs: seq<Element>)
    ensures var hits := HitsOf(Map(WordOf, cs));
            Map(HitElement, hits) == Filter(Flagged, cs) && forall i :: 0 <= i < |hits| ==> HitFits(hits[i])
  {
    var flagged := Filter(Flagged, cs);
    FilterMap(WordOf, IsHit, Flagged, cs);
    FilterKeeps(Flagged, cs);
    forall i | 0 <= i < |flagged|
      ensures HitElement(HitOf(WordOf(flagged[i]))) == flagged[i] && HitFits(HitOf(WordOf(flagged[i])))
    {
      FlaggedElementPrints(flagged[i]);
    }
    MapBack(WordOf, HitOf, HitElement, flagged);
  }

  lemma PrintedMarkers(cs: seq<Element>)
    ensures var markers := MarkersOf(Map(WordOf, cs));
            && Map(MarkerElement, markers) == Filter(Unflagged, cs)
            && forall i :: 0 <= i < |markers| ==> MarkerFits(markers[i])
  {
    var unflagged := Filter(Unflagged, cs);
    FilterMap(WordOf, IsMarker, Unflagged, cs);
    FilterKeeps(Unflagged, cs);
    forall i | 0 <= i < |unflagged|
      ensures MarkerElement(MarkerOf(WordOf(unflagged[i]))) == unflagged[i]
      ensures MarkerFits(MarkerOf(WordOf(unflagged[i])))
    {
      UnflaggedElementPrints(unflagged[i]);
    }
    MapBack(WordOf, MarkerOf, MarkerElement, unflagged);
  }

  lemma ParsedOk(data: seq<Byte>)
    ensures Parsed(data).Ok? <==> |data| >= HEADER_BYTES + ELEMENT_BYTES
  {
  }

  /** Every byte string of at least 22 bytes parses, always to fields that fit; printing gives its normal form. */
  lemma PrintOfParseIsNormalForm(data: seq<Byte>)
    ensures Parsed(data).Ok? <==> |data| >= HEADER_BYTES + ELEMENT_BYTES
    ensures Parsed(data).Ok? ==>
              && Representable(Parsed(data).value)
              && Printed(Parsed(data).value) == NormalForm(data)
  {
    if |data| >= HEADER_BYTES + ELEMENT_BYTES {
      var cs := Elements(data[HEADER_BYTES..]);
      HeaderOfBytes(data);
      PrintedHits(cs);
      PrintedMarkers(cs);
    }
  }

  lemma HitsFirstPermutes(cs: seq<Element>)
    ensures multiset(HitsFirst(cs)) == multiset(cs) && |HitsFirst(cs)| == |cs|
  {
    FilterSplits(Flagged, Unflagged, cs);
  }

  /** Nothing but a trailing part of an element is lost: the normal form permutes the elements. */
  lemma NormalFormKeepsElements(data: seq<Byte>)
    requires |data| >= HEADER_BYTES
    ensures multiset(Elements(NormalForm(data)[HEADER_BYTES..])) == multiset(Elements(data[HEADER_BYTES..]))
    ensures |NormalForm(data)| == HEADER_BYTES + 6 * ((|data| - HEADER_BYTES) / 6)
  {
    ElementsOfNormalForm(data);
    HitsFirstPermutes(Elements(data[HEADER_BYTES..]));
    NormalFormLength(data);
  }

  lemma NormalFormLength(data: seq<Byte>)
    requires |data| >= HEADER_BYTES
    ensures |NormalForm(data)| == HEADER_BYTES + 6 * ((|data| - HEADER_BYTES) / 6)
  {
    var body := data[HEADER_BYTES..];
    HitsFirstPermutes(Elements(body));
    FlattenLength(HitsFirst(Elements(body)));
    ElementsCount(body);
  }

  lemma HitsFirstIsSorted(cs: seq<Element>)
    ensures Filter(Flagged, HitsFirst(cs)) == Filter(Flagged, cs)
    ensures Filter(Unflagged, HitsFirst(cs)) == Filter(Unflagged, cs)
  {
    var a, b := Filter(Flagged, cs), Filter(Unflagged, cs);
    FilterKeeps(Flagged, cs);
    FilterKeeps(Unflagged, cs);
    FilterAppend(Flagged, a, b);
    FilterAppend(Unflagged, a, b);
    FilterAll(Flagged, a);
    FilterNone(Unflagged, a);
    FilterAll(Unflagged, b);
    FilterNone(Flagged, b);
  }

  /** Normalising a second time changes nothing. */
  lemma NormalFormIsStable(data: seq<Byte>)
    requires |data| >= HEADER_BYTES
    ensures NormalForm(NormalForm(data)) == NormalForm(data)
  {
    ElementsOfNormalForm(data);
    HitsFirstIsSorted(Elements(data[HEADER_BYTES..]));
  }

  lemma HitsFirstReadsTheSame(cs: seq<Element>)
    ensures HitsOf(Map(WordOf, HitsFirst(cs))) == HitsOf(Map(WordOf, cs))
    ensures MarkersOf(Map(WordOf, HitsFirst(cs))) == MarkersOf(Map(WordOf, cs))
  {
    HitsFirstIsSorted(cs);
    FilterMap(WordOf, IsHit, Flagged, cs);
    FilterMap(WordOf, IsMarker, Unflagged, cs);
    FilterMap(WordOf, IsHit, Flagged, HitsFirst(cs));
    FilterMap(WordOf, IsMarker, Unflagged, HitsFirst(cs));
  }

  /** A frame and its normal form parse to the same struct, or fail alike. */
  lemma NormalFormParsesTheSame(data: seq<Byte>)
    requires |data| >= HEADER_BYTES
    ensures Parsed(NormalForm(data)).Ok? <==> Parsed(data).Ok?
    ensures Parsed(data).Ok? ==> Parsed(NormalForm(data)) == Parsed(data)
  {
    var normal := NormalForm(data);
    NormalFormLength(data);
    ParsedOk(data);
    ParsedOk(normal);
    ElementsOfNormalForm(data);
    HitsFirstReadsTheSame(Elements(data[HEADER_BYTES..]));
    assert HeaderOf(normal) == HeaderOf(normal[..HEADER_BYTES]);
    assert HeaderOf(data) == HeaderOf(data[..HEADER_BYTES]);
  }
}
