/** The switch commands and their answers as bytes. */
module FecMessages {
  import opened Bits
  import opened Common

  type Bytes = seq<Byte>

  datatype Kind = AcqOn | AcqOff

  const INIT_COUNT_VALUE: U32 := 0x8000_0000
  const NULL_ADDRESS: U16 := 0x000f
  const SMALL_READ_MSG_BUFFER_SIZE := 96

  function ToBE16(n: U16): (r: Bytes)
    ensures |r| == 2
  {
    [n / 0x100, n % 0x100]
  }

  lemma BE16RoundTrip(n: U16, m: U16)
    requires ToBE16(n) == ToBE16(m)
    ensures n == m
  {
    assert ToBE16(n)[0] == n / 0x100 && ToBE16(n)[1] == n % 0x100;
    assert ToBE16(m)[0] == m / 0x100 && ToBE16(m)[1] == m % 0x100;
  }

  function Entries(data: seq<U32>): (r: Bytes)
    ensures |r| == 4 * |data|
  {
    if data == [] then [] else Entries(data[..|data| - 1]) + ToBE32(data[|data| - 1])
  }

  /** Counter, padding, address, command and type bits, length bits. */
  function Preamble(counter: U32, address: U16): (r: Bytes)
    ensures |r| == 12
  {
    ToBE32(counter) + [0, 0] + ToBE16(address) + [0xaa, 0xaa, 0xff, 0xff]
  }

  /** `encode_write_msg` into an empty buffer. */
  function Encoded(counter: U32, data: seq<U32>, address: U16): Bytes {
    Preamble(counter, address) + Entries(data)
  }

  /** A growing message: every `Serialize` appends. */
  class SerializableMsgBuffer {
    var data: Bytes

    constructor ()
      ensures data == []
    {
      data := [];
    }

    method Serialize(bytes: Bytes)
      modifies this
      ensures data == old(data) + bytes
    {
      data := data + bytes;
    }

    method EncodeWriteMsg(counter: U32, entries: seq<U32>, address: U16)
      modifies this
      ensures data == old(data) + Encoded(counter, entries, address)
    {
      ghost var before := data;
      Serialize(ToBE32(counter) + [0, 0] + ToBE16(address) + [0xaa, 0xaa, 0xff, 0xff]);
      for n := 0 to |entries|
        invariant data == before + (Preamble(counter, address) + Entries(entries[..n]))
      {
        assert entries[..n + 1][..n] == entries[..n];
        Serialize(ToBE32(entries[n]));
      }
      assert entries[..|entries|] == entries;
    }
  }

  // ----- an encoded message can be read back

  function DecodedEntries(bytes: Bytes): (r: seq<U32>)
    requires |bytes| % 4 == 0
  {
    if bytes == [] then [] else DecodedEntries(bytes[..|bytes| - 4]) + [FromBE32(bytes[|bytes| - 4..])]
  }

  lemma {:induction false} EntriesRoundTrip(data: seq<U32>)
    ensures DecodedEntries(Entries(data)) == data
  {
    if data == [] {
    } else {
      var front, last := data[..|data| - 1], data[|data| - 1];
      EntriesRoundTrip(front);
      BE32RoundTrip(last);
      var bytes := Entries(data);
      assert bytes[..|bytes| - 4] == Entries(front) && bytes[|bytes| - 4..] == ToBE32(last);
    }
  }

  /** Where counter, address and entries are in an encoded message. */
  lemma EncodedParts(c: U32, data: seq<U32>, a: U16)
    ensures var m := Encoded(c, data, a);
            m[..4] == ToBE32(c) && m[6..8] == ToBE16(a) && m[12..] == Entries(data)
  {
  }

  /** Counter, data and address can all be read off an encoded message. */
  lemma EncodedIsInjective(c: U32, data: seq<U32>, a: U16, c': U32, data': seq<U32>, a': U16)
    requires Encoded(c, data, a) == Encoded(c', data', a')
    ensures c == c' && data == data' && a == a'
  {
    EncodedParts(c, data, a);
    EncodedParts(c', data', a');
    EntriesRoundTrip(data);
    EntriesRoundTrip(data');
    BE32RoundTrip(c);
    BE32RoundTrip(c');
    BE16RoundTrip(a, a');
  }

  // ----- commands and answers

  function SendSuffix(kind: Kind): seq<U32> {
    [0, 15, if kind.AcqOn? then 1 else 0]
  }

  function ResponseData(kind: Kind): seq<U32> {
    [0, 0, if kind.AcqOn? then 1 else 0]
  }

  function Request(kind: Kind): Bytes {
    Encoded(INIT_COUNT_VALUE, SendSuffix(kind), NULL_ADDRESS)
  }

  function Response(kind: Kind): Bytes {
    Encoded(0, ResponseData(kind), NULL_ADDRESS)
  }

  /** An answer tells the kind of its request, and is neither empty nor a request. */
  lemma ResponsesTellTheKind(k: Kind, k': Kind)
    ensures Response(k) == Response(k') <==> k == k'
    ensures Response(k) != [] && Response(k) != Request(k')
  {
    if Response(k) == Response(k') {
      EncodedIsInjective(0, ResponseData(k), NULL_ADDRESS, 0, ResponseData(k'), NULL_ADDRESS);
      assert ResponseData(k)[2] == ResponseData(k')[2];
    }
    if Response(k) == Request(k') {
      EncodedIsInjective(0, ResponseData(k), NULL_ADDRESS, INIT_COUNT_VALUE, SendSuffix(k'), NULL_ADDRESS);
    }
  }

  lemma ThreeEntries(a: U32, b: U32, c: U32)
    ensures Entries([a, b, c]) == ToBE32(a) + ToBE32(b) + ToBE32(c)
  {
    assert [a, b, c][..2] == [a, b] && [a, b][..1] == [a] && [a][..0] == [];
    assert Entries([a]) == Entries([]) + ToBE32(a) == ToBE32(a);
    assert Entries([a, b]) == Entries([a]) + ToBE32(b);
  }

  /** The 24 bytes of a command on the wire. */
  lemma RequestBytes(kind: Kind)
    ensures Request(kind) == [0x80, 0, 0, 0] + [0, 0, 0, 0x0f] + [0xaa, 0xaa, 0xff, 0xff]
                             + [0, 0, 0, 0] + [0, 0, 0, 15] + [0, 0, 0, if kind.AcqOn? then 1 else 0]
  {
    var last: U32 := if kind.AcqOn? then 1 else 0;
    ThreeEntries(0, 15, last);
    assert ToBE32(INIT_COUNT_VALUE) == [0x80, 0, 0, 0] && ToBE16(NULL_ADDRESS) == [0, 0x0f];
    assert [0, 0] + ToBE16(NULL_ADDRESS) == [0, 0, 0, 0x0f];
    assert ToBE32(0) == [0, 0, 0, 0] && ToBE32(15) == [0, 0, 0, 15] && ToBE32(last) == [0, 0, 0, last];
  }

  lemma AnswerBytes(last: U32)
    requires last < 0x100
    ensures Encoded(0, [0, 0, last], NULL_ADDRESS)
         == [0, 0, 0, 0, 0, 0, 0, 15, 0xaa, 0xaa, 0xff, 0xff, 0, 0, 0, 0, 0, 0, 0, 0, 0, 0, 0, last]
  {
    ThreeEntries(0, 0, last);
    assert ToBE32(0) == [0, 0, 0, 0] && ToBE32(last) == [0, 0, 0, last] && ToBE16(NULL_ADDRESS) == [0, 15];
  }

  /** The 24 bytes of an answer on the wire. */
  lemma ResponseBytes()
    ensures Response(AcqOn)
         == [0, 0, 0, 0, 0, 0, 0, 15, 0xaa, 0xaa, 0xff, 0xff, 0, 0, 0, 0, 0, 0, 0, 0, 0, 0, 0, 1]
    ensures Response(AcqOff)
         == [0, 0, 0, 0, 0, 0, 0, 15, 0xaa, 0xaa, 0xff, 0xff, 0, 0, 0, 0, 0, 0, 0, 0, 0, 0, 0, 0]
  {
    AnswerBytes(1);
    AnswerBytes(0);
  }

  lemma {:induction false} EntriesAt(data: seq<U32>, i: nat)
    requires i < |data|
    ensures Entries(data)[4 * i..4 * i + 4] == ToBE32(data[i])
  {
    var n := |data| - 1;
    var front := Entries(data[..n]);
    if i < n {
      EntriesAt(data[..n], i);
      assert Entries(data)[4 * i..4 * i + 4] == front[4 * i..4 * i + 4];
    } else {
      assert |front| == 4 * n;
    }
  }

  lemma WordInBytes(n: U32)
    ensures var b: seq<int> := ToBE32(n); 0x100_0000 * b[0] + 0x1_0000 * b[1] + 0x100 * b[2] + b[3] == n
  {
    BE32RoundTrip(n);
  }

  /** Where everything lies in an encoded message: the counter, two bytes of padding, the address, the command,
      type and length bits, and the entries, each highest byte first. */
  lemma EncodedPreamble(counter: U32, data: seq<U32>, address: U16)
    ensures var m: seq<int> := Encoded(counter, data, address);
            && |m| == 12 + 4 * |data|
            && 0x100_0000 * m[0] + 0x1_0000 * m[1] + 0x100 * m[2] + m[3] == counter
            && m[4] == 0 && m[5] == 0 && 0x100 * m[6] + m[7] == address
            && m[8] == 0xaa && m[9] == 0xaa && m[10] == 0xff && m[11] == 0xff
  {
    WordInBytes(counter);
  }

  lemma EncodedEntry(counter: U32, data: seq<U32>, address: U16, i: nat)
    requires i < |data|
    ensures var m: seq<int> := Encoded(counter, data, address);
            && 16 + 4 * i <= |m|
            && 0x100_0000 * m[12 + 4 * i] + 0x1_0000 * m[13 + 4 * i] + 0x100 * m[14 + 4 * i] + m[15 + 4 * i] == data[i]
  {
    var m, bytes := Encoded(counter, data, address), Entries(data);
    EntriesAt(data, i);
    WordInBytes(data[i]);
    forall k | 0 <= k < 4
      ensures m[12 + 4 * i + k] == ToBE32(data[i])[k]
    {
      assert bytes[4 * i..4 * i + 4][k] == bytes[4 * i + k];
    }
  }

  // ----- classification by suffix

  predicate EndsWith(msg: Bytes, suffix: Bytes) {
    |suffix| <= |msg| && msg[|msg| - |suffix|..] == suffix
  }

  /** `check_receive_msg_type`; the map of suffixes is ordered, so the one for off comes first. */
  function Classify(msg: Bytes): Option<Kind> {
    if EndsWith(msg, Entries(SendSuffix(AcqOff))) then Some(AcqOff)
    else if EndsWith(msg, Entries(SendSuffix(AcqOn))) then Some(AcqOn)
    else None
  }

  lemma SuffixBytes()
    ensures Entries(SendSuffix(AcqOn)) == [0, 0, 0, 0, 0, 0, 0, 15, 0, 0, 0, 1]
    ensures Entries(SendSuffix(AcqOff)) == [0, 0, 0, 0, 0, 0, 0, 15, 0, 0, 0, 0]
  {
    ThreeEntries(0, 15, 1);
    ThreeEntries(0, 15, 0);
    assert ToBE32(0) == [0, 0, 0, 0] && ToBE32(15) == [0, 0, 0, 15] && ToBE32(1) == [0, 0, 0, 1];
  }

  /** Any message whatever is taken for a command by its last twelve bytes. */
  lemma ClassifiedByLastBytes(msg: Bytes)
    ensures Classify(msg) == Some(AcqOn)
       <==> |msg| >= 12 && msg[|msg| - 12..] == [0, 0, 0, 0, 0, 0, 0, 15, 0, 0, 0, 1]
    ensures Classify(msg) == Some(AcqOff)
       <==> |msg| >= 12 && msg[|msg| - 12..] == [0, 0, 0, 0, 0, 0, 0, 15, 0, 0, 0, 0]
  {
    SuffixBytes();
    var on, off: Bytes := [0, 0, 0, 0, 0, 0, 0, 15, 0, 0, 0, 1], [0, 0, 0, 0, 0, 0, 0, 15, 0, 0, 0, 0];
    assert on[11] != off[11];
  }

  /** What the emulator answers; an unrecognised message gets an empty answer. */
  function Answer(kind: Option<Kind>): Bytes {
    match kind
    case Some(k) => Response(k)
    case None => []
  }

  lemma {:induction false} EntriesConcat(a: seq<U32>, b: seq<U32>)
    ensures Entries(a + b) == Entries(a) + Entries(b)
  {
    if b == [] {
      assert a + b == a;
    } else {
      var front := b[..|b| - 1];
      EntriesConcat(a, front);
      assert (a + b)[..|a + b| - 1] == a + front;
    }
  }

  lemma EntriesInjective(a: seq<U32>, b: seq<U32>)
    requires Entries(a) == Entries(b)
    ensures a == b
  {
    EntriesRoundTrip(a);
    EntriesRoundTrip(b);
  }

  /** No byte of a suffix has the value of the command bits. */
  lemma {:induction false} SmallEntries(data: seq<U32>)
    requires forall i :: 0 <= i < |data| ==> data[i] < 0xaa
    ensures forall i :: 0 <= i < |Entries(data)| ==> Entries(data)[i] != 0xaa
  {
    if data == [] {
    } else {
      SmallEntries(data[..|data| - 1]);
      SmallWord(data[|data| - 1]);
    }
  }

  lemma SmallWord(n: U32)
    requires n < 0xaa
    ensures forall i :: 0 <= i < 4 ==> ToBE32(n)[i] != 0xaa
  {
    assert ToBE32(n) == [0, 0, 0, n];
  }

  /** The words that the last twelve bytes of a preamble would have to spell are none of a suffix. */
  lemma ShortDataIsNoSuffix(counter: U32, data: seq<U32>, address: U16, kind: Kind)
    requires |data| < 3
    ensures !EndsWith(Encoded(counter, data, address), Entries(SendSuffix(kind)))
  {
    var msg := Encoded(counter, data, address);
    SmallEntries(SendSuffix(kind));
    assert msg[8] == 0xaa;
    var tail := msg[|msg| - 12..];
    var i := 8 - 4 * |data|;
    assert tail[i] == msg[8];
  }

  lemma LongDataHasSuffix(counter: U32, data: seq<U32>, address: U16, kind: Kind)
    requires |data| >= 3
    ensures EndsWith(Encoded(counter, data, address), Entries(SendSuffix(kind)))
       <==> data[|data| - 3..] == SendSuffix(kind)
  {
    var front, tail := data[..|data| - 3], data[|data| - 3..];
    var msg := Encoded(counter, data, address);
    EntriesConcat(front, tail);
    assert front + tail == data;
    assert msg == (Preamble(counter, address) + Entries(front)) + Entries(tail);
    assert msg[|msg| - 12..] == Entries(tail);
    if Entries(tail) == Entries(SendSuffix(kind)) {
      EntriesInjective(tail, SendSuffix(kind));
    }
  }

  /** An encoded message is taken for a kind exactly if its data end with that kind's suffix, whatever
      the counter and the address. */
  lemma ClassifiedExactly(counter: U32, data: seq<U32>, address: U16, kind: Kind)
    ensures Classify(Encoded(counter, data, address)) == Some(kind)
       <==> |data| >= 3 && data[|data| - 3..] == SendSuffix(kind)
  {
    if |data| < 3 {
      ShortDataIsNoSuffix(counter, data, address, AcqOn);
      ShortDataIsNoSuffix(counter, data, address, AcqOff);
    } else {
      LongDataHasSuffix(counter, data, address, AcqOn);
      LongDataHasSuffix(counter, data, address, AcqOff);
      assert SendSuffix(AcqOn)[2] != SendSuffix(AcqOff)[2];
    }
  }

  /** The emulator recovers the kind that was sent, and takes no answer for a command. */
  lemma ClassifyRecoversKind(kind: Kind)
    ensures Classify(Request(kind)) == Some(kind)
    ensures Classify(Response(kind)) == None
  {
    ClassifiedExactly(INIT_COUNT_VALUE, SendSuffix(kind), NULL_ADDRESS, kind);
    assert SendSuffix(kind)[0..] == SendSuffix(kind);
    forall k: Kind
      ensures Classify(Response(kind)) != Some(k)
    {
      ClassifiedExactly(0, ResponseData(kind), NULL_ADDRESS, k);
      assert ResponseData(kind)[0..][1] != SendSuffix(k)[1];
    }
  }
}
