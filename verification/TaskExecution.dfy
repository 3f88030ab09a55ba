/** The converters and sinks of a task diagram as objects that own one slot per line. */
module TaskExecution {
  import opened SrsData
  import opened ConvertGraph
  import opened TaskGraph
  import opened TaskLines
  import opened DelimFile
  import StructDeserializer

  function SlotsOf<P>(delimited: Bytes, data: StructData, message: P, encoded: Bytes, encodedDelimited: Bytes):
      map<ConvertOption, Value<P>>
  {
    map[RawFrame := Chunk(delimited), Structure := Struct(data), StructureToProto := Message(message),
        Proto := Chunk(encoded), ProtoFrame := Chunk(encodedDelimited)]
  }

  lemma SlotUpdate<P>(a: Bytes, s: StructData, m: P, b: Bytes, c: Bytes,
                      a': Bytes, s': StructData, m': P, b': Bytes, c': Bytes)
    ensures SlotsOf(a, s, m, b, c)[RawFrame := Chunk(a')] == SlotsOf(a', s, m, b, c)
    ensures SlotsOf(a, s, m, b, c)[Structure := Struct(s')] == SlotsOf(a, s', m, b, c)
    ensures SlotsOf(a, s, m, b, c)[StructureToProto := Message(m')] == SlotsOf(a, s, m', b, c)
    ensures SlotsOf(a, s, m, b, c)[Proto := Chunk(b')] == SlotsOf(a, s, m, b', c)
    ensures SlotsOf(a, s, m, b, c)[ProtoFrame := Chunk(c')] == SlotsOf(a, s, m, b, c')
  {
  }

  class LineTasks<P> {
    const nodes: seq<Node>
    const f: Foreign<P>
    const delimiter: Raw2DelimRawConverter
    const deserializer: StructDeserializer.StructDeserializer
    var raw: seq<Bytes>
    var messages: seq<P>
    var encoded: seq<Bytes>
    var encodedDelimited: seq<Bytes>
    var received: seq<seq<seq<Value<P>>>>   // per line and sink task
    var samples: seq<seq<nat>>              // per line and task
    var active: seq<bool>
    var done: seq<set<nat>>
    ghost var frames: seq<seq<Bytes>>

    /** `message` is what an empty protobuf message is. */
    constructor (nodes: seq<Node>, f: Foreign<P>, nLines: nat, message: P)
      requires WellWired(nodes)
      ensures this.nodes == nodes && this.f == f && fresh(delimiter) && fresh(deserializer)
      ensures Valid() && |raw| == nLines
      ensures forall s :: Is(s) ==> Fresh(nodes, s)
    {
      this.nodes, this.f := nodes, f;
      delimiter := new Raw2DelimRawConverter(nLines);
      deserializer := new StructDeserializer.StructDeserializer(nLines);
      raw, encoded, encodedDelimited := seq(nLines, l => []), seq(nLines, l => []), seq(nLines, l => []);
      messages := seq(nLines, l => message);
      received, samples := seq(nLines, l => seq(|nodes|, n => [])), seq(nLines, l => seq(|nodes|, n => 0));
      active, done, frames := seq(nLines, l => false), seq(nLines, l => {}), seq(nLines, l => []);
    }

    ghost predicate Valid()
      reads this, delimiter, deserializer
    {
      var n := |raw|;
      && WellWired(nodes)
      && |messages| == |encoded| == |encodedDelimited| == |received| == |samples| == n
      && |active| == |done| == |frames| == n
      && |delimiter.output| == |deserializer.output| == n
      && (forall l :: 0 <= l < n ==> |received[l]| == |samples[l]| == |nodes|)
    }

    ghost function LineView(l: nat): LineState<P>
      requires Valid() && l < |raw|
      reads this, delimiter, deserializer
    {
      LineState(active[l], raw[l],
                SlotsOf(delimiter.output[l], deserializer.output[l], messages[l], encoded[l], encodedDelimited[l]),
                received[l], samples[l], done[l], frames[l])
    }

    /** This is the state `s` of the lines. */
    ghost predicate Is(s: seq<LineState<P>>)
      requires Valid()
      reads this, delimiter, deserializer
    {
      |s| == |raw| && forall l :: 0 <= l < |s| ==> s[l] == LineView(l)
    }

    /** What a task reads through its predecessor on line `l`. */
    method Output(source: Source, l: nat) returns (v: Value<P>)
      requires Valid() && l < |raw|
      ensures v == ReadInput(LineView(l), source)
    {
      match source {
        case RawData => v := Chunk(raw[l]);
        case Converted(o) =>
          match o {
            case RawFrame => v := Chunk(delimiter.output[l]);
            case Structure => v := Struct(deserializer.output[l]);
            case StructureToProto => v := Message(messages[l]);
            case Proto => v := Chunk(encoded[l]);
            case ProtoFrame => v := Chunk(encodedDelimited[l]);
            case Raw => v := Chunk([]);
            case NoConversion => v := Chunk([]);
          }
      }
    }

    /** A frame is taken from the queue into the line's buffer. */
    method Begin(l: nat, frame: Bytes, ghost s: seq<LineState<P>>)
      requires Valid() && Is(s) && Shaped(nodes, s) && Enabled(nodes, s, Event.Begin(l, frame))
      modifies this
      ensures Valid() && Is(Next(f, nodes, s, Event.Begin(l, frame)))
    {
      raw := raw[l := frame];
      active := active[l := true];
      done := done[l := {}];
      frames := frames[l := frames[l] + [frame]];
    }

    method End(l: nat, ghost s: seq<LineState<P>>)
      requires Valid() && Is(s) && Shaped(nodes, s) && Enabled(nodes, s, Event.End(l))
      modifies this
      ensures Valid() && Is(Next(f, nodes, s, Event.End(l)))
    {
      active := active[l := false];
    }

    /** One of the protobuf converters refills its slot of the line. */
    method RunForeign(l: nat, o: ConvertOption)
      requires Valid() && l < |raw| && (o.StructureToProto? || o.Proto? || o.ProtoFrame?)
      modifies this`messages, this`encoded, this`encodedDelimited
      ensures Valid()
      ensures forall k :: 0 <= k < |raw| && k != l ==> LineView(k) == old(LineView(k))
      ensures var x := old(LineView(l));
              LineView(l) == x.(slots := x.slots[o := Convert(f, o, ReadInput(x, Feed(o)))])
    {
      SlotUpdate(delimiter.output[l], deserializer.output[l], messages[l], encoded[l], encodedDelimited[l],
                 delimiter.output[l], deserializer.output[l], f.toMessage(deserializer.output[l]),
                 f.encode(messages[l]), f.encodeDelimited(messages[l]));
      match o {
        case StructureToProto => messages := messages[l := f.toMessage(deserializer.output[l])];
        case Proto => encoded := encoded[l := f.encode(messages[l])];
        case ProtoFrame => encodedDelimited := encodedDelimited[l := f.encodeDelimited(messages[l])];
      }
    }

    /** One converter refills its slot of the line; a deserialization error is discarded. */
    method RunConverter(l: nat, o: ConvertOption)
      requires Valid() && l < |raw| && IsConverter(o)
      modifies this`messages, this`encoded, this`encodedDelimited, delimiter, deserializer
      ensures Valid()
      ensures forall k :: 0 <= k < |raw| && k != l ==> LineView(k) == old(LineView(k))
      ensures var x := old(LineView(l));
              LineView(l) == x.(slots := x.slots[o := Convert(f, o, ReadInput(x, Feed(o)))])
    {
      SlotUpdate(delimiter.output[l], deserializer.output[l], messages[l], encoded[l], encodedDelimited[l],
                 Delimited(raw[l]), StructDeserializer.Slot(raw[l]), messages[l], encoded[l], encodedDelimited[l]);
      if o.RawFrame? {
        delimiter.Run(raw[l], l);
      } else if o.Structure? {
        var _ := deserializer.Run(raw[l], l);
      } else {
        RunForeign(l, o);
      }
    }

    /** One sink takes what its converter delivers. */
    method RunSink(l: nat, n: nat)
      requires Valid() && l < |raw| && n < |nodes|
      modifies this`received
      ensures Valid()
      ensures forall k :: 0 <= k < |raw| && k != l ==> LineView(k) == old(LineView(k))
      ensures var x := old(LineView(l));
              LineView(l) == x.(logs := x.logs[n := x.logs[n] + [ReadInput(x, nodes[n].input)]])
    {
      var input := Output(nodes[n].input, l);
      received := received[l := received[l][n := received[l][n] + [input]]];
    }

    method Count(l: nat, n: nat)
      requires Valid() && l < |raw| && n < |nodes|
      modifies this`samples, this`done
      ensures Valid()
      ensures forall k :: 0 <= k < |raw| && k != l ==> LineView(k) == old(LineView(k))
      ensures var x := old(LineView(l));
              LineView(l) == x.(samples := x.samples[n := x.samples[n] + 1], done := x.done + {n})
    {
      samples := samples[l := samples[l][n := samples[l][n] + 1]];
      done := done[l := done[l] + {n}];
    }

    /** `run` of the task, without the counting around it. */
    method RunUncounted(l: nat, n: nat)
      requires Valid() && l < |raw| && n < |nodes|
      modifies this`messages, this`encoded, this`encodedDelimited, this`received, delimiter, deserializer
      ensures Valid()
      ensures forall k :: 0 <= k < |raw| && k != l ==> LineView(k) == old(LineView(k))
      ensures var x := old(LineView(l)); LineView(l) == Ran(f, nodes, x, n).(samples := x.samples, done := x.done)
    {
      match nodes[n].task {
        case ConverterTask(o) => RunConverter(l, o);
        case SinkTask(_) => RunSink(l, n);
      }
    }

    /** `run_once`: runs the task on its line and counts it. */
    method RunOnce(l: nat, n: nat, ghost s: seq<LineState<P>>)
      requires Valid() && Is(s) && Shaped(nodes, s) && Enabled(nodes, s, Event.RunTask(l, n))
      modifies this, delimiter, deserializer
      ensures Valid() && Is(Next(f, nodes, s, Event.RunTask(l, n)))
    {
      RunUncounted(l, n);
      Count(l, n);
    }
  }
}
