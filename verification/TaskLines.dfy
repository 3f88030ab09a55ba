/** The wired tasks of many lines running interleaved, each line over its own slots. */
module TaskLines {
  import opened Seqs
  import opened SrsData
  import opened FrameFormat
  import opened StructDeserializer
  import opened DelimFile
  import opened ConvertGraph
  import opened SinkManager
  import opened TaskGraph

  /** What a task delivers: bytes, a struct, or a protobuf message of some type. */
  datatype Value<P> = Chunk(bytes: Bytes) | Struct(data: StructData) | Message(message: P)

  /** The conversions that are foreign code, as functions. */
  datatype Foreign<!P> = Foreign(toMessage: StructData -> P, encode: P -> Bytes, encodeDelimited: P -> Bytes)

  /** One run of a converter on what it reads. */
  function Convert<P>(f: Foreign<P>, o: ConvertOption, input: Value<P>): Value<P> {
    match (o, input)
    case (RawFrame, Chunk(bytes)) => Chunk(Delimited(bytes))
    case (Structure, Chunk(bytes)) => Struct(Slot(bytes))
    case (StructureToProto, Struct(data)) => Message(f.toMessage(data))
    case (Proto, Message(message)) => Chunk(f.encode(message))
    case (ProtoFrame, Message(message)) => Chunk(f.encodeDelimited(message))
    case _ => input
  }

  /** The plain form: what a source delivers for a frame, as a function of that frame alone. */
  function Plain<P>(f: Foreign<P>, source: Source, frame: Bytes): Value<P> {
    match source
    case RawData => Chunk(frame)
    case Converted(o) =>
      match o
      case RawFrame => Chunk(Delimited(frame))
      case Structure => Struct(Slot(frame))
      case StructureToProto => Message(f.toMessage(Slot(frame)))
      case Proto => Chunk(f.encode(f.toMessage(Slot(frame))))
      case ProtoFrame => Chunk(f.encodeDelimited(f.toMessage(Slot(frame))))
      case _ => Chunk(frame)
  }

  function PlainOf<P>(f: Foreign<P>, source: Source): Bytes -> Value<P> {
    frame => Plain(f, source, frame)
  }

  lemma PlainStep<P>(f: Foreign<P>, o: ConvertOption, frame: Bytes)
    requires IsConverter(o)
    ensures Convert(f, o, Plain(f, Feed(o), frame)) == Plain(f, Converted(o), frame)
  {
  }

  // ----- the lines

  /** A line: the raw frame, the converters' slots, and for each task what a sink received and how
      often the task ran. `done` are the tasks that ran on the current frame. */
  datatype LineState<P> = LineState(
    active: bool,
    raw: Bytes,
    slots: map<ConvertOption, Value<P>>,
    logs: seq<seq<Value<P>>>,
    samples: seq<nat>,
    done: set<nat>,
    frames: seq<Bytes>)

  datatype Event = Begin(l: nat, frame: Bytes) | RunTask(l: nat, n: nat) | End(l: nat)

  predicate LineEnabled<P>(nodes: seq<Node>, x: LineState<P>, e: Event) {
    match e
    case Begin(_, _) => !x.active
    case RunTask(_, n) =>
      && x.active && n < |nodes| && n !in x.done
      && (nodes[n].after.Some? ==> nodes[n].after.value in x.done)
    case End(_) => x.active && forall n :: 0 <= n < |nodes| ==> n in x.done
  }

  function ReadInput<P>(x: LineState<P>, source: Source): Value<P> {
    match source
    case RawData => Chunk(x.raw)
    case Converted(o) => if o in x.slots then x.slots[o] else Chunk([])
  }

  function Ran<P>(f: Foreign<P>, nodes: seq<Node>, x: LineState<P>, n: nat): LineState<P>
    requires n < |nodes| && |x.logs| == |x.samples| == |nodes|
  {
    var input := ReadInput(x, nodes[n].input);
    var counted := x.(done := x.done + {n}, samples := x.samples[n := x.samples[n] + 1]);
    match nodes[n].task
    case ConverterTask(o) => counted.(slots := x.slots[o := Convert(f, o, input)])
    case SinkTask(_) => counted.(logs := x.logs[n := x.logs[n] + [input]])
  }

  function LineNext<P>(f: Foreign<P>, nodes: seq<Node>, x: LineState<P>, e: Event): LineState<P>
    requires LineEnabled(nodes, x, e) && |x.logs| == |x.samples| == |nodes|
  {
    match e
    case Begin(_, frame) => x.(active := true, raw := frame, done := {}, frames := x.frames + [frame])
    case RunTask(_, n) => Ran(f, nodes, x, n)
    case End(_) => x.(active := false)
  }

  predicate Shaped<P>(nodes: seq<Node>, s: seq<LineState<P>>) {
    forall l :: 0 <= l < |s| ==> |s[l].logs| == |s[l].samples| == |nodes|
  }

  predicate Enabled<P>(nodes: seq<Node>, s: seq<LineState<P>>, e: Event) {
    e.l < |s| && LineEnabled(nodes, s[e.l], e)
  }

  function Next<P>(f: Foreign<P>, nodes: seq<Node>, s: seq<LineState<P>>, e: Event): (r: seq<LineState<P>>)
    requires Shaped(nodes, s) && Enabled(nodes, s, e)
    ensures Shaped(nodes, r) && |r| == |s|
  {
    s[e.l := LineNext(f, nodes, s[e.l], e)]
  }

  predicate Legal<P>(f: Foreign<P>, nodes: seq<Node>, s: seq<LineState<P>>, es: seq<Event>)
    requires Shaped(nodes, s)
    decreases |es|
  {
    es == [] || (Enabled(nodes, s, es[0]) && Legal(f, nodes, Next(f, nodes, s, es[0]), es[1..]))
  }

  function Run<P>(f: Foreign<P>, nodes: seq<Node>, s: seq<LineState<P>>, es: seq<Event>): (r: seq<LineState<P>>)
    requires Shaped(nodes, s) && Legal(f, nodes, s, es)
    ensures |r| == |s| && Shaped(nodes, r)
    decreases |es|
  {
    if es == [] then s else Run(f, nodes, Next(f, nodes, s, es[0]), es[1..])
  }

  // ----- the invariant of one line

  /** The frames that task `n` has run on. */
  function Processed<P>(x: LineState<P>, n: nat): seq<Bytes> {
    if x.active && n !in x.done && x.frames != [] then x.frames[..|x.frames| - 1] else x.frames
  }

  ghost predicate LineOk<P>(f: Foreign<P>, nodes: seq<Node>, x: LineState<P>)
    requires |x.logs| == |x.samples| == |nodes|
  {
    && (x.active ==> x.frames != [] && x.raw == x.frames[|x.frames| - 1])
    && (forall n :: 0 <= n < |nodes| ==> x.samples[n] == |Processed(x, n)|)
    && (forall n :: 0 <= n < |nodes| && nodes[n].task.SinkTask? ==>
          x.logs[n] == Map(PlainOf(f, nodes[n].input), Processed(x, n)))
    && (x.active ==> forall n :: 0 <= n < |nodes| && n in x.done && nodes[n].task.ConverterTask? ==>
          ReadInput(x, Converted(nodes[n].task.o)) == Plain(f, Converted(nodes[n].task.o), x.raw))
  }

  /** Whatever a task reads is the plain conversion of the current frame, however stale the slots were. */
  lemma InputIsPlain<P>(f: Foreign<P>, nodes: seq<Node>, x: LineState<P>, n: nat)
    requires WellWired(nodes) && |x.logs| == |x.samples| == |nodes| && LineOk(f, nodes, x)
    requires LineEnabled(nodes, x, RunTask(0, n))
    ensures ReadInput(x, nodes[n].input) == Plain(f, nodes[n].input, x.raw)
  {
    assert Fed(nodes, n);
  }

  lemma MapPush<T, U>(g: T -> U, s: seq<T>, x: T)
    ensures Map(g, s + [x]) == Map(g, s) + [g(x)]
  {
  }

  lemma ProcessedWhenRan<P>(f: Foreign<P>, nodes: seq<Node>, x: LineState<P>, n: nat, m: nat)
    requires |x.logs| == |x.samples| == |nodes| && LineEnabled(nodes, x, RunTask(0, n)) && m < |nodes|
    ensures Processed(Ran(f, nodes, x, n), m) == if m == n then x.frames else Processed(x, m)
  {
  }

  lemma RanLogsOk<P>(f: Foreign<P>, nodes: seq<Node>, x: LineState<P>, n: nat, m: nat)
    requires |x.logs| == |x.samples| == |nodes| && LineOk(f, nodes, x)
    requires LineEnabled(nodes, x, RunTask(0, n)) && m < |nodes|
    requires ReadInput(x, nodes[n].input) == Plain(f, nodes[n].input, x.raw)
    ensures var x' := Ran(f, nodes, x, n);
            && x'.samples[m] == |Processed(x', m)|
            && (nodes[m].task.SinkTask? ==> x'.logs[m] == Map(PlainOf(f, nodes[m].input), Processed(x', m)))
  {
    ProcessedWhenRan(f, nodes, x, n, m);
    var last := |x.frames| - 1;
    assert x.frames == x.frames[..last] + [x.raw];
    MapPush(PlainOf(f, nodes[n].input), x.frames[..last], x.raw);
  }

  lemma RanOk<P>(f: Foreign<P>, nodes: seq<Node>, x: LineState<P>, n: nat)
    requires WellWired(nodes) && |x.logs| == |x.samples| == |nodes| && LineOk(f, nodes, x)
    requires LineEnabled(nodes, x, RunTask(0, n))
    ensures LineOk(f, nodes, Ran(f, nodes, x, n))
  {
    InputIsPlain(f, nodes, x, n);
    forall m | 0 <= m < |nodes|
      ensures var x' := Ran(f, nodes, x, n);
              && x'.samples[m] == |Processed(x', m)|
              && (nodes[m].task.SinkTask? ==> x'.logs[m] == Map(PlainOf(f, nodes[m].input), Processed(x', m)))
    {
      RanLogsOk(f, nodes, x, n, m);
    }
    if nodes[n].task.ConverterTask? {
      PlainStep(f, nodes[n].task.o, x.raw);
    }
  }

  lemma LineStepOk<P>(f: Foreign<P>, nodes: seq<Node>, x: LineState<P>, e: Event)
    requires WellWired(nodes) && |x.logs| == |x.samples| == |nodes| && LineOk(f, nodes, x)
    requires LineEnabled(nodes, x, e)
    ensures LineOk(f, nodes, LineNext(f, nodes, x, e))
  {
    match e {
      case Begin(_, frame) =>
        var x' := LineNext(f, nodes, x, e);
        assert x'.frames[..|x'.frames| - 1] == x.frames;
      case RunTask(_, n) =>
        RanOk(f, nodes, x, n);
      case End(_) =>
    }
  }

  ghost predicate AllOk<P>(f: Foreign<P>, nodes: seq<Node>, s: seq<LineState<P>>)
    requires Shaped(nodes, s)
  {
    forall l :: 0 <= l < |s| ==> LineOk(f, nodes, s[l])
  }

  function BegunBy(e: Event, l: nat): seq<Bytes> {
    if e.Begin? && e.l == l then [e.frame] else []
  }

  /** The frames that a run begins on line `l`, in order. */
  function Begun(es: seq<Event>, l: nat): seq<Bytes> {
    if es == [] then [] else BegunBy(es[0], l) + Begun(es[1..], l)
  }

  lemma StepOk<P>(f: Foreign<P>, nodes: seq<Node>, s: seq<LineState<P>>, e: Event)
    requires WellWired(nodes) && Shaped(nodes, s) && AllOk(f, nodes, s) && Enabled(nodes, s, e)
    ensures AllOk(f, nodes, Next(f, nodes, s, e))
    ensures forall l :: 0 <= l < |s| ==> Next(f, nodes, s, e)[l].frames == s[l].frames + BegunBy(e, l)
  {
    LineStepOk(f, nodes, s[e.l], e);
  }

  lemma {:induction false} RunOk<P>(f: Foreign<P>, nodes: seq<Node>, s: seq<LineState<P>>, es: seq<Event>)
    requires WellWired(nodes) && Shaped(nodes, s) && AllOk(f, nodes, s) && Legal(f, nodes, s, es)
    ensures AllOk(f, nodes, Run(f, nodes, s, es))
    ensures forall l :: 0 <= l < |s| ==> Run(f, nodes, s, es)[l].frames == s[l].frames + Begun(es, l)
    decreases |es|
  {
    if es == [] {
    } else {
      StepOk(f, nodes, s, es[0]);
      RunOk(f, nodes, Next(f, nodes, s, es[0]), es[1..]);
    }
  }

  // ----- what it means

  /** Lines before the first frame: nothing was begun or received, and the slots may hold anything. */
  ghost predicate Fresh<P>(nodes: seq<Node>, s: seq<LineState<P>>) {
    forall l :: 0 <= l < |s| ==>
      && !s[l].active && s[l].frames == []
      && s[l].logs == seq(|nodes|, n => []) && s[l].samples == seq(|nodes|, n => 0)
  }

  lemma FreshOk<P>(f: Foreign<P>, nodes: seq<Node>, s: seq<LineState<P>>)
    requires Fresh(nodes, s)
    ensures Shaped(nodes, s) && AllOk(f, nodes, s)
  {
  }

  /** For any interleaving of any number of lines that respects each line's precedences: what a sink has
      received on a line is, in order, the plain conversion of each frame of that line alone. */
  lemma ParallelLinesRefinePlain<P>(
      f: Foreign<P>, nodes: seq<Node>, s: seq<LineState<P>>, es: seq<Event>, l: nat, n: nat)
    requires WellWired(nodes) && Fresh(nodes, s) && Shaped(nodes, s) && Legal(f, nodes, s, es)
    requires l < |s| && n < |nodes| && nodes[n].task.SinkTask?
    ensures var x := Run(f, nodes, s, es)[l];
            var frames := Begun(es, l);
            var processed := if x.active && n !in x.done && frames != [] then frames[..|frames| - 1] else frames;
            && x.logs[n] == Map(PlainOf(f, nodes[n].input), processed)
            && x.samples[n] == |processed|
  {
    FreshOk(f, nodes, s);
    RunOk(f, nodes, s, es);
    assert s[l].frames + Begun(es, l) == Begun(es, l);
    assert LineOk(f, nodes, Run(f, nodes, s, es)[l]);
  }

  /** The same for the wiring of a collection of sinks, on a line that is between two frames: every sink
      that can be attached has received each frame of the line in the form it is meant to get. */
  lemma SinksReceivePlain<P>(f: Foreign<P>, sinks: seq<Sink>, s: seq<LineState<P>>, es: seq<Event>, l: nat, k: nat)
    requires Fresh(Wired(sinks), s) && Shaped(Wired(sinks), s) && Legal(f, Wired(sinks), s, es)
    requires l < |s| && !Run(f, Wired(sinks), s, es)[l].active && k < |sinks| && Attached(sinks, k)
    ensures exists n :: 0 <= n < |Wired(sinks)| && Wired(sinks)[n].task == SinkTask(k)
    ensures forall n :: 0 <= n < |Wired(sinks)| && Wired(sinks)[n].task == SinkTask(k) ==>
              Run(f, Wired(sinks), s, es)[l].logs[n] == Map(PlainOf(f, SourceFor(sinks[k])), Begun(es, l))
  {
    WiringOk(sinks);
    SinkTasks(sinks, k);
    forall n | 0 <= n < |Wired(sinks)| && Wired(sinks)[n].task == SinkTask(k)
      ensures Run(f, Wired(sinks), s, es)[l].logs[n] == Map(PlainOf(f, SourceFor(sinks[k])), Begun(es, l))
    {
      ParallelLinesRefinePlain(f, Wired(sinks), s, es, l, n);
    }
  }

  /** In any run, what a struct sink has received for the line's frame number `i` is what that frame parses
      to, and an empty struct if the deserializer rejects it, whatever the frames before it held. */
  lemma RejectedFrameIsEmpty<P>(
      f: Foreign<P>, nodes: seq<Node>, s: seq<LineState<P>>, es: seq<Event>, l: nat, n: nat, i: nat)
    requires WellWired(nodes) && Fresh(nodes, s) && Shaped(nodes, s) && Legal(f, nodes, s, es)
    requires l < |s| && n < |nodes| && nodes[n].task.SinkTask? && nodes[n].input == Converted(Structure)
    requires i < |Run(f, nodes, s, es)[l].logs[n]|
    ensures i < |Begun(es, l)|
    ensures var parsed := Parsed(Begun(es, l)[i]);
            Run(f, nodes, s, es)[l].logs[n][i] == Struct(if parsed.Ok? then parsed.value else EMPTY_STRUCT)
  {
    ParallelLinesRefinePlain(f, nodes, s, es, l, n);
    var frames := Begun(es, l);
    assert PlainOf(f, Converted(Structure))(frames[i]) == Struct(Slot(frames[i]));
  }

  function BytesOf<P>(v: Value<P>): Bytes {
    if v.Chunk? then v.bytes else []
  }

  lemma ChunkIsDelimited<P>(f: Foreign<P>, frames: seq<Bytes>, k: nat)
    requires k < |frames|
    ensures Map(BytesOf, Map(PlainOf(f, Converted(RawFrame)), frames))[k] == Delimited(frames[k])
  {
    var v := Map(PlainOf(f, Converted(RawFrame)), frames);
    assert v[k] == Chunk(Delimited(frames[k]));
    assert Map(BytesOf, v)[k] == BytesOf(v[k]);
  }

  lemma DelimitedChunks<P>(f: Foreign<P>, frames: seq<Bytes>)
    ensures Concat(Map(BytesOf, Map(PlainOf(f, Converted(RawFrame)), frames))) == Content(frames)
  {
    var chunks := Map(BytesOf, Map(PlainOf(f, Converted(RawFrame)), frames));
    forall k | 0 <= k < |frames|
      ensures chunks[k] == Map(Delimited, frames)[k]
    {
      ChunkIsDelimited(f, frames, k);
    }
    assert chunks == Map(Delimited, frames);
    StreamOfFrames(frames);
  }

  /** The file that a raw-frame sink writes for a line gives the line's frames back in order. */
  lemma RawFileGivesFramesBack<P>(
      f: Foreign<P>, sinks: seq<Sink>, s: seq<LineState<P>>, es: seq<Event>, l: nat, k: nat, i: nat)
    requires Fresh(Wired(sinks), s) && Shaped(Wired(sinks), s) && Legal(f, Wired(sinks), s, es)
    requires l < |s| && !Run(f, Wired(sinks), s, es)[l].active
    requires k < |sinks| && SourceFor(sinks[k]) == Converted(RawFrame)
    requires forall j :: 0 <= j < |Begun(es, l)| ==> |Begun(es, l)[j]| < SIZE_MODULUS
    ensures exists n :: 0 <= n < |Wired(sinks)| && Wired(sinks)[n].task == SinkTask(k) &&
              Delivered(Opened(Concat(Map(BytesOf, Run(f, Wired(sinks), s, es)[l].logs[n]))), i)
              == if i < |Begun(es, l)| then (|Begun(es, l)[i]|, Begun(es, l)[i]) else (0, [])
  {
    SinksReceivePlain(f, sinks, s, es, l, k);
    var n :| 0 <= n < |Wired(sinks)| && Wired(sinks)[n].task == SinkTask(k);
    var frames := Begun(es, l);
    DelimitedChunks(f, frames);
    assert At(Opened(Content(frames)), frames);
    FileRoundTrip(Opened(Content(frames)), frames, i);
  }

  /** A line never gets stuck within a frame: some task is ready until all have run. */
  lemma SomeTaskIsReady<P>(nodes: seq<Node>, x: LineState<P>) returns (n: nat)
    requires WellWired(nodes) && x.active && !LineEnabled(nodes, x, End(0))
    ensures LineEnabled(nodes, x, RunTask(0, n))
  {
    var m: nat :| m < |nodes| && m !in x.done;
    n := m;
    while nodes[n].after.Some? && nodes[n].after.value !in x.done
      invariant n < |nodes| && n !in x.done
      decreases n
    {
      assert Fed(nodes, n);
      n := nodes[n].after.value;
    }
  }
}
