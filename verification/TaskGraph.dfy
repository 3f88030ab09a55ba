/** How a line's tasks are wired: which converters exist, and what every task reads. */
module TaskGraph {
  import opened Common
  import opened ConvertGraph
  import opened SinkManager

  /** What a task reads: the line's raw frame, or the output of a converter. */
  datatype Source = RawData | Converted(o: ConvertOption)

  datatype TaskName = ConverterTask(o: ConvertOption) | SinkTask(k: nat)

  /** A task of a line, with what it reads and the earlier task that has to precede it, if any. */
  datatype Node = Node(task: TaskName, input: Source, after: Option<nat>)

  /** The pair of a converter and its task; the raw data come with an empty task. */
  datatype Link = Link(source: Source, task: Option<nat>)

  const RAW_LINK := Some(Link(RawData, None))

  predicate HasConverter(nodes: seq<Node>, o: ConvertOption) {
    exists n :: 0 <= n < |nodes| && nodes[n].task == ConverterTask(o)
  }

  predicate HasSink(nodes: seq<Node>, k: nat) {
    exists n :: 0 <= n < |nodes| && nodes[n].task == SinkTask(k)
  }

  // ----- the wiring as a function of the sinks

  function Emplaced(nodes: seq<Node>, task: TaskName, prev: Link): seq<Node> {
    nodes + [Node(task, prev.source, prev.task)]
  }

  /** A converter is created if it can be fed and some sink depends on it. */
  function AddConverter(sinks: seq<Sink>, nodes: seq<Node>, o: ConvertOption, prev: Option<Link>):
      (seq<Node>, Option<Link>)
  {
    if prev.None? || !Required(sinks, o) then (nodes, None)
    else (Emplaced(nodes, ConverterTask(o), prev.value), Some(Link(Converted(o), Some(|nodes|))))
  }

  function AddSinkTask(nodes: seq<Node>, k: nat, prev: Option<Link>): seq<Node> {
    if prev.None? then nodes else Emplaced(nodes, SinkTask(k), prev.value)
  }

  datatype Converters = Converters(
    nodes: seq<Node>, rawFrame: Option<Link>, structure: Option<Link>, toProto: Option<Link>,
    proto: Option<Link>, protoFrame: Option<Link>)

  function AddConverters(sinks: seq<Sink>): Converters {
    var (n1, rawFrame) := AddConverter(sinks, [], RawFrame, RAW_LINK);
    var (n2, structure) := AddConverter(sinks, n1, Structure, RAW_LINK);
    var (n3, toProto) := AddConverter(sinks, n2, StructureToProto, structure);
    var (n4, proto) := AddConverter(sinks, n3, Proto, toProto);
    var (n5, protoFrame) := AddConverter(sinks, n4, ProtoFrame, toProto);
    Converters(n5, rawFrame, structure, toProto, proto, protoFrame)
  }

  /** The link that a sink is attached to; an unrecognised conversion falls back to the raw data. */
  function LinkFor(c: Converters, sink: Sink): Option<Link> {
    if IsStructType(sink.kind) then c.structure
    else
      match sink.required
      case Raw => RAW_LINK
      case RawFrame => c.rawFrame
      case Proto => c.proto
      case ProtoFrame => c.protoFrame
      case _ => RAW_LINK
  }

  /** The first `n` sinks attached in order. */
  function AddSinks(sinks: seq<Sink>, c: Converters, n: nat): seq<Node>
    requires n <= |sinks|
  {
    if n == 0 then c.nodes
    else AddSinkTask(AddSinks(sinks, c, n - 1), n - 1, LinkFor(c, sinks[n - 1]))
  }

  function Wired(sinks: seq<Sink>): seq<Node> {
    AddSinks(sinks, AddConverters(sinks), |sinks|)
  }

  // ----- properties of any wiring

  /** What a converter reads. */
  function Feed(o: ConvertOption): Source {
    if o.RawFrame? || o.Structure? then RawData else Converted(Previous(o))
  }

  /** The node reads the raw data and waits for nobody, or it waits for the earlier task of the
      converter that it reads. */
  predicate Fed(nodes: seq<Node>, n: nat)
    requires n < |nodes|
  {
    match nodes[n].input
    case RawData => nodes[n].after.None?
    case Converted(o) =>
      nodes[n].after.Some? && nodes[n].after.value < n && nodes[nodes[n].after.value].task == ConverterTask(o)
  }

  /** Every task is fed by an earlier one, converters by the right one, and no converter runs twice. */
  predicate WellWired(nodes: seq<Node>) {
    && (forall n :: 0 <= n < |nodes| ==> Fed(nodes, n))
    && (forall n :: 0 <= n < |nodes| && nodes[n].task.ConverterTask? ==>
          nodes[n].input == Feed(nodes[n].task.o) && IsConverter(nodes[n].task.o))
    && (forall m, n :: 0 <= m < n < |nodes| ==> nodes[m].task != nodes[n].task)
  }

  /** From a task back along the tasks that precede it. */
  function Predecessors(nodes: seq<Node>, n: nat): (chain: seq<nat>)
    requires WellWired(nodes) && n < |nodes|
    ensures |chain| > 0 && chain[0] == n && forall i :: 0 <= i < |chain| ==> chain[i] < |nodes|
    decreases n
  {
    assert Fed(nodes, n);
    if nodes[n].after.None? then [n] else [n] + Predecessors(nodes, nodes[n].after.value)
  }

  /** The chain ends at a task that reads the raw data, and each task on it is preceded by the one it reads. */
  lemma {:induction false} ChainToRaw(nodes: seq<Node>, n: nat)
    requires WellWired(nodes) && n < |nodes|
    ensures var chain := Predecessors(nodes, n);
            && nodes[chain[|chain| - 1]].input == RawData
            && forall i :: 0 <= i < |chain| - 1 ==>
                 && nodes[chain[i]].after == Some(chain[i + 1])
                 && nodes[chain[i]].input.Converted?
                 && nodes[chain[i + 1]].task == ConverterTask(nodes[chain[i]].input.o)
    decreases n
  {
    assert Fed(nodes, n);
    if nodes[n].after.Some? {
      var m := nodes[n].after.value;
      ChainToRaw(nodes, m);
      var chain, rest := Predecessors(nodes, n), Predecessors(nodes, m);
      forall i | 0 <= i < |chain| - 1
        ensures nodes[chain[i]].after == Some(chain[i + 1])
        ensures nodes[chain[i]].input.Converted?
        ensures nodes[chain[i + 1]].task == ConverterTask(nodes[chain[i]].input.o)
      {
        if i > 0 {
          assert chain[i] == rest[i - 1] && chain[i + 1] == rest[i - 1 + 1];
        }
      }
      assert chain[|chain| - 1] == rest[|rest| - 1];
    }
  }

  // ----- the wiring step by step

  /** The link, if there is one, leads to the task of converter `o`. */
  predicate LinkOk(nodes: seq<Node>, link: Option<Link>, o: ConvertOption) {
    link.Some? ==>
      && link.value.source == Converted(o)
      && link.value.task.Some? && link.value.task.value < |nodes|
      && nodes[link.value.task.value].task == ConverterTask(o)
  }

  /** Whatever is created next may be attached to the link. */
  predicate Attachable(nodes: seq<Node>, link: Option<Link>, input: Source) {
    match input
    case RawData => link == RAW_LINK
    case Converted(o) => LinkOk(nodes, link, o)
  }

  predicate IsConverter(o: ConvertOption) {
    o in Needs(Proto) + Needs(ProtoFrame) + {RawFrame} && o != Raw
  }

  lemma Extends(nodes: seq<Node>, node: Node)
    ensures forall x :: HasConverter(nodes + [node], x) <==> HasConverter(nodes, x) || node.task == ConverterTask(x)
    ensures forall k :: HasSink(nodes + [node], k) <==> HasSink(nodes, k) || node.task == SinkTask(k)
  {
    var nodes' := nodes + [node];
    assert nodes'[|nodes|] == node;
    assert forall n :: 0 <= n < |nodes| ==> nodes'[n] == nodes[n];
  }

  /** A task with a new name, fed by an earlier one, keeps a wiring well wired. */
  lemma WellWiredPush(nodes: seq<Node>, task: TaskName, link: Link)
    requires WellWired(nodes) && Attachable(nodes, Some(link), link.source)
    requires forall n :: 0 <= n < |nodes| ==> nodes[n].task != task
    requires task.ConverterTask? ==> IsConverter(task.o) && link.source == Feed(task.o)
    ensures WellWired(Emplaced(nodes, task, link))
  {
    var nodes' := Emplaced(nodes, task, link);
    forall n | 0 <= n < |nodes'|
      ensures Fed(nodes', n)
    {
      assert n < |nodes| ==> Fed(nodes, n);
    }
  }

  /** The converters in `done` have had their turn. */
  ghost predicate Stage(sinks: seq<Sink>, nodes: seq<Node>, done: set<ConvertOption>) {
    && WellWired(nodes)
    && (forall o :: HasConverter(nodes, o) <==> o in done && Required(sinks, o))
    && (forall k: nat :: !HasSink(nodes, k))
  }

  /** A conversion that is required makes what it needs required too. */
  lemma RequiredUpwards(sinks: seq<Sink>, o: ConvertOption)
    ensures Required(sinks, o) ==> Required(sinks, Previous(o))
  {
    if k :| 0 <= k < |sinks| && Depends(o, sinks[k].required) {
      ShippedAnswers(o, sinks[k].required);
      ShippedAnswers(Previous(o), sinks[k].required);
      assert Depends(Previous(o), sinks[k].required);
    }
  }

  lemma StageStep(sinks: seq<Sink>, nodes: seq<Node>, done: set<ConvertOption>, o: ConvertOption, prev: Option<Link>)
    requires Stage(sinks, nodes, done) && IsConverter(o) && o !in done
    requires Attachable(nodes, prev, Feed(o)) && (prev.Some? <==> Feed(o).RawData? || Required(sinks, Previous(o)))
    ensures var (nodes', link) := AddConverter(sinks, nodes, o, prev);
            && Stage(sinks, nodes', done + {o}) && nodes <= nodes'
            && LinkOk(nodes', link, o) && (link.Some? <==> Required(sinks, o))
  {
    RequiredUpwards(sinks, o);
    if prev.Some? && Required(sinks, o) {
      assert forall n :: 0 <= n < |nodes| ==> nodes[n].task != ConverterTask(o) by {
        assert !HasConverter(nodes, o);
      }
      WellWiredPush(nodes, ConverterTask(o), prev.value);
      Extends(nodes, Node(ConverterTask(o), prev.value.source, prev.value.task));
    }
  }

  lemma LinkStays(nodes: seq<Node>, nodes': seq<Node>, link: Option<Link>, o: ConvertOption)
    requires LinkOk(nodes, link, o) && nodes <= nodes'
    ensures LinkOk(nodes', link, o)
  {
  }

  ghost predicate ConvertersOk(sinks: seq<Sink>, nodes: seq<Node>, c: Converters) {
    && LinkOk(nodes, c.rawFrame, RawFrame) && (c.rawFrame.Some? <==> Required(sinks, RawFrame))
    && LinkOk(nodes, c.structure, Structure) && (c.structure.Some? <==> Required(sinks, Structure))
    && LinkOk(nodes, c.toProto, StructureToProto) && (c.toProto.Some? <==> Required(sinks, StructureToProto))
    && LinkOk(nodes, c.proto, Proto) && (c.proto.Some? <==> Required(sinks, Proto))
    && LinkOk(nodes, c.protoFrame, ProtoFrame) && (c.protoFrame.Some? <==> Required(sinks, ProtoFrame))
  }

  lemma FirstConverters(sinks: seq<Sink>) returns (
      nodes: seq<Node>, rawFrame: Option<Link>, structure: Option<Link>, toProto: Option<Link>)
    ensures var (n1, l1) := AddConverter(sinks, [], RawFrame, RAW_LINK);
            var (n2, l2) := AddConverter(sinks, n1, Structure, RAW_LINK);
            var (n3, l3) := AddConverter(sinks, n2, StructureToProto, l2);
            nodes == n3 && rawFrame == l1 && structure == l2 && toProto == l3
    ensures Stage(sinks, nodes, {RawFrame, Structure, StructureToProto})
    ensures LinkOk(nodes, rawFrame, RawFrame) && (rawFrame.Some? <==> Required(sinks, RawFrame))
    ensures LinkOk(nodes, structure, Structure) && (structure.Some? <==> Required(sinks, Structure))
    ensures LinkOk(nodes, toProto, StructureToProto) && (toProto.Some? <==> Required(sinks, StructureToProto))
  {
    StageStep(sinks, [], {}, RawFrame, RAW_LINK);
    var (n1, l1) := AddConverter(sinks, [], RawFrame, RAW_LINK);
    StageStep(sinks, n1, {} + {RawFrame}, Structure, RAW_LINK);
    var (n2, l2) := AddConverter(sinks, n1, Structure, RAW_LINK);
    StageStep(sinks, n2, {} + {RawFrame} + {Structure}, StructureToProto, l2);
    var (n3, l3) := AddConverter(sinks, n2, StructureToProto, l2);
    LinkStays(n1, n3, l1, RawFrame);
    LinkStays(n2, n3, l2, Structure);
    assert {} + {RawFrame} + {Structure} + {StructureToProto} == {RawFrame, Structure, StructureToProto};
    nodes, rawFrame, structure, toProto := n3, l1, l2, l3;
  }

  lemma LastConverters(sinks: seq<Sink>, nodes: seq<Node>, toProto: Option<Link>) returns (
      nodes': seq<Node>, proto: Option<Link>, protoFrame: Option<Link>)
    requires Stage(sinks, nodes, {RawFrame, Structure, StructureToProto})
    requires LinkOk(nodes, toProto, StructureToProto) && (toProto.Some? <==> Required(sinks, StructureToProto))
    ensures var (n1, l1) := AddConverter(sinks, nodes, Proto, toProto);
            var (n2, l2) := AddConverter(sinks, n1, ProtoFrame, toProto);
            nodes' == n2 && proto == l1 && protoFrame == l2
    ensures nodes <= nodes' && Stage(sinks, nodes', {RawFrame, Structure, StructureToProto, Proto, ProtoFrame})
    ensures LinkOk(nodes', proto, Proto) && (proto.Some? <==> Required(sinks, Proto))
    ensures LinkOk(nodes', protoFrame, ProtoFrame) && (protoFrame.Some? <==> Required(sinks, ProtoFrame))
  {
    var done := {RawFrame, Structure, StructureToProto};
    StageStep(sinks, nodes, done, Proto, toProto);
    var (n1, l1) := AddConverter(sinks, nodes, Proto, toProto);
    LinkStays(nodes, n1, toProto, StructureToProto);
    StageStep(sinks, n1, done + {Proto}, ProtoFrame, toProto);
    var (n2, l2) := AddConverter(sinks, n1, ProtoFrame, toProto);
    LinkStays(n1, n2, l1, Proto);
    assert done + {Proto} + {ProtoFrame} == {RawFrame, Structure, StructureToProto, Proto, ProtoFrame};
    nodes', proto, protoFrame := n2, l1, l2;
  }

  lemma ConvertersWired(sinks: seq<Sink>)
    ensures ConvertersOk(sinks, AddConverters(sinks).nodes, AddConverters(sinks))
    ensures Stage(sinks, AddConverters(sinks).nodes, {RawFrame, Structure, StructureToProto, Proto, ProtoFrame})
  {
    var nodes, rawFrame, structure, toProto := FirstConverters(sinks);
    var nodes', proto, protoFrame := LastConverters(sinks, nodes, toProto);
    LinkStays(nodes, nodes', rawFrame, RawFrame);
    LinkStays(nodes, nodes', structure, Structure);
    LinkStays(nodes, nodes', toProto, StructureToProto);
    assert AddConverters(sinks) == Converters(nodes', rawFrame, structure, toProto, proto, protoFrame);
  }

  /** Where a sink is attached. */
  function SourceFor(sink: Sink): Source {
    if IsStructType(sink.kind) then Converted(Structure)
    else if sink.required.RawFrame? || sink.required.Proto? || sink.required.ProtoFrame? then Converted(sink.required)
    else RawData
  }

  /** A sink gets a task unless it reads structs and nobody requires them. */
  predicate Attached(sinks: seq<Sink>, k: nat)
    requires k < |sinks|
  {
    IsStructType(sinks[k].kind) ==> Required(sinks, Structure)
  }

  lemma RequiredItself(sinks: seq<Sink>, k: nat)
    requires k < |sinks|
    ensures Required(sinks, sinks[k].required)
  {
    ShippedAnswers(sinks[k].required, sinks[k].required);
    assert Depends(sinks[k].required, sinks[k].required);
  }

  /** The link for a sink is there exactly if the sink can be attached, and leads to its source. */
  lemma LinkForSink(sinks: seq<Sink>, nodes: seq<Node>, c: Converters, k: nat)
    requires k < |sinks| && ConvertersOk(sinks, nodes, c)
    ensures LinkFor(c, sinks[k]).Some? <==> Attached(sinks, k)
    ensures Attachable(nodes, LinkFor(c, sinks[k]), SourceFor(sinks[k]))
    ensures LinkFor(c, sinks[k]).Some? ==> LinkFor(c, sinks[k]).value.source == SourceFor(sinks[k])
  {
    RequiredItself(sinks, k);
  }

  /** The converters are complete, and the first `n` sinks have had their turn. */
  ghost predicate SinksOk(sinks: seq<Sink>, nodes: seq<Node>, n: nat)
    requires n <= |sinks|
  {
    && WellWired(nodes)
    && (forall o :: HasConverter(nodes, o) <==> IsConverter(o) && Required(sinks, o))
    && (forall k: nat :: HasSink(nodes, k) <==> k < n && Attached(sinks, k))
    && (forall i :: 0 <= i < |nodes| && nodes[i].task.SinkTask? ==>
          nodes[i].task.k < n && nodes[i].input == SourceFor(sinks[nodes[i].task.k]))
  }

  lemma SinkStep(sinks: seq<Sink>, nodes: seq<Node>, n: nat, link: Link)
    requires n < |sinks| && SinksOk(sinks, nodes, n) && Attached(sinks, n)
    requires Attachable(nodes, Some(link), link.source) && link.source == SourceFor(sinks[n])
    ensures SinksOk(sinks, Emplaced(nodes, SinkTask(n), link), n + 1)
  {
    WellWiredPush(nodes, SinkTask(n), link);
    Extends(nodes, Node(SinkTask(n), link.source, link.task));
  }

  lemma ConvertersDone(sinks: seq<Sink>, nodes: seq<Node>)
    requires Stage(sinks, nodes, {RawFrame, Structure, StructureToProto, Proto, ProtoFrame})
    ensures SinksOk(sinks, nodes, 0)
  {
    forall i | 0 <= i < |nodes| && nodes[i].task.SinkTask?
      ensures false
    {
      assert HasSink(nodes, nodes[i].task.k);
    }
  }

  /** One more sink has its turn, attached or not. */
  lemma NextSink(sinks: seq<Sink>, c: Converters, nodes: seq<Node>, after: seq<Node>, n: nat)
    requires n < |sinks| && ConvertersOk(sinks, nodes, c) && SinksOk(sinks, nodes, n)
    requires after == AddSinkTask(nodes, n, LinkFor(c, sinks[n]))
    ensures SinksOk(sinks, after, n + 1)
  {
    LinkForSink(sinks, nodes, c, n);
    if LinkFor(c, sinks[n]).Some? {
      SinkStep(sinks, nodes, n, LinkFor(c, sinks[n]).value);
    } else {
      NoSinkStep(sinks, nodes, n);
    }
  }

  lemma {:induction false} AddSinksExtends(sinks: seq<Sink>, c: Converters, n: nat)
    requires n <= |sinks|
    ensures c.nodes <= AddSinks(sinks, c, n)
  {
    if n == 0 {
    } else {
      AddSinksExtends(sinks, c, n - 1);
    }
  }

  lemma ConvertersStayThroughout(sinks: seq<Sink>, c: Converters, n: nat)
    requires n <= |sinks| && ConvertersOk(sinks, c.nodes, c)
    ensures ConvertersOk(sinks, AddSinks(sinks, c, n), c)
  {
    AddSinksExtends(sinks, c, n);
    ConvertersStay(sinks, AddSinks(sinks, c, n), c);
  }

  lemma NextSinkAdded(sinks: seq<Sink>, c: Converters, n: nat)
    requires n < |sinks| && ConvertersOk(sinks, AddSinks(sinks, c, n), c) && SinksOk(sinks, AddSinks(sinks, c, n), n)
    ensures SinksOk(sinks, AddSinks(sinks, c, n + 1), n + 1)
  {
    var before, after := AddSinks(sinks, c, n), AddSinks(sinks, c, n + 1);
    assert after == AddSinkTask(before, n, LinkFor(c, sinks[n]));
    NextSink(sinks, c, before, after, n);
  }

  lemma {:induction false} SinksAdded(sinks: seq<Sink>, c: Converters, n: nat)
    requires n <= |sinks| && ConvertersOk(sinks, c.nodes, c) && SinksOk(sinks, c.nodes, 0)
    ensures SinksOk(sinks, AddSinks(sinks, c, n), n)
  {
    if n == 0 {
    } else {
      SinksAdded(sinks, c, n - 1);
      ConvertersStayThroughout(sinks, c, n - 1);
      NextSinkAdded(sinks, c, n - 1);
    }
  }

  lemma SinksWired(sinks: seq<Sink>)
    ensures SinksOk(sinks, Wired(sinks), |sinks|)
  {
    ConvertersWired(sinks);
    ConvertersDone(sinks, AddConverters(sinks).nodes);
    SinksAdded(sinks, AddConverters(sinks), |sinks|);
  }

  lemma NoSinkStep(sinks: seq<Sink>, nodes: seq<Node>, n: nat)
    requires n < |sinks| && SinksOk(sinks, nodes, n) && !Attached(sinks, n)
    ensures SinksOk(sinks, nodes, n + 1)
  {
  }

  lemma ConvertersStay(sinks: seq<Sink>, nodes: seq<Node>, c: Converters)
    requires ConvertersOk(sinks, c.nodes, c) && c.nodes <= nodes
    ensures ConvertersOk(sinks, nodes, c)
  {
  }

  // ----- what the wiring of any collection of sinks means

  /** A converter is created if and only if some sink depends on it; every task is preceded by the
      task that it reads, back to the raw data. */
  lemma WiringOk(sinks: seq<Sink>)
    ensures WellWired(Wired(sinks))
    ensures forall o :: HasConverter(Wired(sinks), o) <==> IsConverter(o) && Required(sinks, o)
  {
    SinksWired(sinks);
  }

  /** A sink's task is created if and only if it reads bytes, or some sink depends on the structs; and
      it reads the conversion that it is meant to get. */
  lemma SinkTasks(sinks: seq<Sink>, k: nat)
    requires k < |sinks|
    ensures HasSink(Wired(sinks), k) <==> Attached(sinks, k)
    ensures forall n :: 0 <= n < |Wired(sinks)| && Wired(sinks)[n].task == SinkTask(k) ==>
              Wired(sinks)[n].input == SourceFor(sinks[k])
  {
    SinksWired(sinks);
  }

  /** For the sinks that output names ask for, every sink has a task. */
  lemma NamedSinksHaveTasks(env: Environment, withChecker: bool, names: seq<string>)
    ensures var sinks := All(NamedSinks(env, withChecker, names));
            forall k :: 0 <= k < |sinks| ==> HasSink(Wired(sinks), k)
  {
    var sinks := All(NamedSinks(env, withChecker, names));
    NamesAreRouted(env, withChecker, names);
    forall k | 0 <= k < |sinks|
      ensures HasSink(Wired(sinks), k)
    {
      assert sinks[k] in sinks && Routed(sinks[k]);
      RequiredItself(sinks, k);
      SinkTasks(sinks, k);
    }
  }

  /** A struct sink that asks for raw data alone gets no task. */
  lemma StructSinkWithoutTask()
    ensures var sinks := [Sink("a.json", JsonFile, Raw)]; !HasSink(Wired(sinks), 0)
  {
    var sinks := [Sink("a.json", JsonFile, Raw)];
    ShippedAnswers(Structure, Raw);
    SinkTasks(sinks, 0);
  }

  // ----- the construction

  /** Builds the task flow of one line after the other; converters are shared by the lines. */
  class TaskDiagram {
    const sinks: Manager
    var created: set<ConvertOption>
    var nodes: seq<Node>          // of the line under construction
    var lines: seq<seq<Node>>

    constructor (sinks: Manager)
      ensures this.sinks == sinks && created == {} && nodes == [] && lines == []
    {
      this.sinks, created, nodes, lines := sinks, {}, [], [];
    }

    method EmplaceToTaskflow(task: TaskName, prev: Link) returns (n: nat)
      modifies this`nodes
      ensures n == |old(nodes)| && nodes == Emplaced(old(nodes), task, prev)
    {
      n := |nodes|;
      nodes := nodes + [Node(task, prev.source, prev.task)];
    }

    method CreateConverter(o: ConvertOption, prev: Option<Link>) returns (link: Option<Link>)
      modifies this`nodes, this`created
      ensures (nodes, link) == AddConverter(All(sinks.View()), old(nodes), o, prev)
      ensures created == if link.Some? then old(created) + {o} else old(created)
    {
      if prev.None? {
        return None;
      }
      var required := sinks.IsConvertRequired(o);
      if !required {
        return None;
      }
      created := created + {o};
      var n := EmplaceToTaskflow(ConverterTask(o), prev.value);
      return Some(Link(Converted(o), Some(n)));
    }

    method CreateSinkTask(k: nat, prev: Option<Link>)
      modifies this`nodes
      ensures nodes == AddSinkTask(old(nodes), k, prev)
    {
      if prev.Some? {
        var _ := EmplaceToTaskflow(SinkTask(k), prev.value);
      }
    }

    method ConstructConverters() returns (links: Converters)
      requires nodes == []
      modifies this`nodes, this`created
      ensures links == AddConverters(All(sinks.View())) && nodes == links.nodes
      ensures created == old(created) + Linked(links)
    {
      var rawFrame := CreateConverter(RawFrame, RAW_LINK);
      var structure := CreateConverter(Structure, RAW_LINK);
      var toProto := CreateConverter(StructureToProto, structure);
      var proto := CreateConverter(Proto, toProto);
      var protoFrame := CreateConverter(ProtoFrame, toProto);
      links := Converters(nodes, rawFrame, structure, toProto, proto, protoFrame);
    }

    method ConstructSinkTasks(links: Converters)
      requires nodes == links.nodes
      modifies this`nodes
      ensures nodes == AddSinks(All(sinks.View()), links, |All(sinks.View())|)
    {
      var all := All(sinks.View());
      for k := 0 to |all|
        invariant nodes == AddSinks(all, links, k)
      {
        CreateSinkTask(k, LinkFor(links, all[k]));
      }
    }

    method ConstructTaskflowLine()
      modifies this`nodes, this`created
      ensures nodes == Wired(All(sinks.View()))
      ensures forall o :: o in created <==> o in old(created) || HasConverter(nodes, o)
    {
      nodes := [];
      var links := ConstructConverters();
      ConstructSinkTasks(links);
      CreatedConverters(All(sinks.View()));
    }

    /** All lines are wired the same way, with exactly the converters that some sink depends on. */
    method ConstructTaskflow(nLines: nat)
      modifies this
      ensures |lines| == nLines && forall l :: 0 <= l < nLines ==> lines[l] == Wired(All(sinks.View()))
      ensures nLines > 0 ==> forall o :: o in created <==> IsConverter(o) && Required(All(sinks.View()), o)
    {
      created, lines := {}, [];
      WiringOk(All(sinks.View()));
      for l := 0 to nLines
        invariant |lines| == l && forall k :: 0 <= k < l ==> lines[k] == Wired(All(sinks.View()))
        invariant forall o :: o in created <==> l > 0 && IsConverter(o) && Required(All(sinks.View()), o)
      {
        ConstructTaskflowLine();
        lines := lines + [nodes];
      }
    }
  }

  lemma ConverterKinds()
    ensures forall o :: IsConverter(o) <==>
              o.RawFrame? || o.Structure? || o.StructureToProto? || o.Proto? || o.ProtoFrame?
  {
  }

  function LinkedOne(link: Option<Link>, o: ConvertOption): set<ConvertOption> {
    if link.Some? then {o} else {}
  }

  /** The converters that were given a task. */
  function Linked(c: Converters): set<ConvertOption> {
    LinkedOne(c.rawFrame, RawFrame) + LinkedOne(c.structure, Structure) + LinkedOne(c.toProto, StructureToProto)
    + LinkedOne(c.proto, Proto) + LinkedOne(c.protoFrame, ProtoFrame)
  }

  /** A converter has a link exactly if it has a task, in any wiring of the sinks. */
  lemma CreatedConverters(sinks: seq<Sink>)
    ensures forall o :: o in Linked(AddConverters(sinks)) <==> HasConverter(Wired(sinks), o)
  {
    WiringOk(sinks);
    ConvertersWired(sinks);
    ConverterKinds();
    LinkedKinds(AddConverters(sinks));
  }

  lemma LinkedKinds(c: Converters)
    ensures forall o :: o in Linked(c) <==>
              || (o.RawFrame? && c.rawFrame.Some?) || (o.Structure? && c.structure.Some?)
              || (o.StructureToProto? && c.toProto.Some?) || (o.Proto? && c.proto.Some?)
              || (o.ProtoFrame? && c.protoFrame.Some?)
  {
  }
}
