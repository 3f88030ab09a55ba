/** The sinks that the output names ask for, and the conversions that they require. */
module SinkManager {
  import opened Common
  import opened ConvertGraph

  datatype SinkKind = BinaryFile | UdpSocket | JsonFile | RootFile | Checker

  datatype Sink = Sink(name: string, kind: SinkKind, required: ConvertOption)

  predicate IsStructType(kind: SinkKind) {
    kind.JsonFile? || kind.RootFile?
  }

  // ----- output names

  /** The part behind the last occurrence of `c`, or everything. */
  function AfterLast(s: string, c: char): string {
    if s == [] then [] else if s[|s| - 1] == c then [] else
      AfterLast(s[..|s| - 1], c) + [s[|s| - 1]]
  }

  /** `std::filesystem::path::extension`. */
  function Extension(name: string): string {
    var file := AfterLast(name, '/');
    var ending := AfterLast(file, '.');
    if file == ".." || |ending| + 1 >= |file| then "" else "." + ending
  }

  /** What an output name stands for: a socket if it has a colon, otherwise by extension; `None` if unknown. */
  function FileTypeOf(name: string): Option<(SinkKind, ConvertOption)> {
    if ':' in name then Some((UdpSocket, if '?' in name then Raw else Proto))
    else
      var ext := Extension(name);
      if ext == ".bin" || ext == ".lmd" then Some((BinaryFile, RawFrame))
      else if ext == ".binpb" then Some((BinaryFile, ProtoFrame))
      else if ext == ".root" then Some((RootFile, Structure))
      else if ext == ".json" then Some((JsonFile, Structure))
      else None
  }

  /** What cannot be computed here: whether the program has ROOT, and which addresses resolve. */
  datatype Environment = Environment(hasRoot: bool, resolves: string -> bool)

  /** The sink that a name asks for, if there is one and it can be opened. */
  function SinkFor(env: Environment, name: string): Option<Sink> {
    if name == "" || FileTypeOf(name).None? then None
    else
      var (kind, conversion) := FileTypeOf(name).value;
      if (kind.RootFile? && !env.hasRoot) || (kind.UdpSocket? && !env.resolves(name)) then None
      else Some(Sink(name, kind, conversion))
  }

  predicate HasName(sinks: seq<Sink>, name: string) {
    exists k :: 0 <= k < |sinks| && sinks[k].name == name
  }

  /** The order of the map keys. */
  predicate Less(a: string, b: string) {
    b != [] && (a == [] || a[0] < b[0] || (a[0] == b[0] && Less(a[1..], b[1..])))
  }

  lemma {:induction false} LessIrreflexive(a: string)
    ensures !Less(a, a)
  {
    if a == [] {
    } else {
      LessIrreflexive(a[1..]);
    }
  }

  lemma {:induction false} LessTransitive(a: string, b: string, c: string)
    requires Less(a, b) && Less(b, c)
    ensures Less(a, c)
  {
    if a == [] {
    } else if a[0] == b[0] && b[0] == c[0] {
      LessTransitive(a[1..], b[1..], c[1..]);
    }
  }

  lemma {:induction false} LessTotal(a: string, b: string)
    ensures a == b || Less(a, b) || Less(b, a)
  {
    if a == [] || b == [] {
    } else if a[0] == b[0] {
      LessTotal(a[1..], b[1..]);
      assert a == [a[0]] + a[1..] && b == [b[0]] + b[1..];
    }
  }

  /** How many sinks come before a name. */
  function Position(sinks: seq<Sink>, name: string): (p: nat)
    ensures p <= |sinks|
    ensures forall k :: 0 <= k < p ==> Less(sinks[k].name, name)
    ensures p < |sinks| ==> !Less(sinks[p].name, name)
  {
    if sinks == [] || !Less(sinks[0].name, name) then 0 else 1 + Position(sinks[1..], name)
  }

  function InsertAt(sinks: seq<Sink>, p: nat, sink: Sink): (r: seq<Sink>)
    requires p <= |sinks|
    ensures |r| == |sinks| + 1
    ensures forall k :: 0 <= k < |r| ==> r[k] == if k < p then sinks[k] else if k == p then sink else sinks[k - 1]
  {
    sinks[..p] + [sink] + sinks[p..]
  }

  /** `try_emplace`: a name that is already there is left alone, and a new one goes where its key belongs. */
  function TryEmplace(sinks: seq<Sink>, sink: Sink): seq<Sink> {
    if HasName(sinks, sink.name) then sinks else InsertAt(sinks, Position(sinks, sink.name), sink)
  }

  /** In the order of the keys, so each name once. */
  predicate SortedNames(sinks: seq<Sink>) {
    forall j, k :: 0 <= j < k < |sinks| ==> Less(sinks[j].name, sinks[k].name)
  }

  lemma BehindPosition(sinks: seq<Sink>, name: string, k: nat)
    requires SortedNames(sinks) && !HasName(sinks, name) && Position(sinks, name) <= k < |sinks|
    ensures Less(name, sinks[k].name)
  {
    var p := Position(sinks, name);
    LessTotal(sinks[p].name, name);
    if p < k {
      LessTransitive(name, sinks[p].name, sinks[k].name);
    }
  }

  lemma InsertedIsSorted(sinks: seq<Sink>, sink: Sink)
    requires SortedNames(sinks) && !HasName(sinks, sink.name)
    ensures SortedNames(InsertAt(sinks, Position(sinks, sink.name), sink))
  {
    var p := Position(sinks, sink.name);
    var r := InsertAt(sinks, p, sink);
    forall k | p <= k < |sinks|
      ensures Less(sink.name, sinks[k].name)
    {
      BehindPosition(sinks, sink.name, k);
    }
    forall j, k | 0 <= j < k < |r|
      ensures Less(r[j].name, r[k].name)
    {
    }
  }

  lemma TryEmplaceIsSorted(sinks: seq<Sink>, sink: Sink)
    requires SortedNames(sinks)
    ensures SortedNames(TryEmplace(sinks, sink))
  {
    if !HasName(sinks, sink.name) {
      InsertedIsSorted(sinks, sink);
    }
  }

  lemma TryEmplaceMembers(sinks: seq<Sink>, sink: Sink)
    ensures forall x :: x in TryEmplace(sinks, sink) <==> x in sinks || (x == sink && !HasName(sinks, sink.name))
  {
    if !HasName(sinks, sink.name) {
      var p := Position(sinks, sink.name);
      assert sinks == sinks[..p] + sinks[p..];
      assert TryEmplace(sinks, sink) == sinks[..p] + [sink] + sinks[p..];
    }
  }

  datatype Sinks = Sinks(binary: seq<Sink>, udp: seq<Sink>, json: seq<Sink>, root: seq<Sink>, checker: seq<Sink>)

  const CHECKER := Sink("FrameCountChecker", Checker, Raw)

  const NO_SINKS := Sinks([], [], [], [], [])

  /** The order of `do_for_each_sink`. */
  function All(s: Sinks): seq<Sink> {
    s.binary + s.udp + s.json + s.checker + s.root
  }

  function AddSink(s: Sinks, sink: Sink): Sinks {
    match sink.kind
    case BinaryFile => s.(binary := TryEmplace(s.binary, sink))
    case UdpSocket => s.(udp := TryEmplace(s.udp, sink))
    case JsonFile => s.(json := TryEmplace(s.json, sink))
    case RootFile => s.(root := TryEmplace(s.root, sink))
    case Checker => s
  }

  function AddName(sinkFor: string -> Option<Sink>, s: Sinks, name: string): Sinks {
    match sinkFor(name)
    case Some(sink) => AddSink(s, sink)
    case None => s
  }

  /** Adds the sink of each name in turn; `sinkFor` says which sink a name asks for. */
  function AddNames(sinkFor: string -> Option<Sink>, s: Sinks, names: seq<string>): Sinks {
    if names == [] then s else AddName(sinkFor, AddNames(sinkFor, s, names[..|names| - 1]), names[|names| - 1])
  }

  /** The sinks that the names ask for, repeated names included. */
  function AskedFor(sinkFor: string -> Option<Sink>, names: seq<string>): seq<Sink> {
    if names == [] then [] else AskedFor(sinkFor, names[..|names| - 1]) + Asked(sinkFor, names[|names| - 1])
  }

  function Asked(sinkFor: string -> Option<Sink>, name: string): seq<Sink> {
    match sinkFor(name)
    case Some(sink) => [sink]
    case None => []
  }

  /** How often `x` occurs. */
  function Times<T(==)>(s: seq<T>, x: T): nat {
    if s == [] then 0 else Times(s[..|s| - 1], x) + (if s[|s| - 1] == x then 1 else 0)
  }

  lemma TimesPush<T>(s: seq<T>, y: T, x: T)
    ensures Times(s + [y], x) == Times(s, x) + (if y == x then 1 else 0)
  {
    assert (s + [y])[..|s + [y]| - 1] == s;
  }

  /** A name that is given several times asks for its sink as often. */
  lemma {:induction false} AskedForAsOftenAsNamed(sinkFor: string -> Option<Sink>, names: seq<string>, name: string)
    requires KeepsNames(sinkFor) && sinkFor(name).Some?
    ensures Times(AskedFor(sinkFor, names), sinkFor(name).value) == Times(names, name)
  {
    if names == [] {
    } else {
      var front, last := names[..|names| - 1], names[|names| - 1];
      AskedForAsOftenAsNamed(sinkFor, front, name);
      match sinkFor(last) {
        case Some(sink) =>
          assert sink.name == last && sinkFor(name).value.name == name;
          TimesPush(AskedFor(sinkFor, front), sink, sinkFor(name).value);
        case None =>
          assert AskedFor(sinkFor, names) == AskedFor(sinkFor, front);
      }
    }
  }

  lemma NamesPush(sinkFor: string -> Option<Sink>, s: Sinks, names: seq<string>, n: nat)
    requires n < |names|
    ensures AddNames(sinkFor, s, names[..n + 1]) == AddName(sinkFor, AddNames(sinkFor, s, names[..n]), names[n])
    ensures AskedFor(sinkFor, names[..n + 1]) == AskedFor(sinkFor, names[..n]) + Asked(sinkFor, names[n])
  {
    assert names[..n + 1][..n] == names[..n];
  }

  function Resolver(env: Environment): string -> Option<Sink> {
    name => SinkFor(env, name)
  }

  function NamedSinks(env: Environment, withChecker: bool, names: seq<string>): Sinks {
    AddNames(Resolver(env), NO_SINKS.(checker := if withChecker then [CHECKER] else []), names)
  }

  function ListOf(s: Sinks, kind: SinkKind): seq<Sink> {
    match kind
    case BinaryFile => s.binary
    case UdpSocket => s.udp
    case JsonFile => s.json
    case RootFile => s.root
    case Checker => s.checker
  }

  ghost predicate KeepsNames(sinkFor: string -> Option<Sink>) {
    forall name :: sinkFor(name).Some? ==> sinkFor(name).value.name == name
  }

  /** Every sink in the list is one of its kind that some name asks for. */
  ghost predicate OnlyAsked(sinkFor: string -> Option<Sink>, list: seq<Sink>, kind: SinkKind, names: seq<string>) {
    forall sink :: sink in list ==> sink.kind == kind && sink.name in names && sinkFor(sink.name) == Some(sink)
  }

  predicate Asks(sinkFor: string -> Option<Sink>, name: string, kind: SinkKind) {
    sinkFor(name).Some? && sinkFor(name).value.kind == kind
  }

  ghost predicate AllAsked(sinkFor: string -> Option<Sink>, list: seq<Sink>, kind: SinkKind, names: seq<string>) {
    forall name :: name in names && Asks(sinkFor, name, kind) ==> sinkFor(name).value in list
  }

  /** The list holds exactly the sinks of one kind that the names ask for, each once and in key order. */
  ghost predicate Each(sinkFor: string -> Option<Sink>, list: seq<Sink>, kind: SinkKind, names: seq<string>) {
    OnlyAsked(sinkFor, list, kind, names) && AllAsked(sinkFor, list, kind, names) && SortedNames(list)
  }

  lemma NamePush(names: seq<string>, name: string)
    ensures forall x :: x in names + [name] <==> x in names || x == name
  {
  }

  lemma EmplacedIsAsked(sinkFor: string -> Option<Sink>, list: seq<Sink>, names: seq<string>, name: string)
    requires KeepsNames(sinkFor) && sinkFor(name).Some?
    requires Each(sinkFor, list, sinkFor(name).value.kind, names)
    ensures Each(sinkFor, TryEmplace(list, sinkFor(name).value), sinkFor(name).value.kind, names + [name])
  {
    var sink := sinkFor(name).value;
    NamePush(names, name);
    TryEmplaceMembers(list, sink);
    TryEmplaceIsSorted(list, sink);
    if HasName(list, name) {
      var k :| 0 <= k < |list| && list[k].name == name;
      assert list[k] in list && list[k] == sink;
    }
  }

  lemma EachOneMore(sinkFor: string -> Option<Sink>, list: seq<Sink>, kind: SinkKind, names: seq<string>, name: string)
    requires KeepsNames(sinkFor) && Each(sinkFor, list, kind, names)
    ensures Each(sinkFor, if Asks(sinkFor, name, kind) then TryEmplace(list, sinkFor(name).value) else list, kind,
                 names + [name])
  {
    if Asks(sinkFor, name, kind) {
      EmplacedIsAsked(sinkFor, list, names, name);
    } else {
      NamePush(names, name);
    }
  }

  lemma ListOneMore(sinkFor: string -> Option<Sink>, s: Sinks, name: string, kind: SinkKind)
    requires kind != Checker
    ensures var s' := AddName(sinkFor, s, name);
            && ListOf(s', kind) == (if Asks(sinkFor, name, kind) then TryEmplace(ListOf(s, kind), sinkFor(name).value)
                                    else ListOf(s, kind))
            && s'.checker == s.checker
  {
  }

  /** Each kind's sinks are exactly the ones that the names ask for. */
  lemma {:induction false} EachNames(sinkFor: string -> Option<Sink>, s: Sinks, names: seq<string>, kind: SinkKind)
    requires KeepsNames(sinkFor) && kind != Checker && ListOf(s, kind) == []
    ensures Each(sinkFor, ListOf(AddNames(sinkFor, s, names), kind), kind, names)
    ensures AddNames(sinkFor, s, names).checker == s.checker
  {
    if names == [] {
    } else {
      var front, last := names[..|names| - 1], names[|names| - 1];
      EachNames(sinkFor, s, front, kind);
      EachOneMore(sinkFor, ListOf(AddNames(sinkFor, s, front), kind), kind, front, last);
      ListOneMore(sinkFor, AddNames(sinkFor, s, front), last, kind);
      assert names == front + [last];
    }
  }

  /** A sink that reads structs needs the structs, and any other one a conversion that delivers bytes. */
  predicate Routed(sink: Sink) {
    if IsStructType(sink.kind) then sink.required == Structure
    else sink.required.Raw? || sink.required.RawFrame? || sink.required.Proto? || sink.required.ProtoFrame?
  }

  lemma FileTypeIsRouted(name: string)
    ensures FileTypeOf(name).Some? ==> Routed(Sink(name, FileTypeOf(name).value.0, FileTypeOf(name).value.1))
  {
  }

  lemma SinkForIsRouted(env: Environment, name: string)
    ensures SinkFor(env, name).Some? ==> Routed(SinkFor(env, name).value)
  {
    FileTypeIsRouted(name);
  }

  lemma EachIsRouted(env: Environment, list: seq<Sink>, kind: SinkKind, names: seq<string>)
    requires Each(Resolver(env), list, kind, names)
    ensures forall sink :: sink in list ==> Routed(sink)
  {
    forall sink | sink in list
      ensures Routed(sink)
    {
      SinkForIsRouted(env, sink.name);
    }
  }

  lemma ResolverKeepsNames(env: Environment)
    ensures KeepsNames(Resolver(env))
  {
  }

  /** Every sink that an output name asks for is routed, and so is the frame counter check. */
  lemma NamesAreRouted(env: Environment, withChecker: bool, names: seq<string>)
    ensures forall sink :: sink in All(NamedSinks(env, withChecker, names)) ==> Routed(sink)
  {
    var empty := NO_SINKS.(checker := if withChecker then [CHECKER] else []);
    var s := AddNames(Resolver(env), empty, names);
    ResolverKeepsNames(env);
    forall kind: SinkKind | kind != Checker
      ensures forall sink :: sink in ListOf(s, kind) ==> Routed(sink)
    {
      EachNames(Resolver(env), empty, names, kind);
      EachIsRouted(env, ListOf(s, kind), kind, names);
    }
    EachNames(Resolver(env), empty, names, BinaryFile);
    forall sink | sink in All(s)
      ensures Routed(sink)
    {
      assert sink in ListOf(s, BinaryFile) || sink in ListOf(s, UdpSocket) || sink in ListOf(s, JsonFile)
             || sink in ListOf(s, RootFile) || sink in empty.checker;
    }
  }

  // ----- conversions that the sinks require

  /** Some sink depends on the conversion. */
  predicate Required(sinks: seq<Sink>, o: ConvertOption) {
    exists k :: 0 <= k < |sinks| && Depends(o, sinks[k].required)
  }

  /** The order in which the sinks are visited, by position: files, sockets, JSON, the check, ROOT. */
  lemma VisitingOrder(s: Sinks)
    ensures var (b, u, j, c) := (|s.binary|, |s.udp|, |s.json|, |s.checker|);
            && |All(s)| == b + u + j + c + |s.root|
            && (forall k :: 0 <= k < b ==> All(s)[k] == s.binary[k])
            && (forall k :: 0 <= k < u ==> All(s)[b + k] == s.udp[k])
            && (forall k :: 0 <= k < j ==> All(s)[b + u + k] == s.json[k])
            && (forall k :: 0 <= k < c ==> All(s)[b + u + j + k] == s.checker[k])
            && (forall k :: 0 <= k < |s.root| ==> All(s)[b + u + j + c + k] == s.root[k])
  {
  }

  /** Sinks of every kind are visited, and nothing else. */
  lemma AllKinds(s: Sinks, x: Sink)
    ensures x in All(s) <==> x in s.binary || x in s.udp || x in s.json || x in s.root || x in s.checker
  {
  }

  /** A conversion is required exactly if a sink of some kind depends on it. */
  lemma RequiredBySome(s: Sinks, o: ConvertOption)
    ensures Required(All(s), o)
       <==> exists x :: (x in s.binary || x in s.udp || x in s.json || x in s.root || x in s.checker)
                        && Depends(o, x.required)
  {
    if k :| 0 <= k < |All(s)| && Depends(o, All(s)[k].required) {
      AllKinds(s, All(s)[k]);
      assert All(s)[k] in All(s);
    }
    if x :| (x in s.binary || x in s.udp || x in s.json || x in s.root || x in s.checker) && Depends(o, x.required) {
      AllKinds(s, x);
      var k :| 0 <= k < |All(s)| && All(s)[k] == x;
      assert Depends(o, All(s)[k].required);
    }
  }

  const OPTIONS: seq<ConvertOption> := [NoConversion, Raw, RawFrame, Structure, StructureToProto, Proto, ProtoFrame]

  lemma AllOptions(o: ConvertOption)
    ensures o in OPTIONS
  {
    var n := match o
      case NoConversion => 0
      case Raw => 1
      case RawFrame => 2
      case Structure => 3
      case StructureToProto => 4
      case Proto => 5
      case ProtoFrame => 6;
    assert OPTIONS[n] == o;
  }

  class Manager {
    const env: Environment
    var binary: seq<Sink>
    var udp: seq<Sink>
    var json: seq<Sink>
    var root: seq<Sink>
    var checker: seq<Sink>
    var constructed: seq<Sink>   // every writer that was constructed, in order

    function View(): Sinks
      reads this
    {
      Sinks(binary, udp, json, root, checker)
    }

    constructor (env: Environment)
      ensures this.env == env && View() == NO_SINKS && constructed == []
    {
      this.env := env;
      binary, udp, json, root, checker, constructed := [], [], [], [], [], [];
    }

    method EnableFrameCountChecker()
      modifies this`checker
      ensures View() == old(View()).(checker := if old(checker) == [] then [CHECKER] else old(checker))
    {
      if checker == [] {
        checker := [CHECKER];
      }
    }

    /** Constructs the writer, which opens and truncates its file, and drops it again if the name is taken. */
    method AddFile(sink: Sink) returns (ok: bool)
      requires sink.kind != Checker
      modifies this
      ensures View() == AddSink(old(View()), sink) && constructed == old(constructed) + [sink]
      ensures ok <==> !HasName(ListOf(old(View()), sink.kind), sink.name)
    {
      constructed := constructed + [sink];
      var list := ListOf(View(), sink.kind);
      ok := !HasName(list, sink.name);
      if ok {
        var p := Position(list, sink.name);
        list := list[..p] + [sink] + list[p..];
        match sink.kind {
          case BinaryFile => binary := list;
          case UdpSocket => udp := list;
          case JsonFile => json := list;
          case RootFile => root := list;
        }
      }
    }

    method AddOutput(name: string)
      modifies this
      ensures View() == AddName(Resolver(env), old(View()), name)
      ensures constructed == old(constructed) + Asked(Resolver(env), name)
    {
      var sink := SinkFor(env, name);
      if sink.Some? {
        var _ := AddFile(sink.value);
      }
    }

    method SetOutputFilenames(names: seq<string>)
      modifies this
      ensures View() == AddNames(Resolver(env), old(View()), names)
      ensures constructed == old(constructed) + AskedFor(Resolver(env), names)
    {
      for n := 0 to |names|
        invariant View() == AddNames(Resolver(env), old(View()), names[..n])
        invariant constructed == old(constructed) + AskedFor(Resolver(env), names[..n])
      {
        AddOutput(names[n]);
        NamesPush(Resolver(env), old(View()), names, n);
      }
      assert names[..|names|] == names;
    }

    /** Accumulates over all sinks. */
    method IsConvertRequired(dependee: ConvertOption) returns (r: bool)
      ensures r <==> Required(All(View()), dependee)
      ensures r <==> exists x :: (x in binary || x in udp || x in json || x in root || x in checker)
                                 && Depends(dependee, x.required)
    {
      var sinks := All(View());
      RequiredBySome(View(), dependee);
      r := false;
      for k := 0 to |sinks|
        invariant r <==> Required(sinks[..k], dependee)
      {
        assert sinks[..k + 1] == sinks[..k] + [sinks[k]];
        RequiredPush(sinks[..k], sinks[k], dependee);
        r := r || Depends(dependee, sinks[k].required);
      }
      assert sinks[..|sinks|] == sinks;
    }

    /** One entry per option; without any sink the option `none` stands in. */
    method GenerateConversionReqMap() returns (m: map<ConvertOption, bool>)
      ensures forall o :: o in m
      ensures forall o :: m[o] <==> Required(All(View()), o) || (o == NoConversion && All(View()) == [])
      ensures forall o :: m[o] <==>
                || (exists x :: (x in binary || x in udp || x in json || x in root || x in checker)
                                && Depends(o, x.required))
                || (o == NoConversion && binary == [] && udp == [] && json == [] && root == [] && checker == [])
    {
      m := map[];
      var any := false;
      for n := 0 to |OPTIONS|
        invariant forall o :: o in m <==> o in OPTIONS[..n]
        invariant forall o :: o in m ==> (m[o] <==> Required(All(View()), o))
        invariant any <==> exists o :: o in m && m[o]
      {
        var required := IsConvertRequired(OPTIONS[n]);
        m := m[OPTIONS[n] := required];
        any := any || required;
        assert required ==> m[OPTIONS[n]];
        assert OPTIONS[..n + 1] == OPTIONS[..n] + [OPTIONS[n]];
      }
      assert OPTIONS[..|OPTIONS|] == OPTIONS;
      forall o
        ensures o in m
      {
        AllOptions(o);
      }
      SomethingRequired(All(View()));
      if !any {
        m := m[NoConversion := true];
      }
      forall o
        ensures Required(All(View()), o) <==>
                  exists x :: (x in binary || x in udp || x in json || x in root || x in checker)
                              && Depends(o, x.required)
      {
        RequiredBySome(View(), o);
      }
    }
  }

  lemma RequiredPush(sinks: seq<Sink>, sink: Sink, o: ConvertOption)
    ensures Required(sinks + [sink], o) <==> Required(sinks, o) || Depends(o, sink.required)
  {
    if Depends(o, sink.required) {
      assert (sinks + [sink])[|sinks|] == sink;
    }
    if k :| 0 <= k < |sinks| && Depends(o, sinks[k].required) {
      assert (sinks + [sink])[k] == sinks[k];
    }
  }

  /** Some conversion is required exactly when there is a sink. */
  lemma SomethingRequired(sinks: seq<Sink>)
    ensures (exists o :: Required(sinks, o)) <==> sinks != []
  {
    if sinks != [] {
      var o := sinks[0].required;
      ShippedAnswers(o, o);
      assert Depends(o, sinks[0].required);
      assert Required(sinks, o);
    }
  }
}
