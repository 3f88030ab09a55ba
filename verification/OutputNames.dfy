/** What becomes of an output name: the sink it asks for, its task on every line, and what the sink receives. */
module OutputNames {
  import opened Common
  import opened Seqs
  import opened ConvertGraph
  import opened SinkManager
  import opened TaskGraph
  import opened TaskLines
  import opened FrameFormat
  import opened SrsData
  import opened DelimFile

  // ----- names and sinks

  lemma {:induction false} AfterLastAppend(a: string, b: string, c: char)
    requires c !in b
    ensures AfterLast(a + b, c) == AfterLast(a, c) + b
  {
    if b == [] {
      assert a + b == a;
    } else {
      var front, last := b[..|b| - 1], b[|b| - 1];
      AfterLastAppend(a, front, c);
      assert (a + b)[..|a + b| - 1] == a + front && (a + b)[|a + b| - 1] == last;
      assert last != c;
    }
  }

  /** What is behind the last `c` has none, and is everything or follows one. */
  lemma {:induction false} AfterLastIs(s: string, c: char) returns (front: string)
    ensures s == front + AfterLast(s, c) && c !in AfterLast(s, c)
    ensures front == "" || front[|front| - 1] == c
  {
    if s == [] || s[|s| - 1] == c {
      front := s;
    } else {
      var last := s[|s| - 1];
      front := AfterLastIs(s[..|s| - 1], c);
      assert s == s[..|s| - 1] + [last];
    }
  }

  /** A file name with a stem has its last part as the extension. */
  lemma ExtensionOf(stem: string, ending: string)
    requires stem != "" && stem[|stem| - 1] != '/' && '/' !in ending && '.' !in ending && ending != ""
    ensures Extension(stem + "." + ending) == "." + ending
  {
    var name := stem + "." + ending;
    var file := AfterLast(stem, '/') + ("." + ending);
    AfterLastAppend(stem, "." + ending, '/');
    assert name == stem + ("." + ending);
    assert AfterLast(name, '/') == file;
    var front := AfterLast(stem, '/') + ".";
    AfterLastAppend(front, ending, '.');
    assert file == front + ending && AfterLast(front, '.') == "";
    assert AfterLast(file, '.') == ending;
    assert |AfterLast(stem, '/')| > 0;
    assert file != ".." by {
      assert file[|file| - 1] == ending[|ending| - 1];
    }
  }

  lemma Regroup(a: string, b: string, c: string, d: string)
    ensures a + ((b + c) + d) == (a + b) + (c + d)
  {
  }

  lemma CharOfFront(front: string, ending: string, n: nat, c: char)
    requires n < |front| && c !in front + ending
    ensures front[n] != c
  {
    assert (front + ending)[n] == front[n];
  }

  lemma StemInParts(directory: string, base: string, ending: string)
    requires base != "" && '/' !in base + "." + ending
    ensures var stem := directory + base;
            && stem != "" && stem[|stem| - 1] != '/'
            && directory + (base + "." + ending) == stem + ("." + ending)
  {
    Regroup(directory, base, ".", ending);
    CharOfFront(base + ".", ending, |base| - 1, '/');
  }

  lemma ExtensionParts(name: string)
    requires Extension(name) != ""
    ensures var file := AfterLast(name, '/');
            Extension(name) == "." + AfterLast(file, '.') && |AfterLast(file, '.')| + 1 < |file|
  {
  }

  lemma DotFront(front: string)
    requires |front| > 1 && front[|front| - 1] == '.'
    ensures front[..|front| - 1] != "" && front == front[..|front| - 1] + "."
  {
  }

  /** An extension comes behind a stem. */
  lemma StemOf(name: string) returns (stem: string)
    requires Extension(name) != ""
    ensures stem != "" && stem[|stem| - 1] != '/' && name == stem + Extension(name)
  {
    ExtensionParts(name);
    var directory := AfterLastIs(name, '/');
    var front := AfterLastIs(AfterLast(name, '/'), '.');
    DotFront(front);
    StemInParts(directory, front[..|front| - 1], AfterLast(AfterLast(name, '/'), '.'));
    stem := directory + front[..|front| - 1];
  }

  lemma NamedWith(stem: string, ending: string, name: string)
    requires stem != "" && stem[|stem| - 1] != '/' && ':' !in stem && ':' !in ending
    requires '/' !in ending && '.' !in ending && ending != "" && name == stem + "." + ending
    ensures ':' !in name && Extension(name) == "." + ending
  {
    ExtensionOf(stem, ending);
  }

  lemma FilesByEnding(stem: string)
    requires stem != "" && stem[|stem| - 1] != '/' && ':' !in stem
    ensures FileTypeOf(stem + ".bin") == Some((BinaryFile, RawFrame))
    ensures FileTypeOf(stem + ".lmd") == Some((BinaryFile, RawFrame))
  {
    NamedWith(stem, "bin", stem + ".bin");
    NamedWith(stem, "lmd", stem + ".lmd");
  }

  lemma MessagesByEnding(stem: string)
    requires stem != "" && stem[|stem| - 1] != '/' && ':' !in stem
    ensures FileTypeOf(stem + ".binpb") == Some((BinaryFile, ProtoFrame))
  {
    NamedWith(stem, "binpb", stem + ".binpb");
  }

  lemma RootByEnding(stem: string)
    requires stem != "" && stem[|stem| - 1] != '/' && ':' !in stem
    ensures FileTypeOf(stem + ".root") == Some((RootFile, Structure))
  {
    NamedWith(stem, "root", stem + ".root");
  }

  lemma JsonByEnding(stem: string)
    requires stem != "" && stem[|stem| - 1] != '/' && ':' !in stem
    ensures FileTypeOf(stem + ".json") == Some((JsonFile, Structure))
  {
    NamedWith(stem, "json", stem + ".json");
  }

  /** The table of extensions: the stem is what comes before, and is not empty or a directory. */
  lemma NamesByEnding(stem: string)
    requires stem != "" && stem[|stem| - 1] != '/' && ':' !in stem
    ensures FileTypeOf(stem + ".bin") == Some((BinaryFile, RawFrame))
    ensures FileTypeOf(stem + ".lmd") == Some((BinaryFile, RawFrame))
    ensures FileTypeOf(stem + ".binpb") == Some((BinaryFile, ProtoFrame))
    ensures FileTypeOf(stem + ".root") == Some((RootFile, Structure))
    ensures FileTypeOf(stem + ".json") == Some((JsonFile, Structure))
  {
    FilesByEnding(stem);
    MessagesByEnding(stem);
    RootByEnding(stem);
    JsonByEnding(stem);
  }

  /** A colon makes a socket of any name, and a question mark decides between raw data and messages. */
  lemma NamesWithColon(name: string)
    requires ':' in name
    ensures '?' in name ==> FileTypeOf(name) == Some((UdpSocket, Raw))
    ensures '?' !in name ==> FileTypeOf(name) == Some((UdpSocket, Proto))
  {
  }

  lemma OtherExtension(name: string, stem: string)
    requires ':' !in name && name == stem + Extension(name)
    requires name != stem + ".bin" && name != stem + ".lmd" && name != stem + ".binpb"
    requires name != stem + ".root" && name != stem + ".json"
    ensures FileTypeOf(name) == None
  {
  }

  /** No other name stands for anything. */
  lemma NoOtherNames(name: string)
    requires ':' !in name
    requires forall stem: string :: stem != "" && stem[|stem| - 1] != '/' ==>
               && name != stem + ".bin" && name != stem + ".lmd" && name != stem + ".binpb"
               && name != stem + ".root" && name != stem + ".json"
    ensures FileTypeOf(name) == None
  {
    if Extension(name) != "" {
      var stem := StemOf(name);
      OtherExtension(name, stem);
    }
  }

  /** Which sink a name asks for: its own, unless ROOT is missing or the address does not resolve. */
  lemma SinkAskedFor(env: Environment, name: string, kind: SinkKind, conversion: ConvertOption)
    requires FileTypeOf(name) == Some((kind, conversion)) && name != ""
    ensures SinkFor(env, name)
         == if (kind == RootFile && !env.hasRoot) || (kind == UdpSocket && !env.resolves(name)) then None
            else Some(Sink(name, kind, conversion))
  {
  }

  lemma NothingAskedFor(env: Environment, name: string)
    requires name == "" || FileTypeOf(name) == None
    ensures SinkFor(env, name) == None
  {
  }

  // ----- the sinks of a list of names

  /** What is kept for a list of names: for each name its sink, in the collection of its kind, and nothing else. */
  lemma NamedAreKept(env: Environment, withChecker: bool, names: seq<string>, x: Sink)
    requires SinkFor(env, x.name) == Some(x) && x.name in names
    ensures var s := NamedSinks(env, withChecker, names);
            && (x.kind == BinaryFile ==> x in s.binary) && (x.kind == UdpSocket ==> x in s.udp)
            && (x.kind == JsonFile ==> x in s.json) && (x.kind == RootFile ==> x in s.root)
  {
    SinkKinds(env, x.name);
    KindIsKept(env, withChecker, names, x.kind);
    assert Asks(Resolver(env), x.name, x.kind);
  }

  lemma SinkKinds(env: Environment, name: string)
    ensures SinkFor(env, name).Some? ==>
              SinkFor(env, name).value.name == name && SinkFor(env, name).value.kind != Checker
  {
  }

  lemma KindIsKept(env: Environment, withChecker: bool, names: seq<string>, kind: SinkKind)
    requires kind != Checker
    ensures Each(Resolver(env), ListOf(NamedSinks(env, withChecker, names), kind), kind, names)
    ensures NamedSinks(env, withChecker, names).checker == if withChecker then [CHECKER] else []
  {
    ResolverKeepsNames(env);
    EachNames(Resolver(env), NO_SINKS.(checker := if withChecker then [CHECKER] else []), names, kind);
  }

  lemma OnlyNamedAreKept(env: Environment, withChecker: bool, names: seq<string>, x: Sink)
    ensures var s := NamedSinks(env, withChecker, names);
            && (x in s.binary ==> x.kind == BinaryFile) && (x in s.udp ==> x.kind == UdpSocket)
            && (x in s.json ==> x.kind == JsonFile) && (x in s.root ==> x.kind == RootFile)
            && (x in s.binary || x in s.udp || x in s.json || x in s.root ==>
                  x.name in names && SinkFor(env, x.name) == Some(x))
            && s.checker == if withChecker then [Sink("FrameCountChecker", Checker, Raw)] else []
  {
    KindIsKept(env, withChecker, names, BinaryFile);
    KindIsKept(env, withChecker, names, UdpSocket);
    KindIsKept(env, withChecker, names, JsonFile);
    KindIsKept(env, withChecker, names, RootFile);
  }

  /** The order of the keys: at the first difference the smaller character comes first, and a prefix before all
      that it begins. */
  lemma {:induction false} LessMeans(a: string, b: string)
    requires Less(a, b)
    ensures exists n :: 0 <= n <= |a| && n < |b| && a[..n] == b[..n] && (n == |a| || a[n] < b[n])
  {
    if a == [] || a[0] < b[0] {
      assert a[..0] == b[..0];
    } else {
      LessMeans(a[1..], b[1..]);
      var m :| 0 <= m <= |a[1..]| && m < |b[1..]| && a[1..][..m] == b[1..][..m]
               && (m == |a[1..]| || a[1..][m] < b[1..][m]);
      assert a[..m + 1] == [a[0]] + a[1..][..m] && b[..m + 1] == [b[0]] + b[1..][..m];
    }
  }

  /** Each collection is kept in that order. */
  lemma KeysAscend(env: Environment, withChecker: bool, names: seq<string>, list: seq<Sink>, j: nat, k: nat)
    requires var s := NamedSinks(env, withChecker, names);
             list == s.binary || list == s.udp || list == s.json || list == s.root
    requires j < k < |list|
    ensures var a, b := list[j].name, list[k].name;
            exists n :: 0 <= n <= |a| && n < |b| && a[..n] == b[..n] && (n == |a| || a[n] < b[n])
  {
    KindIsKept(env, withChecker, names, BinaryFile);
    KindIsKept(env, withChecker, names, UdpSocket);
    KindIsKept(env, withChecker, names, JsonFile);
    KindIsKept(env, withChecker, names, RootFile);
    assert SortedNames(list);
    LessMeans(list[j].name, list[k].name);
  }

  /** Every sink that is to be there is visited, and has its own task in the wiring. */
  lemma WantedIsWired(env: Environment, withChecker: bool, names: seq<string>, x: Sink) returns (k: nat)
    requires (x.name in names && SinkFor(env, x.name) == Some(x))
             || (withChecker && x == Sink("FrameCountChecker", Checker, Raw))
    ensures var sinks := All(NamedSinks(env, withChecker, names));
            k < |sinks| && sinks[k] == x && HasSink(Wired(sinks), k)
  {
    var s := NamedSinks(env, withChecker, names);
    AllKinds(s, x);
    if x.name in names && SinkFor(env, x.name) == Some(x) {
      NamedAreKept(env, withChecker, names, x);
      SinkKinds(env, x.name);
    } else {
      OnlyNamedAreKept(env, withChecker, names, x);
    }
    k :| k < |All(s)| && All(s)[k] == x;
    NamedSinksHaveTasks(env, withChecker, names);
  }

  // ----- what the sinks receive

  /** The form that each kind of sink gets a frame in. */
  lemma ReceivedForm<P>(f: Foreign<P>, x: Sink, frame: Bytes)
    ensures x.kind != JsonFile && x.kind != RootFile ==>
              && (x.required == Raw ==> Plain(f, SourceFor(x), frame) == Chunk(frame))
              && (x.required == RawFrame ==> Plain(f, SourceFor(x), frame) == Chunk(Delimited(frame)))
              && (x.required == Proto ==>
                    Plain(f, SourceFor(x), frame)
                    == Chunk(f.encode(f.toMessage(if Parsed(frame).Ok? then Parsed(frame).value else EMPTY_STRUCT))))
              && (x.required == ProtoFrame ==>
                    Plain(f, SourceFor(x), frame)
                    == Chunk(f.encodeDelimited(
                         f.toMessage(if Parsed(frame).Ok? then Parsed(frame).value else EMPTY_STRUCT))))
    ensures x.kind == JsonFile || x.kind == RootFile ==>
              Plain(f, SourceFor(x), frame) == Struct(if Parsed(frame).Ok? then Parsed(frame).value else EMPTY_STRUCT)
  {
  }

  /** What an empty struct is. */
  lemma EmptyStruct()
    ensures EMPTY_STRUCT == StructData(Header(0, [0, 0, 0], 0, 0, 0), [], [])
  {
  }

  /** In any run, on a line that is between two frames, the task of a sink that is to be there has delivered to
      it every frame of the line in order, each in the sink's form. */
  lemma WantedReceives<P>(f: Foreign<P>, env: Environment, withChecker: bool, names: seq<string>, x: Sink,
                          s: seq<LineState<P>>, es: seq<Event>, l: nat) returns (k: nat, n: nat)
    requires (x.name in names && SinkFor(env, x.name) == Some(x))
             || (withChecker && x == Sink("FrameCountChecker", Checker, Raw))
    requires var nodes := Wired(All(NamedSinks(env, withChecker, names)));
             Fresh(nodes, s) && Shaped(nodes, s) && Legal(f, nodes, s, es)
             && l < |s| && !Run(f, nodes, s, es)[l].active
    ensures var sinks := All(NamedSinks(env, withChecker, names));
            && k < |sinks| && sinks[k] == x && n < |Wired(sinks)| && Wired(sinks)[n].task == SinkTask(k)
            && |Run(f, Wired(sinks), s, es)[l].logs| == |Wired(sinks)|
            && |Run(f, Wired(sinks), s, es)[l].logs[n]| == |Begun(es, l)|
            && forall i :: 0 <= i < |Begun(es, l)| ==>
                 Run(f, Wired(sinks), s, es)[l].logs[n][i] == Plain(f, SourceFor(x), Begun(es, l)[i])
  {
    var sinks := All(NamedSinks(env, withChecker, names));
    k := WantedIsWired(env, withChecker, names, x);
    SinkTasks(sinks, k);
    SinksReceivePlain(f, sinks, s, es, l, k);
    n :| 0 <= n < |Wired(sinks)| && Wired(sinks)[n].task == SinkTask(k);
    var frames := Begun(es, l);
    forall i | 0 <= i < |frames|
      ensures Map(PlainOf(f, SourceFor(x)), frames)[i] == Plain(f, SourceFor(x), frames[i])
    {
    }
  }
}
