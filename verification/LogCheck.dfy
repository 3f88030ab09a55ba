/** The log checker: keeps the last log instance and reports scopes that did not exit. */
module LogCheck {
  import opened Seqs

  const NEW_INSTANCE := "----------------------new log instance----------------------"
  const DEFAULT_INIT_N_LINES := 1000

  predicate IsMarker(line: string) {
    |NEW_INSTANCE| <= |line| && line[|line| - |NEW_INSTANCE|..] == NEW_INSTANCE
  }

  // ----- reading

  /** The lines after the last new-instance marker. */
  function LastInstance(lines: seq<string>): seq<string> {
    if lines == [] then []
    else if IsMarker(lines[|lines| - 1]) then []
    else LastInstance(lines[..|lines| - 1]) + [lines[|lines| - 1]]
  }

  /** It is the longest end of the file without a marker. */
  lemma {:induction false} LastInstanceIs(lines: seq<string>)
    ensures var rest := LastInstance(lines);
            && |rest| <= |lines| && lines[|lines| - |rest|..] == rest
            && (forall i :: 0 <= i < |rest| ==> !IsMarker(rest[i]))
            && (|rest| < |lines| ==> IsMarker(lines[|lines| - |rest| - 1]))
  {
    if lines == [] || IsMarker(lines[|lines| - 1]) {
    } else {
      LastInstanceIs(lines[..|lines| - 1]);
    }
  }

  lemma {:induction false} WithoutMarker(lines: seq<string>)
    requires forall i :: 0 <= i < |lines| ==> !IsMarker(lines[i])
    ensures LastInstance(lines) == lines
  {
    if lines == [] {
    } else {
      WithoutMarker(lines[..|lines| - 1]);
    }
  }

  lemma LastInstancePush(lines: seq<string>, line: string)
    ensures LastInstance(lines + [line]) == if IsMarker(line) then [] else LastInstance(lines) + [line]
  {
    assert (lines + [line])[..|lines + [line]| - 1] == lines;
  }

  lemma LastInstanceNext(kept: seq<string>, input: seq<string>, n: nat)
    requires n < |input|
    ensures LastInstance(kept + input[..n + 1])
         == if IsMarker(input[n]) then [] else LastInstance(kept + input[..n]) + [input[n]]
  {
    LastInstancePush(kept + input[..n], input[n]);
    assert kept + input[..n + 1] == (kept + input[..n]) + [input[n]];
  }

  lemma {:induction false} LastInstanceAfter(before: seq<string>, marker: string, after: seq<string>)
    requires IsMarker(marker)
    ensures LastInstance(before + [marker] + after) == LastInstance(after)
  {
    if after == [] {
      assert before + [marker] + after == before + [marker];
      LastInstancePush(before, marker);
    } else {
      var front, last := after[..|after| - 1], after[|after| - 1];
      LastInstanceAfter(before, marker, front);
      assert after == front + [last];
      assert before + [marker] + after == (before + [marker] + front) + [last];
      LastInstancePush(before + [marker] + front, last);
      LastInstancePush(front, last);
    }
  }

  /** A line that ends with the marker text, whatever is in front of it in the line, makes everything up to it
      forgotten. */
  lemma MarkerForgets(before: seq<string>, prefix: string, after: seq<string>)
    ensures LastInstance(before + [prefix + "----------------------new log instance----------------------"] + after)
         == LastInstance(after)
  {
    var line := prefix + "----------------------new log instance----------------------";
    assert line[|prefix|..] == "----------------------new log instance----------------------";
    LastInstanceAfter(before, line, after);
  }

  /** A file in which no line ends with that text is kept whole. */
  lemma NothingForgotten(lines: seq<string>, text: string)
    requires text == "----------------------new log instance----------------------"
    requires forall i :: 0 <= i < |lines| ==>
               |lines[i]| < |text| || lines[i][|lines[i]| - |text|..] != text
    ensures LastInstance(lines) == lines
  {
    WithoutMarker(lines);
  }

  // ----- counting

  /** What the two regular expressions make of a line; the begin pattern is tried first. */
  datatype Mark = BeginOf(name: string) | EndOf(name: string) | NoScope

  function Weight(m: Mark, name: string): int {
    match m
    case BeginOf(n) => if n == name then 1 else 0
    case EndOf(n) => if n == name then -1 else 0
    case NoScope => 0
  }

  predicate Mentions(m: Mark, name: string) {
    !m.NoScope? && m.name == name
  }

  function Balance(marks: seq<Mark>, name: string): int {
    if marks == [] then 0 else Balance(marks[..|marks| - 1], name) + Weight(marks[|marks| - 1], name)
  }

  predicate Mentioned(marks: seq<Mark>, name: string) {
    exists i :: 0 <= i < |marks| && Mentions(marks[i], name)
  }

  /** One entry for every scope name that occurs, begins counted up and ends down. */
  ghost predicate Tallies(calls: map<string, int>, marks: seq<Mark>) {
    && (forall name :: name in calls <==> Mentioned(marks, name))
    && (forall name :: name in calls ==> calls[name] == Balance(marks, name))
  }

  predicate AllZero(calls: map<string, int>) {
    forall name :: name in calls ==> calls[name] == 0
  }

  lemma MentionedPush(marks: seq<Mark>, m: Mark, name: string)
    ensures Mentioned(marks + [m], name) <==> Mentioned(marks, name) || Mentions(m, name)
    ensures Balance(marks + [m], name) == Balance(marks, name) + Weight(m, name)
  {
    var more := marks + [m];
    assert more[|marks|] == m && more[..|more| - 1] == marks;
    if i :| 0 <= i < |marks| && Mentions(marks[i], name) {
      assert more[i] == marks[i];
    }
  }

  lemma {:induction false} UnmentionedBalance(marks: seq<Mark>, name: string)
    requires !Mentioned(marks, name)
    ensures Balance(marks, name) == 0
  {
    if marks == [] {
    } else {
      var front, last := marks[..|marks| - 1], marks[|marks| - 1];
      assert marks == front + [last];
      MentionedPush(front, last, name);
      UnmentionedBalance(front, name);
    }
  }

  function Counted(calls: map<string, int>, name: string): int {
    if name in calls then calls[name] else 0
  }

  lemma TallyNothing(calls: map<string, int>, marks: seq<Mark>)
    requires Tallies(calls, marks)
    ensures Tallies(calls, marks + [NoScope])
  {
    forall name: string
      ensures Mentioned(marks + [NoScope], name) <==> Mentioned(marks, name)
      ensures Balance(marks + [NoScope], name) == Balance(marks, name)
    {
      MentionedPush(marks, NoScope, name);
    }
  }

  lemma CountedIsBalance(calls: map<string, int>, marks: seq<Mark>, name: string)
    requires Tallies(calls, marks)
    ensures Counted(calls, name) == Balance(marks, name)
  {
    if name !in calls {
      UnmentionedBalance(marks, name);
    }
  }

  lemma TallyScope(calls: map<string, int>, marks: seq<Mark>, m: Mark)
    requires Tallies(calls, marks) && !m.NoScope?
    ensures Tallies(calls[m.name := Counted(calls, m.name) + Weight(m, m.name)], marks + [m])
  {
    var after := calls[m.name := Counted(calls, m.name) + Weight(m, m.name)];
    forall name: string
      ensures name in after <==> Mentioned(marks + [m], name)
      ensures name in after ==> after[name] == Balance(marks + [m], name)
    {
      MentionedPush(marks, m, name);
      CountedIsBalance(calls, marks, name);
    }
  }

  class LogFile {
    var content: array<string>
    var lineCounter: nat
    var callMap: map<string, int>

    ghost var marks: seq<Mark>   // of the lines analysed so far

    ghost predicate Valid()
      reads this, content
    {
      && content.Length > 0 && lineCounter <= content.Length
      && (forall i :: 0 <= i < lineCounter ==> !IsMarker(content[i]))
      && Tallies(callMap, marks)
    }

    ghost function Lines(): seq<string>
      requires Valid()
      reads this, content
    {
      content[..lineCounter]
    }

    constructor ()
      ensures Valid() && Lines() == [] && content.Length == 1000 && marks == [] && fresh(content)
    {
      content := new string[DEFAULT_INIT_N_LINES](i => "");
      lineCounter, callMap, marks := 0, map[], [];
    }

    /** More slots, with the old ones kept. */
    method GrowTo(nLines: nat)
      requires Valid()
      modifies this`content
      ensures Valid() && Lines() == old(Lines()) && content.Length >= nLines
      ensures content == old(content) || fresh(content)
    {
      if nLines <= content.Length {
        return;
      }
      var kept := content[..];
      content := new string[nLines](i requires 0 <= i < nLines => if i < |kept| then kept[i] else "");
    }

    /** Reads a file line by line into the slots, behind the lines that are there; a marker line makes the
        counter start over. */
    method Read(input: seq<string>)
      requires Valid()
      modifies this`content, this`lineCounter, content
      ensures Valid() && Lines() == LastInstance(old(Lines()) + input)
      ensures content == old(content) || fresh(content)
    {
      ghost var kept := Lines();
      WithoutMarker(kept);
      assert kept + input[..0] == kept;
      for n := 0 to |input|
        invariant Valid() && Lines() == LastInstance(kept + input[..n])
        invariant content == old(content) || fresh(content)
      {
        ReadLine(input[n]);
        LastInstanceNext(kept, input, n);
      }
      assert input[..|input|] == input;
      if lineCounter >= content.Length {
        GrowTo(2 * content.Length);
      }
      ClearNext();
    }

    /** The slot for the line that is not there. */
    method ClearNext()
      requires Valid() && lineCounter < content.Length
      modifies content
      ensures Valid() && Lines() == old(Lines())
    {
      content[lineCounter] := "";
    }

    /** One line. */
    method ReadLine(line: string)
      requires Valid()
      modifies this`content, this`lineCounter, content
      ensures Valid() && Lines() == (if IsMarker(line) then [] else old(Lines()) + [line])
      ensures content == old(content) || fresh(content)
    {
      if lineCounter >= content.Length {
        GrowTo(2 * content.Length);
      }
      content[lineCounter] := line;
      if IsMarker(content[lineCounter]) {
        lineCounter := 0;
      } else {
        lineCounter := lineCounter + 1;
      }
    }

    /** `classify` stands for the two regular expressions; counts go on from what was analysed before. */
    method Analysis(classify: string -> Mark)
      requires Valid()
      modifies this`callMap, this`marks
      ensures Valid() && Lines() == old(Lines())
      ensures marks == old(marks) + Map(classify, Lines())
    {
      ghost var before, lines := marks, Lines();
      assert before + Map(classify, lines[..0]) == before;
      for n := 0 to lineCounter
        invariant Valid() && Lines() == lines
        invariant marks == before + Map(classify, lines[..n])
      {
        var m := classify(content[n]);
        assert Map(classify, lines[..n + 1]) == Map(classify, lines[..n]) + [m];
        Count(m);
      }
      assert lines[..lineCounter] == lines;
    }

    method Count(m: Mark)
      requires Valid()
      modifies this`callMap, this`marks
      ensures Valid() && Lines() == old(Lines()) && marks == old(marks) + [m]
    {
      match m {
        case BeginOf(name) =>
          TallyScope(callMap, marks, m);
          callMap := callMap[name := (if name in callMap then callMap[name] else 0) + 1];
        case EndOf(name) =>
          TallyScope(callMap, marks, m);
          callMap := callMap[name := (if name in callMap then callMap[name] else 0) - 1];
        case NoScope =>
          TallyNothing(callMap, marks);
      }
      marks := marks + [m];
    }

    method Summarize() returns (r: bool)
      ensures r <==> AllZero(callMap)
    {
      var left := callMap.Keys;
      r := true;
      while left != {} && r
        invariant left <= callMap.Keys
        invariant r <==> forall name :: name in callMap && name !in left ==> callMap[name] == 0
        decreases left
      {
        var name :| name in left;
        left := left - {name};
        r := callMap[name] == 0;
      }
    }
  }

  /** Every name is begun as often as ended. */
  ghost predicate Balanced(marks: seq<Mark>) {
    forall name :: Balance(marks, name) == 0
  }

  lemma ZeroForAll(calls: map<string, int>, marks: seq<Mark>)
    requires Tallies(calls, marks)
    ensures AllZero(calls) <==> Balanced(marks)
  {
    if AllZero(calls) {
      forall name: string
        ensures Balance(marks, name) == 0
      {
        CountedIsBalance(calls, marks, name);
      }
    } else {
      var name :| name in calls && calls[name] != 0;
      assert Balance(marks, name) != 0;
    }
  }

  /** The whole check of a file: the last instance counts, and it is clean exactly if every name is balanced. */
  method CheckLog(input: seq<string>, classify: string -> Mark) returns (clean: bool)
    ensures clean <==> Balanced(Map(classify, LastInstance(input)))
  {
    var log := new LogFile();
    log.Read(input);
    log.Analysis(classify);
    clean := log.Summarize();
    assert [] + input == input && log.marks == Map(classify, LastInstance(input));
    ZeroForAll(log.callMap, log.marks);
  }

  // ----- scopes

  /** A scope object enters or exits; `id` tells objects apart that carry the same name. */
  datatype ScopeEvent = Enter(id: nat, name: string) | Exit(id: nat, name: string)

  function MarkOf(e: ScopeEvent): Mark {
    match e
    case Enter(_, name) => BeginOf(name)
    case Exit(_, name) => EndOf(name)
  }

  /** The scopes that are open after the events. */
  function Open(es: seq<ScopeEvent>): map<nat, string> {
    if es == [] then map[] else OpenAfter(Open(es[..|es| - 1]), es[|es| - 1])
  }

  function OpenAfter(open: map<nat, string>, e: ScopeEvent): map<nat, string> {
    match e
    case Enter(id, name) => open[id := name]
    case Exit(id, name) => if Closes(open, e) then open - {id} else open
  }

  predicate Closes(open: map<nat, string>, e: ScopeEvent) {
    e.Exit? && e.id in open && open[e.id] == e.name
  }

  /** Exits of scopes that are not open: their begin is missing or comes later. */
  function Strays(es: seq<ScopeEvent>, name: string): nat {
    if es == [] then 0
    else
      var e := es[|es| - 1];
      Strays(es[..|es| - 1], name)
      + (if e.Exit? && e.name == name && !Closes(Open(es[..|es| - 1]), e) then 1 else 0)
  }

  /** No object enters again while it is open. */
  predicate Distinct(es: seq<ScopeEvent>) {
    forall i :: 0 <= i < |es| && es[i].Enter? ==> es[i].id !in Open(es[..i])
  }

  function OpenNamed(open: map<nat, string>, name: string): set<nat> {
    set id | id in open && open[id] == name
  }

  lemma DistinctFront(es: seq<ScopeEvent>)
    requires Distinct(es) && es != []
    ensures Distinct(es[..|es| - 1])
    ensures es[|es| - 1].Enter? ==> es[|es| - 1].id !in Open(es[..|es| - 1])
  {
    var front := es[..|es| - 1];
    forall i | 0 <= i < |front| && front[i].Enter?
      ensures front[i].id !in Open(front[..i])
    {
      assert front[..i] == es[..i];
    }
  }

  lemma EnterStep(open: map<nat, string>, id: nat, n: string, name: string)
    requires id !in open
    ensures |OpenNamed(open[id := n], name)| == |OpenNamed(open, name)| + (if n == name then 1 else 0)
  {
    assert OpenNamed(open[id := n], name) == OpenNamed(open, name) + (if n == name then {id} else {});
  }

  lemma ExitStep(open: map<nat, string>, id: nat, name: string)
    requires id in open
    ensures |OpenNamed(open - {id}, name)| == |OpenNamed(open, name)| - (if open[id] == name then 1 else 0)
  {
    assert OpenNamed(open - {id}, name) == OpenNamed(open, name) - (if open[id] == name then {id} else {});
    assert open[id] == name ==> id in OpenNamed(open, name);
  }

  /** One event changes the open scopes of a name by its weight, unless it is a stray exit. */
  lemma OpenStep(open: map<nat, string>, e: ScopeEvent, name: string)
    requires e.Enter? ==> e.id !in open
    ensures var after := OpenAfter(open, e);
            |OpenNamed(after, name)| == |OpenNamed(open, name)| + Weight(MarkOf(e), name)
                                        + (if e.Exit? && e.name == name && !Closes(open, e) then 1 else 0)
  {
    match e {
      case Enter(id, n) =>
        EnterStep(open, id, n, name);
      case Exit(id, n) =>
        if Closes(open, e) {
          ExitStep(open, id, name);
        }
    }
  }

  /** The count of a name is the number of its open scopes less the stray exits. */
  lemma {:induction false} BalanceCountsOpen(es: seq<ScopeEvent>, name: string)
    requires Distinct(es)
    ensures Balance(Map(MarkOf, es), name) == |OpenNamed(Open(es), name)| - Strays(es, name)
  {
    if es == [] {
      assert OpenNamed(Open(es), name) == {};
    } else {
      var front, e := es[..|es| - 1], es[|es| - 1];
      DistinctFront(es);
      BalanceCountsOpen(front, name);
      OpenStep(Open(front), e, name);
      assert Map(MarkOf, es)[..|es| - 1] == Map(MarkOf, front);
    }
  }

  function IsScope(m: Mark): bool {
    !m.NoScope?
  }

  /** Lines without a scope do not matter. */
  lemma {:induction false} OnlyScopesCount(marks: seq<Mark>, name: string)
    ensures Balance(Filter(IsScope, marks), name) == Balance(marks, name)
    ensures Mentioned(Filter(IsScope, marks), name) <==> Mentioned(marks, name)
  {
    if marks == [] {
    } else {
      var front, last := marks[..|marks| - 1], marks[|marks| - 1];
      OnlyScopesCount(front, name);
      assert marks == front + [last];
      MentionedPush(front, last, name);
      MentionedPush(Filter(IsScope, front), last, name);
      assert Filter(IsScope, marks)
          == if IsScope(last) then Filter(IsScope, front) + [last] else Filter(IsScope, front);
    }
  }

  /** For a log whose scope lines are those of some events, in any interleaving: the summary is clean
      exactly if for every name as many scopes are open as exits are stray. */
  lemma SummaryMeans(calls: map<string, int>, marks: seq<Mark>, es: seq<ScopeEvent>)
    requires Distinct(es) && Tallies(calls, marks) && Filter(IsScope, marks) == Map(MarkOf, es)
    ensures AllZero(calls) <==> forall name :: |OpenNamed(Open(es), name)| == Strays(es, name)
  {
    forall name: string
      ensures Balance(marks, name) == |OpenNamed(Open(es), name)| - Strays(es, name)
      ensures name !in calls ==> Balance(marks, name) == 0
      ensures name in calls ==> calls[name] == Balance(marks, name)
    {
      OnlyScopesCount(marks, name);
      BalanceCountsOpen(es, name);
      if name !in calls {
        UnmentionedBalance(marks, name);
      }
    }
  }

  /** If no exit comes before its entry, the summary is clean exactly if every scope has been closed. */
  lemma CleanIffAllClosed(calls: map<string, int>, marks: seq<Mark>, es: seq<ScopeEvent>)
    requires Distinct(es) && Tallies(calls, marks) && Filter(IsScope, marks) == Map(MarkOf, es)
    requires forall i :: 0 <= i < |es| && es[i].Exit? ==> Closes(Open(es[..i]), es[i])
    ensures AllZero(calls) <==> Open(es) == map[]
  {
    SummaryMeans(calls, marks, es);
    forall name: string
      ensures Strays(es, name) == 0
    {
      NoStrays(es, name);
    }
    if Open(es) == map[] {
      forall name: string
        ensures OpenNamed(Open(es), name) == {}
      {
      }
    } else {
      var id :| id in Open(es);
      assert id in OpenNamed(Open(es), Open(es)[id]);
    }
  }

  /** An exit whose entry is before the last marker hides a scope of the same name that never exits. */
  lemma StrayExitHidesOpenScope(calls: map<string, int>, name: string)
    requires Tallies(calls, [EndOf(name), BeginOf(name)])
    ensures AllZero(calls) && Open([Exit(0, name), Enter(1, name)]) == map[1 := name]
  {
    var es := [Exit(0, name), Enter(1, name)];
    var marks := [EndOf(name), BeginOf(name)];
    assert marks[..1] == [EndOf(name)] && marks[..1][..0] == [];
    assert es[..1] == [Exit(0, name)] && es[..1][..0] == [];
    assert Open([]) == map[] && Open([Exit(0, name)]) == map[];
    forall n: string
      ensures Balance(marks, n) == 0
    {
      assert Balance([EndOf(name)], n) == Weight(EndOf(name), n);
    }
  }

  // ----- when the verdict can be relied on

  lemma {:induction false} NoStrays(es: seq<ScopeEvent>, name: string)
    requires forall i :: 0 <= i < |es| && es[i].Exit? ==> Closes(Open(es[..i]), es[i])
    ensures Strays(es, name) == 0
  {
    if es == [] {
    } else {
      var front := es[..|es| - 1];
      forall i | 0 <= i < |front| && front[i].Exit?
        ensures Closes(Open(front[..i]), front[i])
      {
        assert front[..i] == es[..i] && front[i] == es[i];
      }
      NoStrays(front, name);
    }
  }

  /** The verdict on a log of exactly these events. */
  ghost predicate Clean(es: seq<ScopeEvent>) {
    Balanced(Map(MarkOf, es))
  }

  /** Any log with these scope lines, other lines in between, gets that verdict. */
  lemma VerdictIsClean(marks: seq<Mark>, es: seq<ScopeEvent>)
    requires Filter(IsScope, marks) == Map(MarkOf, es)
    ensures Balanced(marks) <==> Clean(es)
  {
    forall name: string
      ensures Balance(Filter(IsScope, marks), name) == Balance(marks, name)
    {
      OnlyScopesCount(marks, name);
    }
    if Balanced(marks) {
      assert Balanced(Filter(IsScope, marks));
    } else {
      var name :| Balance(marks, name) != 0;
      assert Balance(Filter(IsScope, marks), name) != 0;
    }
  }

  /** No exit from position `from` on comes before its entry. */
  predicate NoStrayFrom(es: seq<ScopeEvent>, from: nat) {
    forall i :: from <= i < |es| && es[i].Exit? ==> Closes(Open(es[..i]), es[i])
  }

  /** The program goes on from `es` without stray exits. */
  ghost predicate Continues(es: seq<ScopeEvent>, more: seq<ScopeEvent>) {
    Distinct(es + more) && NoStrayFrom(es + more, |es|)
  }

  /** Whatever happens next, the summary says clean exactly when every scope has been closed. */
  ghost predicate Reliable(es: seq<ScopeEvent>) {
    forall more :: Continues(es, more) ==> (Clean(es + more) <==> Open(es + more) == map[])
  }

  lemma OpenPush(es: seq<ScopeEvent>, e: ScopeEvent)
    ensures Open(es + [e]) == OpenAfter(Open(es), e)
    ensures forall name :: Strays(es + [e], name)
              == Strays(es, name) + (if e.Exit? && e.name == name && !Closes(Open(es), e) then 1 else 0)
  {
    assert (es + [e])[..|es + [e]| - 1] == es;
  }

  lemma ContinuesPush(es: seq<ScopeEvent>, more: seq<ScopeEvent>, e: ScopeEvent)
    requires Continues(es, more) && Closes(Open(es + more), e)
    ensures Continues(es, more + [e])
  {
    var all := es + more;
    assert es + (more + [e]) == all + [e];
    forall i | 0 <= i < |all + [e]|
      ensures (all + [e])[..i] == all[..i]
    {
    }
  }

  /** All open scopes can be closed without stray exits. */
  lemma {:induction false} CloseAll(es: seq<ScopeEvent>, more: seq<ScopeEvent>) returns (more': seq<ScopeEvent>)
    requires Continues(es, more)
    ensures Continues(es, more') && Open(es + more') == map[]
    ensures forall name :: Strays(es + more', name) == Strays(es + more, name)
    decreases Open(es + more).Keys
  {
    var open := Open(es + more);
    if open == map[] {
      more' := more;
    } else {
      var id :| id in open;
      var e := Exit(id, open[id]);
      ContinuesPush(es, more, e);
      OpenPush(es + more, e);
      assert es + (more + [e]) == (es + more) + [e];
      more' := CloseAll(es, more + [e]);
    }
  }

  lemma {:induction false} SomeStray(es: seq<ScopeEvent>, i: nat)
    requires i < |es| && es[i].Exit? && !Closes(Open(es[..i]), es[i])
    ensures Strays(es, es[i].name) > 0
  {
    var front, last := es[..|es| - 1], es[|es| - 1];
    assert es == front + [last];
    OpenPush(front, last);
    if i < |front| {
      assert front[..i] == es[..i];
      SomeStray(front, i);
    }
  }

  lemma OpenIsEmpty(open: map<nat, string>)
    ensures open == map[] <==> forall name :: |OpenNamed(open, name)| == 0
  {
    if open != map[] {
      var id :| id in open;
      assert id in OpenNamed(open, open[id]);
    }
  }

  lemma CleanWithoutStrays(es: seq<ScopeEvent>)
    requires Distinct(es) && NoStrayFrom(es, 0)
    ensures Clean(es) <==> Open(es) == map[]
  {
    forall name: string
      ensures Balance(Map(MarkOf, es), name) == |OpenNamed(Open(es), name)|
    {
      BalanceCountsOpen(es, name);
      NoStrays(es, name);
    }
    OpenIsEmpty(Open(es));
    if Clean(es) {
      forall name: string
        ensures |OpenNamed(Open(es), name)| == 0
      {
        assert Balance(Map(MarkOf, es), name) == 0;
      }
    } else {
      var name :| Balance(Map(MarkOf, es), name) != 0;
      assert |OpenNamed(Open(es), name)| != 0;
    }
  }

  lemma NoStrayAtAll(es: seq<ScopeEvent>, more: seq<ScopeEvent>)
    requires NoStrayFrom(es, 0) && NoStrayFrom(es + more, |es|)
    ensures NoStrayFrom(es + more, 0)
  {
    forall i | 0 <= i < |es|
      ensures (es + more)[..i] == es[..i]
    {
    }
  }

  /** A stray exit is never made up for: once everything is closed, the summary is not clean. */
  lemma StrayIsUnreliable(es: seq<ScopeEvent>, i: nat)
    requires Distinct(es) && i < |es| && es[i].Exit? && !Closes(Open(es[..i]), es[i])
    ensures !Reliable(es)
  {
    assert es + [] == es;
    var more := CloseAll(es, []);
    var name := es[i].name;
    SomeStray(es, i);
    assert Strays(es + more, name) > 0;
    BalanceCountsOpen(es + more, name);
    OpenIsEmpty(Open(es + more));
    assert Balance(Map(MarkOf, es + more), name) != 0;
    assert Open(es + more) == map[] && !Clean(es + more);
  }

  /** For a log so far, the summary is clean exactly when every scope has been closed, however the log goes
      on without stray exits, if and only if no exit in it comes before its entry. */
  lemma ReliableIffNoStray(es: seq<ScopeEvent>)
    requires Distinct(es)
    ensures Reliable(es) <==> NoStrayFrom(es, 0)
  {
    if NoStrayFrom(es, 0) {
      forall more | Continues(es, more)
        ensures Clean(es + more) <==> Open(es + more) == map[]
      {
        NoStrayAtAll(es, more);
        CleanWithoutStrays(es + more);
      }
    } else {
      var i :| 0 <= i < |es| && es[i].Exit? && !Closes(Open(es[..i]), es[i]);
      StrayIsUnreliable(es, i);
    }
  }
}
