/** Every step of the data path and of the tasks keeps the lines and their tasks in agreement.

Each kind of step is first described by its effects on one line (what the line is at, the frame it works
on, what it took, what its tasks began with), which is enough to see that they still agree.
*/
module PipelineSteps {
  import opened Common
  import opened LargeBuffers
  import opened DataPathInvariant
  import opened DataPathHistory
  import opened DataPathInduction
  import opened DataPathTheorems
  import opened DataPathThreads
  import opened TaskGraph
  import opened Pipeline

  // ----- the lines see their frames

  /** What the tasks of a line read from memory is the frame they began with. */
  lemma RawIsFrame(cfg: Path.Config, s: Path.State, l: nat, stopReturns: bool, raw: Bytes)
    requires Shape(cfg, s) && SlotsOk(cfg, s) && LinesSeeTheirFrames(cfg, s)
    requires l < |s.lines| && ActiveOk(stopReturns, s.lines[l].pc, CurrentOf(s, l), raw)
    ensures Frame(s, l) == raw
  {
    assert LineOk(cfg, s.mem, s.lines[l]);
  }

  lemma SeenIsLines<P>(u: Setup<P>, s: State<P>, t: Tasks.Event)
    requires Shape(u.cfg, s.path) && SlotsOk(u.cfg, s.path) && LinesSeeTheirFrames(u.cfg, s.path) && AllAgree(u, s)
    requires t.RunTask? && t.l < |s.lines| && s.lines[t.l].active
    ensures Seen(s, t) == s.lines
  {
    assert LineAgrees(u, s, t.l);
    RawIsFrame(u.cfg, s.path, t.l, u.stopReturns, s.lines[t.l].raw);
  }

  // ----- one line at one step

  lemma LaunchedLine(cfg: Path.Config, s: Path.State, l: nat)
    requires l < cfg.nLines
    ensures l < |Path.Launched(cfg, s).lines| && Path.Launched(cfg, s).lines[l].pc == Path.Processing(false)
    ensures CurrentOf(Path.Launched(cfg, s), l) == None
  {
    var bufs := NewBuffers(s.mem, cfg.nLines, cfg.bufferSize).1;
    assert Path.Launched(cfg, s).lines[l] == Path.ToLine(bufs[l]);
  }

  lemma NoNewLine(cfg: Path.Config, s: Path.State, e: Path.Event)
    requires Path.Enabled(cfg, s, e) && !e.Launch?
    ensures var s' := Path.Next(cfg, s, e);
            |s'.lines| == |s.lines| && |s'.history.current| == |s.history.current|
  {
  }

  /** A step of the data path that is not the line's. */
  lemma OtherStep(cfg: Path.Config, s: Path.State, e: Path.Event, l: nat)
    requires Shape(cfg, s) && Path.Enabled(cfg, s, e) && !OfLine(e, l)
    ensures var s' := Path.Next(cfg, s, e);
            || (PcOf(s', l) == PcOf(s, l) && CurrentOf(s', l) == CurrentOf(s, l))
            || (PcOf(s, l) == None && PcOf(s', l) == Some(Path.Processing(false)) && CurrentOf(s', l) == None)
  {
    if l < |s.lines| {
      OthersSpareLine(cfg, s, e, l);
    } else if !e.Launch? {
      NoNewLine(cfg, s, e);
    } else if l < cfg.nLines {
      LaunchedLine(cfg, s, l);
    }
  }

  lemma PushTrashAgrees(cfg: Path.Config, s: Path.State, l: nat, ok: bool)
    requires Path.Enabled(cfg, s, Path.PushTrash(l, ok))
    ensures var s' := Path.Next(cfg, s, Path.PushTrash(l, ok));
            PcOf(s', l).Some? && PcOf(s', l).value.Waiting? && CurrentOf(s', l) == CurrentOf(s, l)
  {
  }

  lemma TakeValidAgrees(cfg: Path.Config, s: Path.State, l: nat, j: nat)
    requires Shape(cfg, s) && Path.Enabled(cfg, s, Path.TakeValid(l, j))
    ensures var s', wasPill := Path.Next(cfg, s, Path.TakeValid(l, j)), s.valid[j].producer.FromStop?;
            && PcOf(s', l) == Some(Path.LinePc.Taken(s.valid[j].buf.size, wasPill))
            && CurrentOf(s', l) == if wasPill then None else Some(Content(s.mem, s.valid[j].buf))
  {
  }

  lemma ClassifyAgrees(cfg: Path.Config, s: Path.State, l: nat)
    requires Shape(cfg, s) && SlotsOk(cfg, s) && LinesSeeTheirFrames(cfg, s)
    requires Path.Enabled(cfg, s, Path.Classify(l))
    ensures var s', wasPill := Path.Next(cfg, s, Path.Classify(l)), s.lines[l].pc.wasPill;
            && PcOf(s', l) == Some(if wasPill then Path.Stopped(true) else Path.Processing(false))
            && CurrentOf(s', l) == CurrentOf(s, l)
            && (wasPill <==> IsEmpty(s.lines[l].buf))
            && (wasPill ==> Frame(s, l) == [])
            && (!wasPill && CurrentOf(s, l).Some? ==> CurrentOf(s, l) == Some(Frame(s, l)))
  {
    assert LineOk(cfg, s.mem, s.lines[l]);
  }

  lemma {:induction false} BegunPush(es: seq<Tasks.Event>, e: Tasks.Event, l: nat)
    ensures Tasks.Begun(es + [e], l) == Tasks.Begun(es, l) + Tasks.BegunBy(e, l)
  {
    if es == [] {
      assert es + [e] == [e] && [e][1..] == [];
    } else {
      var rest := es[1..];
      BegunPush(rest, e, l);
      assert (es + [e])[1..] == rest + [e] && (es + [e])[0] == es[0];
      Shifted(Tasks.BegunBy(es[0], l), Tasks.Begun(rest, l), Tasks.BegunBy(e, l));
    }
  }

  /** What a step begins at line `l`. */
  function BegunAt(t: Option<Tasks.Event>, l: nat): seq<Bytes> {
    if t.Some? then Tasks.BegunBy(t.value, l) else []
  }

  function FramesIn(taken: seq<Taken>, p: Taken -> bool): seq<Bytes> {
    if taken != [] && p(taken[0]) then [taken[0].frame] else []
  }

  lemma LogPush(log: seq<Taken>, taken: seq<Taken>, p: Taken -> bool)
    requires |taken| <= 1
    ensures Picked(p, log + taken) == Picked(p, log) + FramesIn(taken, p)
  {
    if taken == [] {
      assert log + taken == log;
    } else {
      PickedPush(p, log, taken[0]);
      assert taken == [taken[0]];
    }
  }

  function LineAfter<P>(u: Setup<P>, s: State<P>, t: Option<Tasks.Event>, l: nat): Tasks.LineState<P>
    requires Tasks.Shaped(u.nodes, s.lines) && CanRun(u, s, t) && l < |s.lines|
  {
    if t.Some? && t.value.l == l then Tasks.LineNext(u.f, u.nodes, Seen(s, t.value)[l], t.value) else s.lines[l]
  }

  /** The line and its tasks agree after a step that is described by its effects. */
  predicate AgreesAfter<P>(u: Setup<P>, s: State<P>, pc: Option<Path.LinePc>, current: Option<Bytes>,
                           taken: seq<Taken>, t: Option<Tasks.Event>, l: nat)
    requires Tasks.Shaped(u.nodes, s.lines) && CanRun(u, s, t) && l < |s.lines|
  {
    Agree(u.stopReturns, pc, current, LineAfter(u, s, t, l),
          Picked(OnLine(l), s.log) + FramesIn(taken, OnLine(l)), Tasks.Begun(s.tasks, l) + BegunAt(t, l))
  }

  lemma AdvancedAgrees<P>(u: Setup<P>, s: State<P>, path: Path.State, taken: seq<Taken>, events: seq<Path.Event>,
                          t: Option<Tasks.Event>, l: nat)
    requires Tasks.Shaped(u.nodes, s.lines) && CanRun(u, s, t) && l < |s.lines| && |taken| <= 1
    requires AgreesAfter(u, s, PcOf(path, l), CurrentOf(path, l), taken, t, l)
    ensures LineAgrees(u, Advanced(u, s, path, taken, events, t), l)
  {
    LogPush(s.log, taken, OnLine(l));
    if t.Some? {
      BegunPush(s.tasks, t.value, l);
    }
  }

  lemma TaskStepAgrees<P>(u: Setup<P>, s: State<P>, t: Tasks.Event, l: nat)
    requires Tasks.Shaped(u.nodes, s.lines) && CanRun(u, s, Some(t)) && l < |s.lines| && LineAgrees(u, s, l)
    requires !t.Begin? && (t.RunTask? ==> Seen(s, t) == s.lines)
    ensures AgreesAfter(u, s, PcOf(s.path, l), CurrentOf(s.path, l), [], Some(t), l)
  {
  }

  lemma NothingHappens<P>(stopReturns: bool, pc: Option<Path.LinePc>, current: Option<Bytes>,
                          pc': Option<Path.LinePc>, current': Option<Bytes>, x: Tasks.LineState<P>,
                          taken: seq<Bytes>, begun: seq<Bytes>)
    requires Agree(stopReturns, pc, current, x, taken, begun)
    requires || (pc' == pc && current' == current)
             || (pc == None && pc' == Some(Path.Processing(false)) && current' == None)
    ensures Agree(stopReturns, pc', current', x, taken + [], begun + [])
  {
    assert taken + [] == taken && begun + [] == begun;
  }

  lemma OtherAgrees<P>(u: Setup<P>, s: State<P>, path: Path.State, taken: seq<Taken>, t: Option<Tasks.Event>, l: nat)
    requires Tasks.Shaped(u.nodes, s.lines) && CanRun(u, s, t) && l < |s.lines| && LineAgrees(u, s, l)
    requires (t.Some? ==> t.value.l != l) && FramesIn(taken, OnLine(l)) == []
    requires || (PcOf(path, l) == PcOf(s.path, l) && CurrentOf(path, l) == CurrentOf(s.path, l))
             || (PcOf(s.path, l) == None && PcOf(path, l) == Some(Path.Processing(false)) && CurrentOf(path, l) == None)
    ensures AgreesAfter(u, s, PcOf(path, l), CurrentOf(path, l), taken, t, l)
  {
    assert LineAfter(u, s, t, l) == s.lines[l] && BegunAt(t, l) == [];
    NothingHappens(u.stopReturns, PcOf(s.path, l), CurrentOf(s.path, l), PcOf(path, l), CurrentOf(path, l), s.lines[l],
                   Picked(OnLine(l), s.log), Tasks.Begun(s.tasks, l));
  }

  lemma RecycleAgrees<P>(u: Setup<P>, s: State<P>, pc: Option<Path.LinePc>, l: nat)
    requires Tasks.Shaped(u.nodes, s.lines) && l < |s.lines| && LineAgrees(u, s, l) && !s.lines[l].active
    requires PcOf(s.path, l).Some? && PcOf(s.path, l).value.Processing? && pc.Some? && pc.value.Waiting?
    ensures AgreesAfter(u, s, pc, CurrentOf(s.path, l), [], None, l)
  {
  }

  lemma TakeAgrees<P>(u: Setup<P>, s: State<P>, e: Path.Entry, taken: seq<Taken>, current: Option<Bytes>, l: nat)
    requires Tasks.Shaped(u.nodes, s.lines) && l < |s.lines| && LineAgrees(u, s, l)
    requires PcOf(s.path, l).Some? && PcOf(s.path, l).value.Waiting?
    requires current == if e.producer.FromStop? then None else Some(Content(s.path.mem, e.buf))
    requires FramesIn(taken, OnLine(l)) == if e.producer.FromStop? then [] else [Content(s.path.mem, e.buf)]
    ensures AgreesAfter(u, s, Some(Path.LinePc.Taken(e.buf.size, e.producer.FromStop?)), current, taken, None, l)
  {
  }

  lemma BeginAgrees<P>(u: Setup<P>, s: State<P>, wasPill: bool, t: Option<Tasks.Event>, l: nat)
    requires Tasks.Shaped(u.nodes, s.lines) && CanRun(u, s, t) && l < |s.lines| && LineAgrees(u, s, l)
    requires PcOf(s.path, l).Some? && PcOf(s.path, l).value.Taken? && PcOf(s.path, l).value.wasPill == wasPill
    requires t == if !wasPill || u.stopReturns then Some(Tasks.Begin(l, Frame(s.path, l))) else None
    requires wasPill ==> Frame(s.path, l) == []
    requires !wasPill && CurrentOf(s.path, l).Some? ==> CurrentOf(s.path, l) == Some(Frame(s.path, l))
    ensures AgreesAfter(u, s, Some(if wasPill then Path.Stopped(true) else Path.Processing(false)),
                        CurrentOf(s.path, l), [], t, l)
  {
  }

  lemma OtherStepAgrees<P>(u: Setup<P>, s: State<P>, e: Path.Event, l: nat)
    requires Tasks.Shaped(u.nodes, s.lines) && l < |s.lines| && LineAgrees(u, s, l)
    requires Shape(u.cfg, s.path) && Enabled(u, s, OfPath(e)) && !OfLine(e, l)
    ensures LineAgrees(u, Next(u, s, OfPath(e)), l)
  {
    var path, taken, t := Path.Next(u.cfg, s.path, e), TakenBy(s.path, e), TaskStep(u, s, OfPath(e));
    OtherStep(u.cfg, s.path, e, l);
    OtherAgrees(u, s, path, taken, t, l);
    AdvancedAgrees(u, s, path, taken, [e], t, l);
  }

  lemma PushTrashStepAgrees<P>(u: Setup<P>, s: State<P>, l: nat, ok: bool)
    requires Tasks.Shaped(u.nodes, s.lines) && l < |s.lines| && LineAgrees(u, s, l)
    requires Enabled(u, s, OfPath(Path.PushTrash(l, ok)))
    ensures LineAgrees(u, Next(u, s, OfPath(Path.PushTrash(l, ok))), l)
  {
    var path := Path.Next(u.cfg, s.path, Path.PushTrash(l, ok));
    PushTrashAgrees(u.cfg, s.path, l, ok);
    RecycleAgrees(u, s, PcOf(path, l), l);
    AdvancedAgrees(u, s, path, [], [Path.PushTrash(l, ok)], None, l);
  }

  lemma TakeValidStepAgrees<P>(u: Setup<P>, s: State<P>, l: nat, j: nat)
    requires Tasks.Shaped(u.nodes, s.lines) && l < |s.lines| && LineAgrees(u, s, l)
    requires Shape(u.cfg, s.path) && Enabled(u, s, OfPath(Path.TakeValid(l, j)))
    ensures LineAgrees(u, Next(u, s, OfPath(Path.TakeValid(l, j))), l)
  {
    var e := Path.TakeValid(l, j);
    var path, taken := Path.Next(u.cfg, s.path, e), TakenBy(s.path, e);
    TakeValidAgrees(u.cfg, s.path, l, j);
    TakeAgrees(u, s, s.path.valid[j], taken, CurrentOf(path, l), l);
    AdvancedAgrees(u, s, path, taken, [e], None, l);
  }

  lemma ClassifyStepAgrees<P>(u: Setup<P>, s: State<P>, l: nat)
    requires Tasks.Shaped(u.nodes, s.lines) && l < |s.lines| && LineAgrees(u, s, l)
    requires Shape(u.cfg, s.path) && SlotsOk(u.cfg, s.path) && LinesSeeTheirFrames(u.cfg, s.path)
    requires Enabled(u, s, OfPath(Path.Classify(l)))
    ensures LineAgrees(u, Next(u, s, OfPath(Path.Classify(l))), l)
  {
    var e := Path.Classify(l);
    var path, t := Path.Next(u.cfg, s.path, e), TaskStep(u, s, OfPath(e));
    ClassifyAgrees(u.cfg, s.path, l);
    BeginAgrees(u, s, s.path.lines[l].pc.wasPill, t, l);
    AdvancedAgrees(u, s, path, [], [e], t, l);
  }

  lemma LineStepAgrees<P>(u: Setup<P>, s: State<P>, e: Event, l: nat)
    requires Tasks.Shaped(u.nodes, s.lines) && l < |s.lines| && LineAgrees(u, s, l)
    requires Shape(u.cfg, s.path) && SlotsOk(u.cfg, s.path) && LinesSeeTheirFrames(u.cfg, s.path)
    requires Enabled(u, s, e)
    requires e.OfTask? ==> Seen(s, Tasks.RunTask(e.l, e.n)) == s.lines
    ensures LineAgrees(u, Next(u, s, e), l)
  {
    match e {
      case OfPath(p) =>
        if !OfLine(p, l) {
          OtherStepAgrees(u, s, p, l);
        } else if p.PushTrash? {
          PushTrashStepAgrees(u, s, l, p.ok);
        } else if p.TakeValid? {
          TakeValidStepAgrees(u, s, l, p.j);
        } else {
          ClassifyStepAgrees(u, s, l);
        }
      case OfTask(k, n) =>
        TaskStepAgrees(u, s, Tasks.RunTask(k, n), l);
        AdvancedAgrees(u, s, s.path, [], [], Some(Tasks.RunTask(k, n)), l);
      case Joined(k) =>
        TaskStepAgrees(u, s, Tasks.End(k), l);
        AdvancedAgrees(u, s, s.path, [], [], Some(Tasks.End(k)), l);
    }
  }

  lemma StepAgrees<P>(u: Setup<P>, s: State<P>, e: Event)
    requires Shape(u.cfg, s.path) && SlotsOk(u.cfg, s.path) && LinesSeeTheirFrames(u.cfg, s.path)
    requires Tasks.Shaped(u.nodes, s.lines) && AllAgree(u, s) && Enabled(u, s, e)
    requires e.OfTask? ==> Seen(s, Tasks.RunTask(e.l, e.n)) == s.lines
    ensures AllAgree(u, Next(u, s, e))
  {
    forall l | 0 <= l < |s.lines|
      ensures LineAgrees(u, Next(u, s, e), l)
    {
      LineStepAgrees(u, s, e, l);
    }
  }

  // ----- the log and the runs of the two parts

  lemma TakenGrows(cfg: Path.Config, s: Path.State, e: Path.Event, i: nat)
    requires Shape(cfg, s) && Path.Enabled(cfg, s, e) && i < cfg.nSockets
    ensures |Path.Next(cfg, s, e).history.taken| == cfg.nSockets
    ensures Path.Next(cfg, s, e).history.taken[i] == s.history.taken[i] + FramesIn(TakenBy(s, e), FromSocket(i))
  {
    if e.TakeValid? {
      TakenHistory(s, e.l, e.j, i);
    }
  }

  lemma TakenInRange(cfg: Path.Config, s: Path.State, e: Path.Event)
    requires Shape(cfg, s) && SlotsOk(cfg, s) && Path.Enabled(cfg, s, e) && TakenBy(s, e) != []
    ensures TakenBy(s, e)[0].l < cfg.nLines && TakenBy(s, e)[0].i < cfg.nSockets
  {
    assert EntryOk(cfg, s.mem, s.valid[e.j]);
  }

  lemma AdvancedLog<P>(u: Setup<P>, s: State<P>, path: Path.State, taken: seq<Taken>, events: seq<Path.Event>,
                       t: Option<Tasks.Event>)
    requires Tasks.Shaped(u.nodes, s.lines) && CanRun(u, s, t) && LogOk(u, s)
    requires |taken| <= 1 && (taken != [] ==> taken[0].l < u.cfg.nLines && taken[0].i < u.cfg.nSockets)
    requires |path.history.taken| == u.cfg.nSockets
    requires forall i :: 0 <= i < u.cfg.nSockets ==>
               path.history.taken[i] == s.path.history.taken[i] + FramesIn(taken, FromSocket(i))
    ensures LogOk(u, Advanced(u, s, path, taken, events, t))
  {
    forall i | 0 <= i < u.cfg.nSockets
      ensures Picked(FromSocket(i), s.log + taken) == path.history.taken[i]
    {
      LogPush(s.log, taken, FromSocket(i));
    }
  }

  lemma PathStepLog<P>(u: Setup<P>, s: State<P>, e: Path.Event)
    requires Shape(u.cfg, s.path) && SlotsOk(u.cfg, s.path)
    requires Tasks.Shaped(u.nodes, s.lines) && LogOk(u, s) && Enabled(u, s, OfPath(e))
    ensures LogOk(u, Next(u, s, OfPath(e)))
  {
    var path, taken := Path.Next(u.cfg, s.path, e), TakenBy(s.path, e);
    TakenSockets(u.cfg, s.path, e);
    if taken != [] {
      TakenInRange(u.cfg, s.path, e);
    }
    forall i | 0 <= i < u.cfg.nSockets
      ensures path.history.taken[i] == s.path.history.taken[i] + FramesIn(taken, FromSocket(i))
    {
      TakenGrows(u.cfg, s.path, e, i);
    }
    AdvancedLog(u, s, path, taken, [e], TaskStep(u, s, OfPath(e)));
  }

  lemma TakenSockets(cfg: Path.Config, s: Path.State, e: Path.Event)
    requires Path.Enabled(cfg, s, e)
    ensures |Path.Next(cfg, s, e).history.taken| == |s.history.taken|
  {
  }

  lemma {:induction false} TasksAppend<P>(
      f: Tasks.Foreign<P>, nodes: seq<Node>, s: seq<Tasks.LineState<P>>, es: seq<Tasks.Event>, e: Tasks.Event)
    requires Tasks.Shaped(nodes, s) && Tasks.Legal(f, nodes, s, es)
    requires Tasks.Enabled(nodes, Tasks.Run(f, nodes, s, es), e)
    ensures Tasks.Legal(f, nodes, s, es + [e])
    ensures Tasks.Run(f, nodes, s, es + [e]) == Tasks.Next(f, nodes, Tasks.Run(f, nodes, s, es), e)
    decreases |es|
  {
    if es == [] {
      assert es + [e] == [e] && [e][1..] == [];
    } else {
      TasksAppend(f, nodes, Tasks.Next(f, nodes, s, es[0]), es[1..], e);
      assert (es + [e])[1..] == es[1..] + [e];
    }
  }

  lemma AdvancedTasks<P>(u: Setup<P>, lines: seq<Tasks.LineState<P>>, s: State<P>, path: Path.State, taken: seq<Taken>,
                         events: seq<Path.Event>, t: Option<Tasks.Event>)
    requires Tasks.Shaped(u.nodes, lines) && TasksFollow(u, lines, s.lines, s.tasks)
    requires Tasks.Shaped(u.nodes, s.lines) && CanRun(u, s, t) && (t.Some? ==> Seen(s, t.value) == s.lines)
    ensures var s' := Advanced(u, s, path, taken, events, t); TasksFollow(u, lines, s'.lines, s'.tasks)
  {
    if t.Some? {
      TasksAppend(u.f, u.nodes, lines, s.tasks, t.value);
    }
  }

  lemma StepFollows<P>(u: Setup<P>, lines: seq<Tasks.LineState<P>>, s: State<P>, e: Event)
    requires Tasks.Shaped(u.nodes, lines) && Follows(u, lines, s)
    requires Tasks.Shaped(u.nodes, s.lines) && Enabled(u, s, e)
    requires e.OfTask? ==> Seen(s, Tasks.RunTask(e.l, e.n)) == s.lines
    ensures Follows(u, lines, Next(u, s, e))
  {
    var t := TaskStep(u, s, e);
    if e.OfPath? {
      RunAppend(u.cfg, Path.Initial(u.cfg), s.events, e.e);
      AdvancedTasks(u, lines, s, Path.Next(u.cfg, s.path, e.e), TakenBy(s.path, e.e), [e.e], t);
    } else {
      AdvancedTasks(u, lines, s, s.path, [], [], t);
      assert s.events + [] == s.events;
    }
  }

  lemma StepLog<P>(u: Setup<P>, s: State<P>, e: Event)
    requires Shape(u.cfg, s.path) && SlotsOk(u.cfg, s.path)
    requires Tasks.Shaped(u.nodes, s.lines) && LogOk(u, s) && Enabled(u, s, e)
    ensures LogOk(u, Next(u, s, e))
  {
    if e.OfPath? {
      PathStepLog(u, s, e.e);
    } else {
      assert s.log + [] == s.log;
    }
  }

  // ----- every step and every run

  /** The part of the data path's invariant that the tasks rely on. */
  lemma PathInv(cfg: Path.Config, path: Path.State, events: seq<Path.Event>)
    requires WellFormed(cfg) && PathFollows(cfg, path, events)
    ensures Shape(cfg, path) && SlotsOk(cfg, path) && LinesSeeTheirFrames(cfg, path)
  {
    InitialInv(cfg);
    RunInv(cfg, Path.Initial(cfg), events);
  }

  lemma GoodSees<P>(u: Setup<P>, lines: seq<Tasks.LineState<P>>, s: State<P>, e: Event)
    requires IsSetUp(u, lines) && Good(u, lines, s) && Enabled(u, s, e)
    ensures Shape(u.cfg, s.path) && SlotsOk(u.cfg, s.path) && LinesSeeTheirFrames(u.cfg, s.path)
    ensures e.OfTask? ==> Seen(s, Tasks.RunTask(e.l, e.n)) == s.lines
  {
    PathInv(u.cfg, s.path, s.events);
    if e.OfTask? {
      SeenIsLines(u, s, Tasks.RunTask(e.l, e.n));
    }
  }

  lemma SeeingStepGood<P>(u: Setup<P>, lines: seq<Tasks.LineState<P>>, s: State<P>, e: Event)
    requires Tasks.Shaped(u.nodes, lines) && Good(u, lines, s) && Enabled(u, s, e)
    requires Shape(u.cfg, s.path) && SlotsOk(u.cfg, s.path) && LinesSeeTheirFrames(u.cfg, s.path)
    requires e.OfTask? ==> Seen(s, Tasks.RunTask(e.l, e.n)) == s.lines
    ensures Good(u, lines, Next(u, s, e))
  {
    StepAgrees(u, s, e);
    StepFollows(u, lines, s, e);
    StepLog(u, s, e);
  }

  lemma StepGood<P>(u: Setup<P>, lines: seq<Tasks.LineState<P>>, s: State<P>, e: Event)
    requires IsSetUp(u, lines) && Good(u, lines, s) && Enabled(u, s, e)
    ensures Good(u, lines, Next(u, s, e))
  {
    GoodSees(u, lines, s, e);
    SeeingStepGood(u, lines, s, e);
  }

  lemma {:induction false} RunGood<P>(u: Setup<P>, lines: seq<Tasks.LineState<P>>, s: State<P>, es: seq<Event>)
    requires IsSetUp(u, lines) && Good(u, lines, s) && Legal(u, s, es)
    ensures Good(u, lines, Run(u, s, es))
    decreases |es|
  {
    if es == [] {
    } else {
      StepGood(u, lines, s, es[0]);
      RunGood(u, lines, Next(u, s, es[0]), es[1..]);
    }
  }

  lemma StartGood<P>(u: Setup<P>, lines: seq<Tasks.LineState<P>>)
    requires IsSetUp(u, lines) && Tasks.Fresh(u.nodes, lines)
    ensures Good(u, lines, Start(u, lines))
  {
    InitialShape(u.cfg);
    InitialHistory(u.cfg);
  }
}
