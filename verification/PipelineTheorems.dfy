/** From the sockets to the sinks: what the agreement of data path and tasks means in every run. */
module PipelineTheorems {
  import opened LargeBuffers
  import opened DataPathInvariant
  import opened DataPathTraces
  import opened DataPathAgreement
  import opened TaskGraph
  import opened Seqs
  import opened Pipeline
  import opened PipelineSteps
  import SinkManager

  /** A state that a run reaches from fresh lines. */
  ghost predicate Reached<P>(u: Setup<P>, lines: seq<Tasks.LineState<P>>, s: State<P>)
    requires Tasks.Shaped(u.nodes, lines)
  {
    exists es :: Legal(u, Start(u, lines), es) && Run(u, Start(u, lines), es) == s
  }

  lemma ReachedGood<P>(u: Setup<P>, lines: seq<Tasks.LineState<P>>, s: State<P>)
    requires IsSetUp(u, lines) && Tasks.Fresh(u.nodes, lines) && Reached(u, lines, s)
    ensures Good(u, lines, s)
  {
    var es :| Legal(u, Start(u, lines), es) && Run(u, Start(u, lines), es) == s;
    StartGood(u, lines);
    RunGood(u, lines, Start(u, lines), es);
  }

  // ----- what it means

  /** The log shares the frames out. By sockets it is what the data path took, a part of what it received
      and did not refuse; by lines it is what the tasks began with, and at most one frame that they are
      about to begin with. Every entry is of one socket and one line. */
  lemma LinesShareFrames<P>(u: Setup<P>, lines: seq<Tasks.LineState<P>>, s: State<P>)
    requires IsSetUp(u, lines) && Tasks.Fresh(u.nodes, lines) && Reached(u, lines, s)
    ensures forall k :: 0 <= k < |s.log| ==> s.log[k].l < u.cfg.nLines && s.log[k].i < u.cfg.nSockets
    ensures forall i :: 0 <= i < u.cfg.nSockets ==>
              Picked(FromSocket(i), s.log) + Queued(s.path.mem, s.path.valid, i) == AcceptedOf(s.events, i)
    ensures forall l :: 0 <= l < u.cfg.nLines ==>
              Picked(OnLine(l), s.log) + PillFrame(u.stopReturns, PcOf(s.path, l))
              == Tasks.Begun(s.tasks, l) + Pending(PcOf(s.path, l), CurrentOf(s.path, l))
  {
    ReachedGood(u, lines, s);
    forall i | 0 <= i < u.cfg.nSockets
      ensures Picked(FromSocket(i), s.log) + Queued(s.path.mem, s.path.valid, i) == AcceptedOf(s.events, i)
    {
      DeliveredAsReceived(u.cfg, s.events, i);
    }
    forall l | 0 <= l < u.cfg.nLines
      ensures Picked(OnLine(l), s.log) + PillFrame(u.stopReturns, PcOf(s.path, l))
              == Tasks.Begun(s.tasks, l) + Pending(PcOf(s.path, l), CurrentOf(s.path, l))
    {
      assert LineAgrees(u, s, l);
    }
  }

  lemma SubsequenceOfMore(sub: seq<Bytes>, s: seq<Bytes>, more: seq<Bytes>, at: seq<nat>)
    requires PickedAt(sub, s, at)
    ensures PickedAt(sub, s + more, at)
  {
  }

  /** On each line the frames of a socket are a subsequence of what it received and was not refused: no line
      sees two frames of a socket in the wrong order. */
  lemma LineOrder<P>(u: Setup<P>, lines: seq<Tasks.LineState<P>>, s: State<P>, i: nat, l: nat)
    requires IsSetUp(u, lines) && Tasks.Fresh(u.nodes, lines) && Reached(u, lines, s)
    requires i < u.cfg.nSockets
    ensures Subsequence(Picked(FromSocketOnLine(i, l), s.log), AcceptedOf(s.events, i))
    ensures Subsequence(Picked(FromSocketOnLine(i, l), s.log), Picked(OnLine(l), s.log))
  {
    LinesShareFrames(u, lines, s);
    var at := FewerPicked(FromSocketOnLine(i, l), FromSocket(i), s.log);
    SubsequenceOfMore(Picked(FromSocketOnLine(i, l), s.log), Picked(FromSocket(i), s.log),
                      Queued(s.path.mem, s.path.valid, i), at);
    var at' := FewerPicked(FromSocketOnLine(i, l), OnLine(l), s.log);
  }

  /** A line that waits or has stopped, and whose tasks are done. */
  predicate Between<P>(s: State<P>, l: nat) {
    && l < |s.path.lines| && l < |s.lines| && !s.lines[l].active
    && (s.path.lines[l].pc.Waiting? || s.path.lines[l].pc.Stopped?)
  }

  /** From the sockets to the sinks: on a line between two frames, every sink that can be attached has
      received, in the form it is meant to get, exactly the frames that the line took, in that order, and
      after the pill an empty frame if the line goes on after its stop. */
  lemma SinksReceiveTaken<P>(
      u: Setup<P>, lines: seq<Tasks.LineState<P>>, s: State<P>, sinks: seq<SinkManager.Sink>, l: nat, k: nat)
    requires IsSetUp(u, lines) && Tasks.Fresh(u.nodes, lines) && Reached(u, lines, s)
    requires u.nodes == Wired(sinks) && k < |sinks| && Attached(sinks, k) && Between(s, l)
    ensures exists n :: 0 <= n < |Wired(sinks)| && Wired(sinks)[n].task == SinkTask(k)
    ensures |s.lines[l].logs| == |Wired(sinks)|
    ensures forall n :: 0 <= n < |Wired(sinks)| && Wired(sinks)[n].task == SinkTask(k) ==>
              s.lines[l].logs[n] == Map(Tasks.PlainOf(u.f, SourceFor(sinks[k])),
                                        Picked(OnLine(l), s.log) + PillFrame(u.stopReturns, PcOf(s.path, l)))
  {
    ReachedGood(u, lines, s);
    LinesShareFrames(u, lines, s);
    Tasks.SinksReceivePlain(u.f, sinks, lines, s.tasks, l, k);
  }

  /** Nothing but a line's own tasks keeps it from going on: a step of the data path that is possible is
      possible here, except a recycle before the tasks are done. */
  lemma OnlyTasksDelay<P>(u: Setup<P>, lines: seq<Tasks.LineState<P>>, s: State<P>, e: Path.Event)
    requires IsSetUp(u, lines) && Tasks.Fresh(u.nodes, lines) && Reached(u, lines, s)
    requires Path.Enabled(u.cfg, s.path, e)
    ensures Enabled(u, s, OfPath(e)) <==> !Delayed(s, e)
  {
    ReachedGood(u, lines, s);
    if e.Classify? {
      PathInv(u.cfg, s.path, s.events);
      ClassifyCanBegin(u, s, e.l);
    }
  }

  lemma ClassifyCanBegin<P>(u: Setup<P>, s: State<P>, l: nat)
    requires Shape(u.cfg, s.path) && |s.lines| == u.cfg.nLines && AllAgree(u, s)
    requires Path.Enabled(u.cfg, s.path, Path.Classify(l))
    ensures Enabled(u, s, OfPath(Path.Classify(l)))
  {
    assert LineAgrees(u, s, l);
  }
}
