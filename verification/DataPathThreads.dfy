/** What the steps of one thread of the data path leave alone of another.

A socket relies on its own variables and on the frame in its buffer, a line and a stopping thread on
their own variables only.
*/
module DataPathThreads {
  import opened Common
  import opened LargeBuffers
  import opened DataPath
  import opened DataPathInvariant
  import opened DataPathSteps
  import opened DataPathInduction
  import opened DataPathTheorems

  // ----- what the other threads leave alone

  predicate OfSocket(e: Event, i: nat) {
    match e
    case Receive(k, _) => k == i
    case PushValid(k, _) => k == i
    case PullTrash(k, _) => k == i
    case FinishRead(k) => k == i
    case _ => false
  }

  predicate OfLine(e: Event, l: nat) {
    match e
    case PushTrash(k, _) => k == l
    case TakeValid(k, _) => k == l
    case Classify(k) => k == l
    case _ => false
  }

  predicate OfStop(e: Event, k: nat) {
    match e
    case Wake(m) => m == k
    case Exchange(m) => m == k
    case SeeAbortReady(m) => m == k
    case EnqueueEmpty(m) => m == k
    case _ => false
  }

  /** A thread that others interleave with: a socket's, a line's, or one that stops the workflow. */
  datatype Thread = SocketThread(i: nat) | LineThread(l: nat) | StopThread(k: nat)

  predicate IsOf(t: Thread, e: Event) {
    match t
    case SocketThread(i) => OfSocket(e, i)
    case LineThread(l) => OfLine(e, l)
    case StopThread(k) => OfStop(e, k)
  }

  /** The thread sees the same in both states: its own variables, and for a socket also the frame in
      its buffer and what was accepted from it. */
  predicate SameFor(t: Thread, s: State, s': State) {
    match t
    case SocketThread(i) =>
      && i < |s.sockets| == |s'.sockets| && s'.sockets[i] == s.sockets[i]
      && Content(s'.mem, s.sockets[i].buf) == Content(s.mem, s.sockets[i].buf)
      && i < |s.history.accepted| == |s'.history.accepted| && s'.history.accepted[i] == s.history.accepted[i]
    case LineThread(l) =>
      && l < |s.lines| == |s'.lines| && s'.lines[l] == s.lines[l]
      && l < |s.history.current| == |s'.history.current| && s'.history.current[l] == s.history.current[l]
    case StopThread(k) =>
      && k < |s.stops| == |s'.stops| && s'.stops[k] == s.stops[k]
      && (s.start.Running? ==> s'.start.Running?)
  }

  predicate Present(t: Thread, s: State) {
    match t
    case SocketThread(i) => i < |s.sockets| && i < |s.history.accepted|
    case LineThread(l) => l < |s.lines| && l < |s.history.current|
    case StopThread(k) => k < |s.stops|
  }

  lemma ReceiveSpares(cfg: Config, s: State, k: nat, bytes: Bytes, i: nat)
    requires Owned(s) && Enabled(cfg, s, Receive(k, bytes)) && i < |s.sockets| && i != k
    ensures Content(Received(s, k, bytes).mem, s.sockets[i].buf) == Content(s.mem, s.sockets[i].buf)
  {
    if s.sockets[i].buf.data.Some? {
      NobodyElseHolds(s, AtSocket(i), s.sockets[i].buf.data.value);
    }
  }

  lemma TakeValidSpares(cfg: Config, s: State, l: nat, j: nat, i: nat)
    requires Owned(s) && Enabled(cfg, s, TakeValid(l, j)) && i < |s.sockets|
    ensures Content(TookValid(s, l, j).mem, s.sockets[i].buf) == Content(s.mem, s.sockets[i].buf)
  {
    if s.lines[l].buf.data.Some? {
      NobodyElseHolds(s, AtLine(l), s.lines[l].buf.data.value);
    }
  }

  lemma LaunchSpares(cfg: Config, s: State, i: nat)
    requires SlotsOk(cfg, s) && Owned(s) && i < |s.sockets| && cfg.bufferSize > 0
    ensures Content(Launched(cfg, s).mem, s.sockets[i].buf) == Content(s.mem, s.sockets[i].buf)
  {
    assert SocketOk(cfg, s.mem, s.sockets[i]);
    LaunchParts(cfg, s);
  }

  lemma PullTrashSpares(cfg: Config, s: State, k: nat, i: nat)
    requires SlotsOk(cfg, s) && Owned(s) && Enabled(cfg, s, PullTrash(k, None)) && i < |s.sockets|
    requires cfg.bufferSize > 0
    ensures Content(PulledTrash(cfg, s, k, None).mem, s.sockets[i].buf) == Content(s.mem, s.sockets[i].buf)
  {
    assert SocketOk(cfg, s.mem, s.sockets[i]) && SocketOk(cfg, s.mem, s.sockets[k]);
    GrowFromNothing(s.mem, s.sockets[k].buf, cfg.bufferSize);
  }

  /** A step keeps the blocks that only others than its actor hold: a datagram overwrites the receiver's
      own block, a line destroys its own, and everything else allocates at most. */
  lemma OthersSpareFrame(cfg: Config, s: State, e: Event, i: nat)
    requires SlotsOk(cfg, s) && Owned(s) && cfg.bufferSize > 0
    requires Enabled(cfg, s, e) && i < |s.sockets| && !OfSocket(e, i)
    ensures Content(Next(cfg, s, e).mem, s.sockets[i].buf) == Content(s.mem, s.sockets[i].buf)
  {
    if e.Receive? {
      ReceiveSpares(cfg, s, e.i, e.bytes, i);
    } else if e.FinishRead? {
      FinishReadMemory(cfg, s, e.i);
    } else if e.TakeValid? {
      TakeValidSpares(cfg, s, e.l, e.j, i);
    } else if e.Launch? {
      LaunchSpares(cfg, s, i);
    } else if e.PullTrash? && e.from.None? {
      PullTrashSpares(cfg, s, e.i, i);
    } else {
      OthersKeepMemory(cfg, s, e);
    }
  }

  lemma OthersKeepMemory(cfg: Config, s: State, e: Event)
    requires Enabled(cfg, s, e)
    requires !e.Receive? && !e.FinishRead? && !e.TakeValid? && !e.Launch? && (e.PullTrash? ==> e.from.Some?)
    ensures Next(cfg, s, e).mem == s.mem
  {
  }

  lemma OthersSpareSocket(cfg: Config, s: State, e: Event, i: nat)
    requires Shape(cfg, s) && Enabled(cfg, s, e) && i < |s.sockets| && !OfSocket(e, i)
    ensures var s' := Next(cfg, s, e);
            && i < |s'.sockets| == |s.sockets| && s'.sockets[i] == s.sockets[i]
            && i < |s'.history.accepted| == |s.history.accepted| && s'.history.accepted[i] == s.history.accepted[i]
  {
  }

  lemma OthersSpareLine(cfg: Config, s: State, e: Event, l: nat)
    requires Shape(cfg, s) && Enabled(cfg, s, e) && l < |s.lines| && !OfLine(e, l)
    ensures SameFor(LineThread(l), s, Next(cfg, s, e))
  {
  }

  lemma OthersSpareStop(cfg: Config, s: State, e: Event, k: nat)
    requires Enabled(cfg, s, e) && k < |s.stops| && !OfStop(e, k)
    ensures SameFor(StopThread(k), s, Next(cfg, s, e))
  {
  }

  /** No step of another thread changes what this thread relies on. */
  lemma OthersSpare(cfg: Config, s: State, e: Event, t: Thread)
    requires Inv(cfg, s) && Enabled(cfg, s, e) && Present(t, s) && !IsOf(t, e)
    ensures SameFor(t, s, Next(cfg, s, e))
  {
    match t {
      case SocketThread(i) =>
        OthersSpareSocket(cfg, s, e, i);
        OthersSpareFrame(cfg, s, e, i);
      case LineThread(l) =>
        OthersSpareLine(cfg, s, e, l);
      case StopThread(k) =>
        OthersSpareStop(cfg, s, e, k);
    }
  }

  /** What is in the buffer after a datagram arrived is the datagram. */
  lemma ReceivedContent(cfg: Config, s: State, i: nat, bytes: Bytes)
    requires Enabled(cfg, s, Receive(i, bytes))
    ensures var s' := Received(s, i, bytes); Content(s'.mem, s'.sockets[i].buf) == bytes
  {
  }

  lemma OwnSocketStays(cfg: Config, s: State, e: Event, i: nat)
    requires Enabled(cfg, s, e) && OfSocket(e, i) && i < |s.history.accepted|
    ensures Present(SocketThread(i), s) && Present(SocketThread(i), Next(cfg, s, e))
  {
  }

  lemma OwnLineStays(cfg: Config, s: State, e: Event, l: nat)
    requires Enabled(cfg, s, e) && OfLine(e, l) && l < |s.history.current|
    ensures Present(LineThread(l), s) && Present(LineThread(l), Next(cfg, s, e))
  {
  }

  lemma OwnStopStays(cfg: Config, s: State, e: Event, k: nat)
    requires Enabled(cfg, s, e) && OfStop(e, k)
    ensures Present(StopThread(k), s) && Present(StopThread(k), Next(cfg, s, e))
  {
  }

  lemma ClassifiedPc(cfg: Config, s: State, l: nat)
    requires l < |s.lines| && s.lines[l].pc.Taken?
    ensures Enabled(cfg, s, Classify(l))
    ensures var x := Next(cfg, s, Classify(l)).lines[l]; x.pc.Processing? || x.pc.Stopped?
  {
  }

  lemma TakenPc(cfg: Config, s: State, l: nat, j: nat)
    requires l < |s.lines| && s.lines[l].pc.Waiting? && FrontOfProducer(s.valid, j)
    ensures Enabled(cfg, s, TakeValid(l, j)) && Next(cfg, s, TakeValid(l, j)).lines[l].pc.Taken?
  {
  }

  /** A line processes frames only and is stopped by pills only. */
  lemma LineState(cfg: Config, start: State, trace: seq<Event>, l: nat)
    requires Inv(cfg, start) && Legal(cfg, start, trace)
    ensures var s := Run(cfg, start, trace);
            l < |s.lines| ==>
              && (s.lines[l].pc.Processing? <==> s.lines[l].pc == Processing(false))
              && (s.lines[l].pc.Stopped? <==> s.lines[l].pc == Stopped(true))
  {
    RunInv(cfg, start, trace);
    InvLines(cfg, Run(cfg, start, trace), l);
  }

  lemma InvLines(cfg: Config, s: State, l: nat)
    requires SlotsOk(cfg, s)
    ensures l < |s.lines| ==>
              && (s.lines[l].pc.Processing? <==> s.lines[l].pc == Processing(false))
              && (s.lines[l].pc.Stopped? <==> s.lines[l].pc == Stopped(true))
  {
    if l < |s.lines| {
      assert LineOk(cfg, s.mem, s.lines[l]);
    }
  }

  /** As long as a line waits at an empty queue the pills have not been pushed. */
  lemma EmptyQueueBeforePills(cfg: Config, start: State, trace: seq<Event>, l: nat)
    requires Inv(cfg, start) && Legal(cfg, start, trace)
    ensures var s := Run(cfg, start, trace);
            l < |s.lines| && s.lines[l].pc.Waiting? && s.valid == [] ==> !Emptied(s)
  {
    var s := Run(cfg, start, trace);
    RunInv(cfg, start, trace);
    if l < |s.lines| && s.lines[l].pc.Waiting? && Emptied(s) {
      WaitingFindsEntry(cfg, s, l);
    }
  }
}
