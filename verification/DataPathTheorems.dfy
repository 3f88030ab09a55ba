/** The data path's invariant holds in every run, and what that means for the program. */
module DataPathTheorems {
  import opened Common
  import opened Seqs
  import opened LargeBuffers
  import opened DataPath
  import opened DataPathInvariant
  import opened DataPathInduction

  /** Every atomic step keeps the invariant. */
  lemma StepInv(cfg: Config, s: State, e: Event)
    requires Inv(cfg, s) && Enabled(cfg, s, e)
    ensures Inv(cfg, Next(cfg, s, e))
  {
    if e.Receive? || e.PushValid? || e.PullTrash? || e.FinishRead? {
      SocketStepInv(cfg, s, e);
    } else if e.PushTrash? || e.TakeValid? || e.Classify? {
      LineStepInv(cfg, s, e);
    } else if e.Accept? {
      AcceptInv(cfg, s);
    } else if e.Launch? {
      LaunchInv(cfg, s);
    } else {
      StopStepInv(cfg, s, e);
    }
  }

  /** The invariant holds at the end of every run from the first state. */
  lemma {:induction false} RunInv(cfg: Config, s: State, es: seq<Event>)
    requires Inv(cfg, s) && Legal(cfg, s, es)
    ensures Inv(cfg, Run(cfg, s, es))
    decreases |es|
  {
    if es == [] {
    } else {
      StepInv(cfg, s, es[0]);
      RunInv(cfg, Next(cfg, s, es[0]), es[1..]);
    }
  }

  lemma {:induction false} RunAppend(cfg: Config, s: State, es: seq<Event>, e: Event)
    requires Legal(cfg, s, es) && Enabled(cfg, Run(cfg, s, es), e)
    ensures Legal(cfg, s, es + [e]) && Run(cfg, s, es + [e]) == Next(cfg, Run(cfg, s, es), e)
    decreases |es|
  {
    if es == [] {
      assert es + [e] == [e] && [e][1..] == [];
    } else {
      RunAppend(cfg, Next(cfg, s, es[0]), es[1..], e);
      assert (es + [e])[1..] == es[1..] + [e];
    }
  }

  ghost predicate Reachable(cfg: Config, s: State) {
    exists es :: Legal(cfg, Initial(cfg), es) && Run(cfg, Initial(cfg), es) == s
  }

  lemma ReachableInv(cfg: Config, s: State)
    requires WellFormed(cfg) && Reachable(cfg, s)
    ensures Inv(cfg, s)
  {
    var es :| Legal(cfg, Initial(cfg), es) && Run(cfg, Initial(cfg), es) == s;
    InitialInv(cfg);
    RunInv(cfg, Initial(cfg), es);
  }

  lemma ReachableStep(cfg: Config, s: State, e: Event)
    requires Reachable(cfg, s) && Enabled(cfg, s, e)
    ensures Reachable(cfg, Next(cfg, s, e))
  {
    var es :| Legal(cfg, Initial(cfg), es) && Run(cfg, Initial(cfg), es) == s;
    RunAppend(cfg, Initial(cfg), es, e);
  }

  lemma {:induction false} ReachableRun(cfg: Config, s: State, es: seq<Event>)
    requires Reachable(cfg, s) && Legal(cfg, s, es)
    ensures Reachable(cfg, Run(cfg, s, es))
    decreases |es|
  {
    if es == [] {
    } else {
      ReachableStep(cfg, s, es[0]);
      ReachableRun(cfg, Next(cfg, s, es[0]), es[1..]);
    }
  }

  // ----- what it means

  /** Every live block is in exactly one place and no place holds a dead block; so a socket never
      writes a block that a line, a queue or another socket holds. */
  lemma ExactlyOneOwner(cfg: Config, s: State, r: Ref)
    requires WellFormed(cfg) && Reachable(cfg, s)
    ensures r in s.mem.heap <==> exists p :: HoldsAt(s, p, r)
    ensures forall p, q :: HoldsAt(s, p, r) && HoldsAt(s, q, r) ==> p == q
  {
    ReachableInv(cfg, s);
    forall p, q | HoldsAt(s, p, r) && HoldsAt(s, q, r)
      ensures p == q && r in s.mem.heap
    {
      OneOwner(s, p, q, r);
    }
    if r in s.mem.heap {
      var p := SomeOwner(s, r);
    }
  }

  lemma SomeOwner(s: State, r: Ref) returns (p: Place)
    requires Owners(s, r) > 0
    ensures HoldsAt(s, p, r)
  {
    if Sum(EntryHolds(r), s.valid) > 0 {
      var k := SumWitness(EntryHolds(r), s.valid);
      p := InValid(k);
    } else if Sum(Holder(r), s.trash) > 0 {
      var k := SumWitness(Holder(r), s.trash);
      p := InTrash(k);
    } else if Sum(SocketHolds(r), s.sockets) > 0 {
      var k := SumWitness(SocketHolds(r), s.sockets);
      p := AtSocket(k);
    } else {
      var k := SumWitness(LineHolds(r), s.lines);
      p := AtLine(k);
    }
  }

  /** Each socket's accepted frames leave the queue in arrival order, each at most once and with
      exactly the bytes received; those not yet taken are the ones still queued. And the frame that
      a line works on still reads as it did when it was accepted. */
  lemma FramesArriveIntact(cfg: Config, s: State)
    requires WellFormed(cfg) && Reachable(cfg, s)
    ensures Shape(cfg, s)
    ensures forall i :: 0 <= i < cfg.nSockets ==>
              s.history.accepted[i] == s.history.taken[i] + Queued(s.mem, s.valid, i)
    ensures forall l :: 0 <= l < |s.lines| ==>
              (Reads(s.lines[l]) && s.history.current[l].Some? ==>
                 Content(s.mem, s.lines[l].buf) == s.history.current[l].value)
  {
    ReachableInv(cfg, s);
  }

  /** A socket that listens can always take a datagram of the configured size. */
  lemma FullDatagramFits(cfg: Config, s: State, i: nat, bytes: Bytes)
    requires WellFormed(cfg) && Reachable(cfg, s)
    requires i < |s.sockets| && s.sockets[i].pc.Listening? && |bytes| <= cfg.bufferSize
    ensures Enabled(cfg, s, Event.Receive(i, bytes))
  {
    ReachableInv(cfg, s);
    ListeningBuffer(cfg, s, i);
  }

  lemma ListeningBuffer(cfg: Config, s: State, i: nat)
    requires SlotsOk(cfg, s) && i < |s.sockets| && s.sockets[i].pc.Listening?
    ensures DataSize(s.mem, s.sockets[i].buf) >= cfg.bufferSize
  {
    assert SocketOk(cfg, s.mem, s.sockets[i]);
  }

  /** No step looks at the bytes of a buffer whose size is stale: queued entries, the buffers of sockets
      that have not handed theirs over, and those of lines at work are all there. */
  lemma NoStaleRead(cfg: Config, s: State)
    requires WellFormed(cfg) && Reachable(cfg, s)
    ensures forall k :: 0 <= k < |s.valid| ==> Backed(s.mem, s.valid[k].buf)
    ensures forall i :: 0 <= i < |s.sockets| && !s.sockets[i].pc.Handed? ==> Backed(s.mem, s.sockets[i].buf)
    ensures forall l :: 0 <= l < |s.lines| && Reads(s.lines[l]) ==> Backed(s.mem, s.lines[l].buf)
  {
    ReachableInv(cfg, s);
    SlotsAreBacked(cfg, s);
  }

  lemma SlotsAreBacked(cfg: Config, s: State)
    requires SlotsOk(cfg, s)
    ensures forall k :: 0 <= k < |s.valid| ==> Backed(s.mem, s.valid[k].buf)
    ensures forall i :: 0 <= i < |s.sockets| && !s.sockets[i].pc.Handed? ==> Backed(s.mem, s.sockets[i].buf)
    ensures forall l :: 0 <= l < |s.lines| && Reads(s.lines[l]) ==> Backed(s.mem, s.lines[l].buf)
  {
    forall k | 0 <= k < |s.valid|
      ensures Backed(s.mem, s.valid[k].buf)
    {
      assert EntryOk(cfg, s.mem, s.valid[k]);
    }
    forall i | 0 <= i < |s.sockets| && !s.sockets[i].pc.Handed?
      ensures Backed(s.mem, s.sockets[i].buf)
    {
      assert SocketOk(cfg, s.mem, s.sockets[i]);
    }
    forall l | 0 <= l < |s.lines| && Reads(s.lines[l])
      ensures Backed(s.mem, s.lines[l].buf)
    {
      assert LineOk(cfg, s.mem, s.lines[l]);
    }
  }

  /** Bytes: read = dropped + queued + counted by the lines + in flight. Frames: received = refused
      + queued + taken + in flight. */
  lemma Conservation(cfg: Config, s: State)
    requires WellFormed(cfg) && Reachable(cfg, s)
    ensures s.stats.bytesRead == s.stats.bytesDropped + Sum(EntryBytes, s.valid) + s.stats.bytesDone
                                 + Sum(SocketBytes, s.sockets) + Sum(LineBytes, s.lines)
    ensures s.stats.frames == s.stats.fullValid + Sum(IsData, s.valid) + s.stats.framesTaken
                              + Sum(IsArrived, s.sockets)
  {
    ReachableInv(cfg, s);
  }

  /** With every socket listening and every line processing or stopped, nothing is in flight. */
  lemma ConservationAtRest(cfg: Config, s: State)
    requires WellFormed(cfg) && Reachable(cfg, s)
    requires forall k :: 0 <= k < |s.sockets| ==> s.sockets[k].pc.Listening?
    requires forall l :: 0 <= l < |s.lines| ==> !s.lines[l].pc.Taken?
    ensures s.stats.bytesRead == s.stats.bytesDropped + Sum(EntryBytes, s.valid) + s.stats.bytesDone
    ensures s.stats.frames == s.stats.fullValid + Sum(IsData, s.valid) + s.stats.framesTaken
  {
    ReachableInv(cfg, s);
    SumZero(SocketBytes, s.sockets);
    SumZero(IsArrived, s.sockets);
    SumZero(LineBytes, s.lines);
  }

  function EntryBuf(e: Entry): LargeBuffer {
    e.buf
  }

  function SocketBuf(x: Socket): LargeBuffer {
    x.buf
  }

  function LineBuf(x: Line): LargeBuffer {
    x.buf
  }

  function AllBuffers(s: State): seq<LargeBuffer> {
    (Map(EntryBuf, s.valid) + s.trash) + (Map(SocketBuf, s.sockets) + Map(LineBuf, s.lines))
  }

  lemma OwnersInAllBuffers(s: State, r: Ref)
    ensures Sum(Holder(r), AllBuffers(s)) == Owners(s, r)
  {
    var queues, users := Map(EntryBuf, s.valid) + s.trash, Map(SocketBuf, s.sockets) + Map(LineBuf, s.lines);
    SumConcat(Holder(r), queues, users);
    SumConcat(Holder(r), Map(EntryBuf, s.valid), s.trash);
    SumConcat(Holder(r), Map(SocketBuf, s.sockets), Map(LineBuf, s.lines));
    SumMap(EntryBuf, Holder(r), EntryHolds(r), s.valid);
    SumMap(SocketBuf, Holder(r), SocketHolds(r), s.sockets);
    SumMap(LineBuf, Holder(r), LineHolds(r), s.lines);
  }

  lemma LiveIsHeld(s: State)
    requires Owned(s)
    ensures |s.mem.heap| == Sum(HoldsStorage, AllBuffers(s))
  {
    forall r: Ref
      ensures Sum(Holder(r), AllBuffers(s)) == if r in s.mem.heap.Keys then 1 else 0
    {
      OwnersInAllBuffers(s, r);
    }
    BlocksAreHolders(AllBuffers(s), s.mem.heap.Keys);
    assert |s.mem.heap| == |s.mem.heap.Keys|;
  }

  lemma HeldInQueue(cfg: Config, m: Memory, valid: seq<Entry>)
    requires forall k :: 0 <= k < |valid| ==> EntryOk(cfg, m, valid[k])
    ensures Sum(HoldsStorage, Map(EntryBuf, valid)) == Sum(IsData, valid)
  {
    forall k | 0 <= k < |valid|
      ensures HoldsStorage(EntryBuf(valid[k])) == IsData(valid[k])
    {
      assert EntryOk(cfg, m, valid[k]);
    }
    SumMap(EntryBuf, HoldsStorage, IsData, valid);
  }

  lemma HeldAtMost(bs: seq<LargeBuffer>)
    ensures Sum(HoldsStorage, bs) <= |bs|
  {
    SumOfFlags(HoldsStorage, bs);
  }

  lemma HeldInParts(a: seq<LargeBuffer>, b: seq<LargeBuffer>, c: seq<LargeBuffer>, d: seq<LargeBuffer>)
    ensures Sum(HoldsStorage, a + b + (c + d))
         == Sum(HoldsStorage, a) + Sum(HoldsStorage, b) + Sum(HoldsStorage, c) + Sum(HoldsStorage, d)
  {
    SumConcat(HoldsStorage, a + b, c + d);
    SumConcat(HoldsStorage, a, b);
    SumConcat(HoldsStorage, c, d);
  }

  lemma HeldIsBounded(cfg: Config, s: State)
    requires SlotsOk(cfg, s)
    ensures Sum(HoldsStorage, AllBuffers(s)) <= Sum(IsData, s.valid) + |s.trash| + |s.sockets| + |s.lines|
  {
    var queued, received, read := Map(EntryBuf, s.valid), Map(SocketBuf, s.sockets), Map(LineBuf, s.lines);
    HeldInParts(queued, s.trash, received, read);
    HeldInQueue(cfg, s.mem, s.valid);
    HeldAtMost(s.trash);
    HeldAtMost(received);
    HeldAtMost(read);
  }

  /** The live blocks are accounted for by the failure counters, and bounded by the two capacities,
      the sockets and the lines; pills own no storage. */
  lemma LiveBlocks(cfg: Config, s: State)
    requires WellFormed(cfg) && Reachable(cfg, s)
    ensures |s.mem.heap| == cfg.prefilled + cfg.nSockets + |s.lines| + s.stats.emptyTrash - s.stats.fullTrash
                            + Sum(IsRefusedLine, s.lines)
    ensures |s.mem.heap| <= 2 * cfg.capacity + cfg.nSockets + cfg.nLines
  {
    ReachableInv(cfg, s);
    LiveIsHeld(s);
    HeldIsBounded(cfg, s);
  }

  // ----- shutdown

  predicate Emptied(s: State) {
    exists k :: 0 <= k < |s.stops| && s.stops[k] == Returned(true)
  }

  function IsRunning(x: Line): int {
    1 - HoldsPill(x)
  }

  lemma {:induction false} RunningLines(lines: seq<Line>)
    ensures Sum(IsRunning, lines) == |lines| - Sum(HoldsPill, lines)
  {
    if lines == [] {
    } else {
      RunningLines(lines[..|lines| - 1]);
    }
  }

  lemma EmptiedIsCounted(s: State)
    ensures Emptied(s) <==> Sum(HasEmptied, s.stops) > 0
  {
    if Sum(HasEmptied, s.stops) > 0 {
      var k := SumWitness(HasEmptied, s.stops);
    }
    if k :| 0 <= k < |s.stops| && s.stops[k] == Returned(true) {
      SumCovers(HasEmptied, s.stops, k, k);
    }
  }

  lemma PillsOfCounts(cfg: Config, s: State)
    requires Shape(cfg, s) && StopOk(cfg, s)
    ensures s.pills == if Emptied(s) then cfg.nLines else 0
    ensures Emptied(s) ==> |s.lines| == cfg.nLines && Sum(IsPill, s.valid) == Sum(IsRunning, s.lines)
    ensures !Emptied(s) ==> Sum(IsPill, s.valid) == 0 && Sum(HoldsPill, s.lines) == 0
  {
    EmptiedIsCounted(s);
    RunningLines(s.lines);
    SumNonNegative(IsPill, s.valid);
    SumNonNegative(HoldsPill, s.lines);
    SumNonNegative(IsEmptying, s.stops);
  }

  /** However many threads call `stop_workflow`, the pills pushed are none, or one per line once; from
      then on the pills left are as many as the lines that have not taken one. */
  lemma OnePillPerLine(cfg: Config, s: State)
    requires WellFormed(cfg) && Reachable(cfg, s)
    ensures s.pills == if Emptied(s) then cfg.nLines else 0
    ensures Emptied(s) ==> |s.lines| == cfg.nLines && Sum(IsPill, s.valid) == Sum(IsRunning, s.lines)
    ensures !Emptied(s) ==> Sum(IsPill, s.valid) == 0 && Sum(HoldsPill, s.lines) == 0
  {
    ReachableInv(cfg, s);
    PillsOfCounts(cfg, s);
  }

  /** A line stops only after the pills were pushed. */
  lemma NoLineStopsEarly(cfg: Config, s: State, l: nat)
    requires WellFormed(cfg) && Reachable(cfg, s)
    requires l < |s.lines| && s.lines[l].pc.Stopped?
    ensures Emptied(s)
  {
    ReachableInv(cfg, s);
    assert LineOk(cfg, s.mem, s.lines[l]);
    SumCovers(HoldsPill, s.lines, l, l);
    OnePillPerLine(cfg, s);
  }

  lemma WaitingFindsEntry(cfg: Config, s: State, l: nat)
    requires Shape(cfg, s) && StopOk(cfg, s) && Emptied(s)
    requires l < |s.lines| && s.lines[l].pc.Waiting?
    ensures s.valid != []
  {
    PillsOfCounts(cfg, s);
    SumCovers(IsRunning, s.lines, l, l);
  }

  /** After the pills were pushed no waiting line blocks: the valid queue has something for it. */
  lemma WaitingLineCanGoOn(cfg: Config, s: State, l: nat)
    requires WellFormed(cfg) && Reachable(cfg, s) && Emptied(s)
    requires l < |s.lines| && s.lines[l].pc.Waiting?
    ensures Enabled(cfg, s, TakeValid(l, 0))
  {
    ReachableInv(cfg, s);
    WaitingFindsEntry(cfg, s, l);
  }

  /** Once all lines have stopped no pill is left. */
  lemma NoPillLeft(cfg: Config, s: State)
    requires WellFormed(cfg) && Reachable(cfg, s) && Emptied(s)
    requires forall l :: 0 <= l < |s.lines| ==> s.lines[l].pc.Stopped?
    ensures Sum(IsPill, s.valid) == 0
    ensures forall k :: 0 <= k < |s.valid| ==> s.valid[k].producer.FromSocket?
  {
    ReachableInv(cfg, s);
    OnePillPerLine(cfg, s);
    forall l | 0 <= l < |s.lines|
      ensures IsRunning(s.lines[l]) == 0
    {
      assert LineOk(cfg, s.mem, s.lines[l]);
    }
    SumZero(IsRunning, s.lines);
    SumOfFlags(IsPill, s.valid);
  }

  // ----- frames and pills are never confused, exactly when buffers have a size

  /** No line stopped because of a frame, and none processes a pill. */
  predicate NoConfusion(s: State) {
    forall l :: 0 <= l < |s.lines| ==> s.lines[l].pc != Stopped(false) && s.lines[l].pc != Processing(true)
  }

  /** One event more. */
  lemma Extend(cfg: Config, es: seq<Event>, s: State, e: Event) returns (es': seq<Event>, s': State)
    requires Legal(cfg, Initial(cfg), es) && Run(cfg, Initial(cfg), es) == s && Enabled(cfg, s, e)
    ensures Legal(cfg, Initial(cfg), es') && Run(cfg, Initial(cfg), es') == s' && s' == Next(cfg, s, e)
  {
    RunAppend(cfg, Initial(cfg), es, e);
    es', s' := es + [e], Next(cfg, s, e);
  }

  const HOLLOW := LargeBuffer(0, None)

  /** Buffers of size zero hold nothing, from the start. */
  lemma StartHollow(cfg: Config) returns (es: seq<Event>, s: State)
    requires cfg.bufferSize == 0 && cfg.nSockets > 0 && cfg.nLines > 0
    ensures Legal(cfg, Initial(cfg), es) && Run(cfg, Initial(cfg), es) == s
    ensures |s.sockets| > 0 && s.sockets[0] == Socket(HOLLOW, Listening)
    ensures |s.lines| > 0 && s.lines[0] == Line(HOLLOW, Processing(false))
    ensures s.valid == [] && s.start.Running? && !Emptied(s)
  {
    es, s := [], Initial(cfg);
    es, s := Extend(cfg, es, s, Accept);
    es, s := Extend(cfg, es, s, Launch);
    assert s.sockets[0] == ToSocket(HOLLOW) && s.lines[0] == ToLine(HOLLOW);
  }

  /** With buffers of size zero the first datagram stops the first line. */
  lemma FrameStopsLine(cfg: Config) returns (es: seq<Event>)
    requires cfg.bufferSize == 0 && cfg.nSockets > 0 && cfg.nLines > 0 && cfg.capacity > 0
    ensures Legal(cfg, Initial(cfg), es) && !NoConfusion(Run(cfg, Initial(cfg), es))
    ensures !Emptied(Run(cfg, Initial(cfg), es))
  {
    var s: State;
    es, s := StartHollow(cfg);
    es, s := Extend(cfg, es, s, Receive(0, []));
    es, s := Extend(cfg, es, s, PushValid(0, true));
    es, s := Extend(cfg, es, s, PushTrash(0, false));
    es, s := Extend(cfg, es, s, TakeValid(0, 0));
    es, s := Extend(cfg, es, s, Classify(0));
    assert s.lines[0].pc == Stopped(false);
  }

  /** No run ever takes a frame for a pill or a pill for a frame if and only if the buffer size is positive. */
  lemma ConfusedOnlyWithoutSize(cfg: Config)
    requires cfg.prefilled <= cfg.capacity && cfg.nSockets > 0 && cfg.nLines > 0 && cfg.capacity > 0
    ensures (forall es :: Legal(cfg, Initial(cfg), es) ==> NoConfusion(Run(cfg, Initial(cfg), es)))
       <==> cfg.bufferSize > 0
  {
    if cfg.bufferSize > 0 {
      forall es | Legal(cfg, Initial(cfg), es)
        ensures NoConfusion(Run(cfg, Initial(cfg), es))
      {
        InitialInv(cfg);
        RunInv(cfg, Initial(cfg), es);
        InvIsNotConfused(cfg, Run(cfg, Initial(cfg), es));
      }
    } else {
      var es := FrameStopsLine(cfg);
    }
  }

  lemma InvIsNotConfused(cfg: Config, s: State)
    requires SlotsOk(cfg, s)
    ensures NoConfusion(s)
  {
    forall l | 0 <= l < |s.lines|
      ensures s.lines[l].pc != Stopped(false) && s.lines[l].pc != Processing(true)
    {
      assert LineOk(cfg, s.mem, s.lines[l]);
    }
  }
}
