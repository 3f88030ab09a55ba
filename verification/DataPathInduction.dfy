/** The data path's invariant holds at first, and every kind of step keeps it.

At first the buffers of the queue and of the sockets are constructed in a row; the buffers of the lines are
constructed likewise at the start. What follows for whole runs is the matter of `DataPathTheorems`.
*/
module DataPathInduction {
  import opened Common
  import opened Seqs
  import opened LargeBuffers
  import opened DataPath
  import opened DataPathInvariant
  import opened DataPathSteps
  import opened DataPathHistory
  import opened DataPathCounts

  // ----- buffers that are constructed in a row

  predicate NextIsNew(m: Memory) {
    forall r :: r in m.heap ==> r < m.next
  }

  /** `m'` has `n` more blocks of the given size than `m`, and the old ones unchanged. */
  ghost predicate Grown(m: Memory, m': Memory, n: nat, size: nat) {
    && m'.next == m.next + n
    && |m'.heap| == |m.heap| + n
    && (forall r :: r in m'.heap <==> r in m.heap || m.next <= r < m.next + n)
    && (forall r :: r in m.heap ==> m'.heap[r] == m.heap[r])
    && (forall r :: m.next <= r < m.next + n && r in m'.heap ==> |m'.heap[r]| == size)
  }

  lemma {:induction false} BlockCount(first: Ref, n: nat)
    ensures |Blocks(first, n)| == n
  {
    if n == 0 {
      assert Blocks(first, n) == {};
    } else {
      BlockCount(first, n - 1);
      BlocksRange(first, n);
      BlocksRange(first, n - 1);
      assert Blocks(first, n) == Blocks(first, n - 1) + {first + n - 1};
    }
  }

  lemma NewBuffersGrow(m: Memory, n: nat, size: nat)
    requires size > 0 && NextIsNew(m)
    ensures NextIsNew(NewBuffers(m, n, size).0) && Grown(m, NewBuffers(m, n, size).0, n, size)
  {
    var m' := NewBuffers(m, n, size).0;
    BlocksRange(m.next, n);
    assert m'.heap.Keys == m.heap.Keys + Blocks(m.next, n);
    BlockCount(m.next, n);
    assert |m'.heap.Keys| == |m.heap.Keys| + n;
  }

  lemma {:induction false} NewBuffersHolders(bs: seq<LargeBuffer>, first: Ref, r: Ref)
    requires forall k :: 0 <= k < |bs| ==> bs[k].data == Some(first + k)
    ensures Sum(Holder(r), bs) == if first <= r < first + |bs| then 1 else 0
  {
    if bs == [] {
    } else {
      NewBuffersHolders(bs[..|bs| - 1], first, r);
    }
  }

  /** As sockets or as lines, `bs` hold the blocks from `first` on. */
  lemma NewHolders(bs: seq<LargeBuffer>, first: Ref, r: Ref)
    requires forall k :: 0 <= k < |bs| ==> bs[k].data == Some(first + k)
    ensures Sum(SocketHolds(r), Map(ToSocket, bs)) == if first <= r < first + |bs| then 1 else 0
    ensures Sum(LineHolds(r), Map(ToLine, bs)) == if first <= r < first + |bs| then 1 else 0
  {
    SumMap(ToSocket, SocketHolds(r), Holder(r), bs);
    SumMap(ToLine, LineHolds(r), Holder(r), bs);
    NewBuffersHolders(bs, first, r);
  }

  // ----- the first state

  function InitialTrash(cfg: Config): (Memory, seq<LargeBuffer>) {
    NewBuffers(Memory(map[], 0), cfg.prefilled, cfg.bufferSize)
  }

  function InitialSockets(cfg: Config): (Memory, seq<LargeBuffer>) {
    NewBuffers(InitialTrash(cfg).0, cfg.nSockets, cfg.bufferSize)
  }

  lemma InitialParts(cfg: Config)
    ensures var s := Initial(cfg);
            && s.mem == InitialSockets(cfg).0
            && s.valid == [] && s.lines == []
            && s.trash == InitialTrash(cfg).1
            && s.sockets == Map(ToSocket, InitialSockets(cfg).1)
  {
  }

  lemma InitialMemory(cfg: Config)
    requires WellFormed(cfg)
    ensures Grown(Memory(map[], 0), InitialTrash(cfg).0, cfg.prefilled, cfg.bufferSize)
    ensures Grown(InitialTrash(cfg).0, InitialSockets(cfg).0, cfg.nSockets, cfg.bufferSize)
    ensures NextIsNew(InitialSockets(cfg).0)
  {
    NewBuffersGrow(Memory(map[], 0), cfg.prefilled, cfg.bufferSize);
    NewBuffersGrow(InitialTrash(cfg).0, cfg.nSockets, cfg.bufferSize);
  }

  lemma NoOwners(r: Ref)
    ensures Sum(EntryHolds(r), []) == 0 && Sum(LineHolds(r), []) == 0
  {
  }

  lemma OwnersOfRows(s: State, trash: (Memory, seq<LargeBuffer>), sockets: (Memory, seq<LargeBuffer>), r: Ref)
    requires s.valid == [] && s.lines == [] && s.trash == trash.1 && s.sockets == Map(ToSocket, sockets.1)
    requires trash.0.next == |trash.1|
    requires forall k :: 0 <= k < |trash.1| ==> trash.1[k].data == Some(k)
    requires forall k :: 0 <= k < |sockets.1| ==> sockets.1[k].data == Some(trash.0.next + k)
    ensures Owners(s, r) == if r < |trash.1| + |sockets.1| then 1 else 0
  {
    NewBuffersHolders(trash.1, 0, r);
    NewHolders(sockets.1, trash.0.next, r);
    NoOwners(r);
  }

  lemma InitialBlocks(cfg: Config)
    requires WellFormed(cfg)
    ensures |InitialSockets(cfg).0.heap| == cfg.prefilled + cfg.nSockets
    ensures forall r :: r in InitialSockets(cfg).0.heap <==> 0 <= r < cfg.prefilled + cfg.nSockets
    ensures NextIsNew(InitialSockets(cfg).0)
  {
    InitialMemory(cfg);
  }

  lemma InitialOwnersAt(cfg: Config, r: Ref)
    requires WellFormed(cfg)
    ensures Owners(Initial(cfg), r) == if r < cfg.prefilled + cfg.nSockets then 1 else 0
  {
    var trash, sockets := InitialTrash(cfg), InitialSockets(cfg);
    InitialParts(cfg);
    OwnersOfRows(Initial(cfg), trash, sockets, r);
  }

  lemma InitialOwned(cfg: Config)
    requires WellFormed(cfg)
    ensures Owned(Initial(cfg))
    ensures |Initial(cfg).mem.heap| == cfg.prefilled + cfg.nSockets
  {
    InitialParts(cfg);
    InitialBlocks(cfg);
    forall r: Ref
      ensures Owners(Initial(cfg), r) == if r in Initial(cfg).mem.heap then 1 else 0
    {
      InitialOwnersAt(cfg, r);
    }
  }

  lemma NewBuffersAreOk(cfg: Config, m: Memory, n: nat)
    requires cfg.bufferSize > 0 && NextIsNew(m)
    ensures var (m', bufs) := NewBuffers(m, n, cfg.bufferSize);
            forall k :: 0 <= k < n ==> BufOk(cfg, m', bufs[k])
  {
    NewBuffersGrow(m, n, cfg.bufferSize);
    var (m', bufs) := NewBuffers(m, n, cfg.bufferSize);
    forall k | 0 <= k < n
      ensures BufOk(cfg, m', bufs[k])
    {
      assert m.next + k in m'.heap;
    }
  }

  lemma StillOk(cfg: Config, m: Memory, n: nat, bufs: seq<LargeBuffer>)
    requires cfg.bufferSize > 0 && NextIsNew(m)
    requires forall k :: 0 <= k < |bufs| ==> BufOk(cfg, m, bufs[k])
    ensures forall k :: 0 <= k < |bufs| ==> BufOk(cfg, NewBuffers(m, n, cfg.bufferSize).0, bufs[k])
  {
    NewBuffersGrow(m, n, cfg.bufferSize);
  }

  lemma InitialBuffers(cfg: Config)
    requires WellFormed(cfg)
    ensures forall k :: 0 <= k < cfg.prefilled ==> BufOk(cfg, InitialSockets(cfg).0, InitialTrash(cfg).1[k])
    ensures forall k :: 0 <= k < cfg.nSockets ==> BufOk(cfg, InitialSockets(cfg).0, InitialSockets(cfg).1[k])
  {
    var trash, sockets := InitialTrash(cfg), InitialSockets(cfg);
    NewBuffersGrow(Memory(map[], 0), cfg.prefilled, cfg.bufferSize);
    NewBuffersAreOk(cfg, Memory(map[], 0), cfg.prefilled);
    StillOk(cfg, trash.0, cfg.nSockets, trash.1);
    NewBuffersAreOk(cfg, trash.0, cfg.nSockets);
  }

  lemma InitialSlots(cfg: Config)
    requires WellFormed(cfg)
    ensures SlotsOk(cfg, Initial(cfg))
  {
    var s := Initial(cfg);
    InitialParts(cfg);
    InitialBuffers(cfg);
    forall k | 0 <= k < |s.sockets|
      ensures SocketOk(cfg, s.mem, s.sockets[k])
    {
      assert s.sockets[k] == ToSocket(InitialSockets(cfg).1[k]);
    }
  }

  lemma InitialShape(cfg: Config)
    ensures Shape(cfg, Initial(cfg))
  {
  }

  lemma NewSocketSums(bufs: seq<LargeBuffer>)
    ensures Sum(SocketBytes, Map(ToSocket, bufs)) == 0
    ensures Sum(IsArrived, Map(ToSocket, bufs)) == 0
  {
    var sockets := Map(ToSocket, bufs);
    assert forall i :: 0 <= i < |sockets| ==> sockets[i].pc == Listening;
    SumZero(SocketBytes, sockets);
    SumZero(IsArrived, sockets);
  }

  lemma InitialCounts(cfg: Config)
    requires WellFormed(cfg)
    ensures CountInv(cfg, Initial(cfg))
  {
    InitialParts(cfg);
    NewSocketSums(InitialSockets(cfg).1);
    NoStopYet(Initial(cfg));
  }

  lemma InitialHistory(cfg: Config)
    ensures Shape(cfg, Initial(cfg)) && FifoOk(cfg, Initial(cfg)) && LinesSeeTheirFrames(cfg, Initial(cfg))
  {
    InitialShape(cfg);
    InitialParts(cfg);
  }

  lemma InitialLive(cfg: Config)
    requires |Initial(cfg).mem.heap| == cfg.prefilled + cfg.nSockets
    ensures LiveOk(cfg, Initial(cfg))
  {
    InitialShape(cfg);
    InitialParts(cfg);
  }

  lemma InitialInv(cfg: Config)
    requires WellFormed(cfg)
    ensures Inv(cfg, Initial(cfg))
  {
    InitialOwned(cfg);
    InitialSlots(cfg);
    InitialCounts(cfg);
    InitialHistory(cfg);
    InitialLive(cfg);
  }

  // ----- the steps that are not a socket's or a line's

  lemma LaunchParts(cfg: Config, s: State)
    requires cfg.bufferSize > 0 && NextIsNew(s.mem)
    ensures var s' := Launched(cfg, s);
            && s'.valid == s.valid && s'.trash == s.trash && s'.sockets == s.sockets
            && NextIsNew(s'.mem) && Grown(s.mem, s'.mem, cfg.nLines, cfg.bufferSize)
            && |s'.lines| == cfg.nLines
            && (forall k :: 0 <= k < cfg.nLines ==>
                  s'.lines[k] == Line(LargeBuffer(0, Some(s.mem.next + k)), Processing(false)))
  {
    NewBuffersGrow(s.mem, cfg.nLines, cfg.bufferSize);
    var bufs := NewBuffers(s.mem, cfg.nLines, cfg.bufferSize).1;
    forall k | 0 <= k < cfg.nLines
      ensures Launched(cfg, s).lines[k] == Line(LargeBuffer(0, Some(s.mem.next + k)), Processing(false))
    {
      assert Launched(cfg, s).lines[k] == ToLine(bufs[k]);
    }
  }

  lemma {:induction false} NewLineHolders(lines: seq<Line>, first: Ref, r: Ref)
    requires forall k :: 0 <= k < |lines| ==> lines[k].buf.data == Some(first + k)
    ensures Sum(LineHolds(r), lines) == if first <= r < first + |lines| then 1 else 0
  {
    if lines == [] {
    } else {
      NewLineHolders(lines[..|lines| - 1], first, r);
    }
  }

  lemma LaunchOwners(s: State, s': State, r: Ref)
    requires Owners(s, r) == (if r in s.mem.heap then 1 else 0) && NextIsNew(s.mem) && s.lines == []
    requires s'.valid == s.valid && s'.trash == s.trash && s'.sockets == s.sockets
    requires r in s'.mem.heap <==> r in s.mem.heap || s.mem.next <= r < s.mem.next + |s'.lines|
    requires forall k :: 0 <= k < |s'.lines| ==> s'.lines[k].buf.data == Some(s.mem.next + k)
    ensures Owners(s', r) == if r in s'.mem.heap then 1 else 0
  {
    NewLineHolders(s'.lines, s.mem.next, r);
    NoOwners(r);
  }

  lemma LaunchOwnersAt(cfg: Config, s: State, r: Ref)
    requires Owners(s, r) == (if r in s.mem.heap then 1 else 0) && NextIsNew(s.mem) && s.lines == []
    requires cfg.bufferSize > 0
    ensures Owners(Launched(cfg, s), r) == if r in Launched(cfg, s).mem.heap then 1 else 0
  {
    LaunchParts(cfg, s);
    LaunchOwners(s, Launched(cfg, s), r);
  }

  lemma LaunchOwned(cfg: Config, s: State)
    requires Shape(cfg, s) && Owned(s) && cfg.bufferSize > 0 && s.start.Accepting?
    ensures Owned(Launched(cfg, s))
    ensures |Launched(cfg, s).mem.heap| == |s.mem.heap| + cfg.nLines
  {
    forall r: Ref
      ensures Owners(Launched(cfg, s), r) == if r in Launched(cfg, s).mem.heap then 1 else 0
    {
      LaunchOwnersAt(cfg, s, r);
    }
    LaunchParts(cfg, s);
  }

  lemma LaunchSlots(cfg: Config, s: State)
    requires Shape(cfg, s) && SlotsOk(cfg, s) && NextIsNew(s.mem) && cfg.bufferSize > 0 && s.start.Accepting?
    ensures Shape(cfg, Launched(cfg, s)) && SlotsOk(cfg, Launched(cfg, s))
  {
    LaunchParts(cfg, s);
  }

  lemma LaunchHistory(cfg: Config, s: State)
    requires Shape(cfg, s) && SlotsOk(cfg, s) && NextIsNew(s.mem) && cfg.bufferSize > 0 && s.start.Accepting?
    requires FifoOk(cfg, s) && Shape(cfg, Launched(cfg, s))
    ensures FifoOk(cfg, Launched(cfg, s)) && LinesSeeTheirFrames(cfg, Launched(cfg, s))
  {
    var s' := Launched(cfg, s);
    LaunchParts(cfg, s);
    HeldIsLive(cfg, s);
    AllocationTouchesNoFrame(s, s'.mem);
    forall i | 0 <= i < cfg.nSockets
      ensures Queued(s'.mem, s'.valid, i) == Queued(s.mem, s.valid, i)
    {
      QueuedFrame(s.mem, s'.mem, s.valid, i);
    }
  }

  lemma LaunchLive(cfg: Config, s: State)
    requires Shape(cfg, s) && LiveOk(cfg, s) && s.start.Accepting?
    requires |Launched(cfg, s).mem.heap| == |s.mem.heap| + cfg.nLines
    ensures LiveOk(cfg, Launched(cfg, s))
  {
    NewLineSums(NewBuffers(s.mem, cfg.nLines, cfg.bufferSize).1);
    assert s.lines == [] && Sum(IsRefusedLine, s.lines) == 0;
  }

  lemma {:induction false} PillsHoldNothing(n: nat, r: Ref)
    ensures Sum(EntryHolds(r), Pills(n)) == 0
  {
    SumZero(EntryHolds(r), Pills(n));
  }

  lemma EnqueueEmptyOwned(cfg: Config, s: State, k: nat)
    requires Owned(s) && Enabled(cfg, s, EnqueueEmpty(k))
    ensures Owned(Next(cfg, s, EnqueueEmpty(k)))
  {
    var s' := Next(cfg, s, EnqueueEmpty(k));
    forall r: Ref
      ensures Owners(s', r) == Owners(s, r)
    {
      SumConcat(EntryHolds(r), s.valid, Pills(cfg.nLines));
      PillsHoldNothing(cfg.nLines, r);
    }
  }

  lemma {:induction false} PillsAreNoFrames(m: Memory, valid: seq<Entry>, n: nat, i: nat)
    ensures Queued(m, valid + Pills(n), i) == Queued(m, valid, i)
  {
    if n == 0 {
      assert valid + Pills(0) == valid;
    } else {
      PillsAreNoFrames(m, valid, n - 1, i);
      assert valid + Pills(n) == (valid + Pills(n - 1)) + [PILL];
      QueuedPush(m, valid + Pills(n - 1), PILL, i);
    }
  }

  lemma EnqueueEmptyHistory(cfg: Config, s: State, k: nat)
    requires Shape(cfg, s) && SlotsOk(cfg, s) && FifoOk(cfg, s) && LinesSeeTheirFrames(cfg, s)
    requires Enabled(cfg, s, EnqueueEmpty(k))
    ensures var s' := Next(cfg, s, EnqueueEmpty(k));
            Shape(cfg, s') && SlotsOk(cfg, s') && FifoOk(cfg, s') && LinesSeeTheirFrames(cfg, s')
  {
    forall i | 0 <= i < cfg.nSockets
      ensures Queued(s.mem, s.valid + Pills(cfg.nLines), i) == Queued(s.mem, s.valid, i)
    {
      PillsAreNoFrames(s.mem, s.valid, cfg.nLines, i);
    }
  }

  // ----- every step keeps the invariant

  lemma ReceiveInv(cfg: Config, s: State, i: nat, bytes: Bytes)
    requires Inv(cfg, s) && Enabled(cfg, s, Receive(i, bytes))
    ensures Inv(cfg, Received(s, i, bytes))
  {
    ReceiveOwned(cfg, s, i, bytes);
    ReceiveSlots(cfg, s, i, bytes);
    ReceiveCounts(cfg, s, i, bytes);
    ReceiveHistory(cfg, s, i, bytes);
    assert |Received(s, i, bytes).mem.heap.Keys| == |s.mem.heap.Keys|;
  }

  lemma PushValidInv(cfg: Config, s: State, i: nat, ok: bool)
    requires Inv(cfg, s) && Enabled(cfg, s, PushValid(i, ok))
    ensures Inv(cfg, PushedValid(s, i, ok))
  {
    PushValidOwned(cfg, s, i, ok);
    PushValidSlots(cfg, s, i, ok);
    PushValidCounts(cfg, s, i, ok);
    PushValidHistory(cfg, s, i, ok);
  }

  lemma PullTrashInv(cfg: Config, s: State, i: nat, from: Option<nat>)
    requires Inv(cfg, s) && Enabled(cfg, s, PullTrash(i, from))
    ensures Inv(cfg, PulledTrash(cfg, s, i, from))
  {
    match from {
      case Some(j) =>
        PullTrashOwned(cfg, s, i, j);
        PullTrashSlots(cfg, s, i, j);
      case None =>
        AllocateOwned(cfg, s, i);
        AllocateSlots(cfg, s, i);
    }
    PullTrashCounts(cfg, s, i, from);
    PullTrashHistory(cfg, s, i, from);
  }

  lemma FinishReadInv(cfg: Config, s: State, i: nat)
    requires Inv(cfg, s) && Enabled(cfg, s, FinishRead(i))
    ensures Inv(cfg, FinishedRead(cfg, s, i))
  {
    FinishReadMemory(cfg, s, i);
    FinishReadOwned(cfg, s, i);
    FinishReadSlots(cfg, s, i);
    FinishReadCounts(cfg, s, i);
    FinishReadHistory(cfg, s, i);
  }

  lemma PushTrashInv(cfg: Config, s: State, l: nat, ok: bool)
    requires Inv(cfg, s) && Enabled(cfg, s, PushTrash(l, ok))
    ensures Inv(cfg, PushedTrash(s, l, ok))
  {
    PushTrashOwned(cfg, s, l, ok);
    PushTrashSlots(cfg, s, l, ok);
    PushTrashLive(cfg, s, l, ok);
    PushTrashCounts(cfg, s, l, ok);
    LineStepHistory(cfg, s, PushTrash(l, ok));
  }

  lemma ClassifyInv(cfg: Config, s: State, l: nat)
    requires Inv(cfg, s) && Enabled(cfg, s, Classify(l))
    ensures Inv(cfg, Classified(s, l))
  {
    ClassifyOwned(cfg, s, l);
    ClassifySlots(cfg, s, l);
    ClassifyLive(cfg, s, l);
    ClassifyCounts(cfg, s, l);
    LineStepHistory(cfg, s, Classify(l));
  }

  lemma TakeValidInv(cfg: Config, s: State, l: nat, j: nat)
    requires Inv(cfg, s) && Enabled(cfg, s, TakeValid(l, j))
    ensures Inv(cfg, TookValid(s, l, j))
  {
    if s.lines[l].buf.data.Some? {
      NobodyElseHolds(s, AtLine(l), s.lines[l].buf.data.value);
    }
    TakeValidSlots(cfg, s, l, j);
    TakeValidOwned(cfg, s, l, j);
    TakeValidLive(cfg, s, l, j);
    TakeValidCounts(cfg, s, l, j);
    TakeValidFifo(cfg, s, l, j);
    TakeValidSees(cfg, s, l, j);
  }

  lemma LaunchInv(cfg: Config, s: State)
    requires Inv(cfg, s) && Enabled(cfg, s, Launch)
    ensures Inv(cfg, Launched(cfg, s))
  {
    StartStepCounts(cfg, s, Launch);
    LaunchOwned(cfg, s);
    LaunchSlots(cfg, s);
    LaunchHistory(cfg, s);
    LaunchLive(cfg, s);
  }

  lemma EnqueueEmptyInv(cfg: Config, s: State, k: nat)
    requires Inv(cfg, s) && Enabled(cfg, s, EnqueueEmpty(k))
    ensures Inv(cfg, Next(cfg, s, EnqueueEmpty(k)))
  {
    EnqueueEmptyCounts(cfg, s, k);
    EnqueueEmptyOwned(cfg, s, k);
    EnqueueEmptyHistory(cfg, s, k);
  }

  /** A step that touches no buffer, no line and no history. */
  lemma SameBuffersInv(cfg: Config, s: State, s': State)
    requires Inv(cfg, s) && CountInv(cfg, s') && Shape(cfg, s')
    requires s'.mem == s.mem && s'.valid == s.valid && s'.trash == s.trash && s'.sockets == s.sockets
    requires s'.lines == s.lines && s'.history == s.history && s'.stats == s.stats
    ensures Inv(cfg, s')
  {
    SameOwners(s, s');
  }

  lemma AcceptInv(cfg: Config, s: State)
    requires Inv(cfg, s) && Enabled(cfg, s, Accept)
    ensures Inv(cfg, Next(cfg, s, Accept))
  {
    StartStepCounts(cfg, s, Accept);
    SameBuffersInv(cfg, s, Next(cfg, s, Accept));
  }

  lemma WakeInv(cfg: Config, s: State, k: nat)
    requires Inv(cfg, s) && Enabled(cfg, s, Wake(k))
    ensures Inv(cfg, Next(cfg, s, Wake(k)))
  {
    WakeCounts(cfg, s, k);
    SameBuffersInv(cfg, s, Next(cfg, s, Wake(k)));
  }

  lemma ExchangeInv(cfg: Config, s: State, k: nat)
    requires Inv(cfg, s) && Enabled(cfg, s, Exchange(k))
    ensures Inv(cfg, Next(cfg, s, Exchange(k)))
  {
    ExchangeCounts(cfg, s, k);
    SameBuffersInv(cfg, s, Next(cfg, s, Exchange(k)));
  }

  lemma SeeAbortReadyInv(cfg: Config, s: State, k: nat)
    requires Inv(cfg, s) && Enabled(cfg, s, SeeAbortReady(k))
    ensures Inv(cfg, Next(cfg, s, SeeAbortReady(k)))
  {
    SeeAbortReadyCounts(cfg, s, k);
    SameBuffersInv(cfg, s, Next(cfg, s, SeeAbortReady(k)));
  }

  lemma SameOwners(s: State, s': State)
    requires Owned(s)
    requires s'.mem == s.mem && s'.valid == s.valid && s'.trash == s.trash && s'.sockets == s.sockets
    requires s'.lines == s.lines
    ensures Owned(s')
  {
    forall r: Ref
      ensures Owners(s', r) == Owners(s, r)
    {
    }
  }

  lemma SocketStepInv(cfg: Config, s: State, e: Event)
    requires Inv(cfg, s) && Enabled(cfg, s, e) && (e.Receive? || e.PushValid? || e.PullTrash? || e.FinishRead?)
    ensures Inv(cfg, Next(cfg, s, e))
  {
    match e {
      case Receive(i, bytes) => ReceiveInv(cfg, s, i, bytes);
      case PushValid(i, ok) => PushValidInv(cfg, s, i, ok);
      case PullTrash(i, from) => PullTrashInv(cfg, s, i, from);
      case FinishRead(i) => FinishReadInv(cfg, s, i);
    }
  }

  lemma LineStepInv(cfg: Config, s: State, e: Event)
    requires Inv(cfg, s) && Enabled(cfg, s, e) && (e.PushTrash? || e.TakeValid? || e.Classify?)
    ensures Inv(cfg, Next(cfg, s, e))
  {
    match e {
      case PushTrash(l, ok) => PushTrashInv(cfg, s, l, ok);
      case TakeValid(l, j) => TakeValidInv(cfg, s, l, j);
      case Classify(l) => ClassifyInv(cfg, s, l);
    }
  }

  lemma StopStepInv(cfg: Config, s: State, e: Event)
    requires Inv(cfg, s) && Enabled(cfg, s, e) && (e.Wake? || e.Exchange? || e.SeeAbortReady? || e.EnqueueEmpty?)
    ensures Inv(cfg, Next(cfg, s, e))
  {
    match e {
      case Wake(k) => WakeInv(cfg, s, k);
      case Exchange(k) => ExchangeInv(cfg, s, k);
      case SeeAbortReady(k) => SeeAbortReadyInv(cfg, s, k);
      case EnqueueEmpty(k) => EnqueueEmptyInv(cfg, s, k);
    }
  }
}
