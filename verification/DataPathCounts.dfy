/** Every atomic step of the data path keeps the counters balanced.

The balances are sums over the queue, the sockets, the lines and the stopping threads, of which a step
changes one element or two: the lemmas say by how much each sum changes.
*/
module DataPathCounts {
  import opened Common
  import opened Seqs
  import opened LargeBuffers
  import opened DataPath
  import opened DataPathInvariant

  predicate CountInv(cfg: Config, s: State) {
    BytesOk(s) && FramesOk(s) && CapacityOk(cfg, s) && StopOk(cfg, s)
  }

  lemma SocketSums(s: State, i: nat, x: Socket)
    requires i < |s.sockets|
    ensures Sum(SocketBytes, s.sockets[i := x])
         == Sum(SocketBytes, s.sockets) - SocketBytes(s.sockets[i]) + SocketBytes(x)
    ensures Sum(IsArrived, s.sockets[i := x]) == Sum(IsArrived, s.sockets) - IsArrived(s.sockets[i]) + IsArrived(x)
  {
    SumUpdate(SocketBytes, s.sockets, i, x);
    SumUpdate(IsArrived, s.sockets, i, x);
  }

  lemma LineSums(s: State, l: nat, x: Line)
    requires l < |s.lines|
    ensures Sum(LineBytes, s.lines[l := x]) == Sum(LineBytes, s.lines) - LineBytes(s.lines[l]) + LineBytes(x)
    ensures Sum(HoldsPill, s.lines[l := x]) == Sum(HoldsPill, s.lines) - HoldsPill(s.lines[l]) + HoldsPill(x)
  {
    SumUpdate(LineBytes, s.lines, l, x);
    SumUpdate(HoldsPill, s.lines, l, x);
  }

  lemma EntrySums(s: State, e: Entry)
    ensures Sum(EntryBytes, s.valid + [e]) == Sum(EntryBytes, s.valid) + EntryBytes(e)
    ensures Sum(IsData, s.valid + [e]) == Sum(IsData, s.valid) + IsData(e)
    ensures Sum(IsPill, s.valid + [e]) == Sum(IsPill, s.valid) + IsPill(e)
  {
    SumPush(EntryBytes, s.valid, e);
    SumPush(IsData, s.valid, e);
    SumPush(IsPill, s.valid, e);
  }

  lemma RemoveSums(s: State, j: nat)
    requires j < |s.valid|
    ensures Sum(EntryBytes, Remove(s.valid, j)) == Sum(EntryBytes, s.valid) - EntryBytes(s.valid[j])
    ensures Sum(IsData, Remove(s.valid, j)) == Sum(IsData, s.valid) - IsData(s.valid[j])
    ensures Sum(IsPill, Remove(s.valid, j)) == Sum(IsPill, s.valid) - IsPill(s.valid[j])
  {
    SumRemove(EntryBytes, s.valid, j);
    SumRemove(IsData, s.valid, j);
    SumRemove(IsPill, s.valid, j);
  }

  lemma ReceiveCounts(cfg: Config, s: State, i: nat, bytes: Bytes)
    requires CountInv(cfg, s) && Enabled(cfg, s, Receive(i, bytes))
    ensures CountInv(cfg, Received(s, i, bytes))
  {
    SocketSums(s, i, Received(s, i, bytes).sockets[i]);
  }

  lemma PushValidCounts(cfg: Config, s: State, i: nat, ok: bool)
    requires SlotsOk(cfg, s) && CountInv(cfg, s) && Enabled(cfg, s, PushValid(i, ok))
    ensures CountInv(cfg, PushedValid(s, i, ok))
  {
    SocketSums(s, i, PushedValid(s, i, ok).sockets[i]);
    assert SocketOk(cfg, s.mem, s.sockets[i]);
    EntrySums(s, Entry(FromSocket(i), s.sockets[i].buf));
  }

  lemma PullTrashCounts(cfg: Config, s: State, i: nat, from: Option<nat>)
    requires CountInv(cfg, s) && Enabled(cfg, s, PullTrash(i, from))
    ensures CountInv(cfg, PulledTrash(cfg, s, i, from))
  {
    SocketSums(s, i, PulledTrash(cfg, s, i, from).sockets[i]);
  }

  lemma FinishReadCounts(cfg: Config, s: State, i: nat)
    requires CountInv(cfg, s) && Enabled(cfg, s, FinishRead(i))
    ensures CountInv(cfg, FinishedRead(cfg, s, i))
  {
    SocketSums(s, i, FinishedRead(cfg, s, i).sockets[i]);
  }

  lemma PushTrashCounts(cfg: Config, s: State, l: nat, ok: bool)
    requires SlotsOk(cfg, s) && CountInv(cfg, s) && Enabled(cfg, s, PushTrash(l, ok))
    ensures CountInv(cfg, PushedTrash(s, l, ok))
  {
    LineSums(s, l, PushedTrash(s, l, ok).lines[l]);
    assert LineOk(cfg, s.mem, s.lines[l]);
  }

  lemma TakenLine(s: State, l: nat, j: nat)
    requires l < |s.lines| && j < |s.valid| && s.lines[l].pc.Waiting?
    ensures var before, after := s.lines[l], TookValid(s, l, j).lines[l];
            && LineBytes(after) == LineBytes(before) + EntryBytes(s.valid[j])
            && HoldsPill(after) == HoldsPill(before) + IsPill(s.valid[j])
  {
  }

  lemma TakeValidBytes(s: State, l: nat, j: nat)
    requires l < |s.lines| && j < |s.valid| && s.lines[l].pc.Waiting? && BytesOk(s)
    ensures BytesOk(TookValid(s, l, j))
  {
    TakenLine(s, l, j);
    LineSums(s, l, TookValid(s, l, j).lines[l]);
    RemoveSums(s, j);
  }

  lemma TakeValidFrames(cfg: Config, s: State, l: nat, j: nat)
    requires l < |s.lines| && j < |s.valid| && FramesOk(s) && CapacityOk(cfg, s)
    ensures FramesOk(TookValid(s, l, j)) && CapacityOk(cfg, TookValid(s, l, j))
  {
    RemoveSums(s, j);
  }

  lemma TakeValidStops(cfg: Config, s: State, l: nat, j: nat)
    requires l < |s.lines| && j < |s.valid| && s.lines[l].pc.Waiting? && StopOk(cfg, s)
    ensures StopOk(cfg, TookValid(s, l, j))
  {
    TakenLine(s, l, j);
    LineSums(s, l, TookValid(s, l, j).lines[l]);
    RemoveSums(s, j);
  }

  /** The bytes, the frame or the pill move from the queue to the line. */
  lemma TakeValidCounts(cfg: Config, s: State, l: nat, j: nat)
    requires CountInv(cfg, s) && Enabled(cfg, s, TakeValid(l, j))
    ensures CountInv(cfg, TookValid(s, l, j))
  {
    TakeValidBytes(s, l, j);
    TakeValidFrames(cfg, s, l, j);
    TakeValidStops(cfg, s, l, j);
  }

  /** A frame's bytes are counted as done; a pill has none. */
  lemma ClassifyCounts(cfg: Config, s: State, l: nat)
    requires cfg.bufferSize > 0 && SlotsOk(cfg, s) && CountInv(cfg, s) && Enabled(cfg, s, Classify(l))
    ensures CountInv(cfg, Classified(s, l))
  {
    LineSums(s, l, Classified(s, l).lines[l]);
    assert LineOk(cfg, s.mem, s.lines[l]);
  }

  lemma StopSums(s: State, k: nat, x: StopPc)
    requires k < |s.stops|
    ensures Sum(IsEmptying, s.stops[k := x]) == Sum(IsEmptying, s.stops) - IsEmptying(s.stops[k]) + IsEmptying(x)
    ensures Sum(HasEmptied, s.stops[k := x]) == Sum(HasEmptied, s.stops) - HasEmptied(s.stops[k]) + HasEmptied(x)
  {
    SumUpdate(IsEmptying, s.stops, k, x);
    SumUpdate(HasEmptied, s.stops, k, x);
  }

  lemma {:induction false} PillSums(n: nat)
    ensures Sum(EntryBytes, Pills(n)) == 0 && Sum(IsData, Pills(n)) == 0 && Sum(IsPill, Pills(n)) == n
  {
    if n == 0 {
    } else {
      PillSums(n - 1);
      assert Pills(n)[..n - 1] == Pills(n - 1);
    }
  }

  /** Only the thread that won the exchange pushes pills, and only once. */
  lemma EnqueueEmptyCounts(cfg: Config, s: State, k: nat)
    requires CountInv(cfg, s) && Enabled(cfg, s, EnqueueEmpty(k))
    ensures CountInv(cfg, Next(cfg, s, EnqueueEmpty(k)))
  {
    StopSums(s, k, Returned(true));
    SumNonNegative(HasEmptied, s.stops);
    SumCovers(IsEmptying, s.stops, k, k);
    PillSums(cfg.nLines);
    SumConcat(EntryBytes, s.valid, Pills(cfg.nLines));
    SumConcat(IsData, s.valid, Pills(cfg.nLines));
    SumConcat(IsPill, s.valid, Pills(cfg.nLines));
  }

  /** Only the stopping threads and the flag changed. */
  predicate SameButStops(s: State, s': State) {
    && s'.valid == s.valid && s'.trash == s.trash && s'.sockets == s.sockets && s'.lines == s.lines
    && s'.stats == s.stats && s'.pills == s.pills && s'.start == s.start
  }

  lemma StopsCount(cfg: Config, s: State, s': State)
    requires CountInv(cfg, s) && SameButStops(s, s') && StopOk(cfg, s')
    ensures CountInv(cfg, s')
  {
  }

  lemma WakeCounts(cfg: Config, s: State, k: nat)
    requires CountInv(cfg, s) && Enabled(cfg, s, Wake(k))
    ensures CountInv(cfg, Next(cfg, s, Wake(k)))
  {
    StopSums(s, k, Awake);
    StopsCount(cfg, s, Next(cfg, s, Wake(k)));
  }

  lemma ExchangeCounts(cfg: Config, s: State, k: nat)
    requires CountInv(cfg, s) && Enabled(cfg, s, Exchange(k))
    ensures CountInv(cfg, Next(cfg, s, Exchange(k)))
  {
    var s' := Next(cfg, s, Exchange(k));
    StopSums(s, k, s'.stops[k]);
    SumNonNegative(HasEmptied, s.stops);
    SumNonNegative(IsEmptying, s.stops);
    StopsCount(cfg, s, s');
  }

  lemma SeeAbortReadyCounts(cfg: Config, s: State, k: nat)
    requires CountInv(cfg, s) && Enabled(cfg, s, SeeAbortReady(k))
    ensures CountInv(cfg, Next(cfg, s, SeeAbortReady(k)))
  {
    StopSums(s, k, AbortReady);
    SumCovers(IsEmptying, s.stops, k, k);
    SumNonNegative(HasEmptied, s.stops);
    StopsCount(cfg, s, Next(cfg, s, SeeAbortReady(k)));
  }

  lemma NoStopYet(s: State)
    requires forall k :: 0 <= k < |s.stops| ==> s.stops[k].Calling?
    ensures Sum(IsEmptying, s.stops) == 0 && Sum(HasEmptied, s.stops) == 0
  {
    SumZero(IsEmptying, s.stops);
    SumZero(HasEmptied, s.stops);
  }

  lemma NewLineSums(bufs: seq<LargeBuffer>)
    ensures Sum(LineBytes, Map(ToLine, bufs)) == 0
    ensures Sum(HoldsPill, Map(ToLine, bufs)) == 0
    ensures Sum(IsRefusedLine, Map(ToLine, bufs)) == 0
  {
    var lines := Map(ToLine, bufs);
    assert forall i :: 0 <= i < |lines| ==> lines[i].pc == Processing(false);
    SumZero(LineBytes, lines);
    SumZero(HoldsPill, lines);
    SumZero(IsRefusedLine, lines);
  }

  lemma StartStepCounts(cfg: Config, s: State, e: Event)
    requires Shape(cfg, s) && CountInv(cfg, s) && Enabled(cfg, s, e) && (e.Accept? || e.Launch?)
    ensures CountInv(cfg, Next(cfg, s, e))
  {
    NoStopYet(s);
    assert s.lines == [];
    if e.Launch? {
      NewLineSums(NewBuffers(s.mem, cfg.nLines, cfg.bufferSize).1);
    }
  }
}
