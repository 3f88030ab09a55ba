/** Every atomic step of the data path keeps the frames: in order, complete and unaltered.

For each kind of step there is a lemma about the queued frames and one about those that lines read.
*/
module DataPathHistory {
  import opened Common
  import opened Seqs
  import opened LargeBuffers
  import opened DataPath
  import opened DataPathInvariant
  import opened DataPathSteps

  lemma QueuedPush(m: Memory, valid: seq<Entry>, e: Entry, i: nat)
    ensures Queued(m, valid + [e], i)
         == Queued(m, valid, i) + (if e.producer == FromSocket(i) then [Content(m, e.buf)] else [])
  {
    assert (valid + [e])[..|valid + [e]| - 1] == valid;
  }

  /** Only the contents of the queued buffers matter. */
  lemma {:induction false} QueuedFrame(m: Memory, m': Memory, valid: seq<Entry>, i: nat)
    requires forall k :: 0 <= k < |valid| ==> Content(m, valid[k].buf) == Content(m', valid[k].buf)
    ensures Queued(m, valid, i) == Queued(m', valid, i)
  {
    if valid == [] {
    } else {
      QueuedFrame(m, m', valid[..|valid| - 1], i);
    }
  }

  lemma {:induction false} NothingQueued(m: Memory, valid: seq<Entry>, i: nat)
    requires forall k :: 0 <= k < |valid| ==> valid[k].producer != FromSocket(i)
    ensures Queued(m, valid, i) == []
  {
    if valid == [] {
    } else {
      NothingQueued(m, valid[..|valid| - 1], i);
    }
  }

  lemma RemoveBeforeLast(valid: seq<Entry>, j: nat)
    requires j < |valid| - 1
    ensures Remove(valid, j) == Remove(valid[..|valid| - 1], j) + [valid[|valid| - 1]]
  {
  }

  /** Taking the front entry of a producer takes its oldest frame and leaves the other producers alone. */
  lemma {:induction false} QueuedRemove(m: Memory, valid: seq<Entry>, j: nat, i: nat)
    requires FrontOfProducer(valid, j)
    ensures Queued(m, valid, i)
         == (if valid[j].producer == FromSocket(i) then [Content(m, valid[j].buf)] else [])
            + Queued(m, Remove(valid, j), i)
  {
    var n := |valid| - 1;
    var front, last := valid[..n], valid[n];
    if j == n {
      assert Remove(valid, j) == front;
      if last.producer == FromSocket(i) {
        NothingQueued(m, front, i);
      }
    } else {
      QueuedRemove(m, front, j, i);
      RemoveBeforeLast(valid, j);
      QueuedPush(m, Remove(front, j), last, i);
      Shifted(if valid[j].producer == FromSocket(i) then [Content(m, valid[j].buf)] else [],
              Queued(m, Remove(front, j), i),
              if last.producer == FromSocket(i) then [Content(m, last.buf)] else []);
    }
  }

  // ----- steps that change no content

  /** The buffers that matter for the history read the same in both memories. */
  predicate SameContents(s: State, m: Memory) {
    && (forall k :: 0 <= k < |s.valid| ==> Content(s.mem, s.valid[k].buf) == Content(m, s.valid[k].buf))
    && (forall k :: 0 <= k < |s.lines| && Reads(s.lines[k]) ==>
          Content(s.mem, s.lines[k].buf) == Content(m, s.lines[k].buf))
  }

  lemma FifoFrame(cfg: Config, s: State, s': State)
    requires Shape(cfg, s) && Shape(cfg, s') && FifoOk(cfg, s)
    requires s'.valid == s.valid && s'.history == s.history && SameContents(s, s'.mem)
    ensures FifoOk(cfg, s')
  {
    forall i | 0 <= i < cfg.nSockets
      ensures s'.history.accepted[i] == s'.history.taken[i] + Queued(s'.mem, s'.valid, i)
    {
      QueuedFrame(s.mem, s'.mem, s.valid, i);
    }
  }

  /** A datagram overwrites the socket's own block only: no queued frame and no frame that a line
      reads is touched. */
  lemma ReceiveTouchesNoFrame(cfg: Config, s: State, i: nat, bytes: Bytes)
    requires Owned(s) && Enabled(cfg, s, Receive(i, bytes))
    ensures SameContents(s, Received(s, i, bytes).mem)
  {
    if bytes != [] {
      NobodyElseHolds(s, AtSocket(i), s.sockets[i].buf.data.value);
    }
  }

  lemma AllocationTouchesNoFrame(s: State, m: Memory)
    requires forall r :: r in s.mem.heap ==> r in m.heap && m.heap[r] == s.mem.heap[r]
    requires forall k :: 0 <= k < |s.valid| && s.valid[k].buf.data.Some? ==> s.valid[k].buf.data.value in s.mem.heap
    requires forall k :: 0 <= k < |s.lines| && s.lines[k].buf.data.Some? ==> s.lines[k].buf.data.value in s.mem.heap
    ensures SameContents(s, m)
  {
  }

  lemma ReleaseTouchesNoFrame(s: State, l: nat)
    requires Owned(s) && l < |s.lines| && !Reads(s.lines[l])
    ensures SameContents(s, Release(s.mem, s.lines[l].buf))
  {
    if s.lines[l].buf.data.Some? {
      NobodyElseHolds(s, AtLine(l), s.lines[l].buf.data.value);
    }
  }

  // ----- the steps

  lemma SeesFrame(cfg: Config, s: State, s': State)
    requires Shape(cfg, s) && Shape(cfg, s') && LinesSeeTheirFrames(cfg, s)
    requires s'.lines == s.lines && s'.history == s.history && SameContents(s, s'.mem)
    ensures LinesSeeTheirFrames(cfg, s')
  {
  }

  /** A socket's step that neither accepts nor changes the contents that matter. */
  lemma SameHistory(cfg: Config, s: State, s': State)
    requires Shape(cfg, s) && Shape(cfg, s') && FifoOk(cfg, s) && LinesSeeTheirFrames(cfg, s)
    requires s'.valid == s.valid && s'.lines == s.lines && s'.history == s.history && SameContents(s, s'.mem)
    ensures FifoOk(cfg, s') && LinesSeeTheirFrames(cfg, s')
  {
    FifoFrame(cfg, s, s');
    SeesFrame(cfg, s, s');
  }

  lemma ReceiveHistory(cfg: Config, s: State, i: nat, bytes: Bytes)
    requires Shape(cfg, s) && Owned(s) && FifoOk(cfg, s) && LinesSeeTheirFrames(cfg, s)
    requires Enabled(cfg, s, Receive(i, bytes)) && Shape(cfg, Received(s, i, bytes))
    ensures FifoOk(cfg, Received(s, i, bytes)) && LinesSeeTheirFrames(cfg, Received(s, i, bytes))
  {
    ReceiveTouchesNoFrame(cfg, s, i, bytes);
    SameHistory(cfg, s, Received(s, i, bytes));
  }

  lemma PullTrashTouchesNoFrame(cfg: Config, s: State, i: nat, from: Option<nat>)
    requires SlotsOk(cfg, s) && Owned(s) && cfg.bufferSize > 0 && Enabled(cfg, s, PullTrash(i, from))
    ensures SameContents(s, PulledTrash(cfg, s, i, from).mem)
  {
    if from.None? {
      assert SocketOk(cfg, s.mem, s.sockets[i]);
      GrowFromNothing(s.mem, s.sockets[i].buf, cfg.bufferSize);
      HeldIsLive(cfg, s);
      AllocationTouchesNoFrame(s, PulledTrash(cfg, s, i, from).mem);
    }
  }

  lemma PullTrashHistory(cfg: Config, s: State, i: nat, from: Option<nat>)
    requires Shape(cfg, s) && SlotsOk(cfg, s) && Owned(s) && FifoOk(cfg, s) && LinesSeeTheirFrames(cfg, s)
    requires cfg.bufferSize > 0 && Enabled(cfg, s, PullTrash(i, from)) && Shape(cfg, PulledTrash(cfg, s, i, from))
    ensures FifoOk(cfg, PulledTrash(cfg, s, i, from)) && LinesSeeTheirFrames(cfg, PulledTrash(cfg, s, i, from))
  {
    PullTrashTouchesNoFrame(cfg, s, i, from);
    SameHistory(cfg, s, PulledTrash(cfg, s, i, from));
  }

  lemma FinishReadHistory(cfg: Config, s: State, i: nat)
    requires Shape(cfg, s) && SlotsOk(cfg, s) && FifoOk(cfg, s) && LinesSeeTheirFrames(cfg, s)
    requires Enabled(cfg, s, FinishRead(i)) && Shape(cfg, FinishedRead(cfg, s, i))
    ensures FifoOk(cfg, FinishedRead(cfg, s, i)) && LinesSeeTheirFrames(cfg, FinishedRead(cfg, s, i))
  {
    FinishReadMemory(cfg, s, i);
    SameHistory(cfg, s, FinishedRead(cfg, s, i));
  }

  lemma HeldIsLive(cfg: Config, s: State)
    requires SlotsOk(cfg, s)
    ensures forall k :: 0 <= k < |s.valid| && s.valid[k].buf.data.Some? ==> s.valid[k].buf.data.value in s.mem.heap
    ensures forall k :: 0 <= k < |s.lines| && s.lines[k].buf.data.Some? ==> s.lines[k].buf.data.value in s.mem.heap
  {
    forall k | 0 <= k < |s.valid| && s.valid[k].buf.data.Some?
      ensures s.valid[k].buf.data.value in s.mem.heap
    {
      assert EntryOk(cfg, s.mem, s.valid[k]);
    }
    forall k | 0 <= k < |s.lines| && s.lines[k].buf.data.Some?
      ensures s.lines[k].buf.data.value in s.mem.heap
    {
      assert LineOk(cfg, s.mem, s.lines[k]);
    }
  }

  lemma PushValidFifo(s: State, i: nat, ok: bool, k: nat)
    requires i < |s.sockets| && s.sockets[i].pc.Arrived? && k < |s.history.accepted| && k < |s.history.taken|
    requires s.history.accepted[k] == s.history.taken[k] + Queued(s.mem, s.valid, k)
    ensures var s' := PushedValid(s, i, ok); s'.history.accepted[k] == s'.history.taken[k] + Queued(s'.mem, s'.valid, k)
  {
    QueuedPush(s.mem, s.valid, Entry(FromSocket(i), s.sockets[i].buf), k);
  }

  /** A pushed frame joins the end of its socket's queue with exactly the bytes received. */
  lemma PushValidHistory(cfg: Config, s: State, i: nat, ok: bool)
    requires Shape(cfg, s) && FifoOk(cfg, s) && LinesSeeTheirFrames(cfg, s)
    requires Enabled(cfg, s, PushValid(i, ok)) && Shape(cfg, PushedValid(s, i, ok))
    ensures FifoOk(cfg, PushedValid(s, i, ok)) && LinesSeeTheirFrames(cfg, PushedValid(s, i, ok))
  {
    var s' := PushedValid(s, i, ok);
    forall k | 0 <= k < cfg.nSockets
      ensures s'.history.accepted[k] == s'.history.taken[k] + Queued(s'.mem, s'.valid, k)
    {
      PushValidFifo(s, i, ok, k);
    }
  }

  lemma LineStepHistory(cfg: Config, s: State, e: Event)
    requires Shape(cfg, s) && FifoOk(cfg, s) && LinesSeeTheirFrames(cfg, s)
    requires Enabled(cfg, s, e) && Shape(cfg, Next(cfg, s, e)) && (e.PushTrash? || e.Classify?)
    ensures FifoOk(cfg, Next(cfg, s, e)) && LinesSeeTheirFrames(cfg, Next(cfg, s, e))
  {
    FifoFrame(cfg, s, Next(cfg, s, e));
  }

  lemma RestReadsTheSame(s: State, m: Memory, j: nat, i: nat)
    requires SameContents(s, m) && j < |s.valid|
    ensures Queued(m, Remove(s.valid, j), i) == Queued(s.mem, Remove(s.valid, j), i)
  {
    QueuedFrame(s.mem, m, Remove(s.valid, j), i);
  }

  lemma Shifted(a: seq<Bytes>, b: seq<Bytes>, c: seq<Bytes>)
    ensures (a + b) + c == a + (b + c)
  {
  }

  /** What is taken out of the queue is what is logged as taken, so the two together stay the same. */
  lemma TakeValidFifoAt(s: State, l: nat, j: nat, i: nat)
    requires l < |s.lines| && FrontOfProducer(s.valid, j) && i < |s.history.taken|
    requires SameContents(s, TookValid(s, l, j).mem)
    ensures var s' := TookValid(s, l, j);
            s'.history.taken[i] + Queued(s'.mem, s'.valid, i) == s.history.taken[i] + Queued(s.mem, s.valid, i)
  {
    var s' := TookValid(s, l, j);
    var taken := s.history.taken[i];
    var moved := if s.valid[j].producer == FromSocket(i) then [Content(s.mem, s.valid[j].buf)] else [];
    var rest := Queued(s.mem, Remove(s.valid, j), i);
    RestReadsTheSame(s, s'.mem, j, i);
    QueuedRemove(s.mem, s.valid, j, i);
    TakenHistory(s, l, j, i);
    Shifted(taken, moved, rest);
  }

  /** A line takes the oldest waiting frame of some socket. */
  lemma TakeValidFifo(cfg: Config, s: State, l: nat, j: nat)
    requires Shape(cfg, s) && Owned(s) && FifoOk(cfg, s)
    requires Enabled(cfg, s, TakeValid(l, j)) && Shape(cfg, TookValid(s, l, j))
    ensures FifoOk(cfg, TookValid(s, l, j))
  {
    var s' := TookValid(s, l, j);
    ReleaseTouchesNoFrame(s, l);
    forall i | 0 <= i < cfg.nSockets
      ensures s'.history.accepted[i] == s'.history.taken[i] + Queued(s'.mem, s'.valid, i)
    {
      TakeValidFifoAt(s, l, j, i);
    }
  }

  /** The taken frame is logged for its socket and for no other. */
  lemma TakenHistory(s: State, l: nat, j: nat, i: nat)
    requires l < |s.lines| && j < |s.valid| && i < |s.history.taken|
    ensures TookValid(s, l, j).history.taken[i]
         == s.history.taken[i]
            + (if s.valid[j].producer == FromSocket(i) then [Content(s.mem, s.valid[j].buf)] else [])
  {
  }

  lemma TakeValidSees(cfg: Config, s: State, l: nat, j: nat)
    requires Shape(cfg, s) && Owned(s) && LinesSeeTheirFrames(cfg, s)
    requires Enabled(cfg, s, TakeValid(l, j)) && Shape(cfg, TookValid(s, l, j))
    ensures LinesSeeTheirFrames(cfg, TookValid(s, l, j))
  {
    ReleaseTouchesNoFrame(s, l);
  }
}
