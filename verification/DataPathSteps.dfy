/** Every atomic step of the data path keeps who owns which storage and what each place may hold.

A block's owners are counted over the queues, the sockets and the lines. A step moves a block from one
place to another, allocates a new one or destroys one: the lemmas say how the count changes for every
block, and that whatever each place holds afterwards is still there.
*/
module DataPathSteps {
  import opened Common
  import opened Seqs
  import opened LargeBuffers
  import opened DataPath
  import opened DataPathInvariant

  // ----- one list changes

  lemma SocketOwners(s: State, i: nat, x: Socket, r: Ref)
    requires i < |s.sockets|
    ensures Sum(SocketHolds(r), s.sockets[i := x])
         == Sum(SocketHolds(r), s.sockets) - Holds(r, s.sockets[i].buf) + Holds(r, x.buf)
  {
    SumUpdate(SocketHolds(r), s.sockets, i, x);
  }

  lemma LineOwners(s: State, l: nat, x: Line, r: Ref)
    requires l < |s.lines|
    ensures Sum(LineHolds(r), s.lines[l := x])
         == Sum(LineHolds(r), s.lines) - Holds(r, s.lines[l].buf) + Holds(r, x.buf)
  {
    SumUpdate(LineHolds(r), s.lines, l, x);
  }

  lemma EntryOwners(s: State, e: Entry, r: Ref)
    ensures Sum(EntryHolds(r), s.valid + [e]) == Sum(EntryHolds(r), s.valid) + Holds(r, e.buf)
  {
    SumPush(EntryHolds(r), s.valid, e);
  }

  lemma TrashOwners(s: State, b: LargeBuffer, r: Ref)
    ensures Sum(Holder(r), s.trash + [b]) == Sum(Holder(r), s.trash) + Holds(r, b)
  {
    SumPush(Holder(r), s.trash, b);
  }

  // ----- sockets

  lemma ReceiveOwned(cfg: Config, s: State, i: nat, bytes: Bytes)
    requires Owned(s) && Enabled(cfg, s, Receive(i, bytes))
    ensures Owned(Received(s, i, bytes))
    ensures Received(s, i, bytes).mem.heap.Keys == s.mem.heap.Keys
  {
    var s' := Received(s, i, bytes);
    assert s'.mem.heap.Keys == s.mem.heap.Keys;
    forall r: Ref
      ensures Owners(s', r) == Owners(s, r)
    {
      SocketOwners(s, i, s'.sockets[i], r);
    }
  }

  lemma ReceiveSlots(cfg: Config, s: State, i: nat, bytes: Bytes)
    requires Shape(cfg, s) && SlotsOk(cfg, s) && Enabled(cfg, s, Receive(i, bytes))
    ensures Shape(cfg, Received(s, i, bytes)) && SlotsOk(cfg, Received(s, i, bytes))
  {
    var s' := Received(s, i, bytes);
    assert forall r :: r in s.mem.heap ==> r in s'.mem.heap && |s'.mem.heap[r]| == |s.mem.heap[r]|;
  }

  lemma PushValidOwned(cfg: Config, s: State, i: nat, ok: bool)
    requires Owned(s) && Enabled(cfg, s, PushValid(i, ok))
    ensures Owned(PushedValid(s, i, ok))
  {
    var s' := PushedValid(s, i, ok);
    forall r: Ref
      ensures Owners(s', r) == Owners(s, r)
    {
      SocketOwners(s, i, s'.sockets[i], r);
      if ok {
        EntryOwners(s, Entry(FromSocket(i), s.sockets[i].buf), r);
      }
    }
  }

  lemma PushValidSlots(cfg: Config, s: State, i: nat, ok: bool)
    requires Shape(cfg, s) && SlotsOk(cfg, s) && Enabled(cfg, s, PushValid(i, ok))
    ensures Shape(cfg, PushedValid(s, i, ok)) && SlotsOk(cfg, PushedValid(s, i, ok))
  {
  }

  lemma PullTrashOwned(cfg: Config, s: State, i: nat, j: nat)
    requires Shape(cfg, s) && SlotsOk(cfg, s) && Owned(s) && Enabled(cfg, s, PullTrash(i, Some(j)))
    ensures Owned(PulledTrash(cfg, s, i, Some(j)))
  {
    var s' := PulledTrash(cfg, s, i, Some(j));
    forall r: Ref
      ensures Owners(s', r) == Owners(s, r)
    {
      SocketOwners(s, i, s'.sockets[i], r);
      SumRemove(Holder(r), s.trash, j);
    }
  }

  /** A moved-from buffer grows one new block and nothing else changes. */
  lemma GrowFromNothing(m: Memory, b: LargeBuffer, n: nat)
    requires b.data.None? && n > 0
    ensures Resize(m, b, n) == (Memory(m.heap[m.next := ZeroBytes(n)], m.next + 1), LargeBuffer(n, Some(m.next)))
  {
    assert [] + ZeroBytes(n) == ZeroBytes(n);
  }

  lemma AllocateOwners(s: State, i: nat, x: Socket, s': State, r: Ref)
    requires i < |s.sockets| && s.sockets[i].buf.data.None?
    requires s'.valid == s.valid && s'.trash == s.trash && s'.lines == s.lines && s'.sockets == s.sockets[i := x]
    ensures Owners(s', r) == Owners(s, r) + Holds(r, x.buf)
  {
    SocketOwners(s, i, x, r);
  }

  lemma AllocateOwned(cfg: Config, s: State, i: nat)
    requires Shape(cfg, s) && SlotsOk(cfg, s) && Owned(s) && cfg.bufferSize > 0
    requires Enabled(cfg, s, PullTrash(i, None))
    ensures Owned(PulledTrash(cfg, s, i, None))
  {
    var s' := PulledTrash(cfg, s, i, None);
    var x := s'.sockets[i];
    assert SocketOk(cfg, s.mem, s.sockets[i]);
    GrowFromNothing(s.mem, s.sockets[i].buf, cfg.bufferSize);
    assert s'.mem.heap.Keys == s.mem.heap.Keys + {s.mem.next};
    forall r: Ref
      ensures Owners(s', r) == if r in s'.mem.heap then 1 else 0
    {
      AllocateOwners(s, i, x, s', r);
    }
  }

  lemma PullTrashSlots(cfg: Config, s: State, i: nat, j: nat)
    requires Shape(cfg, s) && SlotsOk(cfg, s) && Enabled(cfg, s, PullTrash(i, Some(j)))
    ensures Shape(cfg, PulledTrash(cfg, s, i, Some(j))) && SlotsOk(cfg, PulledTrash(cfg, s, i, Some(j)))
  {
    var s' := PulledTrash(cfg, s, i, Some(j));
    forall k | 0 <= k < |s'.trash|
      ensures BufOk(cfg, s'.mem, s'.trash[k])
    {
      assert s'.trash[k] == if k < j then s.trash[k] else s.trash[k + 1];
    }
  }

  lemma AllocateSlots(cfg: Config, s: State, i: nat)
    requires Shape(cfg, s) && SlotsOk(cfg, s) && cfg.bufferSize > 0 && Enabled(cfg, s, PullTrash(i, None))
    requires s.mem.next !in s.mem.heap
    ensures Shape(cfg, PulledTrash(cfg, s, i, None)) && SlotsOk(cfg, PulledTrash(cfg, s, i, None))
    ensures |PulledTrash(cfg, s, i, None).mem.heap| == |s.mem.heap| + 1
  {
    GrowFromNothing(s.mem, s.sockets[i].buf, cfg.bufferSize);
  }

  /** The buffer that a socket receives into again is never reallocated. */
  lemma FinishReadMemory(cfg: Config, s: State, i: nat)
    requires SlotsOk(cfg, s) && Enabled(cfg, s, FinishRead(i))
    ensures FinishedRead(cfg, s, i).mem == s.mem
    ensures FinishedRead(cfg, s, i).sockets[i].buf == s.sockets[i].buf.(size := cfg.bufferSize)
  {
  }

  lemma FinishReadOwned(cfg: Config, s: State, i: nat)
    requires SlotsOk(cfg, s) && Owned(s) && Enabled(cfg, s, FinishRead(i))
    ensures Owned(FinishedRead(cfg, s, i))
  {
    var s' := FinishedRead(cfg, s, i);
    FinishReadMemory(cfg, s, i);
    forall r: Ref
      ensures Owners(s', r) == Owners(s, r)
    {
      SocketOwners(s, i, s'.sockets[i], r);
    }
  }

  lemma FinishReadSlots(cfg: Config, s: State, i: nat)
    requires Shape(cfg, s) && SlotsOk(cfg, s) && Enabled(cfg, s, FinishRead(i))
    ensures Shape(cfg, FinishedRead(cfg, s, i)) && SlotsOk(cfg, FinishedRead(cfg, s, i))
  {
    FinishReadMemory(cfg, s, i);
  }

  // ----- lines

  lemma PushTrashOwned(cfg: Config, s: State, l: nat, ok: bool)
    requires Owned(s) && Enabled(cfg, s, PushTrash(l, ok))
    ensures Owned(PushedTrash(s, l, ok))
  {
    var s' := PushedTrash(s, l, ok);
    forall r: Ref
      ensures Owners(s', r) == Owners(s, r)
    {
      LineOwners(s, l, s'.lines[l], r);
      if ok {
        TrashOwners(s, s.lines[l].buf, r);
      }
    }
  }

  lemma PushTrashSlots(cfg: Config, s: State, l: nat, ok: bool)
    requires Shape(cfg, s) && SlotsOk(cfg, s) && Enabled(cfg, s, PushTrash(l, ok))
    ensures Shape(cfg, PushedTrash(s, l, ok)) && SlotsOk(cfg, PushedTrash(s, l, ok))
  {
  }

  /** Nobody else holds the block that a place holds. */
  lemma NobodyElseHolds(s: State, p: Place, r: Ref)
    requires Owned(s) && HoldsAt(s, p, r)
    ensures forall k :: 0 <= k < |s.valid| && p != InValid(k) ==> s.valid[k].buf.data != Some(r)
    ensures forall k :: 0 <= k < |s.trash| && p != InTrash(k) ==> s.trash[k].data != Some(r)
    ensures forall k :: 0 <= k < |s.sockets| && p != AtSocket(k) ==> s.sockets[k].buf.data != Some(r)
    ensures forall k :: 0 <= k < |s.lines| && p != AtLine(k) ==> s.lines[k].buf.data != Some(r)
  {
    forall q: Place | HoldsAt(s, q, r)
      ensures p == q
    {
      OneOwner(s, p, q, r);
    }
    forall k | 0 <= k < |s.valid| && p != InValid(k) ensures s.valid[k].buf.data != Some(r) {
      assert !HoldsAt(s, InValid(k), r);
    }
    forall k | 0 <= k < |s.trash| && p != InTrash(k) ensures s.trash[k].data != Some(r) {
      assert !HoldsAt(s, InTrash(k), r);
    }
    forall k | 0 <= k < |s.sockets| && p != AtSocket(k) ensures s.sockets[k].buf.data != Some(r) {
      assert !HoldsAt(s, AtSocket(k), r);
    }
    forall k | 0 <= k < |s.lines| && p != AtLine(k) ensures s.lines[k].buf.data != Some(r) {
      assert !HoldsAt(s, AtLine(k), r);
    }
  }

  lemma TakeValidOwners(s: State, l: nat, j: nat, r: Ref)
    requires l < |s.lines| && j < |s.valid|
    ensures Owners(TookValid(s, l, j), r) == Owners(s, r) - Holds(r, s.lines[l].buf)
  {
    LineOwners(s, l, TookValid(s, l, j).lines[l], r);
    SumRemove(EntryHolds(r), s.valid, j);
  }

  lemma TakeValidOwned(cfg: Config, s: State, l: nat, j: nat)
    requires Owned(s) && Enabled(cfg, s, TakeValid(l, j))
    ensures Owned(TookValid(s, l, j))
  {
    var s' := TookValid(s, l, j);
    if s.lines[l].buf.data.Some? {
      var held := s.lines[l].buf.data.value;
      OneOwner(s, AtLine(l), AtLine(l), held);
      assert s'.mem.heap.Keys == s.mem.heap.Keys - {held};
    }
    forall r: Ref
      ensures Owners(s', r) == if r in s'.mem.heap then 1 else 0
    {
      TakeValidOwners(s, l, j, r);
    }
  }

  /** No buffer but the line's own holds the block that the line still holds. */
  predicate OnlyLineHolds(s: State, l: nat)
    requires l < |s.lines|
  {
    s.lines[l].buf.data.Some? ==>
      var r := s.lines[l].buf.data.value;
      && (forall k :: 0 <= k < |s.valid| ==> s.valid[k].buf.data != Some(r))
      && (forall k :: 0 <= k < |s.trash| ==> s.trash[k].data != Some(r))
      && (forall k :: 0 <= k < |s.sockets| ==> s.sockets[k].buf.data != Some(r))
      && (forall k :: 0 <= k < |s.lines| && k != l ==> s.lines[k].buf.data != Some(r))
  }

  lemma ReleaseSpares(cfg: Config, m: Memory, gone: LargeBuffer, b: LargeBuffer)
    requires BufOk(cfg, m, b) && (gone.data.Some? ==> b.data != gone.data)
    ensures BufOk(cfg, Release(m, gone), b)
  {
  }

  lemma ReleaseSparesQueues(cfg: Config, s: State, l: nat)
    requires SlotsOk(cfg, s) && l < |s.lines| && OnlyLineHolds(s, l)
    ensures var m := Release(s.mem, s.lines[l].buf);
            && (forall k :: 0 <= k < |s.valid| ==> EntryOk(cfg, m, s.valid[k]))
            && (forall k :: 0 <= k < |s.trash| ==> BufOk(cfg, m, s.trash[k]))
  {
    var m := Release(s.mem, s.lines[l].buf);
    forall k | 0 <= k < |s.valid|
      ensures EntryOk(cfg, m, s.valid[k])
    {
      assert EntryOk(cfg, s.mem, s.valid[k]);
    }
    forall k | 0 <= k < |s.trash|
      ensures BufOk(cfg, m, s.trash[k])
    {
      ReleaseSpares(cfg, s.mem, s.lines[l].buf, s.trash[k]);
    }
  }

  lemma ReleaseSparesUsers(cfg: Config, s: State, l: nat)
    requires SlotsOk(cfg, s) && l < |s.lines| && OnlyLineHolds(s, l)
    ensures var m := Release(s.mem, s.lines[l].buf);
            && (forall k :: 0 <= k < |s.sockets| ==> SocketOk(cfg, m, s.sockets[k]))
            && (forall k :: 0 <= k < |s.lines| && k != l ==> LineOk(cfg, m, s.lines[k]))
  {
    var m := Release(s.mem, s.lines[l].buf);
    forall k | 0 <= k < |s.sockets|
      ensures SocketOk(cfg, m, s.sockets[k])
    {
      assert SocketOk(cfg, s.mem, s.sockets[k]);
    }
    forall k | 0 <= k < |s.lines| && k != l
      ensures LineOk(cfg, m, s.lines[k])
    {
      assert LineOk(cfg, s.mem, s.lines[k]);
    }
  }

  lemma TakenIsOk(cfg: Config, m: Memory, e: Entry)
    requires EntryOk(cfg, m, e)
    ensures LineOk(cfg, m, Line(e.buf, Taken(e.buf.size, e.producer.FromStop?)))
  {
  }

  /** Destroying the block of a refused line leaves every other buffer intact. */
  lemma TakeValidSlots(cfg: Config, s: State, l: nat, j: nat)
    requires Shape(cfg, s) && SlotsOk(cfg, s) && Enabled(cfg, s, TakeValid(l, j)) && OnlyLineHolds(s, l)
    ensures Shape(cfg, TookValid(s, l, j)) && SlotsOk(cfg, TookValid(s, l, j))
  {
    var s' := TookValid(s, l, j);
    ReleaseSparesQueues(cfg, s, l);
    ReleaseSparesUsers(cfg, s, l);
    TakenIsOk(cfg, s'.mem, s.valid[j]);
    forall k | 0 <= k < |s'.valid|
      ensures EntryOk(cfg, s'.mem, s'.valid[k])
    {
      assert s'.valid[k] == if k < j then s.valid[k] else s.valid[k + 1];
    }
  }

  lemma ClassifyOwned(cfg: Config, s: State, l: nat)
    requires Owned(s) && Enabled(cfg, s, Classify(l))
    ensures Owned(Classified(s, l))
  {
    var s' := Classified(s, l);
    forall r: Ref
      ensures Owners(s', r) == Owners(s, r)
    {
      LineOwners(s, l, s'.lines[l], r);
    }
  }

  /** `is_empty` tells pills from frames: an empty buffer was a pill, any other was a frame. */
  lemma ClassifySlots(cfg: Config, s: State, l: nat)
    requires Shape(cfg, s) && SlotsOk(cfg, s) && Enabled(cfg, s, Classify(l))
    ensures Shape(cfg, Classified(s, l)) && SlotsOk(cfg, Classified(s, l))
  {
  }

  // ----- live blocks

  lemma PushTrashLive(cfg: Config, s: State, l: nat, ok: bool)
    requires LiveOk(cfg, s) && Enabled(cfg, s, PushTrash(l, ok))
    ensures LiveOk(cfg, PushedTrash(s, l, ok))
  {
    SumUpdate(IsRefusedLine, s.lines, l, PushedTrash(s, l, ok).lines[l]);
  }

  lemma TakeValidLive(cfg: Config, s: State, l: nat, j: nat)
    requires LiveOk(cfg, s) && Enabled(cfg, s, TakeValid(l, j)) && LineOk(cfg, s.mem, s.lines[l])
    ensures LiveOk(cfg, TookValid(s, l, j))
  {
    var s' := TookValid(s, l, j);
    SumUpdate(IsRefusedLine, s.lines, l, s'.lines[l]);
    ReleaseCount(s.mem, s.lines[l].buf);
    assert IsRefusedLine(s.lines[l]) == HoldsStorage(s.lines[l].buf);
  }

  lemma ReleaseCount(m: Memory, b: LargeBuffer)
    requires b.data.Some? ==> b.data.value in m.heap
    ensures |Release(m, b).heap| == |m.heap| - HoldsStorage(b)
  {
    if b.data.Some? {
      assert Release(m, b).heap.Keys == m.heap.Keys - {b.data.value};
      assert |Release(m, b).heap.Keys| == |m.heap.Keys| - 1;
    }
  }

  lemma ClassifyLive(cfg: Config, s: State, l: nat)
    requires LiveOk(cfg, s) && Enabled(cfg, s, Classify(l))
    ensures LiveOk(cfg, Classified(s, l))
  {
    SumUpdate(IsRefusedLine, s.lines, l, Classified(s, l).lines[l]);
  }
}
