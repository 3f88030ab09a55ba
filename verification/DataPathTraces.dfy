/** What the events of a run alone say about the frames and the statistics at its end. */
module DataPathTraces {
  import opened Seqs
  import opened DataPath
  import opened DataPathInvariant
  import opened DataPathInduction
  import opened DataPathTheorems
  import opened DataPathThreads
  import opened DataPathAgreement

  /** For any run: the frames of a socket that lines took, followed by those still queued, are the
      datagrams that were received and not refused, byte for byte and in the order of their arrival. */
  lemma DeliveredAsReceived(cfg: Config, es: seq<Event>, i: nat)
    requires WellFormed(cfg) && Legal(cfg, Initial(cfg), es) && i < cfg.nSockets
    ensures var s := Run(cfg, Initial(cfg), es);
            && i < |s.history.taken|
            && s.history.taken[i] + Queued(s.mem, s.valid, i) == AcceptedOf(es, i)
  {
    InitialSocketAgrees(cfg, i);
    InitialReachable(cfg);
    TraceAgrees(cfg, Initial(cfg), es, i);
    FramesArriveIntact(cfg, Run(cfg, Initial(cfg), es));
  }

  // ----- the statistics

  function Datagrams(e: Event): int {
    if e.Receive? then 1 else 0
  }

  function DatagramBytes(e: Event): int {
    if e.Receive? then |e.bytes| else 0
  }

  function Refusals(e: Event): int {
    if e.PushValid? && !e.ok then 1 else 0
  }

  function EmptyTrash(e: Event): int {
    if e.PullTrash? && e.from.None? then 1 else 0
  }

  function FullTrash(e: Event): int {
    if e.PushTrash? && !e.ok then 1 else 0
  }

  lemma SumsPush(es: seq<Event>, e: Event)
    ensures Sum(Datagrams, es + [e]) == Sum(Datagrams, es) + Datagrams(e)
    ensures Sum(DatagramBytes, es + [e]) == Sum(DatagramBytes, es) + DatagramBytes(e)
    ensures Sum(Refusals, es + [e]) == Sum(Refusals, es) + Refusals(e)
    ensures Sum(EmptyTrash, es + [e]) == Sum(EmptyTrash, es) + EmptyTrash(e)
    ensures Sum(FullTrash, es + [e]) == Sum(FullTrash, es) + FullTrash(e)
  {
    SumPush(Datagrams, es, e);
    SumPush(DatagramBytes, es, e);
    SumPush(Refusals, es, e);
    SumPush(EmptyTrash, es, e);
    SumPush(FullTrash, es, e);
  }

  lemma StepCounts(cfg: Config, s: State, e: Event)
    requires Enabled(cfg, s, e)
    ensures var before, after := s.stats, Next(cfg, s, e).stats;
            && after.frames == before.frames + Datagrams(e)
            && after.bytesRead == before.bytesRead + DatagramBytes(e)
            && after.fullValid == before.fullValid + Refusals(e)
            && after.emptyTrash == before.emptyTrash + EmptyTrash(e)
            && after.fullTrash == before.fullTrash + FullTrash(e)
  {
  }

  lemma CountedOn(before: Stats, after: Stats, es: seq<Event>, e: Event)
    requires before.frames == Sum(Datagrams, es) && before.bytesRead == Sum(DatagramBytes, es)
    requires before.fullValid == Sum(Refusals, es) && before.emptyTrash == Sum(EmptyTrash, es)
    requires before.fullTrash == Sum(FullTrash, es)
    requires after.frames == before.frames + Datagrams(e) && after.bytesRead == before.bytesRead + DatagramBytes(e)
    requires after.fullValid == before.fullValid + Refusals(e) && after.fullTrash == before.fullTrash + FullTrash(e)
    requires after.emptyTrash == before.emptyTrash + EmptyTrash(e)
    ensures after.frames == Sum(Datagrams, es + [e]) && after.bytesRead == Sum(DatagramBytes, es + [e])
    ensures after.fullValid == Sum(Refusals, es + [e]) && after.emptyTrash == Sum(EmptyTrash, es + [e])
    ensures after.fullTrash == Sum(FullTrash, es + [e])
  {
    SumsPush(es, e);
  }

  /** The statistics of any run count what happened: datagrams and their bytes, refused frames, refills
      without a recycled buffer, and buffers that could not be recycled. */
  lemma {:induction false} StatisticsCount(cfg: Config, es: seq<Event>)
    requires Legal(cfg, Initial(cfg), es)
    ensures var stats := Run(cfg, Initial(cfg), es).stats;
            && stats.frames == Sum(Datagrams, es) && stats.bytesRead == Sum(DatagramBytes, es)
            && stats.fullValid == Sum(Refusals, es) && stats.emptyTrash == Sum(EmptyTrash, es)
            && stats.fullTrash == Sum(FullTrash, es)
    decreases |es|
  {
    if es == [] {
    } else {
      var front, e := es[..|es| - 1], es[|es| - 1];
      LegalFront(cfg, Initial(cfg), es);
      StatisticsCount(cfg, front);
      StepCounts(cfg, Run(cfg, Initial(cfg), front), e);
      CountedOn(Run(cfg, Initial(cfg), front).stats, Run(cfg, Initial(cfg), es).stats, front, e);
      assert es == front + [e];
    }
  }

  // ----- dropped bytes

  /** The bytes of the datagrams that the valid queue refused, as they were received. */
  function RefusedBytes(es: seq<Event>): nat {
    if es == [] then 0
    else
      var front, e := es[..|es| - 1], es[|es| - 1];
      RefusedBytes(front) + (if e.PushValid? && !e.ok then |LastReceived(front, e.i)| else 0)
  }

  /** Refused, but not yet counted as dropped. */
  function RefusedSize(x: Socket): int {
    if x.pc.Refused? then x.pc.size else 0
  }

  function RefusedBy(s: State, e: Event): int {
    if e.PushValid? && !e.ok && e.i < |s.sockets| && s.sockets[e.i].pc.Arrived? then s.sockets[e.i].pc.size else 0
  }

  lemma SocketStepDrops(cfg: Config, s: State, e: Event, i: nat)
    requires Enabled(cfg, s, e) && OfSocket(e, i)
    ensures var s' := Next(cfg, s, e);
            s'.stats.bytesDropped + Sum(RefusedSize, s'.sockets)
            == s.stats.bytesDropped + Sum(RefusedSize, s.sockets) + RefusedBy(s, e)
  {
    var s' := Next(cfg, s, e);
    assert s'.sockets == s.sockets[i := s'.sockets[i]];
    SumUpdate(RefusedSize, s.sockets, i, s'.sockets[i]);
  }

  lemma OtherStepDrops(cfg: Config, s: State, e: Event)
    requires Enabled(cfg, s, e) && !e.Receive? && !e.PushValid? && !e.PullTrash? && !e.FinishRead?
    ensures var s' := Next(cfg, s, e);
            s'.stats.bytesDropped == s.stats.bytesDropped && s'.sockets == s.sockets && RefusedBy(s, e) == 0
  {
  }

  lemma StepDrops(cfg: Config, s: State, e: Event)
    requires Enabled(cfg, s, e)
    ensures var s' := Next(cfg, s, e);
            s'.stats.bytesDropped + Sum(RefusedSize, s'.sockets)
            == s.stats.bytesDropped + Sum(RefusedSize, s.sockets) + RefusedBy(s, e)
  {
    if e.Receive? || e.PushValid? || e.PullTrash? || e.FinishRead? {
      SocketStepDrops(cfg, s, e, e.i);
    } else {
      OtherStepDrops(cfg, s, e);
    }
  }

  lemma ArrivedSize(cfg: Config, s: State, es: seq<Event>, i: nat)
    requires SlotsOk(cfg, s) && Agrees(s, es, i) && s.sockets[i].pc.Arrived?
    ensures s.sockets[i].pc.size == |LastReceived(es, i)|
  {
    assert SocketOk(cfg, s.mem, s.sockets[i]);
  }

  /** What a refusal adds is the size of the socket's latest datagram. */
  lemma RefusedIsReceived(cfg: Config, es: seq<Event>, e: Event)
    requires WellFormed(cfg) && Legal(cfg, Initial(cfg), es) && Enabled(cfg, Run(cfg, Initial(cfg), es), e)
    ensures RefusedBy(Run(cfg, Initial(cfg), es), e) == if e.PushValid? && !e.ok then |LastReceived(es, e.i)| else 0
  {
    var s := Run(cfg, Initial(cfg), es);
    if e.PushValid? && !e.ok {
      InitialReachable(cfg);
      ReachableRun(cfg, Initial(cfg), es);
      ReachableInv(cfg, s);
      InitialSocketAgrees(cfg, e.i);
      TraceAgrees(cfg, Initial(cfg), es, e.i);
      ArrivedSize(cfg, s, es, e.i);
    }
  }

  lemma NothingRefusedYet(cfg: Config)
    ensures Initial(cfg).stats.bytesDropped == 0 && Sum(RefusedSize, Initial(cfg).sockets) == 0
  {
    InitialParts(cfg);
    forall i | 0 <= i < |Initial(cfg).sockets|
      ensures RefusedSize(Initial(cfg).sockets[i]) == 0
    {
      assert Initial(cfg).sockets[i] == ToSocket(InitialSockets(cfg).1[i]);
    }
    SumZero(RefusedSize, Initial(cfg).sockets);
  }

  /** In any run the bytes counted as dropped, with those about to be counted, are the bytes of the refused
      datagrams. */
  lemma {:induction false} DroppedIsRefused(cfg: Config, es: seq<Event>)
    requires WellFormed(cfg) && Legal(cfg, Initial(cfg), es)
    ensures var s := Run(cfg, Initial(cfg), es);
            s.stats.bytesDropped + Sum(RefusedSize, s.sockets) == RefusedBytes(es)
    decreases |es|
  {
    if es == [] {
      NothingRefusedYet(cfg);
    } else {
      var front, e := es[..|es| - 1], es[|es| - 1];
      LegalFront(cfg, Initial(cfg), es);
      DroppedIsRefused(cfg, front);
      StepDrops(cfg, Run(cfg, Initial(cfg), front), e);
      RefusedIsReceived(cfg, front, e);
    }
  }
}
