/** The events of a run and the state at its end agree about every socket.

What was accepted from a socket is what the events say it received and was not refused, and a datagram
that has arrived lies in the socket's buffer; steps of the socket and steps of the others keep that.
*/
module DataPathAgreement {
  import opened LargeBuffers
  import opened DataPath
  import opened DataPathInvariant
  import opened DataPathInduction
  import opened DataPathTheorems
  import opened DataPathThreads

  /** The latest datagram that socket `i` received. */
  function LastReceived(es: seq<Event>, i: nat): Bytes {
    if es == [] then []
    else
      var e := es[|es| - 1];
      if e.Receive? && e.i == i then e.bytes else LastReceived(es[..|es| - 1], i)
  }

  /** The datagrams of socket `i` that the valid queue did not refuse, as they were received. */
  function AcceptedOf(es: seq<Event>, i: nat): seq<Bytes> {
    if es == [] then []
    else
      var front := es[..|es| - 1];
      AcceptedOf(front, i) + (if es[|es| - 1] == PushValid(i, true) then [LastReceived(front, i)] else [])
  }

  lemma {:induction false} LegalFront(cfg: Config, s: State, es: seq<Event>)
    requires Legal(cfg, s, es) && es != []
    ensures Legal(cfg, s, es[..|es| - 1])
    ensures Enabled(cfg, Run(cfg, s, es[..|es| - 1]), es[|es| - 1])
    ensures Run(cfg, s, es) == Next(cfg, Run(cfg, s, es[..|es| - 1]), es[|es| - 1])
    decreases |es|
  {
    if |es| <= 1 {
    } else {
      LegalFront(cfg, Next(cfg, s, es[0]), es[1..]);
      assert es[1..][..|es[1..]| - 1] == es[..|es| - 1][1..];
    }
  }

  /** The trace and the state agree about socket `i`. */
  predicate Agrees(s: State, es: seq<Event>, i: nat) {
    && i < |s.sockets| && i < |s.history.accepted|
    && s.history.accepted[i] == AcceptedOf(es, i)
    && (s.sockets[i].pc.Arrived? ==> Content(s.mem, s.sockets[i].buf) == LastReceived(es, i))
  }

  lemma OwnStepAgrees(cfg: Config, s: State, es: seq<Event>, e: Event, i: nat)
    requires Agrees(s, es, i) && Enabled(cfg, s, e) && OfSocket(e, i)
    ensures Agrees(Next(cfg, s, e), es + [e], i)
  {
    assert (es + [e])[..|es + [e]| - 1] == es;
    if e.Receive? {
      ReceivedContent(cfg, s, i, e.bytes);
    }
  }

  lemma OtherStepAgrees(cfg: Config, s: State, es: seq<Event>, e: Event, i: nat)
    requires Inv(cfg, s) && Agrees(s, es, i) && Enabled(cfg, s, e) && !OfSocket(e, i)
    ensures Agrees(Next(cfg, s, e), es + [e], i)
  {
    assert (es + [e])[..|es + [e]| - 1] == es;
    OthersSpareSocket(cfg, s, e, i);
    OthersSpareFrame(cfg, s, e, i);
  }

  lemma StepAgrees(cfg: Config, s: State, es: seq<Event>, e: Event, i: nat)
    requires Inv(cfg, s) && Agrees(s, es, i) && Enabled(cfg, s, e)
    ensures Agrees(Next(cfg, s, e), es + [e], i)
  {
    if OfSocket(e, i) {
      OwnStepAgrees(cfg, s, es, e, i);
    } else {
      OtherStepAgrees(cfg, s, es, e, i);
    }
  }

  lemma RunStepAgrees(cfg: Config, s0: State, es: seq<Event>, e: Event, i: nat)
    requires WellFormed(cfg) && Reachable(cfg, s0) && Legal(cfg, s0, es)
    requires Agrees(Run(cfg, s0, es), es, i) && Enabled(cfg, Run(cfg, s0, es), e)
    ensures Agrees(Next(cfg, Run(cfg, s0, es), e), es + [e], i)
  {
    ReachableRun(cfg, s0, es);
    ReachableInv(cfg, Run(cfg, s0, es));
    StepAgrees(cfg, Run(cfg, s0, es), es, e, i);
  }

  lemma {:induction false} TraceAgrees(cfg: Config, s0: State, es: seq<Event>, i: nat)
    requires WellFormed(cfg) && Reachable(cfg, s0) && Legal(cfg, s0, es) && Agrees(s0, [], i)
    ensures Agrees(Run(cfg, s0, es), es, i)
    decreases |es|
  {
    if es == [] {
    } else {
      var front, e := es[..|es| - 1], es[|es| - 1];
      LegalFront(cfg, s0, es);
      TraceAgrees(cfg, s0, front, i);
      RunStepAgrees(cfg, s0, front, e, i);
      assert es == front + [e];
    }
  }

  lemma InitialSocketAgrees(cfg: Config, i: nat)
    requires i < cfg.nSockets
    ensures Agrees(Initial(cfg), [], i)
  {
    InitialParts(cfg);
    InitialShape(cfg);
    assert Initial(cfg).sockets[i] == ToSocket(InitialSockets(cfg).1[i]);
  }

  lemma InitialReachable(cfg: Config)
    ensures Reachable(cfg, Initial(cfg))
  {
    assert Legal(cfg, Initial(cfg), []) && Run(cfg, Initial(cfg), []) == Initial(cfg);
  }
}
