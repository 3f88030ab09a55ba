/** What every reachable state of the network satisfies, and every step keeps.

Answers on the network tell of commands that their emulator processed, and a command that was registered
is processed or still awaited.
*/
module FecInvariant {
  import opened Common
  import opened Seqs
  import opened FecMessages
  import opened FecSocket
  import opened FecNetwork

  // ----- the invariant

  predicate Processed(s: System, e: Endpoint, kind: Kind) {
    e in s.emulators && kind in s.emulators[e].processed
  }

  predicate Applied(s: System, e: Endpoint, kind: Kind) {
    e in s.emulators && kind in s.emulators[e].applied
  }

  /** An answer on the network is empty, or tells of a processed command. */
  predicate AnswerOk(s: System, e: Endpoint, msg: Bytes) {
    || msg == []
    || (msg == Response(AcqOn) && Processed(s, e, AcqOn))
    || (msg == Response(AcqOff) && Processed(s, e, AcqOff))
  }

  predicate EmulatorOk(x: Emulator) {
    && (forall j :: 0 <= j < |x.spawned| && x.spawned[j].Some? ==> x.spawned[j].value in x.processed)
    && (x.busy.Some? ==> x.busy.value in x.processed)
    && (forall kind :: kind in x.processed ==> kind in x.applied || x.busy == Some(kind))
  }

  predicate Awaits(cs: Connections, e: Endpoint, kind: Kind) {
    exists i :: 0 <= i < |Pending(cs, e)| && Pending(cs, e)[i].response == Response(kind)
  }

  predicate PendingOk(cs: Connections) {
    forall e :: e in cs ==> forall i :: 0 <= i < |cs[e]| ==>
      cs[e][i].response == Response(AcqOn) || cs[e][i].response == Response(AcqOff)
  }

  predicate Inv(s: System) {
    && (forall p :: p in s.responses ==> AnswerOk(s, p.0, p.1))
    && (forall e :: e in s.emulators ==> EmulatorOk(s.emulators[e]))
    && PendingOk(s.pending)
    && (forall p :: p in s.registered ==> Processed(s, p.0, p.1) || Awaits(s.pending, p.0, p.1))
  }

  lemma HeardOk(x: Emulator, msg: Bytes)
    requires EmulatorOk(x) && x.busy.None?
    ensures EmulatorOk(Heard(x, msg))
  {
  }

  lemma SwapPopKeeps(cs: seq<Command>, i: nat, j: nat)
    requires i < |cs| && j < |cs| && i != j
    ensures cs[j] in SwapPop(cs, i)
  {
    assert SwapPop(cs, i)[if j == |cs| - 1 then i else j] == cs[j];
  }

  lemma SwapPopIsPart(cs: seq<Command>, i: nat)
    requires i < |cs|
    ensures forall c :: c in SwapPop(cs, i) ==> c in cs
  {
  }

  lemma RemovedOk(cs: Connections, e: Endpoint, msg: Bytes)
    requires PendingOk(cs)
    ensures PendingOk(FecSocket.Next(cs, Receive(e, msg)))
  {
    if e in cs && FirstMatch(cs[e], msg).Some? {
      SwapPopIsPart(cs[e], FirstMatch(cs[e], msg).value);
    }
  }

  /** Only an answer of its own kind takes a pending command off the list. */
  lemma StillAwaits(cs: Connections, e: Endpoint, msg: Bytes, e': Endpoint, kind: Kind)
    requires PendingOk(cs) && Awaits(cs, e', kind) && !(e == e' && msg == Response(kind))
    ensures Awaits(FecSocket.Next(cs, Receive(e, msg)), e', kind)
  {
    var i :| 0 <= i < |Pending(cs, e')| && Pending(cs, e')[i].response == Response(kind);
    ResponsesTellTheKind(kind, kind);
    if e == e' && FirstMatch(cs[e], msg).Some? {
      var j := FirstMatch(cs[e], msg).value;
      ResponsesTellTheKind(AcqOn, AcqOff);
      ResponsesTellTheKind(AcqOff, AcqOn);
      assert cs[e][j].response == msg;
      SwapPopKeeps(cs[e], j, i);
      var rest := SwapPop(cs[e], j);
      var m :| 0 <= m < |rest| && rest[m] == cs[e][i];
      assert Pending(FecSocket.Next(cs, Receive(e, msg)), e')[m].response == Response(kind);
    } else {
      assert Pending(FecSocket.Next(cs, Receive(e, msg)), e') == Pending(cs, e');
    }
  }

  lemma AnswerLength(kind: Kind)
    ensures |Response(kind)| == 24 && Truncated(Response(kind)) == Response(kind)
  {
  }

  lemma TruncatedAnswer(msg: Bytes, kind: Kind)
    ensures Truncated(msg) == Response(kind) <==> msg == Response(kind)
  {
    AnswerLength(kind);
  }

  /** An answer for a command that is taken off the list comes from an emulator that processed it. */
  lemma DeliverAnswerInv(s: System, e: Endpoint, msg: Bytes)
    requires Inv(s) && (e, msg) in s.responses
    ensures var s' := s.(pending := FecSocket.Next(s.pending, Receive(e, Truncated(msg)))); Inv(s')
  {
    var s' := s.(pending := FecSocket.Next(s.pending, Receive(e, Truncated(msg))));
    RemovedOk(s.pending, e, Truncated(msg));
    assert AnswerOk(s, e, msg);
    forall p | p in s'.registered
      ensures Processed(s', p.0, p.1) || Awaits(s'.pending, p.0, p.1)
    {
      TruncatedAnswer(msg, p.1);
      ResponsesTellTheKind(p.1, AcqOn);
      ResponsesTellTheKind(p.1, AcqOff);
      if !Processed(s, p.0, p.1) {
        StillAwaits(s.pending, e, Truncated(msg), p.0, p.1);
      }
    }
  }

  lemma RegisterInv(nonStop: bool, s: System, e: Endpoint, kind: Kind, id: nat)
    requires Inv(s)
    ensures Inv(Step(nonStop, s, RegisterCommand(e, kind, id)))
  {
    var s' := Step(nonStop, s, RegisterCommand(e, kind, id));
    var c := Command(id, Response(kind));
    assert s'.pending[e] == Pending(s.pending, e) + [c];
    assert Pending(s'.pending, e)[|Pending(s.pending, e)|] == c;
    forall p | p in s.registered && Awaits(s.pending, p.0, p.1)
      ensures Awaits(s'.pending, p.0, p.1)
    {
      var i :| 0 <= i < |Pending(s.pending, p.0)| && Pending(s.pending, p.0)[i].response == Response(p.1);
      assert Pending(s'.pending, p.0)[i] == Pending(s.pending, p.0)[i];
    }
    forall p | p in s'.registered
      ensures Processed(s', p.0, p.1) || Awaits(s'.pending, p.0, p.1)
    {
      assert p == (e, kind) || p in s.registered;
      if p in s.registered {
        assert Processed(s, p.0, p.1) || Awaits(s.pending, p.0, p.1);
      }
    }
  }

  /** An emulator's step keeps what it has processed. */
  lemma EmulatorInv(s: System, e: Endpoint, x: Emulator, responses: set<(Endpoint, Bytes)>)
    requires Inv(s) && e in s.emulators && EmulatorOk(x) && s.emulators[e].processed <= x.processed
    requires forall p :: p in responses ==> AnswerOk(s, p.0, p.1)
    ensures Inv(s.(emulators := s.emulators[e := x], responses := s.responses + responses))
  {
    var s' := s.(emulators := s.emulators[e := x], responses := s.responses + responses);
    forall p | p in s'.responses
      ensures AnswerOk(s', p.0, p.1)
    {
      assert AnswerOk(s, p.0, p.1);
    }
    forall p | p in s'.registered
      ensures Processed(s', p.0, p.1) || Awaits(s'.pending, p.0, p.1)
    {
      assert Processed(s, p.0, p.1) || Awaits(s.pending, p.0, p.1);
    }
  }

  lemma StepInv(nonStop: bool, s: System, ev: Event)
    requires Inv(s) && Enabled(s, ev)
    ensures Inv(Step(nonStop, s, ev))
  {
    match ev {
      case RegisterCommand(e, kind, id) =>
        RegisterInv(nonStop, s, e, kind, id);
      case SendRequest(_, _) =>
      case DeliverRequest(e, msg) =>
        HeardOk(s.emulators[e], msg);
        EmulatorInv(s, e, Heard(s.emulators[e], msg), {});
        assert s.responses + {} == s.responses;
      case Act(e) =>
        EmulatorInv(s, e, Acted(nonStop, s.emulators[e]), {});
        assert s.responses + {} == s.responses;
      case SendAnswer(e, j) =>
        var x := s.emulators[e];
        assert EmulatorOk(x);
        EmulatorInv(s, e, x.(spawned := Remove(x.spawned, j)), {(e, Answer(x.spawned[j]))});
      case DeliverAnswer(e, msg) =>
        DeliverAnswerInv(s, e, msg);
    }
  }

  lemma {:induction false} RunInv(nonStop: bool, s: System, es: seq<Event>)
    requires Inv(s) && Legal(nonStop, s, es)
    ensures Inv(After(nonStop, s, es))
    decreases |es|
  {
    if es == [] {
    } else {
      StepInv(nonStop, s, es[0]);
      RunInv(nonStop, Step(nonStop, s, es[0]), es[1..]);
    }
  }
}
