/** What a finished socket means for the front-ends, and what it does not, in every run of the network. */
module FecTheorems {
  import opened Common
  import opened FecMessages
  import opened FecSocket
  import opened FecNetwork
  import opened FecInvariant

  // ----- what it means

  /** No false completion: when the socket counts as finished, the emulator at every registered endpoint
      has processed a request of every registered kind. */
  lemma NoFalseCompletion(nonStop: bool, s: System, es: seq<Event>)
    requires Start(s) && Legal(nonStop, s, es)
    ensures var s' := After(nonStop, s, es);
            Finished(s'.pending) ==> forall p :: p in s'.registered ==> Processed(s', p.0, p.1)
  {
    RunInv(nonStop, s, es);
    var s' := After(nonStop, s, es);
    if Finished(s'.pending) {
      forall p | p in s'.registered
        ensures Processed(s', p.0, p.1)
      {
        assert Pending(s'.pending, p.0) == [];
        assert !Awaits(s'.pending, p.0, p.1);
      }
    }
  }

  lemma {:induction false} RunAppend(nonStop: bool, s: System, es: seq<Event>, ev: Event)
    requires Legal(nonStop, s, es) && Enabled(After(nonStop, s, es), ev)
    ensures Legal(nonStop, s, es + [ev]) && After(nonStop, s, es + [ev]) == Step(nonStop, After(nonStop, s, es), ev)
    decreases |es|
  {
    if es == [] {
      assert es + [ev] == [ev] && [ev][1..] == [];
    } else {
      RunAppend(nonStop, Step(nonStop, s, es[0]), es[1..], ev);
      assert (es + [ev])[1..] == es[1..] + [ev];
    }
  }

  // ----- what a finished socket does not mean

  lemma Extend(nonStop: bool, s0: System, es: seq<Event>, s: System, ev: Event) returns (es': seq<Event>, s': System)
    requires Legal(nonStop, s0, es) && After(nonStop, s0, es) == s && Enabled(s, ev)
    ensures es' == es + [ev] && Legal(nonStop, s0, es') && After(nonStop, s0, es') == s' && s' == Step(nonStop, s, ev)
  {
    RunAppend(nonStop, s0, es, ev);
    es', s' := es + [ev], Step(nonStop, s, ev);
  }

  predicate IsRegistration(ev: Event, e: Endpoint, kind: Kind) {
    ev.RegisterCommand? && ev.e == e && ev.kind == kind
  }

  predicate IsHearing(ev: Event, e: Endpoint, kind: Kind) {
    ev.DeliverRequest? && ev.e == e && Classify(Truncated(ev.msg)) == Some(kind)
  }

  /** How often a command of the kind was registered for the endpoint. */
  function Registrations(es: seq<Event>, e: Endpoint, kind: Kind): nat {
    if es == [] then 0
    else Registrations(es[..|es| - 1], e, kind) + (if IsRegistration(es[|es| - 1], e, kind) then 1 else 0)
  }

  /** How often the emulator at the endpoint heard a command of the kind. */
  function Hearings(es: seq<Event>, e: Endpoint, kind: Kind): nat {
    if es == [] then 0
    else Hearings(es[..|es| - 1], e, kind) + (if IsHearing(es[|es| - 1], e, kind) then 1 else 0)
  }

  lemma CountsPush(es: seq<Event>, ev: Event, e: Endpoint, kind: Kind)
    ensures Registrations(es + [ev], e, kind)
         == Registrations(es, e, kind) + (if IsRegistration(ev, e, kind) then 1 else 0)
    ensures Hearings(es + [ev], e, kind) == Hearings(es, e, kind) + (if IsHearing(ev, e, kind) then 1 else 0)
  {
    assert (es + [ev])[..|es + [ev]| - 1] == es;
  }

  /** `n` commands of one kind are pending at the endpoint, and nothing anywhere else. */
  predicate Owes(cs: Connections, e: Endpoint, kind: Kind, n: nat) {
    && (forall x :: x in cs && x != e ==> cs[x] == [])
    && |Pending(cs, e)| == n
    && forall i :: 0 <= i < n ==> Pending(cs, e)[i].response == Response(kind)
  }

  /** The run so far: `n` registrations of one kind and `m` requests heard, none of them acted on. */
  ghost predicate Stage(nonStop: bool, s0: System, es: seq<Event>, s: System, e: Endpoint, kind: Kind, n: nat, m: nat) {
    && Legal(nonStop, s0, es) && After(nonStop, s0, es) == s
    && Registrations(es, e, kind) == n && Hearings(es, e, kind) == m
    && e in s.emulators && s.emulators[e].applied == {}
  }

  lemma {:induction false} RegisterMany(nonStop: bool, s0: System, e: Endpoint, kind: Kind, n: nat)
    returns (es: seq<Event>, s: System)
    requires Start(s0) && e in s0.emulators
    ensures Stage(nonStop, s0, es, s, e, kind, n, 0) && Owes(s.pending, e, kind, n)
    ensures s.emulators == s0.emulators && (n > 0 ==> (e, kind) in s.registered)
    ensures s.registered <= {(e, kind)}
  {
    if n == 0 {
      es, s := [], s0;
    } else {
      es, s := RegisterMany(nonStop, s0, e, kind, n - 1);
      CountsPush(es, RegisterCommand(e, kind, n), e, kind);
      es, s := Extend(nonStop, s0, es, s, RegisterCommand(e, kind, n));
    }
  }

  /** One request is sent and heard. */
  lemma HeardOnce(nonStop: bool, s0: System, es: seq<Event>, s: System, e: Endpoint, kind: Kind, n: nat)
    returns (es': seq<Event>, s': System)
    requires Stage(nonStop, s0, es, s, e, kind, n, 0) && (e, kind) in s.registered
    requires s.emulators[e].listening && s.emulators[e].busy.None? && s.emulators[e].spawned == []
    ensures Stage(nonStop, s0, es', s', e, kind, n, 1)
    ensures s'.pending == s.pending && s'.registered == s.registered && s'.emulators[e].spawned == [Some(kind)]
  {
    ClassifyRecoversKind(kind);
    assert |Request(kind)| == 24;
    CountsPush(es, SendRequest(e, kind), e, kind);
    es', s' := Extend(nonStop, s0, es, s, SendRequest(e, kind));
    CountsPush(es', DeliverRequest(e, Request(kind)), e, kind);
    es', s' := Extend(nonStop, s0, es', s', DeliverRequest(e, Request(kind)));
  }

  /** One request is sent, heard and answered. */
  lemma AnsweredOnce(nonStop: bool, s0: System, es: seq<Event>, s: System, e: Endpoint, kind: Kind, n: nat)
    returns (es': seq<Event>, s': System)
    requires Stage(nonStop, s0, es, s, e, kind, n, 0) && (e, kind) in s.registered
    requires s.emulators[e].listening && s.emulators[e].busy.None? && s.emulators[e].spawned == []
    ensures Stage(nonStop, s0, es', s', e, kind, n, 1)
    ensures s'.pending == s.pending && s'.registered == s.registered && (e, Response(kind)) in s'.responses
  {
    es', s' := HeardOnce(nonStop, s0, es, s, e, kind, n);
    CountsPush(es', SendAnswer(e, 0), e, kind);
    es', s' := Extend(nonStop, s0, es', s', SendAnswer(e, 0));
  }

  /** The same answer is delivered as often as it is awaited. */
  lemma {:induction false} DeliveredOften(nonStop: bool, s0: System, es: seq<Event>, s: System,
                                          e: Endpoint, kind: Kind, n: nat, left: nat)
    returns (es': seq<Event>, s': System)
    requires Stage(nonStop, s0, es, s, e, kind, n, 1) && Owes(s.pending, e, kind, left)
    requires (e, Response(kind)) in s.responses
    ensures Stage(nonStop, s0, es', s', e, kind, n, 1) && Finished(s'.pending) && s'.registered == s.registered
    decreases left
  {
    if left == 0 {
      es', s' := es, s;
    } else {
      AnswerLength(kind);
      CountsPush(es, DeliverAnswer(e, Response(kind)), e, kind);
      OneLess(s.pending, e, kind, left);
      es', s' := Extend(nonStop, s0, es, s, DeliverAnswer(e, Response(kind)));
      es', s' := DeliveredOften(nonStop, s0, es', s', e, kind, n, left - 1);
    }
  }

  lemma OneLess(cs: Connections, e: Endpoint, kind: Kind, n: nat)
    requires n > 0 && Owes(cs, e, kind, n)
    ensures Owes(FecSocket.Next(cs, Receive(e, Response(kind))), e, kind, n - 1)
  {
    assert Accepts(cs[e][0], Response(kind));
    var i := FirstMatch(cs[e], Response(kind)).value;
    SwapPopIsPart(cs[e], i);
  }

  /** From any start with a listening emulator: `n` commands of one kind can all be finished by the answer
      to a single request, and before that request takes effect. */
  lemma OneAnswerFinishesAll(nonStop: bool, s0: System, e: Endpoint, kind: Kind, n: nat) returns (es: seq<Event>)
    requires Start(s0) && e in s0.emulators && s0.emulators[e].listening && n > 0
    ensures Legal(nonStop, s0, es) && Registrations(es, e, kind) == n && Hearings(es, e, kind) == 1
    ensures var s := After(nonStop, s0, es);
            Finished(s.pending) && s.registered == {(e, kind)} && !Applied(s, e, kind)
  {
    var s: System;
    es, s := RegisterMany(nonStop, s0, e, kind, n);
    es, s := AnsweredOnce(nonStop, s0, es, s, e, kind, n);
    es, s := DeliveredOften(nonStop, s0, es, s, e, kind, n, n);
  }

  /** Whenever the socket is finished, the registered commands have taken effect. */
  ghost predicate FinishedMeansEffect(nonStop: bool, s0: System) {
    forall es :: Legal(nonStop, s0, es) && Finished(After(nonStop, s0, es).pending) ==>
      forall p :: p in After(nonStop, s0, es).registered ==> Applied(After(nonStop, s0, es), p.0, p.1)
  }

  /** That can be relied on exactly if no emulator listens at all, because an answer is spawned before its
      command is acted on. */
  lemma EffectIsNotGuaranteed(nonStop: bool, s0: System)
    requires Start(s0)
    ensures FinishedMeansEffect(nonStop, s0) <==> forall e :: e in s0.emulators ==> !s0.emulators[e].listening
  {
    if e :| e in s0.emulators && s0.emulators[e].listening {
      var es := OneAnswerFinishesAll(nonStop, s0, e, AcqOn, 1);
      assert (e, AcqOn) in After(nonStop, s0, es).registered;
      assert !Applied(After(nonStop, s0, es), (e, AcqOn).0, (e, AcqOn).1);
    } else {
      forall es | Legal(nonStop, s0, es) && Finished(After(nonStop, s0, es).pending)
        ensures forall p :: p in After(nonStop, s0, es).registered ==> Applied(After(nonStop, s0, es), p.0, p.1)
      {
        SilentNeverFinishes(nonStop, s0, es);
      }
    }
  }

  /** Where no emulator listens, a finished socket had nothing registered. */
  lemma SilentNeverFinishes(nonStop: bool, s0: System, es: seq<Event>)
    requires Start(s0) && Legal(nonStop, s0, es) && forall e :: e in s0.emulators ==> !s0.emulators[e].listening
    requires Finished(After(nonStop, s0, es).pending)
    ensures After(nonStop, s0, es).registered == {}
  {
    NoFalseCompletion(nonStop, s0, es);
    forall e: Endpoint, kind: Kind
      ensures !Processed(After(nonStop, s0, es), e, kind)
    {
      SilentProcessesNothing(nonStop, s0, es, e);
    }
  }

  lemma SilentProcessesNothing(nonStop: bool, s0: System, es: seq<Event>, e: Endpoint)
    requires Start(s0) && Legal(nonStop, s0, es) && (e in s0.emulators ==> !s0.emulators[e].listening)
    ensures var s := After(nonStop, s0, es); e in s.emulators ==> s.emulators[e].processed == {}
  {
    SameEmulators(nonStop, s0, es);
    if e in s0.emulators {
      StoppedStaysStopped(nonStop, s0, es, e);
    }
  }

  lemma {:induction false} SameEmulators(nonStop: bool, s: System, es: seq<Event>)
    requires Legal(nonStop, s, es)
    ensures After(nonStop, s, es).emulators.Keys == s.emulators.Keys
    decreases |es|
  {
    if es == [] {
    } else {
      SameEmulators(nonStop, Step(nonStop, s, es[0]), es[1..]);
    }
  }

  /** A finished socket with `n` registered commands of a kind means `n` heard requests of it. */
  ghost predicate FinishedMeansHeard(nonStop: bool, s0: System, e: Endpoint, kind: Kind, n: nat) {
    forall es :: Legal(nonStop, s0, es) && Registrations(es, e, kind) == n
                 && Finished(After(nonStop, s0, es).pending) ==>
      Hearings(es, e, kind) >= n
  }

  /** That can be relied on exactly for at most one command of a kind per endpoint, since the network may
      duplicate the answer. */
  lemma HeardOncePerKind(nonStop: bool, s0: System, e: Endpoint, kind: Kind, n: nat)
    requires Start(s0) && e in s0.emulators && s0.emulators[e].listening
    ensures FinishedMeansHeard(nonStop, s0, e, kind, n) <==> n <= 1
  {
    if n > 1 {
      var es := OneAnswerFinishesAll(nonStop, s0, e, kind, n);
      assert Hearings(es, e, kind) < n;
    } else if n == 1 {
      forall es | Legal(nonStop, s0, es) && Registrations(es, e, kind) == n && Finished(After(nonStop, s0, es).pending)
        ensures Hearings(es, e, kind) >= n
      {
        RegisteredIffCounted(nonStop, s0, es, e, kind);
        NoFalseCompletion(nonStop, s0, es);
        assert Processed(After(nonStop, s0, es), (e, kind).0, (e, kind).1);
      }
    }
  }

  lemma LegalFront(nonStop: bool, s: System, es: seq<Event>)
    requires Legal(nonStop, s, es) && es != []
    ensures Legal(nonStop, s, es[..|es| - 1]) && Enabled(After(nonStop, s, es[..|es| - 1]), es[|es| - 1])
    ensures After(nonStop, s, es) == Step(nonStop, After(nonStop, s, es[..|es| - 1]), es[|es| - 1])
    decreases |es|
  {
    if |es| > 1 {
      LegalFront(nonStop, Step(nonStop, s, es[0]), es[1..]);
      assert es[1..][..|es[1..]| - 1] == es[..|es| - 1][1..];
    }
  }

  /** One while the emulator has yet to act on a command of the kind. */
  function BusyWith(x: Emulator, kind: Kind): nat {
    if x.busy == Some(kind) then 1 else 0
  }

  /** What the emulator did, given that it heard `n` commands of the kind. */
  predicate DidWhatItHeard(x: Emulator, kind: Kind, n: nat) {
    && BusyWith(x, kind) <= n
    && (kind in x.processed <==> n > 0)
    && (kind in x.applied <==> n > BusyWith(x, kind))
    && (kind.AcqOn? ==> x.starts + BusyWith(x, kind) == n)
  }

  predicate Accounted(s: System, e: Endpoint, kind: Kind, n: nat) {
    if e in s.emulators then DidWhatItHeard(s.emulators[e], kind, n) else n == 0
  }

  lemma HeardAccounted(x: Emulator, msg: Bytes, kind: Kind, n: nat)
    requires x.busy.None? && DidWhatItHeard(x, kind, n)
    ensures DidWhatItHeard(Heard(x, msg), kind, n + (if Classify(Truncated(msg)) == Some(kind) then 1 else 0))
  {
  }

  lemma ActedAccounted(nonStop: bool, x: Emulator, kind: Kind, n: nat)
    requires x.busy.Some? && DidWhatItHeard(x, kind, n)
    ensures DidWhatItHeard(Acted(nonStop, x), kind, n)
  {
  }

  lemma StepAccounted(nonStop: bool, s: System, ev: Event, e: Endpoint, kind: Kind, n: nat)
    requires Enabled(s, ev) && Accounted(s, e, kind, n)
    ensures Accounted(Step(nonStop, s, ev), e, kind, n + (if IsHearing(ev, e, kind) then 1 else 0))
  {
    if ev.DeliverRequest? && ev.e == e {
      HeardAccounted(s.emulators[e], ev.msg, kind, n);
    } else if ev.Act? && ev.e == e {
      ActedAccounted(nonStop, s.emulators[e], kind, n);
    }
  }

  /** What the emulator has processed, acted on and started is what it heard, less what it is busy with. */
  lemma {:induction false} HearingsAccounted(nonStop: bool, s0: System, es: seq<Event>, e: Endpoint, kind: Kind)
    requires Start(s0) && Legal(nonStop, s0, es)
    ensures Accounted(After(nonStop, s0, es), e, kind, Hearings(es, e, kind))
    decreases |es|
  {
    if es == [] {
    } else {
      var front, ev := es[..|es| - 1], es[|es| - 1];
      LegalFront(nonStop, s0, es);
      HearingsAccounted(nonStop, s0, front, e, kind);
      StepAccounted(nonStop, After(nonStop, s0, front), ev, e, kind, Hearings(front, e, kind));
    }
  }

  lemma {:induction false} RegistrationsCounted(nonStop: bool, s0: System, es: seq<Event>, e: Endpoint, kind: Kind)
    requires Start(s0) && Legal(nonStop, s0, es)
    ensures (e, kind) in After(nonStop, s0, es).registered <==> Registrations(es, e, kind) > 0
    decreases |es|
  {
    if es == [] {
    } else {
      LegalFront(nonStop, s0, es);
      RegistrationsCounted(nonStop, s0, es[..|es| - 1], e, kind);
    }
  }

  /** Registrations and processed commands are the counted events. */
  lemma RegisteredIffCounted(nonStop: bool, s0: System, es: seq<Event>, e: Endpoint, kind: Kind)
    requires Start(s0) && Legal(nonStop, s0, es)
    ensures (e, kind) in After(nonStop, s0, es).registered <==> Registrations(es, e, kind) > 0
    ensures Processed(After(nonStop, s0, es), e, kind) <==> Hearings(es, e, kind) > 0
  {
    RegistrationsCounted(nonStop, s0, es, e, kind);
    HearingsAccounted(nonStop, s0, es, e, kind);
  }

  /** When the socket is finished, a registered command has taken effect, exactly unless the emulator is
      still busy with the only one of its kind that it heard. */
  lemma FinishedMeansApplied(nonStop: bool, s: System, es: seq<Event>, e: Endpoint, kind: Kind)
    requires Start(s) && Legal(nonStop, s, es)
    requires Finished(After(nonStop, s, es).pending) && (e, kind) in After(nonStop, s, es).registered
    ensures var s' := After(nonStop, s, es);
            && e in s'.emulators
            && (Applied(s', e, kind) <==> !(s'.emulators[e].busy == Some(kind) && Hearings(es, e, kind) == 1))
  {
    NoFalseCompletion(nonStop, s, es);
    assert Processed(After(nonStop, s, es), (e, kind).0, (e, kind).1);
    HearingsAccounted(nonStop, s, es, e, kind);
  }

  /** Every heard start command, a duplicate as well, resets the frame counter and starts a data sender. */
  lemma EveryStartSends(nonStop: bool, s: System, es: seq<Event>, e: Endpoint)
    requires Start(s) && Legal(nonStop, s, es) && e in After(nonStop, s, es).emulators
    ensures var x := After(nonStop, s, es).emulators[e]; x.starts + BusyWith(x, AcqOn) == Hearings(es, e, AcqOn)
  {
    HearingsAccounted(nonStop, s, es, e, AcqOn);
  }

  /** Once an emulator has stopped listening, it processes nothing any more. */
  lemma {:induction false} StoppedStaysStopped(nonStop: bool, s: System, es: seq<Event>, e: Endpoint)
    requires Legal(nonStop, s, es) && e in s.emulators && !s.emulators[e].listening
    ensures var s' := After(nonStop, s, es);
            e in s'.emulators && !s'.emulators[e].listening && s'.emulators[e].processed == s.emulators[e].processed
    decreases |es|
  {
    if es == [] {
    } else {
      StoppedStaysStopped(nonStop, Step(nonStop, s, es[0]), es[1..], e);
    }
  }

  // ----- commands and answers in bytes

  /** The emulator looks at no more than the first 96 bytes of a message, and there at the last twelve; what it
      is going to answer are 24 bytes, or none for anything but a command. */
  lemma HeardInBytes(x: Emulator, msg: Bytes)
    ensures var seen := if |msg| <= 96 then msg else msg[..96];
            var on := |seen| >= 12 && seen[|seen| - 12..] == [0, 0, 0, 0, 0, 0, 0, 15, 0, 0, 0, 1];
            var off := |seen| >= 12 && seen[|seen| - 12..] == [0, 0, 0, 0, 0, 0, 0, 15, 0, 0, 0, 0];
            var x' := Heard(x, msg);
            && x'.busy == (if on then Some(AcqOn) else if off then Some(AcqOff) else None)
            && |x'.spawned| == |x.spawned| + 1 && x'.spawned[..|x.spawned|] == x.spawned
            && Answer(x'.spawned[|x.spawned|]) ==
                 if on then [0, 0, 0, 0, 0, 0, 0, 15, 0xaa, 0xaa, 0xff, 0xff, 0, 0, 0, 0, 0, 0, 0, 0, 0, 0, 0, 1]
                 else if off then [0, 0, 0, 0, 0, 0, 0, 15, 0xaa, 0xaa, 0xff, 0xff, 0, 0, 0, 0, 0, 0, 0, 0, 0, 0, 0, 0]
                 else []
    ensures var x' := Heard(x, msg);
            x'.listening == x.listening && x'.switchedOff == x.switchedOff && x'.starts == x.starts
  {
    ClassifiedByLastBytes(if |msg| <= 96 then msg else msg[..96]);
    ResponseBytes();
  }

  /** A registered start is taken off the list by exactly the 24 bytes of the start's answer, and a stop's answer
      leaves it there. */
  lemma StartAwaitsItsBytes(nonStop: bool, s: System, e: Endpoint, id: nat)
    requires e !in s.pending
    ensures var cs := Step(nonStop, s, RegisterCommand(e, AcqOn, id)).pending;
            var on := [0, 0, 0, 0, 0, 0, 0, 15, 0xaa, 0xaa, 0xff, 0xff, 0, 0, 0, 0, 0, 0, 0, 0, 0, 0, 0, 1];
            var off := [0, 0, 0, 0, 0, 0, 0, 15, 0xaa, 0xaa, 0xff, 0xff, 0, 0, 0, 0, 0, 0, 0, 0, 0, 0, 0, 0];
            && FecSocket.Next(cs, Receive(e, on)) == s.pending[e := []]
            && FecSocket.Next(cs, Receive(e, off)) == cs && e in cs && |cs[e]| == 1 && cs[e][0].id == id
  {
    OnlyAnswerTaken(nonStop, s, e, AcqOn, AcqOff, id);
    ResponseBytes();
  }

  /** The same of a stop. */
  lemma StopAwaitsItsBytes(nonStop: bool, s: System, e: Endpoint, id: nat)
    requires e !in s.pending
    ensures var cs := Step(nonStop, s, RegisterCommand(e, AcqOff, id)).pending;
            var on := [0, 0, 0, 0, 0, 0, 0, 15, 0xaa, 0xaa, 0xff, 0xff, 0, 0, 0, 0, 0, 0, 0, 0, 0, 0, 0, 1];
            var off := [0, 0, 0, 0, 0, 0, 0, 15, 0xaa, 0xaa, 0xff, 0xff, 0, 0, 0, 0, 0, 0, 0, 0, 0, 0, 0, 0];
            && FecSocket.Next(cs, Receive(e, off)) == s.pending[e := []]
            && FecSocket.Next(cs, Receive(e, on)) == cs && e in cs && |cs[e]| == 1 && cs[e][0].id == id
  {
    OnlyAnswerTaken(nonStop, s, e, AcqOff, AcqOn, id);
    ResponseBytes();
  }

  lemma RegisteredAlone(nonStop: bool, s: System, e: Endpoint, kind: Kind, id: nat)
    requires e !in s.pending
    ensures Step(nonStop, s, RegisterCommand(e, kind, id)).pending == s.pending[e := [Command(id, Response(kind))]]
  {
    assert [] + [Command(id, Response(kind))] == [Command(id, Response(kind))];
  }

  lemma ExpectedAlone(cs: Connections, e: Endpoint, c: Command, response: Bytes)
    requires e in cs && cs[e] == [c] && c.response != [] && response != []
    ensures FecSocket.Next(cs, Receive(e, response)) == if response == c.response then cs[e := []] else cs
  {
    if response == c.response {
      ReceiveExactly(cs, e, response, 0);
      assert [c][..0] == [];
    } else {
      NothingExpected(cs, e, response, c);
    }
  }

  lemma OnlyAnswerTaken(nonStop: bool, s: System, e: Endpoint, kind: Kind, other: Kind, id: nat)
    requires e !in s.pending && kind != other
    ensures var cs := Step(nonStop, s, RegisterCommand(e, kind, id)).pending;
            && cs == s.pending[e := [Command(id, Response(kind))]]
            && FecSocket.Next(cs, Receive(e, Response(kind))) == s.pending[e := []]
            && FecSocket.Next(cs, Receive(e, Response(other))) == cs
  {
    var c := Command(id, Response(kind));
    var cs := s.pending[e := [c]];
    RegisteredAlone(nonStop, s, e, kind, id);
    ResponsesTellTheKind(kind, other);
    ResponsesTellTheKind(other, kind);
    ExpectedAlone(cs, e, c, Response(kind));
    ExpectedAlone(cs, e, c, Response(other));
    assert cs[e := []] == s.pending[e := []];
  }

  // ----- what the commands do

  /** The command that endpoint `e` heard last; an unrecognised message is none. */
  function LastHeard(es: seq<Event>, e: Endpoint): Option<Kind> {
    if es == [] then None
    else
      var ev := es[|es| - 1];
      if ev.DeliverRequest? && ev.e == e then Classify(Truncated(ev.msg)) else LastHeard(es[..|es| - 1], e)
  }

  /** The command that endpoint `e` acted on last: the one it had heard last when it acted. */
  function LastActed(es: seq<Event>, e: Endpoint): Option<Kind> {
    if es == [] then None
    else
      var front := es[..|es| - 1];
      if es[|es| - 1] == Act(e) then LastHeard(front, e) else LastActed(front, e)
  }

  /** It acted on a stop at some time. */
  predicate ActedOnStop(es: seq<Event>, e: Endpoint) {
    es != [] && (ActedOnStop(es[..|es| - 1], e)
                 || (es[|es| - 1] == Act(e) && LastHeard(es[..|es| - 1], e) == Some(AcqOff)))
  }

  /** The switch and the listening of endpoint `e`, as the events say. */
  predicate Switched(nonStop: bool, x0: Emulator, x: Emulator, es: seq<Event>, e: Endpoint) {
    && (x.busy.Some? ==> x.busy == LastHeard(es, e))
    && (x.switchedOff <==> LastActed(es, e) == Some(AcqOff) || (LastActed(es, e) == None && x0.switchedOff))
    && (x.listening <==> x0.listening && (nonStop || !ActedOnStop(es, e)))
  }

  lemma EventsPush(es: seq<Event>, ev: Event, e: Endpoint)
    ensures LastHeard(es + [ev], e)
         == if ev.DeliverRequest? && ev.e == e then Classify(Truncated(ev.msg)) else LastHeard(es, e)
    ensures LastActed(es + [ev], e) == if ev == Act(e) then LastHeard(es, e) else LastActed(es, e)
    ensures ActedOnStop(es + [ev], e)
       <==> ActedOnStop(es, e) || (ev == Act(e) && LastHeard(es, e) == Some(AcqOff))
  {
    assert (es + [ev])[..|es + [ev]| - 1] == es;
  }

  lemma HeardSwitched(nonStop: bool, x0: Emulator, x: Emulator, es: seq<Event>, e: Endpoint, msg: Bytes)
    requires Switched(nonStop, x0, x, es, e)
    ensures Switched(nonStop, x0, Heard(x, msg), es + [DeliverRequest(e, msg)], e)
  {
    EventsPush(es, DeliverRequest(e, msg), e);
  }

  lemma ActedSwitched(nonStop: bool, x0: Emulator, x: Emulator, es: seq<Event>, e: Endpoint)
    requires Switched(nonStop, x0, x, es, e) && x.busy.Some?
    ensures Switched(nonStop, x0, Acted(nonStop, x), es + [Act(e)], e)
  {
    EventsPush(es, Act(e), e);
  }

  /** Any other step leaves the emulator alone, but for an answer that is sent. */
  lemma OtherSwitched(nonStop: bool, s: System, ev: Event, e: Endpoint)
    requires Enabled(s, ev) && e in s.emulators && !(ev.DeliverRequest? && ev.e == e) && ev != Act(e)
    ensures e in Step(nonStop, s, ev).emulators
    ensures var x, x' := s.emulators[e], Step(nonStop, s, ev).emulators[e];
            x'.busy == x.busy && x'.switchedOff == x.switchedOff && x'.listening == x.listening
  {
  }

  lemma StepSwitched(nonStop: bool, s0: System, s: System, es: seq<Event>, ev: Event, e: Endpoint)
    requires Enabled(s, ev) && e in s0.emulators && e in s.emulators
    requires Switched(nonStop, s0.emulators[e], s.emulators[e], es, e)
    ensures e in Step(nonStop, s, ev).emulators
    ensures Switched(nonStop, s0.emulators[e], Step(nonStop, s, ev).emulators[e], es + [ev], e)
  {
    if ev.DeliverRequest? && ev.e == e {
      HeardSwitched(nonStop, s0.emulators[e], s.emulators[e], es, e, ev.msg);
    } else if ev == Act(e) {
      ActedSwitched(nonStop, s0.emulators[e], s.emulators[e], es, e);
    } else {
      OtherSwitched(nonStop, s, ev, e);
      EventsPush(es, ev, e);
    }
  }

  lemma {:induction false} RunSwitched(nonStop: bool, s0: System, es: seq<Event>, e: Endpoint)
    requires Start(s0) && Legal(nonStop, s0, es) && e in s0.emulators
    ensures e in After(nonStop, s0, es).emulators
    ensures Switched(nonStop, s0.emulators[e], After(nonStop, s0, es).emulators[e], es, e)
    decreases |es|
  {
    if es == [] {
    } else {
      var front, ev := es[..|es| - 1], es[|es| - 1];
      LegalFront(nonStop, s0, es);
      RunSwitched(nonStop, s0, front, e);
      StepSwitched(nonStop, s0, After(nonStop, s0, front), front, ev, e);
      assert es == front + [ev];
    }
  }

  /** Over any run a front-end is switched off if and only if the command it acted on last was a stop, or it
      acted on none and was off at first; and it listens if and only if it did at first, and went on after
      every stop. */
  lemma SwitchFollowsCommands(nonStop: bool, s0: System, es: seq<Event>, e: Endpoint)
    requires Start(s0) && Legal(nonStop, s0, es) && e in s0.emulators
    ensures e in After(nonStop, s0, es).emulators
    ensures var x0, x := s0.emulators[e], After(nonStop, s0, es).emulators[e];
            && (x.switchedOff <==> LastActed(es, e) == Some(AcqOff) || (LastActed(es, e) == None && x0.switchedOff))
            && (x.listening <==> x0.listening && (nonStop || !ActedOnStop(es, e)))
  {
    RunSwitched(nonStop, s0, es, e);
  }

  /** Every request on the network was there at first, or
      is one of a registered command. */
  lemma {:induction false} RequestsAreRegistered(nonStop: bool, s0: System, es: seq<Event>, e: Endpoint, msg: Bytes)
    requires Legal(nonStop, s0, es) && (e, msg) in After(nonStop, s0, es).requests && (e, msg) !in s0.requests
    ensures exists kind :: (e, kind) in After(nonStop, s0, es).registered && msg == Request(kind)
    decreases |es|
  {
    if es == [] {
    } else {
      var front, ev := es[..|es| - 1], es[|es| - 1];
      LegalFront(nonStop, s0, es);
      if (e, msg) in After(nonStop, s0, front).requests {
        RequestsAreRegistered(nonStop, s0, front, e, msg);
        var kind :| (e, kind) in After(nonStop, s0, front).registered && msg == Request(kind);
        assert (e, kind) in After(nonStop, s0, es).registered;
      } else {
        assert ev.SendRequest? && (e, ev.kind) in After(nonStop, s0, es).registered;
      }
    }
  }
}
