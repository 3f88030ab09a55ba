/** Switching front-ends over a network that loses, duplicates and reorders messages. */
module FecNetwork {
  import opened Common
  import opened Seqs
  import opened FecMessages
  import opened FecSocket

  // A message that was sent once may be delivered any number of times, in any order, or never; messages
  // are not forged. The emulator spawns its answer before it acts on a command, so that the two race.

  /** What a receive buffer keeps of a datagram. */
  function Truncated(msg: Bytes): Bytes {
    if |msg| <= SMALL_READ_MSG_BUFFER_SIZE then msg else msg[..SMALL_READ_MSG_BUFFER_SIZE]
  }

  /** `busy` is a command that was recognised but has not been acted on, `spawned` the answers that are
      still to be sent, and `starts` how often the world's frame counter was reset and a data sender
      started. `processed` and `applied` only record what happened. */
  datatype Emulator = Emulator(
    listening: bool, switchedOff: bool, busy: Option<Kind>, spawned: seq<Option<Kind>>, starts: nat,
    processed: set<Kind>, applied: set<Kind>)

  // ----- the emulator's steps

  /** A message is received and classified, and its answer is spawned. */
  function Heard(x: Emulator, msg: Bytes): Emulator {
    var kind := Classify(Truncated(msg));
    x.(spawned := x.spawned + [kind], busy := kind,
       processed := if kind.Some? then x.processed + {kind.value} else x.processed)
  }

  /** `do_if_acq_on` and `do_if_acq_off`; off also ends the listening unless the world goes on. */
  function Acted(nonStop: bool, x: Emulator): Emulator
    requires x.busy.Some?
  {
    var kind := x.busy.value;
    x.(busy := None, switchedOff := kind.AcqOff?, listening := x.listening && (kind.AcqOn? || nonStop),
       starts := x.starts + (if kind.AcqOn? then 1 else 0), applied := x.applied + {kind})
  }

  /** One front-end emulator. */
  class FECEmulator {
    const nonStop: bool
    var isSwitchedOff: bool
    var listening: bool
    var busy: Option<Kind>
    var spawned: seq<Option<Kind>>
    var starts: nat
    ghost var processed: set<Kind>
    ghost var applied: set<Kind>

    ghost function View(): Emulator
      reads this
    {
      Emulator(listening, isSwitchedOff, busy, spawned, starts, processed, applied)
    }

    constructor (nonStop: bool)
      ensures this.nonStop == nonStop && View() == IDLE
      ensures isSwitchedOff && listening && busy.None? && spawned == [] && starts == 0
    {
      this.nonStop := nonStop;
      isSwitchedOff, listening, busy, spawned, starts, processed, applied := true, true, None, [], 0, {}, {};
    }

    /** The receiving half of the listening loop. */
    method Receive(msg: Bytes)
      requires listening && busy.None?
      modifies this
      ensures View() == Heard(old(View()), msg)
    {
      var result := Classify(Truncated(msg));
      spawned := spawned + [result];
      busy := result;
      if result.Some? {
        processed := processed + {result.value};
      }
    }

    /** The acting half of the listening loop. */
    method Act()
      requires busy.Some?
      modifies this
      ensures View() == Acted(nonStop, old(View()))
      ensures isSwitchedOff <==> old(busy) == Some(AcqOff)
      ensures listening <==> old(listening) && (nonStop || old(busy) != Some(AcqOff))
      ensures starts == old(starts) + (if old(busy) == Some(AcqOn) then 1 else 0) && busy.None?
      ensures spawned == old(spawned)
    {
      match busy.value {
        case AcqOn =>
          isSwitchedOff := false;
          starts := starts + 1;
        case AcqOff =>
          isSwitchedOff := true;
          if !nonStop {
            listening := false;
          }
      }
      applied := applied + {busy.value};
      busy := None;
    }

    /** The spawned answer number `j` is sent. */
    method SendResponse(j: nat) returns (msg: Bytes)
      requires j < |spawned|
      modifies this
      ensures msg == Answer(old(spawned)[j])
      ensures View() == old(View()).(spawned := Remove(old(spawned), j))
    {
      msg := Answer(spawned[j]);
      spawned := Remove(spawned, j);
    }
  }

  const IDLE := Emulator(true, true, None, [], 0, {}, {})

  // ----- the whole system

  datatype System = System(
    pending: Connections,
    registered: set<(Endpoint, Kind)>,
    requests: set<(Endpoint, Bytes)>,      // sent to an endpoint at some time
    responses: set<(Endpoint, Bytes)>,     // sent by an endpoint at some time
    emulators: map<Endpoint, Emulator>)

  datatype Event =
    | RegisterCommand(e: Endpoint, kind: Kind, id: nat)
    | SendRequest(e: Endpoint, kind: Kind)
    | DeliverRequest(e: Endpoint, msg: Bytes)
    | Act(e: Endpoint)
    | SendAnswer(e: Endpoint, j: nat)
    | DeliverAnswer(e: Endpoint, msg: Bytes)

  predicate Enabled(s: System, ev: Event) {
    match ev
    case RegisterCommand(_, _, _) => true
    case SendRequest(e, kind) => (e, kind) in s.registered
    case DeliverRequest(e, msg) =>
      (e, msg) in s.requests && e in s.emulators && s.emulators[e].listening && s.emulators[e].busy.None?
    case Act(e) => e in s.emulators && s.emulators[e].busy.Some?
    case SendAnswer(e, j) => e in s.emulators && j < |s.emulators[e].spawned|
    case DeliverAnswer(e, msg) => (e, msg) in s.responses
  }

  function Step(nonStop: bool, s: System, ev: Event): System
    requires Enabled(s, ev)
  {
    match ev
    case RegisterCommand(e, kind, id) =>
      s.(pending := FecSocket.Next(s.pending, Register(e, Command(id, Response(kind)))),
         registered := s.registered + {(e, kind)})
    case SendRequest(e, kind) => s.(requests := s.requests + {(e, Request(kind))})
    case DeliverRequest(e, msg) => s.(emulators := s.emulators[e := Heard(s.emulators[e], msg)])
    case Act(e) => s.(emulators := s.emulators[e := Acted(nonStop, s.emulators[e])])
    case SendAnswer(e, j) =>
      var x := s.emulators[e];
      s.(responses := s.responses + {(e, Answer(x.spawned[j]))},
         emulators := s.emulators[e := x.(spawned := Remove(x.spawned, j))])
    case DeliverAnswer(e, msg) => s.(pending := FecSocket.Next(s.pending, Receive(e, Truncated(msg))))
  }

  predicate Legal(nonStop: bool, s: System, es: seq<Event>)
    decreases |es|
  {
    es == [] || (Enabled(s, es[0]) && Legal(nonStop, Step(nonStop, s, es[0]), es[1..]))
  }

  /** The system after the events. */
  function After(nonStop: bool, s: System, es: seq<Event>): System
    requires Legal(nonStop, s, es)
    decreases |es|
  {
    if es == [] then s else After(nonStop, Step(nonStop, s, es[0]), es[1..])
  }

  /** No stale answers; stale requests, and emulators that were switched before, are allowed. */
  predicate Start(s: System) {
    && s.pending == map[] && s.registered == {} && s.responses == {}
    && forall e :: e in s.emulators ==>
         s.emulators[e] == IDLE.(listening := s.emulators[e].listening, switchedOff := s.emulators[e].switchedOff)
  }
}
