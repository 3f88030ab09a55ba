/** The data path as the program runs it: fields that the sockets, lines and stopping threads update. */
module DataPathClass {
  import opened Common
  import opened Seqs
  import opened LargeBuffers
  import opened DataPath
  import opened DataPathInvariant
  import opened DataPathTheorems
  import opened DataPathThreads

  // Each method up to `EnqueueEmpty` is one atomic step; `ResponseHandler`, `RunTask` and `StopWorkflow`
  // are the program's own functions, with any steps of the other threads between theirs.

  /** What happens between the steps of one thread: the others' steps, also while it waits, whether the
      next try operation may succeed, and which entry it would get. */
  datatype Turns = Turns(
    beforePush: seq<Event>, beforePull: seq<Event>, beforeFinish: seq<Event>, waits: seq<seq<Event>>,
    mayPush: bool, pull: nat)

  class Workflow {
    const cfg: Config
    var mem: Memory
    var valid: seq<Entry>
    var trash: seq<LargeBuffer>
    var sockets: seq<Socket>
    var lines: seq<Line>
    var stats: Stats
    var start: StartPc
    var isStopped: bool
    var stops: seq<StopPc>
    ghost var pills: nat
    ghost var history: History

    ghost function View(): State
      reads this
    {
      State(mem, valid, trash, sockets, lines, stats, start, isStopped, stops, pills, history)
    }

    /** The same without the specification-only parts, for testing guards. */
    function Visible(): State
      reads this
    {
      State(mem, valid, trash, sockets, lines, stats, start, isStopped, stops, 0, History([], [], []))
    }

    lemma SameGuards(e: Event)
      ensures Enabled(cfg, Visible(), e) <==> Enabled(cfg, View(), e)
    {
    }

    constructor (cfg: Config)
      ensures this.cfg == cfg && View() == Initial(cfg)
    {
      var m0 := Memory(map[], 0);
      var (m1, prefill) := NewBuffers(m0, cfg.prefilled, cfg.bufferSize);
      var (m2, bufs) := NewBuffers(m1, cfg.nSockets, cfg.bufferSize);
      this.cfg := cfg;
      mem, valid, trash, sockets, lines := m2, [], prefill, Map(ToSocket, bufs), [];
      stats, start, isStopped := Stats(0, 0, 0, 0, 0, 0, 0, 0), NotStarted, true;
      stops := seq(cfg.nStops, k => Calling);
      pills := 0;
      history := History(seq(cfg.nSockets, i => []), seq(cfg.nSockets, i => []), []);
    }

    // ----- the socket's steps

    method Receive(i: nat, bytes: Bytes)
      requires Enabled(cfg, View(), Event.Receive(i, bytes))
      modifies this
      ensures View() == Next(cfg, old(View()), Event.Receive(i, bytes))
    {
      var buf := sockets[i].buf;
      mem := WriteData(mem, buf, bytes);
      var (m, b) := Resize(mem, buf, |bytes|);
      mem := m;
      stats := stats.(bytesRead := stats.bytesRead + b.size, frames := stats.frames + 1);
      sockets := sockets[i := Socket(b, Arrived(b.size))];
    }

    method PushValid(i: nat, ok: bool)
      requires Enabled(cfg, View(), Event.PushValid(i, ok))
      modifies this
      ensures View() == Next(cfg, old(View()), Event.PushValid(i, ok))
    {
      var b, size := sockets[i].buf, sockets[i].pc.size;
      if !ok {
        stats := stats.(fullValid := stats.fullValid + 1);
        sockets := sockets[i := Socket(b, Refused(size))];
        return;
      }
      history := history.(accepted := Logged(history.accepted, i, Content(mem, b)));
      valid := valid + [Entry(FromSocket(i), b)];
      sockets := sockets[i := Socket(MovedFrom(b), Handed)];
    }

    method PullTrash(i: nat, from: Option<nat>)
      requires Enabled(cfg, View(), Event.PullTrash(i, from))
      modifies this
      ensures View() == Next(cfg, old(View()), Event.PullTrash(i, from))
    {
      if from.Some? {
        sockets := sockets[i := Socket(trash[from.value], Refilled)];
        trash := Remove(trash, from.value);
      } else {
        stats := stats.(emptyTrash := stats.emptyTrash + 1);
        var (m, b) := Resize(mem, sockets[i].buf, cfg.bufferSize);
        mem := m;
        sockets := sockets[i := Socket(b, Refilled)];
      }
    }

    method FinishRead(i: nat)
      requires Enabled(cfg, View(), Event.FinishRead(i))
      modifies this
      ensures View() == Next(cfg, old(View()), Event.FinishRead(i))
    {
      if sockets[i].pc.Refused? {
        stats := stats.(bytesDropped := stats.bytesDropped + sockets[i].pc.size);
      }
      var (m, b) := Resize(mem, sockets[i].buf, cfg.bufferSize);
      mem := m;
      sockets := sockets[i := Socket(b, Listening)];
    }

    // ----- the line's steps

    method PushTrash(l: nat, ok: bool)
      requires Enabled(cfg, View(), Event.PushTrash(l, ok))
      modifies this
      ensures View() == Next(cfg, old(View()), Event.PushTrash(l, ok))
    {
      var b := lines[l].buf;
      if ok {
        trash := trash + [b];
        lines := lines[l := Line(MovedFrom(b), Waiting(false))];
      } else {
        stats := stats.(fullTrash := stats.fullTrash + 1);
        lines := lines[l := Line(b, Waiting(true))];
      }
    }

    method TakeValid(l: nat, j: nat)
      requires Enabled(cfg, View(), Event.TakeValid(l, j))
      modifies this
      ensures View() == Next(cfg, old(View()), Event.TakeValid(l, j))
    {
      var e := valid[j];
      CountTaken(l, e);
      mem := Release(mem, lines[l].buf);
      valid := Remove(valid, j);
      lines := lines[l := Line(e.buf, Taken(e.buf.size, e.producer.FromStop?))];
    }

    /** A frame that a line takes is counted. */
    method CountTaken(ghost l: nat, e: Entry)
      modifies this`stats, this`history
      ensures stats == old(stats).(framesTaken := old(stats).framesTaken + if e.producer.FromSocket? then 1 else 0)
      ensures history.accepted == old(history).accepted
      ensures history.taken == (if e.producer.FromStop? then old(history).taken
                                else Logged(old(history).taken, e.producer.i, Content(mem, e.buf)))
      ensures history.current == Replaced(old(history).current, l,
                                          if e.producer.FromStop? then None else Some(Content(mem, e.buf)))
    {
      match e.producer {
        case FromStop =>
          history := history.(current := Replaced(history.current, l, None));
        case FromSocket(i) =>
          ghost var frame := Content(mem, e.buf);
          history := history.(taken := Logged(history.taken, i, frame),
                              current := Replaced(history.current, l, Some(frame)));
          stats := stats.(framesTaken := stats.framesTaken + 1);
      }
    }

    method Classify(l: nat) returns (more: bool)
      requires Enabled(cfg, View(), Event.Classify(l))
      modifies this
      ensures View() == Next(cfg, old(View()), Event.Classify(l))
      ensures more <==> lines[l].pc.Processing?
      ensures !more <==> lines[l].pc.Stopped?
    {
      var b, wasPill := lines[l].buf, lines[l].pc.wasPill;
      if !IsEmpty(b) {
        stats := stats.(bytesDone := stats.bytesDone + b.size);
        lines := lines[l := Line(b, Processing(wasPill))];
        return true;
      }
      lines := lines[l := Line(b, Stopped(wasPill))];
      return false;
    }

    // ----- start and stop

    method Accept()
      requires Enabled(cfg, View(), Event.Accept)
      modifies this
      ensures View() == Next(cfg, old(View()), Event.Accept)
    {
      isStopped := false;
      start := Accepting;
    }

    method Launch()
      requires Enabled(cfg, View(), Event.Launch)
      modifies this
      ensures View() == Next(cfg, old(View()), Event.Launch)
    {
      var (m, bufs) := NewBuffers(mem, cfg.nLines, cfg.bufferSize);
      mem, lines, start := m, Map(ToLine, bufs), Running;
      history := history.(current := seq(cfg.nLines, l => None));
    }

    method Wake(k: nat)
      requires Enabled(cfg, View(), Event.Wake(k))
      modifies this
      ensures View() == Next(cfg, old(View()), Event.Wake(k))
    {
      stops := stops[k := Awake];
    }

    method Exchange(k: nat) returns (won: bool)
      requires Enabled(cfg, View(), Event.Exchange(k))
      modifies this
      ensures View() == Next(cfg, old(View()), Event.Exchange(k))
      ensures won <==> stops[k].Won?
      ensures !won ==> stops[k] == Returned(false)
    {
      if isStopped {
        stops := stops[k := Returned(false)];
        return false;
      }
      isStopped := true;
      stops := stops[k := Won];
      return true;
    }

    method SeeAbortReady(k: nat)
      requires Enabled(cfg, View(), Event.SeeAbortReady(k))
      modifies this
      ensures View() == Next(cfg, old(View()), Event.SeeAbortReady(k))
    {
      stops := stops[k := AbortReady];
    }

    method EnqueueEmpty(k: nat)
      requires Enabled(cfg, View(), Event.EnqueueEmpty(k))
      modifies this
      ensures View() == Next(cfg, old(View()), Event.EnqueueEmpty(k))
    {
      valid := valid + Pills(cfg.nLines);
      pills := pills + cfg.nLines;
      stops := stops[k := Returned(true)];
    }

    method Step(e: Event)
      requires Enabled(cfg, View(), e)
      modifies this
      ensures View() == Next(cfg, old(View()), e)
    {
      match e {
        case Receive(i, bytes) => Receive(i, bytes);
        case PushValid(i, ok) => PushValid(i, ok);
        case PullTrash(i, from) => PullTrash(i, from);
        case FinishRead(i) => FinishRead(i);
        case PushTrash(l, ok) => PushTrash(l, ok);
        case TakeValid(l, j) => TakeValid(l, j);
        case Classify(l) => var _ := Classify(l);
        case Accept => Accept();
        case Launch => Launch();
        case Wake(k) => Wake(k);
        case Exchange(k) => var _ := Exchange(k);
        case SeeAbortReady(k) => SeeAbortReady(k);
        case EnqueueEmpty(k) => EnqueueEmpty(k);
      }
    }

    // ----- the program's functions

    /** What has happened since `start` is the run `trace`. */
    ghost predicate Since(start: State, trace: seq<Event>)
      reads this
    {
      Legal(cfg, start, trace) && View() == Run(cfg, start, trace)
    }

    /** The other threads take their steps; a listed step that is not possible at its time is skipped. */
    method Interfere(t: Thread, others: seq<Event>, ghost start: State, ghost trace: seq<Event>)
      returns (ghost trace': seq<Event>)
      requires Inv(cfg, start) && Since(start, trace) && Present(t, View())
      modifies this
      ensures Since(start, trace') && Present(t, View()) && SameFor(t, old(View()), View())
    {
      trace' := trace;
      for n := 0 to |others|
        invariant Since(start, trace') && Present(t, View()) && SameFor(t, old(View()), View())
      {
        var e := others[n];
        SameGuards(e);
        if !IsOf(t, e) && Enabled(cfg, Visible(), e) {
          trace' := Advance(e, t, start, trace');
        }
      }
    }

    /** One step of another thread. */
    method Advance(e: Event, ghost t: Thread, ghost start: State, ghost trace: seq<Event>)
      returns (ghost trace': seq<Event>)
      requires Inv(cfg, start) && Since(start, trace)
      requires Enabled(cfg, View(), e) && Present(t, View()) && !IsOf(t, e)
      modifies this
      ensures Since(start, trace') && Present(t, View()) && SameFor(t, old(View()), View())
    {
      RunInv(cfg, start, trace);
      OthersSpare(cfg, View(), e, t);
      RunAppend(cfg, start, trace, e);
      Step(e);
      trace' := trace + [e];
    }

    /** One step of this thread is one more event of the run. */
    lemma Recorded(start: State, trace: seq<Event>, before: State, e: Event)
      requires Legal(cfg, start, trace) && before == Run(cfg, start, trace)
      requires Enabled(cfg, before, e) && View() == Next(cfg, before, e)
      ensures Since(start, trace + [e])
    {
      RunAppend(cfg, start, trace, e);
    }

    /** One step of this thread, and then some of the others. */
    method Turn(e: Event, t: Thread, others: seq<Event>, ghost start: State, ghost trace: seq<Event>)
      returns (ghost trace': seq<Event>)
      requires Inv(cfg, start) && Since(start, trace) && Enabled(cfg, View(), e)
      requires Present(t, View()) && Present(t, Next(cfg, View(), e))
      modifies this
      ensures Since(start, trace') && Present(t, View())
      ensures SameFor(t, Next(cfg, old(View()), e), View())
    {
      ghost var before := View();
      Step(e);
      Recorded(start, trace, before, e);
      trace' := Interfere(t, others, start, trace + [e]);
    }

    method SocketTurn(e: Event, i: nat, others: seq<Event>, ghost start: State, ghost trace: seq<Event>)
      returns (ghost trace': seq<Event>)
      requires Inv(cfg, start) && Since(start, trace) && Enabled(cfg, View(), e) && OfSocket(e, i)
      requires i < |history.accepted|
      modifies this
      ensures Since(start, trace') && i < |sockets| && i < |history.accepted|
      ensures var s := Next(cfg, old(View()), e);
              && |s.sockets| > i && |s.history.accepted| > i
              && sockets[i] == s.sockets[i] && history.accepted[i] == s.history.accepted[i]
              && Content(mem, s.sockets[i].buf) == Content(s.mem, s.sockets[i].buf)
    {
      OwnSocketStays(cfg, View(), e, i);
      trace' := Turn(e, SocketThread(i), others, start, trace);
    }

    method LineTurn(e: Event, l: nat, others: seq<Event>, ghost start: State, ghost trace: seq<Event>)
      returns (ghost trace': seq<Event>)
      requires Inv(cfg, start) && Since(start, trace) && Enabled(cfg, View(), e) && OfLine(e, l)
      requires l < |history.current|
      modifies this
      ensures Since(start, trace') && l < |lines| && l < |history.current|
      ensures var s := Next(cfg, old(View()), e); |s.lines| > l && lines[l] == s.lines[l]
    {
      OwnLineStays(cfg, View(), e, l);
      trace' := Turn(e, LineThread(l), others, start, trace);
    }

    method StopTurn(e: Event, k: nat, others: seq<Event>, ghost start: State, ghost trace: seq<Event>)
      returns (ghost trace': seq<Event>)
      requires Inv(cfg, start) && Since(start, trace) && Enabled(cfg, View(), e) && OfStop(e, k)
      modifies this
      ensures Since(start, trace') && k < |stops|
      ensures var s := Next(cfg, old(View()), e); |s.stops| > k && stops[k] == s.stops[k]
    {
      OwnStopStays(cfg, View(), e, k);
      trace' := Turn(e, StopThread(k), others, start, trace);
    }

    // ----- one step of a socket, then steps of others

    method ReceiveTurn(i: nat, bytes: Bytes, others: seq<Event>, ghost start: State, ghost trace: seq<Event>)
      returns (ghost trace': seq<Event>)
      requires Inv(cfg, start) && Since(start, trace)
      requires Enabled(cfg, View(), Event.Receive(i, bytes)) && i < |history.accepted|
      modifies this
      ensures Since(start, trace') && i < |sockets| && i < |history.accepted|
      ensures sockets[i].pc.Arrived? && Content(mem, sockets[i].buf) == bytes
      ensures history.accepted[i] == old(history.accepted[i])
    {
      ReceivedContent(cfg, View(), i, bytes);
      trace' := SocketTurn(Event.Receive(i, bytes), i, others, start, trace);
    }

    method PushValidTurn(i: nat, ok: bool, others: seq<Event>, ghost start: State, ghost trace: seq<Event>)
      returns (ghost trace': seq<Event>)
      requires Inv(cfg, start) && Since(start, trace) && i < |history.accepted|
      requires i < |sockets| && sockets[i].pc.Arrived? && (ok ==> Sum(IsData, valid) < cfg.capacity)
      modifies this
      ensures Since(start, trace') && i < |sockets| && i < |history.accepted|
      ensures if ok then sockets[i].pc.Handed? else sockets[i].pc.Refused?
      ensures history.accepted[i] == old(history.accepted[i]) + (if ok then [old(Content(mem, sockets[i].buf))] else [])
    {
      trace' := SocketTurn(Event.PushValid(i, ok), i, others, start, trace);
    }

    method PullTrashTurn(i: nat, from: Option<nat>, others: seq<Event>, ghost start: State, ghost trace: seq<Event>)
      returns (ghost trace': seq<Event>)
      requires Inv(cfg, start) && Since(start, trace) && i < |history.accepted|
      requires i < |sockets| && sockets[i].pc.Handed? && (from.Some? ==> from.value < |trash|)
      modifies this
      ensures Since(start, trace') && i < |sockets| && i < |history.accepted|
      ensures sockets[i].pc.Refilled? && history.accepted[i] == old(history.accepted[i])
    {
      trace' := SocketTurn(Event.PullTrash(i, from), i, others, start, trace);
    }

    method FinishReadTurn(i: nat, ghost start: State, ghost trace: seq<Event>)
      returns (ghost trace': seq<Event>)
      requires Inv(cfg, start) && Since(start, trace) && i < |history.accepted|
      requires i < |sockets| && (sockets[i].pc.Refilled? || sockets[i].pc.Refused?)
      modifies this
      ensures Since(start, trace') && i < |sockets| && i < |history.accepted|
      ensures sockets[i].pc.Listening? && history.accepted[i] == old(history.accepted[i])
    {
      trace' := SocketTurn(Event.FinishRead(i), i, [], start, trace);
    }

    /** `enqueue`: the buffer goes into the valid queue, and a recycled or a newly grown one replaces it. */
    method Enqueue(i: nat, turns: Turns, ghost start: State, ghost trace: seq<Event>)
      returns (ok: bool, ghost trace': seq<Event>)
      requires Inv(cfg, start) && Since(start, trace)
      requires i < |sockets| && sockets[i].pc.Arrived? && i < |history.accepted|
      modifies this
      ensures Since(start, trace') && i < |sockets| && i < |history.accepted|
      ensures if ok then sockets[i].pc.Refilled? else sockets[i].pc.Refused?
      ensures history.accepted[i] == old(history.accepted[i]) + (if ok then [old(Content(mem, sockets[i].buf))] else [])
    {
      ok := turns.mayPush && Sum(IsData, valid) < cfg.capacity;
      trace' := PushValidTurn(i, ok, turns.beforePull, start, trace);
      if ok {
        var from := if turns.pull < |trash| then Some(turns.pull) else None;
        trace' := PullTrashTurn(i, from, turns.beforeFinish, start, trace');
      }
    }

    /** `response_handler` and `read_data_once`: a datagram is handed over or dropped. If the valid queue
        takes it, what is accepted is exactly the bytes that arrived, whatever the others did meanwhile. */
    method ResponseHandler(i: nat, bytes: Bytes, turns: Turns) returns (accepted: bool, ghost trace: seq<Event>)
      requires Inv(cfg, View()) && Enabled(cfg, View(), Event.Receive(i, bytes)) && i < |history.accepted|
      modifies this
      ensures Since(old(View()), trace)
      ensures i < |sockets| && sockets[i].pc.Listening? && i < |history.accepted|
      ensures history.accepted[i] == old(history.accepted[i]) + (if accepted then [bytes] else [])
    {
      ghost var first := View();
      trace := ReceiveTurn(i, bytes, turns.beforePush, first, []);
      accepted, trace := Enqueue(i, turns, first, trace);
      trace := FinishReadTurn(i, first, trace);
    }

    // ----- one step of a line, then steps of others

    method PushTrashTurn(l: nat, ok: bool, others: seq<Event>, ghost start: State, ghost trace: seq<Event>)
      returns (ghost trace': seq<Event>)
      requires Inv(cfg, start) && Since(start, trace) && l < |history.current|
      requires l < |lines| && lines[l].pc.Processing? && (ok ==> |trash| < cfg.capacity)
      modifies this
      ensures Since(start, trace') && l < |lines| && l < |history.current| && lines[l].pc.Waiting?
    {
      trace' := LineTurn(Event.PushTrash(l, ok), l, others, start, trace);
    }

    method TakeValidTurn(l: nat, j: nat, others: seq<Event>, ghost start: State, ghost trace: seq<Event>)
      returns (ghost trace': seq<Event>)
      requires Inv(cfg, start) && Since(start, trace) && l < |history.current|
      requires l < |lines| && lines[l].pc.Waiting? && FrontOfProducer(valid, j)
      modifies this
      ensures Since(start, trace') && l < |lines| && l < |history.current| && lines[l].pc.Taken?
    {
      TakenPc(cfg, View(), l, j);
      trace' := LineTurn(Event.TakeValid(l, j), l, others, start, trace);
    }

    method ClassifyTurn(l: nat, ghost start: State, ghost trace: seq<Event>) returns (ghost trace': seq<Event>)
      requires Inv(cfg, start) && Since(start, trace) && l < |history.current|
      requires l < |lines| && lines[l].pc.Taken?
      modifies this
      ensures Since(start, trace') && l < |lines| && (lines[l].pc.Processing? || lines[l].pc.Stopped?)
    {
      ClassifiedPc(cfg, View(), l);
      trace' := LineTurn(Event.Classify(l), l, [], start, trace);
    }

    /** The blocking wait: the others go on for as long as `waits` says, or until there is an entry. */
    method AwaitEntry(l: nat, waits: seq<seq<Event>>, ghost start: State, ghost trace: seq<Event>)
      returns (ghost trace': seq<Event>)
      requires Inv(cfg, start) && Since(start, trace) && l < |history.current|
      requires l < |lines| && lines[l].pc.Waiting?
      modifies this
      ensures Since(start, trace') && l < |lines| && l < |history.current| && lines[l].pc.Waiting?
    {
      trace' := trace;
      var n := 0;
      while valid == [] && n < |waits|
        invariant Since(start, trace') && l < |lines| && l < |history.current| && lines[l].pc.Waiting?
        decreases |waits| - n
      {
        trace' := Interfere(LineThread(l), waits[n], start, trace');
        n := n + 1;
      }
    }

    /** `dequeue`: recycles the line's buffer and waits for the next entry. It is without one only while the
        queue is empty, and that never once the pills were pushed. */
    method Dequeue(l: nat, turns: Turns, ghost start: State, ghost trace: seq<Event>)
      returns (taken: bool, ghost trace': seq<Event>)
      requires Inv(cfg, start) && Since(start, trace)
      requires l < |lines| && lines[l].pc.Processing? && l < |history.current|
      modifies this
      ensures Since(start, trace') && l < |lines| && l < |history.current|
      ensures if taken then lines[l].pc.Taken? else lines[l].pc.Waiting?
      ensures !taken ==> valid == [] && !Emptied(View())
    {
      var recycled := turns.mayPush && |trash| < cfg.capacity;
      trace' := PushTrashTurn(l, recycled, turns.beforePull, start, trace);
      trace' := AwaitEntry(l, turns.waits, start, trace');
      taken := valid != [];
      if taken {
        var j := if FrontOfProducer(valid, turns.pull) then turns.pull else 0;
        trace' := TakeValidTurn(l, j, turns.beforeFinish, start, trace');
      } else {
        EmptyQueueBeforePills(cfg, start, trace', l);
      }
    }

    /** `run_task`: takes the next entry; a frame is processed, and a pill stops the line. `None` means that the
        wait still lasts. */
    method RunTask(l: nat, turns: Turns) returns (r: Option<bool>, ghost trace: seq<Event>)
      requires Inv(cfg, View()) && l < |lines| && lines[l].pc.Processing? && l < |history.current|
      modifies this
      ensures Since(old(View()), trace) && l < |lines|
      ensures r.None? <==> lines[l].pc.Waiting?
      ensures r.None? ==> valid == [] && !Emptied(View())
      ensures r == Some(true) <==> lines[l].pc == Processing(false)
      ensures r == Some(false) <==> lines[l].pc == Stopped(true)
    {
      ghost var first := View();
      var taken: bool;
      taken, trace := Dequeue(l, turns, first, []);
      if !taken {
        return None, trace;
      }
      trace := ClassifyTurn(l, first, trace);
      r := Some(lines[l].pc.Processing?);
      LineState(cfg, first, trace, l);
    }

    // ----- one step of a stopping thread, then steps of others

    method WakeTurn(k: nat, others: seq<Event>, ghost start: State, ghost trace: seq<Event>)
      returns (ghost trace': seq<Event>)
      requires Inv(cfg, start) && Since(start, trace)
      requires k < |stops| && stops[k].Calling? && this.start.Running?
      modifies this
      ensures Since(start, trace') && k < |stops| && stops[k].Awake?
    {
      trace' := StopTurn(Event.Wake(k), k, others, start, trace);
    }

    method ExchangeTurn(k: nat, others: seq<Event>, ghost start: State, ghost trace: seq<Event>)
      returns (won: bool, ghost trace': seq<Event>)
      requires Inv(cfg, start) && Since(start, trace) && k < |stops| && stops[k].Awake?
      modifies this
      ensures Since(start, trace') && k < |stops| && stops[k] == (if won then Won else Returned(false))
    {
      won := !isStopped;
      trace' := StopTurn(Event.Exchange(k), k, others, start, trace);
    }

    method SeeAbortReadyTurn(k: nat, others: seq<Event>, ghost start: State, ghost trace: seq<Event>)
      returns (ghost trace': seq<Event>)
      requires Inv(cfg, start) && Since(start, trace) && k < |stops| && stops[k].Won?
      modifies this
      ensures Since(start, trace') && k < |stops| && stops[k].AbortReady?
    {
      trace' := StopTurn(Event.SeeAbortReady(k), k, others, start, trace);
    }

    method EnqueueEmptyTurn(k: nat, ghost start: State, ghost trace: seq<Event>) returns (ghost trace': seq<Event>)
      requires Inv(cfg, start) && Since(start, trace) && k < |stops| && stops[k].AbortReady?
      modifies this
      ensures Since(start, trace') && k < |stops| && stops[k] == Returned(true)
    {
      trace' := StopTurn(Event.EnqueueEmpty(k), k, [], start, trace);
    }

    /** The wait for the start: the others go on for as long as `waits` says, or until the diagram is there. */
    method AwaitStart(k: nat, waits: seq<seq<Event>>, ghost start: State, ghost trace: seq<Event>)
      returns (ghost trace': seq<Event>)
      requires Inv(cfg, start) && Since(start, trace) && k < |stops| && stops[k].Calling?
      modifies this
      ensures Since(start, trace') && k < |stops| && stops[k].Calling?
    {
      trace' := trace;
      var n := 0;
      while !this.start.Running? && n < |waits|
        invariant Since(start, trace') && k < |stops| && stops[k].Calling?
        decreases |waits| - n
      {
        trace' := Interfere(StopThread(k), waits[n], start, trace');
        n := n + 1;
      }
    }

    /** `stop_workflow`, which may be called before the start and then waits for it; only the thread that wins
        the exchange pushes the pills. `None` means that the wait still lasts. */
    method StopWorkflow(k: nat, turns: Turns) returns (r: Option<bool>, ghost trace: seq<Event>)
      requires Inv(cfg, View()) && k < |stops| && stops[k].Calling?
      modifies this
      ensures Since(old(View()), trace) && k < |stops|
      ensures r.None? ==> stops[k].Calling? && !start.Running?
      ensures r.Some? ==> stops[k] == Returned(r.value)
    {
      ghost var first := View();
      trace := AwaitStart(k, turns.waits, first, []);
      if !start.Running? {
        return None, trace;
      }
      trace := WakeTurn(k, turns.beforePush, first, trace);
      var emptied: bool;
      emptied, trace := ExchangeTurn(k, turns.beforePull, first, trace);
      if emptied {
        trace := SeeAbortReadyTurn(k, turns.beforeFinish, first, trace);
        trace := EnqueueEmptyTurn(k, first, trace);
      }
      r := Some(emptied);
    }
  }
}
