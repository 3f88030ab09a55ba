/** The data path as a machine of atomic steps: sockets, buffer queue, pipeline lines and shutdown. */
module DataPath {
  import opened Common
  import opened Seqs
  import opened LargeBuffers

  // Every method that other threads can interleave with is split where they can: handing a buffer over
  // is a push and a separate refill, taking one is a recycle and a separate wait. The lock-free queues
  // are bounded and keep the order of each producer only; a try operation may fail at any time.

  /** `prefilled` buffers fit into the trash queue at construction; `nStops` threads may call `stop_workflow`. */
  datatype Config = Config(
    bufferSize: nat, prefilled: nat, capacity: nat, nSockets: nat, nLines: nat, nStops: nat)

  datatype SocketPc =
    | Listening
    | Arrived(size: nat)   // counted, about to be pushed into the valid queue
    | Handed               // pushed, about to be refilled from the trash queue
    | Refilled
    | Refused(size: nat)   // the valid queue was full

  datatype Socket = Socket(buf: LargeBuffer, pc: SocketPc)

  datatype LinePc =
    | Processing(wasPill: bool)           // reads its buffer
    | Waiting(refused: bool)              // recycled or, if the trash queue was full, still holding
    | Taken(size: nat, wasPill: bool)     // took a buffer, has not looked at it yet
    | Stopped(wasPill: bool)

  datatype Line = Line(buf: LargeBuffer, pc: LinePc)

  datatype Producer = FromSocket(i: nat) | FromStop

  datatype Entry = Entry(producer: Producer, buf: LargeBuffer)

  datatype StartPc = NotStarted | Accepting | Running

  datatype StopPc = Calling | Awake | Won | AbortReady | Returned(emptied: bool)

  datatype Stats = Stats(
    emptyTrash: nat, fullTrash: nat, fullValid: nat,
    bytesRead: nat, frames: nat, bytesDropped: nat,   // AnalysisHandle
    bytesDone: nat, framesTaken: nat)                 // TaskDiagram; frames taken is a history count

  /** What happened so far, for specification only: frames accepted into and taken out of the valid
      queue for each socket, and the frame each line works on. */
  datatype History = History(accepted: seq<seq<Bytes>>, taken: seq<seq<Bytes>>, current: seq<Option<Bytes>>)

  datatype State = State(
    mem: Memory,
    valid: seq<Entry>,
    trash: seq<LargeBuffer>,
    sockets: seq<Socket>,
    lines: seq<Line>,
    stats: Stats,
    start: StartPc,
    isStopped: bool,
    stops: seq<StopPc>,
    pills: nat,            // pushed so far
    history: History)

  datatype Event =
    | Receive(i: nat, bytes: Bytes)
    | PushValid(i: nat, ok: bool)
    | PullTrash(i: nat, from: Option<nat>)
    | FinishRead(i: nat)
    | PushTrash(l: nat, ok: bool)
    | TakeValid(l: nat, j: nat)
    | Classify(l: nat)
    | Accept
    | Launch
    | Wake(k: nat)
    | Exchange(k: nat)
    | SeeAbortReady(k: nat)
    | EnqueueEmpty(k: nat)

  function IsData(e: Entry): int {
    if e.producer.FromSocket? then 1 else 0
  }

  function IsPill(e: Entry): int {
    if e.producer.FromStop? then 1 else 0
  }

  /** The front entry of its producer: the ones a consumer may get next. */
  predicate FrontOfProducer(valid: seq<Entry>, j: nat) {
    j < |valid| && forall k :: 0 <= k < j ==> valid[k].producer != valid[j].producer
  }

  function Logged(log: seq<seq<Bytes>>, i: nat, frame: Bytes): (r: seq<seq<Bytes>>)
    ensures |r| == |log|
  {
    if i < |log| then log[i := log[i] + [frame]] else log
  }

  function Replaced<T>(s: seq<T>, i: nat, x: T): (r: seq<T>)
    ensures |r| == |s|
  {
    if i < |s| then s[i := x] else s
  }

  function ToSocket(b: LargeBuffer): Socket {
    Socket(b, Listening)
  }

  function ToLine(b: LargeBuffer): Line {
    Line(b, Processing(false))
  }

  const PILL := Entry(FromStop, LargeBuffer(0, None))

  function Pills(n: nat): (r: seq<Entry>)
    ensures |r| == n
  {
    seq(n, i => PILL)
  }

  function Initial(cfg: Config): State {
    var (m1, trash) := NewBuffers(Memory(map[], 0), cfg.prefilled, cfg.bufferSize);
    var (m2, bufs) := NewBuffers(m1, cfg.nSockets, cfg.bufferSize);
    State(m2, [], trash, Map(ToSocket, bufs), [], Stats(0, 0, 0, 0, 0, 0, 0, 0), NotStarted, true,
          seq(cfg.nStops, k => Calling), 0,
          History(seq(cfg.nSockets, i => []), seq(cfg.nSockets, i => []), []))
  }

  predicate Enabled(cfg: Config, s: State, e: Event) {
    match e
    case Receive(i, bytes) =>
      i < |s.sockets| && s.sockets[i].pc.Listening? && |bytes| <= DataSize(s.mem, s.sockets[i].buf)
    case PushValid(i, ok) =>
      i < |s.sockets| && s.sockets[i].pc.Arrived? && (ok ==> Sum(IsData, s.valid) < cfg.capacity)
    case PullTrash(i, from) =>
      i < |s.sockets| && s.sockets[i].pc.Handed? && (from.Some? ==> from.value < |s.trash|)
    case FinishRead(i) =>
      i < |s.sockets| && (s.sockets[i].pc.Refilled? || s.sockets[i].pc.Refused?)
    case PushTrash(l, ok) =>
      l < |s.lines| && s.lines[l].pc.Processing? && (ok ==> |s.trash| < cfg.capacity)
    case TakeValid(l, j) =>
      l < |s.lines| && s.lines[l].pc.Waiting? && FrontOfProducer(s.valid, j)
    case Classify(l) => l < |s.lines| && s.lines[l].pc.Taken?
    case Accept => s.start.NotStarted?
    case Launch => s.start.Accepting?
    case Wake(k) => k < |s.stops| && s.stops[k].Calling? && s.start.Running?
    case Exchange(k) => k < |s.stops| && s.stops[k].Awake?
    case SeeAbortReady(k) => k < |s.stops| && s.stops[k].Won?
    case EnqueueEmpty(k) => k < |s.stops| && s.stops[k].AbortReady?
  }

  // ----- the steps of a socket (DataSocket::response_handler, AnalysisHandle::read_data_once, BufferQueue::enqueue)

  /** A datagram lies in the buffer; `resize(read_size)`, then the totals are counted. */
  function Received(s: State, i: nat, bytes: Bytes): State
    requires i < |s.sockets| && |bytes| <= DataSize(s.mem, s.sockets[i].buf)
  {
    var (m, b) := Resize(WriteData(s.mem, s.sockets[i].buf, bytes), s.sockets[i].buf, |bytes|);
    s.(mem := m,
       sockets := s.sockets[i := Socket(b, Arrived(b.size))],
       stats := s.stats.(bytesRead := s.stats.bytesRead + b.size, frames := s.stats.frames + 1))
  }

  /** The push into the valid queue moves the storage out of the socket; a failed push leaves it. */
  function PushedValid(s: State, i: nat, ok: bool): State
    requires i < |s.sockets| && s.sockets[i].pc.Arrived?
  {
    var b := s.sockets[i].buf;
    if ok then
      s.(valid := s.valid + [Entry(FromSocket(i), b)],
         sockets := s.sockets[i := Socket(MovedFrom(b), Handed)],
         history := s.history.(accepted := Logged(s.history.accepted, i, Content(s.mem, b))))
    else
      s.(sockets := s.sockets[i := Socket(b, Refused(s.sockets[i].pc.size))],
         stats := s.stats.(fullValid := s.stats.fullValid + 1))
  }

  /** A recycled buffer replaces the moved-from one, or the moved-from one grows new storage. */
  function PulledTrash(cfg: Config, s: State, i: nat, from: Option<nat>): State
    requires i < |s.sockets| && (from.Some? ==> from.value < |s.trash|)
  {
    match from
    case Some(j) =>
      s.(sockets := s.sockets[i := Socket(s.trash[j], Refilled)], trash := Remove(s.trash, j))
    case None =>
      var (m, b) := Resize(s.mem, s.sockets[i].buf, cfg.bufferSize);
      s.(mem := m, sockets := s.sockets[i := Socket(b, Refilled)],
         stats := s.stats.(emptyTrash := s.stats.emptyTrash + 1))
  }

  /** A refused frame is counted as dropped; the buffer is set to its full size for the next datagram. */
  function FinishedRead(cfg: Config, s: State, i: nat): State
    requires i < |s.sockets|
  {
    var (m, b) := Resize(s.mem, s.sockets[i].buf, cfg.bufferSize);
    var dropped := if s.sockets[i].pc.Refused? then s.sockets[i].pc.size else 0;
    s.(mem := m, sockets := s.sockets[i := Socket(b, Listening)],
       stats := s.stats.(bytesDropped := s.stats.bytesDropped + dropped))
  }

  // ----- the steps of a line (BufferQueue::dequeue, TaskDiagram::run_task)

  function PushedTrash(s: State, l: nat, ok: bool): State
    requires l < |s.lines|
  {
    var b := s.lines[l].buf;
    if ok then
      s.(trash := s.trash + [b], lines := s.lines[l := Line(MovedFrom(b), Waiting(false))])
    else
      s.(lines := s.lines[l := Line(b, Waiting(true))],
         stats := s.stats.(fullTrash := s.stats.fullTrash + 1))
  }

  /** The move assignment from the queue destroys whatever storage the line still held. */
  function TookValid(s: State, l: nat, j: nat): State
    requires l < |s.lines| && j < |s.valid|
  {
    var e := s.valid[j];
    var taken := s.(
      mem := Release(s.mem, s.lines[l].buf),
      valid := Remove(s.valid, j),
      lines := s.lines[l := Line(e.buf, Taken(e.buf.size, e.producer.FromStop?))]);
    match e.producer
    case FromStop => taken.(history := s.history.(current := Replaced(s.history.current, l, None)))
    case FromSocket(i) =>
      var frame := Content(s.mem, e.buf);
      taken.(stats := s.stats.(framesTaken := s.stats.framesTaken + 1),
             history := s.history.(taken := Logged(s.history.taken, i, frame),
                                   current := Replaced(s.history.current, l, Some(frame))))
  }

  /** `is_empty` decides: a pill stops the line, anything else is counted and processed. */
  function Classified(s: State, l: nat): State
    requires l < |s.lines| && s.lines[l].pc.Taken?
  {
    var b, wasPill := s.lines[l].buf, s.lines[l].pc.wasPill;
    if IsEmpty(b) then s.(lines := s.lines[l := Line(b, Stopped(wasPill))])
    else
      s.(lines := s.lines[l := Line(b, Processing(wasPill))],
         stats := s.stats.(bytesDone := s.stats.bytesDone + b.size))
  }

  // ----- start and stop (AnalysisHandle::start, AnalysisHandle::stop_workflow)

  /** The task diagram and with it the line buffers come into being. */
  function Launched(cfg: Config, s: State): State {
    var (m, bufs) := NewBuffers(s.mem, cfg.nLines, cfg.bufferSize);
    s.(mem := m, lines := Map(ToLine, bufs), start := Running,
       history := s.history.(current := seq(cfg.nLines, l => None)))
  }

  function Next(cfg: Config, s: State, e: Event): State
    requires Enabled(cfg, s, e)
  {
    match e
    case Receive(i, bytes) => Received(s, i, bytes)
    case PushValid(i, ok) => PushedValid(s, i, ok)
    case PullTrash(i, from) => PulledTrash(cfg, s, i, from)
    case FinishRead(i) => FinishedRead(cfg, s, i)
    case PushTrash(l, ok) => PushedTrash(s, l, ok)
    case TakeValid(l, j) => TookValid(s, l, j)
    case Classify(l) => Classified(s, l)
    case Accept => s.(isStopped := false, start := Accepting)
    case Launch => Launched(cfg, s)
    case Wake(k) => s.(stops := s.stops[k := Awake])
    case Exchange(k) =>
      if s.isStopped then s.(stops := s.stops[k := Returned(false)])
      else s.(isStopped := true, stops := s.stops[k := Won])
    case SeeAbortReady(k) => s.(stops := s.stops[k := AbortReady])
    case EnqueueEmpty(k) =>
      s.(valid := s.valid + Pills(cfg.nLines), pills := s.pills + cfg.nLines,
         stops := s.stops[k := Returned(true)])
  }

  predicate Legal(cfg: Config, s: State, es: seq<Event>)
    decreases |es|
  {
    es == [] || (Enabled(cfg, s, es[0]) && Legal(cfg, Next(cfg, s, es[0]), es[1..]))
  }

  function Run(cfg: Config, s: State, es: seq<Event>): State
    requires Legal(cfg, s, es)
    decreases |es|
  {
    if es == [] then s else Run(cfg, Next(cfg, s, es[0]), es[1..])
  }
}
