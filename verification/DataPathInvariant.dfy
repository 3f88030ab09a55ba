/** What every reachable state of the data path satisfies, and what follows from it. */
module DataPathInvariant {
  import opened Common
  import opened Seqs
  import opened LargeBuffers
  import opened DataPath

  // ----- slots: what each place may hold

  /** Holds a live block of at least the configured size. */
  predicate BufOk(cfg: Config, m: Memory, b: LargeBuffer) {
    && b.data.Some?
    && b.data.value in m.heap
    && |m.heap[b.data.value]| >= cfg.bufferSize
    && b.size <= |m.heap[b.data.value]|
  }

  predicate SocketOk(cfg: Config, m: Memory, x: Socket) {
    match x.pc
    case Handed => x.buf.data.None?
    case Arrived(n) => BufOk(cfg, m, x.buf) && x.buf.size == n
    case Refused(n) => BufOk(cfg, m, x.buf) && x.buf.size == n
    case _ => BufOk(cfg, m, x.buf)
  }

  predicate EntryOk(cfg: Config, m: Memory, e: Entry) {
    match e.producer
    case FromSocket(i) => i < cfg.nSockets && BufOk(cfg, m, e.buf)
    case FromStop => e == PILL
  }

  predicate LineOk(cfg: Config, m: Memory, x: Line) {
    match x.pc
    case Processing(wasPill) => !wasPill && BufOk(cfg, m, x.buf)
    case Waiting(refused) => if refused then BufOk(cfg, m, x.buf) else x.buf.data.None?
    case Taken(n, wasPill) =>
      x.buf.size == n && if wasPill then x.buf == PILL.buf else BufOk(cfg, m, x.buf)
    case Stopped(wasPill) => wasPill && x.buf.data.None?
  }

  predicate SlotsOk(cfg: Config, s: State) {
    && (forall k :: 0 <= k < |s.valid| ==> EntryOk(cfg, s.mem, s.valid[k]))
    && (forall k :: 0 <= k < |s.trash| ==> BufOk(cfg, s.mem, s.trash[k]))
    && (forall k :: 0 <= k < |s.sockets| ==> SocketOk(cfg, s.mem, s.sockets[k]))
    && (forall k :: 0 <= k < |s.lines| ==> LineOk(cfg, s.mem, s.lines[k]))
  }

  predicate Shape(cfg: Config, s: State) {
    && |s.sockets| == cfg.nSockets
    && |s.stops| == cfg.nStops
    && |s.history.accepted| == |s.history.taken| == cfg.nSockets
    && |s.lines| == |s.history.current| == (if s.start.Running? then cfg.nLines else 0)
  }

  // ----- ownership: every live block has exactly one owner, and nobody holds a dead one

  function EntryHolds(r: Ref): Entry -> int {
    (e: Entry) => Holds(r, e.buf)
  }

  function SocketHolds(r: Ref): Socket -> int {
    (x: Socket) => Holds(r, x.buf)
  }

  function LineHolds(r: Ref): Line -> int {
    (x: Line) => Holds(r, x.buf)
  }

  function Owners(s: State, r: Ref): int {
    Sum(EntryHolds(r), s.valid) + Sum(Holder(r), s.trash) + Sum(SocketHolds(r), s.sockets) + Sum(LineHolds(r), s.lines)
  }

  ghost predicate Owned(s: State) {
    && (forall r: Ref :: Owners(s, r) == if r in s.mem.heap then 1 else 0)
    && (forall r :: r in s.mem.heap ==> r < s.mem.next)
  }

  // ----- history: nothing is lost, repeated, reordered or overwritten between socket and line

  /** The frames of socket `i` that wait in the valid queue, oldest first. */
  function Queued(m: Memory, valid: seq<Entry>, i: nat): seq<Bytes> {
    if valid == [] then []
    else
      var last := valid[|valid| - 1];
      Queued(m, valid[..|valid| - 1], i) + (if last.producer == FromSocket(i) then [Content(m, last.buf)] else [])
  }

  predicate FifoOk(cfg: Config, s: State)
    requires Shape(cfg, s)
  {
    forall i :: 0 <= i < cfg.nSockets ==>
      s.history.accepted[i] == s.history.taken[i] + Queued(s.mem, s.valid, i)
  }

  predicate Reads(x: Line) {
    x.pc.Taken? || x.pc.Processing?
  }

  predicate LinesSeeTheirFrames(cfg: Config, s: State)
    requires Shape(cfg, s)
  {
    forall l :: 0 <= l < |s.lines| ==>
      (Reads(s.lines[l]) && s.history.current[l].Some? ==>
         Content(s.mem, s.lines[l].buf) == s.history.current[l].value)
  }

  // ----- counters

  function EntryBytes(e: Entry): int {
    e.buf.size
  }

  function SocketBytes(x: Socket): int {
    match x.pc
    case Arrived(n) => n
    case Refused(n) => n
    case _ => 0
  }

  function LineBytes(x: Line): int {
    if x.pc.Taken? then x.pc.size else 0
  }

  function IsArrived(x: Socket): int {
    if x.pc.Arrived? then 1 else 0
  }

  function IsRefusedLine(x: Line): int {
    if x.pc == Waiting(true) then 1 else 0
  }

  function HoldsPill(x: Line): int {
    match x.pc
    case Taken(_, wasPill) => if wasPill then 1 else 0
    case Processing(wasPill) => if wasPill then 1 else 0
    case Stopped(wasPill) => if wasPill then 1 else 0
    case Waiting(_) => 0
  }

  /** Has won the exchange and will push the pills. */
  function IsEmptying(x: StopPc): int {
    if x.Won? || x.AbortReady? then 1 else 0
  }

  function HasEmptied(x: StopPc): int {
    if x == Returned(true) then 1 else 0
  }

  predicate BytesOk(s: State) {
    s.stats.bytesRead == s.stats.bytesDropped + Sum(EntryBytes, s.valid) + s.stats.bytesDone
                         + Sum(SocketBytes, s.sockets) + Sum(LineBytes, s.lines)
  }

  predicate FramesOk(s: State) {
    s.stats.frames == s.stats.fullValid + Sum(IsData, s.valid) + s.stats.framesTaken + Sum(IsArrived, s.sockets)
  }

  predicate LiveOk(cfg: Config, s: State) {
    |s.mem.heap| == cfg.prefilled + |s.sockets| + |s.lines| + s.stats.emptyTrash - s.stats.fullTrash
                    + Sum(IsRefusedLine, s.lines)
  }

  predicate CapacityOk(cfg: Config, s: State) {
    Sum(IsData, s.valid) <= cfg.capacity && |s.trash| <= cfg.capacity
  }

  predicate StopOk(cfg: Config, s: State) {
    && s.pills == Sum(IsPill, s.valid) + Sum(HoldsPill, s.lines)
    && s.pills == (if Sum(HasEmptied, s.stops) > 0 then cfg.nLines else 0)
    && Sum(IsEmptying, s.stops) + Sum(HasEmptied, s.stops) == (if s.start.Running? && s.isStopped then 1 else 0)
    && (s.start.NotStarted? ==> s.isStopped)
    && (s.start.Accepting? ==> !s.isStopped)
    && (!s.start.Running? ==> forall k :: 0 <= k < |s.stops| ==> s.stops[k].Calling?)
  }

  predicate WellFormed(cfg: Config) {
    cfg.bufferSize > 0 && cfg.prefilled <= cfg.capacity
  }

  ghost predicate Inv(cfg: Config, s: State) {
    && WellFormed(cfg)
    && Shape(cfg, s)
    && SlotsOk(cfg, s)
    && Owned(s)
    && FifoOk(cfg, s)
    && LinesSeeTheirFrames(cfg, s)
    && BytesOk(s)
    && FramesOk(s)
    && LiveOk(cfg, s)
    && CapacityOk(cfg, s)
    && StopOk(cfg, s)
  }

  // ----- consequences of ownership

  /** Where a block can be. */
  datatype Place = InValid(k: nat) | InTrash(k: nat) | AtSocket(k: nat) | AtLine(k: nat)

  predicate HoldsAt(s: State, p: Place, r: Ref) {
    match p
    case InValid(k) => k < |s.valid| && s.valid[k].buf.data == Some(r)
    case InTrash(k) => k < |s.trash| && s.trash[k].data == Some(r)
    case AtSocket(k) => k < |s.sockets| && s.sockets[k].buf.data == Some(r)
    case AtLine(k) => k < |s.lines| && s.lines[k].buf.data == Some(r)
  }

  function IndexOr(p: Place, q: Place): nat {
    if (p.InValid? && q.InValid?) || (p.InTrash? && q.InTrash?) || (p.AtSocket? && q.AtSocket?)
       || (p.AtLine? && q.AtLine?) then q.k else p.k
  }

  /** A block is in one place only, and that place holds a live block. */
  lemma OneOwner(s: State, p: Place, q: Place, r: Ref)
    requires Owned(s) && HoldsAt(s, p, r) && HoldsAt(s, q, r)
    ensures p == q && r in s.mem.heap
  {
    Covers(s, r, p, q);
    assert Owners(s, r) <= 1;
  }

  lemma Covers(s: State, r: Ref, p: Place, q: Place)
    requires HoldsAt(s, p, r) && HoldsAt(s, q, r)
    ensures Owners(s, r) >= if p == q then 1 else 2
  {
    SumNonNegative(EntryHolds(r), s.valid);
    SumNonNegative(Holder(r), s.trash);
    SumNonNegative(SocketHolds(r), s.sockets);
    SumNonNegative(LineHolds(r), s.lines);
    CoversOne(s, r, p, IndexOr(p, q));
    CoversOne(s, r, q, IndexOr(q, p));
  }

  /** The part of the owners that the kind of place contributes. */
  function PartOf(s: State, p: Place, r: Ref): int {
    match p
    case InValid(_) => Sum(EntryHolds(r), s.valid)
    case InTrash(_) => Sum(Holder(r), s.trash)
    case AtSocket(_) => Sum(SocketHolds(r), s.sockets)
    case AtLine(_) => Sum(LineHolds(r), s.lines)
  }

  lemma CoversOne(s: State, r: Ref, p: Place, other: nat)
    requires HoldsAt(s, p, r) && HoldsAt(s, p.(k := other), r)
    ensures PartOf(s, p, r) >= if p.k == other then 1 else 2
  {
    match p
    case InValid(k) => SumCovers(EntryHolds(r), s.valid, k, other);
    case InTrash(k) => SumCovers(Holder(r), s.trash, k, other);
    case AtSocket(k) => SumCovers(SocketHolds(r), s.sockets, k, other);
    case AtLine(k) => SumCovers(LineHolds(r), s.lines, k, other);
  }
}
