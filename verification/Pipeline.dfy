/** The data path and the tasks of its lines in one run: from the socket that received a frame to the sinks. */
module Pipeline {
  import opened Common
  import opened LargeBuffers
  import opened DataPathInvariant
  import opened TaskGraph
  import opened Seqs
  import Path = DataPath
  import Tasks = TaskLines

  // The tasks of a line start when the line has looked at what it took, read the frame out of the line's
  // buffer, and have all run before the line recycles that buffer.

  /** `stopReturns`: whether the line goes on to its tasks after it told the pipeline to stop. */
  datatype Setup<!P> = Setup(cfg: Path.Config, f: Tasks.Foreign<P>, nodes: seq<Node>, stopReturns: bool)

  /** Line `l` took a frame of socket `i`. */
  datatype Taken = Taken(l: nat, i: nat, frame: Bytes)

  /** The last three say what happened so far, for specification only: the frames taken, the steps of the
      data path, and the steps of the tasks. */
  datatype State<P> = State(
    path: Path.State, lines: seq<Tasks.LineState<P>>,
    log: seq<Taken>, events: seq<Path.Event>, tasks: seq<Tasks.Event>)

  datatype Event = OfPath(e: Path.Event) | OfTask(l: nat, n: nat) | Joined(l: nat)

  predicate IsSetUp<P>(u: Setup<P>, lines: seq<Tasks.LineState<P>>) {
    WellFormed(u.cfg) && WellWired(u.nodes) && |lines| == u.cfg.nLines && Tasks.Shaped(u.nodes, lines)
  }

  function Start<P>(u: Setup<P>, lines: seq<Tasks.LineState<P>>): State<P> {
    State(Path.Initial(u.cfg), lines, [], [], [])
  }

  /** What the tasks of a line read as raw data. */
  function Frame(s: Path.State, l: nat): Bytes {
    if l < |s.lines| then Content(s.mem, s.lines[l].buf) else []
  }

  /** What a step is for the tasks. */
  function TaskStep<P>(u: Setup<P>, s: State<P>, e: Event): Option<Tasks.Event>
    requires e.OfPath? ==> Path.Enabled(u.cfg, s.path, e.e)
  {
    match e
    case OfTask(l, n) => Some(Tasks.RunTask(l, n))
    case Joined(l) => Some(Tasks.End(l))
    case OfPath(p) =>
      if p.Classify? && (!IsEmpty(s.path.lines[p.l].buf) || u.stopReturns) then
        Some(Tasks.Begin(p.l, Frame(s.path, p.l)))
      else None
  }

  /** The lines as a step of the tasks finds them: a task that runs reads the memory. */
  function Seen<P>(s: State<P>, t: Tasks.Event): (r: seq<Tasks.LineState<P>>)
    ensures |r| == |s.lines|
  {
    if t.RunTask? && t.l < |s.lines| then s.lines[t.l := s.lines[t.l].(raw := Frame(s.path, t.l))] else s.lines
  }

  predicate Enabled<P>(u: Setup<P>, s: State<P>, e: Event) {
    && (e.OfPath? ==> Path.Enabled(u.cfg, s.path, e.e) && !Delayed(s, e.e))
    && CanRun(u, s, TaskStep(u, s, e))
  }

  /** A line takes its buffer back to the queue only after its tasks. */
  predicate Delayed<P>(s: State<P>, e: Path.Event) {
    e.PushTrash? && e.l < |s.lines| && s.lines[e.l].active
  }

  function TakenBy(s: Path.State, e: Path.Event): (r: seq<Taken>)
    ensures |r| <= 1
  {
    if e.TakeValid? && e.j < |s.valid| && s.valid[e.j].producer.FromSocket? then
      [Taken(e.l, s.valid[e.j].producer.i, Content(s.mem, s.valid[e.j].buf))]
    else []
  }

  predicate CanRun<P>(u: Setup<P>, s: State<P>, t: Option<Tasks.Event>) {
    t.Some? ==> Tasks.Enabled(u.nodes, Seen(s, t.value), t.value)
  }

  /** The state after the data path went to `path` by `events`, lines took `taken`, and the tasks did `t`. */
  function Advanced<P>(u: Setup<P>, s: State<P>, path: Path.State, taken: seq<Taken>, events: seq<Path.Event>,
                       t: Option<Tasks.Event>): (r: State<P>)
    requires Tasks.Shaped(u.nodes, s.lines) && CanRun(u, s, t)
    ensures Tasks.Shaped(u.nodes, r.lines) && |r.lines| == |s.lines|
  {
    match t
    case None => State(path, s.lines, s.log + taken, s.events + events, s.tasks)
    case Some(task) =>
      State(path, Tasks.Next(u.f, u.nodes, Seen(s, task), task), s.log + taken, s.events + events, s.tasks + [task])
  }

  function Next<P>(u: Setup<P>, s: State<P>, e: Event): (r: State<P>)
    requires Tasks.Shaped(u.nodes, s.lines) && Enabled(u, s, e)
    ensures Tasks.Shaped(u.nodes, r.lines) && |r.lines| == |s.lines|
  {
    if e.OfPath? then
      Advanced(u, s, Path.Next(u.cfg, s.path, e.e), TakenBy(s.path, e.e), [e.e], TaskStep(u, s, e))
    else
      Advanced(u, s, s.path, [], [], TaskStep(u, s, e))
  }

  predicate Legal<P>(u: Setup<P>, s: State<P>, es: seq<Event>)
    requires Tasks.Shaped(u.nodes, s.lines)
    decreases |es|
  {
    es == [] || (Enabled(u, s, es[0]) && Legal(u, Next(u, s, es[0]), es[1..]))
  }

  function Run<P>(u: Setup<P>, s: State<P>, es: seq<Event>): State<P>
    requires Tasks.Shaped(u.nodes, s.lines) && Legal(u, s, es)
    decreases |es|
  {
    if es == [] then s else Run(u, Next(u, s, es[0]), es[1..])
  }

  // ----- the two halves of the log

  function OnLine(l: nat): Taken -> bool {
    (t: Taken) => t.l == l
  }

  function FromSocket(i: nat): Taken -> bool {
    (t: Taken) => t.i == i
  }

  function FromSocketOnLine(i: nat, l: nat): Taken -> bool {
    (t: Taken) => t.i == i && t.l == l
  }

  function FrameOf(t: Taken): Bytes {
    t.frame
  }

  /** The frames of the entries that satisfy `p`, in the order in which they were taken. */
  function Picked(p: Taken -> bool, log: seq<Taken>): seq<Bytes> {
    Map(FrameOf, Filter(p, log))
  }

  lemma PickedPush(p: Taken -> bool, log: seq<Taken>, t: Taken)
    ensures Picked(p, log + [t]) == Picked(p, log) + (if p(t) then [t.frame] else [])
  {
    assert (log + [t])[..|log + [t]| - 1] == log;
    if p(t) {
      Tasks.MapPush(FrameOf, Filter(p, log), t);
    } else {
      assert Filter(p, log + [t]) == Filter(p, log);
    }
  }

  predicate Increasing(at: seq<nat>) {
    forall a, b :: 0 <= a < b < |at| ==> at[a] < at[b]
  }

  /** `sub` is what `s` holds at the increasing places `at`. */
  predicate PickedAt(sub: seq<Bytes>, s: seq<Bytes>, at: seq<nat>) {
    && |at| == |sub| && Increasing(at)
    && forall k :: 0 <= k < |at| ==> at[k] < |s| && s[at[k]] == sub[k]
  }

  ghost predicate Subsequence(sub: seq<Bytes>, s: seq<Bytes>) {
    exists at :: PickedAt(sub, s, at)
  }

  lemma SubsequencePush(sub: seq<Bytes>, s: seq<Bytes>, at: seq<nat>, frame: Bytes)
    requires PickedAt(sub, s, at)
    ensures PickedAt(sub, s + [frame], at)
    ensures PickedAt(sub + [frame], s + [frame], at + [|s|])
  {
  }

  lemma {:induction false} FewerPicked(p: Taken -> bool, q: Taken -> bool, log: seq<Taken>) returns (at: seq<nat>)
    requires forall t :: p(t) ==> q(t)
    ensures PickedAt(Picked(p, log), Picked(q, log), at)
  {
    if log == [] {
      at := [];
    } else {
      var front, last := log[..|log| - 1], log[|log| - 1];
      at := FewerPicked(p, q, front);
      assert log == front + [last];
      PickedPush(p, front, last);
      PickedPush(q, front, last);
      SubsequencePush(Picked(p, front), Picked(q, front), at, last.frame);
      if p(last) {
        at := at + [|Picked(q, front)|];
      }
    }
  }

  // ----- how a line and its tasks agree

  function PcOf(s: Path.State, l: nat): Option<Path.LinePc> {
    if l < |s.lines| then Some(s.lines[l].pc) else None
  }

  function CurrentOf(s: Path.State, l: nat): Option<Bytes> {
    if l < |s.history.current| then s.history.current[l] else None
  }

  /** Taken, but the tasks have not begun. */
  function Pending(pc: Option<Path.LinePc>, current: Option<Bytes>): seq<Bytes> {
    if pc.Some? && pc.value.Taken? && !pc.value.wasPill && current.Some? then [current.value] else []
  }

  /** Begun without having been a frame: the line's tasks run once more after it took a pill. */
  function PillFrame(stopReturns: bool, pc: Option<Path.LinePc>): seq<Bytes> {
    if stopReturns && pc.Some? && pc.value.Stopped? then [[]] else []
  }

  predicate Agree<P>(stopReturns: bool, pc: Option<Path.LinePc>, current: Option<Bytes>, x: Tasks.LineState<P>,
                     taken: seq<Bytes>, begun: seq<Bytes>) {
    && (x.active ==> pc.Some? && ActiveOk(stopReturns, pc.value, current, x.raw))
    && (pc.Some? && pc.value.Taken? && !pc.value.wasPill ==> current.Some?)
    && taken + PillFrame(stopReturns, pc) == begun + Pending(pc, current)
  }

  predicate ActiveOk(stopReturns: bool, pc: Path.LinePc, current: Option<Bytes>, raw: Bytes) {
    (pc.Processing? && current == Some(raw)) || (stopReturns && pc.Stopped? && raw == [])
  }

  predicate LineAgrees<P>(u: Setup<P>, s: State<P>, l: nat)
    requires l < |s.lines|
  {
    Agree(u.stopReturns, PcOf(s.path, l), CurrentOf(s.path, l), s.lines[l],
          Picked(OnLine(l), s.log), Tasks.Begun(s.tasks, l))
  }

  predicate AllAgree<P>(u: Setup<P>, s: State<P>) {
    forall l :: 0 <= l < |s.lines| ==> LineAgrees(u, s, l)
  }

  predicate LogOk<P>(u: Setup<P>, s: State<P>) {
    && (forall k :: 0 <= k < |s.log| ==> s.log[k].l < u.cfg.nLines && s.log[k].i < u.cfg.nSockets)
    && |s.path.history.taken| == u.cfg.nSockets
    && (forall i :: 0 <= i < u.cfg.nSockets ==> Picked(FromSocket(i), s.log) == s.path.history.taken[i])
  }

  /** Both parts are runs of their own machines. */
  ghost predicate Follows<P>(u: Setup<P>, lines: seq<Tasks.LineState<P>>, s: State<P>)
    requires Tasks.Shaped(u.nodes, lines)
  {
    PathFollows(u.cfg, s.path, s.events) && TasksFollow(u, lines, s.lines, s.tasks)
  }

  predicate PathFollows(cfg: Path.Config, path: Path.State, events: seq<Path.Event>) {
    Path.Legal(cfg, Path.Initial(cfg), events) && Path.Run(cfg, Path.Initial(cfg), events) == path
  }

  ghost predicate TasksFollow<P>(u: Setup<P>, first: seq<Tasks.LineState<P>>, last: seq<Tasks.LineState<P>>,
                                 tasks: seq<Tasks.Event>)
    requires Tasks.Shaped(u.nodes, first)
  {
    Tasks.Legal(u.f, u.nodes, first, tasks) && Tasks.Run(u.f, u.nodes, first, tasks) == last
  }

  ghost predicate Good<P>(u: Setup<P>, lines: seq<Tasks.LineState<P>>, s: State<P>)
    requires Tasks.Shaped(u.nodes, lines)
  {
    && |s.lines| == u.cfg.nLines && Tasks.Shaped(u.nodes, s.lines)
    && Follows(u, lines, s) && LogOk(u, s) && AllAgree(u, s)
  }
}
