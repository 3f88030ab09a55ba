/** The lock-free frame counter check: atomic steps of any number of pipeline lines. */
module FrameCount {
  import opened Bits
  import opened Common
  import opened SrsData
  import opened FrameFormat

  // `register_frame_counter` loads the last counter, repeats a weak compare-exchange until it succeeds
  // and only then, in a separate atomic step, adjusts the drop counter.

  /** Where a line is inside `register_frame_counter`. */
  datatype Pc =
    | Idle
    | Loaded(counter: nat, expected: int)   // about to compare-exchange
    | Adjust(delta: int)                    // exchanged, drop counter not yet adjusted

  /** The two atomics, the lines, and the counters in the order in which their exchange succeeded. */
  datatype State = State(last: int, drop: int, lines: seq<Pc>, log: seq<(nat, nat)>)

  datatype Event =
    | Load(line: nat, counter: nat)
    | CompareExchange(line: nat, spurious: bool)
    | AdjustDrop(line: nat)

  function Initial(nLines: nat): State {
    State(0, 0, seq(nLines, l => Idle), [])
  }

  /** The later change of the drop counter: gaps are added, an out-of-order frame takes one back. */
  function Delta(diff: int): int {
    if diff > 1 then diff - 1 else if diff < 0 then -1 else 0
  }

  predicate Enabled(s: State, e: Event) {
    && e.line < |s.lines|
    && match e
       case Load(l, _) => s.lines[l].Idle?
       case CompareExchange(l, _) => s.lines[l].Loaded?
       case AdjustDrop(l) => s.lines[l].Adjust?
  }

  function Next(s: State, e: Event): (r: State)
    requires Enabled(s, e)
    ensures |r.lines| == |s.lines|
  {
    match e
    case Load(l, counter) => s.(lines := s.lines[l := Loaded(counter, s.last)])
    case CompareExchange(l, spurious) =>
      var counter, expected := s.lines[l].counter, s.lines[l].expected;
      var diff := counter - expected;
      if spurious || s.last != expected then
        s.(lines := s.lines[l := Loaded(counter, s.last)])
      else
        s.(last := if diff > 0 then counter else expected,
           lines := s.lines[l := if Delta(diff) == 0 then Idle else Adjust(Delta(diff))],
           log := s.log + [(l, counter)])
    case AdjustDrop(l) =>
      s.(drop := s.drop + s.lines[l].delta, lines := s.lines[l := Idle])
  }

  predicate Legal(s: State, es: seq<Event>)
    decreases |es|
  {
    es == [] || (Enabled(s, es[0]) && Legal(Next(s, es[0]), es[1..]))
  }

  function Run(s: State, es: seq<Event>): (r: State)
    requires Legal(s, es)
    ensures |r.lines| == |s.lines|
    decreases |es|
  {
    if es == [] then s else Run(Next(s, es[0]), es[1..])
  }

  lemma {:induction false} RunAppend(s: State, a: seq<Event>, e: Event)
    requires Legal(s, a) && Enabled(Run(s, a), e)
    ensures Legal(s, a + [e]) && Run(s, a + [e]) == Next(Run(s, a), e)
    decreases |a|
  {
    if a == [] {
      assert a + [e] == [e] && [e][1..] == [];
    } else {
      RunAppend(Next(s, a[0]), a[1..], e);
      assert (a + [e])[1..] == a[1..] + [e];
    }
  }

  // ----- the sequential meaning

  function Counters(log: seq<(nat, nat)>): (r: seq<nat>)
    ensures |r| == |log|
  {
    seq(|log|, i requires 0 <= i < |log| => log[i].1)
  }

  /** The counter that one thread alone would hold after registering `cs` in order. */
  function LastOf(cs: seq<nat>): nat {
    if cs == [] then 0
    else
      var m, c := LastOf(cs[..|cs| - 1]), cs[|cs| - 1];
      if c > m then c else m
  }

  /** The drop count that one thread alone would hold after registering `cs` in order. */
  function DropOf(cs: seq<nat>): int {
    if cs == [] then 0
    else DropOf(cs[..|cs| - 1]) + Delta(cs[|cs| - 1] - LastOf(cs[..|cs| - 1]))
  }

  /** The adjustments that have been decided by an exchange but not yet made. */
  function Pending(lines: seq<Pc>): int {
    if lines == [] then 0
    else Pending(lines[..|lines| - 1]) + PendingOf(lines[|lines| - 1])
  }

  function PendingOf(pc: Pc): int {
    if pc.Adjust? then pc.delta else 0
  }

  lemma {:induction false} PendingUpdate(lines: seq<Pc>, l: nat, pc: Pc)
    requires l < |lines|
    ensures Pending(lines[l := pc]) == Pending(lines) - PendingOf(lines[l]) + PendingOf(pc)
  {
    var updated := lines[l := pc];
    if l == |lines| - 1 {
      assert updated[..l] == lines[..l];
    } else {
      PendingUpdate(lines[..|lines| - 1], l, pc);
      assert updated[..|lines| - 1] == lines[..|lines| - 1][l := pc];
    }
  }

  lemma {:induction false} PendingIdle(lines: seq<Pc>)
    requires forall l :: 0 <= l < |lines| ==> !lines[l].Adjust?
    ensures Pending(lines) == 0
  {
    if lines == [] {
    } else {
      PendingIdle(lines[..|lines| - 1]);
    }
  }

  /** The shared atomics are those of a sequential run in commit order, up to the pending adjustments. */
  predicate Linearizes(s: State) {
    && s.last == LastOf(Counters(s.log))
    && s.drop + Pending(s.lines) == DropOf(Counters(s.log))
  }

  lemma InitialLinearizes(nLines: nat)
    ensures Linearizes(Initial(nLines))
  {
    PendingIdle(Initial(nLines).lines);
  }

  /** Every atomic step of every line keeps the invariant, failed exchanges included. */
  lemma StepLinearizes(s: State, e: Event)
    requires Linearizes(s) && Enabled(s, e)
    ensures Linearizes(Next(s, e))
  {
    var next := Next(s, e);
    PendingUpdate(s.lines, e.line, next.lines[e.line]);
    assert next.lines == s.lines[e.line := next.lines[e.line]];
    if |next.log| > |s.log| {
      var cs := Counters(next.log);
      assert cs[..|cs| - 1] == Counters(s.log);
    }
  }

  lemma {:induction false} RunLinearizes(s: State, es: seq<Event>)
    requires Linearizes(s) && Legal(s, es)
    ensures Linearizes(Run(s, es))
    decreases |es|
  {
    if es == [] {
    } else {
      StepLinearizes(s, es[0]);
      RunLinearizes(Next(s, es[0]), es[1..]);
    }
  }

  // ----- what the drop counter counts

  predicate Within(x: nat, n: nat) {
    1 <= x <= n
  }

  function UpTo(n: nat): set<nat> {
    set x: nat | x <= n && Within(x, n)
  }

  lemma {:induction false} UpToSize(n: nat)
    ensures |UpTo(n)| == n
  {
    if n == 0 {
      assert UpTo(n) == {};
    } else {
      UpToSize(n - 1);
      assert UpTo(n) == UpTo(n - 1) + {n};
    }
  }

  function Registered(cs: seq<nat>): set<nat> {
    if cs == [] then {} else Registered(cs[..|cs| - 1]) + {cs[|cs| - 1]}
  }

  lemma {:induction false} RegisteredIs(cs: seq<nat>)
    ensures forall x :: x in Registered(cs) <==> x in cs
  {
    if cs == [] {
    } else {
      RegisteredIs(cs[..|cs| - 1]);
      assert cs == cs[..|cs| - 1] + [cs[|cs| - 1]];
    }
  }

  /** `last` is the maximum: nothing registered exceeds it, and it is registered itself unless it is zero. */
  lemma {:induction false} LastIsMaximum(cs: seq<nat>)
    ensures forall x :: x in Registered(cs) ==> x <= LastOf(cs)
    ensures LastOf(cs) == 0 || LastOf(cs) in Registered(cs)
  {
    if cs == [] {
    } else {
      LastIsMaximum(cs[..|cs| - 1]);
    }
  }

  /** The frame counters up to the last one that nobody has registered. */
  function Missing(cs: seq<nat>): set<nat> {
    MissingUpTo(LastOf(cs), Registered(cs))
  }

  function MissingUpTo(last: nat, registered: set<nat>): set<nat> {
    UpTo(last) - registered
  }

  /** A counter below the last one that fills no gap: a duplicate, or counter zero. */
  predicate Stale(cs: seq<nat>, c: nat) {
    c < LastOf(cs) && (c == 0 || c in Registered(cs))
  }

  function StaleCount(cs: seq<nat>): nat {
    if cs == [] then 0
    else StaleCount(cs[..|cs| - 1]) + (if Stale(cs[..|cs| - 1], cs[|cs| - 1]) then 1 else 0)
  }

  lemma AppendStep(cs: seq<nat>, c: nat)
    ensures Registered(cs + [c]) == Registered(cs) + {c}
    ensures LastOf(cs + [c]) == if c > LastOf(cs) then c else LastOf(cs)
  {
    assert (cs + [c])[..|cs + [c]| - 1] == cs;
  }

  /** The frames in between are missing too. */
  lemma GapIsBetween(registered: set<nat>, last: nat, c: nat)
    requires c > last && forall x :: x in registered ==> x <= last
    ensures UpTo(c) - (registered + {c}) == (UpTo(last) - registered) + (UpTo(c - 1) - UpTo(last))
  {
    forall x: nat
      ensures x in UpTo(c) - (registered + {c}) <==> x in (UpTo(last) - registered) + (UpTo(c - 1) - UpTo(last))
    {
      UpToRange(x, c);
      UpToRange(x, c - 1);
      UpToRange(x, last);
    }
  }

  lemma UpToRange(x: nat, n: nat)
    ensures x in UpTo(n) <==> 1 <= x <= n
  {
    assert Within(x, n) <==> 1 <= x <= n;
  }

  /** A counter beyond the last one adds the frames in between to the missing ones. */
  lemma GapStep(registered: set<nat>, last: nat, c: nat)
    requires c > last && forall x :: x in registered ==> x <= last
    ensures |MissingUpTo(c, registered + {c})| == |MissingUpTo(last, registered)| + (c - last - 1)
  {
    GapIsBetween(registered, last, c);
    UpToSize(c - 1);
    UpToSize(last);
    UpToGrows(last, c - 1);
    SplitSize(UpTo(c - 1), UpTo(last));
    DisjointSize(UpTo(last) - registered, UpTo(c - 1) - UpTo(last));
  }

  lemma UpToGrows(n: nat, m: nat)
    requires n <= m
    ensures UpTo(n) <= UpTo(m)
  {
  }

  lemma DisjointSize(a: set<nat>, b: set<nat>)
    requires a !! b
    ensures |a + b| == |a| + |b|
  {
  }

  lemma SplitSize(all: set<nat>, part: set<nat>)
    requires part <= all
    ensures |all - part| == |all| - |part|
  {
    assert (all - part) + part == all;
  }

  /** Registering an element fills its gap, unless there was none. */
  lemma FillStep(u: set<nat>, registered: set<nat>, c: nat)
    ensures |u - (registered + {c})| == |u - registered| - (if c in u - registered then 1 else 0)
  {
    if c in u - registered {
      assert u - (registered + {c}) == (u - registered) - {c};
    } else {
      assert u - (registered + {c}) == u - registered;
    }
  }

  lemma NoGapStep(u: set<nat>, registered: set<nat>, last: nat, c: nat)
    requires c <= last && (last == 0 || last in registered)
    requires c in u <==> c > 0
    ensures |u - (registered + {c})| - (if c < last && (c == 0 || c in registered) then 1 else 0)
         == |u - registered| + Delta(c - last)
  {
    FillStep(u, registered, c);
    var fills := c in u - registered;
    assert fills <==> c > 0 && c !in registered;
    assert c == last ==> !fills;
  }

  /** The last registration is of a new last counter. */
  lemma NewLastStep(cs: seq<nat>)
    requires cs != [] && cs[|cs| - 1] > LastOf(cs[..|cs| - 1])
    ensures |Missing(cs)| == |Missing(cs[..|cs| - 1])| + Delta(cs[|cs| - 1] - LastOf(cs[..|cs| - 1]))
  {
    var front, c := cs[..|cs| - 1], cs[|cs| - 1];
    LastIsMaximum(front);
    GapStep(Registered(front), LastOf(front), c);
  }

  /** The last registration is of a counter up to the last one: it fills its gap, or it is stale. */
  lemma OldCounterStep(cs: seq<nat>)
    requires cs != [] && cs[|cs| - 1] <= LastOf(cs[..|cs| - 1])
    ensures var front, c := cs[..|cs| - 1], cs[|cs| - 1];
            |Missing(cs)| - (if Stale(front, c) then 1 else 0) == |Missing(front)| + Delta(c - LastOf(front))
  {
    var front, c := cs[..|cs| - 1], cs[|cs| - 1];
    LastIsMaximum(front);
    UpToRange(c, LastOf(front));
    NoGapStep(UpTo(LastOf(front)), Registered(front), LastOf(front), c);
  }

  /** Sequentially the drop counter is the number of missing frames, less the stale registrations. */
  lemma {:induction false} DropCountsMissing(cs: seq<nat>)
    ensures DropOf(cs) == |Missing(cs)| - StaleCount(cs)
  {
    if cs == [] {
      assert Missing(cs) == {};
    } else {
      DropCountsMissing(cs[..|cs| - 1]);
      if cs[|cs| - 1] > LastOf(cs[..|cs| - 1]) {
        NewLastStep(cs);
      } else {
        OldCounterStep(cs);
      }
    }
  }

  predicate Quiescent(s: State) {
    forall l :: 0 <= l < |s.lines| ==> s.lines[l].Idle?
  }

  /** For any interleaving of any registrations: `last` is the maximum registered, and the drop
      counter with the adjustments still pending is the number of missing frames, less one for
      every stale registration. */
  lemma CheckerCountsMissing(nLines: nat, es: seq<Event>)
    requires Legal(Initial(nLines), es)
    ensures var s := Run(Initial(nLines), es);
            var cs := Counters(s.log);
            && s.last == LastOf(cs)
            && s.drop + Pending(s.lines) == |Missing(cs)| - StaleCount(cs)
            && (Quiescent(s) ==> s.drop == |Missing(cs)| - StaleCount(cs))
  {
    InitialLinearizes(nLines);
    RunLinearizes(Initial(nLines), es);
    var s := Run(Initial(nLines), es);
    DropCountsMissing(Counters(s.log));
    if Quiescent(s) {
      PendingIdle(s.lines);
    }
  }

  /** At rest the drop counter is exactly the number of missing frames if and only if no
      registration was stale. */
  lemma ExactUnlessStale(nLines: nat, es: seq<Event>)
    requires Legal(Initial(nLines), es) && Quiescent(Run(Initial(nLines), es))
    ensures var s := Run(Initial(nLines), es);
            var cs := Counters(s.log);
            s.drop == |Missing(cs)| <==> forall i :: 0 <= i < |cs| ==> !Stale(cs[..i], cs[i])
  {
    CheckerCountsMissing(nLines, es);
    StaleCountIsZero(Counters(Run(Initial(nLines), es).log));
  }

  predicate NoneStale(cs: seq<nat>) {
    forall i :: 0 <= i < |cs| ==> !Stale(cs[..i], cs[i])
  }

  lemma NoneStalePush(cs: seq<nat>, c: nat)
    ensures NoneStale(cs + [c]) <==> NoneStale(cs) && !Stale(cs, c)
  {
    var more := cs + [c];
    forall i | 0 <= i < |cs|
      ensures more[..i] == cs[..i] && more[i] == cs[i]
    {
    }
    assert more[..|cs|] == cs && more[|cs|] == c;
  }

  lemma {:induction false} StaleCountIsZero(cs: seq<nat>)
    ensures StaleCount(cs) == 0 <==> NoneStale(cs)
  {
    if cs == [] {
    } else {
      var front, c := cs[..|cs| - 1], cs[|cs| - 1];
      StaleCountIsZero(front);
      NoneStalePush(front, c);
      assert cs == front + [c];
    }
  }

  predicate Distinct(cs: seq<nat>) {
    cs == [] || (Distinct(cs[..|cs| - 1]) && cs[|cs| - 1] !in Registered(cs[..|cs| - 1]))
  }

  /** With distinct positive counters the missing frames are the last counter less the registrations. */
  lemma DistinctPositive(nLines: nat, es: seq<Event>)
    requires Legal(Initial(nLines), es)
    requires var cs := Counters(Run(Initial(nLines), es).log); Distinct(cs) && 0 !in Registered(cs)
    ensures var s := Run(Initial(nLines), es);
            && s.drop + Pending(s.lines) == s.last - |s.log|
            && (Quiescent(s) ==> s.drop == |Missing(Counters(s.log))|)
  {
    CheckerCountsMissing(nLines, es);
    var cs := Counters(Run(Initial(nLines), es).log);
    DistinctIsNotStale(cs);
    MissingOfDistinct(cs);
  }

  lemma RegisteredIsUpToLast(cs: seq<nat>)
    requires 0 !in Registered(cs)
    ensures Registered(cs) <= UpTo(LastOf(cs))
  {
    LastIsMaximum(cs);
    forall x | x in Registered(cs)
      ensures x in UpTo(LastOf(cs))
    {
      UpToRange(x, LastOf(cs));
    }
  }

  lemma MissingOfDistinct(cs: seq<nat>)
    requires Distinct(cs) && 0 !in Registered(cs)
    ensures |Missing(cs)| == LastOf(cs) - |cs|
  {
    DistinctIsNotStale(cs);
    RegisteredIsUpToLast(cs);
    UpToSize(LastOf(cs));
    SplitSize(UpTo(LastOf(cs)), Registered(cs));
  }

  lemma {:induction false} DistinctIsNotStale(cs: seq<nat>)
    requires Distinct(cs) && 0 !in Registered(cs)
    ensures StaleCount(cs) == 0 && |Registered(cs)| == |cs|
  {
    if cs == [] {
    } else {
      DistinctIsNotStale(cs[..|cs| - 1]);
    }
  }

  /** Counter zero after a positive counter is stale: it lowers the drop count by one although no
      gap is filled. */
  lemma ZeroLowersDrop(cs: seq<nat>)
    requires LastOf(cs) > 0
    ensures DropOf(cs + [0]) == DropOf(cs) - 1 && Missing(cs + [0]) == Missing(cs)
  {
    AppendStep(cs, 0);
    assert (cs + [0])[..|cs + [0]| - 1] == cs;
  }

  /** At rest, one line registers a counter without interference. */
  lemma RegisterAlone(nLines: nat, es: seq<Event>, l: nat, c: nat) returns (es': seq<Event>)
    requires Legal(Initial(nLines), es) && Quiescent(Run(Initial(nLines), es)) && l < nLines
    ensures Legal(Initial(nLines), es')
    ensures var s, s' := Run(Initial(nLines), es), Run(Initial(nLines), es');
            && s'.last == (if c > s.last then c else s.last)
            && s'.drop == s.drop + Delta(c - s.last)
            && s'.lines == s.lines && s'.log == s.log + [(l, c)]
  {
    var s0 := Initial(nLines);
    var s := Run(s0, es);
    RunAppend(s0, es, Load(l, c));
    es' := es + [Load(l, c)];
    RunAppend(s0, es', CompareExchange(l, false));
    es' := es' + [CompareExchange(l, false)];
    assert Run(s0, es').log == s.log + [(l, c)];
    if Delta(c - s.last) != 0 {
      RunAppend(s0, es', AdjustDrop(l));
      es' := es' + [AdjustDrop(l)];
    }
    assert Run(s0, es').lines == s.lines;
  }

  lemma CountersPush(log: seq<(nat, nat)>, l: nat, c: nat)
    ensures Counters(log + [(l, c)]) == Counters(log) + [c]
  {
  }

  /** After any run that ends at rest, a stale counter takes one more missing frame off the drop count
      although none is found: a duplicate as well as counter zero. */
  lemma StaleLowersDrop(nLines: nat, es: seq<Event>, l: nat, c: nat) returns (es': seq<Event>)
    requires Legal(Initial(nLines), es) && Quiescent(Run(Initial(nLines), es)) && l < nLines
    requires Stale(Counters(Run(Initial(nLines), es).log), c)
    ensures Legal(Initial(nLines), es')
    ensures var s, s' := Run(Initial(nLines), es), Run(Initial(nLines), es');
            && Quiescent(s') && Counters(s'.log) == Counters(s.log) + [c]
            && s'.drop == s.drop - 1 && Missing(Counters(s'.log)) == Missing(Counters(s.log))
  {
    var cs := Counters(Run(Initial(nLines), es).log);
    CheckerCountsMissing(nLines, es);
    es' := RegisterAlone(nLines, es, l, c);
    CountersPush(Run(Initial(nLines), es).log, l, c);
    AppendStep(cs, c);
    UpToRange(c, LastOf(cs));
  }

  lemma OneThenTwo() returns (es: seq<Event>)
    ensures Legal(Initial(1), es)
    ensures var s := Run(Initial(1), es); Quiescent(s) && s.drop == 0 && s.log == [(0, 1), (0, 2)]
  {
    es := RegisterAlone(1, [], 0, 1);
    es := RegisterAlone(1, es, 0, 2);
  }

  /** Runs of one line that end at rest with no frame missing and a drop count of minus one: after
      counters 1 and 2, either counter zero or counter 1 again. */
  lemma StaleRuns(c: nat) returns (es: seq<Event>)
    requires c <= 1
    ensures Legal(Initial(1), es)
    ensures var s := Run(Initial(1), es);
            && Quiescent(s) && Counters(s.log) == [1, 2, c]
            && s.drop == -1 && Missing(Counters(s.log)) == {}
  {
    es := OneThenTwo();
    assert Counters([(0, 1), (0, 2)]) == [1, 2];
    OneAndTwo();
    es := StaleLowersDrop(1, es, 0, c);
  }

  lemma OneAndTwo()
    ensures LastOf([1, 2]) == 2 && Registered([1, 2]) == {1, 2} && Missing([1, 2]) == {}
  {
    assert [1, 2][..1] == [1] && [1][..0] == [];
    assert LastOf([1]) == 1 && Registered([1]) == {1};
    forall x: nat
      ensures x !in Missing([1, 2])
    {
      UpToRange(x, 2);
    }
  }

  // ----- progress of the exchange loop

  /** The exchange of line `l` fails. */
  predicate Fails(s: State, e: Event, l: nat)
    requires Enabled(s, e)
  {
    e.CompareExchange? && e.line == l && (e.spurious || s.last != s.lines[l].expected)
  }

  /** Another line commits a higher counter. */
  predicate Overtakes(s: State, e: Event, l: nat)
    requires Enabled(s, e)
  {
    e.line != l && Next(s, e).last > s.last
  }

  function Failures(s: State, es: seq<Event>, l: nat): nat
    requires Legal(s, es)
    decreases |es|
  {
    if es == [] then 0 else (if Fails(s, es[0], l) then 1 else 0) + Failures(Next(s, es[0]), es[1..], l)
  }

  function Overtakings(s: State, es: seq<Event>, l: nat): nat
    requires Legal(s, es)
    decreases |es|
  {
    if es == [] then 0 else (if Overtakes(s, es[0], l) then 1 else 0) + Overtakings(Next(s, es[0]), es[1..], l)
  }

  function SpuriousFailures(es: seq<Event>, l: nat): nat {
    if es == [] then 0
    else (if es[0] == CompareExchange(l, true) then 1 else 0) + SpuriousFailures(es[1..], l)
  }

  /** Line `l` has loaded a value that is no longer current. */
  predicate Behind(s: State, l: nat) {
    l < |s.lines| && s.lines[l].Loaded? && s.lines[l].expected != s.last
  }

  lemma FailureStep(s: State, e: Event, l: nat)
    requires Enabled(s, e)
    ensures (if Fails(s, e, l) then 1 else 0) + (if Behind(Next(s, e), l) then 1 else 0)
         <= (if e == CompareExchange(l, true) then 1 else 0) + (if Overtakes(s, e, l) then 1 else 0)
            + (if Behind(s, l) then 1 else 0)
  {
  }

  /** In any run the exchanges of a line fail at most as often as spuriously and as other lines commit a
      higher counter: some line always makes progress. */
  lemma {:induction false} FailuresAreAccounted(s: State, es: seq<Event>, l: nat)
    requires Legal(s, es)
    ensures Failures(s, es, l) <= SpuriousFailures(es, l) + Overtakings(s, es, l) + (if Behind(s, l) then 1 else 0)
    decreases |es|
  {
    if es == [] {
    } else {
      FailureStep(s, es[0], l);
      FailuresAreAccounted(Next(s, es[0]), es[1..], l);
    }
  }

  // ----- the class

  /** What happens between two atomic steps of a line: steps of the other lines, and whether the
      next compare-exchange fails spuriously. */
  datatype Turn = Turn(others: seq<Event>, spurious: bool)

  class FrameCountChecker {
    var last: int
    var drop: int
    var lines: seq<Pc>
    ghost var log: seq<(nat, nat)>

    ghost function View(): State
      reads this
    {
      State(last, drop, lines, log)
    }

    constructor (nLines: nat)
      ensures View() == Initial(nLines)
    {
      last, drop, lines, log := 0, 0, seq(nLines, l => Idle), [];
    }

    method LoadLast(l: nat, counter: nat)
      requires l < |lines| && lines[l].Idle?
      modifies this
      ensures View() == Next(old(View()), Load(l, counter))
    {
      lines := lines[l := Loaded(counter, last)];
    }

    method CompareExchangeWeak(l: nat, spurious: bool) returns (ok: bool)
      requires l < |lines| && lines[l].Loaded?
      modifies this
      ensures ok <==> !spurious && old(last) == old(lines)[l].expected
      ensures View() == Next(old(View()), CompareExchange(l, spurious))
    {
      var counter, expected := lines[l].counter, lines[l].expected;
      var diff := counter - expected;
      var insert := if diff > 0 then counter else expected;
      if spurious || last != expected {
        lines := lines[l := Loaded(counter, last)];
        return false;
      }
      last := insert;
      log := log + [(l, counter)];
      if diff > 1 {
        lines := lines[l := Adjust(diff - 1)];
      } else if diff < 0 {
        lines := lines[l := Adjust(-1)];
      } else {
        lines := lines[l := Idle];
      }
      return true;
    }

    method AddToDrop(l: nat)
      requires l < |lines| && lines[l].Adjust?
      modifies this
      ensures View() == Next(old(View()), AdjustDrop(l))
    {
      drop := drop + lines[l].delta;
      lines := lines[l := Idle];
    }

    /** The other lines take their steps; a listed step that is not possible at its time is skipped. */
    method Interfere(l: nat, others: seq<Event>, ghost trace: seq<Event>, ghost start: State)
      returns (ghost newTrace: seq<Event>)
      requires l < |lines| && Legal(start, trace) && View() == Run(start, trace)
      modifies this
      ensures Legal(start, newTrace) && View() == Run(start, newTrace)
      ensures |lines| == |old(lines)| && lines[l] == old(lines)[l]
      ensures Mine(log, l) == old(Mine(log, l))
    {
      newTrace := trace;
      for i := 0 to |others|
        invariant Legal(start, newTrace) && View() == Run(start, newTrace)
        invariant |lines| == |old(lines)| && lines[l] == old(lines)[l]
        invariant Mine(log, l) == old(Mine(log, l))
      {
        var e := others[i];
        if e.line != l && e.line < |lines| {
          ghost var before := View();
          match e {
            case Load(m, counter) =>
              if lines[m].Idle? {
                LoadLast(m, counter);
                RunAppend(start, newTrace, e);
                newTrace := newTrace + [e];
              }
            case CompareExchange(m, spurious) =>
              if lines[m].Loaded? {
                var _ := CompareExchangeWeak(m, spurious);
                MineAppend(before.log, (m, before.lines[m].counter), l);
                RunAppend(start, newTrace, e);
                newTrace := newTrace + [e];
              }
            case AdjustDrop(m) =>
              if lines[m].Adjust? {
                AddToDrop(m);
                RunAppend(start, newTrace, e);
                newTrace := newTrace + [e];
              }
          }
        }
      }
    }

    /** The compare-exchange loop, with any finite interference of the other lines between its
        steps: the call is a run of atomic steps in which this line commits its counter once. */
    method RegisterFrameCounter(l: nat, counter: nat, turns: seq<Turn>) returns (ghost trace: seq<Event>)
      requires l < |lines| && lines[l].Idle?
      modifies this
      ensures Legal(old(View()), trace) && View() == Run(old(View()), trace)
      ensures |lines| == |old(lines)| && lines[l].Idle?
      ensures Mine(log, l) == old(Mine(log, l)) + [counter]
      ensures Failures(old(View()), trace, l) <= SpuriousFailures(trace, l) + Overtakings(old(View()), trace, l)
    {
      ghost var start := View();
      LoadLast(l, counter);
      assert [Load(l, counter)][1..] == [];
      trace := [Load(l, counter)];
      var i := 0;
      var done := false;
      while !done
        invariant 0 <= i <= |turns|
        invariant Legal(start, trace) && View() == Run(start, trace)
        invariant |lines| == |start.lines|
        invariant !done ==> lines[l].Loaded? && lines[l].counter == counter
        invariant done ==> !lines[l].Loaded?
        invariant Mine(log, l) == Mine(start.log, l) + (if done then [counter] else [])
        decreases !done, |turns| - i, !done && lines[l].expected != last
      {
        var turn := Turn([], false);
        if i < |turns| {
          turn := turns[i];
          trace := Interfere(l, turn.others, trace, start);
          i := i + 1;
        }
        ghost var before := View();
        done := CompareExchangeWeak(l, turn.spurious);
        RunAppend(start, trace, CompareExchange(l, turn.spurious));
        trace := trace + [CompareExchange(l, turn.spurious)];
        if done {
          MineAppend(before.log, (l, counter), l);
        }
      }
      if lines[l].Adjust? {
        AddToDrop(l);
        RunAppend(start, trace, AdjustDrop(l));
        trace := trace + [AdjustDrop(l)];
      }
      FailuresAreAccounted(start, trace, l);
    }

    /** Only frames longer than a header are registered. */
    method AnalyzeFrameCounter(l: nat, data: seq<Byte>, turns: seq<Turn>)
      returns (r: Result<nat>, ghost trace: seq<Event>)
      requires l < |lines| && lines[l].Idle?
      modifies this
      ensures |data| <= 16 ==> r == Err("Deserialization: The size of the binary data is too small!")
      ensures |data| > 16 ==>
                var b: seq<int> := data; r == Ok(0x100_0000 * b[0] + 0x1_0000 * b[1] + 0x100 * b[2] + b[3])
      ensures Legal(old(View()), trace) && View() == Run(old(View()), trace)
      ensures |lines| == |old(lines)| && lines[l].Idle?
      ensures Mine(log, l) == old(Mine(log, l)) + (if r.Ok? then [r.value] else [])
    {
      if |data| <= HEADER_BYTES {
        trace := [];
        return Err(TOO_SMALL), trace;
      }
      var header := HeaderOf(data);
      trace := RegisterFrameCounter(l, header.frameCounter, turns);
      r := Ok(header.frameCounter);
    }
  }

  /** The counters that one line has committed. */
  function Mine(log: seq<(nat, nat)>, l: nat): seq<nat> {
    if log == [] then []
    else Mine(log[..|log| - 1], l) + (if log[|log| - 1].0 == l then [log[|log| - 1].1] else [])
  }

  lemma MineAppend(log: seq<(nat, nat)>, entry: (nat, nat), l: nat)
    ensures Mine(log + [entry], l) == Mine(log, l) + (if entry.0 == l then [entry.1] else [])
  {
    assert (log + [entry])[..|log + [entry]| - 1] == log;
  }
}
