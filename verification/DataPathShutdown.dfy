/** Shutdown comes to an end after finitely many steps of the lines, whatever their order. */
module DataPathShutdown {
  import opened Seqs
  import opened DataPath
  import opened DataPathInvariant
  import opened DataPathTheorems

  predicate IsLineEvent(e: Event) {
    e.PushTrash? || e.TakeValid? || e.Classify?
  }

  /** How far a line is from stopping, within one turn. */
  function Weight(x: Line): int {
    match x.pc
    case Taken(_, _) => 3
    case Processing(_) => 2
    case Waiting(_) => 1
    case Stopped(_) => 0
  }

  function Measure(s: State): int {
    3 * |s.valid| + Sum(Weight, s.lines)
  }

  lemma MeasureIsNatural(s: State)
    ensures Measure(s) >= 0
  {
    SumNonNegative(Weight, s.lines);
  }

  /** Every step of a line brings the end nearer; only a frame that arrives could put it off. */
  lemma LineStepsDescend(cfg: Config, s: State, e: Event)
    requires Enabled(cfg, s, e) && IsLineEvent(e)
    ensures Measure(Next(cfg, s, e)) < Measure(s)
  {
    SumUpdate(Weight, s.lines, e.l, Next(cfg, s, e).lines[e.l]);
  }

  lemma {:induction false} LineRunsAreShort(cfg: Config, s: State, es: seq<Event>)
    requires Legal(cfg, s, es) && forall i :: 0 <= i < |es| ==> IsLineEvent(es[i])
    ensures |es| <= Measure(s)
    ensures Run(cfg, s, es).stops == s.stops
    decreases |es|
  {
    if es == [] {
      MeasureIsNatural(s);
    } else {
      LineStepsDescend(cfg, s, es[0]);
      LineRunsAreShort(cfg, Next(cfg, s, es[0]), es[1..]);
    }
  }

  /** A line that has not stopped always has a step to make. */
  lemma RunningLineCanGoOn(cfg: Config, s: State, l: nat)
    requires WellFormed(cfg) && Reachable(cfg, s) && Emptied(s)
    requires l < |s.lines| && !s.lines[l].pc.Stopped?
    ensures exists e :: IsLineEvent(e) && e.l == l && Enabled(cfg, s, e)
  {
    match s.lines[l].pc {
      case Processing(_) =>
        assert Enabled(cfg, s, PushTrash(l, false)) && IsLineEvent(PushTrash(l, false));
      case Waiting(_) =>
        WaitingLineCanGoOn(cfg, s, l);
        assert IsLineEvent(TakeValid(l, 0));
      case Taken(_, _) =>
        assert Enabled(cfg, s, Classify(l)) && IsLineEvent(Classify(l));
    }
  }

  /** From any reachable state with the pills pushed, however the lines take turns: they make at most
      `Measure` steps, and when none of them can make another one, all have stopped and no pill is left. */
  lemma ShutdownEnds(cfg: Config, s: State, es: seq<Event>)
    requires WellFormed(cfg) && Reachable(cfg, s) && Emptied(s)
    requires Legal(cfg, s, es) && forall i :: 0 <= i < |es| ==> IsLineEvent(es[i])
    ensures |es| <= Measure(s)
    ensures var s' := Run(cfg, s, es);
            (forall e :: IsLineEvent(e) ==> !Enabled(cfg, s', e)) ==>
              && (forall l :: 0 <= l < |s'.lines| ==> s'.lines[l].pc.Stopped?)
              && Sum(IsPill, s'.valid) == 0
  {
    var s' := Run(cfg, s, es);
    LineRunsAreShort(cfg, s, es);
    ReachableRun(cfg, s, es);
    assert Emptied(s');
    if forall e :: IsLineEvent(e) ==> !Enabled(cfg, s', e) {
      forall l | 0 <= l < |s'.lines|
        ensures s'.lines[l].pc.Stopped?
      {
        if !s'.lines[l].pc.Stopped? {
          RunningLineCanGoOn(cfg, s', l);
        }
      }
      NoPillLeft(cfg, s');
    }
  }
}
