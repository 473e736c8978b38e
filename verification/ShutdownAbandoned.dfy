// What the map of abandoned work holds.
module ShutdownAbandoned {
  import opened Options
  import opened StageTables
  import opened ShutdownProtocol

  predicate TimedOut(s: Run, i: nat) {
    TimeoutReport(i) in s.reports
  }

  // A stage is abandoned once at most, and the map of abandoned work lies between the
  // abandoned stages in flight and all the abandoned ones: what is in it besides the former
  // has settled and is about to be observed.
  ghost predicate AbandonInv(s: Run) {
    && (forall i: nat | i in s.unsettled :: TimedOut(s, i))
    && (forall i: nat | TimedOut(s, i) :: i < Passed(s) <= |s.work| && (s.work[i] == Busy ==> i in s.unsettled))
    && (forall i: nat | i < Passed(s) <= |s.work| && !TimedOut(s, i) :: IsSettled(s.work[i]))
    && (forall a, b | 0 <= a < b < |s.reports| && s.reports[a].TimeoutReport? :: s.reports[a] != s.reports[b])
  }

  lemma AbandonInvResume(p: Plan, s: Run, s': Run)
    requires LoopInv(p, s) && s.phase.Awaiting? && s.phase.race != Undecided && ResumedBy(s, s')
    requires AbandonInv(s)
    ensures AbandonInv(s')
  {
    LoopInvResume(p, s, s');
    assert Passed(s') == Passed(s) + 1 && !TimedOut(s, Passed(s));
    var i := Passed(s);
    assert s.unsettled <= s'.unsettled && s'.work == s.work;
    assert s.phase.race == TimerWon ==> i in s'.unsettled;
    forall j: nat ensures TimedOut(s', j) <==> TimedOut(s, j) || (s.phase.race == TimerWon && j == i) {
      if s.phase.race == TimerWon {
        assert s'.reports == s.reports + [TimeoutReport(i)];
      }
    }
  }

  // Most events touch neither the map nor the reports, and work only settles.
  lemma AbandonInvQuiet(s: Run, s': Run)
    requires AbandonInv(s) && Passed(s') == Passed(s) && |s'.work| == |s.work|
    requires s'.reports == s.reports && s'.unsettled == s.unsettled
    requires forall i | 0 <= i < Passed(s) && i < |s.work| :: s'.work[i] == s.work[i] || IsSettled(s'.work[i])
    ensures AbandonInv(s')
  {
    assert forall i: nat :: TimedOut(s', i) == TimedOut(s, i);
  }

  // A late outcome takes its settled stage out of the map and reports no timeout.
  lemma AbandonInvLate(p: Plan, s: Run, i: nat)
    requires AbandonInv(s) && Enabled(p, s, LateOutcome(i))
    ensures AbandonInv(ObserveLate(s, i))
  {
    var s' := ObserveLate(s, i);
    assert s'.unsettled == s.unsettled - {i} && s'.work == s.work && Passed(s') == Passed(s);
    assert s'.reports == s.reports || s'.reports == s.reports + [LateReport(i, s.phase.Ended?)];
    hide ObserveLate;
    assert forall j: nat :: TimedOut(s', j) == TimedOut(s, j);
    hide TimedOut;
  }

  // The clock, a timer, the end and the tail.
  lemma AbandonInvOther(p: Plan, s: Run, e: Event)
    requires AbandonInv(s) && Enabled(p, s, e) && (e.Tick? || e.TimerFires? || e.SequenceEnds? || TailEvent(e))
    ensures AbandonInv(Apply(p, s, e))
  {
    hide AbandonInv;
    hide AfterLateWait;
    hide CloseUnlessStillWriting;
    TailEffects(p, s, e);
    AbandonInvQuiet(s, Apply(p, s, e));
  }

  lemma AbandonInvStep(p: Plan, s: Run, e: Event)
    requires LoopInv(p, s) && AbandonInv(s) && Enabled(p, s, e)
    ensures AbandonInv(Apply(p, s, e))
  {
    hide AbandonInv;
    hide StartStage;
    hide Resume;
    hide ObserveLate;
    hide AfterLateWait;
    hide CloseUnlessStillWriting;
    match e {
      case StageStarts(keepOpen) =>
        StartEffects(p, s, keepOpen);
        AbandonInvQuiet(s, StartStage(p, s, keepOpen));
      case RunnerResumes =>
        ResumeEffects(p, s);
        hide LoopInv;
        AbandonInvResume(p, s, Resume(p, s));
      case LateOutcome(i) => AbandonInvLate(p, s, i);
      case WorkSettles(i, ok) => AbandonInvQuiet(s, SettleWork(s, i, ok));
      case _ => AbandonInvOther(p, s, e);
    }
  }

  lemma {:induction false} AbandonInvAlways(p: Plan, es: seq<Event>)
    ensures AbandonInv(After(p, es))
  {
    if es != [] {
      LoopInvAlways(p, es[..|es| - 1]);
      AbandonInvAlways(p, es[..|es| - 1]);
      if Enabled(p, After(p, es[..|es| - 1]), es[|es| - 1]) {
        AbandonInvStep(p, After(p, es[..|es| - 1]), es[|es| - 1]);
      }
    }
  }
}
