// How a run ends: each stage counts once, and the outcome is a function of which stages
// have settled when the sequence ends.
module ShutdownOutcome {
  import opened StageTables
  import opened ShutdownProtocol

  // The stage a report names as failed, if any.
  function FailedStage(r: Report): seq<nat> {
    match r
    case FailureReport(i) => [i]
    case LateReport(i, _) => [i]
    case TimeoutReport(_) => []
  }

  // The stages reported as failed, in the order of the reports.
  function FailedStages(reports: seq<Report>): seq<nat> {
    if reports == [] then []
    else FailedStages(reports[..|reports| - 1]) + FailedStage(reports[|reports| - 1])
  }

  predicate NoDuplicates(xs: seq<nat>) {
    forall i, j | 0 <= i < j < |xs| :: xs[i] != xs[j]
  }

  ghost predicate Failed(s: Run, i: nat) {
    i < |s.work| && Observed(s, i) && s.work[i] == Rejected
  }

  function StagesOf(failures: seq<Failure>): (r: seq<nat>)
    requires forall f | f in failures :: f.StageFailed?
    ensures |r| == |failures| && forall k | 0 <= k < |r| :: r[k] == failures[k].stage
  {
    if failures == [] then []
    else StagesOf(failures[..|failures| - 1]) + [failures[|failures| - 1].stage]
  }

  // Every observed rejection is reported once, and counted once while the run can say so.
  ghost predicate FailInv(s: Run) {
    && NoDuplicates(FailedStages(s.reports))
    && (forall i: nat :: i in FailedStages(s.reports) <==> Failed(s, i))
    && (!s.phase.Ended? ==>
          && (forall f | f in s.failures :: f.StageFailed?)
          && StagesOf(s.failures) == FailedStages(s.reports))
  }

  lemma ReportAppended(reports: seq<Report>, r: Report)
    ensures FailedStages(reports + [r]) == FailedStages(reports) + FailedStage(r)
  {
    assert (reports + [r])[..|reports|] == reports;
  }

  lemma FailInvQuiet(s: Run, s': Run)
    requires FailInv(s) && FailedStages(s'.reports) == FailedStages(s.reports)
    requires s'.phase.Ended? || (!s.phase.Ended? && s'.failures == s.failures)
    requires forall i: nat :: Failed(s', i) <==> Failed(s, i)
    ensures FailInv(s')
  {}

  lemma FailInvOneMore(s: Run, s': Run, i: nat, late: bool)
    requires FailInv(s) && !Failed(s, i) && |s'.work| == |s.work|
    requires s'.reports == s.reports + [if late then LateReport(i, s.phase.Ended?) else FailureReport(i)]
    requires s'.phase.Ended? <==> s.phase.Ended?
    requires !s.phase.Ended? ==> s'.failures == s.failures + [StageFailed(i, late)]
    requires forall k: nat :: Failed(s', k) <==> Failed(s, k) || k == i
    ensures FailInv(s')
  {
    ReportAppended(s.reports, if late then LateReport(i, s.phase.Ended?) else FailureReport(i));
    assert FailedStages(s'.reports) == FailedStages(s.reports) + [i];
    if !s.phase.Ended? {
      assert StagesOf(s'.failures) == StagesOf(s.failures) + [i];
    }
  }

  lemma FailInvAbandon(s: Run, s': Run, i: nat)
    requires FailInv(s) && s'.reports == s.reports + [TimeoutReport(i)] && s'.failures == s.failures
    requires !s.phase.Ended? && !s'.phase.Ended?
    requires forall k: nat :: Failed(s', k) <==> Failed(s, k)
    ensures FailInv(s')
  {
    ReportAppended(s.reports, TimeoutReport(i));
    assert FailedStages(s'.reports) == FailedStages(s.reports);
    FailInvQuiet(s, s');
  }

  lemma FailInvResume(p: Plan, s: Run, s': Run)
    requires LoopInv(p, s) && FailInv(s) && s.phase.Awaiting? && s.phase.race != Undecided && ResumedBy(s, s')
    ensures FailInv(s')
  {
    FailedAfterResume(p, s, s');
    FailInvResumed(s, s', s.started - 1);
  }

  lemma FailInvResumed(s: Run, s': Run, i: nat)
    requires FailInv(s) && s.phase.Awaiting? && 0 < s.started <= |s.work| && i == s.started - 1
    requires ResumedBy(s, s') && !Failed(s, i) && (s.phase.race == WorkWon || s.phase.race == TimerWon)
    requires forall k: nat :: Failed(s', k) <==>
               Failed(s, k) || (k == i && s.phase.race == WorkWon && s.work[i] == Rejected)
    ensures FailInv(s')
  {
    if s.phase.race == TimerWon {
      assert s'.reports == s.reports + [TimeoutReport(i)];
      FailInvAbandon(s, s', i);
    } else if s.work[i] == Rejected {
      assert s'.reports == s.reports + [FailureReport(i)];
      FailInvOneMore(s, s', i, false);
    } else {
      assert s'.reports == s.reports;
      FailInvQuiet(s, s');
    }
  }

  lemma FailedAfterResume(p: Plan, s: Run, s': Run)
    requires LoopInv(p, s) && s.phase.Awaiting? && s.phase.race != Undecided && ResumedBy(s, s')
    ensures forall k: nat :: Failed(s', k) <==>
              Failed(s, k) || (k == s.started - 1 && s.phase.race == WorkWon && s.work[k] == Rejected)
    ensures !Failed(s, s.started - 1)
  {
    assert Passed(s) == s.started - 1 && Passed(s') == s.started;
    assert forall k: nat :: Observed(s', k) <==> Observed(s, k) || (k == s.started - 1 && s.phase.race == WorkWon);
  }

  lemma FailInvLate(p: Plan, s: Run, i: nat)
    requires LoopInv(p, s) && FailInv(s) && Enabled(p, s, LateOutcome(i))
    ensures FailInv(ObserveLate(s, i))
  {
    var s' := ObserveLate(s, i);
    assert Passed(s') == Passed(s) && s'.work == s.work && s'.unsettled == s.unsettled - {i};
    forall k: nat
      ensures Failed(s', k) <==> Failed(s, k) || (k == i && s.work[i] == Rejected)
    {
      assert Observed(s', k) <==> Observed(s, k) || k == i;
    }
    assert s'.phase == s.phase;
    if s.work[i] == Rejected {
      assert s'.reports == s.reports + [LateReport(i, s.phase.Ended?)];
      FailInvOneMore(s, s', i, true);
    } else {
      FailInvQuiet(s, s');
    }
  }

  lemma FailInvWork(p: Plan, s: Run, i: nat, ok: bool)
    requires LoopInv(p, s) && FailInv(s) && Enabled(p, s, WorkSettles(i, ok))
    ensures FailInv(SettleWork(s, i, ok))
  {
    var s' := SettleWork(s, i, ok);
    assert Passed(s') == Passed(s) && s'.unsettled == s.unsettled;
    assert !Observed(s, i);
    FailInvQuiet(s, s');
  }

  lemma FailInvStart(p: Plan, s: Run, s': Run)
    requires LoopInv(p, s) && FailInv(s) && s.phase.Between? && s.started < |p.stages| && StartedBy(p, s, s')
    ensures FailInv(s')
  {
    assert Passed(s') == Passed(s) == s.started;
    assert forall k: nat :: Observed(s', k) <==> Observed(s, k);
    FailInvQuiet(s, s');
  }

  lemma FailInvTail(s: Run, s': Run)
    requires FailInv(s) && SameLoop(s, s')
    ensures FailInv(s')
  {
    assert forall k: nat :: Failed(s', k) <==> Failed(s, k);
    FailInvQuiet(s, s');
  }

  // The clock, a timer and the end change no report and no work.
  lemma FailInvOther(p: Plan, s: Run, e: Event)
    requires FailInv(s) && Enabled(p, s, e) && (e.Tick? || e.TimerFires? || e.SequenceEnds?)
    ensures FailInv(Apply(p, s, e))
  {
    var s' := Apply(p, s, e);
    assert s'.reports == s.reports && s'.work == s.work && s'.unsettled == s.unsettled && Passed(s') == Passed(s);
    hide Apply;
    hide FailedStages;
    assert forall k: nat :: Failed(s', k) <==> Failed(s, k);
    FailInvQuiet(s, s');
  }

  lemma FailInvStep(p: Plan, s: Run, e: Event)
    requires LoopInv(p, s) && FailInv(s) && Enabled(p, s, e)
    ensures FailInv(Apply(p, s, e))
  {
    hide LoopInv;
    hide FailInv;
    hide StartStage;
    hide SettleWork;
    hide Resume;
    hide ObserveLate;
    hide End;
    hide AfterLateWait;
    hide CloseUnlessStillWriting;
    match e {
      case WorkSettles(i, ok) => FailInvWork(p, s, i, ok);
      case RunnerResumes =>
        ResumeEffects(p, s);
        FailInvResume(p, s, Resume(p, s));
      case LateOutcome(i) => FailInvLate(p, s, i);
      case StageStarts(keepOpen) =>
        StartEffects(p, s, keepOpen);
        FailInvStart(p, s, StartStage(p, s, keepOpen));
      case Tick(_) => FailInvOther(p, s, e);
      case TimerFires => FailInvOther(p, s, e);
      case SequenceEnds => FailInvOther(p, s, e);
      case _ =>
        TailEffects(p, s, e);
        hide Apply;
        FailInvTail(s, Apply(p, s, e));
    }
  }

  lemma {:induction false} FailInvAlways(p: Plan, es: seq<Event>)
    ensures LoopInv(p, After(p, es)) && FailInv(After(p, es))
  {
    LoopInvAlways(p, es);
    if es != [] {
      FailInvAlways(p, es[..|es| - 1]);
      if Enabled(p, After(p, es[..|es| - 1]), es[|es| - 1]) {
        FailInvStep(p, After(p, es[..|es| - 1]), es[|es| - 1]);
      }
    }
  }

  // ----- main results -----

  ghost function RejectedInTime(s: Run): set<nat> {
    set i: nat | i < |s.work| && Failed(s, i)
  }

  lemma {:induction false} DistinctCount(xs: seq<nat>, members: set<nat>)
    requires NoDuplicates(xs) && forall i: nat :: i in xs <==> i in members
    ensures |xs| == |members|
  {
    if xs == [] {
      assert members == {};
    } else {
      var last := xs[|xs| - 1];
      var rest := xs[..|xs| - 1];
      assert xs == rest + [last];
      DistinctCount(rest, members - {last});
    }
  }

  // What the run says when it ends, from what has been observed at that instant.
  ghost predicate OutcomeMatches(s: Run, outcome: Outcome) {
    && (outcome.Resolved? <==> forall i | 0 <= i < |s.work| :: i !in s.unsettled && s.work[i] == Fulfilled)
    && (outcome.RejectedWith? ==>
          && |outcome.errors| == |RejectedInTime(s)| + (if s.unsettled == {} then 0 else 1)
          && (forall i: nat :: i in RejectedInTime(s) <==> Names(outcome.errors, i))
          && (s.unsettled != {} ==> StillRunning(s.unsettled) in outcome.errors))
  }

  // Some error is that stage's failure.
  predicate Names(errors: seq<Failure>, i: nat) {
    exists k :: 0 <= k < |errors| && errors[k].StageFailed? && errors[k].stage == i
  }

  lemma NamesStages(failures: seq<Failure>, unsettled: set<nat>, i: nat)
    requires forall f | f in failures :: f.StageFailed?
    ensures Names(failures, i) <==> i in StagesOf(failures)
    ensures Names(failures + [StillRunning(unsettled)], i) <==> Names(failures, i)
  {
    var stages, more := StagesOf(failures), failures + [StillRunning(unsettled)];
    if k :| 0 <= k < |stages| && stages[k] == i {
      assert failures[k] in failures && more[k] == failures[k];
    }
    if k :| 0 <= k < |more| && more[k].StageFailed? && more[k].stage == i {
      assert stages[k] == i;
    }
  }

  lemma EndOutcome(p: Plan, s: Run)
    requires LoopInv(p, s) && FailInv(s) && Enabled(p, s, SequenceEnds)
    ensures OutcomeMatches(s, End(s).phase.outcome)
  {
    DistinctCount(FailedStages(s.reports), RejectedInTime(s));
    assert |s.failures| == |StagesOf(s.failures)| == |RejectedInTime(s)|;
    forall i: nat ensures i in RejectedInTime(s) <==> Names(End(s).failures, i) {
      NamesStages(s.failures, s.unsettled, i);
    }
    var outcome := End(s).phase.outcome;
    if outcome.Resolved? {
      forall i | 0 <= i < |s.work| ensures i !in s.unsettled && s.work[i] == Fulfilled {
        assert i < Passed(s) && IsSettled(s.work[i]);
        assert i !in RejectedInTime(s);
      }
    } else if s.unsettled == {} {
      assert RejectedInTime(s) != {};
      var i :| i in RejectedInTime(s);
      assert s.work[i] == Rejected;
    } else {
      var i :| i in s.unsettled;
      assert i < |s.work|;
    }
  }

  lemma EndsOnlyOnce(p: Plan, s: Run, e: Event)
    requires LoopInv(p, s) && FailInv(s) && Then(p, s, e).phase.Ended?
    ensures s.phase.Ended? ==> Then(p, s, e).phase == s.phase && Then(p, s, e).failures == s.failures
    ensures !s.phase.Ended? ==> e == SequenceEnds && Enabled(p, s, e)
                                && OutcomeMatches(s, Then(p, s, e).phase.outcome)
  {
    hide StartStage;
    hide SettleWork;
    hide Resume;
    hide ObserveLate;
    hide End;
    hide AfterLateWait;
    hide CloseUnlessStillWriting;
    hide LoopInv;
    hide FailInv;
    hide OutcomeMatches;
    if Enabled(p, s, e) {
      PhaseEffects(p, s, e);
      if !s.phase.Ended? {
        EndOutcome(p, s);
      }
    }
  }

  ghost predicate EndedAt(p: Plan, es: seq<Event>, k: nat, outcome: Outcome) {
    && k < |es| && es[k] == SequenceEnds && Enabled(p, After(p, es[..k]), SequenceEnds)
    && OutcomeMatches(After(p, es[..k]), outcome)
  }

  // In every interleaving, a run that is over ended at one point of its schedule; its
  // outcome is the one that point's stages call for, and nothing after it changes it.
  lemma {:induction false} RunOutcome(p: Plan, es: seq<Event>)
    requires After(p, es).phase.Ended?
    ensures exists k: nat :: EndedAt(p, es, k, After(p, es).phase.outcome)
  {
    if es == [] {
      assert false;
    } else {
      var before := es[..|es| - 1];
      FailInvAlways(p, before);
      EndsOnlyOnce(p, After(p, before), es[|es| - 1]);
      if After(p, before).phase.Ended? {
        RunOutcome(p, before);
        var k: nat :| EndedAt(p, before, k, After(p, before).phase.outcome);
        assert es[..k] == before[..k];
        assert EndedAt(p, es, k, After(p, es).phase.outcome);
      } else {
        assert EndedAt(p, es, |es| - 1, After(p, es).phase.outcome);
      }
    }
  }

  // A rejection is never lost: once observed, at once or late, before the end or after it,
  // the stage appears among the failure reports exactly once.
  lemma EveryRejectionReportedOnce(p: Plan, es: seq<Event>, i: nat)
    requires i < |p.stages|
    ensures var s := After(p, es);
            |s.work| == |p.stages| &&
            (Observed(s, i) && s.work[i] == Rejected <==> i in FailedStages(s.reports))
    ensures NoDuplicates(FailedStages(After(p, es).reports))
  {
    FailInvAlways(p, es);
  }
}
