// The rolling budget: what one table of budgets promises every stage and the whole run.
module ShutdownTiming {
  import opened Options
  import opened StageTables
  import opened ShutdownProtocol

  // Every stage has a deadline and the timer slop fits inside the smallest budget.
  predicate FullyBudgeted(p: Plan) {
    p.timed && forall i | 0 <= i < |p.stages| ::
      p.stages[i].budgetMs.Some? && p.slopMs <= p.stages[i].budgetMs.value
  }

  ghost predicate TimeInv(p: Plan, s: Run) {
    && s.started <= |p.stages| && p.startedAtMs <= s.nowMs
    && s.budgetedMs == BudgetSum(p.stages, s.started)
    && (!s.phase.Ended? ==>
          && s.wakeMs == Some(p.startedAtMs + s.budgetedMs)
          && s.nowMs <= p.startedAtMs + s.budgetedMs + p.slopMs)
  }

  lemma TimeInvStart(p: Plan, s: Run, keepOpen: bool)
    requires FullyBudgeted(p) && LoopInv(p, s) && TimeInv(p, s) && Enabled(p, s, StageStarts(keepOpen))
    ensures TimeInv(p, StartStage(p, s, keepOpen))
  {
    hide SeenWriters;
    hide SeenUnsettled;
    hide LoopInv;
    var s' := StartStage(p, s, keepOpen);
    assert s'.started == s.started + 1 && s'.nowMs == s.nowMs && !s'.phase.Ended?;
    assert s'.budgetedMs == s.budgetedMs + p.stages[s.started].budgetMs.value;
    assert s'.wakeMs == Some(p.startedAtMs + s'.budgetedMs);
    hide StartStage;
    assert BudgetSum(p.stages, s.started + 1) == s'.budgetedMs;
  }

  lemma TimeInvStep(p: Plan, s: Run, e: Event)
    requires FullyBudgeted(p) && LoopInv(p, s) && TimeInv(p, s) && Enabled(p, s, e)
    ensures TimeInv(p, Apply(p, s, e))
  {
    hide LoopInv;
    hide BudgetSum;
    hide FullyBudgeted;
    hide StartStage;
    match e {
      case StageStarts(keepOpen) => TimeInvStart(p, s, keepOpen);
      case _ =>
        PhaseEffects(p, s, e);
        ClockEffects(p, s, e);
        hide Apply;
    }
  }

  lemma {:induction false} TimeInvAlways(p: Plan, es: seq<Event>)
    requires FullyBudgeted(p)
    ensures LoopInv(p, After(p, es)) && TimeInv(p, After(p, es))
  {
    LoopInvAlways(p, es);
    if es != [] {
      TimeInvAlways(p, es[..|es| - 1]);
      if Enabled(p, After(p, es[..|es| - 1]), es[|es| - 1]) {
        TimeInvStep(p, After(p, es[..|es| - 1]), es[|es| - 1]);
      }
    }
  }

  lemma RollForwardStep(p: Plan, s: Run, keepOpen: bool)
    requires FullyBudgeted(p) && LoopInv(p, s) && TimeInv(p, s) && Enabled(p, s, StageStarts(keepOpen))
    ensures s.nowMs <= p.startedAtMs + BudgetSum(p.stages, s.started) + p.slopMs
    ensures DeadlineMs(p, StartStage(p, s, keepOpen)) == p.startedAtMs + BudgetSum(p.stages, s.started + 1)
    ensures DeadlineMs(p, StartStage(p, s, keepOpen)) - s.nowMs >= p.stages[s.started].budgetMs.value - p.slopMs
  {
    assert StartStage(p, s, keepOpen).budgetedMs == s.budgetedMs + p.stages[s.started].budgetMs.value;
    assert BudgetSum(p.stages, s.started + 1) == BudgetSum(p.stages, s.started) + BudgetOf(p.stages[s.started]);
  }

  // Roll-forward: a stage never starts later than the earlier budgets and one slop allow,
  // so the time it is offered is never less than its own budget less that slop; and the
  // overshoot does not add up over the stages.
  lemma RollForward(p: Plan, es: seq<Event>, keepOpen: bool)
    requires FullyBudgeted(p) && Enabled(p, After(p, es), StageStarts(keepOpen))
    ensures var s := After(p, es);
            && s.nowMs <= p.startedAtMs + BudgetSum(p.stages, s.started) + p.slopMs
            && DeadlineMs(p, StartStage(p, s, keepOpen)) == p.startedAtMs + BudgetSum(p.stages, s.started + 1)
            && DeadlineMs(p, StartStage(p, s, keepOpen)) - s.nowMs >= p.stages[s.started].budgetMs.value - p.slopMs
  {
    hide After;
    hide LoopInv;
    hide TimeInv;
    hide StartStage;
    TimeInvAlways(p, es);
    RollForwardStep(p, After(p, es), keepOpen);
  }

  // A run that is not over has not used up the sum of its table and one slop.
  lemma RunsWithinTotal(p: Plan, es: seq<Event>)
    requires FullyBudgeted(p) && !After(p, es).phase.Ended?
    ensures After(p, es).nowMs <= p.startedAtMs + BudgetSum(p.stages, |p.stages|) + p.slopMs
  {
    TimeInvAlways(p, es);
    BudgetSumMonotone(p.stages, After(p, es).started, |p.stages|);
  }

  // The loop's next event, and the time it is for.
  lemma NextLoopEvent(p: Plan, s: Run) returns (t: nat, e: Event)
    requires FullyBudgeted(p) && LoopInv(p, s) && TimeInv(p, s) && !s.phase.Ended?
    ensures IsLoopEvent(e) && Enabled(p, s, Tick(t)) && Enabled(p, Apply(p, s, Tick(t)), e)
    ensures t == s.nowMs || t == s.wakeMs.value
  {
    t := s.nowMs;
    if s.phase.Between? {
      e := if s.started == |p.stages| then SequenceEnds else StageStarts(false);
    } else if s.phase.race != Undecided {
      e := RunnerResumes;
    } else {
      t, e := Max(s.nowMs, s.wakeMs.value), TimerFires;
    }
  }

  predicate IsLoopEvent(e: Event) {
    e.StageStarts? || e.TimerFires? || e.RunnerResumes? || e.SequenceEnds?
  }

  // The loop is never stuck, whatever its stages do: an event of the loop is enabled at once,
  // or becomes enabled when the clock reaches the current deadline, and the clock may.
  lemma NeverStuck(p: Plan, es: seq<Event>)
    requires FullyBudgeted(p) && !After(p, es).phase.Ended?
    ensures exists t: nat, e ::
              && IsLoopEvent(e) && Enabled(p, After(p, es), Tick(t))
              && Enabled(p, Apply(p, After(p, es), Tick(t)), e)
  {
    TimeInvAlways(p, es);
    var t, e := NextLoopEvent(p, After(p, es));
  }

  // What is left of the loop: three events a stage, and the end.
  function LoopMeasure(p: Plan, s: Run): int {
    3 * (|p.stages| - s.started) + match s.phase
                                   case Between => 1
                                   case Awaiting(Undecided) => 3
                                   case Awaiting(_) => 2
                                   case Ended(_) => 0
  }

  lemma LoopProgress(p: Plan, s: Run, e: Event)
    requires LoopInv(p, s) && Enabled(p, s, e)
    ensures 0 <= LoopMeasure(p, Apply(p, s, e)) <= LoopMeasure(p, s)
    ensures IsLoopEvent(e) ==> LoopMeasure(p, Apply(p, s, e)) < LoopMeasure(p, s)
  {
    LoopInvStep(p, s, e);
    PhaseEffects(p, s, e);
    hide Apply;
    hide Enabled;
  }
}
