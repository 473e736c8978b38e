// The runner's own variables, updated in place: one method for what the loop, its callbacks
// and the database tail do between two awaits, and the run of a whole schedule through them.
module ShutdownRunner {
  import opened Options
  import opened StageTables
  import opened ShutdownProtocol
  import opened ShutdownSafety
  import opened ShutdownOutcome
  import opened ShutdownLateClose
  import opened ShutdownCloseIff

  class Runner {
    const plan: Plan
    var nowMs: nat
    var phase: Phase
    var started: nat
    var work: seq<Work>
    var budgetedMs: nat
    var wakeMs: Option<nat>
    var failures: seq<Failure>
    var unsettled: set<nat>
    var reports: seq<Report>
    var closeDeferred: bool
    var checks: seq<Check>
    var tail: Tail

    function View(): Run
      reads this
    {
      Run(nowMs, phase, started, work, budgetedMs, wakeMs, failures, unsettled, reports, closeDeferred, checks, tail)
    }

    // What every step keeps.
    ghost predicate Valid()
      reads this
    {
      LoopInv(plan, View()) && FailInv(View()) && (OneTail(plan) ==> TailInv(plan, View()))
    }

    constructor (p: Plan)
      ensures plan == p && View() == Init(p) && Valid()
    {
      plan := p;
      nowMs, phase, started := p.startedAtMs, Between, 0;
      work := seq(|p.stages|, _ => Unstarted);
      budgetedMs, wakeMs := 0, Some(p.startedAtMs);
      failures, unsettled, reports := [], {}, [];
      closeDeferred, checks, tail := false, [], TailIdle;
      new;
      LoopInvInit(p);
      if OneTail(p) {
        TailInvAlways(p, []);
      }
    }

    // The deadline rolls forward, the race is set up and the body is called.
    method LaunchStage()
      requires started < |plan.stages| == |work|
      modifies this
      ensures View() == Launch(plan, old(View()))
    {
      var stage := plan.stages[started];
      if plan.timed && stage.budgetMs.Some? {
        budgetedMs := budgetedMs + stage.budgetMs.value;
        var allowedMs := Max(0, plan.startedAtMs + budgetedMs - nowMs);
        wakeMs := Some(nowMs + allowedMs);
      } else {
        wakeMs := None;
      }
      phase, started, work := Awaiting(Undecided), started + 1, work[started := Busy];
    }

    method StartNextStage(keepOpen: bool)
      requires Enabled(plan, View(), StageStarts(keepOpen))
      modifies this
      ensures View() == Apply(plan, old(View()), StageStarts(keepOpen))
    {
      hide Launch;
      hide CloseUnlessStillWriting;
      hide BeginLateSettle;
      var i := started;
      LaunchStage();
      match plan.stages[i].role {
        case Cleanup =>
        case CloseDatabase =>
          if plan.direct {
            CloseIfNobodyWrites(i, keepOpen);
          }
        case LateSettle =>
          BeginSettlingLate(i);
      }
    }

    method UnsettledStages(i: nat) returns (names: set<nat>)
      requires i < |plan.stages|
      ensures names == SeenUnsettled(plan, View(), i)
    {
      names := if plan.timed && plan.stages[i].budgetMs.Some? then unsettled else {};
    }

    method UnsettledDatabaseWriters(i: nat) returns (writers: set<nat>)
      requires i < |plan.stages|
      ensures writers == SeenWriters(plan, View(), i)
    {
      var names := UnsettledStages(i);
      writers := set j | j in names && j < |plan.stages| && plan.stages[j].mayWriteDatabase;
    }

    method CloseIfNobodyWrites(i: nat, keepOpen: bool)
      requires i < |plan.stages|
      modifies this`closeDeferred, this`checks
      ensures View() == CloseUnlessStillWriting(plan, old(View()), i, keepOpen)
    {
      closeDeferred := false;
      if keepOpen {
        checks := checks + [Check(i, KeptOpen)];
        return;
      }
      var stillWriting := UnsettledDatabaseWriters(i);
      if stillWriting != {} {
        closeDeferred := true;
        checks := checks + [Check(i, Deferred)];
        return;
      }
      checks := checks + [Check(i, Closed)];
    }

    method BeginSettlingLate(i: nat)
      requires i < |plan.stages|
      modifies this`tail
      ensures View() == BeginLateSettle(plan, old(View()), i)
    {
      var stragglers := UnsettledStages(i);
      if stragglers == {} && !closeDeferred {
        tail := TailDone(NothingOwed);
        return;
      }
      var allowanceMs := if closeDeferred then DEFERRED_DATABASE_CLOSE_ALLOWANCE_MS else 0;
      var remainingMs := Max(0, plan.startedAtMs + budgetedMs - nowMs);
      tail := TailWaiting(stragglers, nowMs + Max(0, InnerBound(remainingMs) - allowanceMs));
    }

    // After the late settle's bounded wait, for whichever reason it ended.
    method FinishLateWait(l: nat)
      requires Enabled(plan, View(), LateWaitEnds(l))
      modifies this`tail
      ensures View() == Apply(plan, old(View()), LateWaitEnds(l))
    {
      var stillWriting := UnsettledDatabaseWriters(l);
      if !closeDeferred {
        tail := TailDone(NothingOwed);
      } else if stillWriting != {} {
        tail := TailDone(WritersRemain);
      } else {
        tail := TailDraining;
      }
    }

    // After the drain of what the stragglers queued: look again, and close.
    method FinishDrain(l: nat, ok: bool, keepOpen: bool)
      requires Enabled(plan, View(), DrainEnds(l, ok, keepOpen))
      modifies this`tail, this`closeDeferred, this`checks
      ensures View() == Apply(plan, old(View()), DrainEnds(l, ok, keepOpen))
    {
      if ok {
        CloseIfNobodyWrites(l, keepOpen);
        tail := TailDone(Rechecked);
      } else {
        tail := TailDone(DrainFailed);
      }
    }

    // A stage body's promise settles; the race of the current stage hears it first.
    method SettleBody(i: nat, ok: bool)
      requires Enabled(plan, View(), WorkSettles(i, ok))
      modifies this`work, this`phase
      ensures View() == Apply(plan, old(View()), WorkSettles(i, ok))
    {
      if phase == Awaiting(Undecided) && i + 1 == started {
        phase := Awaiting(WorkWon);
      }
      work := work[i := if ok then Fulfilled else Rejected];
    }

    // The loop wakes up from a race: done, failed, or abandoned.
    method ResumeAfterRace()
      requires Enabled(plan, View(), RunnerResumes)
      modifies this`phase, this`wakeMs, this`unsettled, this`failures, this`reports
      ensures View() == Apply(plan, old(View()), RunnerResumes)
    {
      var i := started - 1;
      if phase.race == TimerWon {
        unsettled := unsettled + {i};
        reports := reports + [TimeoutReport(i)];
      } else if work[i] == Rejected {
        failures := failures + [StageFailed(i, false)];
        reports := reports + [FailureReport(i)];
      }
      if wakeMs.None? {
        wakeMs := Some(nowMs);
      }
      phase := Between;
    }

    // The handler on an abandoned stage's promise runs.
    method ObserveAbandoned(i: nat)
      requires Enabled(plan, View(), LateOutcome(i))
      modifies this`unsettled, this`failures, this`reports
      ensures View() == Apply(plan, old(View()), LateOutcome(i))
    {
      unsettled := unsettled - {i};
      if work[i] == Rejected {
        if !phase.Ended? {
          failures := failures + [StageFailed(i, true)];
        }
        reports := reports + [LateReport(i, phase.Ended?)];
      }
    }

    // The loop is done: what it throws or returns is decided here.
    method EndSequence()
      requires Valid() && Enabled(plan, View(), SequenceEnds)
      modifies this`failures, this`phase
      ensures View() == Apply(plan, old(View()), SequenceEnds)
      ensures phase.Ended? && OutcomeMatches(old(View()), phase.outcome)
    {
      EndOutcome(plan, View());
      if unsettled != {} {
        failures := failures + [StillRunning(unsettled)];
      }
      phase := Ended(if failures == [] then Resolved else RejectedWith(failures));
    }

    // One event of a schedule. The two that are not code of the runner only set what the
    // runner reads: the clock, and a race its timer has won. A step that closes the database
    // closes it around no running writer.
    method TakeStep(e: Event)
      requires Valid() && Enabled(plan, View(), e)
      modifies this
      ensures View() == Apply(plan, old(View()), e) && Valid()
      ensures OneTail(plan) && TailSeesStragglers(plan) && Closes(old(View()), View()) ==> SafeClose(plan, View())
    {
      hide LoopInv;
      hide FailInv;
      hide TailInv;
      hide OneTail;
      hide TailSeesStragglers;
      hide SafeClose;
      hide Closes;
      hide StartStage;
      hide SettleWork;
      hide Resume;
      hide ObserveLate;
      hide End;
      hide AfterLateWait;
      hide CloseUnlessStillWriting;
      hide OutcomeMatches;
      ghost var before := View();
      match e {
        case Tick(t) => nowMs := t;
        case StageStarts(keepOpen) => StartNextStage(keepOpen);
        case WorkSettles(i, ok) => SettleBody(i, ok);
        case TimerFires => phase := Awaiting(TimerWon);
        case RunnerResumes => ResumeAfterRace();
        case LateOutcome(i) => ObserveAbandoned(i);
        case SequenceEnds => EndSequence();
        case LateWaitEnds(l) => FinishLateWait(l);
        case DrainEnds(l, ok, keepOpen) => FinishDrain(l, ok, keepOpen);
      }
      assert View() == Apply(plan, before, e);
      StepKeeps(plan, before, e);
    }

    // A whole schedule. What it leaves in the runner's variables is what the schedule's
    // theorems say: the outcome its end called for, the database closed once at most, and
    // exactly when an event of the schedule closes it.
    method Follow(es: seq<Event>)
      requires Valid() && View() == Init(plan)
      modifies this
      ensures View() == After(plan, es) && Valid()
      ensures phase.Ended? ==> exists k: nat :: EndedAt(plan, es, k, phase.outcome)
      ensures OneTail(plan) ==>
                forall i, j | 0 <= i < |checks| && 0 <= j < |checks| && checks[i].verdict == checks[j].verdict == Closed ::
                  i == j
      ensures OneTail(plan) && TailSeesStragglers(plan) ==>
                (DatabaseClosed(View()) <==> exists k: nat :: ClosedAt(plan, es, k))
    {
      for i := 0 to |es|
        invariant View() == After(plan, es[..i]) && Valid()
      {
        assert es[..i + 1][..i] == es[..i];
        if Enabled(plan, View(), es[i]) {
          TakeStep(es[i]);
        }
      }
      assert es[..|es|] == es;
      if phase.Ended? {
        RunOutcome(plan, es);
      }
      if OneTail(plan) {
        CloseLog(plan, View());
        if TailSeesStragglers(plan) {
          DatabaseClosedIff(plan, es);
        }
      }
    }
  }

  lemma StepKeeps(p: Plan, s: Run, e: Event)
    requires LoopInv(p, s) && FailInv(s) && (OneTail(p) ==> TailInv(p, s)) && Enabled(p, s, e)
    ensures var s' := Apply(p, s, e);
            && LoopInv(p, s') && FailInv(s') && (OneTail(p) ==> TailInv(p, s'))
            && (OneTail(p) && TailSeesStragglers(p) && Closes(s, s') ==> SafeClose(p, s'))
  {
    hide LoopInv;
    hide FailInv;
    hide TailInv;
    hide Apply;
    LoopInvStep(p, s, e);
    FailInvStep(p, s, e);
    if OneTail(p) {
      TailInvStep(p, s, e);
      if TailSeesStragglers(p) && Closes(s, Apply(p, s, e)) {
        CloseStepIsSafe(p, s, e);
      }
    }
  }

  // The runner from its start to the end of any schedule.
  method RunStages(p: Plan, es: seq<Event>) returns (end: Run)
    ensures end == After(p, es)
    ensures end.phase.Ended? ==> exists k: nat :: EndedAt(p, es, k, end.phase.outcome)
    ensures OneTail(p) && TailSeesStragglers(p) ==> (DatabaseClosed(end) <==> exists k: nat :: ClosedAt(p, es, k))
  {
    var runner := new Runner(p);
    runner.Follow(es);
    end := runner.View();
  }
}
