// When a stage is abandoned and how long the late settle waits, in terms of the table alone.
module ShutdownLateWait {
  import opened Options
  import opened StageTables
  import opened ShutdownProtocol
  import opened ShutdownSafety

  // ----- the rolled deadline -----

  // The deadline of stage i: its own budget and those before it, from the start of the run.
  function StageDeadline(p: Plan, i: nat): nat
    requires i < |p.stages|
  {
    p.startedAtMs + BudgetSum(p.stages, i + 1)
  }

  ghost predicate BudgetInv(p: Plan, s: Run) {
    s.started <= |p.stages| && (p.timed ==> s.budgetedMs == BudgetSum(p.stages, s.started))
  }

  lemma StartBudget(p: Plan, s: Run, keepOpen: bool)
    requires s.started < |p.stages| == |s.work|
    ensures StartStage(p, s, keepOpen).started == s.started + 1
    ensures StartStage(p, s, keepOpen).budgetedMs ==
            s.budgetedMs + if p.timed then BudgetOf(p.stages[s.started]) else 0
  {
    hide SeenWriters;
    hide SeenUnsettled;
  }

  lemma BudgetStep(p: Plan, s: Run, e: Event)
    requires BudgetInv(p, s) && Enabled(p, s, e)
    ensures BudgetInv(p, Apply(p, s, e))
  {
    hide StartStage;
    match e {
      case StageStarts(keepOpen) =>
        StartBudget(p, s, keepOpen);
        assert BudgetSum(p.stages, s.started + 1) == BudgetSum(p.stages, s.started) + BudgetOf(p.stages[s.started]);
      case _ =>
        PhaseEffects(p, s, e);
        ClockEffects(p, s, e);
        hide Apply;
        hide BudgetSum;
    }
  }

  lemma {:induction false} BudgetAlways(p: Plan, es: seq<Event>)
    ensures BudgetInv(p, After(p, es))
  {
    if es != [] {
      BudgetAlways(p, es[..|es| - 1]);
      if Enabled(p, After(p, es[..|es| - 1]), es[|es| - 1]) {
        BudgetStep(p, After(p, es[..|es| - 1]), es[|es| - 1]);
      }
    }
  }

  // ----- when a stage is abandoned -----

  // The race of a budgeted stage wakes at its deadline, or at once if it started after it.
  ghost predicate WakeInv(p: Plan, s: Run) {
    s.phase == Awaiting(Undecided) && 0 < s.started <= |p.stages| && Budgeted(p, s.started - 1) ==>
      var deadline := StageDeadline(p, s.started - 1);
      s.wakeMs.Some? && deadline <= s.wakeMs.value <= Max(s.nowMs, deadline)
  }

  lemma StartWakes(p: Plan, s: Run, keepOpen: bool)
    requires BudgetInv(p, s) && s.started < |p.stages| == |s.work|
    ensures WakeInv(p, StartStage(p, s, keepOpen))
  {
    StartBudget(p, s, keepOpen);
    assert BudgetSum(p.stages, s.started + 1) == BudgetSum(p.stages, s.started) + BudgetOf(p.stages[s.started]);
    hide SeenWriters;
    hide SeenUnsettled;
    hide BudgetSum;
  }

  lemma WakeStep(p: Plan, s: Run, e: Event)
    requires LoopInv(p, s) && BudgetInv(p, s) && WakeInv(p, s) && Enabled(p, s, e)
    ensures WakeInv(p, Apply(p, s, e))
  {
    hide StartStage;
    match e {
      case StageStarts(keepOpen) => StartWakes(p, s, keepOpen);
      case _ =>
        PhaseEffects(p, s, e);
        ClockEffects(p, s, e);
        hide Apply;
        hide BudgetSum;
    }
  }

  lemma {:induction false} WakeAlways(p: Plan, es: seq<Event>)
    ensures LoopInv(p, After(p, es)) && WakeInv(p, After(p, es))
  {
    LoopInvAlways(p, es);
    if es != [] {
      var s := After(p, es[..|es| - 1]);
      WakeAlways(p, es[..|es| - 1]);
      BudgetAlways(p, es[..|es| - 1]);
      if Enabled(p, s, es[|es| - 1]) {
        WakeStep(p, s, es[|es| - 1]);
      }
    }
  }

  // In every interleaving, the stage being awaited can be abandoned exactly from its rolled
  // deadline on, and a stage without a budget never.
  lemma AbandonedFromDeadlineOn(p: Plan, es: seq<Event>)
    requires After(p, es).phase == Awaiting(Undecided)
    ensures var s := After(p, es);
            0 < s.started <= |p.stages| &&
            (Enabled(p, s, TimerFires) <==>
               Budgeted(p, s.started - 1) && s.nowMs >= p.startedAtMs + BudgetSum(p.stages, s.started))
  {
    WakeAlways(p, es);
  }

  // ----- how long the late settle waits -----

  // What the late settle keeps back of its time: 50 ms for its stage, and 100 ms more for the
  // close it may still owe.
  function KeptBackMs(closeDeferred: bool): nat {
    if closeDeferred then 150 else 50
  }

  // The late settle l has been waiting since `sinceMs` for the stages `stragglers`.
  ghost predicate WaitsSince(p: Plan, s: Run, l: nat, stragglers: set<nat>, sinceMs: nat)
    requires l < |p.stages|
  {
    && s.tail.TailWaiting? && s.tail.waitedOn == stragglers && sinceMs <= s.nowMs
    && s.tail.wakeMs == Max(sinceMs, StageDeadline(p, l) - KeptBackMs(s.closeDeferred))
  }

  lemma WaitBegins(p: Plan, s: Run, keepOpen: bool)
    requires BudgetInv(p, s) && s.started < |p.stages| == |s.work|
    requires Budgeted(p, s.started) && p.stages[s.started].role == LateSettle
    ensures var s' := StartStage(p, s, keepOpen);
            if s.unsettled == {} && !s.closeDeferred then s'.tail == TailDone(NothingOwed)
            else WaitsSince(p, s', s.started, s.unsettled, s.nowMs)
    ensures StartStage(p, s, keepOpen).closeDeferred == s.closeDeferred
  {
    StartBudget(p, s, keepOpen);
    assert BudgetSum(p.stages, s.started + 1) == BudgetSum(p.stages, s.started) + BudgetOf(p.stages[s.started]);
    hide BudgetSum;
    hide SeenWriters;
  }

  // Only the start of the late settle begins its wait; no other step changes what it waits for
  // or until when.
  lemma WaitStep(p: Plan, s: Run, e: Event, l: nat)
    requires OneTail(p) && Enabled(p, s, e)
    requires Apply(p, s, e).tail.TailWaiting? && LateSettleAt(p, Apply(p, s, e), l)
    requires !(e.StageStarts? && s.started == l)
    ensures s.tail == Apply(p, s, e).tail && s.closeDeferred == Apply(p, s, e).closeDeferred
    ensures LateSettleAt(p, s, l) && s.nowMs <= Apply(p, s, e).nowMs
  {
    hide SeenWriters;
    hide SeenUnsettled;
    PhaseEffects(p, s, e);
    ClockEffects(p, s, e);
    TailEffects(p, s, e);
    if e.StageStarts? {
      assert l < s.started && p.stages[s.started].role == Cleanup;
    }
  }

  ghost predicate WaitBeganAt(p: Plan, es: seq<Event>, k: nat, l: nat) {
    k < |es| && es[k].StageStarts? && Enabled(p, After(p, es[..k]), es[k]) && After(p, es[..k]).started == l
  }

  lemma {:induction false} WaitIsKept(p: Plan, es: seq<Event>, l: nat) returns (k: nat)
    requires OneTail(p) && l < |p.stages| && Budgeted(p, l)
    requires After(p, es).tail.TailWaiting? && LateSettleAt(p, After(p, es), l)
    ensures WaitBeganAt(p, es, k, l)
    ensures WaitsSince(p, After(p, es), l, After(p, es[..k]).unsettled, After(p, es[..k]).nowMs)
  {
    k := 0;
    if es == [] {
      assert false;
    } else {
      var before, e := es[..|es| - 1], es[|es| - 1];
      var s := After(p, before);
      hide WaitsSince;
      if !Enabled(p, s, e) {
        k := WaitIsKept(p, before, l);
        assert es[..k] == before[..k];
      } else if e.StageStarts? && s.started == l {
        k := |es| - 1;
        LoopInvAlways(p, before);
        BudgetAlways(p, before);
        WaitBegins(p, s, e.keepOpen);
      } else {
        WaitStep(p, s, e, l);
        k := WaitIsKept(p, before, l);
        assert es[..k] == before[..k];
        StillWaits(p, s, Apply(p, s, e), l, After(p, es[..k]).unsettled, After(p, es[..k]).nowMs);
      }
    }
  }

  lemma StillWaits(p: Plan, s: Run, s': Run, l: nat, stragglers: set<nat>, sinceMs: nat)
    requires l < |p.stages| && WaitsSince(p, s, l, stragglers, sinceMs)
    requires s'.tail == s.tail && s'.closeDeferred == s.closeDeferred && s.nowMs <= s'.nowMs
    ensures WaitsSince(p, s', l, stragglers, sinceMs)
  {}

  // In every interleaving, a late settle that waits does so for every stage that was abandoned
  // and unsettled when it started; the wait may end as soon as all of those have been observed,
  // and with one of them left exactly from 50 ms before its rolled deadline on, or from 150 ms
  // before it if the close is still owed.
  lemma LateWaitEndsIff(p: Plan, es: seq<Event>, l: nat) returns (k: nat)
    requires OneTail(p) && l < |p.stages| && Budgeted(p, l)
    requires After(p, es).tail.TailWaiting? && LateSettleAt(p, After(p, es), l)
    ensures WaitBeganAt(p, es, k, l)
    ensures var s, stragglers := After(p, es), After(p, es[..k]).unsettled;
            Enabled(p, s, LateWaitEnds(l)) <==>
              || stragglers * s.unsettled == {}
              || s.nowMs >= p.startedAtMs + BudgetSum(p.stages, l + 1) - (if s.closeDeferred then 150 else 50)
  {
    k := WaitIsKept(p, es, l);
    hide BudgetSum;
  }

  // When it starts, it waits unless no stage is abandoned and no close is owed.
  lemma LateSettleWaits(p: Plan, es: seq<Event>, keepOpen: bool)
    requires Enabled(p, After(p, es), StageStarts(keepOpen))
    requires var i := After(p, es).started; Budgeted(p, i) && p.stages[i].role == LateSettle
    ensures var s := After(p, es);
            var s' := Apply(p, s, StageStarts(keepOpen));
            if s.unsettled == {} && !s.closeDeferred then s'.tail == TailDone(NothingOwed)
            else s'.tail.TailWaiting? && LateSettleAt(p, s', s.started)
  {
    BudgetAlways(p, es);
    WaitBegins(p, After(p, es), keepOpen);
    StartBudget(p, After(p, es), keepOpen);
    hide StartStage;
  }

  // With the daemon's table and a close still owed that is 8145 ms after the start of the run.
  lemma DaemonLateWait(p: Plan, es: seq<Event>)
    requires p.stages == DaemonStages() && p.timed && OneTail(p)
    requires After(p, es).tail.TailWaiting? && After(p, es).closeDeferred
    ensures exists k: nat :: WaitBeganAt(p, es, k, 41) &&
              (Enabled(p, After(p, es), LateWaitEnds(41)) <==>
                 || After(p, es[..k]).unsettled * After(p, es).unsettled == {}
                 || After(p, es).nowMs >= p.startedAtMs + 8145)
  {
    hide DaemonStages;
    hide BudgetSum;
    TailInvAlways(p, es);
    var l: nat :| l < After(p, es).started <= |p.stages| && p.stages[l].role == LateSettle;
    DaemonRow(l);
    DaemonDeadline();
    assert LateSettleAt(p, After(p, es), l);
    var k := LateWaitEndsIff(p, es, l);
  }
}
