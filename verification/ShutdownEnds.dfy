// The two files together always come to an end: the run ends, the handler settles with it,
// and the process exits before its limit.
module ShutdownEnds {
  import opened Options
  import opened StageTables
  import P = ShutdownProtocol
  import T = ShutdownTiming
  import L = ProcessLifecycle
  import X = ProcessExit
  import opened ShutdownUnderLimit

  // A step of the joint machine towards the exit.
  predicate Serves(e: Event) {
    (e.LifeEvent? && X.Serves(e.life)) || (e.RunEvent? && T.IsLoopEvent(e.run))
  }

  // The loop's events that are still to come, of a run not yet begun as well.
  function RunSteps(c: Setup, j: Joint): int {
    if j.run.Some? then T.LoopMeasure(PlanOf(c, j), j.run.value) else 3 * |c.plan.stages| + 1
  }

  function StepsLeft(c: Setup, j: Joint): int {
    X.StepsLeft(j.life) + RunSteps(c, j)
  }

  // `JointInv` and what the lifecycle keeps on its own.
  ghost predicate Inv(c: Setup, j: Joint) {
    JointInv(c, j) && L.LifeInv(c.limits, j.life)
  }

  lemma InvStep(c: Setup, j: Joint, e: Event)
    requires FitsUnderLimit(c) && Inv(c, j) && Enabled(c, j, e)
    ensures Inv(c, Then(c, j, e))
  {
    hide JointInv;
    hide L.LifeInv;
    hide L.Apply;
    hide P.Apply;
    match e {
      case ClockTicks(t) =>
        JointInvTick(c, j, t);
        L.LifeInvStep(c.limits, j.life, L.Tick(t));
      case LifeEvent(le) =>
        JointInvLife(c, j, le);
        L.LifeInvStep(c.limits, j.life, le);
      case RunEvent(re) => JointInvRun(c, j, re);
    }
  }

  lemma {:induction false} InvAlways(c: Setup, es: seq<Event>)
    requires FitsUnderLimit(c)
    ensures Inv(c, After(c, es))
  {
    if es == [] {
      JointInvAlways(c, es);
    } else {
      InvAlways(c, es[..|es| - 1]);
      if Enabled(c, After(c, es[..|es| - 1]), es[|es| - 1]) {
        InvStep(c, After(c, es[..|es| - 1]), es[|es| - 1]);
      }
    }
  }

  // ----- a next step -----

  lemma TickEnabled(c: Setup, j: Joint, t: nat)
    requires Inv(c, j) && L.Enabled(c.limits, j.life, L.Tick(t))
    requires j.run.Some? ==> P.Enabled(PlanOf(c, j), j.run.value, P.Tick(t))
    requires Unheard(j) ==> t <= j.run.value.wakeMs.value + c.limits.slopMs
    ensures Enabled(c, j, ClockTicks(t))
    ensures Then(c, j, ClockTicks(t)).life == L.Apply(c.limits, j.life, L.Tick(t))
    ensures j.run.Some? ==>
              Then(c, j, ClockTicks(t)).run == Some(P.Apply(PlanOf(c, j), j.run.value, P.Tick(t)))
    ensures j.run.None? ==> Then(c, j, ClockTicks(t)).run.None?
  {}

  // The clock may always stand still.
  lemma StandStill(c: Setup, j: Joint)
    requires Inv(c, j) && !j.life.phase.Exited? && FitsUnderLimit(c)
    ensures L.Enabled(c.limits, j.life, L.Tick(j.life.nowMs))
    ensures Enabled(c, j, ClockTicks(j.life.nowMs)) && Then(c, j, ClockTicks(j.life.nowMs)) == j
  {
    var t := j.life.nowMs;
    if j.run.Some? {
      assert j.run.value.(nowMs := t) == j.run.value;
    }
    TickEnabled(c, j, t);
  }

  // While the lifecycle awaits a run that has not ended, the run has a next event.
  lemma RunGoesOn(c: Setup, j: Joint) returns (t: nat, e: Event)
    requires FitsUnderLimit(c) && Inv(c, j) && j.run.Some? && !j.run.value.phase.Ended?
    requires j.life.phase.Handling? && j.life.phase.race.HandlerPending? && X.WaitSteps(j.life.wait) == 0
    ensures Enabled(c, j, ClockTicks(t)) && Enabled(c, Then(c, j, ClockTicks(t)), e) && Serves(e)
  {
    var p, run := PlanOf(c, j), j.run.value;
    var re;
    t, re := T.NextLoopEvent(p, run);
    BudgetedUnderTotal(c, p, run);
    assert L.Enabled(c.limits, j.life, L.Tick(t));
    TickEnabled(c, j, t);
    e := RunEvent(re);
    assert PlanOf(c, Then(c, j, ClockTicks(t))) == p;
  }

  // Otherwise the lifecycle has one.
  lemma LifeGoesOn(c: Setup, j: Joint) returns (t: nat, e: Event)
    requires FitsUnderLimit(c) && Inv(c, j) && X.Leaving(j.life) && !j.life.phase.Exited?
    requires X.WaitSteps(j.life.wait) > 0
             || (j.life.phase.Handling? && !j.life.phase.race.HandlerPending?)
             || (j.life.phase.Handling? && j.run.Some? && j.run.value.phase.Ended?)
    ensures Enabled(c, j, ClockTicks(t)) && Enabled(c, Then(c, j, ClockTicks(t)), e) && Serves(e)
  {
    hide FitsUnderLimit;
    hide P.LoopInv;
    hide T.TimeInv;
    t := j.life.nowMs;
    StandStill(c, j);
    if j.life.wait.Waiting? && j.life.phase == L.Idle {
      assert j.run.None?;
      t := X.Later(t, j.life.wait.dueMs);
      TickEnabled(c, j, t);
      e := LifeEvent(L.AnswerTimerFires);
    } else if j.life.wait.Waiting? {
      e := LifeEvent(L.WaitInterrupted);
    } else if j.life.wait.Woken? {
      e := LifeEvent(L.WaitResumes);
    } else if j.life.phase.race.HandlerPending? {
      e := LifeEvent(L.HandlerSettles(j.run.value.phase.outcome.Resolved?));
    } else {
      e := LifeEvent(L.HandlerResumes);
    }
  }

  // A leaving process that has not exited always has a step to take: at once, or at a time
  // the clock may reach.
  lemma NotStuck(c: Setup, j: Joint) returns (t: nat, e: Event)
    requires FitsUnderLimit(c) && Inv(c, j) && X.Leaving(j.life) && !j.life.phase.Exited?
    ensures Enabled(c, j, ClockTicks(t)) && Enabled(c, Then(c, j, ClockTicks(t)), e) && Serves(e)
  {
    if j.life.phase.Handling? && j.life.phase.race.HandlerPending? && X.WaitSteps(j.life.wait) == 0
       && j.run.Some? && !j.run.value.phase.Ended? {
      t, e := RunGoesOn(c, j);
    } else {
      assert X.WaitSteps(j.life.wait) > 0 || j.life.phase.Handling?;
      t, e := LifeGoesOn(c, j);
    }
  }

  // ----- and few of them -----

  lemma ServeProgress(c: Setup, j: Joint, e: Event)
    requires FitsUnderLimit(c) && Inv(c, j) && X.Leaving(j.life) && Enabled(c, j, e)
    ensures X.Leaving(Then(c, j, e).life) && StepsLeft(c, Then(c, j, e)) <= StepsLeft(c, j)
    ensures Serves(e) ==> StepsLeft(c, Then(c, j, e)) < StepsLeft(c, j)
  {
    match e {
      case ClockTicks(t) =>
        X.ServeProgress(c.limits, j.life, L.Tick(t));
        if j.run.Some? {
          T.LoopProgress(PlanOf(c, j), j.run.value, P.Tick(t));
        }
      case LifeEvent(le) =>
        X.ServeProgress(c.limits, j.life, le);
        LifeFrame(c.limits, j.life, le);
        if j.run.Some? {
          L.RequestIsFinal(c.limits, j.life, le);
          assert PlanOf(c, Then(c, j, e)) == PlanOf(c, j);
        }
      case RunEvent(re) => T.LoopProgress(PlanOf(c, j), j.run.value, re);
    }
  }

  lemma StepsLeftIsNat(c: Setup, j: Joint)
    requires Inv(c, j)
    ensures 0 <= StepsLeft(c, j) <= 3 * |c.plan.stages| + 8
  {}

  lemma OneMore(c: Setup, es: seq<Event>, e: Event)
    ensures After(c, es + [e]) == Then(c, After(c, es), e)
  {
    assert (es + [e])[..|es|] == es;
  }

  // From every reachable state of a leaving process the exit can be reached, each stage of
  // the table settling or not; and each step on any way there uses up one of a fixed number,
  // so no schedule goes on without it for ever.
  lemma {:induction false} ExitIsReached(c: Setup, es: seq<Event>) returns (more: seq<Event>)
    requires FitsUnderLimit(c) && X.Leaving(After(c, es).life)
    ensures After(c, es + more).life.phase.Exited?
    decreases StepsLeft(c, After(c, es))
  {
    hide After;
    hide FitsUnderLimit;
    hide Inv;
    hide StepsLeft;
    hide X.Leaving;
    hide Enabled;
    hide Then;
    var j := After(c, es);
    InvAlways(c, es);
    if j.life.phase.Exited? {
      more := [];
      assert es + more == es;
    } else {
      var t, e := NotStuck(c, j);
      var ticked := es + [ClockTicks(t)];
      OneMore(c, es, ClockTicks(t));
      OneMore(c, ticked, e);
      InvAlways(c, ticked);
      InvAlways(c, ticked + [e]);
      ServeProgress(c, j, ClockTicks(t));
      ServeProgress(c, After(c, ticked), e);
      StepsLeftIsNat(c, j);
      StepsLeftIsNat(c, After(c, ticked + [e]));
      var rest := ExitIsReached(c, ticked + [e]);
      more := [ClockTicks(t), e] + rest;
      assert es + more == ticked + [e] + rest;
    }
  }

  function Taken(c: Setup, es: seq<Event>, from: nat): nat
    requires from <= |es|
    decreases |es| - from
  {
    if from == |es| then 0
    else (if Enabled(c, After(c, es[..from]), es[from]) && Serves(es[from]) then 1 else 0) + Taken(c, es, from + 1)
  }

  lemma {:induction false} StepsAreFew(c: Setup, es: seq<Event>, from: nat)
    requires FitsUnderLimit(c) && from <= |es| && X.Leaving(After(c, es[..from]).life)
    ensures X.Leaving(After(c, es).life) && 0 <= StepsLeft(c, After(c, es))
    ensures Taken(c, es, from) + StepsLeft(c, After(c, es)) <= StepsLeft(c, After(c, es[..from]))
    ensures StepsLeft(c, After(c, es[..from])) <= 3 * |c.plan.stages| + 8
    decreases |es| - from
  {
    InvAlways(c, es[..from]);
    StepsLeftIsNat(c, After(c, es[..from]));
    if from == |es| {
      assert es[..from] == es;
    } else {
      assert es[..from + 1][..from] == es[..from];
      if Enabled(c, After(c, es[..from]), es[from]) {
        ServeProgress(c, After(c, es[..from]), es[from]);
      }
      StepsAreFew(c, es, from + 1);
    }
  }
}
