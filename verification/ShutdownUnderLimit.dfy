// The two files together: the shutdown run is the process lifecycle's handler, and its
// table fits under the lifecycle's limit.
module ShutdownUnderLimit {
  import opened Options
  import opened StageTables
  import P = ShutdownProtocol
  import S = ShutdownSafety
  import T = ShutdownTiming
  import L = ProcessLifecycle

  // The lifecycle, and the run its handler started, if it has.
  datatype Joint = Joint(life: L.Life, run: Option<P.Run>)

  // `plan` is the run's plan but for its start, which is when the handler is called.
  datatype Setup = Setup(limits: L.Limits, plan: P.Plan)

  datatype Event =
    | ClockTicks(toMs: nat)
    | LifeEvent(life: L.Event)
    | RunEvent(run: P.Event)

  function PlanAt(c: Setup, startMs: nat): P.Plan {
    c.plan.(startedAtMs := startMs, slopMs := c.limits.slopMs)
  }

  function PlanOf(c: Setup, j: Joint): P.Plan {
    PlanAt(c, if j.life.request.Some? then j.life.request.value.atMs else 0)
  }

  // The lifecycle has yet to hear from the run.
  predicate Unheard(j: Joint) {
    && j.run.Some? && j.run.value.wakeMs.Some?
    && j.life.phase.Handling? && j.life.phase.race.HandlerPending?
  }

  // The handler's promise is the run's: it settles only once the run has ended, and as the
  // run did. A run that has ended is heard within the slop, like any other wake-up.
  predicate Enabled(c: Setup, j: Joint, e: Event) {
    match e
    case ClockTicks(t) =>
      && L.Enabled(c.limits, j.life, L.Tick(t))
      && (j.run.Some? ==> P.Enabled(PlanOf(c, j), j.run.value, P.Tick(t)))
      && (Unheard(j) ==> t <= j.run.value.wakeMs.value + c.limits.slopMs)
    case LifeEvent(le) =>
      && !le.Tick?
      && L.Enabled(c.limits, j.life, le)
      && (le.HandlerSettles? ==>
            && j.run.Some? && j.run.value.phase.Ended?
            && le.ok == j.run.value.phase.outcome.Resolved?)
    case RunEvent(re) =>
      !re.Tick? && j.run.Some? && P.Enabled(PlanOf(c, j), j.run.value, re)
  }

  function Then(c: Setup, j: Joint, e: Event): Joint {
    if !Enabled(c, j, e) then j
    else
      match e
      case ClockTicks(t) =>
        Joint(L.Apply(c.limits, j.life, L.Tick(t)),
              if j.run.Some? then Some(P.Apply(PlanOf(c, j), j.run.value, P.Tick(t))) else None)
      case LifeEvent(le) =>
        var life := L.Apply(c.limits, j.life, le);
        if j.run.None? && life.handled != [] then Joint(life, Some(P.Init(PlanAt(c, life.nowMs))))
        else j.(life := life)
      case RunEvent(re) => j.(run := Some(P.Apply(PlanOf(c, j), j.run.value, re)))
  }

  function After(c: Setup, es: seq<Event>): Joint {
    if es == [] then Joint(L.Init(c.limits), None) else Then(c, After(c, es[..|es| - 1]), es[|es| - 1])
  }

  ghost predicate FitsUnderLimit(c: Setup) {
    && T.FullyBudgeted(c.plan.(slopMs := c.limits.slopMs))
    && BudgetSum(c.plan.stages, |c.plan.stages|) + c.limits.slopMs < c.limits.shutdownMs
  }

  ghost predicate JointInv(c: Setup, j: Joint) {
    && L.RequestInv(c.limits, j.life)
    && (j.run.Some? <==> j.life.handled != [])
    && (j.run.Some? ==>
          && P.LoopInv(PlanOf(c, j), j.run.value) && T.TimeInv(PlanOf(c, j), j.run.value)
          && j.run.value.nowMs == j.life.nowMs
          && j.run.value.wakeMs == Some(j.life.request.value.atMs + j.run.value.budgetedMs)
          && HandlerInv(c, j.life, j.run.value))
    && !j.life.phase.Finalizing?
  }

  // The limit is never reached while the run is on, and the handler settles as the run ends.
  ghost predicate HandlerInv(c: Setup, life: L.Life, run: P.Run)
    requires life.request.Some?
  {
    && (life.phase.Handling? ==>
          && life.phase.dueMs == life.request.value.atMs + c.limits.shutdownMs
          && !life.phase.race.HandlerElapsed?
          && (life.phase.race.HandlerPending? ==>
                life.nowMs <= life.request.value.atMs + run.budgetedMs + c.limits.slopMs)
          && (life.phase.race.HandlerSettled? ==>
                run.phase.Ended? && life.phase.race.ok == run.phase.outcome.Resolved?))
    && (life.phase.Exited? ==>
          && run.phase.Ended?
          && (!run.phase.outcome.Resolved? ==> life.phase.code == 1)
          && (run.phase.outcome.Resolved? ==>
                life.phase.code == if life.exitCode.Some? then life.exitCode.value else 0))
  }

  lemma BudgetedUnderTotal(c: Setup, p: P.Plan, s: P.Run)
    requires FitsUnderLimit(c) && T.TimeInv(p, s) && p.stages == c.plan.stages
    ensures s.budgetedMs + c.limits.slopMs < c.limits.shutdownMs
  {
    BudgetSumMonotone(p.stages, s.started, |p.stages|);
  }

  lemma JointInvTick(c: Setup, j: Joint, t: nat)
    requires FitsUnderLimit(c) && JointInv(c, j) && Enabled(c, j, ClockTicks(t))
    ensures JointInv(c, Then(c, j, ClockTicks(t)))
  {
    if j.run.Some? {
      P.LoopInvStep(PlanOf(c, j), j.run.value, P.Tick(t));
      T.TimeInvStep(PlanOf(c, j), j.run.value, P.Tick(t));
    }
    hide P.LoopInv;
    hide BudgetSum;
    hide T.FullyBudgeted;
  }

  lemma JointInvRun(c: Setup, j: Joint, re: P.Event)
    requires FitsUnderLimit(c) && JointInv(c, j) && Enabled(c, j, RunEvent(re))
    ensures JointInv(c, Then(c, j, RunEvent(re)))
  {
    hide P.LoopInv;
    hide T.TimeInv;
    hide P.Apply;
    hide P.Enabled;
    hide BudgetSum;
    var p := PlanOf(c, j);
    assert T.FullyBudgeted(p) && j.life.request.Some?;
    hide L.RequestInv;
    hide T.FullyBudgeted;
    P.LoopInvStep(p, j.run.value, re);
    T.TimeInvStep(p, j.run.value, re);
    RunKeepsWake(p, j.run.value, re);
  }

  // The deadline only moves forward, the clock does not move, and the end is final.
  lemma RunKeepsWake(p: P.Plan, s: P.Run, re: P.Event)
    requires T.FullyBudgeted(p) && P.LoopInv(p, s) && T.TimeInv(p, s) && P.Enabled(p, s, re) && !re.Tick?
    requires s.wakeMs == Some(p.startedAtMs + s.budgetedMs)
    ensures var s' := P.Apply(p, s, re);
            && s'.nowMs == s.nowMs && s.budgetedMs <= s'.budgetedMs
            && s'.wakeMs == Some(p.startedAtMs + s'.budgetedMs)
            && (s.phase.Ended? ==> s'.phase == s.phase)
  {
    hide P.LoopInv;
    hide BudgetSum;
    hide P.Enabled;
    T.TimeInvStep(p, s, re);
    P.PhaseEffects(p, s, re);
    P.ClockEffects(p, s, re);
    hide P.Apply;
    if re.StageStarts? {
      BudgetSumMonotone(p.stages, s.started, s.started + 1);
    }
  }

  // The run the handler starts.
  lemma RunBegins(c: Setup, startMs: nat)
    requires FitsUnderLimit(c)
    ensures var p := PlanAt(c, startMs);
            P.LoopInv(p, P.Init(p)) && T.TimeInv(p, P.Init(p))
  {
    P.LoopInvInit(PlanAt(c, startMs));
  }

  lemma JointInvLife(c: Setup, j: Joint, le: L.Event)
    requires FitsUnderLimit(c) && JointInv(c, j) && Enabled(c, j, LifeEvent(le))
    ensures JointInv(c, Then(c, j, LifeEvent(le)))
  {
    hide P.LoopInv;
    hide T.TimeInv;
    hide L.Apply;
    hide L.Enabled;
    var life := L.Apply(c.limits, j.life, le);
    LifeRequestInv(c.limits, j.life, le);
    LifeFrame(c.limits, j.life, le);
    if j.run.Some? {
      BudgetedUnderTotal(c, PlanOf(c, j), j.run.value);
      L.RequestIsFinal(c.limits, j.life, le);
      HandlerStep(c, j.life, j.run.value, le);
      hide FitsUnderLimit;
      hide HandlerInv;
      assert Then(c, j, LifeEvent(le)) == Joint(life, j.run);
    } else if life.handled != [] {
      RunBegins(c, life.nowMs);
      hide FitsUnderLimit;
      assert Then(c, j, LifeEvent(le)) == Joint(life, Some(P.Init(PlanAt(c, life.nowMs))));
    }
  }

  lemma LifeRequestInv(c: L.Limits, l: L.Life, le: L.Event)
    requires L.RequestInv(c, l) && L.Enabled(c, l, le)
    ensures L.RequestInv(c, L.Apply(c, l, le))
  {
    if L.Requests(le) {
      L.RequestEffect(c, l, le);
    } else if L.Moves(le) {
      L.MoveEffect(c, l, le);
    } else {
      L.RestEffect(c, l, le);
    }
    hide L.Apply;
    hide L.Enabled;
    hide L.FinalizationMs;
  }

  // Only the clock moves the clock, and a handler that is called is called at the request.
  lemma LifeFrame(c: L.Limits, l: L.Life, le: L.Event)
    requires L.RequestInv(c, l) && L.Enabled(c, l, le) && !le.Tick?
    ensures var l' := L.Apply(c, l, le);
            && l'.nowMs == l.nowMs
            && (l.handled != [] ==> l'.handled == l.handled)
            && (l.handled == [] && l'.handled != [] ==>
                  && l'.phase == L.Handling(L.HandlerPending, l.nowMs + c.shutdownMs)
                  && l'.request.Some? && l'.request.value.atMs == l.nowMs)
            && (l.handled == [] && l'.handled == [] ==> !l'.phase.Finalizing?)
  {
    if L.Requests(le) {
      L.RequestEffect(c, l, le);
    } else if L.Moves(le) {
      L.MoveEffect(c, l, le);
    } else {
      L.RestEffect(c, l, le);
    }
    hide L.Apply;
    hide L.Enabled;
    hide L.FinalizationMs;
  }

  lemma HandlerStep(c: Setup, life: L.Life, run: P.Run, le: L.Event)
    requires L.RequestInv(c.limits, life) && life.request.Some? && HandlerInv(c, life, run)
    requires run.budgetedMs + c.limits.slopMs < c.limits.shutdownMs && !life.phase.Finalizing?
    requires L.Enabled(c.limits, life, le) && !le.Tick?
    requires le.HandlerSettles? ==> run.phase.Ended? && le.ok == run.phase.outcome.Resolved?
    requires L.Apply(c.limits, life, le).request == life.request
    ensures HandlerInv(c, L.Apply(c.limits, life, le), run) && !L.Apply(c.limits, life, le).phase.Finalizing?
  {
    if !le.HandlerSettles? && !le.HandlerTimerFires? && !le.HandlerResumes? {
      var life' := L.Apply(c.limits, life, le);
      assert life'.phase == life.phase && life'.nowMs == life.nowMs && life'.request == life.request;
    }
  }

  lemma {:induction false} JointInvAlways(c: Setup, es: seq<Event>)
    requires FitsUnderLimit(c)
    ensures JointInv(c, After(c, es))
  {
    if es != [] {
      var j := After(c, es[..|es| - 1]);
      var e := es[|es| - 1];
      JointInvAlways(c, es[..|es| - 1]);
      if Enabled(c, j, e) {
        match e {
          case ClockTicks(t) => JointInvTick(c, j, t);
          case LifeEvent(le) => JointInvLife(c, j, le);
          case RunEvent(re) => JointInvRun(c, j, re);
        }
      }
    }
  }

  // When the table fits, the process limit never cuts the run short, in any interleaving of
  // the two: the process exits only after the run has ended, with the configured code or 0
  // if every stage settled in time, and with 1 otherwise.
  lemma LimitNeverFires(c: Setup, es: seq<Event>)
    requires FitsUnderLimit(c)
    ensures var j := After(c, es);
            && (j.life.phase.Handling? ==> !j.life.phase.race.HandlerElapsed?)
            && !j.life.phase.Finalizing?
            && (j.life.phase.Exited? && j.run.Some? ==>
                  && j.run.value.phase.Ended?
                  && j.life.phase.code ==
                       if !j.run.value.phase.outcome.Resolved? then 1
                       else if j.life.exitCode.Some? then j.life.exitCode.value else 0)
  {
    JointInvAlways(c, es);
  }

  // ----- the two tables -----

  lemma BudgetedAndUnderLimit(stages: seq<Stage>, limits: L.Limits, plan: P.Plan)
    requires plan.stages == stages && plan.timed
    requires forall i | 0 <= i < |stages| :: stages[i].budgetMs.Some? && limits.slopMs <= stages[i].budgetMs.value
    requires BudgetSum(stages, |stages|) <= PROCESS_SHUTDOWN_TIMEOUT_MS - DAEMON_SHUTDOWN_BUDGET_RESERVE_MS
    requires limits.shutdownMs == PROCESS_SHUTDOWN_TIMEOUT_MS && limits.slopMs < DAEMON_SHUTDOWN_BUDGET_RESERVE_MS
    ensures FitsUnderLimit(Setup(limits, plan))
  {}

  // With the daemon's table, and timers served within its smallest budget of 10 ms, the
  // shutdown beats the 9 s limit however its 44 stages hang.
  lemma DaemonBeatsTheLimit(limits: L.Limits, plan: P.Plan, es: seq<Event>)
    requires plan.stages == DaemonStages() && plan.timed
    requires limits.shutdownMs == PROCESS_SHUTDOWN_TIMEOUT_MS && limits.slopMs <= 10
    ensures FitsUnderLimit(Setup(limits, plan))
    ensures var j := After(Setup(limits, plan), es);
            (j.life.phase.Handling? ==> !j.life.phase.race.HandlerElapsed?) && !j.life.phase.Finalizing?
  {
    hide DaemonStages;
    hide BudgetSum;
    DaemonTotal();
    forall i: nat | i < |DaemonStages()| ensures DaemonStages()[i].budgetMs.Some? && 10 <= DaemonStages()[i].budgetMs.value {
      DaemonRow(i);
    }
    BudgetedAndUnderLimit(DaemonStages(), limits, plan);
    LimitNeverFires(Setup(limits, plan), es);
  }

  // The same for the stdio server, whose smallest budget is 25 ms.
  lemma StdioBeatsTheLimit(limits: L.Limits, plan: P.Plan, es: seq<Event>)
    requires plan.stages == StdioStages() && plan.timed
    requires limits.shutdownMs == PROCESS_SHUTDOWN_TIMEOUT_MS && limits.slopMs <= 25
    ensures FitsUnderLimit(Setup(limits, plan))
    ensures var j := After(Setup(limits, plan), es);
            (j.life.phase.Handling? ==> !j.life.phase.race.HandlerElapsed?) && !j.life.phase.Finalizing?
  {
    hide StdioStages;
    hide BudgetSum;
    StdioTotal();
    forall i: nat | i < |StdioStages()| ensures StdioStages()[i].budgetMs.Some? && 25 <= StdioStages()[i].budgetMs.value {
      StdioRow(i);
    }
    BudgetedAndUnderLimit(StdioStages(), limits, plan);
    LimitNeverFires(Setup(limits, plan), es);
  }

  // Neither table's plan closes the database around a running writer, in any schedule.
  lemma TablesCloseSafely(p: P.Plan)
    requires p.stages == DaemonStages() || p.stages == StdioStages()
    ensures forall es, e :: S.Closes(P.After(p, es), P.After(p, es + [e])) ==> S.SafeClose(p, P.After(p, es + [e]))
  {
    hide DaemonStages;
    hide StdioStages;
    TablesShowStragglers(p);
    hide S.Closes;
    hide S.SafeClose;
    hide P.OneTail;
    forall es, e | S.Closes(P.After(p, es), P.After(p, es + [e])) ensures S.SafeClose(p, P.After(p, es + [e])) {
      S.CloseIsSafe(p, es, e);
    }
  }

  // Both tables place one close and one late settle after it, and show them the stragglers:
  // every result about the close holds for the plans the program runs.
  lemma TablesShowStragglers(p: P.Plan)
    requires p.stages == DaemonStages() || p.stages == StdioStages()
    ensures P.OneTail(p) && S.TailSeesStragglers(p)
  {
    hide DaemonStages;
    hide StdioStages;
    forall i: nat | i < |p.stages|
      ensures p.stages[i].budgetMs.Some?
      ensures p.stages[i].role == CloseDatabase <==> i == |p.stages| - (if p.stages == DaemonStages() then 4 else 3)
      ensures p.stages[i].role == LateSettle <==> i == |p.stages| - (if p.stages == DaemonStages() then 3 else 2)
    {
      if p.stages == DaemonStages() {
        DaemonRow(i);
      } else {
        StdioRow(i);
      }
    }
  }
}
