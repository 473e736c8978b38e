// The deferred close: what decides it, and the documented promise it falls short of.
module ShutdownLateClose {
  import opened Options
  import opened StageTables
  import opened ShutdownProtocol
  import opened ShutdownSafety

  // ----- the re-check before the late close -----

  // While the late settle drains, every abandoned writer is the late settle or a later stage.
  ghost predicate DrainInv(p: Plan, s: Run) {
    s.tail.TailDraining? ==>
      forall l: nat, j: nat | LateSettleAt(p, s, l) && j in s.unsettled && j < |p.stages| ::
        p.stages[j].mayWriteDatabase ==> l <= j
  }

  lemma DrainInvStep(p: Plan, s: Run, e: Event)
    requires OneTail(p) && TailSeesStragglers(p)
    requires LoopInv(p, s) && TailInv(p, s) && DrainInv(p, s) && Enabled(p, s, e)
    ensures DrainInv(p, Apply(p, s, e))
  {
    var s' := Apply(p, s, e);
    if s'.tail.TailDraining? {
      if e.LateWaitEnds? {
        var i := e.stage;
        assert SeenWriters(p, s, i) == {} && s'.unsettled == s.unsettled && s'.started == s.started;
        forall l: nat, j: nat | LateSettleAt(p, s', l) && j in s'.unsettled && j < |p.stages|
          ensures p.stages[j].mayWriteDatabase ==> l <= j
        {
          assert l == i && Budgeted(p, j) && p.stages[i].role != Cleanup;
          assert j !in SeenWriters(p, s, i);
        }
      } else {
        DrainInvFrame(p, s, e);
      }
    }
  }

  lemma LateSettleIsOne(p: Plan, s: Run, s': Run, i: nat, l: nat)
    requires OneTail(p) && LateSettleAt(p, s, i) && LateSettleAt(p, s', l)
    ensures l == i
  {}

  lemma DrainInvFrame(p: Plan, s: Run, e: Event)
    requires OneTail(p) && LoopInv(p, s) && TailInv(p, s) && DrainInv(p, s) && Enabled(p, s, e)
    requires Apply(p, s, e).tail.TailDraining? && !e.LateWaitEnds?
    ensures DrainInv(p, Apply(p, s, e))
  {
    hide OneTail;
    hide LoopInv;
    var s' := Apply(p, s, e);
    DrainGoesOn(p, s, e);
    WorkEffects(p, s, e);
    hide Apply;
    assert StartedWithRole(p, s, LateSettle);
    var i: nat :| i < s.started <= |p.stages| && p.stages[i].role == LateSettle;
    hide TailInv;
    assert LateSettleAt(p, s, i);
    forall l: nat, j: nat | LateSettleAt(p, s', l) && j in s'.unsettled && j < |p.stages|
      ensures p.stages[j].mayWriteDatabase ==> l <= j
    {
      LateSettleIsOne(p, s, s', i, l);
    }
  }

  // Only the end of the wait begins a drain.
  lemma DrainGoesOn(p: Plan, s: Run, e: Event)
    requires Enabled(p, s, e) && !e.LateWaitEnds? && Apply(p, s, e).tail.TailDraining?
    ensures s.tail.TailDraining?
  {
    hide SeenWriters;
    hide SeenUnsettled;
    TailEffects(p, s, e);
  }

  lemma {:induction false} DrainInvAlways(p: Plan, es: seq<Event>)
    requires OneTail(p) && TailSeesStragglers(p)
    ensures LoopInv(p, After(p, es)) && TailInv(p, After(p, es)) && DrainInv(p, After(p, es))
  {
    TailInvAlways(p, es);
    if es != [] {
      DrainInvAlways(p, es[..|es| - 1]);
      if Enabled(p, After(p, es[..|es| - 1]), es[|es| - 1]) {
        DrainInvStep(p, After(p, es[..|es| - 1]), es[|es| - 1]);
      }
    }
  }

  // The second look before a late close can only refuse because of the late settle itself:
  // when the drain returns and nothing asks to keep the database open, it closes if and only
  // if the late settle has not been abandoned meanwhile.
  lemma LateCloseIff(p: Plan, es: seq<Event>, l: nat)
    requires OneTail(p) && TailSeesStragglers(p)
    requires Enabled(p, After(p, es), DrainEnds(l, true, false))
    requires p.stages[l].mayWriteDatabase
    ensures Closes(After(p, es), Apply(p, After(p, es), DrainEnds(l, true, false))) <==> l !in After(p, es).unsettled
  {
    var s := After(p, es);
    DrainInvAlways(p, es);
    assert s.work[l] == Busy;
    if l in s.unsettled {
      assert Budgeted(p, l);
      assert l in SeenWriters(p, s, l);
    } else {
      assert l == Passed(s);
      assert SeenWriters(p, s, l) == {};
    }
  }

  // The first decision of the late settle: after its wait it goes on to drain if and only if
  // no abandoned writer, itself included, is left.
  lemma LateWaitDecision(p: Plan, es: seq<Event>, l: nat)
    requires OneTail(p) && TailSeesStragglers(p)
    requires Enabled(p, After(p, es), LateWaitEnds(l))
    requires After(p, es).closeDeferred
    ensures Apply(p, After(p, es), LateWaitEnds(l)).tail.TailDraining? <==>
            forall j: nat | j in After(p, es).unsettled && j < |p.stages| :: !p.stages[j].mayWriteDatabase
  {
    var s := After(p, es);
    LoopInvAlways(p, es);
    assert p.stages[l].role != Cleanup;
    if !Budgeted(p, l) {
      assert s.unsettled == {};
    }
    assert forall j: nat :: j in SeenWriters(p, s, l) <==>
      j in s.unsettled && j < |p.stages| && p.stages[j].mayWriteDatabase;
  }

  // ----- the documented promise -----

  lemma AfterOneMore(p: Plan, es: seq<Event>, e: Event)
    ensures After(p, es + [e]) == Then(p, After(p, es), e)
  {
    assert (es + [e])[..|es|] == es;
  }

  const LatePlan := Plan([ Stage("recording finalizer", Some(10), true, Cleanup),
                           Stage("database", Some(10), true, CloseDatabase),
                           Stage("late abandoned stage settle", Some(10), true, LateSettle),
                           Stage("logger", Some(10), true, Cleanup) ], true, true, 0, 0)

  // The comment at src/shutdownCleanup.ts:251 says that a shutdown whose stragglers all
  // finish before the sequence ends still closes the database. It need not: here the only
  // straggler finishes while the logger stage runs, the run resolves, and the database,
  // which nothing asked to keep open, is never closed.
  lemma StragglerDuringLoggerLeavesDatabaseOpen()
    ensures exists es: seq<Event> ::
              After(LatePlan, es).phase == Ended(Resolved) && After(LatePlan, es).unsettled == {}
              && !DatabaseClosed(After(LatePlan, es)) && StartedWithRole(LatePlan, After(LatePlan, es), LateSettle)
              && (forall c | c in After(LatePlan, es).checks :: c.verdict != KeptOpen)
  {
    hide After;
    var p := LatePlan;
    var es1 := WriterRemains();
    var es2 := LoggerStarts(es1);
    var es := StragglerFinishes(es2);
    assert p.stages[2].role == LateSettle;
    assert StartedWithRole(p, After(p, es), LateSettle);
  }

  // The late settle gives up: the straggler is still there when its wait ends.
  lemma WriterRemains() returns (es: seq<Event>)
    ensures var s := After(LatePlan, es);
            && s.phase == Awaiting(Undecided) && s.started == 3 && s.work == [Busy, Fulfilled, Busy, Unstarted]
            && s.unsettled == {0} && s.failures == [] && s.tail == TailDone(WritersRemain)
            && s.checks == [Check(1, Deferred)]
  {
    hide After;
    var p := LatePlan;
    var es1 := DeferredByStraggler();
    var es2 := es1 + [StageStarts(false)];
    AfterOneMore(p, es1, StageStarts(false));
    var s := After(p, es2);
    assert s.work == [Busy, Fulfilled, Busy, Unstarted];
    assert LateSettleAt(p, s, 2) && s.tail.TailWaiting? && s.tail.wakeMs == s.nowMs;
    assert 0 in SeenWriters(p, s, 2);
    hide SeenWriters;
    es := es2 + [LateWaitEnds(2)];
    AfterOneMore(p, es2, LateWaitEnds(2));
  }

  lemma LoggerStarts(es0: seq<Event>) returns (es: seq<Event>)
    requires var s := After(LatePlan, es0);
             s.phase == Awaiting(Undecided) && s.started == 3 && s.work == [Busy, Fulfilled, Busy, Unstarted]
             && s.unsettled == {0} && s.failures == [] && s.tail == TailDone(WritersRemain)
    ensures var s := After(LatePlan, es0);
            var s' := After(LatePlan, es);
            s'.phase == Awaiting(Undecided) && s'.started == 4 && s'.work == [Busy, Fulfilled, Fulfilled, Busy]
            && s'.unsettled == {0} && s'.failures == [] && s'.checks == s.checks
  {
    hide After;
    hide SeenWriters;
    hide SeenUnsettled;
    var p := LatePlan;
    var es1 := es0 + [WorkSettles(2, true)];
    AfterOneMore(p, es0, WorkSettles(2, true));
    assert After(p, es1).work == [Busy, Fulfilled, Fulfilled, Unstarted];
    var es2 := es1 + [RunnerResumes];
    AfterOneMore(p, es1, RunnerResumes);
    assert After(p, es2).phase == Between && After(p, es2).work == After(p, es1).work;
    es := es2 + [StageStarts(false)];
    AfterOneMore(p, es2, StageStarts(false));
    assert After(p, es).work == [Busy, Fulfilled, Fulfilled, Busy];
  }

  lemma DeferredByStraggler() returns (es: seq<Event>)
    ensures After(LatePlan, es) ==
            Run(10, Between, 2, [Busy, Fulfilled, Unstarted, Unstarted], 20, Some(20), [], {0},
                [TimeoutReport(0)], true, [Check(1, Deferred)], TailIdle)
  {
    hide After;
    var p := LatePlan;
    var es1 := FirstAbandoned();
    var es2 := es1 + [StageStarts(false)];
    AfterOneMore(p, es1, StageStarts(false));
    assert 0 in SeenWriters(p, After(p, es2).(closeDeferred := false, checks := []), 1);
    assert After(p, es2).closeDeferred && After(p, es2).checks == [Check(1, Deferred)];
    hide SeenWriters;
    var es3 := es2 + [WorkSettles(1, true)];
    AfterOneMore(p, es2, WorkSettles(1, true));
    assert After(p, es3).work == [Busy, Fulfilled, Unstarted, Unstarted];
    es := es3 + [RunnerResumes];
    AfterOneMore(p, es3, RunnerResumes);
  }

  lemma FirstAbandoned() returns (es: seq<Event>)
    ensures After(LatePlan, es) ==
            Run(10, Between, 1, [Busy, Unstarted, Unstarted, Unstarted], 10, Some(10), [], {0},
                [TimeoutReport(0)], false, [], TailIdle)
  {
    var p := LatePlan;
    assert After(p, []) == Init(p);
    hide After;
    hide SeenWriters;
    hide SeenUnsettled;
    var es1 := [] + [StageStarts(false)];
    AfterOneMore(p, [], StageStarts(false));
    assert After(p, es1).work == [Busy, Unstarted, Unstarted, Unstarted];
    es := FirstTimesOut(es1);
  }

  lemma FirstTimesOut(es0: seq<Event>) returns (es: seq<Event>)
    requires After(LatePlan, es0) ==
             Run(0, Awaiting(Undecided), 1, [Busy, Unstarted, Unstarted, Unstarted], 10, Some(10), [], {},
                 [], false, [], TailIdle)
    ensures After(LatePlan, es) ==
            Run(10, Between, 1, [Busy, Unstarted, Unstarted, Unstarted], 10, Some(10), [], {0},
                [TimeoutReport(0)], false, [], TailIdle)
  {
    hide After;
    var p := LatePlan;
    var es1 := es0 + [Tick(10)];
    AfterOneMore(p, es0, Tick(10));
    var es2 := es1 + [TimerFires];
    AfterOneMore(p, es1, TimerFires);
    es := es2 + [RunnerResumes];
    AfterOneMore(p, es2, RunnerResumes);
  }

  lemma StragglerFinishes(es0: seq<Event>) returns (es: seq<Event>)
    requires var s := After(LatePlan, es0);
             s.phase == Awaiting(Undecided) && s.started == 4 && s.work == [Busy, Fulfilled, Fulfilled, Busy]
             && s.unsettled == {0} && s.failures == []
    ensures var s := After(LatePlan, es0);
            After(LatePlan, es).phase == Ended(Resolved) && After(LatePlan, es).unsettled == {}
            && After(LatePlan, es).checks == s.checks && After(LatePlan, es).started == s.started
  {
    hide After;
    var p := LatePlan;
    var es1 := es0 + [WorkSettles(0, true)];
    AfterOneMore(p, es0, WorkSettles(0, true));
    var es2 := es1 + [LateOutcome(0)];
    AfterOneMore(p, es1, LateOutcome(0));
    es := LoggerFinishes(es2);
  }

  lemma LoggerFinishes(es0: seq<Event>) returns (es: seq<Event>)
    requires var s := After(LatePlan, es0);
             s.phase == Awaiting(Undecided) && s.started == 4 && s.work == [Fulfilled, Fulfilled, Fulfilled, Busy]
             && s.unsettled == {} && s.failures == []
    ensures var s := After(LatePlan, es0);
            After(LatePlan, es).phase == Ended(Resolved) && After(LatePlan, es).unsettled == {}
            && After(LatePlan, es).checks == s.checks && After(LatePlan, es).started == s.started
  {
    hide After;
    var p := LatePlan;
    var es1 := es0 + [WorkSettles(3, true)];
    AfterOneMore(p, es0, WorkSettles(3, true));
    assert After(p, es1).work == [Fulfilled, Fulfilled, Fulfilled, Fulfilled];
    assert After(p, es1).phase == Awaiting(WorkWon);
    var es2 := es1 + [RunnerResumes];
    AfterOneMore(p, es1, RunnerResumes);
    es := es2 + [SequenceEnds];
    AfterOneMore(p, es2, SequenceEnds);
  }
}
