// When the database closes: never around a running writer, at most once, and exactly when.
module ShutdownSafety {
  import opened Options
  import opened StageTables
  import opened ShutdownProtocol

  // The tail's stages see the abandoned work: they have a deadline of their own, or no
  // stage of the run has one.
  predicate TailSeesStragglers(p: Plan) {
    p.timed ==> forall i :: 0 <= i < |p.stages| && p.stages[i].role != Cleanup ==> p.stages[i].budgetMs.Some?
  }

  ghost predicate StartedWithRole(p: Plan, s: Run, role: Role) {
    exists i :: 0 <= i < s.started <= |p.stages| && p.stages[i].role == role
  }

  ghost predicate LateSettleBusy(p: Plan, s: Run) {
    forall i: nat | LateSettleAt(p, s, i) && i < |s.work| :: s.work[i] == Busy
  }

  // The log of looks at the database and the late settle's progress agree.
  ghost predicate ChecksInv(p: Plan, s: Run) {
    && |s.checks| <= 2
    && s.closeDeferred == (|s.checks| > 0 && s.checks[|s.checks| - 1].verdict == Deferred)
    && (|s.checks| >= 1 ==>
      p.direct && s.checks[0].stage < s.started <= |p.stages| && p.stages[s.checks[0].stage].role == CloseDatabase)
    && (|s.checks| == 2 ==>
      s.checks[0].verdict == Deferred && s.checks[1].stage < |p.stages| && p.stages[s.checks[1].stage].role == LateSettle)
    && (s.tail == TailDone(Rechecked) <==> |s.checks| == 2)
    && (p.direct && StartedWithRole(p, s, CloseDatabase) ==> |s.checks| >= 1)
  }

  ghost predicate TailInv(p: Plan, s: Run) {
    && ChecksInv(p, s)
    && (s.tail == TailIdle <==> !StartedWithRole(p, s, LateSettle))
    && (s.tail.TailDraining? ==> s.closeDeferred)
    && (s.tail == TailDone(NothingOwed) ==> !s.closeDeferred)
    && (s.tail == TailDone(WritersRemain) || s.tail == TailDone(DrainFailed) ==> s.closeDeferred)
    // the late settle's body is not over before its tail is
    && (s.tail.TailWaiting? || s.tail.TailDraining? ==> LateSettleBusy(p, s))
  }

  lemma StartedGrows(p: Plan, s: Run, s': Run, role: Role)
    requires s.started < |p.stages| && s'.started == s.started + 1
    ensures StartedWithRole(p, s', role) <==> StartedWithRole(p, s, role) || p.stages[s.started].role == role
  {
    if StartedWithRole(p, s, role) {
      var i :| 0 <= i < s.started <= |p.stages| && p.stages[i].role == role;
      assert 0 <= i < s'.started <= |p.stages| && p.stages[i].role == role;
    }
    if p.stages[s.started].role == role {
      assert 0 <= s.started < s'.started <= |p.stages| && p.stages[s.started].role == role;
    }
  }

  // A stage of the tail that starts is the first of its role, and the close comes first.
  lemma TailStartsOnce(p: Plan, s: Run)
    requires OneTail(p) && s.started < |p.stages|
    ensures p.stages[s.started].role != Cleanup ==> !StartedWithRole(p, s, p.stages[s.started].role)
    ensures p.stages[s.started].role == CloseDatabase ==> !StartedWithRole(p, s, LateSettle)
  {}

  // A stage that is no stage of the tail, or a close in a process without the database.
  lemma TailInvPlain(p: Plan, s: Run, s': Run)
    requires TailInv(p, s) && s.started < |p.stages| == |s.work| && StartedBy(p, s, s') && SameTail(s, s')
    requires p.stages[s.started].role != LateSettle
    requires p.stages[s.started].role == CloseDatabase ==> !p.direct
    ensures TailInv(p, s')
  {
    StartedGrows(p, s, s', LateSettle);
    StartedGrows(p, s, s', CloseDatabase);
    hide StartedWithRole;
    assert forall k: nat | LateSettleAt(p, s', k) :: k != s.started && LateSettleAt(p, s, k);
  }

  // The close: the log of looks begins here.
  lemma TailInvClose(p: Plan, s: Run, s': Run, verdict: Verdict)
    requires OneTail(p) && TailInv(p, s) && s.started < |p.stages| == |s.work| && StartedBy(p, s, s')
    requires p.stages[s.started].role == CloseDatabase && p.direct && s'.tail == s.tail
    requires s'.checks == s.checks + [Check(s.started, verdict)] && s'.closeDeferred == (verdict == Deferred)
    ensures TailInv(p, s')
  {
    TailStartsOnce(p, s);
    StartedGrows(p, s, s', LateSettle);
    StartedGrows(p, s, s', CloseDatabase);
    assert s.tail == TailIdle && s.checks == [];
  }

  // The late settle: its body begins to wait, or has nothing to do.
  lemma TailInvSettle(p: Plan, s: Run, s': Run)
    requires OneTail(p) && TailInv(p, s) && s.started < |p.stages| == |s.work| && StartedBy(p, s, s')
    requires p.stages[s.started].role == LateSettle
    requires s'.checks == s.checks && s'.closeDeferred == s.closeDeferred
    requires s'.tail.TailWaiting? || (s'.tail == TailDone(NothingOwed) && !s.closeDeferred)
    ensures TailInv(p, s')
  {
    TailStartsOnce(p, s);
    StartedGrows(p, s, s', LateSettle);
    StartedGrows(p, s, s', CloseDatabase);
    assert s.tail == TailIdle;
    forall k: nat | LateSettleAt(p, s', k) ensures k == s.started {
      assert p.stages[k].role == p.stages[s.started].role;
    }
  }

  lemma TailInvStart(p: Plan, s: Run, keepOpen: bool)
    requires OneTail(p) && LoopInv(p, s) && TailInv(p, s) && Enabled(p, s, StageStarts(keepOpen))
    ensures TailInv(p, StartStage(p, s, keepOpen))
  {
    hide TailInv;
    hide LoopInv;
    hide OneTail;
    hide SeenWriters;
    hide SeenUnsettled;
    var i, s' := s.started, StartStage(p, s, keepOpen);
    StartEffects(p, s, keepOpen);
    hide StartedBy;
    match p.stages[i].role {
      case Cleanup => TailInvPlain(p, s, s');
      case CloseDatabase =>
        if p.direct {
          assert s'.checks == s.checks + [s'.checks[|s.checks|]];
          TailInvClose(p, s, s', s'.checks[|s.checks|].verdict);
        } else {
          TailInvPlain(p, s, s');
        }
      case LateSettle => TailInvSettle(p, s, s');
    }
  }

  // Events of the loop that start no stage leave the tail as it was.
  lemma TailInvQuiet(p: Plan, s: Run, s': Run)
    requires TailInv(p, s) && s'.started == s.started && s'.work == s.work && SameTail(s, s')
    ensures TailInv(p, s')
  {
    assert forall role :: StartedWithRole(p, s', role) == StartedWithRole(p, s, role);
    assert forall k: nat :: LateSettleAt(p, s', k) == LateSettleAt(p, s, k);
  }

  lemma TailInvWork(p: Plan, s: Run, i: nat, ok: bool)
    requires TailInv(p, s) && Enabled(p, s, WorkSettles(i, ok))
    ensures TailInv(p, SettleWork(s, i, ok))
  {
    var s' := SettleWork(s, i, ok);
    assert forall role :: StartedWithRole(p, s', role) == StartedWithRole(p, s, role);
    if s.tail.TailWaiting? || s.tail.TailDraining? {
      assert forall k: nat | LateSettleAt(p, s', k) :: k != i && LateSettleAt(p, s, k);
    }
  }

  lemma TailInvTail(p: Plan, s: Run, e: Event)
    requires TailInv(p, s) && Enabled(p, s, e) && (e.LateWaitEnds? || e.DrainEnds?)
    ensures TailInv(p, Apply(p, s, e))
  {
    var s' := Apply(p, s, e);
    var i := e.stage;
    assert StartedWithRole(p, s, LateSettle);
    assert forall role :: StartedWithRole(p, s', role) == StartedWithRole(p, s, role);
    assert forall k: nat :: LateSettleAt(p, s', k) == LateSettleAt(p, s, k);
    assert e.LateWaitEnds? ==> s'.checks == s.checks && s'.closeDeferred == s.closeDeferred;
    if e.DrainEnds? {
      assert |s.checks| == 1 && s.checks[0].verdict == Deferred;
    }
  }

  lemma TailInvStep(p: Plan, s: Run, e: Event)
    requires OneTail(p) && LoopInv(p, s) && TailInv(p, s) && Enabled(p, s, e)
    ensures TailInv(p, Apply(p, s, e))
  {
    hide TailInv;
    hide LoopInv;
    hide OneTail;
    hide StartStage;
    hide SettleWork;
    match e {
      case StageStarts(keepOpen) => TailInvStart(p, s, keepOpen);
      case LateWaitEnds(_) => TailInvTail(p, s, e);
      case DrainEnds(_, _, _) => TailInvTail(p, s, e);
      case WorkSettles(i, ok) => TailInvWork(p, s, i, ok);
      case _ =>
        PhaseEffects(p, s, e);
        TailEffects(p, s, e);
        WorkEffects(p, s, e);
        hide Apply;
        TailInvQuiet(p, s, Apply(p, s, e));
    }
  }

  lemma {:induction false} TailInvAlways(p: Plan, es: seq<Event>)
    requires OneTail(p)
    ensures LoopInv(p, After(p, es)) && TailInv(p, After(p, es))
  {
    LoopInvAlways(p, es);
    if es != [] {
      TailInvAlways(p, es[..|es| - 1]);
      if Enabled(p, After(p, es[..|es| - 1]), es[|es| - 1]) {
        TailInvStep(p, After(p, es[..|es| - 1]), es[|es| - 1]);
      }
    }
  }

  // ----- main results -----

  predicate Closes(s: Run, s': Run) {
    |s'.checks| > |s.checks| && s'.checks[|s'.checks| - 1].verdict == Closed
  }

  // Every stage that may write, other than the caller, has settled; and a caller that may
  // write is the stage the loop is awaiting.
  ghost predicate NoWriterRuns(p: Plan, s: Run, caller: nat)
    requires |s.work| == |p.stages|
  {
    forall j :: 0 <= j < |p.stages| && p.stages[j].mayWriteDatabase && j != caller
                && (j < caller || p.stages[caller].mayWriteDatabase)
                ==> s.work[j] == Unstarted || IsSettled(s.work[j])
  }

  // A caller that sees no writer, at the instant the loop has passed every stage before it.
  lemma NoWriterSeen(p: Plan, s: Run, caller: nat)
    requires TailSeesStragglers(p) && LoopInv(p, s)
    requires caller < |p.stages| && p.stages[caller].role != Cleanup && SeenWriters(p, s, caller) == {}
    requires caller <= Passed(s) && (caller < Passed(s) ==> s.work[caller] == Busy)
    ensures NoWriterRuns(p, s, caller)
  {
    assert s.unsettled == {} || Budgeted(p, caller) by {
      if k: nat :| k in s.unsettled {
        assert Budgeted(p, k);
      }
    }
    forall j | 0 <= j < |p.stages| && p.stages[j].mayWriteDatabase && j != caller
               && (j < caller || p.stages[caller].mayWriteDatabase)
      ensures s.work[j] == Unstarted || IsSettled(s.work[j])
    {
      assert j !in SeenWriters(p, s, caller);
      assert caller < Passed(s) ==> caller in s.unsettled && caller !in SeenWriters(p, s, caller);
    }
  }

  ghost predicate SafeClose(p: Plan, s': Run) {
    && s'.checks != [] && |s'.work| == |p.stages|
    && s'.checks[|s'.checks| - 1].stage < |p.stages|
    && NoWriterRuns(p, s', s'.checks[|s'.checks| - 1].stage)
  }

  lemma CloseAtStart(p: Plan, s: Run, keepOpen: bool)
    requires TailSeesStragglers(p) && LoopInv(p, s) && Enabled(p, s, StageStarts(keepOpen))
    requires Closes(s, StartStage(p, s, keepOpen))
    ensures SafeClose(p, StartStage(p, s, keepOpen))
  {
    var i := s.started;
    var s' := StartStage(p, s, keepOpen);
    assert p.stages[i].role == CloseDatabase && s'.work == s.work[i := Busy];
    assert SeenWriters(p, s', i) == SeenWriters(p, s, i) == {};
    NoWriterSeen(p, s, i);
  }

  lemma CloseAtDrain(p: Plan, s: Run, i: nat, keepOpen: bool)
    requires TailSeesStragglers(p) && LoopInv(p, s) && TailInv(p, s)
    requires s.tail.TailDraining? && LateSettleAt(p, s, i)
    requires Closes(s, CloseUnlessStillWriting(p, s, i, keepOpen))
    ensures SafeClose(p, CloseUnlessStillWriting(p, s, i, keepOpen))
  {
    assert s.work[i] == Busy && SeenWriters(p, s, i) == {};
    NoWriterSeen(p, s, i);
  }

  lemma CloseStepIsSafe(p: Plan, s: Run, e: Event)
    requires OneTail(p) && TailSeesStragglers(p) && LoopInv(p, s) && TailInv(p, s)
    requires Enabled(p, s, e) && Closes(s, Apply(p, s, e))
    ensures SafeClose(p, Apply(p, s, e))
  {
    hide LoopInv;
    hide TailInv;
    hide OneTail;
    hide TailSeesStragglers;
    hide StartStage;
    hide SeenWriters;
    hide SeenUnsettled;
    TailEffects(p, s, e);
    match e {
      case StageStarts(keepOpen) => CloseAtStart(p, s, keepOpen);
      case DrainEnds(l, _, keepOpen) => CloseAtDrain(p, s, l, keepOpen);
      case _ => assert false;
    }
  }

  // In every interleaving, the step that calls `closeDatabase` finds no writer running.
  lemma CloseIsSafe(p: Plan, es: seq<Event>, e: Event)
    requires OneTail(p) && TailSeesStragglers(p)
    requires Closes(After(p, es), After(p, es + [e]))
    ensures SafeClose(p, After(p, es + [e]))
  {
    TailInvAlways(p, es);
    assert (es + [e])[..|es + [e]| - 1] == es;
    CloseStepIsSafe(p, After(p, es), e);
  }

  predicate DatabaseClosed(s: Run) {
    exists k :: 0 <= k < |s.checks| && s.checks[k].verdict == Closed
  }

  lemma CloseLog(p: Plan, s: Run)
    requires TailInv(p, s)
    ensures forall i, j | 0 <= i < |s.checks| && 0 <= j < |s.checks| ::
              s.checks[i].verdict == Closed && s.checks[j].verdict == Closed ==> i == j
    ensures DatabaseClosed(s) <==> s.checks != [] && s.checks[|s.checks| - 1].verdict == Closed
    ensures DatabaseClosed(s) ==> p.direct && !s.closeDeferred
  {
    if DatabaseClosed(s) {
      var k :| 0 <= k < |s.checks| && s.checks[k].verdict == Closed;
      assert k == |s.checks| - 1;
    }
  }

  // `closeDatabase` is called at most once, and never by a process that does not own the
  // database.
  lemma ClosedAtMostOnce(p: Plan, es: seq<Event>, i: nat, j: nat)
    requires OneTail(p)
    requires i < |After(p, es).checks| && j < |After(p, es).checks|
    requires After(p, es).checks[i].verdict == Closed && After(p, es).checks[j].verdict == Closed
    ensures i == j && p.direct
  {
    TailInvAlways(p, es);
    CloseLog(p, After(p, es));
  }
}
