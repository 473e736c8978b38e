// A stage without a budget gets the constant context, which shows no abandoned stage. This
// module finds exactly the plans for which that lets the database close around a writer.
module ShutdownHiddenStragglers {
  import opened StageTables
  import opened ShutdownProtocol
  import opened ShutdownSafety
  import opened ShutdownLateClose

  // Stage j may be abandoned while it writes, and the close at c, or a late settle after
  // it, has no budget and so cannot see it.
  predicate Hides(p: Plan, j: nat, c: nat, l: nat) {
    && j < c <= l < |p.stages|
    && Budgeted(p, j) && p.stages[j].mayWriteDatabase
    && p.stages[c].role == CloseDatabase && !Budgeted(p, l)
    && (l == c || p.stages[l].role == LateSettle)
  }

  ghost predicate HidesStragglers(p: Plan) {
    p.direct && exists j: nat, c: nat, l: nat :: Hides(p, j, c, l)
  }

  // The last look closed the database around an earlier stage that may write.
  ghost predicate ClosesAroundWriter(p: Plan, s': Run) {
    && s'.checks != [] && |s'.work| == |p.stages|
    && var caller := s'.checks[|s'.checks| - 1].stage;
       exists j :: 0 <= j < |p.stages| && j < caller && p.stages[j].mayWriteDatabase && s'.work[j] == Busy
  }

  ghost predicate NeverClosesAroundWriter(p: Plan) {
    forall es: seq<Event>, e: Event {:trigger After(p, es), After(p, es + [e])} ::
      Closes(After(p, es), After(p, es + [e])) ==> !ClosesAroundWriter(p, After(p, es + [e]))
  }

  // ----- no hidden straggler, no close around a writer -----

  ghost predicate DeferInv(p: Plan, s: Run) {
    s.checks != [] && s.checks[0].verdict == Deferred ==>
      && s.checks[0].stage < |p.stages|
      && exists j: nat :: j < s.checks[0].stage && Budgeted(p, j) && p.stages[j].mayWriteDatabase
  }

  lemma DeferInvStart(p: Plan, s: Run, keepOpen: bool)
    requires OneTail(p) && LoopInv(p, s) && TailInv(p, s) && DeferInv(p, s) && Enabled(p, s, StageStarts(keepOpen))
    ensures DeferInv(p, StartStage(p, s, keepOpen))
  {
    var i := s.started;
    var s' := StartStage(p, s, keepOpen);
    TailInvStart(p, s, keepOpen);
    if s'.checks != s.checks && s'.checks[0].verdict == Deferred {
      assert p.stages[i].role == CloseDatabase && s'.unsettled == s.unsettled;
      assert s'.checks == [Check(i, Deferred)];
      assert SeenWriters(p, s', i) == SeenWriters(p, s, i) != {};
      var j := AbandonedWriter(p, s, i);
      assert s'.checks[0].stage == i;
    }
  }

  lemma AbandonedWriter(p: Plan, s: Run, i: nat) returns (j: nat)
    requires LoopInv(p, s) && i == s.started == Passed(s) < |p.stages| && SeenWriters(p, s, i) != {}
    ensures j < i && Budgeted(p, j) && p.stages[j].mayWriteDatabase
  {
    j :| j in SeenWriters(p, s, i);
    assert j in SeenUnsettled(p, s, i);
    assert j in s.unsettled;
  }

  lemma DeferInvStep(p: Plan, s: Run, e: Event)
    requires OneTail(p) && LoopInv(p, s) && TailInv(p, s) && DeferInv(p, s) && Enabled(p, s, e)
    ensures DeferInv(p, Apply(p, s, e))
  {
    hide LoopInv;
    hide OneTail;
    hide StartStage;
    match e {
      case StageStarts(keepOpen) => DeferInvStart(p, s, keepOpen);
      case _ =>
        assert s.checks == [] ==> !e.DrainEnds?;
        ChecksGrow(p, s, e);
        TailEffects(p, s, e);
        hide Apply;
        hide TailInv;
    }
  }

  lemma {:induction false} DeferInvAlways(p: Plan, es: seq<Event>)
    requires OneTail(p)
    ensures LoopInv(p, After(p, es)) && TailInv(p, After(p, es)) && DeferInv(p, After(p, es))
  {
    TailInvAlways(p, es);
    if es != [] {
      DeferInvAlways(p, es[..|es| - 1]);
      if Enabled(p, After(p, es[..|es| - 1]), es[|es| - 1]) {
        DeferInvStep(p, After(p, es[..|es| - 1]), es[|es| - 1]);
      }
    }
  }

  lemma CloseAtStartHides(p: Plan, s: Run, keepOpen: bool)
    requires OneTail(p) && LoopInv(p, s) && Enabled(p, s, StageStarts(keepOpen))
    requires Closes(s, StartStage(p, s, keepOpen)) && ClosesAroundWriter(p, StartStage(p, s, keepOpen))
    ensures HidesStragglers(p)
  {
    var i := s.started;
    var s' := StartStage(p, s, keepOpen);
    assert p.stages[i].role == CloseDatabase && s'.work == s.work[i := Busy] && s'.unsettled == s.unsettled;
    assert SeenWriters(p, s', i) == {} && s'.checks[|s'.checks| - 1].stage == i;
    hide StartStage;
    var j: nat :| j < |p.stages| && j < i && p.stages[j].mayWriteDatabase && s'.work[j] == Busy;
    assert j in s.unsettled && Budgeted(p, j);
    assert j !in SeenWriters(p, s', i);
    assert Hides(p, j, i, i);
  }

  // A look that finds no writer, around one that writes: the looking stage has no budget.
  lemma BlindLook(p: Plan, s: Run, l: nat, j: nat)
    requires LoopInv(p, s) && l < s.started && l < |p.stages| && SeenWriters(p, s, l) == {}
    requires j < l && p.stages[j].mayWriteDatabase && s.work[j] == Busy
    ensures !Budgeted(p, l)
  {
    assert j in s.unsettled;
    assert j !in SeenWriters(p, s, l);
  }

  lemma CloseAtDrainHides(p: Plan, s: Run, l: nat, keepOpen: bool)
    requires OneTail(p) && LoopInv(p, s) && TailInv(p, s) && DeferInv(p, s)
    requires s.tail.TailDraining? && LateSettleAt(p, s, l)
    requires Closes(s, CloseUnlessStillWriting(p, s, l, keepOpen))
    requires ClosesAroundWriter(p, CloseUnlessStillWriting(p, s, l, keepOpen))
    ensures HidesStragglers(p)
  {
    var s' := CloseUnlessStillWriting(p, s, l, keepOpen);
    assert s'.checks == s.checks + [Check(l, Closed)] && SeenWriters(p, s, l) == {} && s'.work == s.work;
    hide CloseUnlessStillWriting;
    hide StartedWithRole;
    hide LateSettleBusy;
    var j: nat :| j < |p.stages| && j < l && p.stages[j].mayWriteDatabase && s'.work[j] == Busy;
    BlindLook(p, s, l, j);
    hide LoopInv;
    hide SeenWriters;
    assert |s.checks| == 1 && s.checks[0].verdict == Deferred;
    var c := s.checks[0].stage;
    var w: nat :| w < c && Budgeted(p, w) && p.stages[w].mayWriteDatabase;
    assert Hides(p, w, c, l);
  }

  lemma SafeIfNothingHides(p: Plan, es: seq<Event>, e: Event)
    requires OneTail(p) && Closes(After(p, es), After(p, es + [e]))
    requires ClosesAroundWriter(p, After(p, es + [e]))
    ensures HidesStragglers(p)
  {
    DeferInvAlways(p, es);
    AfterOneMore(p, es, e);
    var s := After(p, es);
    hide After;
    StepHides(p, s, e);
  }

  lemma StepHides(p: Plan, s: Run, e: Event)
    requires OneTail(p) && LoopInv(p, s) && TailInv(p, s) && DeferInv(p, s)
    requires Closes(s, Then(p, s, e)) && ClosesAroundWriter(p, Then(p, s, e))
    ensures HidesStragglers(p)
  {
    hide OneTail;
    hide LoopInv;
    hide TailInv;
    hide DeferInv;
    hide HidesStragglers;
    hide StartStage;
    hide SeenWriters;
    hide SeenUnsettled;
    TailEffects(p, s, e);
    match e {
      case StageStarts(keepOpen) => CloseAtStartHides(p, s, keepOpen);
      case DrainEnds(l, _, keepOpen) => CloseAtDrainHides(p, s, l, keepOpen);
      case _ => assert false;
    }
  }

  // ----- a hidden straggler, a run that closes around it -----

  // The loop is about to start stage k, with stage j abandoned and still busy if it is past it.
  ghost predicate Driven(p: Plan, s: Run, j: nat, c: nat, k: nat) {
    && LoopInv(p, s) && s.phase.Between? && s.started == k && s.tail == TailIdle
    && (j < k ==> j in s.unsettled && j < |s.work| && s.work[j] == Busy)
    && s.checks == (if c < k then [Check(c, Deferred)] else [])
    && s.closeDeferred == (c < k)
    && p.startedAtMs <= s.nowMs
  }

  ghost predicate Drivable(p: Plan, j: nat, c: nat, k: nat) {
    && OneTail(p) && p.direct && j < c < |p.stages| && k <= |p.stages|
    && Budgeted(p, j) && p.stages[j].mayWriteDatabase && p.stages[c].role == CloseDatabase
    && (c < k ==> Budgeted(p, c))
    && (forall i | 0 <= i < k :: p.stages[i].role != LateSettle)
  }

  // The body of stage k is running, and stage k is not the one to abandon.
  ghost predicate MidStage(p: Plan, s: Run, j: nat, c: nat, k: nat) {
    && LoopInv(p, s) && s.phase == Awaiting(Undecided) && s.started == k + 1 && s.tail == TailIdle
    && (j < k ==> j in s.unsettled && j < |s.work| && s.work[j] == Busy)
    && s.checks == (if c <= k then [Check(c, Deferred)] else [])
    && s.closeDeferred == (c <= k) && p.startedAtMs <= s.nowMs
  }

  lemma DriveStart(p: Plan, s: Run, j: nat, c: nat, k: nat)
    requires Drivable(p, j, c, k + 1) && Driven(p, s, j, c, k)
    ensures MidStage(p, StartStage(p, s, false), j, c, k)
  {
    var s1 := StartStage(p, s, false);
    StartEffects(p, s, false);
    LoopInvStart(p, s, s1);
    assert p.stages[k].role == CloseDatabase <==> k == c;
    if k == c {
      assert j in SeenWriters(p, s1, k);
    }
  }

  // What the loop is past is left alone by the settling and passing of stage k.
  lemma DriveSettle(p: Plan, s: Run, j: nat, c: nat, k: nat)
    requires MidStage(p, s, j, c, k) && j != k && k < |p.stages| && p.stages[k].role != LateSettle
    ensures Enabled(p, s, WorkSettles(k, true))
    ensures var s1 := Apply(p, s, WorkSettles(k, true));
            && Enabled(p, s1, RunnerResumes) && Driven(p, Apply(p, s1, RunnerResumes), j, c, k + 1)
  {
    assert s.work[k] == Busy;
    var s1 := SettleWork(s, k, true);
    assert s1 == s.(work := s.work[k := Fulfilled], phase := Awaiting(WorkWon));
    LoopInvWork(p, s, k, true);
    assert Resume(p, s1) == s1.(phase := Between, wakeMs := Resume(p, s1).wakeMs);
    ResumeEffects(p, s1);
    LoopInvResume(p, s1, Resume(p, s1));
    hide LoopInv;
    hide Resume;
    hide SettleWork;
  }

  // Stage k starts and settles at once.
  lemma DriveOn(p: Plan, es: seq<Event>, j: nat, c: nat, k: nat) returns (es': seq<Event>)
    requires Drivable(p, j, c, k + 1) && j != k && Driven(p, After(p, es), j, c, k)
    ensures Driven(p, After(p, es'), j, c, k + 1)
  {
    hide After;
    hide LoopInv;
    hide OneTail;
    hide Apply;
    var es1 := es + [StageStarts(false)];
    AfterOneMore(p, es, StageStarts(false));
    DriveFirst(p, After(p, es), j, c, k);
    hide Driven;
    DriveSettle(p, After(p, es1), j, c, k);
    hide MidStage;
    hide Enabled;
    var es2 := es1 + [WorkSettles(k, true)];
    AfterOneMore(p, es1, WorkSettles(k, true));
    es' := es2 + [RunnerResumes];
    AfterOneMore(p, es2, RunnerResumes);
  }

  lemma DriveFirst(p: Plan, s: Run, j: nat, c: nat, k: nat)
    requires Drivable(p, j, c, k + 1) && Driven(p, s, j, c, k)
    ensures Enabled(p, s, StageStarts(false)) && k < |p.stages| && p.stages[k].role != LateSettle
    ensures MidStage(p, Apply(p, s, StageStarts(false)), j, c, k)
    ensures var s' := Apply(p, s, StageStarts(false));
            (s'.wakeMs.Some? <==> Budgeted(p, k)) && (s'.wakeMs.Some? ==> s'.nowMs <= s'.wakeMs.value)
  {
    hide MidStage;
    DriveStart(p, s, j, c, k);
    StartEffects(p, s, false);
    hide StartStage;
  }

  // The deadline of stage j passes, and it is abandoned.
  lemma DriveTimeout(p: Plan, s: Run, j: nat, c: nat)
    requires MidStage(p, s, j, c, j) && j < c && j < |p.stages|
    requires s.wakeMs.Some? && s.nowMs <= s.wakeMs.value
    ensures Enabled(p, s, Tick(s.wakeMs.value))
    ensures var s1 := Apply(p, s, Tick(s.wakeMs.value));
            && Enabled(p, s1, TimerFires) && Enabled(p, Apply(p, s1, TimerFires), RunnerResumes)
            && Driven(p, Apply(p, Apply(p, s1, TimerFires), RunnerResumes), j, c, j + 1)
  {
    var s2 := s.(nowMs := s.wakeMs.value, phase := Awaiting(TimerWon));
    assert Budgeted(p, j) && s.work[j] == Busy;
    assert LoopInv(p, s2);
    ResumeEffects(p, s2);
    LoopInvResume(p, s2, Resume(p, s2));
    hide LoopInv;
  }

  // Stage j starts, its deadline passes, and it is abandoned.
  lemma DriveAbandon(p: Plan, es: seq<Event>, j: nat, c: nat) returns (es': seq<Event>)
    requires Drivable(p, j, c, j + 1) && Driven(p, After(p, es), j, c, j)
    ensures Driven(p, After(p, es'), j, c, j + 1)
  {
    hide After;
    hide LoopInv;
    hide OneTail;
    hide Apply;
    var es1 := es + [StageStarts(false)];
    AfterOneMore(p, es, StageStarts(false));
    var s1 := After(p, es1);
    DriveFirst(p, After(p, es), j, c, j);
    hide Driven;
    DriveTimeout(p, s1, j, c);
    hide MidStage;
    hide Enabled;
    var tick := Tick(s1.wakeMs.value);
    var es2 := es1 + [tick];
    AfterOneMore(p, es1, tick);
    var es3 := es2 + [TimerFires];
    AfterOneMore(p, es2, TimerFires);
    es' := es3 + [RunnerResumes];
    AfterOneMore(p, es3, RunnerResumes);
  }

  lemma {:induction false} DriveTo(p: Plan, j: nat, c: nat, k: nat) returns (es: seq<Event>)
    requires Drivable(p, j, c, k)
    ensures Driven(p, After(p, es), j, c, k)
    decreases k
  {
    if k == 0 {
      es := [];
      LoopInvInit(p);
    } else {
      var es0 := DriveTo(p, j, c, k - 1);
      if k - 1 == j {
        es := DriveAbandon(p, es0, j, c);
      } else {
        es := DriveOn(p, es0, j, c, k - 1);
      }
    }
  }

  lemma CloseAtOnce(p: Plan, j: nat, c: nat) returns (es: seq<Event>, e: Event)
    requires OneTail(p) && p.direct && Hides(p, j, c, c)
    ensures Closes(After(p, es), After(p, es + [e])) && ClosesAroundWriter(p, After(p, es + [e]))
  {
    es := DriveTo(p, j, c, c);
    e := StageStarts(false);
    AfterOneMore(p, es, e);
    assert SeenUnsettled(p, After(p, es + [e]), c) == {};
    assert After(p, es + [e]).work[j] == Busy;
  }

  // A late settle without a budget sees nobody: it waits for nothing, and drains.
  lemma SettleBlind(p: Plan, s: Run, j: nat, c: nat, l: nat)
    requires Hides(p, j, c, l) && c < l && Driven(p, s, j, c, l)
    ensures Enabled(p, s, StageStarts(false))
    ensures var s1 := Apply(p, s, StageStarts(false));
            && Enabled(p, s1, LateWaitEnds(l))
            && var s2 := Apply(p, s1, LateWaitEnds(l));
               s2.tail.TailDraining? && LateSettleAt(p, s2, l) && s2.work == s.work[l := Busy] && s2.checks == s.checks
  {
    var s1 := StartStage(p, s, false);
    assert SeenUnsettled(p, s, l) == {} && s1.tail.TailWaiting? && s1.tail.waitedOn == {};
    assert s1.started == l + 1 && s1.work == s.work[l := Busy] && s1.closeDeferred;
    hide StartStage;
    hide LoopInv;
    assert SeenWriters(p, s1, l) == {};
  }

  lemma CloseBlind(p: Plan, s: Run, j: nat, c: nat, l: nat)
    requires Hides(p, j, c, l) && s.tail.TailDraining? && LateSettleAt(p, s, l)
    requires |s.work| == |p.stages| && s.work[j] == Busy
    ensures Enabled(p, s, DrainEnds(l, true, false))
    ensures var s' := Apply(p, s, DrainEnds(l, true, false));
            Closes(s, s') && ClosesAroundWriter(p, s')
  {
    assert SeenWriters(p, s, l) == {};
    assert Apply(p, s, DrainEnds(l, true, false)).checks == s.checks + [Check(l, Closed)];
  }

  lemma CloseAfterDrain(p: Plan, j: nat, c: nat, l: nat) returns (es: seq<Event>, e: Event)
    requires OneTail(p) && p.direct && Hides(p, j, c, l) && c < l && Budgeted(p, c)
    ensures Closes(After(p, es), After(p, es + [e])) && ClosesAroundWriter(p, After(p, es + [e]))
  {
    hide After;
    hide Apply;
    hide Enabled;
    hide ClosesAroundWriter;
    var es0 := DriveTo(p, j, c, l);
    hide OneTail;
    var es1 := es0 + [StageStarts(false)];
    AfterOneMore(p, es0, StageStarts(false));
    SettleBlind(p, After(p, es0), j, c, l);
    es := es1 + [LateWaitEnds(l)];
    AfterOneMore(p, es1, LateWaitEnds(l));
    CloseBlind(p, After(p, es), j, c, l);
    hide Closes;
    e := DrainEnds(l, true, false);
    AfterOneMore(p, es, e);
  }

  // The database never closes around an earlier stage that may write, whatever the
  // interleaving, if and only if the plan hides no straggler from its close.
  lemma ExactlySafe(p: Plan)
    requires OneTail(p)
    ensures NeverClosesAroundWriter(p) <==> !HidesStragglers(p)
  {
    if HidesStragglers(p) {
      var j: nat, c: nat, l: nat :| Hides(p, j, c, l);
      if Budgeted(p, c) {
        var es, e := CloseAfterDrain(p, j, c, l);
        assert !NeverClosesAroundWriter(p);
      } else {
        assert Hides(p, j, c, c);
        var es, e := CloseAtOnce(p, j, c);
        assert !NeverClosesAroundWriter(p);
      }
    } else {
      forall es: seq<Event>, e: Event | Closes(After(p, es), After(p, es + [e]))
        ensures !ClosesAroundWriter(p, After(p, es + [e]))
      {
        if ClosesAroundWriter(p, After(p, es + [e])) {
          SafeIfNothingHides(p, es, e);
        }
      }
    }
  }
}
