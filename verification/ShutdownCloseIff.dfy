// When the database closes, as an equivalence over whole runs.
module ShutdownCloseIff {
  import opened Options
  import opened StageTables
  import opened ShutdownProtocol
  import opened ShutdownSafety
  import opened ShutdownLateClose

  // No abandoned stage that may write is unsettled, the caller's own stage included.
  ghost predicate NoAbandonedWriter(p: Plan, s: Run) {
    forall j: nat | j in s.unsettled && j < |p.stages| :: !p.stages[j].mayWriteDatabase
  }

  // What stands in the way of the late close when its drain returns: the late settle, if it
  // has been abandoned meanwhile and counts as a writer, or else any abandoned writer.
  ghost predicate DrainInTime(p: Plan, s: Run, l: nat)
    requires l < |p.stages|
  {
    if p.stages[l].mayWriteDatabase then l !in s.unsettled else NoAbandonedWriter(p, s)
  }

  // The events that call `closeDatabase`: the database stage starts with no abandoned writer,
  // or the drain of the late settle returns before the late settle is abandoned; and nothing
  // asks to keep the database open.
  ghost predicate ClosesHere(p: Plan, s: Run, e: Event) {
    && Enabled(p, s, e)
    && match e
       case StageStarts(keepOpen) =>
         p.stages[s.started].role == CloseDatabase && p.direct && !keepOpen && NoAbandonedWriter(p, s)
       case DrainEnds(l, ok, keepOpen) => ok && !keepOpen && DrainInTime(p, s, l)
       case _ => false
  }

  lemma SeesAllWriters(p: Plan, s: Run, i: nat)
    requires TailSeesStragglers(p) && LoopInv(p, s) && i < |p.stages| && p.stages[i].role != Cleanup
    ensures SeenWriters(p, s, i) == {} <==> NoAbandonedWriter(p, s)
  {
    assert Budgeted(p, i) || s.unsettled == {};
    assert forall j: nat :: j in SeenWriters(p, s, i) <==>
      j in SeenUnsettled(p, s, i) && j < |p.stages| && p.stages[j].mayWriteDatabase;
  }

  // While it drains, a late settle that counts as a writer sees one exactly if it has been
  // abandoned itself: no stage before it is left, and none after it has started otherwise.
  lemma DrainSees(p: Plan, s: Run, l: nat)
    requires OneTail(p) && TailSeesStragglers(p) && LoopInv(p, s) && TailInv(p, s) && DrainInv(p, s)
    requires s.tail.TailDraining? && LateSettleAt(p, s, l)
    ensures SeenWriters(p, s, l) == {} <==> DrainInTime(p, s, l)
  {
    SeesAllWriters(p, s, l);
    assert s.work[l] == Busy;
    if l !in s.unsettled {
      forall j: nat | j in s.unsettled && j < |p.stages| ensures !p.stages[j].mayWriteDatabase {
        assert j < Passed(s) <= l;
      }
    }
  }

  lemma LookLogged(p: Plan, s: Run, i: nat, keepOpen: bool)
    requires i < |p.stages|
    ensures var s' := CloseUnlessStillWriting(p, s, i, keepOpen);
            && DatabaseClosed(s') == (DatabaseClosed(s) || (!keepOpen && SeenWriters(p, s, i) == {}))
            && (KeptOpenOnce(s') == (KeptOpenOnce(s) || keepOpen))
  {
    var s' := CloseUnlessStillWriting(p, s, i, keepOpen);
    assert s'.checks[..|s.checks|] == s.checks && |s'.checks| == |s.checks| + 1;
    assert forall k | 0 <= k < |s.checks| :: s'.checks[k] == s.checks[k];
    assert s'.checks[|s.checks|].stage == i;
  }

  predicate KeptOpenOnce(s: Run) {
    exists k :: 0 <= k < |s.checks| && s.checks[k].verdict == KeptOpen
  }

  lemma SameLog(s: Run, s': Run)
    requires s'.checks == s.checks
    ensures DatabaseClosed(s') == DatabaseClosed(s) && KeptOpenOnce(s') == KeptOpenOnce(s)
  {}

  lemma ClosedByStart(p: Plan, s: Run, keepOpen: bool)
    requires TailSeesStragglers(p) && LoopInv(p, s) && Enabled(p, s, StageStarts(keepOpen))
    ensures var e := StageStarts(keepOpen);
            DatabaseClosed(Apply(p, s, e)) == (DatabaseClosed(s) || ClosesHere(p, s, e))
  {
    var i, s' := s.started, StartStage(p, s, keepOpen);
    if p.stages[i].role == CloseDatabase && p.direct {
      var s1 := s'.(closeDeferred := s.closeDeferred, checks := s.checks);
      assert s' == CloseUnlessStillWriting(p, s1, i, keepOpen);
      assert SeenWriters(p, s1, i) == SeenWriters(p, s, i);
      LookLogged(p, s1, i, keepOpen);
      SameLog(s, s1);
      SeesAllWriters(p, s, i);
    } else {
      SameLog(s, s');
    }
  }

  lemma ClosedByDrain(p: Plan, s: Run, l: nat, ok: bool, keepOpen: bool)
    requires OneTail(p) && TailSeesStragglers(p) && LoopInv(p, s) && TailInv(p, s) && DrainInv(p, s)
    requires Enabled(p, s, DrainEnds(l, ok, keepOpen))
    ensures var e := DrainEnds(l, ok, keepOpen);
            DatabaseClosed(Apply(p, s, e)) == (DatabaseClosed(s) || ClosesHere(p, s, e))
  {
    DrainSees(p, s, l);
    if ok {
      LookLogged(p, s, l, keepOpen);
      SameLog(CloseUnlessStillWriting(p, s, l, keepOpen), Apply(p, s, DrainEnds(l, ok, keepOpen)));
    } else {
      SameLog(s, Apply(p, s, DrainEnds(l, ok, keepOpen)));
    }
  }

  lemma ClosedByStep(p: Plan, s: Run, e: Event)
    requires OneTail(p) && TailSeesStragglers(p) && LoopInv(p, s) && TailInv(p, s) && DrainInv(p, s)
    ensures DatabaseClosed(Then(p, s, e)) == (DatabaseClosed(s) || ClosesHere(p, s, e))
  {
    hide Apply;
    hide LoopInv;
    hide TailInv;
    hide DrainInv;
    hide OneTail;
    hide DatabaseClosed;
    if Enabled(p, s, e) {
      match e {
        case StageStarts(keepOpen) => ClosedByStart(p, s, keepOpen);
        case DrainEnds(l, ok, keepOpen) => ClosedByDrain(p, s, l, ok, keepOpen);
        case _ =>
          TailEffects(p, s, e);
          SameLog(s, Apply(p, s, e));
      }
    }
  }

  ghost predicate ClosedAt(p: Plan, es: seq<Event>, k: nat) {
    k < |es| && ClosesHere(p, After(p, es[..k]), es[k])
  }

  lemma OneMoreEvent(es: seq<Event>, k: nat)
    requires k < |es|
    ensures es[..|es| - 1][..(if k < |es| - 1 then k else 0)] == es[..(if k < |es| - 1 then k else 0)]
  {}

  // After any schedule the database has been closed if and only if one of its events was the
  // start of the database stage with no abandoned writer unsettled, or the return of the late
  // settle's drain with the late settle not abandoned, and nothing asked to keep it open.
  lemma {:induction false} DatabaseClosedIff(p: Plan, es: seq<Event>)
    requires OneTail(p) && TailSeesStragglers(p)
    ensures DatabaseClosed(After(p, es)) <==> exists k: nat :: ClosedAt(p, es, k)
  {
    if es == [] {
      assert After(p, es).checks == [];
    } else {
      var before, last := es[..|es| - 1], |es| - 1;
      DatabaseClosedIff(p, before);
      DrainInvAlways(p, before);
      ClosedByStep(p, After(p, before), es[last]);
      hide ClosesHere;
      hide DatabaseClosed;
      forall k: nat ensures ClosedAt(p, es, k) <==> (k < last && ClosedAt(p, before, k))
                                                    || (k == last && ClosesHere(p, After(p, before), es[last]))
      {
        if k < |es| {
          OneMoreEvent(es, k);
        }
      }
      if ClosesHere(p, After(p, before), es[last]) {
        assert ClosedAt(p, es, last);
      }
      if k: nat :| ClosedAt(p, before, k) {
        assert ClosedAt(p, es, k);
      }
    }
  }

  // ----- what that comes to for a run that nothing kept open -----

  ghost predicate DatabaseStartsClear(p: Plan, es: seq<Event>, k: nat) {
    && k < |es| && Enabled(p, After(p, es[..k]), es[k]) && es[k].StageStarts?
    && p.stages[After(p, es[..k]).started].role == CloseDatabase
    && NoAbandonedWriter(p, After(p, es[..k]))
  }

  ghost predicate LateWaitEndsClear(p: Plan, es: seq<Event>, k: nat) {
    && k < |es| && Enabled(p, After(p, es[..k]), es[k]) && es[k].LateWaitEnds?
    && After(p, es[..k]).closeDeferred && NoAbandonedWriter(p, After(p, es[..k]))
  }

  ghost predicate DrainReturnsInTime(p: Plan, es: seq<Event>, k: nat) {
    && k < |es| && Enabled(p, After(p, es[..k]), es[k]) && es[k].DrainEnds?
    && DrainInTime(p, After(p, es[..k]), es[k].stage)
  }

  // Only a wait that ends with no writer left begins a drain.
  lemma DrainBegins(p: Plan, s: Run, e: Event)
    requires OneTail(p) && TailSeesStragglers(p) && LoopInv(p, s)
    requires !s.tail.TailDraining? && Then(p, s, e).tail.TailDraining?
    ensures Enabled(p, s, e) && e.LateWaitEnds? && s.closeDeferred && NoAbandonedWriter(p, s)
  {
    hide LoopInv;
    hide OneTail;
    hide TailSeesStragglers;
    hide SeenWriters;
    hide SeenUnsettled;
    hide NoAbandonedWriter;
    assert Enabled(p, s, e);
    if !e.LateWaitEnds? {
      DrainGoesOn(p, s, e);
    }
    SeesAllWriters(p, s, e.stage);
  }

  // A drain has been preceded by a wait that ended with no writer left.
  lemma {:induction false} DrainFollowsClearWait(p: Plan, es: seq<Event>) returns (k: nat)
    requires OneTail(p) && TailSeesStragglers(p) && After(p, es).tail.TailDraining?
    ensures LateWaitEndsClear(p, es, k)
  {
    k := 0;
    if es == [] {
      assert false;
    } else {
      var before, e := es[..|es| - 1], es[|es| - 1];
      var s := After(p, before);
      if s.tail.TailDraining? {
        k := DrainFollowsClearWait(p, before);
        assert es[..k] == before[..k];
      } else {
        k := |es| - 1;
        LoopInvAlways(p, before);
        DrainBegins(p, s, e);
      }
    }
  }

  // Neither a wish to keep the database open nor a failed drain is forgotten.
  lemma StepRemembers(p: Plan, s: Run, e: Event)
    requires OneTail(p) && LoopInv(p, s) && TailInv(p, s)
    ensures KeptOpenOnce(s) ==> KeptOpenOnce(Then(p, s, e))
    ensures s.tail == TailDone(DrainFailed) ==> Then(p, s, e).tail == s.tail
  {
    hide LoopInv;
    if Enabled(p, s, e) {
      ChecksGrow(p, s, e);
      TailEffects(p, s, e);
      if e.StageStarts? && s.tail == TailDone(DrainFailed) {
        TailStartsOnce(p, s);
        assert StartedWithRole(p, s, LateSettle);
        hide TailInv;
        hide OneTail;
        hide SeenWriters;
        assert p.stages[s.started].role != LateSettle;
        assert Apply(p, s, e).tail == s.tail;
      }
      hide Apply;
      assert forall k | 0 <= k < |s.checks| :: Apply(p, s, e).checks[k] == s.checks[k];
    }
  }

  lemma {:induction false} RunRemembers(p: Plan, es: seq<Event>, k: nat)
    requires OneTail(p) && k <= |es|
    ensures KeptOpenOnce(After(p, es[..k])) ==> KeptOpenOnce(After(p, es))
    ensures After(p, es[..k]).tail == TailDone(DrainFailed) ==> After(p, es).tail == TailDone(DrainFailed)
    decreases |es|
  {
    if k == |es| {
      assert es[..k] == es;
    } else {
      var before := es[..|es| - 1];
      RunRemembers(p, before, k);
      assert before[..k] == es[..k];
      TailInvAlways(p, before);
      StepRemembers(p, After(p, before), es[|es| - 1]);
    }
  }

  // What the looks that refuse leave behind.
  lemma RefusalIsLogged(p: Plan, s: Run, e: Event)
    requires Enabled(p, s, e)
    ensures e.StageStarts? && e.keepOpen && p.direct && p.stages[s.started].role == CloseDatabase
            ==> KeptOpenOnce(Apply(p, s, e))
    ensures e.DrainEnds? && e.ok && e.keepOpen ==> KeptOpenOnce(Apply(p, s, e))
    ensures e.DrainEnds? && !e.ok ==> Apply(p, s, e).tail == TailDone(DrainFailed)
  {
    var s' := Apply(p, s, e);
    if |s'.checks| > |s.checks| && s'.checks[|s.checks|].verdict == KeptOpen {
      assert KeptOpenOnce(s');
    }
  }

  lemma NotRefused(p: Plan, es: seq<Event>, k: nat)
    requires OneTail(p) && p.direct && !KeptOpenOnce(After(p, es)) && After(p, es).tail != TailDone(DrainFailed)
    requires DatabaseStartsClear(p, es, k) || DrainReturnsInTime(p, es, k)
    ensures ClosedAt(p, es, k)
  {
    var s := After(p, es[..k]);
    assert es[..k + 1][..k] == es[..k];
    assert After(p, es[..k + 1]) == Apply(p, s, es[k]);
    RefusalIsLogged(p, s, es[k]);
    RunRemembers(p, es, k + 1);
  }

  // In a process that owns the database, when nothing asked to keep it open and the drain of
  // the late settle did not fail, the database is closed if and only if no writer was
  // abandoned when the database stage started, or none, the late settle included, was left
  // when its wait ended and the late settle was not abandoned either by the time its drain
  // returned. That is all there is to the promise that a shutdown whose stragglers finish in
  // time still closes it.
  lemma ClosedIffStragglersFinished(p: Plan, es: seq<Event>)
    requires OneTail(p) && TailSeesStragglers(p) && p.direct
    requires !KeptOpenOnce(After(p, es)) && After(p, es).tail != TailDone(DrainFailed)
    ensures DatabaseClosed(After(p, es)) <==>
              || (exists k: nat :: DatabaseStartsClear(p, es, k))
              || (exists k: nat, m: nat :: k < m && LateWaitEndsClear(p, es, k) && DrainReturnsInTime(p, es, m))
  {
    DatabaseClosedIff(p, es);
    if k: nat :| ClosedAt(p, es, k) {
      if es[k].DrainEnds? {
        var w := DrainFollowsClearWait(p, es[..k]);
        assert es[..k][..w] == es[..w];
        assert LateWaitEndsClear(p, es, w) && DrainReturnsInTime(p, es, k);
      } else {
        assert DatabaseStartsClear(p, es, k);
      }
    }
    if k: nat :| DatabaseStartsClear(p, es, k) {
      NotRefused(p, es, k);
    }
    if k: nat, m: nat :| k < m && LateWaitEndsClear(p, es, k) && DrainReturnsInTime(p, es, m) {
      NotRefused(p, es, m);
    }
  }
}
