// The exit comes: a process asked to shut down, or whose stdin is lost, always has a next
// step towards its exit, and few of them.
module ProcessExit {
  import opened Options
  import opened ProcessLifecycle

  predicate Leaving(l: Life) {
    l.request.Some? || l.stdinGoneAtMs.Some?
  }

  // The steps towards the exit.
  predicate Serves(e: Event) {
    OnItsOwn(e) || e.HandlerSettles? || e.FinalizerSettles? || e.AnswersSettle?
  }

  // Those that need no handler, finalizer or answer to settle.
  predicate OnItsOwn(e: Event) {
    || e.HandlerTimerFires? || e.HandlerResumes? || e.FinalizerTimerFires? || e.FinalizerResumes?
    || e.AnswerTimerFires? || e.WaitInterrupted? || e.WaitResumes?
  }

  function PhaseSteps(ph: Phase): nat {
    match ph
    case Idle => 5
    case Handling(HandlerPending, _) => 4
    case Handling(_, _) => 3
    case Finalizing(FinalPending, _) => 2
    case Finalizing(_, _) => 1
    case Exited(_) => 0
  }

  function WaitSteps(w: Wait): nat {
    match w
    case Waiting(_) => 2
    case Woken(_) => 1
    case _ => 0
  }

  function StepsLeft(l: Life): (n: nat)
    ensures n <= 7
  {
    PhaseSteps(l.phase) + WaitSteps(l.wait)
  }

  lemma RequestProgress(c: Limits, l: Life, e: Event)
    requires RequestInv(c, l) && Leaving(l) && Enabled(c, l, e) && Requests(e)
    ensures Leaving(Apply(c, l, e)) && StepsLeft(Apply(c, l, e)) <= StepsLeft(l)
    ensures e.WaitResumes? ==> StepsLeft(Apply(c, l, e)) < StepsLeft(l)
  {
    if l.phase != Idle {
      var l' := Apply(c, l, e);
      assert l'.phase == l.phase && l'.request == l.request;
      assert l'.wait == if e.WaitResumes? then WaitOver else l.wait;
    } else {
      assert l.stdinGoneAtMs.Some?;
    }
  }

  lemma MoveProgress(c: Limits, l: Life, e: Event)
    requires RequestInv(c, l) && Leaving(l) && Enabled(c, l, e) && Moves(e)
    ensures Leaving(Apply(c, l, e)) && StepsLeft(Apply(c, l, e)) < StepsLeft(l)
  {
    MoveEffect(c, l, e);
    hide RequestInv;
    hide FinalizationMs;
  }

  // No event takes a leaving process further from its exit, and each such step takes it nearer.
  lemma ServeProgress(c: Limits, l: Life, e: Event)
    requires RequestInv(c, l) && Leaving(l) && Enabled(c, l, e)
    ensures Leaving(Apply(c, l, e))
    ensures StepsLeft(Apply(c, l, e)) <= StepsLeft(l)
    ensures Serves(e) ==> StepsLeft(Apply(c, l, e)) < StepsLeft(l)
  {
    hide RequestInv;
    if Requests(e) {
      RequestProgress(c, l, e);
    } else if Moves(e) {
      MoveProgress(c, l, e);
    } else {
      var l' := Apply(c, l, e);
      assert l'.phase == l.phase && l'.request == l.request && l'.stdinGoneAtMs == l.stdinGoneAtMs;
      assert l'.wait == l.wait || (l.wait.Waiting? && l'.wait.Woken?);
    }
  }

  function Later(a: nat, b: nat): nat {
    if a < b then b else a
  }

  // A leaving process that has not exited always has a step of its own to take: at once, or
  // when the clock reaches the limit it is waiting for, which the clock may.
  lemma NotStuck(c: Limits, l: Life) returns (t: nat, e: Event)
    requires LifeInv(c, l) && Leaving(l) && !l.phase.Exited?
    ensures Enabled(c, l, Tick(t)) && Enabled(c, Apply(c, l, Tick(t)), e) && OnItsOwn(e)
  {
    hide FinalizationMs;
    hide Shutdown;
    t := l.nowMs;
    if l.wait.Waiting? && l.phase != Idle {
      e := WaitInterrupted;
    } else if l.wait.Waiting? {
      t, e := Later(l.nowMs, l.wait.dueMs), AnswerTimerFires;
    } else if l.wait.Woken? {
      e := WaitResumes;
    } else if l.phase.Handling? {
      if l.phase.race.HandlerPending? {
        t, e := Later(l.nowMs, l.phase.dueMs), HandlerTimerFires;
      } else {
        e := HandlerResumes;
      }
    } else {
      assert l.phase.Finalizing?;
      if l.phase.final.FinalPending? {
        t, e := Later(l.nowMs, l.phase.finalDueMs), FinalizerTimerFires;
      } else {
        e := FinalizerResumes;
      }
    }
  }

  lemma OneMore(c: Limits, es: seq<Event>, e: Event)
    ensures After(c, es + [e]) == Then(c, After(c, es), e)
  {
    assert (es + [e])[..|es|] == es;
  }

  predicate AllOnTheirOwn(es: seq<Event>) {
    forall k | 0 <= k < |es| :: es[k].Tick? || OnItsOwn(es[k])
  }

  // From every reachable state of a leaving process the exit is at most seven steps and as
  // many ticks of the clock away, even if the handler, the finalizer and the answers never
  // settle.
  lemma {:induction false} ExitIsReached(c: Limits, es: seq<Event>) returns (more: seq<Event>)
    requires Leaving(After(c, es))
    ensures After(c, es + more).phase.Exited?
    ensures AllOnTheirOwn(more) && |more| <= 2 * StepsLeft(After(c, es)) <= 14
    decreases StepsLeft(After(c, es))
  {
    hide After;
    hide Apply;
    hide Enabled;
    hide Leaving;
    hide RequestInv;
    hide DueInv;
    hide StdinInv;
    hide PhaseSteps;
    hide WaitSteps;
    var l := After(c, es);
    if l.phase.Exited? {
      more := [];
      assert es + more == es;
    } else {
      LifeInvAlways(c, es);
      var t, e := NotStuck(c, l);
      var ticked := es + [Tick(t)];
      OneMore(c, es, Tick(t));
      OneMore(c, ticked, e);
      LifeInvAlways(c, ticked);
      ServeProgress(c, l, Tick(t));
      ServeProgress(c, After(c, ticked), e);
      var rest := ExitIsReached(c, ticked + [e]);
      more := [Tick(t), e] + rest;
      assert es + more == ticked + [e] + rest;
    }
  }

  // How many steps towards the exit a schedule takes from a state on.
  function Taken(c: Limits, es: seq<Event>, from: nat): nat
    requires from <= |es|
    decreases |es| - from
  {
    if from == |es| then 0
    else (if Enabled(c, After(c, es[..from]), es[from]) && Serves(es[from]) then 1 else 0) + Taken(c, es, from + 1)
  }

  // And no schedule, however long, takes more than seven of them: a leaving process cannot
  // be kept busy instead of exiting.
  lemma {:induction false} StepsAreFew(c: Limits, es: seq<Event>, from: nat)
    requires from <= |es| && Leaving(After(c, es[..from]))
    ensures Leaving(After(c, es)) && Taken(c, es, from) + StepsLeft(After(c, es)) <= StepsLeft(After(c, es[..from])) <= 7
    decreases |es| - from
  {
    if from == |es| {
      assert es[..from] == es;
    } else {
      LifeInvAlways(c, es[..from]);
      assert es[..from + 1][..from] == es[..from];
      if Enabled(c, After(c, es[..from]), es[from]) {
        ServeProgress(c, After(c, es[..from]), es[from]);
      }
      StepsAreFew(c, es, from + 1);
    }
  }
}
