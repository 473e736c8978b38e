// What the schedule alone says of a shutdown: who asked first, whether the handler is called,
// and from when on each of the limits may cut in.
module ProcessRequests {
  import opened Options
  import opened ProcessLifecycle

  // The k-th event of a schedule is enabled when its turn comes.
  predicate Happens(c: Limits, es: seq<Event>, k: nat) {
    k < |es| && Enabled(c, After(c, es[..k]), es[k])
  }

  lemma HappensEarlier(c: Limits, es: seq<Event>, k: nat)
    requires k < |es| - 1
    ensures es[..|es| - 1][..k] == es[..k] && es[..|es| - 1][k] == es[k]
    ensures Happens(c, es[..|es| - 1], k) <==> Happens(c, es, k)
  {}

  // ----- the settings -----

  ghost predicate HandlerIsSet(c: Limits, es: seq<Event>) {
    exists k: nat :: Happens(c, es, k) && es[k].SetShutdownHandler?
  }

  ghost predicate StdinWasLost(c: Limits, es: seq<Event>) {
    exists k: nat :: Happens(c, es, k) && es[k].StdinEvent?
  }

  // The setting of the handler, or of the exit code, that is in force.
  ghost predicate LastHandler(c: Limits, es: seq<Event>, k: nat) {
    && Happens(c, es, k) && es[k].SetShutdownHandler?
    && forall j: nat | k < j && Happens(c, es, j) :: !es[j].SetShutdownHandler?
  }

  ghost predicate LastCode(c: Limits, es: seq<Event>, k: nat) {
    && Happens(c, es, k) && es[k].SetShutdownExitCode?
    && forall j: nat | k < j && Happens(c, es, j) :: !es[j].SetShutdownExitCode?
  }

  lemma LastHandlerEarlier(c: Limits, es: seq<Event>, k: nat)
    requires k < |es| - 1 && !(Happens(c, es, |es| - 1) && es[|es| - 1].SetShutdownHandler?)
    ensures LastHandler(c, es, k) <==> LastHandler(c, es[..|es| - 1], k)
  {
    hide Happens;
    forall j: nat | j < |es| - 1
      ensures es[..|es| - 1][j] == es[j] && (Happens(c, es[..|es| - 1], j) <==> Happens(c, es, j))
    {
      HappensEarlier(c, es, j);
    }
    HappensInside(c, es);
    HappensInside(c, es[..|es| - 1]);
  }

  lemma LastCodeEarlier(c: Limits, es: seq<Event>, k: nat)
    requires k < |es| - 1 && !(Happens(c, es, |es| - 1) && es[|es| - 1].SetShutdownExitCode?)
    ensures LastCode(c, es, k) <==> LastCode(c, es[..|es| - 1], k)
  {
    hide Happens;
    forall j: nat | j < |es| - 1
      ensures es[..|es| - 1][j] == es[j] && (Happens(c, es[..|es| - 1], j) <==> Happens(c, es, j))
    {
      HappensEarlier(c, es, j);
    }
    HappensInside(c, es);
    HappensInside(c, es[..|es| - 1]);
  }

  lemma HappensInside(c: Limits, es: seq<Event>)
    ensures forall j: nat | Happens(c, es, j) :: j < |es|
  {}

  // What one event does to the settings and the loss of stdin.
  lemma SettingEffect(c: Limits, l: Life, e: Event)
    requires Enabled(c, l, e)
    ensures var l' := Apply(c, l, e);
            && l'.handlerSet == (l.handlerSet || e.SetShutdownHandler?)
            && l'.finalizerSet == (if e.SetShutdownHandler? then e.finalizer else l.finalizerSet)
            && l'.exitCode == (if e.SetShutdownExitCode? then Some(e.code) else l.exitCode)
            && (l'.stdinGoneAtMs.Some? <==> l.stdinGoneAtMs.Some? || e.StdinEvent?)
  {
    hide Shutdown;
    hide Begins;
    hide ResumeHandler;
    hide ResumeFinalizer;
    match e {
      case ShutdownRequested(signal) => ShutdownEffect(c, l, signal);
      case StdinEvent(answers) =>
        ShutdownEffect(c, l.(stdinGoneAtMs := Some(l.nowMs), goneCallbacks := l.goneCallbacks + 1), StdinLost);
      case StdoutEvent => ShutdownEffect(c, l.(stdoutGone := true), StdoutLost);
      case WaitResumes => ShutdownEffect(c, l.(wait := WaitOver), StdinLost);
      case HandlerResumes => HandlerEffect(c, l);
      case FinalizerResumes => FinalizerEffect(c, l);
      case _ =>
    }
    hide MovesTo;
  }

  lemma {:induction false} HandlerSetting(c: Limits, es: seq<Event>)
    ensures After(c, es).handlerSet <==> HandlerIsSet(c, es)
    ensures forall k: nat | LastHandler(c, es, k) :: After(c, es).finalizerSet == es[k].finalizer
  {
    if es != [] {
      var before, last := es[..|es| - 1], |es| - 1;
      HandlerSetting(c, before);
      assert es[..last] == before;
      if Happens(c, es, last) {
        SettingEffect(c, After(c, before), es[last]);
      }
      hide Apply;
      hide Enabled;
      assert HandlerIsSet(c, es) <==>
        HandlerIsSet(c, before) || (Happens(c, es, last) && es[last].SetShutdownHandler?) by {
        if k: nat :| Happens(c, es, k) && es[k].SetShutdownHandler? {
          if k < last {
            HappensEarlier(c, es, k);
          }
        }
        if k: nat :| Happens(c, before, k) && before[k].SetShutdownHandler? {
          HappensEarlier(c, es, k);
        }
      }
      forall k: nat | LastHandler(c, es, k) ensures After(c, es).finalizerSet == es[k].finalizer {
        if k < last {
          LastHandlerEarlier(c, es, k);
        }
      }
    }
  }

  lemma {:induction false} CodeSetting(c: Limits, es: seq<Event>)
    ensures After(c, es).exitCode.Some? <==> exists k: nat :: LastCode(c, es, k)
    ensures forall k: nat | LastCode(c, es, k) :: After(c, es).exitCode == Some(es[k].code)
  {
    if es != [] {
      var before, last := es[..|es| - 1], |es| - 1;
      CodeSetting(c, before);
      assert es[..last] == before;
      if Happens(c, es, last) {
        SettingEffect(c, After(c, before), es[last]);
      }
      hide Apply;
      hide Enabled;
      if Happens(c, es, last) && es[last].SetShutdownExitCode? {
        assert LastCode(c, es, last);
      } else {
        if k: nat :| LastCode(c, before, k) {
          LastCodeEarlier(c, es, k);
        }
        forall k: nat | LastCode(c, es, k) ensures LastCode(c, before, k) {
          LastCodeEarlier(c, es, k);
        }
      }
    }
  }

  lemma {:induction false} StdinLoss(c: Limits, es: seq<Event>)
    ensures After(c, es).stdinGoneAtMs.Some? <==> StdinWasLost(c, es)
  {
    if es != [] {
      var before, last := es[..|es| - 1], |es| - 1;
      StdinLoss(c, before);
      assert es[..last] == before;
      if Happens(c, es, last) {
        SettingEffect(c, After(c, before), es[last]);
      }
      hide Apply;
      hide Enabled;
      if k: nat :| Happens(c, es, k) && es[k].StdinEvent? {
        if k < last {
          HappensEarlier(c, es, k);
        }
      }
      if k: nat :| Happens(c, before, k) && before[k].StdinEvent? {
        HappensEarlier(c, es, k);
      }
    }
  }

  // ----- who asks -----

  // The k-th event asks for a shutdown, as the signal g: any request with its own signal, a
  // lost stdout, a lost stdin whose callback returned nothing to wait for, and the end of an
  // answer wait.
  ghost predicate AsksAt(c: Limits, es: seq<Event>, k: nat, g: Signal) {
    && Happens(c, es, k)
    && match es[k]
       case ShutdownRequested(signal) => g == signal
       case StdoutEvent => g == StdoutLost
       case StdinEvent(answers) => g == StdinLost && !answers && !StdinWasLost(c, es[..k])
       case WaitResumes => g == StdinLost
       case _ => false
  }

  ghost predicate NobodyAsks(c: Limits, es: seq<Event>) {
    forall k: nat, g :: !AsksAt(c, es, k, g)
  }

  ghost predicate FirstToAsk(c: Limits, es: seq<Event>, k: nat, g: Signal) {
    AsksAt(c, es, k, g) && NobodyAsks(c, es[..k])
  }

  // The same of a state, for the one step.
  predicate Asks(l: Life, e: Event, g: Signal) {
    match e
    case ShutdownRequested(signal) => g == signal
    case StdoutEvent => g == StdoutLost
    case StdinEvent(answers) => g == StdinLost && !answers && l.stdinGoneAtMs.None?
    case WaitResumes => g == StdinLost
    case _ => false
  }

  lemma AskEffect(c: Limits, l: Life, e: Event, g: Signal)
    requires LifeInv(c, l) && l.request.None? && Enabled(c, l, e) && Asks(l, e, g)
    ensures var l' := Apply(c, l, e);
            && l'.request == Some(Request(g, l.nowMs)) && l'.handled == (if l.handlerSet then [g] else [])
            && l'.phase == if l.handlerSet then Handling(HandlerPending, l.nowMs + c.shutdownMs)
                           else Handling(HandlerSettled(true), l.nowMs)
  {
    hide FinalizationMs;
    hide Shutdown;
    match e {
      case ShutdownRequested(signal) => ShutdownCalls(c, l, signal);
      case StdinEvent(_) =>
        ShutdownCalls(c, l.(stdinGoneAtMs := Some(l.nowMs), goneCallbacks := l.goneCallbacks + 1), StdinLost);
      case StdoutEvent => ShutdownCalls(c, l.(stdoutGone := true), StdoutLost);
      case WaitResumes => ShutdownCalls(c, l.(wait := WaitOver), StdinLost);
    }
    hide DueInv;
  }

  lemma ShutdownCalls(c: Limits, l: Life, g: Signal)
    requires l.phase == Idle && l.handled == []
    ensures var l' := Shutdown(c, l, g);
            && l'.request == Some(Request(g, l.nowMs)) && l'.handled == (if l.handlerSet then [g] else [])
            && l'.phase == if l.handlerSet then Handling(HandlerPending, l.nowMs + c.shutdownMs)
                           else Handling(HandlerSettled(true), l.nowMs)
  {}

  lemma SilentEffect(c: Limits, l: Life, e: Event)
    requires LifeInv(c, l) && l.request.None? && Enabled(c, l, e) && forall g :: !Asks(l, e, g)
    ensures Apply(c, l, e).request.None?
  {
    hide FinalizationMs;
    assert e.ShutdownRequested? ==> Asks(l, e, e.signal);
    assert e.StdoutEvent? ==> Asks(l, e, StdoutLost);
    assert e.WaitResumes? || (e.StdinEvent? && !e.answers && l.stdinGoneAtMs.None?) ==> Asks(l, e, StdinLost);
  }

  lemma AsksAtEarlier(c: Limits, es: seq<Event>, k: nat, g: Signal)
    requires k < |es| - 1
    ensures AsksAt(c, es[..|es| - 1], k, g) <==> AsksAt(c, es, k, g)
  {
    HappensEarlier(c, es, k);
  }

  lemma AsksNow(c: Limits, es: seq<Event>, g: Signal)
    requires es != [] && Happens(c, es, |es| - 1)
    ensures AsksAt(c, es, |es| - 1, g) <==> Asks(After(c, es[..|es| - 1]), es[|es| - 1], g)
  {
    StdinLoss(c, es[..|es| - 1]);
  }

  lemma {:induction false} NoRequestYet(c: Limits, es: seq<Event>)
    requires NobodyAsks(c, es)
    ensures After(c, es).request.None?
  {
    if es != [] {
      var before, last := es[..|es| - 1], |es| - 1;
      forall k: nat, g ensures !AsksAt(c, before, k, g) {
        if k < last {
          AsksAtEarlier(c, es, k, g);
        }
      }
      NoRequestYet(c, before);
      LifeInvAlways(c, before);
      if Happens(c, es, last) {
        forall g ensures !Asks(After(c, before), es[last], g) {
          AsksNow(c, es, g);
        }
        SilentEffect(c, After(c, before), es[last]);
      }
      assert es[..last] == before;
    }
  }

  // Nothing that happens later calls the handler again, or takes its call back.
  lemma HandledStays(c: Limits, l: Life, e: Event)
    requires RequestInv(c, l) && l.request.Some?
    ensures Then(c, l, e).handled == l.handled && Then(c, l, e).request == l.request
  {
    if Enabled(c, l, e) {
      if Requests(e) {
        RequestEffect(c, l, e);
      } else if Moves(e) {
        MoveEffect(c, l, e);
      } else {
        RestEffect(c, l, e);
      }
    }
    hide Apply;
    hide Enabled;
  }

  lemma AskedNow(c: Limits, es: seq<Event>, g: Signal)
    requires es != [] && FirstToAsk(c, es, |es| - 1, g)
    ensures var l, l' := After(c, es[..|es| - 1]), After(c, es);
            && l'.request == Some(Request(g, l.nowMs))
            && l'.handled == (if HandlerIsSet(c, es[..|es| - 1]) then [g] else [])
            && l'.phase == if HandlerIsSet(c, es[..|es| - 1]) then Handling(HandlerPending, l.nowMs + c.shutdownMs)
                           else Handling(HandlerSettled(true), l.nowMs)
  {
    var before, last := es[..|es| - 1], |es| - 1;
    assert es[..last] == before;
    NoRequestYet(c, before);
    LifeInvAlways(c, before);
    AsksNow(c, es, g);
    HandlerSetting(c, before);
    hide NobodyAsks;
    hide HandlerIsSet;
    hide StdinWasLost;
    hide Apply;
    hide Enabled;
    hide LifeInv;
    hide Asks;
    AskEffect(c, After(c, before), es[last], g);
  }

  // Over any schedule, the first event that asks for a shutdown decides: its signal and its
  // time are the request's, and the handler is called exactly once, with that signal, if one
  // was set before it, and never if none was. Setting one later changes nothing.
  lemma {:induction false} FirstToAskIsServed(c: Limits, es: seq<Event>, k: nat, g: Signal)
    requires FirstToAsk(c, es, k, g)
    ensures After(c, es).request == Some(Request(g, After(c, es[..k]).nowMs))
    ensures After(c, es).handled == if HandlerIsSet(c, es[..k]) then [g] else []
    decreases |es|
  {
    hide NobodyAsks;
    hide HandlerIsSet;
    hide StdinWasLost;
    hide Then;
    hide Enabled;
    var before, last := es[..|es| - 1], |es| - 1;
    if k == last {
      assert es[..last] == before;
      AskedNow(c, es, g);
    } else {
      AsksAtEarlier(c, es, k, g);
      hide AsksAt;
      assert before[..k] == es[..k];
      FirstToAskIsServed(c, before, k, g);
      LifeInvAlways(c, before);
      HandledStays(c, After(c, before), es[last]);
    }
  }

  // And only an event that asks starts a shutdown.
  lemma {:induction false} RequestedIffAsked(c: Limits, es: seq<Event>)
    ensures After(c, es).request.Some? <==> exists k: nat, g :: FirstToAsk(c, es, k, g)
  {
    if k: nat, g :| FirstToAsk(c, es, k, g) {
      FirstToAskIsServed(c, es, k, g);
    }
    if After(c, es).request.Some? {
      var k, g := SomebodyAsks(c, es);
    }
  }

  lemma {:induction false} SomebodyAsks(c: Limits, es: seq<Event>) returns (k: nat, g: Signal)
    requires !NobodyAsks(c, es) || After(c, es).request.Some?
    ensures FirstToAsk(c, es, k, g)
    decreases |es|
  {
    if NobodyAsks(c, es) {
      NoRequestYet(c, es);
    }
    k, g :| AsksAt(c, es, k, g);
    if !NobodyAsks(c, es[..k]) {
      k, g := SomebodyAsks(c, es[..k]);
      PrefixAsks(c, es, k, g);
    }
  }

  lemma PrefixAsks(c: Limits, es: seq<Event>, k: nat, g: Signal)
    requires exists n: nat :: n <= |es| && FirstToAsk(c, es[..n], k, g)
    ensures FirstToAsk(c, es, k, g)
  {
    var n: nat :| n <= |es| && FirstToAsk(c, es[..n], k, g);
    assert es[..n][..k] == es[..k];
  }

  // Without a handler the process goes on to its exit at once; with one it waits for it.
  lemma OnlyAHandlerIsAwaited(c: Limits, es: seq<Event>, g: Signal)
    requires es != [] && FirstToAsk(c, es, |es| - 1, g)
    ensures HandlerIsSet(c, es[..|es| - 1]) ==>
              Enabled(c, After(c, es), HandlerSettles(true)) && !Enabled(c, After(c, es), HandlerResumes)
    ensures !HandlerIsSet(c, es[..|es| - 1]) ==>
              Enabled(c, After(c, es), HandlerResumes)
              && Apply(c, After(c, es), HandlerResumes).phase ==
                 Exited(if After(c, es).exitCode.Some? then After(c, es).exitCode.value else 0)
  {
    AskedNow(c, es, g);
    hide After;
    hide HandlerIsSet;
    hide FirstToAsk;
  }

  // ----- the limits -----

  ghost predicate TimerInv(c: Limits, l: Life) {
    l.phase.Handling? && l.phase.race.HandlerPending? ==>
      l.request.Some? && l.phase.dueMs == l.request.value.atMs + c.shutdownMs
  }

  lemma TimerStep(c: Limits, l: Life, e: Event)
    requires LifeInv(c, l) && TimerInv(c, l) && Enabled(c, l, e)
    ensures TimerInv(c, Apply(c, l, e))
  {
    if Requests(e) {
      RequestEffect(c, l, e);
    } else if Moves(e) {
      MoveEffect(c, l, e);
    } else {
      RestEffect(c, l, e);
    }
    hide Apply;
    hide StdinInv;
    hide DueInv;
  }

  lemma {:induction false} TimerAlways(c: Limits, es: seq<Event>)
    ensures TimerInv(c, After(c, es))
  {
    if es != [] {
      TimerAlways(c, es[..|es| - 1]);
      LifeInvAlways(c, es[..|es| - 1]);
      if Enabled(c, After(c, es[..|es| - 1]), es[|es| - 1]) {
        TimerStep(c, After(c, es[..|es| - 1]), es[|es| - 1]);
      }
    }
  }

  // A handler that has not settled is cut off exactly from the whole limit after the request on.
  lemma HandlerLimitIff(c: Limits, es: seq<Event>)
    requires After(c, es).phase.Handling? && After(c, es).phase.race.HandlerPending?
    ensures After(c, es).request.Some?
    ensures Enabled(c, After(c, es), HandlerTimerFires) <==>
              After(c, es).nowMs >= After(c, es).request.value.atMs + c.shutdownMs
  {
    TimerAlways(c, es);
  }

  // An answer wait that nothing ends sooner ends exactly from its own time after the loss on.
  lemma AnswerWaitIff(c: Limits, es: seq<Event>)
    requires After(c, es).wait.Waiting?
    ensures After(c, es).stdinGoneAtMs.Some? && After(c, es).stdinWaitMs.Some?
    ensures Enabled(c, After(c, es), AnswerTimerFires) <==>
              !After(c, es).phase.Exited?
              && After(c, es).nowMs >= After(c, es).stdinGoneAtMs.value + After(c, es).stdinWaitMs.value
  {
    LifeInvAlways(c, es);
  }

  // A lost stdin whose answers are still coming begins that wait, unless a shutdown is on.
  lemma AnswersAreAwaited(c: Limits, es: seq<Event>)
    requires Enabled(c, After(c, es), StdinEvent(true)) && !StdinWasLost(c, es)
    ensures var l' := Apply(c, After(c, es), StdinEvent(true));
            && l'.stdinGoneAtMs == Some(After(c, es).nowMs)
            && (if After(c, es).request.None? then l'.wait.Waiting? && l'.request.None?
                else l'.wait == After(c, es).wait)
  {
    LifeInvAlways(c, es);
    StdinLoss(c, es);
  }

  ghost predicate TimedOutAt(c: Limits, es: seq<Event>, k: nat) {
    && Happens(c, es, k) && es[k] == HandlerResumes
    && After(c, es[..k]).phase.Handling? && After(c, es[..k]).phase.race.HandlerElapsed?
  }

  // A handler that was cut off is followed by the finalizer set with the last handler, and by
  // exit 1 if that was set without one.
  lemma TimedOutIsFinalized(c: Limits, es: seq<Event>, h: nat)
    requires es != [] && TimedOutAt(c, es, |es| - 1) && LastHandler(c, es[..|es| - 1], h)
    ensures After(c, es).phase.Finalizing? <==> es[h].finalizer
    ensures !es[h].finalizer ==> After(c, es).phase == Exited(1)
  {
    HandlerSetting(c, es[..|es| - 1]);
    hide FinalizationMs;
  }

  ghost predicate FinalTimerInv(c: Limits, es: seq<Event>, k: nat) {
    TimedOutAt(c, es, k) && After(c, es).phase.Finalizing? &&
    After(c, es).phase.finalDueMs == After(c, es[..k]).nowMs + if c.shutdownMs < 100 then c.shutdownMs else 100
  }

  lemma FinalizingEffect(c: Limits, l: Life, e: Event)
    requires Enabled(c, l, e) && Apply(c, l, e).phase.Finalizing?
    ensures (l.phase.Finalizing? && Apply(c, l, e).phase.finalDueMs == l.phase.finalDueMs)
            || (e == HandlerResumes && l.phase.Handling? && l.phase.race.HandlerElapsed?
                && Apply(c, l, e).phase.finalDueMs == l.nowMs + if c.shutdownMs < 100 then c.shutdownMs else 100)
  {
    if Requests(e) {
      RequestEffect(c, l, e);
      hide Apply;
    } else if !Moves(e) {
      RestEffect(c, l, e);
      hide Apply;
    }
  }

  lemma {:induction false} FinalTimer(c: Limits, es: seq<Event>) returns (k: nat)
    requires After(c, es).phase.Finalizing?
    ensures FinalTimerInv(c, es, k)
  {
    k := 0;
    if es == [] {
      assert false;
    } else {
      var before, last := es[..|es| - 1], |es| - 1;
      assert es[..last] == before;
      if Happens(c, es, last) {
        FinalizingEffect(c, After(c, before), es[last]);
      }
      hide Apply;
      hide Enabled;
      if After(c, before).phase.Finalizing? {
        k := FinalTimer(c, before);
        HappensEarlier(c, es, k);
      } else {
        k := last;
      }
    }
  }

  // A finalizer is cut off exactly from min(T, 100) ms after it was called on.
  lemma FinalizerLimitIff(c: Limits, es: seq<Event>) returns (k: nat)
    requires After(c, es).phase.Finalizing? && After(c, es).phase.final.FinalPending?
    ensures TimedOutAt(c, es, k)
    ensures Enabled(c, After(c, es), FinalizerTimerFires) <==>
              After(c, es).nowMs >= After(c, es[..k]).nowMs + if c.shutdownMs < 100 then c.shutdownMs else 100
  {
    k := FinalTimer(c, es);
    hide TimedOutAt;
  }
}
