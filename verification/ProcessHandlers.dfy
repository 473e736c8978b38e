// `ProcessLifecycleHandlers`: its fields and closures, updated in place by each event, and a
// whole schedule of events.
module ProcessHandlers {
  import opened Options
  import opened StageTables
  import opened ProcessLifecycle
  import opened ProcessRequests

  class Handlers {
    const limits: Limits
    var nowMs: nat
    var handlerSet: bool
    var finalizerSet: bool
    var exitCode: Option<int>
    var phase: Phase
    var handled: seq<Signal>
    var request: Option<Request>
    var stdinWaitMs: Option<nat>
    var stdoutInstalled: bool
    var stdinGoneAtMs: Option<nat>
    var stdoutGone: bool
    var goneCallbacks: nat
    var wait: Wait

    function View(): Life
      reads this
    {
      Life(nowMs, handlerSet, finalizerSet, exitCode, phase, handled, request, stdinWaitMs, stdoutInstalled,
           stdinGoneAtMs, stdoutGone, goneCallbacks, wait)
    }

    constructor (c: Limits)
      ensures limits == c && View() == Init(c)
    {
      limits, nowMs := c, c.startMs;
      handlerSet, finalizerSet, exitCode := false, false, None;
      phase, handled, request := Idle, [], None;
      stdinWaitMs, stdoutInstalled, stdinGoneAtMs, stdoutGone := None, false, None, false;
      goneCallbacks, wait := 0, NoWait;
    }

    method StartShutdown(signal: Signal)
      modifies this`phase, this`handled, this`request
      ensures View() == Shutdown(limits, old(View()), signal)
    {
      if phase != Idle {
        return;
      }
      request := Some(Request(signal, nowMs));
      if handlerSet {
        handled := handled + [signal];
        phase := Handling(HandlerPending, nowMs + limits.shutdownMs);
      } else {
        phase := Handling(HandlerSettled(true), nowMs);
      }
    }

    method RequestShutdown(signal: Signal)
      requires Enabled(limits, View(), ShutdownRequested(signal))
      modifies this
      ensures View() == Apply(limits, old(View()), ShutdownRequested(signal))
    {
      StartShutdown(signal);
    }

    method OnStdinEvent(answers: bool)
      requires Enabled(limits, View(), StdinEvent(answers))
      modifies this
      ensures View() == Apply(limits, old(View()), StdinEvent(answers))
    {
      if stdinGoneAtMs.Some? {
        return;
      }
      stdinGoneAtMs := Some(nowMs);
      goneCallbacks := goneCallbacks + 1;
      if answers {
        if phase != Idle {
          return;
        }
        wait := Waiting(nowMs + stdinWaitMs.value);
      } else {
        StartShutdown(StdinLost);
      }
    }

    method OnStdoutEvent()
      requires Enabled(limits, View(), StdoutEvent)
      modifies this
      ensures View() == Apply(limits, old(View()), StdoutEvent)
    {
      if stdoutGone {
        return;
      }
      stdoutGone := true;
      StartShutdown(StdoutLost);
    }

    // The answer wait ended: answers settled, its deadline passed, or a shutdown started.
    method ResumeAnswerWait()
      requires Enabled(limits, View(), WaitResumes)
      modifies this
      ensures View() == Apply(limits, old(View()), WaitResumes)
    {
      wait := WaitOver;
      StartShutdown(StdinLost);
    }

    // `shutdown` after its first await, and `runShutdownTimeoutHandler` up to its own.
    method ResumeShutdown()
      requires Enabled(limits, View(), HandlerResumes)
      modifies this`phase
      ensures View() == Apply(limits, old(View()), HandlerResumes)
    {
      var code := if exitCode.Some? then exitCode.value else 0;
      match phase.race {
        case HandlerSettled(ok) =>
          phase := Exited(if ok then code else 1);
        case HandlerElapsed =>
          if finalizerSet {
            phase := Finalizing(FinalPending, nowMs + FinalizationMs(limits));
          } else {
            phase := Exited(1);
          }
      }
    }

    method ResumeFinalization()
      requires Enabled(limits, View(), FinalizerResumes)
      modifies this`phase
      ensures View() == Apply(limits, old(View()), FinalizerResumes)
    {
      var code := 1;
      if phase.final.FinalResult? && phase.final.code.Some? {
        code := phase.final.code.value;
      }
      phase := Exited(code);
    }

    // The events that run code of the handlers, up to its next await.
    static predicate RunsCode(e: Event) {
      || e.ShutdownRequested? || e.StdinEvent? || e.StdoutEvent?
      || e.HandlerResumes? || e.FinalizerResumes? || e.WaitResumes?
    }

    // What is not code of the handlers only sets what they read: the clock and the settings.
    static predicate Sets(e: Event) {
      e.Tick? || e.SetShutdownHandler? || e.SetShutdownExitCode? || e.InstallStdin? || e.InstallStdout?
    }

    method TakeSetting(e: Event)
      requires Enabled(limits, View(), e) && Sets(e)
      modifies this
      ensures View() == Apply(limits, old(View()), e)
    {
      match e {
        case Tick(t) => nowMs := t;
        case SetShutdownHandler(finalizer) => handlerSet, finalizerSet := true, finalizer;
        case SetShutdownExitCode(code) => exitCode := Some(code);
        case InstallStdin(waitMs) => stdinWaitMs := if stdinWaitMs.Some? then stdinWaitMs else Some(waitMs);
        case InstallStdout => stdoutInstalled := true;
      }
    }

    // So do the races that a promise or a timer has decided.
    method TakeRace(e: Event)
      requires Enabled(limits, View(), e) && !RunsCode(e) && !Sets(e)
      modifies this`phase, this`wait
      ensures View() == Apply(limits, old(View()), e)
    {
      match e {
        case HandlerSettles(ok) => phase := phase.(race := HandlerSettled(ok));
        case HandlerTimerFires => phase := phase.(race := HandlerElapsed);
        case FinalizerSettles(r) => phase := phase.(final := r);
        case FinalizerTimerFires => phase := phase.(final := FinalElapsed);
        case AnswersSettle => wait := Woken(wait.dueMs);
        case AnswerTimerFires => wait := Woken(wait.dueMs);
        case WaitInterrupted => wait := Woken(wait.dueMs);
      }
    }

    // One event of a schedule.
    method TakeStep(e: Event)
      requires LifeInv(limits, View()) && Enabled(limits, View(), e)
      modifies this
      ensures View() == Apply(limits, old(View()), e) && LifeInv(limits, View())
    {
      hide LifeInv;
      hide Apply;
      ghost var before := View();
      LifeInvStep(limits, before, e);
      if RunsCode(e) {
        match e {
          case ShutdownRequested(signal) => RequestShutdown(signal);
          case StdinEvent(answers) => OnStdinEvent(answers);
          case StdoutEvent => OnStdoutEvent();
          case HandlerResumes => ResumeShutdown();
          case FinalizerResumes => ResumeFinalization();
          case WaitResumes => ResumeAnswerWait();
        }
      } else if Sets(e) {
        TakeSetting(e);
      } else {
        TakeRace(e);
      }
    }

    // A whole schedule. What it leaves in the fields is what the schedule's theorems say: one
    // call of the handler at most, with the first request's signal; one client-gone callback
    // for a lost stdin; and an exit code that the step which set it explains.
    method Follow(es: seq<Event>)
      requires View() == Init(limits)
      modifies this
      ensures View() == After(limits, es)
      ensures request.Some? ==> handled == [] || handled == [request.value.signal]
      ensures request.None? ==> handled == [] && phase == Idle
      ensures goneCallbacks == if stdinGoneAtMs.Some? then 1 else 0
      ensures phase.Exited? ==> exists k: nat :: ExitsAt(limits, es, k, phase.code)
      ensures forall k: nat, g | k < |es| && FirstToAsk(limits, es, k, g) ::
                handled == if HandlerIsSet(limits, es[..k]) then [g] else []
    {
      hide FirstToAsk;
      hide HandlerIsSet;
      for i := 0 to |es|
        invariant View() == After(limits, es[..i]) && LifeInv(limits, View())
      {
        assert es[..i + 1][..i] == es[..i];
        if Enabled(limits, View(), es[i]) {
          TakeStep(es[i]);
        }
      }
      assert es[..|es|] == es;
      if phase.Exited? {
        ExitCode(limits, es);
      }
      forall k: nat, g | k < |es| && FirstToAsk(limits, es, k, g)
        ensures handled == if HandlerIsSet(limits, es[..k]) then [g] else []
      {
        FirstToAskIsServed(limits, es, k, g);
      }
    }
  }

  // The lifecycle from installation to the end of any schedule.
  method RunLifecycle(c: Limits, es: seq<Event>) returns (end: Life)
    ensures end == After(c, es)
    ensures |end.handled| <= 1 && end.goneCallbacks <= 1
    ensures end.phase.Exited? ==> exists k: nat :: ExitsAt(c, es, k, end.phase.code)
  {
    var handlers := new Handlers(c);
    handlers.Follow(es);
    end := handlers.View();
  }
}
