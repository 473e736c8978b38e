// The process lifecycle as a step system: signals, lost stdin and stdout, the shutdown
// handler's limit, the finalization limit and the answer wait race toward one exit.
module ProcessLifecycle {
  import opened Options
  import opened StageTables

  const PROCESS_SHUTDOWN_FINALIZATION_TIMEOUT_MS := 100

  datatype Signal = Sigint | Sigterm | Sighup | StdinLost | StdoutLost | ExecutionOwnerLost

  datatype HandlerRace = HandlerPending | HandlerSettled(ok: bool) | HandlerElapsed

  // A finalizer may resolve with an exit code, resolve without one, or throw.
  datatype FinalRace = FinalPending | FinalResult(code: Option<int>) | FinalThrew | FinalElapsed

  datatype Phase =
    | Idle
    | Handling(race: HandlerRace, dueMs: nat)
    | Finalizing(final: FinalRace, finalDueMs: nat)
    | Exited(code: int)

  datatype Wait = NoWait | Waiting(dueMs: nat) | Woken(wakeMs: nat) | WaitOver

  datatype Request = Request(signal: Signal, atMs: nat)

  datatype Limits = Limits(startMs: nat, shutdownMs: nat, slopMs: nat)

  // `stdinWaitMs` is the answer wait of the one stdin installation, if there is one.
  datatype Life = Life(
    nowMs: nat,
    handlerSet: bool,
    finalizerSet: bool,
    exitCode: Option<int>,
    phase: Phase,
    handled: seq<Signal>,
    request: Option<Request>,
    stdinWaitMs: Option<nat>,
    stdoutInstalled: bool,
    stdinGoneAtMs: Option<nat>,
    stdoutGone: bool,
    goneCallbacks: nat,
    wait: Wait)

  datatype Event =
    | Tick(toMs: nat)
    | SetShutdownHandler(finalizer: bool)
    | SetShutdownExitCode(code: int)
    | InstallStdin(waitMs: nat)
    | InstallStdout
    | ShutdownRequested(signal: Signal)
    | StdinEvent(answers: bool)        // end, error or close; whether the callback returned a promise
    | StdoutEvent
    | HandlerSettles(ok: bool)
    | HandlerTimerFires
    | HandlerResumes
    | FinalizerSettles(result: FinalRace)
    | FinalizerTimerFires
    | FinalizerResumes
    | AnswersSettle
    | AnswerTimerFires
    | WaitInterrupted
    | WaitResumes

  function Min(a: nat, b: nat): nat {
    if a < b then a else b
  }

  function FinalizationMs(c: Limits): nat {
    Min(c.shutdownMs, PROCESS_SHUTDOWN_FINALIZATION_TIMEOUT_MS)
  }

  function Init(c: Limits): Life {
    Life(c.startMs, false, false, None, Idle, [], None, None, false, None, false, 0, NoWait)
  }

  // `shutdown`, up to its first await: a second request finds one in progress and returns.
  function Shutdown(c: Limits, l: Life, signal: Signal): Life {
    if l.phase != Idle then l
    else if l.handlerSet then
      l.(phase := Handling(HandlerPending, l.nowMs + c.shutdownMs), handled := l.handled + [signal],
         request := Some(Request(signal, l.nowMs)))
    else
      l.(phase := Handling(HandlerSettled(true), l.nowMs), request := Some(Request(signal, l.nowMs)))
  }

  function LoseStdin(c: Limits, l: Life, answers: bool): Life
    requires l.stdinWaitMs.Some?
  {
    if l.stdinGoneAtMs.Some? then l
    else
      var l1 := l.(stdinGoneAtMs := Some(l.nowMs), goneCallbacks := l.goneCallbacks + 1);
      if !answers then Shutdown(c, l1, StdinLost)
      else if l.phase != Idle then l1
      else l1.(wait := Waiting(l.nowMs + l.stdinWaitMs.value))
  }

  function LoseStdout(c: Limits, l: Life): Life {
    if l.stdoutGone then l else Shutdown(c, l.(stdoutGone := true), StdoutLost)
  }

  function ResumeHandler(c: Limits, l: Life): Life
    requires l.phase.Handling?
  {
    match l.phase.race
    case HandlerPending => l
    case HandlerSettled(true) => l.(phase := Exited(if l.exitCode.Some? then l.exitCode.value else 0))
    case HandlerSettled(false) => l.(phase := Exited(1))
    case HandlerElapsed =>
      if l.finalizerSet then l.(phase := Finalizing(FinalPending, l.nowMs + FinalizationMs(c)))
      else l.(phase := Exited(1))
  }

  function ResumeFinalizer(l: Life): Life
    requires l.phase.Finalizing?
  {
    match l.phase.final
    case FinalPending => l
    case FinalResult(Some(code)) => l.(phase := Exited(code))
    case _ => l.(phase := Exited(1))
  }

  function WaitDue(w: Wait): Option<nat> {
    match w
    case Waiting(due) => Some(due)
    case Woken(due) => Some(due)
    case _ => None
  }

  function PhaseDue(ph: Phase): Option<nat> {
    match ph
    case Handling(_, due) => Some(due)
    case Finalizing(_, due) => Some(due)
    case _ => None
  }

  predicate Enabled(c: Limits, l: Life, e: Event) {
    !l.phase.Exited? &&
    match e
    case Tick(t) =>
      // Nothing that is due is served later than the slop.
      && l.nowMs <= t
      && (PhaseDue(l.phase).Some? ==> t <= PhaseDue(l.phase).value + c.slopMs)
      && (WaitDue(l.wait).Some? ==> t <= WaitDue(l.wait).value + c.slopMs)
    case SetShutdownHandler(_) => true
    case SetShutdownExitCode(_) => true
    case InstallStdin(_) => true
    case InstallStdout => true
    case ShutdownRequested(_) => true
    case StdinEvent(_) => l.stdinWaitMs.Some?
    case StdoutEvent => l.stdoutInstalled
    case HandlerSettles(_) => l.phase.Handling? && l.phase.race.HandlerPending?
    case HandlerTimerFires => l.phase.Handling? && l.phase.race.HandlerPending? && l.phase.dueMs <= l.nowMs
    case HandlerResumes => l.phase.Handling? && !l.phase.race.HandlerPending?
    case FinalizerSettles(r) => l.phase.Finalizing? && l.phase.final.FinalPending? && (r.FinalResult? || r.FinalThrew?)
    case FinalizerTimerFires => l.phase.Finalizing? && l.phase.final.FinalPending? && l.phase.finalDueMs <= l.nowMs
    case FinalizerResumes => l.phase.Finalizing? && !l.phase.final.FinalPending?
    case AnswersSettle => l.wait.Waiting?
    case AnswerTimerFires => l.wait.Waiting? && l.wait.dueMs <= l.nowMs
    case WaitInterrupted => l.wait.Waiting? && l.phase != Idle
    case WaitResumes => l.wait.Woken?
  }

  function Apply(c: Limits, l: Life, e: Event): Life
    requires Enabled(c, l, e)
  {
    match e
    case Tick(t) => l.(nowMs := t)
    case SetShutdownHandler(finalizer) => l.(handlerSet := true, finalizerSet := finalizer)
    case SetShutdownExitCode(code) => l.(exitCode := Some(code))
    case InstallStdin(waitMs) => if l.stdinWaitMs.Some? then l else l.(stdinWaitMs := Some(waitMs))
    case InstallStdout => l.(stdoutInstalled := true)
    case ShutdownRequested(signal) => Shutdown(c, l, signal)
    case StdinEvent(answers) => LoseStdin(c, l, answers)
    case StdoutEvent => LoseStdout(c, l)
    case HandlerSettles(ok) => l.(phase := l.phase.(race := HandlerSettled(ok)))
    case HandlerTimerFires => l.(phase := l.phase.(race := HandlerElapsed))
    case HandlerResumes => ResumeHandler(c, l)
    case FinalizerSettles(r) => l.(phase := l.phase.(final := r))
    case FinalizerTimerFires => l.(phase := l.phase.(final := FinalElapsed))
    case FinalizerResumes => ResumeFinalizer(l)
    case AnswersSettle => l.(wait := Woken(l.wait.dueMs))
    case AnswerTimerFires => l.(wait := Woken(l.wait.dueMs))
    case WaitInterrupted => l.(wait := Woken(l.wait.dueMs))
    case WaitResumes => Shutdown(c, l.(wait := WaitOver), StdinLost)
  }

  function Then(c: Limits, l: Life, e: Event): Life {
    if Enabled(c, l, e) then Apply(c, l, e) else l
  }

  // The state after a schedule; an event that is not enabled when its turn comes does nothing.
  function After(c: Limits, es: seq<Event>): Life {
    if es == [] then Init(c) else Then(c, After(c, es[..|es| - 1]), es[|es| - 1])
  }

  // ----- what every schedule keeps -----

  ghost predicate RequestInv(c: Limits, l: Life) {
    && (l.phase == Idle <==> l.request.None?)
    && (l.request.None? ==> l.handled == [])
    && (l.request.Some? ==> l.handled == [] || l.handled == [l.request.value.signal])
    && (l.request.Some? ==> l.request.value.atMs <= l.nowMs)
    && (l.phase.Handling? && l.phase.race != HandlerSettled(true) ==> l.handled != [])
    && (l.phase.Finalizing? ==> l.handled != [])
  }

  ghost predicate DueInv(c: Limits, l: Life) {
    l.request.Some? ==>
      var at := l.request.value.atMs;
      && (l.phase.Handling? ==> l.phase.dueMs <= at + c.shutdownMs && l.nowMs <= l.phase.dueMs + c.slopMs)
      && (l.phase.Finalizing? ==>
            && l.phase.finalDueMs <= at + c.shutdownMs + c.slopMs + FinalizationMs(c)
            && l.nowMs <= l.phase.finalDueMs + c.slopMs)
  }

  ghost predicate StdinInv(c: Limits, l: Life) {
    && l.goneCallbacks == (if l.stdinGoneAtMs.Some? then 1 else 0)
    && (l.stdinGoneAtMs.Some? ==> l.stdinWaitMs.Some? && l.stdinGoneAtMs.value <= l.nowMs)
    && (WaitDue(l.wait).Some? ==>
          && l.stdinGoneAtMs.Some?
          && WaitDue(l.wait).value == l.stdinGoneAtMs.value + l.stdinWaitMs.value
          && l.nowMs <= WaitDue(l.wait).value + c.slopMs)
    && (l.stdinGoneAtMs.Some? ==>
          || WaitDue(l.wait).Some?
          || (l.request.Some? && l.request.value.atMs <= l.stdinGoneAtMs.value + l.stdinWaitMs.value + c.slopMs))
    && (l.stdoutGone ==> l.request.Some?)
  }

  ghost predicate LifeInv(c: Limits, l: Life) {
    RequestInv(c, l) && DueInv(c, l) && StdinInv(c, l)
  }

  // The events that may start a shutdown.
  predicate Requests(e: Event) {
    e.ShutdownRequested? || e.StdinEvent? || e.StdoutEvent? || e.WaitResumes?
  }

  predicate SameShutdown(l: Life, l': Life) {
    l'.phase == l.phase && l'.request == l.request && l'.handled == l.handled
  }

  // A shutdown begins, with or without a handler to call.
  predicate Begins(c: Limits, l: Life, l': Life) {
    && l.phase == Idle && l'.request.Some? && l'.request.value.atMs == l.nowMs
    && ((l'.handled == l.handled + [l'.request.value.signal]
         && l'.phase == Handling(HandlerPending, l.nowMs + c.shutdownMs))
        || (l'.handled == l.handled && l'.phase == Handling(HandlerSettled(true), l.nowMs)))
  }

  lemma ShutdownEffect(c: Limits, l: Life, signal: Signal)
    ensures var l' := Shutdown(c, l, signal);
            && l' == l.(phase := l'.phase, handled := l'.handled, request := l'.request)
            && (l' == l || Begins(c, l, l')) && l'.phase != Idle
  {}

  lemma RequestEffect(c: Limits, l: Life, e: Event)
    requires Enabled(c, l, e) && Requests(e)
    ensures var l' := Apply(c, l, e);
            && l'.nowMs == l.nowMs && l'.stdinWaitMs == l.stdinWaitMs
            && (SameShutdown(l, l') || Begins(c, l, l'))
  {
    hide Shutdown;
    match e {
      case ShutdownRequested(signal) => ShutdownEffect(c, l, signal);
      case StdinEvent(answers) =>
        ShutdownEffect(c, l.(stdinGoneAtMs := Some(l.nowMs), goneCallbacks := l.goneCallbacks + 1), StdinLost);
      case StdoutEvent => ShutdownEffect(c, l.(stdoutGone := true), StdoutLost);
      case WaitResumes => ShutdownEffect(c, l.(wait := WaitOver), StdinLost);
    }
  }

  lemma BeginsKeeps(c: Limits, l: Life, l': Life)
    requires RequestInv(c, l) && DueInv(c, l) && l'.nowMs == l.nowMs
    requires SameShutdown(l, l') || Begins(c, l, l')
    ensures RequestInv(c, l') && DueInv(c, l')
  {}

  // What a request does to the books of stdin and stdout.
  lemma RequestStdin(c: Limits, l: Life, e: Event)
    requires Enabled(c, l, e) && Requests(e)
    ensures var l' := Apply(c, l, e);
            match e
            case StdinEvent(_) =>
              && l'.stdoutGone == l.stdoutGone
              && (if l.stdinGoneAtMs.Some?
                  then l'.stdinGoneAtMs == l.stdinGoneAtMs && l'.goneCallbacks == l.goneCallbacks && l'.wait == l.wait
                  else l'.stdinGoneAtMs == Some(l.nowMs) && l'.goneCallbacks == l.goneCallbacks + 1
                       && (l'.wait == Waiting(l.nowMs + l.stdinWaitMs.value)
                           || (l'.wait == l.wait && l'.phase != Idle)))
            case WaitResumes =>
              && l'.stdinGoneAtMs == l.stdinGoneAtMs && l'.goneCallbacks == l.goneCallbacks
              && l'.stdoutGone == l.stdoutGone && l'.wait == WaitOver && l'.phase != Idle
            case _ =>
              && l'.stdinGoneAtMs == l.stdinGoneAtMs && l'.goneCallbacks == l.goneCallbacks && l'.wait == l.wait
              && (l'.stdoutGone ==> l.stdoutGone || l'.phase != Idle)
  {
    hide Shutdown;
    hide Begins;
    match e {
      case ShutdownRequested(signal) => ShutdownEffect(c, l, signal);
      case StdinEvent(answers) =>
        ShutdownEffect(c, l.(stdinGoneAtMs := Some(l.nowMs), goneCallbacks := l.goneCallbacks + 1), StdinLost);
      case StdoutEvent => ShutdownEffect(c, l.(stdoutGone := true), StdoutLost);
      case WaitResumes => ShutdownEffect(c, l.(wait := WaitOver), StdinLost);
    }
  }

  lemma LifeInvRequest(c: Limits, l: Life, e: Event)
    requires LifeInv(c, l) && Enabled(c, l, e) && Requests(e)
    ensures LifeInv(c, Apply(c, l, e))
  {
    RequestEffect(c, l, e);
    RequestStdin(c, l, e);
    assert l.wait.Woken? ==> WaitDue(l.wait).Some?;
    assert e.WaitResumes? ==> l.wait.Woken?;
    hide Enabled;
    hide Apply;
    var l' := Apply(c, l, e);
    BeginsKeeps(c, l, l');
    assert l'.request.Some? ==> l'.request.value.atMs <= l.nowMs;
    hide DueInv;
    assert StdinInv(c, l');
  }

  // The events that move the current shutdown along.
  predicate Moves(e: Event) {
    || e.HandlerSettles? || e.HandlerTimerFires? || e.HandlerResumes?
    || e.FinalizerSettles? || e.FinalizerTimerFires? || e.FinalizerResumes?
  }

  // Where the shutdown may move to: its limit stays, or the finalization limit starts now.
  predicate MovesTo(c: Limits, l: Life, ph: Phase) {
    || (l.phase.Handling? && l.phase.race.HandlerPending? && ph.Handling? && ph.dueMs == l.phase.dueMs)
    || (l.phase.Handling? && l.phase.race.HandlerElapsed? && ph.Finalizing?
        && ph.finalDueMs == l.nowMs + FinalizationMs(c))
    || (l.phase.Finalizing? && ph.Finalizing? && ph.finalDueMs == l.phase.finalDueMs)
    || (l.phase != Idle && ph.Exited?)
  }

  lemma HandlerEffect(c: Limits, l: Life)
    requires l.phase.Handling? && !l.phase.race.HandlerPending?
    ensures ResumeHandler(c, l) == l.(phase := ResumeHandler(c, l).phase) && MovesTo(c, l, ResumeHandler(c, l).phase)
  {
    hide FinalizationMs;
  }

  lemma FinalizerEffect(c: Limits, l: Life)
    requires l.phase.Finalizing? && !l.phase.final.FinalPending?
    ensures ResumeFinalizer(l) == l.(phase := ResumeFinalizer(l).phase) && MovesTo(c, l, ResumeFinalizer(l).phase)
  {
    hide FinalizationMs;
  }

  lemma MoveEffect(c: Limits, l: Life, e: Event)
    requires Enabled(c, l, e) && Moves(e)
    ensures Apply(c, l, e) == l.(phase := Apply(c, l, e).phase) && MovesTo(c, l, Apply(c, l, e).phase)
  {
    hide FinalizationMs;
    hide ResumeHandler;
    hide ResumeFinalizer;
    hide Shutdown;
    match e {
      case HandlerResumes => HandlerEffect(c, l);
      case FinalizerResumes => FinalizerEffect(c, l);
      case _ =>
    }
  }

  lemma MoveKeeps(c: Limits, l: Life, ph: Phase)
    requires LifeInv(c, l) && MovesTo(c, l, ph)
    ensures LifeInv(c, l.(phase := ph))
  {
    hide FinalizationMs;
    var l' := l.(phase := ph);
    assert RequestInv(c, l') && StdinInv(c, l');
    if l.phase.Handling? && ph.Finalizing? {
      assert l.nowMs <= l.request.value.atMs + c.shutdownMs + c.slopMs;
    }
    assert DueInv(c, l');
  }

  lemma LifeInvMove(c: Limits, l: Life, e: Event)
    requires LifeInv(c, l) && Enabled(c, l, e) && Moves(e)
    ensures LifeInv(c, Apply(c, l, e))
  {
    hide LifeInv;
    hide Enabled;
    hide Apply;
    hide MovesTo;
    MoveEffect(c, l, e);
    MoveKeeps(c, l, Apply(c, l, e).phase);
  }

  // The rest: the clock, the settings, and the answer wait.
  lemma RestEffect(c: Limits, l: Life, e: Event)
    requires Enabled(c, l, e) && !Moves(e) && !Requests(e)
    ensures var l' := Apply(c, l, e);
            && SameShutdown(l, l') && l.nowMs <= l'.nowMs && (!e.Tick? ==> l'.nowMs == l.nowMs)
            && l'.stdinGoneAtMs == l.stdinGoneAtMs && l'.goneCallbacks == l.goneCallbacks
            && l'.stdoutGone == l.stdoutGone && WaitDue(l'.wait) == WaitDue(l.wait)
            && (l.stdinWaitMs.Some? ==> l'.stdinWaitMs == l.stdinWaitMs)
            && (l'.wait == l.wait || (l.wait.Waiting? && l'.wait.Woken?))
  {}

  lemma LifeInvRest(c: Limits, l: Life, e: Event)
    requires LifeInv(c, l) && Enabled(c, l, e) && !Moves(e) && !Requests(e)
    ensures LifeInv(c, Apply(c, l, e))
  {
    RestEffect(c, l, e);
    hide Apply;
    hide WaitDue;
    hide FinalizationMs;
  }

  lemma LifeInvStep(c: Limits, l: Life, e: Event)
    requires LifeInv(c, l) && Enabled(c, l, e)
    ensures LifeInv(c, Apply(c, l, e))
  {
    hide LifeInv;
    hide Enabled;
    hide Apply;
    if Requests(e) {
      LifeInvRequest(c, l, e);
    } else if Moves(e) {
      LifeInvMove(c, l, e);
    } else {
      LifeInvRest(c, l, e);
    }
  }

  lemma {:induction false} LifeInvAlways(c: Limits, es: seq<Event>)
    ensures LifeInv(c, After(c, es))
  {
    if es != [] {
      LifeInvAlways(c, es[..|es| - 1]);
      if Enabled(c, After(c, es[..|es| - 1]), es[|es| - 1]) {
        LifeInvStep(c, After(c, es[..|es| - 1]), es[|es| - 1]);
      }
    }
  }

  // ----- main results -----

  lemma RequestIsFinal(c: Limits, l: Life, e: Event)
    requires RequestInv(c, l) && l.request.Some?
    ensures Then(c, l, e).request == l.request
  {
    if Enabled(c, l, e) {
      if Requests(e) {
        RequestEffect(c, l, e);
      } else if Moves(e) {
        MoveEffect(c, l, e);
      } else {
        RestEffect(c, l, e);
      }
    }
    hide Apply;
    hide Enabled;
  }

  lemma {:induction false} FirstRequestStays(c: Limits, es: seq<Event>, more: seq<Event>)
    requires After(c, es).request.Some?
    ensures After(c, es + more).request == After(c, es).request
  {
    if more == [] {
      assert es + more == es;
    } else {
      var before := es + more[..|more| - 1];
      FirstRequestStays(c, es, more[..|more| - 1]);
      assert (es + more)[..|es + more| - 1] == before;
      LifeInvAlways(c, before);
      RequestIsFinal(c, After(c, before), more[|more| - 1]);
    }
  }

  // Over any schedule the handler runs at most once, and with the signal of the request
  // that came first, whatever is requested, lost or set afterwards.
  lemma HandlerRunsOnceWithTheFirstSignal(c: Limits, es: seq<Event>, more: seq<Event>)
    requires After(c, es).request.Some?
    ensures After(c, es + more).handled == []
            || After(c, es + more).handled == [After(c, es).request.value.signal]
  {
    FirstRequestStays(c, es, more);
    LifeInvAlways(c, es + more);
  }

  // A process that has been asked to shut down and is still there is inside its two limits,
  // each served within the slop.
  lemma ExitDeadline(c: Limits, es: seq<Event>)
    requires After(c, es).request.Some? && !After(c, es).phase.Exited?
    ensures After(c, es).nowMs <=
              After(c, es).request.value.atMs + c.shutdownMs
              + (if c.shutdownMs < 100 then c.shutdownMs else 100) + 2 * c.slopMs
  {
    LifeInvAlways(c, es);
  }

  // A lost stdin fires the client-gone callback once, however many of end, error and close
  // arrive, and a process that has not exited is still within the answer wait and the two limits.
  lemma StdinLossDeadline(c: Limits, es: seq<Event>)
    requires After(c, es).stdinGoneAtMs.Some?
    ensures var l := After(c, es);
            l.goneCallbacks == 1 && l.stdinWaitMs.Some? &&
            (!l.phase.Exited? ==>
               l.nowMs <= l.stdinGoneAtMs.value + l.stdinWaitMs.value + c.shutdownMs
                          + (if c.shutdownMs < 100 then c.shutdownMs else 100) + 3 * c.slopMs)
  {
    LifeInvAlways(c, es);
  }

  // What the exit code of a process says about how its shutdown went.
  ghost predicate ExitExplained(c: Limits, l: Life, e: Event, code: int) {
    || (e == HandlerResumes && l.phase.Handling? &&
        match l.phase.race
        case HandlerSettled(true) => code == if l.exitCode.Some? then l.exitCode.value else 0
        case HandlerSettled(false) => code == 1
        case HandlerElapsed => code == 1 && !l.finalizerSet
        case HandlerPending => false)
    || (e == FinalizerResumes && l.phase.Finalizing? && !l.phase.final.FinalPending? &&
        code == if l.phase.final.FinalResult? && l.phase.final.code.Some? then l.phase.final.code.value else 1)
  }

  ghost predicate ExitsAt(c: Limits, es: seq<Event>, k: nat, code: int) {
    k < |es| && Enabled(c, After(c, es[..k]), es[k]) && ExitExplained(c, After(c, es[..k]), es[k], code)
  }

  // The exit is terminal, and its code is the configured one or 0 when the handler finished
  // in time, the finalizer's or 1 when it did not, and 1 when anything threw.
  lemma {:induction false} ExitCode(c: Limits, es: seq<Event>)
    requires After(c, es).phase.Exited?
    ensures exists k: nat :: ExitsAt(c, es, k, After(c, es).phase.code)
  {
    if es == [] {
      assert false;
    } else {
      var before := es[..|es| - 1];
      if After(c, before).phase.Exited? {
        ExitCode(c, before);
        var k: nat :| ExitsAt(c, before, k, After(c, before).phase.code);
        assert es[..k] == before[..k];
        assert ExitsAt(c, es, k, After(c, es).phase.code);
      } else {
        ExitStep(c, After(c, before), es[|es| - 1]);
        assert ExitsAt(c, es, |es| - 1, After(c, es).phase.code);
      }
    }
  }

  lemma ExitOfHandler(c: Limits, l: Life)
    requires l.phase.Handling? && !l.phase.race.HandlerPending? && ResumeHandler(c, l).phase.Exited?
    ensures ExitExplained(c, l, HandlerResumes, ResumeHandler(c, l).phase.code)
  {}

  lemma ExitOfFinalizer(c: Limits, l: Life)
    requires l.phase.Finalizing? && !l.phase.final.FinalPending? && ResumeFinalizer(l).phase.Exited?
    ensures ExitExplained(c, l, FinalizerResumes, ResumeFinalizer(l).phase.code)
  {}

  lemma ExitStep(c: Limits, l: Life, e: Event)
    requires !l.phase.Exited? && Then(c, l, e).phase.Exited?
    ensures Enabled(c, l, e) && ExitExplained(c, l, e, Then(c, l, e).phase.code)
  {
    hide ResumeHandler;
    hide ResumeFinalizer;
    hide ExitExplained;
    hide Shutdown;
    if Requests(e) {
      RequestEffect(c, l, e);
    }
    match e {
      case HandlerResumes => ExitOfHandler(c, l);
      case FinalizerResumes => ExitOfFinalizer(c, l);
      case _ =>
    }
  }
}
