// The settled-screenshot benchmark's cleanup protocol: a termination signal may arrive at any
// await of setup, run or cleanup.
module BenchmarkCleanup {
  import opened Options

  datatype Signal = Sigint | Sigterm

  function ExitCode(signal: Signal): int {
    if signal.Sigint? then 130 else 143
  }

  // Where `runBenchmark` is: in setup, between tool calls, in one, in its finally, or done.
  datatype Phase =
    | PickingPort
    | CreatingClient
    | Ready
    | Calling
    | Finishing(ok: bool)
    | Finished(ok: bool)

  // Where the one cleanup is. `Retained` and `RemoveFailed` leave the run directory behind.
  datatype Cleaning = NotAsked | Asked | Closing | Stopping | Removing | Removed | Retained | RemoveFailed

  // What `pickPort` and the synchronous code after it come to.
  datatype PortResult = PortFails | EnvRefused | LaunchRefused | ChildSpawned

  datatype Bench = Bench(
    phase: Phase,
    launch: bool,
    client: bool,
    childAttempted: bool,
    terminated: Option<Signal>,
    setupDone: bool,
    cleaning: Cleaning,
    exited: Option<int>,
    // Observed from outside: tool calls issued, clients closed, cleanups begun, and whether
    // the private daemon confirmed its stop.
    calls: nat,
    closes: nat,
    cleanups: nat,
    stopped: bool)

  datatype Event =
    | Terminate(signal: Signal)
    | PortPicked(result: PortResult)
    | ClientSettles(created: bool)
    | CallIssued
    | CallSettles
    | BodyEnds(ok: bool)
    | CleanupStarts
    | CloseSettles
    | StopSettles(ok: bool)
    | RemoveRuns(ok: bool)
    | MainResumes
    | HandlerResumes

  function Init(runDirSafe: bool): Bench {
    var b := Bench(PickingPort, false, false, false, None, false, NotAsked, None, 0, 0, 0, false);
    if runDirSafe then b else SetupFails(b)
  }

  function AskCleanup(b: Bench): Bench {
    if b.cleaning.NotAsked? then b.(cleaning := Asked) else b
  }

  function Finish(b: Bench, ok: bool): Bench {
    AskCleanup(b).(phase := Finishing(ok))
  }

  function SetupFails(b: Bench): Bench {
    Finish(b.(setupDone := true), false)
  }

  predicate Over(c: Cleaning) {
    c.Removed? || c.Retained? || c.RemoveFailed?
  }

  predicate Enabled(b: Bench, e: Event) {
    b.exited.None? &&
    match e
    case Terminate(_) => !b.phase.Finished?
    case PortPicked(_) => b.phase.PickingPort?
    case ClientSettles(_) => b.phase.CreatingClient?
    case CallIssued => b.phase.Ready?
    case CallSettles => b.phase.Calling?
    case BodyEnds(_) => b.phase.Ready?
    case CleanupStarts => b.cleaning.Asked? && b.setupDone
    case CloseSettles => b.cleaning.Closing?
    case StopSettles(_) => b.cleaning.Stopping?
    case RemoveRuns(_) => b.cleaning.Removing?
    case MainResumes => b.phase.Finishing? && Over(b.cleaning)
    case HandlerResumes => b.terminated.Some? && Over(b.cleaning)
  }

  function AfterClose(b: Bench): Bench {
    b.(cleaning := if b.childAttempted && b.launch then Stopping else Removing)
  }

  function PickPort(b: Bench, result: PortResult): Bench {
    if result.PortFails? || b.terminated.Some? || result.EnvRefused? then SetupFails(b)
    else if result.LaunchRefused? then SetupFails(b.(launch := true))
    else b.(launch := true, childAttempted := true, phase := CreatingClient)
  }

  function Apply(b: Bench, e: Event): Bench
    requires Enabled(b, e)
  {
    match e
    case Terminate(signal) => if b.terminated.Some? then b else AskCleanup(b.(terminated := Some(signal)))
    case PortPicked(result) => PickPort(b, result)
    case ClientSettles(created) =>
      if !created then SetupFails(b)
      else if b.terminated.Some? then SetupFails(b.(client := true))
      else b.(client := true, setupDone := true, phase := Ready)
    case CallIssued => if b.terminated.Some? then Finish(b, false) else b.(phase := Calling, calls := b.calls + 1)
    case CallSettles => if b.terminated.Some? then Finish(b, false) else b.(phase := Ready)
    case BodyEnds(ok) => Finish(b, ok)
    case CleanupStarts =>
      var b1 := b.(cleanups := b.cleanups + 1);
      if b.client then b1.(cleaning := Closing, closes := b.closes + 1) else AfterClose(b1)
    case CloseSettles => AfterClose(b)
    case StopSettles(ok) => b.(stopped := ok, cleaning := if ok then Removing else Retained)
    case RemoveRuns(ok) => b.(cleaning := if ok then Removed else RemoveFailed)
    case MainResumes => b.(phase := Finished(b.phase.ok))
    case HandlerResumes => b.(exited := Some(ExitCode(b.terminated.value)))
  }

  function Then(b: Bench, e: Event): Bench {
    if Enabled(b, e) then Apply(b, e) else b
  }

  function After(runDirSafe: bool, es: seq<Event>): Bench {
    if es == [] then Init(runDirSafe) else Then(After(runDirSafe, es[..|es| - 1]), es[|es| - 1])
  }

  // ----- what every schedule keeps -----

  predicate InSetup(p: Phase) {
    p.PickingPort? || p.CreatingClient?
  }

  ghost predicate Inv(b: Bench) {
    && (b.setupDone <==> !InSetup(b.phase))
    && (b.client ==> b.childAttempted && b.setupDone)
    && (b.childAttempted ==> b.launch)
    && (b.phase.PickingPort? ==> !b.childAttempted)
    && (b.phase.CreatingClient? ==> b.childAttempted)
    && (b.phase.Finishing? || b.phase.Finished? || b.terminated.Some? ==> !b.cleaning.NotAsked?)
    && (b.phase.Finished? ==> Over(b.cleaning))
    && (b.exited.Some? ==> b.terminated.Some? && Over(b.cleaning) && b.exited.value == ExitCode(b.terminated.value))
    && CleaningInv(b)
  }

  predicate InRemoval(c: Cleaning) {
    c.Removing? || c.Removed? || c.RemoveFailed?
  }

  ghost predicate CleaningInv(b: Bench) {
    && b.cleanups == (if b.cleaning.NotAsked? || b.cleaning.Asked? then 0 else 1)
    && (b.cleanups == 1 ==> b.setupDone)
    && b.closes == (if b.cleanups == 1 && b.client then 1 else 0)
    && (b.cleaning.Stopping? || b.cleaning.Retained? ==> b.childAttempted)
    && (InRemoval(b.cleaning) && b.childAttempted <==> b.stopped)
  }

  lemma InvStep(b: Bench, e: Event)
    requires Inv(b) && Enabled(b, e)
    ensures Inv(Apply(b, e))
  {
    if e.CleanupStarts? || e.CloseSettles? || e.StopSettles? || e.RemoveRuns? {
      CleaningStep(b, e);
    } else {
      RunStep(b, e);
    }
  }

  // The cleanup moves nothing of the run, and the run nothing of the cleanup but its request.
  lemma CleaningStep(b: Bench, e: Event)
    requires Inv(b) && Enabled(b, e) && (e.CleanupStarts? || e.CloseSettles? || e.StopSettles? || e.RemoveRuns?)
    ensures Inv(Apply(b, e))
  {
    var b' := Apply(b, e);
    assert b'.phase == b.phase && b'.client == b.client && b'.launch == b.launch && b'.terminated == b.terminated;
    assert b'.childAttempted == b.childAttempted && b'.setupDone == b.setupDone && b'.exited == b.exited;
  }

  lemma RunStep(b: Bench, e: Event)
    requires Inv(b) && Enabled(b, e) && !e.CleanupStarts? && !e.CloseSettles? && !e.StopSettles? && !e.RemoveRuns?
    ensures Inv(Apply(b, e))
  {
    var b' := Apply(b, e);
    assert b'.cleanups == b.cleanups && b'.closes == b.closes && b'.stopped == b.stopped;
    assert b'.cleaning == b.cleaning || (b.cleaning.NotAsked? && b'.cleaning.Asked?);
  }

  lemma {:induction false} InvAlways(safe: bool, es: seq<Event>)
    ensures Inv(After(safe, es))
  {
    if es != [] {
      InvAlways(safe, es[..|es| - 1]);
      if Enabled(After(safe, es[..|es| - 1]), es[|es| - 1]) {
        InvStep(After(safe, es[..|es| - 1]), es[|es| - 1]);
      }
    }
  }

  // ----- main results -----

  // One cleanup at most, begun only after setup ended, whenever the signal came; a created
  // client is closed by it once, and nothing else ever is.
  lemma CleanupRunsOnce(safe: bool, es: seq<Event>)
    ensures var b := After(safe, es);
            && b.cleanups <= 1 && (b.cleanups == 1 ==> b.setupDone)
            && b.closes == (if b.cleanups == 1 && b.client then 1 else 0)
            && (b.phase.Finished? || b.exited.Some? ==> b.cleanups == 1)
  {
    InvAlways(safe, es);
  }

  // The directory goes only when no child can still be using it: none was started, or its
  // daemon confirmed the stop. A stop that fails keeps the directory for good.
  lemma RunDirRemovedSafely(safe: bool, es: seq<Event>)
    ensures var b := After(safe, es);
            && (b.cleaning.Removed? ==> !b.childAttempted || b.stopped)
            && (Over(b.cleaning) ==> (b.cleaning.Retained? <==> b.childAttempted && !b.stopped))
  {
    InvAlways(safe, es);
  }

  lemma TerminatedStays(b: Bench, e: Event)
    requires b.terminated.Some?
    ensures Then(b, e).terminated == b.terminated && Then(b, e).calls == b.calls
    ensures b.exited.Some? ==> Then(b, e) == b
  {
    if Enabled(b, e) && !e.CallIssued? {
      assert Apply(b, e).terminated == b.terminated && Apply(b, e).calls == b.calls;
    }
  }

  // No tool call is issued after termination is set, whatever happens then; the exit is the
  // first signal's, it is final, and it comes after the cleanup is over.
  lemma {:induction false} TerminationIsRespected(safe: bool, es: seq<Event>, more: seq<Event>)
    requires After(safe, es).terminated.Some?
    ensures var b, b' := After(safe, es), After(safe, es + more);
            && b'.terminated == b.terminated && b'.calls == b.calls
            && (b'.exited.Some? ==> Over(b'.cleaning) && b'.exited.value == ExitCode(b.terminated.value))
            && (b.exited.Some? ==> b' == b)
  {
    InvAlways(safe, es + more);
    if more == [] {
      assert es + more == es;
    } else {
      TerminationIsRespected(safe, es, more[..|more| - 1]);
      assert (es + more)[..|es + more| - 1] == es + more[..|more| - 1];
      TerminatedStays(After(safe, es + more[..|more| - 1]), more[|more| - 1]);
    }
  }

  // How many more steps a terminated benchmark can take: fewer each time, and while it has
  // not exited there is one to take. So if what it awaits settles, it exits.
  function StepsLeft(b: Bench): nat {
    PhaseSteps(b.phase) + CleaningSteps(b.cleaning) + if b.exited.None? then 1 else 0
  }

  function PhaseSteps(p: Phase): nat {
    match p
    case PickingPort => 4
    case CreatingClient => 3
    case Calling => 3
    case Ready => 3
    case Finishing(_) => 1
    case Finished(_) => 0
  }

  function CleaningSteps(c: Cleaning): nat {
    match c
    case NotAsked => 5
    case Asked => 4
    case Closing => 3
    case Stopping => 2
    case Removing => 1
    case _ => 0
  }

  predicate Benign(e: Event) {
    !e.Terminate?
  }

  lemma TerminationProgress(b: Bench, e: Event)
    requires Inv(b) && b.terminated.Some? && Enabled(b, e) && Benign(e)
    ensures StepsLeft(Apply(b, e)) < StepsLeft(b)
  {}

  lemma TerminationNotStuck(b: Bench) returns (e: Event)
    requires Inv(b) && b.terminated.Some? && b.exited.None?
    ensures Enabled(b, e) && Benign(e)
  {
    e := match b.cleaning
      case Asked =>
        (match b.phase
         case PickingPort => PortPicked(PortFails)
         case CreatingClient => ClientSettles(false)
         case _ => CleanupStarts)
      case Closing => CloseSettles
      case Stopping => StopSettles(true)
      case Removing => RemoveRuns(true)
      case _ => HandlerResumes;
  }

  function Driven(b: Bench, es: seq<Event>, n: nat): Bench
    requires n <= |es|
  {
    if n == 0 then b else Then(Driven(b, es, n - 1), es[n - 1])
  }

  ghost predicate AllTaken(b: Bench, es: seq<Event>) {
    forall n | 0 <= n < |es| :: Enabled(Driven(b, es, n), es[n]) && Benign(es[n])
  }

  // At most nine steps after a signal, of whatever kind and in whatever order, a benchmark
  // whose awaited work settles has cleaned up and exited.
  lemma {:induction false} ExitsWithinNineSteps(b: Bench, es: seq<Event>, n: nat)
    requires Inv(b) && b.terminated.Some? && AllTaken(b, es) && n <= |es|
    ensures Inv(Driven(b, es, n)) && Driven(b, es, n).terminated == b.terminated
    ensures StepsLeft(Driven(b, es, n)) + n <= StepsLeft(b) <= 9
  {
    if n > 0 {
      ExitsWithinNineSteps(b, es, n - 1);
      var d := Driven(b, es, n - 1);
      InvStep(d, es[n - 1]);
      TerminatedStays(d, es[n - 1]);
      TerminationProgress(d, es[n - 1]);
    }
  }
}
