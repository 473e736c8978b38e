// The benchmark's own variables, updated at each of its awaits, and a whole schedule of them.
module BenchmarkRun {
  import opened Options
  import opened BenchmarkCleanup

  class Benchmark {
    var phase: Phase
    var launch: bool
    var client: bool
    var childAttempted: bool
    var terminated: Option<Signal>
    var setupDone: bool
    var cleaning: Cleaning
    var exited: Option<int>
    var calls: nat
    var closes: nat
    var cleanups: nat
    var stopped: bool

    function View(): Bench
      reads this
    {
      Bench(phase, launch, client, childAttempted, terminated, setupDone, cleaning, exited,
            calls, closes, cleanups, stopped)
    }

    constructor (runDirSafe: bool)
      ensures View() == Init(runDirSafe)
    {
      launch, client, childAttempted, terminated, exited := false, false, false, None, None;
      calls, closes, cleanups, stopped := 0, 0, 0, false;
      phase := if runDirSafe then PickingPort else Finishing(false);
      setupDone := !runDirSafe;
      cleaning := if runDirSafe then NotAsked else Asked;
    }

    // `cleanup`: the promise is made once, and everyone waits on the same one.
    method AskForCleanup()
      modifies `cleaning
      ensures View() == AskCleanup(old(View()))
    {
      if cleaning.NotAsked? {
        cleaning := Asked;
      }
    }

    method OnTerminate(signal: Signal)
      requires Enabled(View(), Terminate(signal))
      modifies this
      ensures View() == Apply(old(View()), Terminate(signal))
    {
      if terminated.Some? {
        return;
      }
      terminated := Some(signal);
      AskForCleanup();
    }

    method EndBody(ok: bool)
      modifies this
      ensures View() == Finish(old(View()), ok)
    {
      AskForCleanup();
      phase := Finishing(ok);
    }

    method ResumeAfterPort(result: PortResult)
      requires Enabled(View(), PortPicked(result))
      modifies this
      ensures View() == Apply(old(View()), PortPicked(result))
    {
      if !result.PortFails? && terminated.None? && !result.EnvRefused? {
        launch := true;
        if result.ChildSpawned? {
          childAttempted := true;
          phase := CreatingClient;
          return;
        }
      }
      setupDone := true;
      EndBody(false);
    }

    method ResumeAfterClient(created: bool)
      requires Enabled(View(), ClientSettles(created))
      modifies this
      ensures View() == Apply(old(View()), ClientSettles(created))
    {
      client := created || client;
      setupDone := true;
      if !created || terminated.Some? {
        EndBody(false);
      } else {
        phase := Ready;
      }
    }

    method IssueCall()
      requires Enabled(View(), CallIssued)
      modifies this
      ensures View() == Apply(old(View()), CallIssued)
    {
      if terminated.Some? {
        EndBody(false);
      } else {
        calls := calls + 1;
        phase := Calling;
      }
    }

    method ResumeAfterCall()
      requires Enabled(View(), CallSettles)
      modifies this
      ensures View() == Apply(old(View()), CallSettles)
    {
      if terminated.Some? {
        EndBody(false);
      } else {
        phase := Ready;
      }
    }

    // `cleanupBenchmark`, up to its first await, and on from each.
    method StartCleanup()
      requires Enabled(View(), CleanupStarts)
      modifies this
      ensures View() == Apply(old(View()), CleanupStarts)
    {
      cleanups := cleanups + 1;
      if client {
        closes := closes + 1;
        cleaning := Closing;
      } else {
        GoOnToStop();
      }
    }

    method GoOnToStop()
      modifies `cleaning
      ensures View() == AfterClose(old(View()))
    {
      cleaning := if childAttempted && launch then Stopping else Removing;
    }

    // The events that run code of the benchmark, up to its next await.
    static predicate RunsCode(e: Event) {
      !e.StopSettles? && !e.RemoveRuns? && !e.MainResumes? && !e.HandlerResumes?
    }

    // How the last part of `cleanupBenchmark` goes, and who waited for it, is an outcome.
    method TakeOutcome(e: Event)
      requires Enabled(View(), e) && !RunsCode(e)
      modifies this
      ensures View() == Apply(old(View()), e)
    {
      match e {
        case StopSettles(ok) => stopped, cleaning := ok, if ok then Removing else Retained;
        case RemoveRuns(ok) => cleaning := if ok then Removed else RemoveFailed;
        case MainResumes => phase := Finished(phase.ok);
        case HandlerResumes => exited := Some(if terminated.value.Sigint? then 130 else 143);
      }
    }

    // One event of a schedule.
    method TakeStep(e: Event)
      requires Inv(View()) && Enabled(View(), e)
      modifies this
      ensures View() == Apply(old(View()), e) && Inv(View())
    {
      hide Inv;
      hide PickPort;
      hide AskCleanup;
      hide AfterClose;
      ghost var before := View();
      InvStep(before, e);
      if RunsCode(e) {
        match e {
          case Terminate(signal) => OnTerminate(signal);
          case PortPicked(result) => ResumeAfterPort(result);
          case ClientSettles(created) => ResumeAfterClient(created);
          case CallIssued => IssueCall();
          case CallSettles => ResumeAfterCall();
          case BodyEnds(ok) => EndBody(ok);
          case CleanupStarts => StartCleanup();
          case CloseSettles => GoOnToStop();
        }
      } else {
        TakeOutcome(e);
      }
    }

    // A whole schedule: cleanup began once at most, after setup, and closed a created client
    // once; the run directory went only without a child or after its stop; and what returned
    // or exited did so after cleanup.
    method Follow(safe: bool, es: seq<Event>)
      requires View() == Init(safe)
      modifies this
      ensures View() == After(safe, es)
      ensures cleanups <= 1 && (cleanups == 1 ==> setupDone)
      ensures closes == if cleanups == 1 && client then 1 else 0
      ensures cleaning.Removed? ==> !childAttempted || stopped
      ensures phase.Finished? || exited.Some? ==> cleanups == 1 && Over(cleaning)
      ensures exited.Some? ==> terminated.Some? && exited.value == ExitCode(terminated.value)
    {
      for i := 0 to |es|
        invariant View() == After(safe, es[..i]) && Inv(View())
      {
        assert es[..i + 1][..i] == es[..i];
        if Enabled(View(), es[i]) {
          TakeStep(es[i]);
        }
      }
      assert es[..|es|] == es;
    }
  }

  // The benchmark from its start to the end of any schedule.
  method RunBenchmark(runDirSafe: bool, es: seq<Event>) returns (end: Bench)
    ensures end == After(runDirSafe, es)
    ensures end.cleanups <= 1 && end.closes == if end.cleanups == 1 && end.client then 1 else 0
    ensures end.cleaning.Removed? ==> !end.childAttempted || end.stopped
    ensures end.exited.Some? ==> end.terminated.Some? && end.exited.value == ExitCode(end.terminated.value)
  {
    var benchmark := new Benchmark(runDirSafe);
    benchmark.Follow(runDirSafe, es);
    end := benchmark.View();
  }
}
