// What a schedule of the benchmark comes to, in terms of its events.
module BenchmarkOutcome {
  import opened Options
  import opened BenchmarkCleanup

  predicate Happens(safe: bool, es: seq<Event>, k: nat) {
    k < |es| && Enabled(After(safe, es[..k]), es[k])
  }

  lemma HappensEarlier(safe: bool, es: seq<Event>, k: nat)
    requires k < |es| - 1
    ensures es[..|es| - 1][..k] == es[..k] && es[..|es| - 1][k] == es[k]
    ensures Happens(safe, es[..|es| - 1], k) <==> Happens(safe, es, k)
  {}

  // The k-th event is the first termination signal to arrive.
  ghost predicate FirstSignal(safe: bool, es: seq<Event>, k: nat) {
    && Happens(safe, es, k) && es[k].Terminate?
    && forall j: nat | j < k && Happens(safe, es, j) :: !es[j].Terminate?
  }

  ghost predicate Signalled(safe: bool, es: seq<Event>) {
    exists k: nat :: Happens(safe, es, k) && es[k].Terminate?
  }

  lemma SignalledEarlier(safe: bool, es: seq<Event>)
    requires es != []
    ensures Signalled(safe, es) <==>
              Signalled(safe, es[..|es| - 1]) || (Happens(safe, es, |es| - 1) && es[|es| - 1].Terminate?)
  {
    var before, last := es[..|es| - 1], |es| - 1;
    if k: nat :| Happens(safe, es, k) && es[k].Terminate? {
      if k < last {
        HappensEarlier(safe, es, k);
      }
    }
    if k: nat :| Happens(safe, before, k) && before[k].Terminate? {
      HappensEarlier(safe, es, k);
    }
  }

  lemma AskIs(b: Bench)
    ensures AskCleanup(b) == b.(cleaning := AskCleanup(b).cleaning)
  {}

  lemma FinishIs(b: Bench, ok: bool)
    ensures Finish(b, ok) == b.(cleaning := Finish(b, ok).cleaning, phase := Finishing(ok))
  {}

  lemma SetupFailsIs(b: Bench)
    ensures SetupFails(b) == b.(cleaning := SetupFails(b).cleaning, phase := Finishing(false), setupDone := true)
  {}

  lemma PickIs(b: Bench, result: PortResult)
    ensures var b' := PickPort(b, result);
            && b'.terminated == b.terminated && b'.client == b.client && b'.calls == b.calls
            && (b'.phase == Finishing(false) || b'.phase == CreatingClient)
            && b'.childAttempted == (b.childAttempted || (result.ChildSpawned? && b.terminated.None?))
  {
    hide SetupFails;
    SetupFailsIs(b);
    SetupFailsIs(b.(launch := true));
  }

  predicate EndsWell(p: Phase) {
    p == Finishing(true) || p == Finished(true)
  }

  // What one event does to the signal, the child, the client, the calls and the way the body
  // ends.
  lemma StepEffect(b: Bench, e: Event)
    requires Enabled(b, e)
    ensures var b' := Apply(b, e);
            && b'.terminated == (if e.Terminate? && b.terminated.None? then Some(e.signal) else b.terminated)
            && (b'.childAttempted <==> b.childAttempted || (e == PortPicked(ChildSpawned) && b.terminated.None?))
            && (b'.client <==> b.client || e == ClientSettles(true))
            && b'.calls == b.calls + (if e.CallIssued? && b.terminated.None? then 1 else 0)
            && (EndsWell(b'.phase) <==> EndsWell(b.phase) || e == BodyEnds(true))
  {
    hide AskCleanup;
    hide Finish;
    hide SetupFails;
    hide PickPort;
    match e {
      case Terminate(signal) => AskIs(b.(terminated := Some(signal)));
      case PortPicked(result) => PickIs(b, result);
      case ClientSettles(created) =>
        SetupFailsIs(b);
        SetupFailsIs(b.(client := true));
      case BodyEnds(ok) => FinishIs(b, ok);
      case _ => FinishIs(b, false);
    }
  }

  lemma {:induction false} TerminatedIff(safe: bool, es: seq<Event>)
    ensures After(safe, es).terminated.Some? <==> Signalled(safe, es)
  {
    if es != [] {
      var before, last := es[..|es| - 1], |es| - 1;
      assert es[..last] == before;
      TerminatedIff(safe, before);
      SignalledEarlier(safe, es);
      if Happens(safe, es, last) {
        InvAlways(safe, before);
        StepEffect(After(safe, before), es[last]);
      }
      hide Apply;
      hide Signalled;
    }
  }

  // The first signal is the one that counts: an exit is with 130 if it is SIGINT and with 143
  // if it is SIGTERM, whatever arrives later.
  lemma {:induction false} FirstSignalCounts(safe: bool, es: seq<Event>, k: nat)
    requires FirstSignal(safe, es, k)
    ensures After(safe, es).terminated == Some(es[k].signal)
    ensures After(safe, es).exited.Some? ==> After(safe, es).exited.value == if es[k].signal.Sigint? then 130 else 143
  {
    InvAlways(safe, es);
    FirstSignalStays(safe, es, k);
  }

  lemma {:induction false} FirstSignalStays(safe: bool, es: seq<Event>, k: nat)
    requires FirstSignal(safe, es, k)
    ensures After(safe, es).terminated == Some(es[k].signal)
  {
    var before, last := es[..|es| - 1], |es| - 1;
    assert es[..last] == before;
    InvAlways(safe, before);
    if k == last {
      forall j: nat | Happens(safe, before, j) ensures !before[j].Terminate? {
        HappensEarlier(safe, es, j);
      }
      TerminatedIff(safe, before);
      StepEffect(After(safe, before), es[last]);
    } else {
      forall j: nat | j < k && Happens(safe, before, j) ensures !before[j].Terminate? {
        HappensEarlier(safe, es, j);
      }
      HappensEarlier(safe, es, k);
      FirstSignalStays(safe, before, k);
      if Happens(safe, es, last) {
        StepEffect(After(safe, before), es[last]);
      }
    }
    hide Apply;
    hide Enabled;
  }

  // A child is attempted exactly when the port was picked, nothing refused the launch and no
  // signal had come by then.
  ghost predicate SpawnsAt(safe: bool, es: seq<Event>, k: nat) {
    Happens(safe, es, k) && es[k] == PortPicked(ChildSpawned) && !Signalled(safe, es[..k])
  }

  lemma {:induction false} ChildIff(safe: bool, es: seq<Event>)
    ensures After(safe, es).childAttempted <==> exists k: nat :: SpawnsAt(safe, es, k)
  {
    if es != [] {
      var before, last := es[..|es| - 1], |es| - 1;
      assert es[..last] == before;
      ChildIff(safe, before);
      TerminatedIff(safe, before);
      if Happens(safe, es, last) {
        InvAlways(safe, before);
        StepEffect(After(safe, before), es[last]);
      }
      hide Apply;
      hide Enabled;
      hide Signalled;
      assert After(safe, es).childAttempted <==> After(safe, before).childAttempted || SpawnsAt(safe, es, last);
      if k: nat :| SpawnsAt(safe, es, k) {
        if k < last {
          HappensEarlier(safe, es, k);
          assert SpawnsAt(safe, before, k);
        }
      }
      if k: nat :| SpawnsAt(safe, before, k) {
        HappensEarlier(safe, es, k);
        assert SpawnsAt(safe, es, k);
      }
    }
  }

  // The tool calls issued: every attempt to issue one until the first signal.
  function CallsBefore(safe: bool, es: seq<Event>, n: nat): nat
    requires n <= |es|
  {
    if n == 0 then 0
    else CallsBefore(safe, es, n - 1) +
         if Happens(safe, es, n - 1) && es[n - 1].CallIssued? && After(safe, es[..n - 1]).terminated.None? then 1 else 0
  }

  lemma {:induction false} CallsCount(safe: bool, es: seq<Event>, n: nat)
    requires n <= |es|
    ensures After(safe, es[..n]).calls == CallsBefore(safe, es, n)
  {
    if n > 0 {
      CallsCount(safe, es, n - 1);
      assert es[..n][..n - 1] == es[..n - 1];
      if Happens(safe, es, n - 1) {
        InvAlways(safe, es[..n - 1]);
        StepEffect(After(safe, es[..n - 1]), es[n - 1]);
      }
      hide Apply;
      hide Enabled;
    }
  }

  // Until the first signal nothing keeps a benchmark whose client was created from its calls:
  // each is issued, and its return leaves it ready for the next.
  lemma CallsGoOn(safe: bool, es: seq<Event>)
    requires !Signalled(safe, es)
    ensures var b := After(safe, es);
            && b.terminated.None?
            && (Enabled(b, ClientSettles(true)) ==> Apply(b, ClientSettles(true)).phase == Ready)
            && (Enabled(b, CallIssued) ==> Apply(b, CallIssued) == b.(phase := Calling, calls := b.calls + 1))
            && (Enabled(b, CallSettles) ==> Apply(b, CallSettles) == b.(phase := Ready))
            && (b.phase.Ready? && b.exited.None? ==> Enabled(b, CallIssued))
  {
    TerminatedIff(safe, es);
    hide Signalled;
  }

  ghost predicate EndedWellAt(safe: bool, es: seq<Event>, k: nat) {
    Happens(safe, es, k) && es[k] == BodyEnds(true)
  }

  // It returns its report, and does not throw, exactly when its body came to its end.
  lemma {:induction false} ReturnsIffBodyEnded(safe: bool, es: seq<Event>)
    ensures EndsWell(After(safe, es).phase) <==> exists k: nat :: EndedWellAt(safe, es, k)
  {
    if es != [] {
      var before, last := es[..|es| - 1], |es| - 1;
      assert es[..last] == before;
      ReturnsIffBodyEnded(safe, before);
      if Happens(safe, es, last) {
        StepEffect(After(safe, before), es[last]);
      }
      hide Apply;
      hide Enabled;
      hide EndsWell;
      assert EndsWell(After(safe, es).phase) <==> EndsWell(After(safe, before).phase) || EndedWellAt(safe, es, last);
      if k: nat :| EndedWellAt(safe, es, k) {
        if k < last {
          HappensEarlier(safe, es, k);
          assert EndedWellAt(safe, before, k);
        }
      }
      if k: nat :| EndedWellAt(safe, before, k) {
        HappensEarlier(safe, es, k);
        assert EndedWellAt(safe, es, k);
      }
    }
  }
}
