// The outcome of the acceptance run in terms of its attempts: which of them, failing, end the
// body or spoil the cleanup, and that nothing else does.
module AcceptanceOutcome {
  import opened Options
  import opened AcceptanceMatrix

  // ----- the books in terms of the steps -----

  // The daemon confirms the release of u by step j: the session is open, the daemon is or gets
  // connected, and the call succeeds.
  ghost predicate ConfirmsAt(steps: seq<Step>, j: nat, u: string) {
    && j < |steps| && steps[j].Releasing? && steps[j].uuid == u && IsOpen(Worked(steps, j).minted, u)
    && (Worked(steps, j).connected || steps[j].tries.connect.Succeeds?) && steps[j].tries.call.Succeeds?
  }

  ghost predicate AcquiresAt(steps: seq<Step>, j: nat, u: string) {
    j < |steps| && steps[j].Acquired? && steps[j].uuid == u
  }

  // Step j connects to the daemon, on its own or to release an open session.
  ghost predicate ConnectsAt(steps: seq<Step>, j: nat) {
    j < |steps| &&
    match steps[j]
    case ConnectingDaemon(connect) => connect.Succeeds?
    case Releasing(u, t) => IsOpen(Worked(steps, j).minted, u) && t.connect.Succeeds?
    case _ => false
  }

  lemma ConfirmStep(b: Books, step: Step, u: string)
    requires Balanced(b)
    ensures u in Do(b, step).confirmed <==>
              || u in b.confirmed
              || (step.Releasing? && step.uuid == u && IsOpen(b.minted, u)
                  && (b.connected || step.tries.connect.Succeeds?) && step.tries.call.Succeeds?)
  {
    hide Balanced;
    hide IndexOf;
  }

  lemma OpenStep(b: Books, step: Step, u: string)
    requires Balanced(b)
    ensures var known, known' := IsOpen(b.minted, u) || IsReleased(b.minted, u),
                IsOpen(Do(b, step).minted, u) || IsReleased(Do(b, step).minted, u);
            known' <==> known || (step.Acquired? && step.uuid == u)
  {
    match step {
      case Acquired(phase, uuid) =>
        if IndexOf(b.minted, uuid) == |b.minted| {
          IndexPush(b.minted, Session(uuid, phase, false), u);
        }
      case Releasing(uuid, t) =>
        if Releases(b, uuid, t) {
          var i := IndexOf(b.minted, uuid);
          IndexUpdate(b.minted, i, b.minted[i].(released := true), u);
        }
      case _ =>
    }
    hide Balanced;
    hide IndexOf;
  }

  lemma ConnectStep(b: Books, step: Step)
    ensures Do(b, step).connected <==>
              && !step.DiscardingDaemon?
              && (b.connected || step == ConnectingDaemon(Succeeds)
                  || (step.Releasing? && IsOpen(b.minted, step.uuid) && step.tries.connect.Succeeds?))
  {
    hide IndexOf;
  }

  // A release is confirmed by the step that makes it.
  lemma {:induction false} ConfirmedIff(steps: seq<Step>, n: nat, u: string)
    requires n <= |steps|
    ensures u in Worked(steps, n).confirmed <==> exists j: nat :: j < n && ConfirmsAt(steps, j, u)
  {
    hide Do;
    hide Balanced;
    hide IsOpen;
    if n > 0 {
      ConfirmedIff(steps, n - 1, u);
      WorkedBalanced(steps, n - 1);
      ConfirmStep(Worked(steps, n - 1), steps[n - 1], u);
      assert u in Worked(steps, n).confirmed <==> u in Worked(steps, n - 1).confirmed || ConfirmsAt(steps, n - 1, u);
      hide ConfirmsAt;
      hide Worked;
      if j: nat :| j < n && ConfirmsAt(steps, j, u) {
        assert j == n - 1 || j < n - 1;
      }
    }
  }

  lemma {:induction false} KnownIff(steps: seq<Step>, n: nat, u: string)
    requires n <= |steps|
    ensures IsOpen(Worked(steps, n).minted, u) || IsReleased(Worked(steps, n).minted, u) <==>
              exists j: nat :: j < n && AcquiresAt(steps, j, u)
  {
    hide Do;
    hide Balanced;
    if n == 0 {
      assert IndexOf(EMPTY_BOOKS.minted, u) == 0;
    } else {
      KnownIff(steps, n - 1, u);
      WorkedBalanced(steps, n - 1);
      OpenStep(Worked(steps, n - 1), steps[n - 1], u);
      hide IsOpen;
      hide IsReleased;
      assert Worked(steps, n) == Do(Worked(steps, n - 1), steps[n - 1]);
      hide Worked;
      if j: nat :| j < n && AcquiresAt(steps, j, u) {
        assert j == n - 1 || j < n - 1;
      }
      hide AcquiresAt;
      assert AcquiresAt(steps, n - 1, u) <==> steps[n - 1].Acquired? && steps[n - 1].uuid == u by {
        AcquiresIs(steps, n - 1, u);
      }
    }
  }

  lemma AcquiresIs(steps: seq<Step>, j: nat, u: string)
    requires j < |steps|
    ensures AcquiresAt(steps, j, u) <==> steps[j].Acquired? && steps[j].uuid == u
  {}

  // A session is open exactly when a step acquired it and none has had its release confirmed.
  lemma OpenIff(steps: seq<Step>, n: nat, u: string)
    requires n <= |steps|
    ensures IsOpen(Worked(steps, n).minted, u) <==>
              && (exists j: nat :: j < n && AcquiresAt(steps, j, u))
              && !(exists j: nat :: j < n && ConfirmsAt(steps, j, u))
  {
    WorkedBalanced(steps, n);
    KnownIff(steps, n, u);
    ConfirmedIff(steps, n, u);
    assert !(IsOpen(Worked(steps, n).minted, u) && IsReleased(Worked(steps, n).minted, u));
    assert u in Worked(steps, n).confirmed <==> IsReleased(Worked(steps, n).minted, u);
    hide AcquiresAt;
    hide ConfirmsAt;
    hide Worked;
    hide IsOpen;
  }

  // The daemon is connected exactly when a step connected it and none has discarded it since.
  lemma {:induction false} ConnectedIff(steps: seq<Step>, n: nat)
    requires n <= |steps|
    ensures Worked(steps, n).connected <==>
              exists j: nat :: j < n && ConnectsAt(steps, j) && NotDiscarded(steps, j, n)
  {
    if n > 0 {
      ConnectedIff(steps, n - 1);
      ConnectStep(Worked(steps, n - 1), steps[n - 1]);
      hide Do;
      hide IsOpen;
      if j: nat :| j < n - 1 && ConnectsAt(steps, j) && NotDiscarded(steps, j, n - 1) {
        assert !steps[n - 1].DiscardingDaemon? ==> NotDiscarded(steps, j, n);
      }
      if j: nat :| j < n && ConnectsAt(steps, j) && NotDiscarded(steps, j, n) {
        assert j < n - 1 ==> NotDiscarded(steps, j, n - 1);
      }
      assert ConnectsAt(steps, n - 1) ==> NotDiscarded(steps, n - 1, n);
    }
  }

  ghost predicate NotDiscarded(steps: seq<Step>, j: nat, n: nat)
    requires n <= |steps|
  {
    forall m | j < m < n :: !steps[m].DiscardingDaemon?
  }

  // ----- failed attempts -----

  // An attempt this step makes fails with the error e: an awaited call, a connection that is
  // still to do, or the connection or the call that an open session's release takes.
  predicate AttemptFails(b: Books, step: Step, e: Thrown) {
    match step
    case Other(attempt) => attempt == Fails(e)
    case ConnectingDaemon(connect) => !b.connected && connect == Fails(e)
    case Releasing(u, t) => ReleaseFails(b, u, t, e)
    case _ => false
  }

  predicate ReleaseFails(b: Books, u: string, t: Tries, e: Thrown) {
    && IsOpen(b.minted, u)
    && ((!b.connected && t.connect == Fails(e))
        || ((b.connected || t.connect.Succeeds?) && t.call == Fails(e)))
  }

  lemma ReleaseThrowsIff(b: Books, u: string, t: Tries, e: Thrown)
    ensures ReleaseThrows(b, u, t) == Some(e) <==> ReleaseFails(b, u, t, e)
  {
    hide IndexOf;
  }

  lemma ThrowsIff(b: Books, step: Step, e: Thrown)
    ensures DoThrows(b, step) == Some(e) <==> AttemptFails(b, step, e)
  {
    if step.Releasing? {
      ReleaseThrowsIff(b, step.uuid, step.tries, e);
    }
    hide ReleaseThrows;
    hide ReleaseFails;
  }

  lemma ThrowsSome(b: Books, step: Step)
    ensures DoThrows(b, step).Some? <==> exists e :: AttemptFails(b, step, e)
  {
    if DoThrows(b, step).Some? {
      ThrowsIff(b, step, DoThrows(b, step).value);
    }
    if e :| AttemptFails(b, step, e) {
      ThrowsIff(b, step, e);
    }
    hide DoThrows;
    hide AttemptFails;
  }

  // No attempt of the first n steps fails.
  ghost predicate AllSucceed(steps: seq<Step>, n: nat)
    requires n <= |steps|
  {
    forall k: nat, e | k < n :: !AttemptFails(Worked(steps, k), steps[k], e)
  }

  // The n-th step is the first with a failed attempt, which fails with e.
  ghost predicate FirstFailure(steps: seq<Step>, n: nat, e: Thrown) {
    0 < n <= |steps| && AllSucceed(steps, n - 1) && AttemptFails(Worked(steps, n - 1), steps[n - 1], e)
  }

  lemma SilentIff(steps: seq<Step>, n: nat)
    requires n <= |steps|
    ensures AllSucceed(steps, n) <==> forall k | 0 <= k < n :: DoThrows(Worked(steps, k), steps[k]).None?
  {
    hide AttemptFails;
    hide DoThrows;
    hide Worked;
    forall k: nat | k < n
      ensures DoThrows(Worked(steps, k), steps[k]).Some? <==> exists e :: AttemptFails(Worked(steps, k), steps[k], e)
    {
      ThrowsSome(Worked(steps, k), steps[k]);
    }
  }

  // The body ends with the first attempt that fails, of whatever error, and that is the primary
  // error; if none fails it ends with its last step and there is none.
  lemma BodyEndsWithFirstFailure(steps: seq<Step>, n: nat, primary: Thrown)
    ensures BodyEnds(steps, n, primary) <==>
              || FirstFailure(steps, n, primary)
              || (n == |steps| && AllSucceed(steps, n) && primary == Undefined)
  {
    if n <= |steps| {
      SilentIff(steps, n);
      if n > 0 {
        SilentIff(steps, n - 1);
        ThrowsIff(Worked(steps, n - 1), steps[n - 1], primary);
        ThrowsSome(Worked(steps, n - 1), steps[n - 1]);
      }
    }
    hide AttemptFails;
    hide DoThrows;
    hide Worked;
  }

  // ----- cleanup -----

  // Closing a discarded daemon connection fails in the k-th step.
  ghost predicate DiscardFails(steps: seq<Step>, k: nat)
    requires k < |steps|
  {
    steps[k].DiscardingDaemon? && Worked(steps, k).connected && steps[k].close.Fails?
  }

  lemma DiscardStep(b: Books, step: Step)
    ensures Do(b, step).failures >= b.failures
    ensures Do(b, step).failures == b.failures <==> !(step.DiscardingDaemon? && b.connected && step.close.Fails?)
  {
    hide IndexOf;
  }

  lemma {:induction false} BodyFailuresIff(steps: seq<Step>, n: nat)
    requires n <= |steps|
    ensures Worked(steps, n).failures == 0 <==> forall k: nat | k < n :: !DiscardFails(steps, k)
  {
    hide Do;
    if n == 0 {
      assert Worked(steps, 0) == EMPTY_BOOKS;
    } else {
      BodyFailuresIff(steps, n - 1);
      DiscardStep(Worked(steps, n - 1), steps[n - 1]);
      assert Worked(steps, n).failures >= Worked(steps, n - 1).failures;
      assert Worked(steps, n).failures == Worked(steps, n - 1).failures <==> !DiscardFails(steps, n - 1);
      hide DiscardFails;
      hide Worked;
    }
  }

  // None of the first n releases of the finally block, begun with the books b, fails.
  ghost predicate LoopSucceeds(b: Books, left: seq<Session>, tries: seq<Tries>, n: nat)
    requires n <= |left| <= |tries|
  {
    forall i: nat, e | i < n :: !ReleaseFails(ReleasedLeft(b, left, tries, i), left[i].uuid, tries[i], e)
  }

  predicate AllClose(closes: seq<Attempt>) {
    forall i | 0 <= i < |closes| :: closes[i].Succeeds?
  }

  // No attempt of the finally block fails: not the kill of a provisioned device, no release of
  // a session left, not the close of a connected daemon, and no close of a client.
  ghost predicate CleanupSucceeds(b: Books, c: Cleanup)
    requires |Unreleased(b.minted)| <= |c.releases|
  {
    var left := Unreleased(b.minted);
    && (c.kill.Some? ==> c.kill.value.Succeeds?)
    && LoopSucceeds(AfterKill(b, c), left, c.releases, |left|)
    && (ReleasedLeft(AfterKill(b, c), left, c.releases, |left|).connected ==> c.daemonClose.Succeeds?)
    && AllClose(c.closes)
  }

  lemma TryReleaseCounts(b: Books, u: string, t: Tries)
    ensures TryRelease(b, u, t).failures >= b.failures
    ensures TryRelease(b, u, t).failures == b.failures <==> forall e :: !ReleaseFails(b, u, t, e)
  {
    if ReleaseThrows(b, u, t).Some? {
      ReleaseThrowsIff(b, u, t, ReleaseThrows(b, u, t).value);
    }
    if e :| ReleaseFails(b, u, t, e) {
      ReleaseThrowsIff(b, u, t, e);
    }
    assert Release(b, u, t).failures == b.failures;
    hide Release;
    hide ReleaseThrows;
    hide ReleaseFails;
  }

  lemma {:induction false} LoopCounts(b: Books, left: seq<Session>, tries: seq<Tries>, n: nat)
    requires n <= |left| <= |tries|
    ensures ReleasedLeft(b, left, tries, n).failures >= b.failures
    ensures ReleasedLeft(b, left, tries, n).failures == b.failures <==> LoopSucceeds(b, left, tries, n)
  {
    hide TryRelease;
    hide ReleaseFails;
    if n > 0 {
      LoopCounts(b, left, tries, n - 1);
      TryReleaseCounts(ReleasedLeft(b, left, tries, n - 1), left[n - 1].uuid, tries[n - 1]);
    }
  }

  lemma {:induction false} ClosesCount(b: Books, closes: seq<Attempt>, n: nat)
    requires n <= |closes|
    ensures CountFailures(b, closes, n).failures >= b.failures
    ensures CountFailures(b, closes, n).failures == b.failures <==> AllClose(closes[..n])
  {
    if n > 0 {
      ClosesCount(b, closes, n - 1);
      assert closes[..n] == closes[..n - 1] + [closes[n - 1]];
    }
  }

  lemma KillCounts(b: Books, c: Cleanup)
    ensures AfterKill(b, c).failures >= b.failures
    ensures AfterKill(b, c).failures == b.failures <==> (c.kill.Some? ==> c.kill.value.Succeeds?)
  {}

  lemma CloseCounts(b: Books, close: Attempt)
    ensures CountFailure(b, close).failures >= b.failures
    ensures CountFailure(b, close).failures == b.failures <==> close.Succeeds?
  {}

  lemma CleanupCounts(b: Books, c: Cleanup)
    requires |Unreleased(b.minted)| <= |c.releases|
    ensures CleanedUp(b, c).failures == 0 <==> b.failures == 0 && CleanupSucceeds(b, c)
  {
    hide ReleasedLeft;
    hide CountFailures;
    hide CountFailure;
    hide Unreleased;
    hide LoopSucceeds;
    hide AllClose;
    hide AfterKill;
    var left := Unreleased(b.minted);
    var b0 := AfterKill(b, c);
    KillCounts(b, c);
    LoopCounts(b0, left, c.releases, |left|);
    var b1 := ReleasedLeft(b0, left, c.releases, |left|);
    CloseCounts(b1, c.daemonClose);
    var b2 := if b1.connected then CountFailure(b1, c.daemonClose) else b1;
    ClosesCount(b2, c.closes, |c.closes|);
    assert c.closes[..|c.closes|] == c.closes;
  }

  // ----- main results -----

  // Nothing failed in the cleanup that the body or the finally block made.
  ghost predicate RunCleansUp(steps: seq<Step>, n: nat, c: Cleanup)
    requires n <= |steps| && |Unreleased(Worked(steps, n).minted)| <= |c.releases|
  {
    (forall k: nat | k < n :: !DiscardFails(steps, k)) && CleanupSucceeds(Worked(steps, n), c)
  }

  // A run whose body ended after n steps returns its evidence exactly when no attempt to clean
  // up failed, writing the evidence did not fail with something truthy, and no step failed or
  // the first to fail did so with something that is not truthy; and the evidence it returns
  // says `passed` exactly when no step failed, or the first to fail threw `undefined`.
  lemma PassesIff(steps: seq<Step>, n: nat, primary: Thrown, c: Cleanup, write: Attempt)
    requires BodyEnds(steps, n, primary) && |Unreleased(Worked(steps, n).minted)| <= |c.releases|
    ensures var ending := EndingOf(primary, CleanedUp(Worked(steps, n), c).failures, write);
            && (ending.Returns? <==>
                  && RunCleansUp(steps, n, c) && write != Fails(Truthy)
                  && ((n == |steps| && AllSucceed(steps, n))
                      || FirstFailure(steps, n, Falsy) || FirstFailure(steps, n, Undefined)))
            && (ending == Returns(true) <==>
                  && RunCleansUp(steps, n, c) && write != Fails(Truthy)
                  && ((n == |steps| && AllSucceed(steps, n)) || FirstFailure(steps, n, Undefined)))
            && (ending.ThrowsPrimary? <==> FirstFailure(steps, n, Truthy))
  {
    BodyEndsWithFirstFailure(steps, n, primary);
    CleanupCounts(Worked(steps, n), c);
    BodyFailuresIff(steps, n);
    FirstFailureIsOne(steps, n, primary);
    hide Worked;
    hide CleanedUp;
    hide CleanupSucceeds;
    hide FirstFailure;
    hide AllSucceed;
    hide BodyEnds;
    hide DiscardFails;
    hide Unreleased;
  }

  // A body ends in one way.
  lemma FirstFailureIsOne(steps: seq<Step>, n: nat, e: Thrown)
    requires n <= |steps|
    ensures FirstFailure(steps, n, e) ==> forall f :: FirstFailure(steps, n, f) ==> f == e
    ensures AllSucceed(steps, n) ==> forall f :: !FirstFailure(steps, n, f)
  {
    hide IsOpen;
    hide Worked;
  }
}
