// The acceptance run as it updates its own variables.
module AcceptanceRun {
  import opened Options
  import opened AcceptanceMatrix
  import opened AcceptanceOutcome

  class Acceptance {
    var minted: seq<Session>
    var daemonClient: bool
    var cleanupFailures: nat
    var primaryError: Thrown

    // Seen from the daemon, not by the run.
    ghost var confirmed: seq<string>
    ghost var held: set<string>
    ghost var reissued: set<string>

    ghost function View(): Books
      reads this
    {
      Books(minted, daemonClient, cleanupFailures, confirmed, held, reissued)
    }

    constructor ()
      ensures View() == EMPTY_BOOKS && primaryError == Undefined
    {
      minted, daemonClient, cleanupFailures, primaryError := [], false, 0, Undefined;
      confirmed, held, reissued := [], {}, {};
    }

    method FindSession(uuid: string) returns (i: nat)
      ensures i == IndexOf(minted, uuid)
    {
      i := 0;
      while i < |minted| && minted[i].uuid != uuid
        invariant i <= |minted| && forall j | 0 <= j < i :: minted[j].uuid != uuid
      {
        i := i + 1;
      }
      IndexIs(minted, uuid, i);
    }

    method MintSession(phase: string, uuid: string)
      modifies this
      ensures View() == Mint(old(View()), phase, uuid) && primaryError == old(primaryError)
    {
      var i := FindSession(uuid);
      held := held + {uuid};
      if i == |minted| {
        minted := minted + [Session(uuid, phase, false)];
      } else if minted[i].released {
        reissued := reissued + {uuid};
      }
    }

    method ReleaseSession(uuid: string, tries: Tries) returns (thrown: Option<Thrown>)
      modifies this
      ensures View() == Release(old(View()), uuid, tries) && primaryError == old(primaryError)
      ensures thrown == ReleaseThrows(old(View()), uuid, tries)
    {
      var i := FindSession(uuid);
      if i == |minted| || minted[i].released {
        return None;
      }
      if !daemonClient {
        if tries.connect.Fails? {
          return Some(tries.connect.error);
        }
        daemonClient := true;
      }
      if tries.call.Fails? {
        return Some(tries.call.error);
      }
      confirmed, held := confirmed + [uuid], held - {uuid};
      minted := minted[i := minted[i].(released := true)];
      thrown := None;
    }

    method TakeStep(step: Step) returns (thrown: Option<Thrown>)
      modifies this
      ensures View() == Do(old(View()), step) && primaryError == old(primaryError)
      ensures thrown == DoThrows(old(View()), step)
    {
      thrown := None;
      match step {
        case Acquired(phase, uuid) => MintSession(phase, uuid);
        case Releasing(uuid, tries) => thrown := ReleaseSession(uuid, tries);
        case ConnectingDaemon(connect) =>
          if !daemonClient {
            if connect.Fails? {
              return Some(connect.error);
            }
            daemonClient := true;
          }
        case DiscardingDaemon(close) =>
          if daemonClient {
            if close.Fails? {
              cleanupFailures := cleanupFailures + 1;
            }
            daemonClient := false;
          }
        case Other(attempt) =>
          if attempt.Fails? {
            return Some(attempt.error);
          }
      }
    }

    // The body of the try block, up to its end or the first throw.
    method TakeSteps(steps: seq<Step>) returns (ghost taken: nat)
      requires View() == EMPTY_BOOKS && primaryError == Undefined
      modifies this
      ensures BodyEnds(steps, taken, primaryError)
      ensures View() == Worked(steps, taken)
    {
      hide Do;
      hide DoThrows;
      var i := 0;
      while i < |steps|
        invariant i <= |steps| && View() == Worked(steps, i) && primaryError == Undefined
        invariant forall k | 0 <= k < i :: DoThrows(Worked(steps, k), steps[k]).None?
      {
        var thrown := TakeStep(steps[i]);
        i := i + 1;
        if thrown.Some? {
          primaryError := thrown.value;
          return i;
        }
      }
      return i;
    }

    method NoteFailure(attempt: Attempt)
      modifies this
      ensures View() == CountFailure(old(View()), attempt) && primaryError == old(primaryError)
    {
      if attempt.Fails? {
        cleanupFailures := cleanupFailures + 1;
      }
    }

    // The release loop of the finally block; a release that throws does not stop it.
    method ReleaseLeft(tries: seq<Tries>)
      requires |Unreleased(minted)| <= |tries|
      modifies this
      ensures var left := Unreleased(old(minted));
              View() == ReleasedLeft(old(View()), left, tries, |left|)
      ensures primaryError == old(primaryError)
    {
      hide Release;
      hide ReleaseThrows;
      var left := Unreleased(minted);
      for i := 0 to |left|
        invariant View() == ReleasedLeft(old(View()), left, tries, i) && primaryError == old(primaryError)
      {
        var thrown := ReleaseSession(left[i].uuid, tries[i]);
        if thrown.Some? {
          cleanupFailures := cleanupFailures + 1;
        }
      }
    }

    method CleanUp(c: Cleanup)
      requires |Unreleased(minted)| <= |c.releases|
      modifies this
      ensures View() == CleanedUp(old(View()), c) && primaryError == old(primaryError)
    {
      if c.kill.Some? {
        NoteFailure(c.kill.value);
      }
      ReleaseLeft(c.releases);
      if daemonClient {
        NoteFailure(c.daemonClose);
      }
      ghost var before := View();
      for i := 0 to |c.closes|
        invariant View() == CountFailures(before, c.closes, i) && primaryError == old(primaryError)
      {
        NoteFailure(c.closes[i]);
      }
    }
  }

  // The whole run: its evidence claims released sessions only when they are.
  method RunAcceptanceMatrix(steps: seq<Step>, c: Cleanup, write: Attempt) returns (ending: Ending, minted: seq<Session>)
    requires |steps| <= |c.releases|
    ensures var n := StopsAt(steps, 0);
            && |Unreleased(Worked(steps, n).minted)| <= |c.releases|
            && minted == CleanedUp(Worked(steps, n), c).minted
            && ending == EndingOf(PrimaryError(steps, n), CleanedUp(Worked(steps, n), c).failures, write)
    ensures ending.Returns? ==> forall i | 0 <= i < |minted| :: minted[i].released
    ensures var n := StopsAt(steps, 0);
            ending == Returns(true) <==>
              && RunCleansUp(steps, n, c) && write != Fails(Truthy)
              && ((n == |steps| && AllSucceed(steps, n)) || FirstFailure(steps, n, Undefined))
  {
    hide RunCleansUp;
    hide AllSucceed;
    hide FirstFailure;
    hide CleanedUp;
    hide Worked;
    hide Unreleased;
    var run := new Acceptance();
    ghost var taken := run.TakeSteps(steps);
    BodyEndsIff(steps, taken, run.primaryError);
    FewUnreleased(steps, taken);
    PassesIff(steps, taken, run.primaryError, c, write);
    run.CleanUp(c);
    if EndingOf(run.primaryError, run.cleanupFailures, write).Returns? {
      ReturnsMeansReleased(steps, taken, run.primaryError, c, write);
    }
    minted := run.minted;
    if run.primaryError.Truthy? {
      return ThrowsPrimary, minted;
    }
    if run.cleanupFailures > 0 {
      return ThrowsCleanup, minted;
    }
    if write == Fails(Truthy) {
      return ThrowsEvidence, minted;
    }
    return Returns(run.primaryError == Undefined), minted;
  }

  // A step enters one session at most.
  lemma DoMintsOne(b: Books, step: Step)
    ensures |Do(b, step).minted| <= |b.minted| + 1
  {
    hide Releases;
  }

  lemma {:induction false} WorkedMints(steps: seq<Step>, n: nat)
    requires n <= |steps|
    ensures |Worked(steps, n).minted| <= n
  {
    if n > 0 {
      WorkedMints(steps, n - 1);
      DoMintsOne(Worked(steps, n - 1), steps[n - 1]);
      hide Do;
    }
  }

  lemma FewUnreleased(steps: seq<Step>, n: nat)
    requires n <= |steps|
    ensures |Unreleased(Worked(steps, n).minted)| <= n
  {
    WorkedMints(steps, n);
    UnreleasedShorter(Worked(steps, n).minted);
    hide Worked;
    hide Unreleased;
  }

  lemma {:induction false} UnreleasedShorter(minted: seq<Session>)
    ensures |Unreleased(minted)| <= |minted|
  {
    if minted != [] {
      UnreleasedShorter(minted[1..]);
    }
  }
}
