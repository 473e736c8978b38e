// The live-device acceptance run's books: which sessions it minted, which the daemon has
// confirmed released, and when the run may say that it passed.
module AcceptanceMatrix {
  import opened Options

  // What a thrown or rejected value is to `=== undefined` and to a truth test.
  datatype Thrown = Undefined | Falsy | Truthy

  datatype Attempt = Succeeds | Fails(error: Thrown)

  // How a release fares: connecting to the daemon, when that is still to do, and the call.
  datatype Tries = Tries(connect: Attempt, call: Attempt)

  datatype Session = Session(uuid: string, phase: string, released: bool)

  // `confirmed` lists the releases the daemon confirmed; `held` are the sessions it has handed
  // out and not confirmed released since; `reissued` were handed out again after a release.
  datatype Books = Books(
    minted: seq<Session>,
    connected: bool,
    failures: nat,
    confirmed: seq<string>,
    held: set<string>,
    reissued: set<string>)

  // One thing the body of the run does; `Other` is any awaited call that leaves the books alone.
  datatype Step =
    | Acquired(phase: string, uuid: string)
    | Releasing(uuid: string, tries: Tries)
    | ConnectingDaemon(connect: Attempt)
    | DiscardingDaemon(close: Attempt)
    | Other(attempt: Attempt)

  // How the finally block fares; `kill` is there if a device was provisioned.
  datatype Cleanup = Cleanup(kill: Option<Attempt>, releases: seq<Tries>, daemonClose: Attempt, closes: seq<Attempt>)

  datatype Ending = Returns(passed: bool) | ThrowsPrimary | ThrowsCleanup | ThrowsEvidence

  const EMPTY_BOOKS := Books([], false, 0, [], {}, {})

  function IndexOf(minted: seq<Session>, uuid: string): (i: nat)
    ensures i <= |minted| && (i < |minted| ==> minted[i].uuid == uuid)
    ensures forall j | 0 <= j < i :: minted[j].uuid != uuid
  {
    if minted == [] || minted[0].uuid == uuid then 0 else 1 + IndexOf(minted[1..], uuid)
  }

  function Mint(b: Books, phase: string, uuid: string): Books {
    var i := IndexOf(b.minted, uuid);
    var b1 := b.(held := b.held + {uuid});
    if i == |b.minted| then b1.(minted := b.minted + [Session(uuid, phase, false)])
    else if b.minted[i].released then b1.(reissued := b.reissued + {uuid})
    else b1
  }

  function Connect(b: Books, connect: Attempt): Books {
    if connect.Succeeds? then b.(connected := true) else b
  }

  predicate NeedsRelease(b: Books, uuid: string) {
    var i := IndexOf(b.minted, uuid);
    i < |b.minted| && !b.minted[i].released
  }

  predicate Releases(b: Books, uuid: string, t: Tries) {
    NeedsRelease(b, uuid) && (b.connected || t.connect.Succeeds?) && t.call.Succeeds?
  }

  function Release(b: Books, uuid: string, t: Tries): Books {
    if !NeedsRelease(b, uuid) then b
    else
      var b1 := if b.connected then b else Connect(b, t.connect);
      if !Releases(b, uuid, t) then b1
      else
        var i := IndexOf(b.minted, uuid);
        b1.(minted := b.minted[i := b.minted[i].(released := true)],
            confirmed := b.confirmed + [uuid], held := b.held - {uuid})
  }

  function ErrorOf(a: Attempt): Option<Thrown> {
    if a.Succeeds? then None else Some(a.error)
  }

  function ReleaseThrows(b: Books, uuid: string, t: Tries): Option<Thrown> {
    if !NeedsRelease(b, uuid) then None
    else if !b.connected && t.connect.Fails? then Some(t.connect.error)
    else ErrorOf(t.call)
  }

  function Do(b: Books, step: Step): Books {
    match step
    case Acquired(phase, uuid) => Mint(b, phase, uuid)
    case Releasing(uuid, tries) => Release(b, uuid, tries)
    case ConnectingDaemon(connect) => if b.connected then b else Connect(b, connect)
    case DiscardingDaemon(close) =>
      if !b.connected then b
      else b.(connected := false, failures := b.failures + if close.Fails? then 1 else 0)
    case Other(_) => b
  }

  function DoThrows(b: Books, step: Step): Option<Thrown> {
    match step
    case Acquired(_, _) => None
    case Releasing(uuid, tries) => ReleaseThrows(b, uuid, tries)
    case ConnectingDaemon(connect) => if b.connected then None else ErrorOf(connect)
    case DiscardingDaemon(_) => None
    case Other(attempt) => ErrorOf(attempt)
  }

  // The books after the first n steps, of which all but the last returned.
  function Worked(steps: seq<Step>, n: nat): Books
    requires n <= |steps|
  {
    if n == 0 then EMPTY_BOOKS else Do(Worked(steps, n - 1), steps[n - 1])
  }

  // The body runs until a step throws; `primaryError` stays undefined if none does.
  ghost predicate BodyEnds(steps: seq<Step>, n: nat, primary: Thrown) {
    && n <= |steps|
    && (forall k | 0 <= k < n - 1 :: DoThrows(Worked(steps, k), steps[k]).None?)
    && if n > 0 && DoThrows(Worked(steps, n - 1), steps[n - 1]).Some?
       then primary == DoThrows(Worked(steps, n - 1), steps[n - 1]).value
       else n == |steps| && primary == Undefined
  }

  function Unreleased(minted: seq<Session>): seq<Session> {
    if minted == [] then []
    else (if minted[0].released then [] else [minted[0]]) + Unreleased(minted[1..])
  }

  function CountFailure(b: Books, a: Attempt): Books {
    if a.Fails? then b.(failures := b.failures + 1) else b
  }

  function TryRelease(b: Books, uuid: string, t: Tries): Books {
    var b1 := Release(b, uuid, t);
    if ReleaseThrows(b, uuid, t).Some? then b1.(failures := b1.failures + 1) else b1
  }

  // The first n rounds of the release loop of the finally block.
  function ReleasedLeft(b: Books, left: seq<Session>, tries: seq<Tries>, n: nat): Books
    requires n <= |left| <= |tries|
  {
    if n == 0 then b else TryRelease(ReleasedLeft(b, left, tries, n - 1), left[n - 1].uuid, tries[n - 1])
  }

  function CountFailures(b: Books, closes: seq<Attempt>, n: nat): Books
    requires n <= |closes|
  {
    if n == 0 then b else CountFailure(CountFailures(b, closes, n - 1), closes[n - 1])
  }

  function AfterKill(b: Books, c: Cleanup): Books {
    if c.kill.Some? then CountFailure(b, c.kill.value) else b
  }

  // The whole finally block.
  function CleanedUp(b: Books, c: Cleanup): Books
    requires |Unreleased(b.minted)| <= |c.releases|
  {
    var left := Unreleased(b.minted);
    var b1 := ReleasedLeft(AfterKill(b, c), left, c.releases, |left|);
    var b2 := if b1.connected then CountFailure(b1, c.daemonClose) else b1;
    CountFailures(b2, c.closes, |c.closes|)
  }

  function EndingOf(primary: Thrown, failures: nat, write: Attempt): Ending {
    if primary.Truthy? then ThrowsPrimary
    else if failures > 0 then ThrowsCleanup
    else if write == Fails(Truthy) then ThrowsEvidence
    else Returns(primary == Undefined)
  }

  // ----- what the books always say -----

  ghost predicate UuidsDiffer(minted: seq<Session>) {
    forall i, j | 0 <= i < j < |minted| :: minted[i].uuid != minted[j].uuid
  }

  ghost predicate NoRepeats(uuids: seq<string>) {
    forall i, j | 0 <= i < j < |uuids| :: uuids[i] != uuids[j]
  }

  lemma PushUuid(uuids: seq<string>, u: string)
    requires NoRepeats(uuids) && u !in uuids
    ensures NoRepeats(uuids + [u])
    ensures forall v :: v in uuids + [u] <==> v in uuids || v == u
  {}

  ghost predicate Balanced(b: Books) {
    && UuidsDiffer(b.minted)
    && NoRepeats(b.confirmed)
    && (forall u :: u in b.confirmed <==> IsReleased(b.minted, u))
    && (forall u :: u in b.held <==> IsOpen(b.minted, u) || u in b.reissued)
    && (forall u | u in b.reissued :: IsReleased(b.minted, u))
  }

  predicate IsReleased(minted: seq<Session>, uuid: string) {
    var i := IndexOf(minted, uuid);
    i < |minted| && minted[i].released
  }

  predicate IsOpen(minted: seq<Session>, uuid: string) {
    var i := IndexOf(minted, uuid);
    i < |minted| && !minted[i].released
  }

  lemma IndexIs(minted: seq<Session>, uuid: string, i: nat)
    requires i <= |minted| && (i < |minted| ==> minted[i].uuid == uuid)
    requires forall j | 0 <= j < i :: minted[j].uuid != uuid
    ensures IndexOf(minted, uuid) == i
  {}

  lemma IndexPush(minted: seq<Session>, s: Session, u: string)
    requires IndexOf(minted, s.uuid) == |minted|
    ensures IndexOf(minted + [s], u) ==
            if IndexOf(minted, u) < |minted| then IndexOf(minted, u)
            else if s.uuid == u then |minted| else |minted| + 1
  {
    var i := IndexOf(minted, u);
    IndexIs(minted + [s], u, if i < |minted| || s.uuid == u then i else |minted| + 1);
  }

  lemma IndexUpdate(minted: seq<Session>, i: nat, s: Session, u: string)
    requires i < |minted| && s.uuid == minted[i].uuid
    ensures IndexOf(minted[i := s], u) == IndexOf(minted, u)
  {
    IndexIs(minted[i := s], u, IndexOf(minted, u));
  }

  lemma MintBalanced(b: Books, phase: string, uuid: string)
    requires Balanced(b)
    ensures Balanced(Mint(b, phase, uuid))
  {
    var b' := Mint(b, phase, uuid);
    if IndexOf(b.minted, uuid) == |b.minted| {
      forall u
        ensures IsReleased(b'.minted, u) == IsReleased(b.minted, u)
        ensures IsOpen(b'.minted, u) == (IsOpen(b.minted, u) || u == uuid)
      {
        IndexPush(b.minted, Session(uuid, phase, false), u);
      }
    }
  }

  lemma ReleaseBalanced(b: Books, uuid: string, t: Tries)
    requires Balanced(b)
    ensures Balanced(Release(b, uuid, t))
    ensures forall u :: IsOpen(Release(b, uuid, t).minted, u) <==>
              IsOpen(b.minted, u) && !(u == uuid && Releases(b, uuid, t))
  {
    if Releases(b, uuid, t) {
      var b', i := Release(b, uuid, t), IndexOf(b.minted, uuid);
      forall u
        ensures IsReleased(b'.minted, u) == (IsReleased(b.minted, u) || u == uuid)
        ensures IsOpen(b'.minted, u) == (IsOpen(b.minted, u) && u != uuid)
      {
        IndexUpdate(b.minted, i, b.minted[i].(released := true), u);
      }
      assert uuid !in b.confirmed && !IsReleased(b.minted, uuid);
      PushUuid(b.confirmed, uuid);
      hide IsReleased;
      hide IsOpen;
      hide NoRepeats;
    }
  }

  // Neither a connection nor a count is part of the balance.
  lemma CountsBalanced(b: Books, b': Books)
    requires Balanced(b) && b'.minted == b.minted && b'.confirmed == b.confirmed
    requires b'.held == b.held && b'.reissued == b.reissued
    ensures Balanced(b')
  {}

  lemma DoBalanced(b: Books, step: Step)
    requires Balanced(b)
    ensures Balanced(Do(b, step))
  {
    match step {
      case Acquired(phase, uuid) => MintBalanced(b, phase, uuid);
      case Releasing(uuid, tries) => ReleaseBalanced(b, uuid, tries);
      case _ => CountsBalanced(b, Do(b, step));
    }
  }

  lemma {:induction false} WorkedBalanced(steps: seq<Step>, n: nat)
    requires n <= |steps|
    ensures Balanced(Worked(steps, n))
  {
    if n == 0 {
      assert Balanced(EMPTY_BOOKS);
    }
    hide Balanced;
    if n > 0 {
      WorkedBalanced(steps, n - 1);
      DoBalanced(Worked(steps, n - 1), steps[n - 1]);
    }
  }

  // A session was handed out again after its release when some step acquired a session whose
  // release the daemon had confirmed.
  lemma {:induction false} ReissuedIff(steps: seq<Step>, n: nat, u: string)
    requires n <= |steps|
    ensures u in Worked(steps, n).reissued <==>
            exists m :: 0 <= m < n && steps[m].Acquired? && steps[m].uuid == u && u in Worked(steps, m).confirmed
  {
    hide Balanced;
    hide Do;
    if n > 0 {
      ReissuedIff(steps, n - 1, u);
      WorkedBalanced(steps, n - 1);
      ReissueStep(Worked(steps, n - 1), steps[n - 1], u);
    }
  }

  lemma ReissueStep(b: Books, step: Step, u: string)
    requires Balanced(b)
    ensures u in Do(b, step).reissued <==>
            u in b.reissued || (step.Acquired? && step.uuid == u && u in b.confirmed)
  {
    assert u in b.confirmed <==> IsReleased(b.minted, u);
  }

  // ----- the finally block -----

  predicate Listed(left: seq<Session>, from: nat, u: string) {
    exists m :: from <= m < |left| && left[m].uuid == u
  }

  lemma {:induction false} UnreleasedHas(minted: seq<Session>, u: string)
    requires IsOpen(minted, u)
    ensures Listed(Unreleased(minted), 0, u)
  {
    if minted[0].uuid == u {
      assert Unreleased(minted)[0].uuid == u;
    } else {
      UnreleasedHas(minted[1..], u);
      var rest, left := Unreleased(minted[1..]), Unreleased(minted);
      var m :| 0 <= m < |rest| && rest[m].uuid == u;
      assert left[m + |left| - |rest|].uuid == u;
    }
  }

  ghost predicate OnlyLeft(b: Books, left: seq<Session>, from: nat) {
    forall u | IsOpen(b.minted, u) :: Listed(left, from, u)
  }

  // A session the loop has passed is released, unless a failure was recorded.
  lemma {:induction false} LoopReleases(b: Books, left: seq<Session>, tries: seq<Tries>, n: nat)
    requires n <= |left| <= |tries| && Balanced(b) && OnlyLeft(b, left, 0)
    ensures var b' := ReleasedLeft(b, left, tries, n);
            && Balanced(b') && b'.failures >= b.failures
            && (b'.failures == b.failures ==> OnlyLeft(b', left, n))
            && b'.reissued == b.reissued
  {
    hide Balanced;
    hide OnlyLeft;
    hide TryRelease;
    if n > 0 {
      LoopReleases(b, left, tries, n - 1);
      RoundReleases(ReleasedLeft(b, left, tries, n - 1), left, n - 1, tries[n - 1]);
    }
  }

  lemma RoundReleases(b: Books, left: seq<Session>, m: nat, t: Tries)
    requires Balanced(b) && m < |left|
    ensures var b' := TryRelease(b, left[m].uuid, t);
            && Balanced(b') && b'.failures >= b.failures
            && (b'.failures == b.failures && OnlyLeft(b, left, m) ==> OnlyLeft(b', left, m + 1))
            && b'.reissued == b.reissued
  {
    OneRelease(b, left[m].uuid, t);
    forall u | Listed(left, m, u) && u != left[m].uuid ensures Listed(left, m + 1, u) {}
    hide TryRelease;
    hide IsOpen;
    hide Listed;
    hide Balanced;
  }

  lemma OneRelease(b: Books, uuid: string, t: Tries)
    requires Balanced(b)
    ensures var b' := TryRelease(b, uuid, t);
            && Balanced(b') && b'.failures >= b.failures
            && (b'.failures == b.failures ==>
                  forall u | IsOpen(b'.minted, u) :: IsOpen(b.minted, u) && u != uuid)
            && b'.reissued == b.reissued
  {
    ReleaseBalanced(b, uuid, t);
    ReleasedOrThrows(b, uuid, t);
    assert Release(b, uuid, t).failures == b.failures && Release(b, uuid, t).reissued == b.reissued;
    assert TryRelease(b, uuid, t) ==
      Release(b, uuid, t).(failures := TryRelease(b, uuid, t).failures);
    hide Release;
    hide IsOpen;
  }

  lemma ReleasedOrThrows(b: Books, uuid: string, t: Tries)
    ensures ReleaseThrows(b, uuid, t).None? ==> Releases(b, uuid, t) || !IsOpen(b.minted, uuid)
  {}

  lemma {:induction false} ClosesOnlyCount(b: Books, closes: seq<Attempt>, n: nat)
    requires n <= |closes|
    ensures CountFailures(b, closes, n) == b.(failures := CountFailures(b, closes, n).failures)
    ensures CountFailures(b, closes, n).failures >= b.failures
  {
    if n > 0 {
      ClosesOnlyCount(b, closes, n - 1);
    }
  }

  // Whatever step failed, and wherever: a run that records no cleanup failure has had the
  // release of every session it minted confirmed, each exactly once.
  lemma NoFailureReleasesAll(steps: seq<Step>, n: nat, c: Cleanup)
    requires n <= |steps| && |Unreleased(Worked(steps, n).minted)| <= |c.releases|
    requires CleanedUp(Worked(steps, n), c).failures == 0
    ensures var b := CleanedUp(Worked(steps, n), c);
            && (forall i | 0 <= i < |b.minted| :: b.minted[i].released)
            && (forall u :: u in b.confirmed <==> exists i :: 0 <= i < |b.minted| && b.minted[i].uuid == u)
            && NoRepeats(b.confirmed)
            && b.held == b.reissued == Worked(steps, n).reissued
  {
    var b0 := AfterKill(Worked(steps, n), c);
    var left := Unreleased(Worked(steps, n).minted);
    WorkedBalanced(steps, n);
    assert Balanced(b0);
    forall u | IsOpen(b0.minted, u) ensures Listed(left, 0, u) {
      UnreleasedHas(b0.minted, u);
    }
    LoopReleases(b0, left, c.releases, |left|);
    var b1 := ReleasedLeft(b0, left, c.releases, |left|);
    var b2 := if b1.connected then CountFailure(b1, c.daemonClose) else b1;
    ClosesOnlyCount(b2, c.closes, |c.closes|);
    AllReleased(CleanedUp(Worked(steps, n), c));
  }

  lemma AllReleased(b: Books)
    requires Balanced(b) && forall u :: !IsOpen(b.minted, u)
    ensures forall i | 0 <= i < |b.minted| :: b.minted[i].released
    ensures forall u :: u in b.confirmed <==> exists i :: 0 <= i < |b.minted| && b.minted[i].uuid == u
    ensures b.held == b.reissued
  {
    forall i: nat | i < |b.minted| ensures b.minted[i].released {
      IndexIs(b.minted, b.minted[i].uuid, i);
      assert !IsOpen(b.minted, b.minted[i].uuid);
    }
  }

  // The run's promise, wherever its body ended and whatever it threw there: if it returns its
  // evidence, every session it minted is released, and the daemon holds none exactly when
  // none was handed out again after its release.
  lemma ReturnsMeansReleased(steps: seq<Step>, n: nat, primary: Thrown, c: Cleanup, write: Attempt)
    requires n <= |steps| && |Unreleased(Worked(steps, n).minted)| <= |c.releases|
    requires EndingOf(primary, CleanedUp(Worked(steps, n), c).failures, write).Returns?
    ensures var b := CleanedUp(Worked(steps, n), c);
            && (forall i | 0 <= i < |b.minted| :: b.minted[i].released)
            && (b.held == {} <==> Worked(steps, n).reissued == {})
  {
    NoFailureReleasesAll(steps, n, c);
  }

  // What the body threw, if it did: by its last step.
  function Threw(steps: seq<Step>, n: nat): Option<Thrown>
    requires n <= |steps|
  {
    if n == 0 then None else DoThrows(Worked(steps, n - 1), steps[n - 1])
  }

  // Every step was taken, and none threw.
  ghost predicate Completed(steps: seq<Step>, n: nat) {
    n == |steps| && forall k | 0 <= k < n :: DoThrows(Worked(steps, k), steps[k]).None?
  }

  // Where the body ends: after the first step from the k-th on that throws, or after the last.
  function StopsAt(steps: seq<Step>, k: nat): (n: nat)
    requires k <= |steps|
    ensures k <= n <= |steps|
    decreases |steps| - k
  {
    if k == |steps| then k
    else if DoThrows(Worked(steps, k), steps[k]).Some? then k + 1
    else StopsAt(steps, k + 1)
  }

  // `primaryError` after the first n steps.
  function PrimaryError(steps: seq<Step>, n: nat): Thrown
    requires n <= |steps|
  {
    if Threw(steps, n).Some? then Threw(steps, n).value else Undefined
  }

  lemma {:induction false} StopsAtEnds(steps: seq<Step>, k: nat)
    requires k <= |steps| && forall j | 0 <= j < k :: DoThrows(Worked(steps, j), steps[j]).None?
    ensures BodyEnds(steps, StopsAt(steps, k), PrimaryError(steps, StopsAt(steps, k)))
    decreases |steps| - k
  {
    hide Worked;
    hide DoThrows;
    if k < |steps| && DoThrows(Worked(steps, k), steps[k]).None? {
      StopsAtEnds(steps, k + 1);
    }
  }

  lemma NoLongerBody(steps: seq<Step>, n: nat, primary: Thrown, m: nat, other: Thrown)
    ensures BodyEnds(steps, n, primary) && BodyEnds(steps, m, other) ==> n >= m
  {
    hide Worked;
    hide DoThrows;
  }

  // The body ends there and nowhere else.
  lemma BodyEndsIff(steps: seq<Step>, n: nat, primary: Thrown)
    ensures BodyEnds(steps, n, primary) <==>
              n == StopsAt(steps, 0) && primary == PrimaryError(steps, StopsAt(steps, 0))
  {
    var m := StopsAt(steps, 0);
    StopsAtEnds(steps, 0);
    NoLongerBody(steps, n, primary, m, PrimaryError(steps, m));
    NoLongerBody(steps, m, PrimaryError(steps, m), n, primary);
    hide Worked;
    hide DoThrows;
  }

  lemma CompletedUnlessThrew(steps: seq<Step>, n: nat, primary: Thrown)
    ensures BodyEnds(steps, n, primary) ==> (Completed(steps, n) <==> Threw(steps, n).None?)
  {
    hide Worked;
    hide DoThrows;
  }

  lemma CompletedIff(steps: seq<Step>)
    ensures Completed(steps, StopsAt(steps, 0)) <==> Threw(steps, StopsAt(steps, 0)).None?
  {
    hide Worked;
    hide DoThrows;
    hide BodyEnds;
    hide StopsAt;
    hide Completed;
    hide Threw;
    StopsAtEnds(steps, 0);
    CompletedUnlessThrew(steps, StopsAt(steps, 0), PrimaryError(steps, StopsAt(steps, 0)));
  }

  // Cleanup recorded no failure, and the evidence could be written.
  predicate EndsClean(b: Books, write: Attempt) {
    b.failures == 0 && write != Fails(Truthy)
  }

  // Returned evidence means that every step was taken and none threw, except when the step
  // that threw did not throw anything truthy and the rest went well; and so does evidence
  // that says `passed`, except when that step threw `undefined`.
  lemma PassedMeansCompletedIff(steps: seq<Step>, c: Cleanup, write: Attempt)
    requires |Unreleased(Worked(steps, StopsAt(steps, 0)).minted)| <= |c.releases|
    ensures var n := StopsAt(steps, 0);
            var b, threw := CleanedUp(Worked(steps, n), c), Threw(steps, n);
            var ending := EndingOf(PrimaryError(steps, n), b.failures, write);
            && ((ending.Returns? ==> Completed(steps, n)) <==>
                !(EndsClean(b, write) && (threw == Some(Falsy) || threw == Some(Undefined))))
            && ((ending == Returns(true) ==> Completed(steps, n)) <==>
                !(EndsClean(b, write) && threw == Some(Undefined)))
            && (ending == Returns(false) <==> EndsClean(b, write) && threw == Some(Falsy))
            && (Completed(steps, n) && EndsClean(b, write) ==> ending == Returns(true))
  {
    hide Completed;
    hide CleanedUp;
    hide Worked;
    hide Unreleased;
    hide Threw;
    hide StopsAt;
    CompletedIff(steps);
  }

  // A step throws something falsy: the run stops there, and its evidence, which says that it
  // did not pass, is returned and reported as passed.
  lemma FalsyThrowIsReturned()
    ensures var steps := [Other(Fails(Falsy)), Other(Succeeds)];
            && BodyEnds(steps, 1, Falsy) && Unreleased(Worked(steps, 1).minted) == []
            && EndingOf(Falsy, CleanedUp(Worked(steps, 1), Cleanup(None, [], Succeeds, [])).failures, Succeeds)
               == Returns(false)
  {
    var steps := [Other(Fails(Falsy)), Other(Succeeds)];
    assert Worked(steps, 0) == Worked(steps, 1) == EMPTY_BOOKS;
    assert DoThrows(EMPTY_BOOKS, steps[0]) == Some(Falsy);
    assert CleanedUp(EMPTY_BOOKS, Cleanup(None, [], Succeeds, [])) == EMPTY_BOOKS;
  }

  // A step throws `undefined`: the run stops there, and its evidence says that it passed.
  lemma UndefinedThrowPasses()
    ensures var steps := [Other(Fails(Undefined)), Other(Succeeds)];
            && BodyEnds(steps, 1, Undefined) && Unreleased(Worked(steps, 1).minted) == []
            && EndingOf(Undefined, CleanedUp(Worked(steps, 1), Cleanup(None, [], Succeeds, [])).failures, Succeeds)
               == Returns(true)
  {
    var steps := [Other(Fails(Undefined)), Other(Succeeds)];
    assert Worked(steps, 0) == Worked(steps, 1) == EMPTY_BOOKS;
    assert DoThrows(EMPTY_BOOKS, steps[0]) == Some(Undefined);
    assert CleanedUp(EMPTY_BOOKS, Cleanup(None, [], Succeeds, [])) == EMPTY_BOOKS;
  }

  // A session handed out again after its release is lost to the books: the run passes and
  // leaves it with the daemon.
  lemma ReissuedSessionIsLeft()
    ensures exists steps: seq<Step>, c: Cleanup ::
              && BodyEnds(steps, |steps|, Undefined) && |Unreleased(Worked(steps, |steps|).minted)| <= |c.releases|
              && EndingOf(Undefined, CleanedUp(Worked(steps, |steps|), c).failures, Succeeds) == Returns(true)
              && CleanedUp(Worked(steps, |steps|), c).held == {"s"}
  {
    var fine := Tries(Succeeds, Succeeds);
    var steps := [Acquired("a", "s"), Releasing("s", fine), Acquired("b", "s")];
    var c := Cleanup(None, [], Succeeds, []);
    var first, last := Session("s", "a", false), Session("s", "a", true);
    IndexIs([first], "s", 0);
    IndexIs([last], "s", 0);
    var b1, b2 := Books([first], false, 0, [], {"s"}, {}), Books([last], true, 0, ["s"], {}, {});
    var b3 := b2.(held := {"s"}, reissued := {"s"});
    assert Mint(EMPTY_BOOKS, "a", "s") == b1;
    assert Release(b1, "s", fine) == b2;
    assert Mint(b2, "b", "s") == b3;
    hide IndexOf;
    ThreeSteps(steps, b1, b2, b3);
    assert Unreleased(b3.minted) == [];
    assert CleanedUp(b3, c) == b3;
  }

  lemma ThreeSteps(steps: seq<Step>, b1: Books, b2: Books, b3: Books)
    requires |steps| == 3
    requires Do(EMPTY_BOOKS, steps[0]) == b1 && Do(b1, steps[1]) == b2 && Do(b2, steps[2]) == b3
    requires DoThrows(EMPTY_BOOKS, steps[0]).None? && DoThrows(b1, steps[1]).None? && DoThrows(b2, steps[2]).None?
    ensures Worked(steps, 3) == b3 && BodyEnds(steps, 3, Undefined)
  {
    hide Do;
    hide DoThrows;
    assert Worked(steps, 0) == EMPTY_BOOKS && Worked(steps, 1) == b1 && Worked(steps, 2) == b2;
  }
}
