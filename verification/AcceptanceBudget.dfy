// How the acceptance run divides its timeout: time kept back for cleanup, for the evidence
// and, in every awaited operation, for reaping one that ignores its abort signal.
module AcceptanceBudget {

  const MAX_CLEANUP_RESERVE_MS := 15000
  const MAX_EVIDENCE_RESERVE_MS := 5000
  const MAX_REAP_RESERVE_MS := 1000

  function Min(a: int, b: int): int {
    if a < b then a else b
  }

  function Max(a: int, b: int): int {
    if a < b then b else a
  }

  function EvidenceReserve(timeoutMs: int): int {
    Min(MAX_EVIDENCE_RESERVE_MS, Max(1, timeoutMs / 10))
  }

  function CleanupReserve(timeoutMs: int): int {
    Min(MAX_CLEANUP_RESERVE_MS, Max(1, (timeoutMs - EvidenceReserve(timeoutMs)) / 4))
  }

  function Deadline(startMs: int, timeoutMs: int): int {
    startMs + timeoutMs
  }

  function CleanupDeadline(startMs: int, timeoutMs: int): int {
    Deadline(startMs, timeoutMs) - EvidenceReserve(timeoutMs)
  }

  function WorkDeadline(startMs: int, timeoutMs: int): int {
    Deadline(startMs, timeoutMs) - CleanupReserve(timeoutMs) - EvidenceReserve(timeoutMs)
  }

  // The evidence keeps a tenth, rounded down, but a millisecond at least and 5 s at most; the
  // cleanup likewise a quarter of the rest, up to 15 s.
  lemma ReservesAre(timeoutMs: int)
    requires timeoutMs >= 0
    ensures var e := EvidenceReserve(timeoutMs);
            && 1 <= e <= 5000 && (e > 1 ==> 10 * e <= timeoutMs) && (e == 5000 || 10 * (e + 1) > timeoutMs)
    ensures var e, c := EvidenceReserve(timeoutMs), CleanupReserve(timeoutMs);
            && 1 <= c <= 15000 && (c > 1 ==> 4 * c <= timeoutMs - e) && (c == 15000 || 4 * (c + 1) > timeoutMs - e)
  {
    var e := EvidenceReserve(timeoutMs);
    assert 10 * (timeoutMs / 10) <= timeoutMs < 10 * (timeoutMs / 10) + 10;
    assert 4 * ((timeoutMs - e) / 4) <= timeoutMs - e < 4 * ((timeoutMs - e) / 4) + 4;
  }

  // The guard refuses exactly the timeouts below three milliseconds, and what it lets through
  // leaves time for work, then cleanup, then evidence; from four on, work gets at least half.
  lemma GuardPassesIff(startMs: int, timeoutMs: int)
    ensures WorkDeadline(startMs, timeoutMs) > startMs <==> timeoutMs >= 3
    ensures WorkDeadline(startMs, timeoutMs) < CleanupDeadline(startMs, timeoutMs) < Deadline(startMs, timeoutMs)
    ensures timeoutMs >= 4 ==> 2 * (WorkDeadline(startMs, timeoutMs) - startMs) >= timeoutMs
  {
    var e, c := EvidenceReserve(timeoutMs), CleanupReserve(timeoutMs);
    if timeoutMs >= 20 {
      assert e <= timeoutMs / 10 && c <= (timeoutMs - e) / 4;
    } else if timeoutMs >= 4 {
      assert e == 1 && c == Max(1, (timeoutMs - 1) / 4);
    } else {
      assert e == 1 && c == 1;
    }
  }

  // ----- one bounded operation -----

  function ReapReserve(remaining: int): int {
    Min(MAX_REAP_RESERVE_MS, Max(1, remaining / 4))
  }

  function OperationBudget(remaining: int): int {
    Max(1, remaining - ReapReserve(remaining))
  }

  // The two slices use up the remaining time exactly, but for a last millisecond, of which
  // each takes the whole.
  lemma SlicesFillTheRemaining(remaining: int)
    requires remaining > 0
    ensures remaining >= 2 ==> OperationBudget(remaining) + ReapReserve(remaining) == remaining
    ensures remaining >= 2 ==> 0 < ReapReserve(remaining) <= OperationBudget(remaining) < remaining
    ensures remaining == 1 ==> OperationBudget(remaining) == 1 && ReapReserve(remaining) == 1
  {
    if remaining >= 4 {
      assert 1 <= remaining / 4 && ReapReserve(remaining) <= remaining / 4;
    }
  }

  // Reaping is kept a quarter, rounded down, but a millisecond at least and a second at most.
  lemma ReapReserveIs(remaining: int)
    requires remaining > 0
    ensures var r := ReapReserve(remaining);
            && 1 <= r <= 1000 && (r > 1 ==> 4 * r <= remaining) && (r == 1000 || 4 * (r + 1) > remaining)
  {
    assert 4 * (remaining / 4) <= remaining < 4 * (remaining / 4) + 4;
  }

  datatype Operation = Settles(afterMs: nat, ok: bool) | NeverSettles

  datatype Outcome = NotStarted | Settled(ok: bool) | DeadlineElapsed

  datatype Done = Done(outcome: Outcome, atMs: int)

  // How `bounded` may end an operation begun at `now`: the endings of its race, which
  // AcceptanceBounded.EndsExactly shows these to be. An operation that settles on the very
  // tick of the timer may win or lose. Timers fire on time and code takes none.
  predicate Ends(now: int, deadline: int, op: Operation, done: Done) {
    var remaining := deadline - now;
    var budget, reap := OperationBudget(remaining), ReapReserve(remaining);
    if remaining <= 0 then done == Done(NotStarted, now)
    else
      || (op.Settles? && op.afterMs <= budget && done == Done(Settled(op.ok), now + op.afterMs))
      || (op.Settles? && op.afterMs >= budget && done == Done(DeadlineElapsed, now + Min(op.afterMs, budget + reap)))
      || (op.NeverSettles? && done == Done(DeadlineElapsed, now + budget + reap))
  }

  // However it goes, a bounded operation is over by its phase's deadline, and a millisecond
  // later at worst; a result counts only if it came before the deadline, or on it when one
  // millisecond was all that was left.
  lemma BoundedEndsInTime(now: int, deadline: int, op: Operation, done: Done)
    requires Ends(now, deadline, op, done)
    ensures done.outcome == NotStarted <==> now >= deadline
    ensures now <= done.atMs <= Max(now, deadline + 1)
    ensures deadline - now != 1 ==> done.atMs <= Max(now, deadline)
    ensures done.outcome.Settled? && deadline - now != 1 ==> done.atMs < deadline
  {
    if now < deadline {
      SlicesFillTheRemaining(deadline - now);
    }
  }

  // ----- a phase -----

  // Operations one after the other under one deadline. After a failure the body of the run
  // stops and the finally block goes on; `ops` is what was awaited.
  ghost predicate PhaseEnds(now: int, deadline: int, ops: seq<Operation>, end: int)
    decreases |ops|
  {
    if ops == [] then end == now
    else exists done :: Ends(now, deadline, ops[0], done) && PhaseEnds(done.atMs, deadline, ops[1..], end)
  }

  lemma {:induction false} PhaseEndsInTime(now: int, deadline: int, ops: seq<Operation>, end: int)
    requires PhaseEnds(now, deadline, ops, end)
    ensures now <= end <= Max(now, deadline + 1)
    decreases |ops|
  {
    if ops != [] {
      var done :| Ends(now, deadline, ops[0], done) && PhaseEnds(done.atMs, deadline, ops[1..], end);
      BoundedEndsInTime(now, deadline, ops[0], done);
      PhaseEndsInTime(done.atMs, deadline, ops[1..], end);
    }
  }

  // Work may run into the time kept for cleanup so far that no cleanup operation starts.
  ghost predicate CleanupCanBeMissed(timeoutMs: int) {
    exists ops, end :: PhaseEnds(0, WorkDeadline(0, timeoutMs), ops, end) && end >= CleanupDeadline(0, timeoutMs)
  }

  // Of the timeouts the guard lets through, exactly those below nine milliseconds can leave
  // cleanup without any.
  lemma CleanupIsMissableIff(timeoutMs: int)
    requires timeoutMs >= 3
    ensures CleanupCanBeMissed(timeoutMs) <==> timeoutMs < 9
  {
    var work, cleanup := WorkDeadline(0, timeoutMs), CleanupDeadline(0, timeoutMs);
    if timeoutMs >= 9 {
      CleanupReserveAtLeastTwo(timeoutMs);
      GuardPassesIff(0, timeoutMs);
      forall ops, end | PhaseEnds(0, work, ops, end) ensures end < cleanup {
        PhaseEndsInTime(0, work, ops, end);
      }
    } else {
      assert EvidenceReserve(timeoutMs) == 1 && CleanupReserve(timeoutMs) == 1;
      var ops := HungLastMillisecond(work);
      assert cleanup == work + 1;
    }
  }

  lemma CleanupReserveAtLeastTwo(timeoutMs: int)
    requires timeoutMs >= 9
    ensures CleanupReserve(timeoutMs) >= 2
  {
    if timeoutMs >= 20 {
      assert EvidenceReserve(timeoutMs) <= timeoutMs / 10;
    } else {
      assert EvidenceReserve(timeoutMs) == 1;
    }
  }

  // One operation takes all but the last millisecond, and the next hangs.
  lemma HungLastMillisecond(work: int) returns (ops: seq<Operation>)
    requires 1 <= work < 8
    ensures PhaseEnds(0, work, ops, work + 1)
  {
    ops := [Settles(work - 1, true), NeverSettles];
    var first, last := Done(Settled(true), work - 1), Done(DeadlineElapsed, work + 1);
    assert Ends(0, work, ops[0], first) && Ends(work - 1, work, ops[1], last);
    assert PhaseEnds(work + 1, work, ops[1..][1..], work + 1);
    assert ops[1..][0] == NeverSettles;
    assert PhaseEnds(work - 1, work, ops[1..], work + 1);
  }

  // The three phases in a row end a millisecond past the run's own deadline at worst.
  lemma RunEndsInTime(startMs: int, timeoutMs: int, work: seq<Operation>, cleanup: seq<Operation>,
                      evidence: Operation, w: int, c: int, done: Done)
    requires timeoutMs >= 3
    requires PhaseEnds(startMs, WorkDeadline(startMs, timeoutMs), work, w)
    requires PhaseEnds(w, CleanupDeadline(startMs, timeoutMs), cleanup, c)
    requires Ends(c, Deadline(startMs, timeoutMs), evidence, done)
    ensures startMs <= done.atMs <= Deadline(startMs, timeoutMs) + 1
    ensures timeoutMs >= 20 ==> done.outcome != NotStarted
  {
    GuardPassesIff(startMs, timeoutMs);
    PhaseEndsInTime(startMs, WorkDeadline(startMs, timeoutMs), work, w);
    PhaseEndsInTime(w, CleanupDeadline(startMs, timeoutMs), cleanup, c);
    BoundedEndsInTime(c, Deadline(startMs, timeoutMs), evidence, done);
    if timeoutMs >= 20 {
      assert EvidenceReserve(timeoutMs) >= 2;
    }
  }
}
