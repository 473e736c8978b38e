// `bounded` as the race it runs: the operation against its timer, and then, if the timer
// wins, against the reap timer.
module AcceptanceBounded {
  import opened Options
  import opened AcceptanceBudget

  datatype Settling = Settling(atMs: int, ok: bool)

  datatype Phase =
    | Racing(dueMs: int)     // awaiting the operation or the timer
    | Heard(ok: bool)        // the operation won
    | Reaping(reapDueMs: int) // aborted; awaiting the operation or the reap timer
    | Reaped
    | Over(done: Done)

  datatype Bounded = Bounded(nowMs: int, phase: Phase, settled: Option<Settling>)

  // The operation may settle once, at any time or never, also after it has been given up.
  datatype Event = Tick(toMs: int) | OperationSettles(ok: bool) | TimerFires | ReapTimerFires | Returns

  function Init(startMs: int, deadline: int): Bounded {
    var remaining := deadline - startMs;
    Bounded(startMs, if remaining <= 0 then Over(Done(NotStarted, startMs)) else Racing(startMs + OperationBudget(remaining)),
            None)
  }

  // Timers fire on time, and code takes none.
  predicate MayWaitUntil(b: Bounded, t: int) {
    match b.phase
    case Racing(due) => t <= due
    case Reaping(due) => t <= due
    case Over(_) => true
    case _ => t == b.nowMs
  }

  predicate Enabled(b: Bounded, e: Event) {
    match e
    case Tick(t) =>
      b.nowMs <= t && MayWaitUntil(b, t)
    case OperationSettles(_) => b.settled.None? && (b.phase.Over? ==> b.phase.done.outcome != NotStarted)
    case TimerFires => b.phase.Racing? && b.phase.dueMs <= b.nowMs
    case ReapTimerFires => b.phase.Reaping? && b.phase.reapDueMs <= b.nowMs
    case Returns => b.phase.Heard? || b.phase.Reaped?
  }

  function Settle(b: Bounded, ok: bool): Bounded {
    var b1 := b.(settled := Some(Settling(b.nowMs, ok)));
    match b.phase
    case Racing(_) => b1.(phase := Heard(ok))
    case Reaping(_) => b1.(phase := Reaped)
    case _ => b1
  }

  function Apply(startMs: int, deadline: int, b: Bounded, e: Event): Bounded
    requires Enabled(b, e)
  {
    match e
    case Tick(t) => b.(nowMs := t)
    case OperationSettles(ok) => Settle(b, ok)
    case TimerFires => b.(phase := Reaping(b.nowMs + ReapReserve(deadline - startMs)))
    case ReapTimerFires => b.(phase := Reaped)
    case Returns =>
      b.(phase := Over(Done(if b.phase.Heard? then Settled(b.phase.ok) else DeadlineElapsed, b.nowMs)))
  }

  function Then(startMs: int, deadline: int, b: Bounded, e: Event): Bounded {
    if Enabled(b, e) then Apply(startMs, deadline, b, e) else b
  }

  function After(startMs: int, deadline: int, es: seq<Event>): Bounded {
    if es == [] then Init(startMs, deadline)
    else Then(startMs, deadline, After(startMs, deadline, es[..|es| - 1]), es[|es| - 1])
  }

  // ----- what every schedule keeps -----

  function BudgetDue(startMs: int, deadline: int): int {
    startMs + OperationBudget(deadline - startMs)
  }

  function ReapDue(startMs: int, deadline: int): int {
    BudgetDue(startMs, deadline) + ReapReserve(deadline - startMs)
  }

  ghost predicate Inv(startMs: int, deadline: int, b: Bounded) {
    var due, reapDue := BudgetDue(startMs, deadline), ReapDue(startMs, deadline);
    && startMs <= b.nowMs
    && (b.settled.Some? ==> startMs <= b.settled.value.atMs <= b.nowMs)
    && (deadline <= startMs <==> b.phase == Over(Done(NotStarted, startMs)))
    && match b.phase
       case Racing(d) => d == due && b.nowMs <= due && b.settled.None?
       case Heard(ok) => b.settled == Some(Settling(b.nowMs, ok)) && b.nowMs <= due
       case Reaping(d) => d == reapDue && due <= b.nowMs <= reapDue && b.settled.None?
       case Reaped =>
         due <= b.nowMs <= reapDue && if b.settled.Some? then b.settled.value.atMs == b.nowMs else b.nowMs == reapDue
       case Over(done) => done.atMs <= b.nowMs && Ends(startMs, deadline, OperationOf(startMs, b), done)
                          && (b.settled.None? && done.outcome == DeadlineElapsed ==> done.atMs == reapDue)
                          && (done.outcome.Settled? ==> b.settled.Some?)
  }

  // The operation a schedule has seen so far.
  function OperationOf(startMs: int, b: Bounded): Operation {
    if b.settled.Some? && b.settled.value.atMs >= startMs
    then Settles(b.settled.value.atMs - startMs, b.settled.value.ok) else NeverSettles
  }

  lemma InvStep(startMs: int, deadline: int, b: Bounded, e: Event)
    requires Inv(startMs, deadline, b) && Enabled(b, e)
    ensures Inv(startMs, deadline, Apply(startMs, deadline, b, e))
  {
    if startMs < deadline {
      SlicesFillTheRemaining(deadline - startMs);
    }
  }

  lemma {:induction false} InvAlways(startMs: int, deadline: int, es: seq<Event>)
    ensures Inv(startMs, deadline, After(startMs, deadline, es))
  {
    if es == [] {
      if startMs < deadline {
        SlicesFillTheRemaining(deadline - startMs);
      }
    } else {
      InvAlways(startMs, deadline, es[..|es| - 1]);
      if Enabled(After(startMs, deadline, es[..|es| - 1]), es[|es| - 1]) {
        InvStep(startMs, deadline, After(startMs, deadline, es[..|es| - 1]), es[|es| - 1]);
      }
    }
  }

  // ----- main results -----

  lemma OneMore(startMs: int, deadline: int, es: seq<Event>, e: Event)
    ensures After(startMs, deadline, es + [e]) == Then(startMs, deadline, After(startMs, deadline, es), e)
  {
    assert (es + [e])[..|es|] == es;
  }

  // The step `bounded` takes next if the operation does nothing, and when.
  lemma NotStuck(startMs: int, deadline: int, b: Bounded) returns (t: int, e: Event)
    requires Inv(startMs, deadline, b) && !b.phase.Over?
    ensures Enabled(b, Tick(t)) && Enabled(Apply(startMs, deadline, b, Tick(t)), e) && !e.OperationSettles? && !e.Tick?
  {
    match b.phase {
      case Racing(due) => t, e := due, TimerFires;
      case Reaping(due) => t, e := due, ReapTimerFires;
      case _ => t, e := b.nowMs, Returns;
    }
  }

  function StepsLeft(b: Bounded): nat {
    match b.phase
    case Racing(_) => 3
    case Reaping(_) => 2
    case Heard(_) => 1
    case Reaped => 1
    case Over(_) => 0
  }

  lemma Progress(startMs: int, deadline: int, b: Bounded, e: Event)
    requires Enabled(b, e)
    ensures StepsLeft(Apply(startMs, deadline, b, e)) <= StepsLeft(b)
    ensures !e.Tick? && !e.OperationSettles? ==> StepsLeft(Apply(startMs, deadline, b, e)) < StepsLeft(b)
  {}

  predicate WithoutOperation(es: seq<Event>) {
    forall k | 0 <= k < |es| :: !es[k].OperationSettles?
  }

  // However far it has come, it ends without any help from the operation, in three steps and
  // as many ticks at most.
  lemma {:induction false} EndsWithoutOperation(startMs: int, deadline: int, es: seq<Event>) returns (more: seq<Event>)
    ensures After(startMs, deadline, es + more).phase.Over?
    ensures WithoutOperation(more) && |more| <= 2 * StepsLeft(After(startMs, deadline, es))
    decreases StepsLeft(After(startMs, deadline, es))
  {
    hide After;
    hide Apply;
    hide Enabled;
    hide Inv;
    hide StepsLeft;
    var b := After(startMs, deadline, es);
    if b.phase.Over? {
      more := [];
      assert es + more == es;
    } else {
      InvAlways(startMs, deadline, es);
      var t, e := NotStuck(startMs, deadline, b);
      var ticked := es + [Tick(t)];
      OneMore(startMs, deadline, es, Tick(t));
      OneMore(startMs, deadline, ticked, e);
      Progress(startMs, deadline, b, Tick(t));
      Progress(startMs, deadline, After(startMs, deadline, ticked), e);
      var rest := EndsWithoutOperation(startMs, deadline, ticked + [e]);
      more := [Tick(t), e] + rest;
      assert es + more == ticked + [e] + rest;
    }
  }

  // The endings of the race are exactly those `Ends` lists, for one operation or another.
  lemma EndsExactly(startMs: int, deadline: int, done: Done)
    ensures (exists es: seq<Event> :: After(startMs, deadline, es).phase == Over(done)) <==>
            (exists op :: Ends(startMs, deadline, op, done))
  {
    if es: seq<Event> :| After(startMs, deadline, es).phase == Over(done) {
      InvAlways(startMs, deadline, es);
      assert Ends(startMs, deadline, OperationOf(startMs, After(startMs, deadline, es)), done);
    }
    if op :| Ends(startMs, deadline, op, done) {
      var es := ScheduleFor(startMs, deadline, op, done);
    }
  }

  lemma ScheduleFor(startMs: int, deadline: int, op: Operation, done: Done) returns (es: seq<Event>)
    requires Ends(startMs, deadline, op, done)
    ensures After(startMs, deadline, es).phase == Over(done)
  {
    es := [];
    if startMs < deadline {
      SlicesFillTheRemaining(deadline - startMs);
      var due, reapDue := BudgetDue(startMs, deadline), ReapDue(startMs, deadline);
      if done.outcome.Settled? {
        es := WonSchedule(startMs, deadline, done.atMs, done.outcome.ok);
      } else {
        es := AbortedSchedule(startMs, deadline);
        if done.atMs == reapDue {
          es := ReapedSchedule(startMs, deadline, es, done.atMs, ReapTimerFires);
        } else {
          es := ReapedSchedule(startMs, deadline, es, done.atMs, OperationSettles(op.ok));
        }
      }
    }
  }

  lemma WonSchedule(startMs: int, deadline: int, atMs: int, ok: bool) returns (es: seq<Event>)
    requires startMs < deadline && startMs <= atMs <= BudgetDue(startMs, deadline)
    ensures After(startMs, deadline, es).phase == Over(Done(Settled(ok), atMs))
  {
    var due := BudgetDue(startMs, deadline);
    assert Init(startMs, deadline) == Bounded(startMs, Racing(due), None);
    hide OperationBudget;
    hide ReapReserve;
    es := Extend(startMs, deadline, [], Tick(atMs));
    es := Extend(startMs, deadline, es, OperationSettles(ok));
    es := Extend(startMs, deadline, es, Returns);
  }

  lemma AbortedSchedule(startMs: int, deadline: int) returns (es: seq<Event>)
    requires startMs < deadline && startMs <= BudgetDue(startMs, deadline)
    ensures After(startMs, deadline, es) ==
            Bounded(BudgetDue(startMs, deadline), Reaping(ReapDue(startMs, deadline)), None)
  {
    var due := BudgetDue(startMs, deadline);
    assert Init(startMs, deadline) == Bounded(startMs, Racing(due), None);
    hide OperationBudget;
    hide ReapReserve;
    es := Extend(startMs, deadline, [], Tick(due));
    es := Extend(startMs, deadline, es, TimerFires);
  }

  lemma ReapedSchedule(startMs: int, deadline: int, es: seq<Event>, atMs: int, e: Event) returns (more: seq<Event>)
    requires After(startMs, deadline, es) ==
             Bounded(BudgetDue(startMs, deadline), Reaping(ReapDue(startMs, deadline)), None)
    requires BudgetDue(startMs, deadline) <= atMs <= ReapDue(startMs, deadline)
    requires e.OperationSettles? || (e == ReapTimerFires && atMs == ReapDue(startMs, deadline))
    ensures After(startMs, deadline, more).phase == Over(Done(DeadlineElapsed, atMs))
  {
    hide BudgetDue;
    hide ReapDue;
    hide After;
    more := Extend(startMs, deadline, es, Tick(atMs));
    more := Extend(startMs, deadline, more, e);
    more := Extend(startMs, deadline, more, Returns);
  }

  lemma Extend(startMs: int, deadline: int, es: seq<Event>, e: Event) returns (more: seq<Event>)
    requires Enabled(After(startMs, deadline, es), e)
    ensures more == es + [e]
    ensures After(startMs, deadline, more) == Apply(startMs, deadline, After(startMs, deadline, es), e)
  {
    more := es + [e];
    OneMore(startMs, deadline, es, e);
  }
}
