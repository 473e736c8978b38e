// The shutdown run as a step system: `runShutdownCleanupStages`, the abandoned work it
// leaves behind and the database tail its last stages share. One event is what happens
// between two awaits; the scheduler may interleave events in any order `Enabled` allows.
module ShutdownProtocol {
  import opened Options
  import opened StageTables

  const SHUTDOWN_STAGE_INNER_MARGIN_MS := 50
  const DEFERRED_DATABASE_CLOSE_ALLOWANCE_MS := 100

  // The promise a stage body returned.
  datatype Work = Unstarted | Busy | Fulfilled | Rejected

  // The race between the current stage and its deadline timer.
  datatype Race = Undecided | WorkWon | TimerWon

  datatype Failure =
    | StageFailed(stage: nat, late: bool)
    | StillRunning(stages: set<nat>)

  datatype Outcome = Resolved | RejectedWith(errors: seq<Failure>)

  datatype Phase =
    | Between                 // the loop is about to start the next stage or to end
    | Awaiting(race: Race)    // awaiting the race of stage `started - 1`
    | Ended(outcome: Outcome)

  // What one look of `closeUnlessStillWriting` decided.
  datatype Verdict = KeptOpen | Deferred | Closed

  datatype Check = Check(stage: nat, verdict: Verdict)

  datatype GaveUp = NothingOwed | WritersRemain | DrainFailed | Rechecked

  // Where the body of the late settle stage is.
  datatype Tail =
    | TailIdle
    | TailWaiting(waitedOn: set<nat>, wakeMs: nat)
    | TailDraining
    | TailDone(how: GaveUp)

  // What a late failure or an immediate one is reported as.
  datatype Report =
    | FailureReport(stage: nat)
    | TimeoutReport(stage: nat)
    | LateReport(stage: nat, afterEnd: bool)

  // What stays fixed over a run. `timed` is whether the runner was given a timer, `direct`
  // whether this process owns the database, `slopMs` how late a due timer may be served.
  datatype Plan = Plan(stages: seq<Stage>, timed: bool, direct: bool, startedAtMs: nat, slopMs: nat)

  datatype Run = Run(
    nowMs: nat,
    phase: Phase,
    started: nat,
    work: seq<Work>,
    budgetedMs: nat,
    wakeMs: Option<nat>,
    failures: seq<Failure>,
    unsettled: set<nat>,
    reports: seq<Report>,
    closeDeferred: bool,
    checks: seq<Check>,
    tail: Tail)

  datatype Event =
    | Tick(toMs: nat)
    | StageStarts(keepOpen: bool)
    | WorkSettles(stage: nat, ok: bool)
    | TimerFires
    | RunnerResumes
    | LateOutcome(stage: nat)
    | SequenceEnds
    | LateWaitEnds(stage: nat)
    | DrainEnds(stage: nat, ok: bool, keepOpen: bool)

  // At most one stage of each tail role, the close before the late settle, as both callers
  // build them. Stages are told apart by their index, the way the runner keys its map by
  // the stage object.
  ghost predicate OneTail(p: Plan) {
    && (forall i, j | 0 <= i < |p.stages| && 0 <= j < |p.stages| ::
          p.stages[i].role == p.stages[j].role != Cleanup ==> i == j)
    && (forall i, j | 0 <= i < |p.stages| && 0 <= j < |p.stages| ::
          p.stages[i].role == CloseDatabase && p.stages[j].role == LateSettle ==> i < j)
  }

  predicate Budgeted(p: Plan, i: nat)
    requires i < |p.stages|
  {
    p.timed && p.stages[i].budgetMs.Some?
  }

  predicate IsSettled(w: Work) {
    w == Fulfilled || w == Rejected
  }

  function Max(a: int, b: int): int {
    if a < b then b else a
  }

  // `boundWithinStage` with no usual bound: what a stage may wait and still leave its margin.
  function InnerBound(remainingMs: nat): nat {
    Max(0, remainingMs - SHUTDOWN_STAGE_INNER_MARGIN_MS)
  }

  function Init(p: Plan): Run {
    Run(p.startedAtMs, Between, 0, seq(|p.stages|, _ => Unstarted), 0, Some(p.startedAtMs),
        [], {}, [], false, [], TailIdle)
  }

  // Stages the loop is past: settled in time, failed, or abandoned.
  function Passed(s: Run): nat {
    if s.phase.Awaiting? && s.started > 0 then s.started - 1 else s.started
  }

  // What the context of stage i shows: a stage without a deadline gets the constant context,
  // which never shows any abandoned stage.
  function SeenUnsettled(p: Plan, s: Run, i: nat): set<nat>
    requires i < |p.stages|
  {
    if Budgeted(p, i) then s.unsettled else {}
  }

  function SeenWriters(p: Plan, s: Run, i: nat): set<nat>
    requires i < |p.stages|
  {
    set j | j in SeenUnsettled(p, s, i) && j < |p.stages| && p.stages[j].mayWriteDatabase
  }

  function DeadlineMs(p: Plan, s: Run): nat {
    p.startedAtMs + s.budgetedMs
  }

  // ----- the database tail -----

  // `closeUnlessStillWriting`, one atomic step: the writers are read and `closeDatabase` is
  // called with nothing in between.
  function CloseUnlessStillWriting(p: Plan, s: Run, i: nat, keepOpen: bool): Run
    requires i < |p.stages|
  {
    if keepOpen then
      s.(closeDeferred := false, checks := s.checks + [Check(i, KeptOpen)])
    else if SeenWriters(p, s, i) != {} then
      s.(closeDeferred := true, checks := s.checks + [Check(i, Deferred)])
    else
      s.(closeDeferred := false, checks := s.checks + [Check(i, Closed)])
  }

  // The first part of `lateSettle`, up to its bounded wait.
  function BeginLateSettle(p: Plan, s: Run, i: nat): Run
    requires i < |p.stages|
  {
    if SeenUnsettled(p, s, i) == {} && !s.closeDeferred then
      s.(tail := TailDone(NothingOwed))
    else
      var allowance := if s.closeDeferred then DEFERRED_DATABASE_CLOSE_ALLOWANCE_MS else 0;
      var remaining := Max(0, DeadlineMs(p, s) - s.nowMs);
      s.(tail := TailWaiting(SeenUnsettled(p, s, i), s.nowMs + Max(0, InnerBound(remaining) - allowance)))
  }

  function AfterLateWait(p: Plan, s: Run, i: nat): Run
    requires i < |p.stages|
  {
    if !s.closeDeferred then s.(tail := TailDone(NothingOwed))
    else if SeenWriters(p, s, i) != {} then s.(tail := TailDone(WritersRemain))
    else s.(tail := TailDraining)
  }

  // ----- the loop -----

  // The deadline rolls forward, the race is set up and the body is called.
  function Launch(p: Plan, s: Run): Run
    requires s.started < |p.stages| == |s.work|
  {
    var i := s.started;
    var budgeted := if Budgeted(p, i) then s.budgetedMs + p.stages[i].budgetMs.value else s.budgetedMs;
    var wake := if Budgeted(p, i)
                then Some(s.nowMs + Max(0, p.startedAtMs + budgeted - s.nowMs)) else None;
    s.(phase := Awaiting(Undecided), started := i + 1, work := s.work[i := Busy],
       budgetedMs := budgeted, wakeMs := wake)
  }

  function StartStage(p: Plan, s: Run, keepOpen: bool): Run
    requires s.started < |p.stages| == |s.work|
  {
    var i, s1 := s.started, Launch(p, s);
    match p.stages[i].role
    case Cleanup => s1
    case CloseDatabase => if p.direct then CloseUnlessStillWriting(p, s1, i, keepOpen) else s1
    case LateSettle => BeginLateSettle(p, s1, i)
  }

  function SettleWork(s: Run, i: nat, ok: bool): Run
    requires i < |s.work|
  {
    var s1 := s.(work := s.work[i := if ok then Fulfilled else Rejected]);
    if s.phase == Awaiting(Undecided) && i + 1 == s.started then s1.(phase := Awaiting(WorkWon)) else s1
  }

  function Resume(p: Plan, s: Run): Run
    requires s.phase.Awaiting? && 0 < s.started <= |s.work|
  {
    var i := s.started - 1;
    var wake := if s.wakeMs.Some? then s.wakeMs else Some(s.nowMs);
    if s.phase.race == TimerWon then
      s.(phase := Between, wakeMs := wake, unsettled := s.unsettled + {i},
         reports := s.reports + [TimeoutReport(i)])
    else if s.work[i] == Rejected then
      s.(phase := Between, wakeMs := wake, failures := s.failures + [StageFailed(i, false)],
         reports := s.reports + [FailureReport(i)])
    else
      s.(phase := Between, wakeMs := wake)
  }

  function ObserveLate(s: Run, i: nat): Run
    requires i < |s.work|
  {
    var s1 := s.(unsettled := s.unsettled - {i});
    if s.work[i] == Rejected then
      s1.(failures := if s.phase.Ended? then s.failures else s.failures + [StageFailed(i, true)],
          reports := s.reports + [LateReport(i, s.phase.Ended?)])
    else s1
  }

  function End(s: Run): Run {
    var errors := if s.unsettled == {} then s.failures else s.failures + [StillRunning(s.unsettled)];
    s.(phase := Ended(if errors == [] then Resolved else RejectedWith(errors)), failures := errors)
  }

  // The index of the late settle stage while its body is under way.
  predicate LateSettleAt(p: Plan, s: Run, i: nat) {
    i < s.started <= |p.stages| && p.stages[i].role == LateSettle
  }

  predicate Enabled(p: Plan, s: Run, e: Event) {
    match e
    case Tick(t) =>
      // Time may pass unless a due wake-up of the loop would be served later than the slop.
      && s.nowMs <= t
      && (!s.phase.Ended? && s.wakeMs.Some? ==> t <= s.wakeMs.value + p.slopMs)
    case StageStarts(_) => s.phase.Between? && s.started < |p.stages| == |s.work|
    case WorkSettles(i, ok) =>
      // The late settle's body is over once its tail is, and fails if the drain did.
      && i < |s.work| == |p.stages| && s.work[i] == Busy
      && (p.stages[i].role == LateSettle ==> s.tail.TailDone? && (s.tail.how == DrainFailed ==> !ok))
    case TimerFires =>
      s.phase == Awaiting(Undecided) && s.wakeMs.Some? && s.wakeMs.value <= s.nowMs
    case RunnerResumes =>
      s.phase.Awaiting? && s.phase.race != Undecided && 0 < s.started <= |s.work|
    case LateOutcome(i) => i in s.unsettled && i < |s.work| && IsSettled(s.work[i])
    case SequenceEnds => s.phase.Between? && s.started == |p.stages|
    case LateWaitEnds(l) =>
      && s.tail.TailWaiting? && LateSettleAt(p, s, l)
      && (s.tail.waitedOn * s.unsettled == {} || s.tail.wakeMs <= s.nowMs)
    case DrainEnds(l, _, _) => s.tail.TailDraining? && LateSettleAt(p, s, l)
  }

  function Apply(p: Plan, s: Run, e: Event): Run
    requires Enabled(p, s, e)
  {
    match e
    case Tick(t) => s.(nowMs := t)
    case StageStarts(keepOpen) => StartStage(p, s, keepOpen)
    case WorkSettles(i, ok) => SettleWork(s, i, ok)
    case TimerFires => s.(phase := Awaiting(TimerWon))
    case RunnerResumes => Resume(p, s)
    case LateOutcome(i) => ObserveLate(s, i)
    case SequenceEnds => End(s)
    case LateWaitEnds(l) => AfterLateWait(p, s, l)
    case DrainEnds(l, ok, keepOpen) =>
      if !ok then s.(tail := TailDone(DrainFailed))
      else CloseUnlessStillWriting(p, s, l, keepOpen).(tail := TailDone(Rechecked))
  }

  // The state after a schedule. Any event list is a schedule: an event that is not enabled
  // when its turn comes does nothing, so quantifying over lists covers every interleaving.
  function After(p: Plan, es: seq<Event>): Run {
    if es == [] then Init(p) else Then(p, After(p, es[..|es| - 1]), es[|es| - 1])
  }

  function Then(p: Plan, s: Run, e: Event): Run {
    if Enabled(p, s, e) then Apply(p, s, e) else s
  }

  // ----- what one step may change -----

  predicate PhaseMovesBy(e: Event, ph: Phase, ph': Phase) {
    match e
    case StageStarts(_) => ph == Between && ph' == Awaiting(Undecided)
    case WorkSettles(_, _) => ph' == ph || (ph == Awaiting(Undecided) && ph' == Awaiting(WorkWon))
    case TimerFires => ph == Awaiting(Undecided) && ph' == Awaiting(TimerWon)
    case RunnerResumes => ph.Awaiting? && ph.race != Undecided && ph' == Between
    case SequenceEnds => ph == Between && ph'.Ended?
    case _ => ph' == ph
  }

  lemma PhaseEffects(p: Plan, s: Run, e: Event)
    requires Enabled(p, s, e)
    ensures PhaseMovesBy(e, s.phase, Apply(p, s, e).phase)
    ensures Apply(p, s, e).started == s.started + if e.StageStarts? then 1 else 0
    ensures s.phase.Ended? ==> Apply(p, s, e).failures == s.failures
  {
    hide SeenWriters;
    hide SeenUnsettled;
  }

  // Only the clock moves the clock, and only the loop moves the deadline.
  lemma ClockEffects(p: Plan, s: Run, e: Event)
    requires Enabled(p, s, e)
    ensures var s' := Apply(p, s, e);
            && (if e.Tick? then s'.nowMs == e.toMs else s'.nowMs == s.nowMs)
            && (!e.StageStarts? ==> s'.budgetedMs == s.budgetedMs)
            && (!e.StageStarts? ==> s'.wakeMs == s.wakeMs || (s.wakeMs.None? && s'.wakeMs == Some(s.nowMs)))
  {
    hide SeenWriters;
    hide SeenUnsettled;
  }

  predicate TailEvent(e: Event) {
    e.LateWaitEnds? || e.DrainEnds?
  }

  predicate SameTail(s: Run, s': Run) {
    s'.tail == s.tail && s'.checks == s.checks && s'.closeDeferred == s.closeDeferred
  }

  lemma TailEffects(p: Plan, s: Run, e: Event)
    requires Enabled(p, s, e)
    ensures !TailEvent(e) && !e.StageStarts? ==> SameTail(s, Apply(p, s, e))
    ensures TailEvent(e) ==> SameLoop(s, Apply(p, s, e))
    ensures e.LateWaitEnds? ==> Apply(p, s, e).checks == s.checks
  {
    hide StartStage;
    hide SeenWriters;
    hide SeenUnsettled;
  }

  // What has been looked at is never forgotten.
  lemma ChecksGrow(p: Plan, s: Run, e: Event)
    requires Enabled(p, s, e)
    ensures s.checks <= Apply(p, s, e).checks
  {
    hide SeenWriters;
    hide SeenUnsettled;
  }

  // Apart from the step that settles it or starts it, a stage's work stays, and only the
  // loop abandons.
  lemma WorkEffects(p: Plan, s: Run, e: Event)
    requires Enabled(p, s, e)
    ensures var s' := Apply(p, s, e);
            && |s'.work| == |s.work|
            && (!e.WorkSettles? && !e.StageStarts? ==> s'.work == s.work)
            && s'.unsettled <= s.unsettled + (if s.started > 0 && e.RunnerResumes? then {s.started - 1} else {})
            && (!e.RunnerResumes? && !e.LateOutcome? ==> s'.unsettled == s.unsettled)
  {
    hide SeenWriters;
    hide SeenUnsettled;
  }

  // ----- what every reachable state satisfies -----

  ghost predicate LoopInv(p: Plan, s: Run) {
    && |s.work| == |p.stages| && s.started <= |p.stages|
    && (s.phase.Awaiting? ==> s.started > 0)
    && (s.phase.Ended? ==> s.started == |p.stages|)
    && (forall i :: 0 <= i < |s.work| ==> (s.work[i] == Unstarted <==> s.started <= i))
    && (s.phase.Awaiting? ==>
          && (s.phase.race == Undecided ==> s.work[s.started - 1] == Busy)
          && (s.phase.race == WorkWon ==> IsSettled(s.work[s.started - 1]))
          && (s.phase.race == TimerWon ==> Budgeted(p, s.started - 1))
          && (s.wakeMs.Some? <==> Budgeted(p, s.started - 1)))
    && (s.phase.Between? ==> s.wakeMs.Some?)
    // each stage the loop is past is settled, or still in the map of abandoned work
    && (forall i :: i in s.unsettled ==> i < Passed(s) && Budgeted(p, i))
    && (forall i :: 0 <= i < Passed(s) && i !in s.unsettled ==> IsSettled(s.work[i]))
  }

  ghost predicate Observed(s: Run, i: nat) {
    i < Passed(s) && i !in s.unsettled
  }

  lemma LoopInvInit(p: Plan)
    ensures LoopInv(p, Init(p))
  {}

  // The tail's bodies change nothing the loop reads.
  ghost predicate SameLoop(s: Run, s': Run) {
    s' == s.(closeDeferred := s'.closeDeferred, checks := s'.checks, tail := s'.tail)
  }

  // What starting a stage does to the loop, whatever its body then does to the tail.
  ghost predicate StartedBy(p: Plan, s: Run, s': Run)
    requires s.started < |p.stages| == |s.work|
  {
    && s'.phase == Awaiting(Undecided) && s'.started == s.started + 1 && s'.work == s.work[s.started := Busy]
    && s'.unsettled == s.unsettled && s'.failures == s.failures && s'.reports == s.reports
    && s'.nowMs == s.nowMs && (s'.wakeMs.Some? <==> Budgeted(p, s.started))
    && (s'.wakeMs.Some? ==> s.nowMs <= s'.wakeMs.value)
  }

  lemma StartEffects(p: Plan, s: Run, keepOpen: bool)
    requires s.started < |p.stages| == |s.work|
    ensures StartedBy(p, s, StartStage(p, s, keepOpen))
  {}

  lemma LoopInvStart(p: Plan, s: Run, s': Run)
    requires LoopInv(p, s) && s.phase.Between? && s.started < |p.stages| && StartedBy(p, s, s')
    ensures LoopInv(p, s')
  {}

  // What waking up from a race does.
  ghost predicate ResumedBy(s: Run, s': Run)
    requires s.phase.Awaiting? && 0 < s.started <= |s.work|
  {
    var i := s.started - 1;
    && s'.phase == Between && s'.started == s.started && s'.work == s.work && s'.wakeMs.Some?
    && s'.unsettled == (if s.phase.race == TimerWon then s.unsettled + {i} else s.unsettled)
    && s'.failures == (if s.phase.race != TimerWon && s.work[i] == Rejected
                       then s.failures + [StageFailed(i, false)] else s.failures)
    && s'.reports == (if s.phase.race == TimerWon then s.reports + [TimeoutReport(i)]
                      else if s.work[i] == Rejected then s.reports + [FailureReport(i)] else s.reports)
  }

  lemma ResumeEffects(p: Plan, s: Run)
    requires s.phase.Awaiting? && 0 < s.started <= |s.work|
    ensures ResumedBy(s, Resume(p, s))
  {}

  lemma LoopInvResume(p: Plan, s: Run, s': Run)
    requires LoopInv(p, s) && s.phase.Awaiting? && s.phase.race != Undecided && ResumedBy(s, s')
    ensures LoopInv(p, s')
  {
    assert Passed(s') == Passed(s) + 1;
  }

  lemma LoopInvWork(p: Plan, s: Run, i: nat, ok: bool)
    requires LoopInv(p, s) && Enabled(p, s, WorkSettles(i, ok))
    ensures LoopInv(p, SettleWork(s, i, ok))
  {
    var s' := SettleWork(s, i, ok);
    assert Passed(s') == Passed(s) && s'.unsettled == s.unsettled;
    assert forall k :: 0 <= k < |s.work| && k != i ==> s'.work[k] == s.work[k];
  }

  lemma LoopInvLate(p: Plan, s: Run, i: nat)
    requires LoopInv(p, s) && Enabled(p, s, LateOutcome(i))
    ensures LoopInv(p, ObserveLate(s, i))
  {
    var s' := ObserveLate(s, i);
    assert s'.phase == s.phase && s'.work == s.work && s'.started == s.started && s'.wakeMs == s.wakeMs;
    assert s'.unsettled == s.unsettled - {i};
  }

  lemma LoopInvTail(p: Plan, s: Run, s': Run)
    requires LoopInv(p, s) && SameLoop(s, s')
    ensures LoopInv(p, s')
  {}

  lemma LoopInvStep(p: Plan, s: Run, e: Event)
    requires LoopInv(p, s) && Enabled(p, s, e)
    ensures LoopInv(p, Apply(p, s, e))
  {
    hide StartStage;
    hide Resume;
    hide SettleWork;
    hide ObserveLate;
    match e {
      case Tick(_) =>
      case StageStarts(keepOpen) =>
        StartEffects(p, s, keepOpen);
        LoopInvStart(p, s, StartStage(p, s, keepOpen));
      case WorkSettles(i, ok) => LoopInvWork(p, s, i, ok);
      case TimerFires =>
      case RunnerResumes =>
        ResumeEffects(p, s);
        LoopInvResume(p, s, Resume(p, s));
      case LateOutcome(i) => LoopInvLate(p, s, i);
      case SequenceEnds =>
      case _ =>
        TailEffects(p, s, e);
        hide Apply;
        LoopInvTail(p, s, Apply(p, s, e));
    }
  }

  lemma {:induction false} LoopInvAlways(p: Plan, es: seq<Event>)
    ensures LoopInv(p, After(p, es))
  {
    if es != [] {
      LoopInvAlways(p, es[..|es| - 1]);
      if Enabled(p, After(p, es[..|es| - 1]), es[|es| - 1]) {
        LoopInvStep(p, After(p, es[..|es| - 1]), es[|es| - 1]);
      }
    }
  }
}
