// The two shutdown stage tables of src/shutdownCleanup.ts and the arithmetic the
// process limit of src/processLifecycle.ts imposes on them.
module StageTables {
  import opened Options

  // Which body of the database tail a stage runs. Every other body is a plain
  // cleanup: it may settle, fail or hang, and touches no state of the run.
  datatype Role = Cleanup | CloseDatabase | LateSettle

  datatype Stage = Stage(name: string, budgetMs: Option<nat>, mayWriteDatabase: bool, role: Role)

  const PROCESS_SHUTDOWN_TIMEOUT_MS := 9000
  const DAEMON_SHUTDOWN_BUDGET_RESERVE_MS := 500

  function WritesDatabase(name: string, budgetMs: nat): Stage {
    Stage(name, Some(budgetMs), true, Cleanup)
  }

  function DatabaseFree(name: string, budgetMs: nat): Stage {
    Stage(name, Some(budgetMs), false, Cleanup)
  }

  function Tail(name: string, budgetMs: nat, role: Role): Stage {
    Stage(name, Some(budgetMs), true, role)
  }

  function DaemonIngress(): (rows: seq<Stage>)
    ensures |rows| == 11
  {
    [ WritesDatabase("provisioning ingress quiesce", 1050),
      WritesDatabase("provisioning interruption", 300),
      WritesDatabase("shutdown release snapshot", 50),
      WritesDatabase("forward lease idle releaser", 200),
      WritesDatabase("managed execution release", 200),
      WritesDatabase("active capture and iOS CtrlProxy children", 500),
      WritesDatabase("health check timer", 50),
      WritesDatabase("location routes", 50),
      WritesDatabase("shutdown monitors", 150),
      WritesDatabase("ADB missing-device subscription", 25),
      WritesDatabase("session cleanup timer", 25) ]
  }

  function DaemonSockets(): (rows: seq<Stage>)
    ensures |rows| == 12
  {
    [ WritesDatabase("video recording socket server", 30),
      WritesDatabase("device gesture recording socket server", 30),
      WritesDatabase("device snapshot socket server", 30),
      WritesDatabase("appearance socket server", 30),
      WritesDatabase("performance stream socket server", 30),
      WritesDatabase("performance push socket server", 30),
      WritesDatabase("device data stream socket server", 30),
      WritesDatabase("failures stream socket server", 30),
      WritesDatabase("failures push socket server", 30),
      WritesDatabase("telemetry push socket server", 30),
      WritesDatabase("WebRTC stream socket server", 200),
      DatabaseFree("video stream socket server", 200) ]
  }

  function DaemonServices(): (rows: seq<Stage>)
    ensures |rows| == 8
  {
    [ DatabaseFree("iOS simulator capture helper pool", 150),
      DatabaseFree("native helper registry", 10),
      DatabaseFree("host adb children", 10),
      WritesDatabase("appearance sync scheduler", 25),
      WritesDatabase("performance monitor", 25),
      WritesDatabase("active HTTP sessions", 150),
      WritesDatabase("active HTTP session registry", 25),
      WritesDatabase("HTTP server", 100) ]
  }

  function DaemonState(): (rows: seq<Stage>)
    ensures |rows| == 13
  {
    [ WritesDatabase("active device sessions", 1500),
      WritesDatabase("Unix socket server", 1100),
      WritesDatabase("pending device cleanups", 300),
      WritesDatabase("CtrlProxy forwarding leases", 400),
      WritesDatabase("device allocation claims", 100),
      DatabaseFree("managed ADB server", 300),
      WritesDatabase("abandoned stage settle", 75),
      WritesDatabase("database write drain", 200),
      WritesDatabase("in-flight migrations", 200),
      Tail("database", 300, CloseDatabase),
      Tail("late abandoned stage settle", 25, LateSettle),
      WritesDatabase("logger", 100),
      WritesDatabase("daemon files", 100) ]
  }

  function DaemonStages(): seq<Stage> {
    DaemonIngress() + DaemonSockets() + DaemonServices() + DaemonState()
  }

  function StdioStages(): seq<Stage> {
    [ WritesDatabase("direct-mode capture and iOS CtrlProxy children", 2000),
      DatabaseFree("direct-mode managed ADB server", 300),
      WritesDatabase("video recording socket server", 30),
      WritesDatabase("device gesture recording socket server", 30),
      WritesDatabase("device snapshot socket server", 30),
      WritesDatabase("appearance socket server", 30),
      WritesDatabase("WebRTC stream socket server", 200),
      WritesDatabase("appearance sync scheduler", 25),
      WritesDatabase("prefetched Android CtrlProxy APK", 50),
      WritesDatabase("stdio proxy", 2000),
      WritesDatabase("abandoned stage settle", 2955),
      WritesDatabase("database write drain", 200),
      WritesDatabase("in-flight migrations", 200),
      Tail("database", 300, CloseDatabase),
      Tail("late abandoned stage settle", 25, LateSettle),
      WritesDatabase("logger", 100) ]
  }

  // The sum of the first k budgets: how far the rolling deadline of stage k - 1 lies
  // past the start of the run.
  function BudgetSum(stages: seq<Stage>, k: nat): nat
    requires k <= |stages|
  {
    if k == 0 then 0 else BudgetSum(stages, k - 1) + BudgetOf(stages[k - 1])
  }

  function BudgetOf(stage: Stage): nat {
    match stage.budgetMs
    case Some(ms) => ms
    case None => 0
  }

  lemma {:induction false} BudgetSumMonotone(stages: seq<Stage>, i: nat, k: nat)
    requires i <= k <= |stages|
    ensures BudgetSum(stages, i) <= BudgetSum(stages, k)
    decreases k
  {
    if i < k {
      BudgetSumMonotone(stages, i, k - 1);
    }
  }

  lemma {:induction false} BudgetSumAppend(xs: seq<Stage>, ys: seq<Stage>, k: nat)
    requires k <= |ys|
    ensures BudgetSum(xs + ys, |xs| + k) == BudgetSum(xs, |xs|) + BudgetSum(ys, k)
    decreases |xs| + k
  {
    if k > 0 {
      BudgetSumAppend(xs, ys, k - 1);
    } else {
      BudgetSumPrefix(xs, ys, |xs|);
    }
  }

  lemma {:induction false} BudgetSumPrefix(xs: seq<Stage>, ys: seq<Stage>, k: nat)
    requires k <= |xs|
    ensures BudgetSum(xs + ys, k) == BudgetSum(xs, k)
  {
    if k > 0 {
      BudgetSumPrefix(xs, ys, k - 1);
    }
  }

  // The daemon table, group by group.
  lemma DaemonIngressTotal()
    ensures BudgetSum(DaemonIngress(), 11) == 2600
  {
    assert BudgetSum(DaemonIngress(), 6) == 2300;
  }

  lemma DaemonServicesTotal()
    ensures BudgetSum(DaemonServices(), 8) == 495
  {
    assert BudgetSum(DaemonServices(), 4) == 195;
  }

  lemma DaemonSocketTotal()
    ensures BudgetSum(DaemonSockets(), 12) == 700
  {
    assert BudgetSum(DaemonSockets(), 6) == 180;
  }

  lemma DaemonStateTotal()
    ensures BudgetSum(DaemonState(), 13) == 4700
  {
    assert BudgetSum(DaemonState(), 6) == 3700;
  }

  lemma DaemonTotal()
    ensures BudgetSum(DaemonStages(), |DaemonStages()|) == 8495
  {
    hide DaemonIngress;
    hide DaemonSockets;
    hide DaemonServices;
    hide DaemonState;
    hide BudgetSum;
    DaemonIngressTotal();
    DaemonServicesTotal();
    DaemonSocketTotal();
    DaemonStateTotal();
    BudgetSumAppend(DaemonIngress(), DaemonSockets(), 12);
    BudgetSumAppend(DaemonIngress() + DaemonSockets(), DaemonServices(), 8);
    BudgetSumAppend(DaemonIngress() + DaemonSockets() + DaemonServices(), DaemonState(), 13);
  }

  lemma StateLastRows()
    ensures DaemonState()[11].budgetMs == Some(100) && DaemonState()[12].budgetMs == Some(100)
  {}

  lemma DaemonLastRows()
    ensures |DaemonStages()| == 44
    ensures DaemonStages()[42].budgetMs == Some(100) && DaemonStages()[43].budgetMs == Some(100)
  {
    hide DaemonIngress;
    hide DaemonSockets;
    hide DaemonServices;
    hide DaemonState;
    StateLastRows();
  }

  // The deadline of the late settle: what the two stages after it leave.
  lemma DaemonDeadline()
    ensures |DaemonStages()| == 44 && BudgetSum(DaemonStages(), 42) == 8295
  {
    hide DaemonStages;
    DaemonTotal();
    DaemonLastRows();
    assert BudgetSum(DaemonStages(), 44) == BudgetSum(DaemonStages(), 43) + BudgetOf(DaemonStages()[43]);
    assert BudgetSum(DaemonStages(), 43) == BudgetSum(DaemonStages(), 42) + BudgetOf(DaemonStages()[42]);
  }

  // A plain cleanup with a budget of at least 10 ms.
  predicate PlainRow(stage: Stage) {
    stage.role == Cleanup && stage.budgetMs.Some? && 10 <= stage.budgetMs.value
  }

  lemma DaemonIngressRow(i: nat)
    requires i < |DaemonIngress()|
    ensures PlainRow(DaemonIngress()[i]) && DaemonIngress()[i].mayWriteDatabase
  {}

  lemma DaemonSocketRow(i: nat)
    requires i < |DaemonSockets()|
    ensures PlainRow(DaemonSockets()[i]) && (DaemonSockets()[i].mayWriteDatabase <==> i != 11)
  {}

  lemma DaemonServiceRow(i: nat)
    requires i < |DaemonServices()|
    ensures PlainRow(DaemonServices()[i]) && (DaemonServices()[i].mayWriteDatabase <==> i >= 3)
  {}

  lemma DaemonStateRow(i: nat)
    requires i < |DaemonState()|
    ensures DaemonState()[i].role == CloseDatabase <==> i == 9
    ensures DaemonState()[i].role == LateSettle <==> i == 10
    ensures DaemonState()[i].budgetMs.Some? && 10 <= DaemonState()[i].budgetMs.value
    ensures DaemonState()[i].mayWriteDatabase <==> i != 5
  {}

  // One row of the daemon's table: its place decides its role and whether it may write, and no budget is
  // under 10 ms.
  lemma DaemonRow(i: nat)
    requires i < |DaemonStages()|
    ensures |DaemonStages()| == 44
    ensures DaemonStages()[i].role == CloseDatabase <==> i == 40
    ensures DaemonStages()[i].role == LateSettle <==> i == 41
    ensures DaemonStages()[i].budgetMs.Some? && 10 <= DaemonStages()[i].budgetMs.value
    ensures DaemonStages()[i].mayWriteDatabase <==> !(22 <= i <= 25) && i != 36
  {
    hide DaemonIngress;
    hide DaemonSockets;
    hide DaemonServices;
    hide DaemonState;
    if i < 11 {
      DaemonIngressRow(i);
    } else if i < 23 {
      DaemonSocketRow(i - 11);
    } else if i < 31 {
      DaemonServiceRow(i - 23);
    } else {
      DaemonStateRow(i - 31);
    }
  }

  // One row of the stdio server's table.
  lemma StdioRow(i: nat)
    requires i < |StdioStages()|
    ensures |StdioStages()| == 16
    ensures StdioStages()[i].role == CloseDatabase <==> i == 13
    ensures StdioStages()[i].role == LateSettle <==> i == 14
    ensures StdioStages()[i].budgetMs.Some? && 25 <= StdioStages()[i].budgetMs.value
    ensures StdioStages()[i].mayWriteDatabase <==> i != 1
  {}

  lemma StdioHalf()
    ensures BudgetSum(StdioStages(), 8) == 2645
  {}

  lemma StdioTotal()
    ensures BudgetSum(StdioStages(), |StdioStages()|) == 8475
  {
    StdioHalf();
    assert BudgetSum(StdioStages(), 16) == 8475;
  }
}
