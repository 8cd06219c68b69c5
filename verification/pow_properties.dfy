/**
  The driver over time. Anything that can happen to it is a Stimulus: the
  reactor runs a due delayed call, a block comes in through pre_block_logic,
  a caller asks isSynced, or another component calls update_node_state.
  Run applies a sequence of them; the lemmas state what every run keeps.
 */
module PowProperties {
  import opened Wrappers
  import opened PowSpec

  datatype Stimulus =
    | FireMonitorSlot(env: Env)
    | FireUnsyncedSlot(env: Env)
    | FirePendingCall(index: nat, env: Env)
    | BlockArrived(block: Block, accepted: bool, triggerMiner: bool, env: Env)
    | SyncCheck(blockTimestamp: int, env: Env)
    | StateChange(target: SyncStatus, env: Env)

  /** One stimulus; a delayed call that is absent or not yet due does not run. */
  function Step(cfg: Config, st: PowState, x: Stimulus): PowState
  {
    match x
    case FireMonitorSlot(env) =>
      if st.monitorBk.Some? && st.monitorBk.value.fireAt <= env.now then FireMonitorBk(cfg, st, env) else st
    case FireUnsyncedSlot(env) =>
      if st.unsyncedLogic.Some? && st.unsyncedLogic.value.fireAt <= env.now then FireUnsyncedLogic(cfg, st, env) else st
    case FirePendingCall(i, env) =>
      if i < |st.pending| && st.pending[i].fireAt <= env.now then FirePending(cfg, st, i, env) else st
    case BlockArrived(b, accepted, triggerMiner, env) => PreBlockLogic(cfg, st, b, accepted, triggerMiner, env)
    case SyncCheck(ts, env) => IsSynced(cfg, st, ts, env).1
    case StateChange(s, env) => UpdateNodeState(cfg, st, s, env)
  }

  function Run(cfg: Config, st: PowState, xs: seq<Stimulus>): PowState
    decreases |xs|
  {
    if xs == [] then st else Run(cfg, Step(cfg, st, xs[0]), xs[1..])
  }

  /** The callbacks that the source keeps in one of the two named slots. */
  predicate SlotTask(task: Task)
  {
    task.MonitorBkTask? || task.UnsyncedLogicTask? || task.StartDownloadTask?
  }

  /**
    What holds of the driver at all times: the shared epoch_diff keeps its
    initial -1, the driver's own epoch_diff is unset or -1, each slot holds
    only the callbacks the source puts there, no slot callback lives outside
    its slot (so each slot has at most one live handle), and with mining
    disabled the miner has never been started.
   */
  predicate Inv(cfg: Config, st: PowState)
  {
    && st.syncEpochDiff == -1
    && (st.epochDiff == None || st.epochDiff == Some(-1))
    && (st.monitorBk.Some? ==> st.monitorBk.value.task == MonitorBkTask)
    && (st.unsyncedLogic.Some? ==> st.unsyncedLogic.value.task in {UnsyncedLogicTask, StartDownloadTask})
    && (forall t | t in st.pending :: !SlotTask(t.task))
    && (!cfg.miningEnabled ==> !st.minerRunning && forall e | e in st.events :: !e.StartMiningCall?)
  }

  lemma InitialInv(cfg: Config)
    ensures Inv(cfg, Initial(Unsynced, -1))
  {
  }

  lemma UpdateNodeStateInv(cfg: Config, st: PowState, s: SyncStatus, env: Env)
    requires Inv(cfg, st)
    ensures Inv(cfg, UpdateNodeState(cfg, st, s, env))
    ensures UpdateNodeState(cfg, st, s, env).monitorBk == st.monitorBk
    ensures st.events <= UpdateNodeState(cfg, st, s, env).events
  {
  }

  /** Run from its own slot, which the reactor has just emptied. */
  lemma MonitorBkInv(cfg: Config, st: PowState, env: Env)
    requires Inv(cfg, st) && st.monitorBk.None?
    ensures Inv(cfg, MonitorBk(cfg, st, env))
    ensures MonitorBk(cfg, st, env).monitorBk.Some?
    ensures st.events <= MonitorBk(cfg, st, env).events
    ensures MonitorBk(cfg, st, env).pending == st.pending
  {
    if 90 < env.now - st.lastPowCycle && st.status == Unsynced {
      if env.now - st.lastBkTime > 120 {
        UpdateNodeStateInv(cfg, st.(lastPowCycle := env.now), Synced, env);
      }
    } else if st.status == Syncing && env.now - st.lastPbTime > 60 {
      UpdateNodeStateInv(cfg, st, Unsynced, env);
    }
  }

  lemma StartDownloadInv(cfg: Config, st: PowState, env: Env)
    requires Inv(cfg, st)
    ensures Inv(cfg, StartDownload(cfg, st, env))
    ensures StartDownload(cfg, st, env).monitorBk == st.monitorBk
    ensures st.events <= StartDownload(cfg, st, env).events
  {
    if st.status != Synced {
      UpdateNodeStateInv(cfg, st, if env.connections == 0 then Synced else Syncing, env);
    }
  }

  /**
    Running any callback keeps Inv, leaves an armed watchdog armed and only
    appends to the call log, provided a slot callback runs with its slot
    already emptied, as the reactor does when the slot fires.
   */
  lemma DispatchInv(cfg: Config, st: PowState, task: Task, env: Env)
    requires Inv(cfg, st)
    requires task == MonitorBkTask ==> st.monitorBk.None?
    requires task == UnsyncedLogicTask ==> st.unsyncedLogic.None?
    ensures Inv(cfg, Dispatch(cfg, st, task, env))
    ensures st.monitorBk.Some? || task == MonitorBkTask ==> Dispatch(cfg, st, task, env).monitorBk.Some?
    ensures st.events <= Dispatch(cfg, st, task, env).events
  {
    match task
    case MonitorBkTask => MonitorBkInv(cfg, st, env);
    case UpdateNodeStateTask(s) => UpdateNodeStateInv(cfg, st, s, env);
    case StartDownloadTask => StartDownloadInv(cfg, st, env);
    case _ =>
  }

  /** Every step keeps Inv, never disarms an armed watchdog and only appends to the call log. */
  lemma StepInv(cfg: Config, st: PowState, x: Stimulus)
    requires Inv(cfg, st)
    ensures Inv(cfg, Step(cfg, st, x))
    ensures st.monitorBk.Some? ==> Step(cfg, st, x).monitorBk.Some?
    ensures st.events <= Step(cfg, st, x).events
  {
    match x
    case FireMonitorSlot(env) =>
      if st.monitorBk.Some? && st.monitorBk.value.fireAt <= env.now {
        DispatchInv(cfg, st.(monitorBk := None), st.monitorBk.value.task, env);
      }
    case FireUnsyncedSlot(env) =>
      if st.unsyncedLogic.Some? && st.unsyncedLogic.value.fireAt <= env.now {
        DispatchInv(cfg, st.(unsyncedLogic := None), st.unsyncedLogic.value.task, env);
      }
    case FirePendingCall(i, env) =>
      if i < |st.pending| && st.pending[i].fireAt <= env.now {
        DispatchInv(cfg, st.(pending := st.pending[..i] + st.pending[i + 1..]), st.pending[i].task, env);
      }
    case BlockArrived(b, accepted, triggerMiner, env) =>
    case SyncCheck(ts, env) => UpdateNodeStateInv(cfg, st, Synced, env);
    case StateChange(s, env) => UpdateNodeStateInv(cfg, st, s, env);
  }

  lemma {:induction false} RunInv(cfg: Config, st: PowState, xs: seq<Stimulus>)
    requires Inv(cfg, st)
    ensures Inv(cfg, Run(cfg, st, xs))
    ensures st.monitorBk.Some? ==> Run(cfg, st, xs).monitorBk.Some?
    ensures st.events <= Run(cfg, st, xs).events
    decreases |xs|
  {
    if xs != [] {
      StepInv(cfg, st, xs[0]);
      RunInv(cfg, Step(cfg, st, xs[0]), xs[1..]);
    }
  }

  /**
    Once started, the watchdog stays armed whatever happens afterwards, and
    with mining disabled no run ever starts the miner.
   */
  lemma WatchdogNeverDisarmed(cfg: Config, now: int, xs: seq<Stimulus>)
    ensures Run(cfg, Start(Initial(Unsynced, -1), now), xs).monitorBk.Some?
    ensures !cfg.miningEnabled ==>
      forall e | e in Run(cfg, Start(Initial(Unsynced, -1), now), xs).events :: !e.StartMiningCall?
  {
    InitialInv(cfg);
    var st := Start(Initial(Unsynced, -1), now);
    assert Inv(cfg, st);
    RunInv(cfg, st, xs);
  }

  /**
    The slot assignments that do not cancel (lines 120, 128 and 155) never
    find a live handle to orphan: after start, no run ever leaves a watchdog
    or recovery-loop callback outside its slot, firing the watchdog leaves the
    other delayed calls as they were, and firing unsynced_logic only adds its
    peer-height request.
   */
  lemma NoOrphanedHandles(cfg: Config, now: int, xs: seq<Stimulus>, env: Env)
    ensures var st := Run(cfg, Start(Initial(Unsynced, -1), now), xs);
      && (forall t | t in st.pending :: !SlotTask(t.task))
      && (st.monitorBk.Some? && st.monitorBk.value.fireAt <= env.now ==>
            FireMonitorBk(cfg, st, env).pending == st.pending)
      && (st.unsyncedLogic.Some? && st.unsyncedLogic.value.fireAt <= env.now
          && st.unsyncedLogic.value.task == UnsyncedLogicTask && st.status != Synced ==>
            FireUnsyncedLogic(cfg, st, env).pending == st.pending + [Timer(env.now, RequestPeerBlockheightTask)])
  {
    InitialInv(cfg);
    var st0 := Start(Initial(Unsynced, -1), now);
    assert Inv(cfg, st0);
    RunInv(cfg, st0, xs);
    var st := Run(cfg, st0, xs);
    if st.monitorBk.Some? && st.monitorBk.value.fireAt <= env.now {
      MonitorBkInv(cfg, st.(monitorBk := None), env);
    }
  }

  /**
    Cold start: initialize_pow runs 20 s after start and update_node_state(synced)
    30 s after that, leaving the node synced with its POW cycle stamped then,
    and the watchdog still armed for start + 80.
   */
  lemma StartupEntersSynced(cfg: Config, t: int, env1: Env, env2: Env)
    requires env1.now == t + 20 && env2.now == t + 50
    ensures var r := Run(cfg, Start(Initial(Unsynced, -1), t), [FirePendingCall(0, env1), FirePendingCall(0, env2)]);
      r.status == Synced && r.lastPowCycle == t + 50 && r.pending == []
      && r.monitorBk == Some(Timer(t + 80, MonitorBkTask))
  {
    var s0 := Start(Initial(Unsynced, -1), t);
    var s1 := FirePending(cfg, s0, 0, env1);
    assert s1.pending == [Timer(t + 50, UpdateNodeStateTask(Synced))];
    var s2 := FirePending(cfg, s1, 0, env2);
    assert Step(cfg, s0, FirePendingCall(0, env1)) == s1;
    assert Step(cfg, s1, FirePendingCall(0, env2)) == s2;
    var xs := [FirePendingCall(0, env1), FirePendingCall(0, env2)];
    assert xs[1..] == [FirePendingCall(0, env2)] && xs[1..][1..] == [];
    assert Run(cfg, s0, xs) == Run(cfg, s1, xs[1..]) == Run(cfg, s2, []);
  }

  /**
    A syncing node whose POW has been idle for over 90 s is still checked for
    the syncing timeout: after 60 s without progress it falls back to unsynced.
   */
  lemma WatchdogSyncingFallsThrough(cfg: Config, st: PowState, env: Env)
    requires st.status == Syncing && env.now - st.lastPowCycle > 90 && env.now - st.lastPbTime > 60
    ensures MonitorBk(cfg, st, env).status == Unsynced
    ensures MonitorBk(cfg, st, env).epochDiff == Some(-1)
  {
  }

  /** An unsynced node that entered unsynced at most 120 s ago is left unsynced by the watchdog. */
  lemma WatchdogRecentUnsyncedStays(cfg: Config, st: PowState, env: Env)
    requires st.status == Unsynced && env.now - st.lastPowCycle > 90 && env.now - st.lastBkTime <= 120
    ensures MonitorBk(cfg, st, env).status == Unsynced
    ensures SameClocks(st, MonitorBk(cfg, st, env))
  {
  }
}
