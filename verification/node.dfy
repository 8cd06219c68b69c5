/**
  The POW driver as the object it is: a SyncState shared with the rest of
  the node, and a Pow object whose methods update its clocks, the miner's
  running flag and the reactor's timer slots step by step. State() reads the
  whole object as a PowSpec.PowState, and every method is proved to leave
  State() exactly where the matching PowSpec function says.
 */
module Node {
  import opened Wrappers
  import opened PowSpec

  /** The node-wide sync state; POW writes its `state`, never its `epochDiff`. */
  class SyncState {
    var state: SyncStatus
    var epochDiff: int

    constructor ()
      ensures state == Unsynced && epochDiff == -1
    {
      state := Unsynced;
      epochDiff := -1;
    }
  }

  class Pow {
    const syncState: SyncState
    const config: Config

    var lastPowCycle: int
    var lastBkTime: int
    var lastPbTime: int
    var epochDiff: Option<int>

    // the miner, reduced to whether a mining job is running
    var minerRunning: bool

    // the reactor: the two named slots and every other live delayed call
    var monitorBk: Option<Timer>
    var unsyncedLogic: Option<Timer>
    var pending: seq<Timer>

    // calls made on the miner and the p2p factory
    ghost var events: seq<Event>

    ghost function State(): PowState
      reads this, syncState
    {
      PowState(syncState.state, syncState.epochDiff, lastPowCycle, lastBkTime, lastPbTime,
               epochDiff, minerRunning, monitorBk, unsyncedLogic, pending, events)
    }

    constructor (syncState: SyncState, config: Config)
      ensures this.syncState == syncState && this.config == config
      ensures State() == Initial(syncState.state, syncState.epochDiff)
    {
      this.syncState := syncState;
      this.config := config;
      lastPowCycle, lastBkTime, lastPbTime := 0, 0, 0;
      epochDiff := None;
      minerRunning := false;
      monitorBk, unsyncedLogic, pending := None, None, [];
      events := [];
    }

    method Start(now: int)
      modifies this
      ensures State() == PowSpec.Start(old(State()), now)
    {
      RestartMonitorBk(80, now);
      pending := pending + [Timer(now + 20, InitializePowTask)];
    }

    method HandlerStateUnsynced(now: int)
      modifies this
      ensures State() == PowSpec.HandlerStateUnsynced(old(State()), now)
    {
      minerRunning := false;
      events := events + [CancelCall];
      lastBkTime := now;
      RestartUnsyncedLogic(0, now);
    }

    method HandlerStateSyncing(now: int)
      modifies this
      ensures State() == PowSpec.HandlerStateSyncing(old(State()), now)
    {
      minerRunning := false;
      events := events + [CancelCall];
      lastPbTime := now;
    }

    method HandlerStateSynced(env: Env)
      modifies this
      ensures State() == PowSpec.HandlerStateSynced(config, old(State()), env)
    {
      lastPowCycle := env.now;
      var lastBlock := env.head;
      MineNext(lastBlock);
    }

    /** The forked state is reserved: its handler does nothing. */
    method HandlerStateForked()
      ensures State() == old(State())
    {
    }

    method UpdateNodeState(newSyncState: SyncStatus, env: Env)
      modifies this, syncState
      ensures State() == PowSpec.UpdateNodeState(config, old(State()), newSyncState, env)
    {
      syncState.state := newSyncState;
      match syncState.state
      case Unsynced => HandlerStateUnsynced(env.now);
      case Syncing => HandlerStateSyncing(env.now);
      case Synced => HandlerStateSynced(env);
      case Forked => HandlerStateForked();
    }

    method StopMonitorBk()
      modifies this
      ensures State() == PowSpec.StopMonitorBk(old(State()))
    {
      monitorBk := None;
    }

    method RestartMonitorBk(delay: nat, now: int)
      modifies this
      ensures State() == PowSpec.RestartMonitorBk(old(State()), delay, now)
    {
      StopMonitorBk();
      monitorBk := Some(Timer(now + delay, MonitorBkTask));
    }

    method MonitorBk(env: Env)
      modifies this, syncState
      ensures State() == PowSpec.MonitorBk(config, old(State()), env)
    {
      var timeDiff1 := env.now - lastPowCycle;
      if 90 < timeDiff1 {
        if syncState.state == Unsynced {
          if env.now - lastBkTime > 120 {
            lastPowCycle := env.now;
            UpdateNodeState(Synced, env);
          }
          pending := Orphan(pending, monitorBk);
          monitorBk := Some(Timer(env.now + 60, MonitorBkTask));
          return;
        }
      }

      var timeDiff2 := env.now - lastPbTime;
      if syncState.state == Syncing && timeDiff2 > 60 {
        UpdateNodeState(Unsynced, env);
        epochDiff := Some(-1);
      }

      pending := Orphan(pending, monitorBk);
      monitorBk := Some(Timer(env.now + 60, MonitorBkTask));
    }

    method InitializePow(now: int)
      modifies this
      ensures State() == PowSpec.InitializePow(old(State()), now)
    {
      pending := pending + [Timer(now + 30, UpdateNodeStateTask(Synced))];
    }

    method RestartUnsyncedLogic(delay: nat, now: int)
      modifies this
      ensures State() == PowSpec.RestartUnsyncedLogic(old(State()), delay, now)
    {
      unsyncedLogic := None;
      unsyncedLogic := Some(Timer(now + delay, UnsyncedLogicTask));
    }

    method UnsyncedLogic(now: int)
      modifies this
      ensures State() == PowSpec.UnsyncedLogic(old(State()), now)
    {
      if syncState.state != Synced {
        events := events + [BroadcastGetSyncedStateCall];
        pending := pending + [Timer(now, RequestPeerBlockheightTask)];
        pending := Orphan(pending, unsyncedLogic);
        unsyncedLogic := Some(Timer(now + 20, StartDownloadTask));
      }
    }

    method StartDownload(env: Env)
      modifies this, syncState
      ensures State() == PowSpec.StartDownload(config, old(State()), env)
    {
      if syncState.state == Synced {
        return;
      }
      if env.connections == 0 {
        UpdateNodeState(Synced, env);
        return;
      }
      UpdateNodeState(Syncing, env);
      events := events + [RandomizeBlockFetchCall];
    }

    /**
      The body of the locked region: `accepted` is what add_block returned,
      `triggerMiner` and env.head are the chain manager's flag and last block
      as they stand after add_block.
     */
    method PreBlockLogic(block: Block, accepted: bool, triggerMiner: bool, env: Env)
      modifies this
      ensures State() == PowSpec.PreBlockLogic(config, old(State()), block, accepted, triggerMiner, env)
    {
      if triggerMiner || !minerRunning {
        MineNext(env.head);
      }
      if !accepted {
        return;
      }
      pending := pending + [Timer(env.now, BroadcastBlockTask(block))];
    }

    method BroadcastBlock(block: Block)
      modifies this
      ensures State() == PowSpec.BroadcastBlock(old(State()), block)
    {
      if syncState.state == Synced {
        events := events + [BroadcastBlockCall(block)];
      }
    }

    method IsSynced(blockTimestamp: int, env: Env) returns (synced: bool)
      modifies this, syncState
      ensures (synced, State()) == PowSpec.IsSynced(config, old(State()), blockTimestamp, env)
    {
      if blockTimestamp + config.minimumMintingDelay > env.now {
        UpdateNodeState(Synced, env);
        return true;
      }
      return false;
    }

    method MineNext(parentBlock: Head)
      modifies this
      ensures State() == PowSpec.MineNext(config, old(State()), parentBlock)
    {
      if config.miningEnabled {
        minerRunning := true;
        events := events + [StartMiningCall(parentBlock.block, parentBlock.difficulty)];
      }
    }

    // -------------------------------------------------------------------------
    // The reactor's side: running a due delayed call

    method Dispatch(task: Task, env: Env)
      modifies this, syncState
      ensures State() == PowSpec.Dispatch(config, old(State()), task, env)
    {
      match task
      case MonitorBkTask => MonitorBk(env);
      case InitializePowTask => InitializePow(env.now);
      case UpdateNodeStateTask(s) => UpdateNodeState(s, env);
      case UnsyncedLogicTask => UnsyncedLogic(env.now);
      case StartDownloadTask => StartDownload(env);
      case RequestPeerBlockheightTask => events := events + [RequestPeerBlockheightCall];
      case BroadcastBlockTask(b) => BroadcastBlock(b);
    }

    method FireMonitorBk(env: Env)
      requires monitorBk.Some? && monitorBk.value.fireAt <= env.now
      modifies this, syncState
      ensures State() == PowSpec.FireMonitorBk(config, old(State()), env)
    {
      var t := monitorBk.value;
      monitorBk := None;
      Dispatch(t.task, env);
    }

    method FireUnsyncedLogic(env: Env)
      requires unsyncedLogic.Some? && unsyncedLogic.value.fireAt <= env.now
      modifies this, syncState
      ensures State() == PowSpec.FireUnsyncedLogic(config, old(State()), env)
    {
      var t := unsyncedLogic.value;
      unsyncedLogic := None;
      Dispatch(t.task, env);
    }

    method FirePending(i: nat, env: Env)
      requires i < |pending| && pending[i].fireAt <= env.now
      modifies this, syncState
      ensures State() == PowSpec.FirePending(config, old(State()), i, env)
    {
      var t := pending[i];
      pending := pending[..i] + pending[i + 1..];
      Dispatch(t.task, env);
    }
  }
}
