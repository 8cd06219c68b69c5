# POW sync driver of a QRL node, modelled in Dafny

This project models the synchronisation and consensus driver of a QRL node:
class `POW` and class `SyncState` in `qrl/core/node.py`. The driver holds a
sync state (`unsynced`, `syncing`, `synced` or `forked`) and three clocks
(`last_pow_cycle`, `last_bk_time`, `last_pb_time`). It also holds its own
`epoch_diff` and a miner that is either running or idle. It drives two
self-rearming reactor timers: the `monitor_bk` watchdog and the
`unsynced_logic` recovery loop with its `start_download` follow-up.

Files:

- `wrappers.dfy`: the `Option` type.
- `pow_spec.dfy` (module `PowSpec`): the whole driver state as a value,
  `PowState`. Every `POW` method is a function from the old state to the new
  one. Its `ensures` clauses state what the method promises and, for each
  outcome, which fields stay as they were. `Cancel`, `RearmMonitorBk` and
  `Dispatch` are helpers without a contract of their own; the functions that
  use them state their effects.
- `node.dfy` (module `Node`): the driver as imperative code. `SyncState` and
  `Pow` are classes whose methods update fields step by step. `Pow.State()`
  reads the object as a `PowState`, and every method is proved to end in
  exactly the state its `PowSpec` function gives.
- `pow_properties.dfy` (module `PowProperties`): the driver over time. A
  `Stimulus` is one of the following:
  - the reactor runs a due timer;
  - a block arrives;
  - `isSynced` is asked;
  - `update_node_state` is called from outside.

  `Run` applies a sequence of stimuli. The invariant lemmas hold for every run.

How the outside world enters the model:

- Time is one integer `now` per call, in `Env`. The source reads `time.time()`
  and `ntp.getTime()` several times within one method.
- The chain manager's `last_block` and the `block_difficulty` of its metadata
  are one `Head` value in `Env`. So is `p2p_factory.connections`.
- `pre_block_logic` takes two inputs: the result of `add_block`, and
  `trigger_miner` as it stands after `add_block`.
- Configuration is a `Config` value: `mining_enabled` and
  `minimum_minting_delay`.
- Calls on the miner and on the p2p factory are appended to a log of `Event`s.
  In the class this log is a ghost field.
- The reactor is modelled explicitly:
  - `monitorBk` and `unsyncedLogic` are the two named slots (`reactor.monitor_bk`
    and `reactor.unsynced_logic`);
  - every other live `callLater` is a `Timer` in `pending`;
  - firing a due timer is a separate call (`FireMonitorBk`,
    `FireUnsyncedLogic`, `FirePending`) made with a later `now`. It first
    removes the timer, then runs its task.
- Lines 120, 128 and 155 assign a slot without cancelling it. In Twisted that
  leaves any old handle live, and `Orphan` models this by moving the old handle
  into `pending`. The driver never takes that path, because each of those lines
  runs inside the callback that the slot has just fired, so the slot is already
  empty. `PowProperties.NoOrphanedHandles` proves this for every run after
  `start`: no watchdog or recovery-loop callback is ever left in `pending`.

Three details of the code that the model keeps exactly:

- `isSynced` (line 205) uses a strict `>`: it returns true when
  `block_timestamp + minimum_minting_delay > now`, that is, when the block is
  recent.
- In `monitor_bk`, the reschedule-and-return at lines 120-121 sits inside the
  `unsynced` test at line 115. The early return therefore happens only when the
  POW cycle has been idle for over 90 s AND the state is `unsynced`. A
  `syncing` node whose POW cycle is equally idle still reaches the syncing
  timeout test at line 124.
- Line 126 writes `POW.epoch_diff`, not `SyncState.epoch_diff`. The model
  keeps them as two separate fields. `POW.epoch_diff` starts as `None`
  (line 59).

## Model

| member | source | states |
|---|---|---|
| `Node.SyncState.constructor` | qrl/core/node.py:17-20 | a new sync state is `unsynced` with `epoch_diff` -1 |
| `Node.Pow.constructor` | qrl/core/node.py:30-59 | clocks are 0, `epoch_diff` is None, the miner is idle, no timer is armed and nothing has been called |
| `PowSpec.Start` | qrl/core/node.py:66-68 | the watchdog slot holds exactly `monitor_bk` at now+80; `initialize_pow` is scheduled at now+20; nothing else changes |
| `Node.Pow.Start` | qrl/core/node.py:66-68 | the object ends in the state `PowSpec.Start` gives |
| `PowSpec.HandlerStateUnsynced` | qrl/core/node.py:70-73 | the miner is stopped with one `cancel`, `last_bk_time` = now, the recovery slot holds only `unsynced_logic` due now; every other field is unchanged |
| `Node.Pow.HandlerStateUnsynced` | qrl/core/node.py:70-73 | ends in the state `PowSpec.HandlerStateUnsynced` gives |
| `PowSpec.HandlerStateSyncing` | qrl/core/node.py:75-77 | the miner is stopped with one `cancel` and `last_pb_time` = now; every other field is unchanged |
| `Node.Pow.HandlerStateSyncing` | qrl/core/node.py:75-77 | ends in the state `PowSpec.HandlerStateSyncing` gives |
| `PowSpec.HandlerStateSynced` | qrl/core/node.py:79-82 | `last_pow_cycle` = now; with mining enabled one `start_mining` on the chain manager's last block, otherwise nothing else; the timers, the other clocks and the sync state are unchanged |
| `Node.Pow.HandlerStateSynced` | qrl/core/node.py:79-82 | ends in the state `PowSpec.HandlerStateSynced` gives |
| `Node.Pow.HandlerStateForked` | qrl/core/node.py:84-85 | changes nothing |
| `PowSpec.UpdateNodeState` | qrl/core/node.py:87-98 | the stored state is the new one whatever the old one was, and the new state's handler has run. Unsynced: miner not running, one `cancel`, `last_bk_time` = now, the recovery slot holds only `unsynced_logic` at now, other timers unchanged. Syncing: miner not running, one `cancel`, only `last_pb_time` moves. Synced: `last_pow_cycle` = now; with mining enabled exactly one `start_mining` on the last block at its metadata difficulty, otherwise the miner is unchanged. Forked: only the state field changes |
| `Node.Pow.UpdateNodeState` | qrl/core/node.py:87-98 | dispatches on the stored state to the four handler methods and ends in the state `PowSpec.UpdateNodeState` gives |
| `PowSpec.StopMonitorBk` | qrl/core/node.py:100-104 | the watchdog slot is empty afterwards; cancelling an empty slot changes nothing |
| `Node.Pow.StopMonitorBk` | qrl/core/node.py:100-104 | ends in the state `PowSpec.StopMonitorBk` gives |
| `PowSpec.RestartMonitorBk` | qrl/core/node.py:106-108 | the watchdog slot holds exactly `monitor_bk` at now+delay; the old handle is cancelled, not left in `pending` |
| `Node.Pow.RestartMonitorBk` | qrl/core/node.py:106-108 | ends in the state `PowSpec.RestartMonitorBk` gives |
| `PowSpec.Orphan` | qrl/core/node.py:120-128 | a slot assigned without cancelling leaves its old handle, and only it, appended to the live delayed calls; an empty slot leaves them unchanged, which is the only case the driver reaches (`NoOrphanedHandles`) |
| `PowSpec.MonitorBk` | qrl/core/node.py:110-128 | on every path the watchdog slot ends at now+60. POW idle > 90 s, unsynced and `last_bk_time` older than 120 s: the state becomes synced and `last_pow_cycle` = now. Syncing and `last_pb_time` older than 60 s (whatever the POW idle time): the state becomes unsynced with the unsynced entry effects, and `POW.epoch_diff` = -1. Otherwise, including an unsynced node with a recent `last_bk_time`: only the watchdog slot changes. `SyncState.epoch_diff` never changes |
| `Node.Pow.MonitorBk` | qrl/core/node.py:110-128 | ends in the state `PowSpec.MonitorBk` gives |
| `PowProperties.WatchdogSyncingFallsThrough` | qrl/core/node.py:113-126 | a syncing node idle for over 90 s is still timed out to unsynced, with `epoch_diff` -1 |
| `PowProperties.WatchdogRecentUnsyncedStays` | qrl/core/node.py:113-121 | an unsynced node that entered unsynced at most 120 s ago stays unsynced, and its clocks are untouched |
| `PowSpec.InitializePow` | qrl/core/node.py:130-131 | schedules exactly `update_node_state(synced)` at now+30 and changes nothing else |
| `Node.Pow.InitializePow` | qrl/core/node.py:130-131 | ends in the state `PowSpec.InitializePow` gives |
| `PowSpec.RestartUnsyncedLogic` | qrl/core/node.py:142-149 | the recovery slot holds exactly `unsynced_logic` at now+delay; its earlier task is cancelled and does not survive in `pending` |
| `Node.Pow.RestartUnsyncedLogic` | qrl/core/node.py:142-149 | ends in the state `PowSpec.RestartUnsyncedLogic` gives |
| `PowSpec.UnsyncedLogic` | qrl/core/node.py:151-155 | when synced, nothing changes. Otherwise: exactly one sync-state probe is broadcast, one peer-height request is scheduled at delay 0, and the recovery slot holds `start_download` at now+20 |
| `Node.Pow.UnsyncedLogic` | qrl/core/node.py:151-155 | ends in the state `PowSpec.UnsyncedLogic` gives |
| `PowSpec.StartDownload` | qrl/core/node.py:157-173 | when synced, nothing changes. With no connections the node ends synced exactly as `update_node_state(synced)` leaves it: only the state, `last_pow_cycle` and, with mining enabled, the miner change, and no block fetch is issued. Otherwise it ends exactly as `update_node_state(syncing)` leaves it followed by one `randomize_block_fetch`: only the state, the miner and `last_pb_time` change. The call log only grows |
| `Node.Pow.StartDownload` | qrl/core/node.py:157-173 | ends in the state `PowSpec.StartDownload` gives |
| `PowSpec.PreBlockLogic` | qrl/core/node.py:184-198 | mining restarts on the current last block iff mining is enabled and (`trigger_miner` or the miner is idle), whatever `add_block` returned. Exactly one `broadcast_block(block)` is scheduled at delay 0 when the block is accepted, none when it is rejected. State, clocks and slots are untouched |
| `Node.Pow.PreBlockLogic` | qrl/core/node.py:184-198 | ends in the state `PowSpec.PreBlockLogic` gives |
| `PowSpec.BroadcastBlock` | qrl/core/node.py:200-202 | the block is relayed to the peers exactly once when synced, never otherwise; nothing else changes |
| `Node.Pow.BroadcastBlock` | qrl/core/node.py:200-202 | ends in the state `PowSpec.BroadcastBlock` gives |
| `PowSpec.IsSynced` | qrl/core/node.py:204-208 | returns true iff `block_timestamp + minimum_minting_delay > now`. On true the node has entered synced (`last_pow_cycle` = now); on false nothing changes |
| `Node.Pow.IsSynced` | qrl/core/node.py:204-208 | returns and ends in what `PowSpec.IsSynced` gives |
| `PowSpec.MineNext` | qrl/core/node.py:210-214 | with mining enabled the miner runs and exactly one `start_mining` on the parent at its metadata difficulty is logged; with mining disabled nothing changes |
| `Node.Pow.MineNext` | qrl/core/node.py:210-214 | ends in the state `PowSpec.MineNext` gives |
| `PowSpec.FireMonitorBk` | qrl/core/node.py:106-128 | the reactor firing the watchdog slot runs `monitor_bk`, which re-arms the slot at now+60 |
| `Node.Pow.FireMonitorBk` | qrl/core/node.py:106-128 | ends in the state `PowSpec.FireMonitorBk` gives |
| `PowSpec.FireUnsyncedLogic` | qrl/core/node.py:149-173 | the slot is emptied, then its callback runs: `unsynced_logic` or `start_download`, each from the emptied slot. Not synced, `unsynced_logic` logs one probe, queues one peer-height request and arms `start_download` at now+20. Synced, either callback only empties the slot, which ends the recovery loop |
| `Node.Pow.FireUnsyncedLogic` | qrl/core/node.py:149-173 | ends in the state `PowSpec.FireUnsyncedLogic` gives |
| `PowSpec.FirePending` | qrl/core/node.py:130-202 | the fired call leaves the queue, then its callback runs on the rest: `initialize_pow` schedules `update_node_state(synced)` 30 s later and changes nothing else; `update_node_state(s)` is the full transition to `s`, so firing the one `initialize_pow` queued leaves the node synced; a queued peer-height request (line 154) logs exactly one `request_peer_blockheight`; a queued relay (line 198) runs `broadcast_block` |
| `Node.Pow.FirePending` | qrl/core/node.py:130-202 | ends in the state `PowSpec.FirePending` gives |
| `Node.Pow.Dispatch` | qrl/core/node.py:66-214 | runs the callback a timer holds; ends in the state `PowSpec.Dispatch` gives |
| `PowProperties.InitialInv` | qrl/core/node.py:17-59 | the freshly built driver satisfies the invariant |
| `PowProperties.UpdateNodeStateInv` | qrl/core/node.py:87-98 | a transition keeps the invariant, leaves the watchdog slot alone and only appends to the call log |
| `PowProperties.MonitorBkInv` | qrl/core/node.py:110-128 | run from its just-emptied slot, the watchdog keeps the invariant, always leaves its slot armed and leaves the other delayed calls unchanged |
| `PowProperties.StartDownloadInv` | qrl/core/node.py:157-173 | the download trigger keeps the invariant and leaves the watchdog slot alone |
| `PowProperties.DispatchInv` | qrl/core/node.py:66-214 | running any callback, a slot's own callback only after the slot is emptied, keeps the invariant: `SyncState.epoch_diff` stays -1, `POW.epoch_diff` is None or -1, each slot holds only its own callbacks, no slot callback is left in `pending` (so each slot has at most one live handle), and with mining disabled the miner is never started. An armed watchdog stays armed and the call log only grows |
| `PowProperties.StepInv` | qrl/core/node.py:66-214 | the same for every stimulus: a timer firing, a block arriving, `isSynced`, or an external `update_node_state` |
| `PowProperties.RunInv` | qrl/core/node.py:66-214 | the same for every finite sequence of stimuli (by induction) |
| `PowProperties.WatchdogNeverDisarmed` | qrl/core/node.py:106-128 | once `start` has run, the watchdog slot is armed after any run. With mining disabled, no run ever logs a `start_mining` |
| `PowProperties.NoOrphanedHandles` | qrl/core/node.py:110-155 | after `start`, no run leaves a `monitor_bk`, `unsynced_logic` or `start_download` handle outside its slot. Firing the watchdog leaves the other delayed calls unchanged, and firing `unsynced_logic` only adds its peer-height request: the assignments at lines 120, 128 and 155 never replace a live handle |
| `PowProperties.StartupEntersSynced` | qrl/core/node.py:66-131 | cold start: firing `initialize_pow` at +20 and its `update_node_state(synced)` at +50 leaves the node synced, with `last_pow_cycle` = start+50 and the watchdog still armed for start+80 |

## Left out

- The `threading.Lock` in `pre_block_logic` (line 186): the method is one atomic step. Mutual exclusion between the miner thread and the reactor is not modelled.
- Twisted's reactor itself: which due timer runs first, and the promise that time never goes backwards. A firing is any due timer that the caller picks.
- `time.time()` and `ntp.getTime()` return floats and are read several times per method. The model uses one integer `now` per call and does not tell the local clock from trusted time.
- The miner's internals and the proof-of-work search. The miner is reduced to a running flag that `start_mining` sets and `cancel` clears. A miner thread that stops on its own is not modelled.
- `start_mining`'s `tx_pool` argument is not modelled.
- `ChainManager`: the `add_block` validation, `get_block_metadata` storage, and `height`, which is only logged (line 172). Their results enter as inputs.
- The p2p factory's networking (`broadcast_get_synced_state`, `request_peer_blockheight`, `randomize_block_fetch`, `broadcast_block`). Each call is only a logged `Event`.
- The `p2p_factory.pow` back-reference (line 44), the `Miner` constructor wiring (lines 46-49) and the `slaves` list: wiring only.
- Logging (`logger`, `bin2hstr`).
- WatchdogNeverDisarmed: assumes that collaborator calls never raise. Examples are `miner.cancel`, `miner.start_mining` and `get_block_metadata(...).block_difficulty`: the metadata is always present, because `Head` always carries a difficulty. In the source, an exception raised inside `update_node_state` at line 119 or 125 skips the re-arm at line 120 or 128, and the watchdog then stays unarmed for good. The model has no exception path, so this is not captured.
