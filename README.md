# NZB listener: job registry and reconciliation tick

This project models the core of the NZB listener of a download bot: the job
registry `nzb_jobs` and the rule by which the background poll loop reconciles
it with the download service.

`nzb_jobs` maps each job id (the service's `nzo_id`) to a record
`{uploaded, stop_dup_check, status}`. `onDownloadStart` fills it. On each
pass the poll loop fetches the service's history and queue and does one tick;
after each pass that does not end the loop, failed or not, it sleeps three
seconds. A tick dispatches each history slot and then each queue slot against
the registry. It updates records in place and spawns detached tasks: the
completion task, the error task, the status-change task, the duplicate check
and the size check. The removal routine `_remove_job` and the cleanup parts of
the error and completion tasks delete service state and evict the record.

The model has four modules.

- `NzbTick` (`nzb_tick.dfy`) holds the data model and the tick as functions.
  A record is `Job`, the registry is a `map`, and the snapshots are sequences
  of `HistorySlot` and `QueueSlot`. Each spawned task is an `Action` value:
  `Complete`, `Error`, `ChangeStatus`, `DupCheck` or `SizeCheck`. Actions are
  emitted in snapshot order. `TickOutcome` is the whole tick.
- `NzbTickFacts` (`nzb_tick_facts.dfy`) proves what one tick does:
  - which record fields change: the two flags only from false to true, and
    `status` only to "Completed", together with `uploaded`;
  - that completion and the checks fire at most once;
  - that `Failed` is reported with no gate;
  - that progress statuses are compared with the stored status but never stored;
  - that untracked slots are skipped.
- `NzbTrace` (`nzb_trace.dfy`) looks at registrations, ticks and removals in
  any interleaving. It proves that completion and the checks fire at most once
  per registration, that a removed job is never processed again unless it is
  registered again, and that every reachable record is well formed. It also
  proves two end-to-end scenarios: a job that completes and a job that fails.
- `NzbListener` (`nzb_listener.dfy`) is the imperative model. Class `Listener`
  has the field `jobs` (`nzb_jobs`) and the field `loopRunning`
  (`Intervals["nzb"]`). Its methods are `OnDownloadStart`, `Tick` (with loops
  over the two snapshots), `LoopIteration`, `RemoveJob` and the cleanup parts
  of the error and completion tasks. Each method's `ensures` ties the new
  state to the functions of `NzbTick`. Requests to the download service are
  returned as `ServiceCall` values. The service's answers and the shutdown
  flag come in as parameters: the snapshots, whether the history deletion
  succeeded, and `Intervals["stopAll"]`.

Four behaviours of the code are easy to misread; the model follows the code:

- `onDownloadStart` overwrites an existing record with a fresh one. It does not
  leave the existing record alone (`Register`, `Listener.OnDownloadStart`).
- The progress branch (QuickCheck, Verifying, Repairing, Fetching, Moving,
  Extracting) compares the slot's status with the stored status but never
  stores it. Stored statuses are therefore only ever "Downloading" or
  "Completed" (`WellFormed`, `RunWellFormed`). So every progress slot of a
  tracked job emits `ChangeStatus`, on every tick (`TickStatusChanges`).
- A `Failed` slot is not gated. It emits `Error` on every tick while the record
  is present (`TickErrors`, `TickFailedReported`, `FailedJobScenario`).
- When the shutdown flag stops the loop, the loop exits without clearing
  `Intervals["nzb"]` (`Listener.LoopIteration`).

## Model

| member | source | states |
|---|---|---|
| `NzbTick.Register` | bot/helper/listeners/nzb_listener.py:177-181 | the id maps to the fresh record `{false, false, "Downloading"}` whether or not it was present; the other records and keys are unchanged |
| `NzbTick.Evict` | bot/helper/listeners/nzb_listener.py:34-36 | the id is absent afterwards, the other records are unchanged, and evicting an absent id changes nothing |
| `NzbTick.HistoryPass` | bot/helper/listeners/nzb_listener.py:131-157 | the history loop never adds or removes a registry key |
| `NzbTick.QueuePass` | bot/helper/listeners/nzb_listener.py:158-169 | the queue loop never adds or removes a registry key |
| `NzbTick.TickOutcome` | bot/helper/listeners/nzb_listener.py:128-169 | a tick keeps the key set; it stops exactly when the registry is empty, and a stopping tick emits nothing and changes nothing |
| `NzbTick.HistoryStep` | bot/helper/listeners/nzb_listener.py:132-157 | one history slot: an untracked id changes nothing and emits nothing; otherwise at most one action, naming the slot's job, and no other record changes |
| `NzbTick.QueueStep` | bot/helper/listeners/nzb_listener.py:159-169 | one queue slot: an untracked id changes nothing; otherwise `stopDupCheck` ends up set iff it was set or the slot triggers, `uploaded` and `status` are kept, no other record changes, and the actions are nothing or the pair DupCheck, SizeCheck for that job |
| `NzbTick.PolicyFollowUp` | bot/helper/listeners/nzb_listener.py:80-103 | a duplicate or size check spawns exactly one error task with the policy's message when the answer is truthy (a non-empty message), and nothing when it is `None` or empty |
| `NzbTickFacts.CheckFollowUps` | bot/helper/listeners/nzb_listener.py:72-107 | the two policies consulted for one job spawn one error task per refusing policy, each naming the job with a non-empty message |
| `NzbTickFacts.TickPolicyErrors` | bot/helper/listeners/nzb_listener.py:162-169 | every error task the policies spawn after a tick concerns a job whose flag was clear before the tick and set by it |
| `NzbTickFacts.HistoryPassRecord` | bot/helper/listeners/nzb_listener.py:135-157 | a history pass changes a record only when a `Completed` slot meets a record that is not uploaded, and then sets exactly `uploaded` and `status := "Completed"`; `Failed` and progress slots never change a record |
| `NzbTickFacts.HistoryPassActions` | bot/helper/listeners/nzb_listener.py:131-157 | history actions are only Complete, Error and ChangeStatus, each for a tracked job and backed by a slot with that status (and message) |
| `NzbTickFacts.HistoryCompletions` | bot/helper/listeners/nzb_listener.py:135-139 | `Complete(id)` is emitted once if a `Completed` slot meets a tracked, not-yet-uploaded record, and otherwise not at all, however many `Completed` slots there are |
| `NzbTickFacts.HistoryErrors` | bot/helper/listeners/nzb_listener.py:140-144 | the Error actions of a history pass are exactly the `Failed` slots of tracked jobs with their messages, in snapshot order, whatever the records hold |
| `NzbTickFacts.HistoryPassWellFormed` | bot/helper/listeners/nzb_listener.py:135-139 | a history pass keeps `status == (uploaded ? "Completed" : "Downloading")` for every record |
| `NzbTickFacts.HistoryStepChange` | bot/helper/listeners/nzb_listener.py:145-157 | for well-formed records, one history slot emits a ChangeStatus exactly when it is a progress status of a tracked job |
| `NzbTickFacts.HistoryStatusChanges` | bot/helper/listeners/nzb_listener.py:145-157 | for well-formed records, the ChangeStatus actions are exactly the progress slots of tracked jobs, in snapshot order |
| `NzbTickFacts.EqualStatusSilent` | bot/helper/listeners/nzb_listener.py:153-157 | a progress slot whose status equals the stored status emits nothing, as long as no `Completed` slot has changed the stored status |
| `NzbTickFacts.QueuePassRecord` | bot/helper/listeners/nzb_listener.py:162-167 | a queue pass changes a record only by setting `stopDupCheck`, exactly when a slot that is downloading under a non-"Trying" name meets a record whose flag is clear |
| `NzbTickFacts.QueuePassPairs` | bot/helper/listeners/nzb_listener.py:167-169 | the queue's actions are a run of `DupCheck(x)` immediately followed by `SizeCheck(x)` |
| `NzbTickFacts.QueuePassActions` | bot/helper/listeners/nzb_listener.py:158-169 | every queue action is a DupCheck or SizeCheck for a tracked job that has a triggering slot |
| `NzbTickFacts.QueueChecks` | bot/helper/listeners/nzb_listener.py:162-169 | `DupCheck(id)` and `SizeCheck(id)` are each emitted once if a triggering slot meets a tracked record with its flag clear, and otherwise not at all |
| `NzbTickFacts.TickRecord` | bot/helper/listeners/nzb_listener.py:131-169 | after a tick a record has `uploaded` set iff it was set or a `Completed` slot was seen; `stopDupCheck` set iff it was set or a triggering slot was seen; the status changes only to "Completed", together with `uploaded` |
| `NzbTickFacts.TickWellFormed` | bot/helper/listeners/nzb_listener.py:131-169 | a tick keeps every record well formed |
| `NzbTickFacts.TickActionsTracked` | bot/helper/listeners/nzb_listener.py:131-161 | every action of a tick names a job that is in the registry |
| `NzbTickFacts.TickActionOrder` | bot/helper/listeners/nzb_listener.py:131-169 | all history actions come before the queue's DupCheck/SizeCheck pairs |
| `NzbTickFacts.TickCompletions` | bot/helper/listeners/nzb_listener.py:135-139 | a tick emits `Complete(id)` once exactly when it marks a tracked job uploaded, and otherwise not at all |
| `NzbTickFacts.TickChecks` | bot/helper/listeners/nzb_listener.py:162-169 | a tick emits `DupCheck(id)` and `SizeCheck(id)` once each exactly when it sets the job's `stopDupCheck`, and otherwise not at all |
| `NzbTickFacts.TickErrors` | bot/helper/listeners/nzb_listener.py:140-144 | the Error actions of a tick are exactly the `Failed` slots of tracked jobs with their messages, in snapshot order |
| `NzbTickFacts.TickFailedReported` | bot/helper/listeners/nzb_listener.py:140-144 | every tick that sees a `Failed` slot of a tracked job emits its Error, with no gate |
| `NzbTickFacts.TickStatusChanges` | bot/helper/listeners/nzb_listener.py:145-157 | from well-formed records, the ChangeStatus actions of a tick are exactly its progress slots of tracked jobs, on every tick |
| `NzbTickFacts.TickIgnoresUntracked` | bot/helper/listeners/nzb_listener.py:131-161 | dropping the slots of untracked ids from both snapshots changes neither the new registry nor the actions |
| `NzbTrace.CompletionBudget` | bot/helper/listeners/nzb_listener.py:135-139 | over any interleaving of registrations, ticks and removals, the completions of a job plus one if one is still pending never exceed its registrations plus one if one was pending |
| `NzbTrace.CheckBudget` | bot/helper/listeners/nzb_listener.py:162-169 | the same budget for the duplicate check and for the size check |
| `NzbTrace.CompletesOncePerRegistration` | bot/helper/listeners/nzb_listener.py:135-139 | between one registration of a job and the next, `Complete(id)` is emitted at most once |
| `NzbTrace.ChecksOncePerRegistration` | bot/helper/listeners/nzb_listener.py:162-169 | between one registration of a job and the next, `DupCheck(id)` and `SizeCheck(id)` are each emitted at most once |
| `NzbTrace.NoCompletionAfterUpload` | bot/helper/listeners/nzb_listener.py:136-139 | once a record is uploaded, no later event sequence without a new registration emits its completion |
| `NzbTrace.UntrackedNeverProcessed` | bot/helper/listeners/nzb_listener.py:131-161 | a job that is absent and not registered again stays absent, and no later action names it |
| `NzbTrace.RunWellFormed` | bot/helper/listeners/nzb_listener.py:175-181 | every registry reachable from a well-formed one is well formed |
| `NzbTrace.CompletedJobTicks` | bot/helper/listeners/nzb_listener.py:131-169 | a "Trying..." name starts no check, a real name starts both checks once, `Completed` completes once and is not repeated |
| `NzbTrace.CompletedJobScenario` | bot/helper/listeners/nzb_listener.py:131-169 | register, placeholder name, real name, two `Completed` ticks and removal emit exactly DupCheck, SizeCheck, Complete and leave the registry empty |
| `NzbTrace.FailedJobScenario` | bot/helper/listeners/nzb_listener.py:140-144 | a `Failed` job emits its Error on both ticks before its removal, keeps its record unchanged, and after removal the next tick stops |
| `NzbListener.Listener.constructor` | bot/helper/listeners/nzb_listener.py:7-9 | the registry starts empty and no loop runs; `nzb_jobs` and `Intervals` are only imported here, and their initial values are set in the `bot` package, which is not part of this model |
| `NzbListener.Listener.OnDownloadStart` | bot/helper/listeners/nzb_listener.py:175-183 | the registry becomes `Register(old, id)`; the loop is started exactly when the flag was clear, and afterwards the flag is set |
| `NzbListener.Listener.Tick` | bot/helper/listeners/nzb_listener.py:124-169 | the new registry, the actions and the stop flag are those of `TickOutcome`; the loop flag is cleared exactly when the tick stops |
| `NzbListener.Listener.DispatchHistory` | bot/helper/listeners/nzb_listener.py:131-157 | the history loop leaves the registry and the actions of `HistoryPass` |
| `NzbListener.Listener.DispatchHistorySlot` | bot/helper/listeners/nzb_listener.py:132-157 | one iteration of the history loop |
| `NzbListener.Listener.DispatchQueue` | bot/helper/listeners/nzb_listener.py:158-169 | the queue loop leaves the registry and the actions of `QueuePass` |
| `NzbListener.Listener.DispatchQueueSlot` | bot/helper/listeners/nzb_listener.py:159-169 | one iteration of the queue loop |
| `NzbListener.Listener.LoopIteration` | bot/helper/listeners/nzb_listener.py:123-172 | with `stopAll` the loop exits and nothing changes, the loop flag included; a failed fetch changes nothing and the loop goes on; otherwise it is a tick |
| `NzbListener.Listener.RemoveJob` | bot/helper/listeners/nzb_listener.py:21-36 | deletes the history entry with files and the category; a forced job deletion is requested exactly when the history deletion failed; the id is evicted and nothing else changes |
| `NzbListener.Listener.OnDownloadErrorCleanup` | bot/helper/listeners/nzb_listener.py:44-61 | the calls of the removal plus a forced job deletion and a category deletion; the id is evicted |
| `NzbListener.Listener.OnDownloadCompleteCleanup` | bot/helper/listeners/nzb_listener.py:114-119 | with the shutdown flag set, no call and no change; otherwise the removal's exact calls (history and category deletion, then the forced job deletion iff the history deletion failed) and the eviction |
| `NzbListener.RegisterTwo` | bot/helper/listeners/nzb_listener.py:182-183 | two registrations in a row start the loop exactly once |

## Left out

- Scheduling is not modelled: the `@new_task` detached tasks, `gather`, `sleep(3)` and `bot_loop.create_task`. A spawned task is an emitted `Action`. Removals are separate events that may interleave with ticks in any order (`NzbTrace.Run`).
- `nzb_listener_lock` and `task_dict_lock` are not modelled. The model is sequential, so each tick and each eviction is atomic.
- The `sabnzbd_client` network calls are not modelled. The snapshots are inputs, the deletion requests are returned `ServiceCall` values, and whether `delete_history` succeeded is a boolean parameter.
- The category key is the already formatted string `f"{mid}"`, because the listener's `mid` belongs to a listener object outside this core.
- Task lookup and the listener callbacks are not modelled: `getTaskByGid`, `task.update()`, `listener.onDownloadError`, `listener.onDownloadComplete` and the `cstatus` write of `_change_status`. They act on foreign objects.
- The policy and helper code is not modelled: `stop_duplicate_check`, `limit_checker`, `speed_string_to_bytes`, `auto_delete_message` and `LOGGER`. Their code is not part of this model. A policy's answer (`None` or a message) is an input to `PolicyFollowUp`, and the interactive button is dropped.
- A tick that raises part-way (the `except Exception` at lines 170-171) is not modelled. Only a failed fetch is modelled, as a pass that changes nothing (`Listener.LoopIteration`).
- Nothing checks that the loop actually runs when `loopRunning` is set. The flag is modelled, the background task is not.
- `NzbTrace.Run` also allows ticks after the shutdown flag has stopped the loop. The proved properties are about every interleaving, so they cover more runs than the source can produce.
- OnDownloadErrorCleanup: the calls are listed in the order they appear in the `gather`. The source issues them concurrently, so their real order is not modelled.
- RemoveJob: `delete_history` and `delete_category` are listed in that order. The source issues them concurrently.
- RemoveJob, OnDownloadErrorCleanup, OnDownloadCompleteCleanup: a service call that raises (`delete_history` or `delete_category` in the `gather`, or the fallback `delete_job`) ends the removal before its eviction, and in the error task also skips the final eviction, so the record stays and the next tick reports its `Failed` slot again. The model has no exception path: each removal always evicts the record.
