# k8s-leader-elector, modelled in Dafny

A model of the leader-election core of k8s-leader-elector and proofs about it.
The system lets one replica of a Kubernetes deployment act as leader and makes
that visible on the pods.

- The Java service holds a distributed lock. `ElectorService` acquires it,
  renews it on a fixed-rate refresh task, and hands it back when renewal
  fails.
- On each transition the service calls `LockCallbacks`. On acquisition, this
  reflector labels each pod that the `app=<appName>` listing in its namespace
  returns: its own pod, if listed, `labelKey=true`, and every other listed
  pod `labelKey=false`. Pods the listing misses are not touched. On loss, it
  labels its own pod non-leader.
- `ElectorProperties` is the service's validated configuration.
- The Go sidecar (`cmd/k8s-leader-elector/main.go`) does the same job on top
  of a Kubernetes Lease:
  - when it starts leading, it labels its own pod, strips the leader label
    from every pod carrying it except the Lease holder, its own pod
    included, and records itself as
    `leaderPod` in a ConfigMap;
  - when it stops leading, it deletes the label from its own pod and sets
    `leaderPod` to "". Other pods are not relabelled.

Every call to Redis and to the Kubernetes API is replaced by an outcome
parameter: succeeded, failed, or threw. The exception is `unlock`, whose
failures are swallowed, so it has no outcome parameter. The executor calls (`submit`,
`scheduleAtFixedRate`) appear as events in the trace; of the executor's own
behaviour only one thing is modelled: `scheduleAtFixedRate` rejects a period
that is not positive. Each runnable is one atomic step that returns a new
state and the ordered trace of calls it made.

Modules:

- `Wrappers` (wrappers.dfy): `Option` and `Result`.
- `Labels` (labels.dfy): label maps, pods as a map from name to labels, and
  the JSON Merge Patch of section 2 of RFC 7386 on a flat string object.
- `Properties` (properties.dfy): `ElectorProperties`, its defaults, getters
  and setters, and Bean Validation as `Validate(props): set<Field>`.
  Durations are `java.time.Duration` values as Java stores them: whole
  seconds, possibly negative, plus nanoseconds.
- `Callbacks` (callbacks.dfy): `LockCallbacks`.
- `Elector` (elector.dfy): `ElectorService`. The state is `running`, the
  optional lock handle and the optional refresh future with its `cancelled`
  bit. The steps are `Start`, `Stop`, `OnDestroy`, one pass of `lockLoop`
  (`LockLoopPass`) and one refresh tick (`RefreshLock`). `Run` interleaves
  steps in any order.
- `Sidecar` (sidecar.dfy): `getLeaseHolder`, `cleanupToLeaseHolder`, the
  label patches, the leader-info ConfigMap create-or-update, and the two
  leader-election callbacks.

## Behaviour worth knowing

These follow from the code as written (ElectorService.java unless named):

- `start()` has no guard (lines 36-41). A second call submits a second
  acquisition loop (`Elector.StartIsNotIdempotent`).
- When `onLockAcquired` throws (line 84), the exception is caught by the
  generic handler at lines 97-99. The lock is not released and no refresh
  task is scheduled. The loop goes round and calls `tryLock` again
  (`Elector.LockLoopPass`, `Elector.ListingFailureKeepsLock`).
- `stop()` (lines 43-60) never calls `onLockLost`, even when the service was
  leading. So a cleanly stopped leader keeps `labelKey=true` on its pod.
- The lock field is assigned from `obtain` at line 78, before `tryLock`
  succeeds, and nothing clears it. `releaseLockIfHeld` (lines 152-161)
  unlocks whenever the field is set, so `stop()` calls `unlock` whenever a
  handle was ever obtained, and a second `stop()` calls it again
  (`Elector.StopTwice`).
- `tryLock` receives the retry period as its wait and the lease duration as
  its expiry (lines 79-80).
- The refresh task is scheduled with `getRenewDeadline().getSeconds()` as
  both delay and period (lines 108-111), so a fractional part is dropped. A
  renew deadline under one second, zero or negative gives a period the
  scheduler rejects. The rejection is thrown after the callback ran and the
  old task was cancelled, and the generic handler at lines 97-99 sends the
  loop round. The leader then runs `onLockAcquired` again on every pass and
  never gets a refresh task (`Elector.RejectedPeriodSpins`).
- No constraint relates or bounds the durations (ElectorProperties.java:24-31):
  any non-null durations bind (`Properties.NoDurationOrdering`).
- The service's unit tests describe a different call shape from
  ElectorService.java: an injected `TaskScheduler` passed to the constructor
  (ElectorServiceTest.java:47), `tryLock(5, SECONDS)` (ElectorServiceTest.java:83)
  and re-scheduling after a failed attempt (ElectorServiceTest.java:123). The
  model follows ElectorService.java: its own executor and a `while (running)`
  loop.

`@NotBlank` is modelled the way the standard validator implements it: a string
is blank when `String.trim()` leaves nothing, that is, when every character
is at or below U+0020.

## Model

| member | source | states |
|---|---|---|
| `Properties.Defaults` | src/main/java/io/jaredbrown/k8s/leader/elector/ElectorProperties.java:24-31 | a new record has the three strings unset and durations of exactly 120 s, 60 s and 5 s |
| `Properties.Get` | src/main/java/io/jaredbrown/k8s/leader/elector/ElectorProperties.java:11-31 | each getter returns a value of its property's type |
| `Properties.Set` | src/main/java/io/jaredbrown/k8s/leader/elector/ElectorProperties.java:11-31 | after a setter, its getter returns the value set and every other getter returns what it did before |
| `Properties.SetLastWins` | src/main/java/io/jaredbrown/k8s/leader/elector/ElectorProperties.java:11-31 | setting a property twice keeps only the second value, and setters of different properties commute |
| `Properties.Validate` | src/main/java/io/jaredbrown/k8s/leader/elector/ElectorProperties.java:15-31 | a field is in the violation set exactly when its own constraint, read through its getter, fails: not blank for the three strings, not null for the three durations |
| `Properties.ViolationCases` | src/main/java/io/jaredbrown/k8s/leader/elector/ElectorProperties.java:15-31 | `labelKey`, `lockName` and `appName` are each reported exactly when null, empty or made only of characters `trim()` removes; each duration exactly when null |
| `Properties.ValidationIsPerField` | src/main/java/io/jaredbrown/k8s/leader/elector/ElectorProperties.java:15-31 | setting one property changes the verdict on that property only |
| `Properties.DefaultsNeedOnlyTheStrings` | src/main/java/io/jaredbrown/k8s/leader/elector/ElectorProperties.java:15-31 | a new record is missing exactly the three strings; with three non-blank strings it is valid |
| `Properties.Bind` | src/main/java/io/jaredbrown/k8s/leader/elector/ElectorProperties.java:15-31 | a configuration exists exactly when the violation set is empty, and it carries the record's values |
| `Properties.NoDurationOrdering` | src/main/java/io/jaredbrown/k8s/leader/elector/ElectorProperties.java:24-31 | with three non-blank strings, every choice of non-null durations binds, whatever their order or sign |
| `Labels.MergePatch` | cmd/k8s-leader-elector/main.go:82-83 | section 2 of RFC 7386 on a flat object: a `null` member removes its key, a string member sets it, and keys the patch does not name keep their presence and value |
| `Labels.MergePatchNullDeletes` | cmd/k8s-leader-elector/main.go:134-135 | a merge patch with a `null` label member deletes exactly that key |
| `Labels.MergePatchValuePuts` | cmd/k8s-leader-elector/main.go:82-83 | a merge patch with a string label member sets exactly that key |
| `Callbacks.UpdatePodLeaderLabel` | src/main/java/io/jaredbrown/k8s/leader/elector/LockCallbacks.java:53-69 | one pod's `labelKey` is set to "true" or "false" with its other labels kept, unless its write fails, in which case it is unchanged; no other pod changes |
| `Callbacks.UpdateAll` | src/main/java/io/jaredbrown/k8s/leader/elector/LockCallbacks.java:37-42 | after the loop, each listed pod whose write succeeds has `labelKey` = "true" if it is self and "false" otherwise, with its other labels kept; every other pod, listed or not, is unchanged |
| `Callbacks.OnLockAcquired` | src/main/java/io/jaredbrown/k8s/leader/elector/LockCallbacks.java:24-51 | the `app=<appName>` listing in the client namespace comes first; then one write per listed pod, in listing order, with "true" for self and "false" for the rest; a failed listing raises `IllegalState` with the message "Failed to update leader labels on lock acquisition" and its cause, and writes nothing; one pod's failed write leaves the others' in place |
| `Callbacks.OnLockLost` | src/main/java/io/jaredbrown/k8s/leader/elector/LockCallbacks.java:71-75 | one write only, `labelKey` = "false" on self; no other pod is touched and nothing is raised on failure |
| `Callbacks.SelfLabelledOnlyWhenListed` | src/main/java/io/jaredbrown/k8s/leader/elector/LockCallbacks.java:37-42 | self is marked leader only if the listing names it; otherwise self is left as it was |
| `Callbacks.UpdateAllIdempotent` | src/main/java/io/jaredbrown/k8s/leader/elector/LockCallbacks.java:37-42 | running the label loop twice over the same listing and failures gives the same labels as running it once |
| `Callbacks.AcquireIdempotent` | src/main/java/io/jaredbrown/k8s/leader/elector/LockCallbacks.java:24-51 | running the acquisition twice over the same listing and failures gives the same labels as running it once |
| `Elector.IsRunning` | src/main/java/io/jaredbrown/k8s/leader/elector/ElectorService.java:62-65 | the answer is the `running` flag |
| `Elector.RunningFollowsLifecycle` | src/main/java/io/jaredbrown/k8s/leader/elector/ElectorService.java:36-71 | after any interleaving, the service is running exactly when the last `start`/`stop`/`onDestroy` was a `start`, or none was made and it was running before; no other step touches the flag |
| `Elector.Start` | src/main/java/io/jaredbrown/k8s/leader/elector/ElectorService.java:36-41 | afterwards the service is running, lock and refresh task untouched, and exactly one loop has been submitted |
| `Elector.StartIsNotIdempotent` | src/main/java/io/jaredbrown/k8s/leader/elector/ElectorService.java:36-41 | a second start changes no field but submits a second loop |
| `Elector.CancelRefreshTask` | src/main/java/io/jaredbrown/k8s/leader/elector/ElectorService.java:145-150 | the field is cleared, and `cancel` is called once exactly when a task was present and not yet cancelled, and nothing else is called |
| `Elector.CancelIdempotent` | src/main/java/io/jaredbrown/k8s/leader/elector/ElectorService.java:145-150 | a second cancel makes no call and changes nothing |
| `Elector.ReleaseLockIfHeld` | src/main/java/io/jaredbrown/k8s/leader/elector/ElectorService.java:152-161 | no field changes; `unlock` is called once exactly when a handle was ever obtained, and nothing else is called |
| `Elector.Stop` | src/main/java/io/jaredbrown/k8s/leader/elector/ElectorService.java:43-60 | not running and no refresh task afterwards; cancel only a live task, then unlock exactly when a handle was ever obtained; no loss report and no other call |
| `Elector.OnDestroy` | src/main/java/io/jaredbrown/k8s/leader/elector/ElectorService.java:67-71 | the same guarantees as `stop`: not running, no refresh task, cancel only a live task before unlocking exactly when a handle exists, no loss report and no other call |
| `Elector.StopTwice` | src/main/java/io/jaredbrown/k8s/leader/elector/ElectorService.java:43-60 | a second stop cancels nothing and reports no loss, but calls `unlock` again when a handle was ever obtained |
| `Elector.ScheduleRefreshTask` | src/main/java/io/jaredbrown/k8s/leader/elector/ElectorService.java:105-112 | the old task is cancelled before the new one is scheduled with delay and period equal to the renew deadline's whole seconds; when those are not positive the scheduler rejects the call and the field stays cleared |
| `Elector.HandleLockLost` | src/main/java/io/jaredbrown/k8s/leader/elector/ElectorService.java:132-143 | in order: cancel (once, only if live), unlock (once, only if a handle exists), report the loss exactly once, resubmit the loop exactly when running; nothing else |
| `Elector.RefreshLock` | src/main/java/io/jaredbrown/k8s/leader/elector/ElectorService.java:114-128 | a successful renewal calls `renewLock(lockName, leaseDuration)` and changes no field; a failed renewal, or a tick while not running (without renewing), is the loss handling |
| `Elector.LockLoopPass` | src/main/java/io/jaredbrown/k8s/leader/elector/ElectorService.java:74-101 | when not running, nothing happens and the loop ends; the callback runs exactly when `tryLock` succeeds; a throwing `obtain` calls only `obtain` and keeps the old handle; otherwise the handle is stored before `tryLock(retryPeriod, leaseDuration)`; a failed or throwing `tryLock` goes round, an interrupt ends the loop, both after exactly those two calls; a throwing callback goes round with no refresh task; clean success cancels the old task and schedules one, ending the loop unless the scheduler rejects the period; nothing is ever released |
| `Elector.LockLoop` | src/main/java/io/jaredbrown/k8s/leader/elector/ElectorService.java:74-101 | the loop goes round until the first interrupt or clean success with an accepted period; it never releases, reports a loss or resubmits; with an accepted period a refresh task is scheduled only as its last call, exactly when it ended by a clean success |
| `Elector.LockLoopCallbacks` | src/main/java/io/jaredbrown/k8s/leader/elector/ElectorService.java:74-101 | the callback runs once per successful `tryLock` among the attempts the loop uses up; with a rejected period the refresh field ends cleared once a clean acquisition happened |
| `Elector.RejectedPeriodSpins` | src/main/java/io/jaredbrown/k8s/leader/elector/ElectorService.java:105-112 | with a renew deadline under one second, without an interrupt the loop never returns and runs the callback once per successful `tryLock`, and no refresh task remains |
| `Elector.ListingFailureKeepsLock` | src/main/java/io/jaredbrown/k8s/leader/elector/ElectorService.java:82-99 | when the reflector's listing fails, the acquiring pass keeps the lock, schedules no refresh task and goes round |
| `Elector.AtMostOneRefreshTask` | src/main/java/io/jaredbrown/k8s/leader/elector/ElectorService.java:105-150 | under any interleaving of steps, at most one uncancelled refresh task exists at every point of the trace, and no cancel targets a task that does not exist |
| `Elector.RunKeepsHandle` | src/main/java/io/jaredbrown/k8s/leader/elector/ElectorService.java:152-161 | a handle once obtained is never dropped, and a refresh task exists only once a handle has been obtained |
| `Elector.RenewalFailureScenario` | src/main/java/io/jaredbrown/k8s/leader/elector/ElectorService.java:114-143 | start, acquire, failed renewal gives submit, obtain, tryLock, callback, schedule, renew, cancel, unlock, loss report, resubmit |
| `Sidecar.GetLeaseHolder` | cmd/k8s-leader-elector/main.go:172-181 | read errors propagate; a Lease without holder identity yields "" |
| `Sidecar.Cleanup` | cmd/k8s-leader-elector/main.go:184-207 | no pod appears or disappears; a failed holder read or listing changes nothing; a pod carrying `labelKey=labelValue` that is not the holder loses `labelKey` unless its own patch fails; every other pod is unchanged |
| `Sidecar.CleanupToLeaseHolder` | cmd/k8s-leader-elector/main.go:184-207 | the loop's result is the per-pod rule of `Cleanup`, and it patches exactly the stale pods |
| `Sidecar.HolderKeepsLabels` | cmd/k8s-leader-elector/main.go:196-199 | the holder's pod is never patched |
| `Sidecar.NoHolderUnlabelsAll` | cmd/k8s-leader-elector/main.go:177-201 | with no holder recorded, every labelled pod whose patch succeeds loses the label |
| `Sidecar.CleanupLeavesOnlyHolder` | cmd/k8s-leader-elector/main.go:184-207 | after a cleanup whose calls all succeed, only the holder can carry `labelKey=labelValue` |
| `Sidecar.LeaderInfoWrite` | cmd/k8s-leader-elector/main.go:105-130 | a failed get creates a map holding only `leaderPod`; otherwise the found map is updated, nil data initialised, `leaderPod` set and every other key kept |
| `Sidecar.PublishLeader` | cmd/k8s-leader-elector/main.go:105-130 | a missing map is created holding only the leader; an existing map gains `leaderPod` and keeps its other keys; a failed write, or a failed get on an existing map (whose create is refused), leaves the map as it was |
| `Sidecar.PatchSelf` | cmd/k8s-leader-elector/main.go:82-86 | own pod's labels are merge-patched when it exists and the patch succeeds; otherwise nothing changes; no other pod is touched |
| `Sidecar.OnStartedLeading` | cmd/k8s-leader-elector/main.go:80-131 | own pod gets `labelKey=labelValue` and loses it again only when the cleanup finds it stale; every other pod only goes through the cleanup; the ConfigMap names this pod unless its write fails or a create is refused; a created map is named after the leader-info flag, an updated one keeps its name and every other key |
| `Sidecar.StartedLeadingMarksOnlySelf` | cmd/k8s-leader-elector/main.go:80-131 | starting to lead while the Lease names this pod, with every call succeeding, leaves this pod the only one with `labelKey=labelValue` and the ConfigMap naming it |
| `Sidecar.StartedLeadingWithoutHolderUnlabelsSelf` | cmd/k8s-leader-elector/main.go:82-89 | if the cleanup reads no holder, it strips the label this pod has just set on itself |
| `Sidecar.OnStoppedLeading` | cmd/k8s-leader-elector/main.go:132-166 | own pod loses `labelKey` unless its patch fails; no other pod changes; the ConfigMap's `leaderPod` becomes "" unless its write fails or a create is refused; a created map is named after the leader-info flag, an updated one keeps its name and every other key |
| `Sidecar.StoppedLeadingClearsSelf` | cmd/k8s-leader-elector/main.go:132-166 | stopping with every call succeeding deletes `labelKey` from this pod only, and the ConfigMap's `leaderPod` becomes "" |

## Left out

- Label syntax. main.go pastes `labelKey` and `labelValue` unescaped into
  the merge-patch JSON (lines 82, 134, 200) and into the selector string
  (line 190). The model treats them as opaque strings, which is faithful only
  for valid Kubernetes label keys and values: those need no JSON escaping and
  hold no selector operators. A key such as `a":"x","b` would make the
  patch set two labels, which the model cannot express.
- The executor thread, `shutdown`, `awaitTermination`, `shutdownNow` and the
  thread's interrupt flag (ElectorService.java:27-31, 49-59, 92-94). Each
  runnable is one atomic step. Interleavings are any sequence of steps
  (`Elector.Run`). The executor's own cancellation of tasks on shutdown
  appears only as the `cancelled` bit a refresh future may already carry.
- A `RejectedExecutionException` from scheduling after shutdown. It needs
  the executor's shutdown state, which is left out.
- The Redis lock's semantics and mutual exclusion between replicas.
  `RedisLockRegistry` is not part of this model. `obtain`, `tryLock`,
  `renewLock` and `unlock` are outcome parameters or trace events.
- Unlock failures. They are swallowed (ElectorService.java:158-160), so the
  release step has no failure outcome.
- `getPhase` and all logging.
- Spring wiring and bootstrap: the configuration classes, both
  `LeaderLabelerApp` classes and both `LeadershipService` classes. Their
  election is done by the Kubernetes client's `LeaderElector`, which is not
  part of this model.
- In main.go: flag parsing, `mustEnv`, client construction and `RunOrDie`
  (lines 21-79), which are bootstrap; and the 5-second re-cleanup goroutine
  (lines 92-103), which is concurrency.
- The HTTP calls of Fabric8 and client-go. They are outcome parameters: a
  listing result and sets of pods whose writes fail. A write to a pod that
  no longer exists fails like any other write.
- The pods' label selection (`app=<appName>`) on the API server side.
  `Callbacks.OnLockAcquired` receives the listing as given. It records the
  selector it asked for in its trace.
- Time. Durations are exact values handed on as they are; nothing about
  timing, delays, clock reads or lease expiry is modelled.
- Overflow of `Duration` seconds beyond Java's `long`. Seconds are unbounded
  integers, and only a non-positive period matters to the code.
