# angularFromScratch scopes in Dafny

This project models the dirty-checking core of the angularFromScratch
`Scope` (`src/scope.js`) and proves properties of that model. A scope holds
a list of watchers. Each watcher pairs a watch function with a listener and
remembers the last value it saw. `$digest` runs passes over that list:
- each pass calls a listener whenever its watch value changed;
- passes repeat until one comes back clean, or throw after the time-to-live
  runs out.

Around this loop sit three queues and a guard:
- `$evalAsync` work, drained before every pass;
- the `$applyAsync` batch, flushed at the start of a digest or by its own
  timer;
- the `$$postDigest` queue, drained once at the end;
- the phase guard, which stops a digest or `$apply` from starting inside
  another one.

Modules, one per concern of the source:

- `Values` (`values.dfy`): watched values. It has an explicit NaN, and arrays
  carry a reference so that identity (`===`) and deep equality differ. It
  also holds `$$areEqual`.
- `ScopeState` (`state.dfy`): the watcher record, the scope record, and the
  ways an entry point can end (`Exit`: normal, abrupt with a `Fault`, or
  `Hang`).
- `Registry` (`registry.dfy`): `$watch` and the deregistration function it
  returns.
- `Queues` (`queues.dfy`): `$eval`, `$evalAsync`, `$applyAsync`,
  `$$postDigest`, `$$flushApplyAsync`, and the queue drains.
- `DigestPass` (`pass.dfy`): one `$$digestOnce` pass, including the
  short-circuit at the last dirty watcher.
- `DigestCycle` (`digest.dfy`): the digest loop with its TTL, `$digest`,
  `$beginPhase`/`$clearPhase`, `$apply`, and the two timer callbacks.
- `Convergence` (`convergence.dfy`): what a digest achieves.
- `Scenarios` (`scenarios.dfy`): two concrete scopes.
  - Two watchers that keep changing each other exhaust the TTL.
  - The stale last-dirty marker ends a digest too early (see Findings).

How callbacks are represented:
- The scope's open-ended property bag is a `map<string, Value>`.
- A watch function is a pure function of the bag that returns a value or
  throws.
- A listener or queued task maps the bag to an `Effect`: the new bag, the
  `$evalAsync`/`$applyAsync`/`$$postDigest` calls it made, and whether it
  returned or threw.

Host timers are counters:
- `pendingDigests` counts the digest timers `$evalAsync` has set.
- `applyAsyncPending` stands for a non-null `$$applyAsyncId`.
- A timer firing is its own operation (`FireDigestTimer`, `FireApplyTimer`).

A queue whose tasks keep refilling it makes the source loop forever. Drains
therefore take a `fuel` bound, and running out of it is reported as `Hang`.
`Hang` also covers a drain that would finish but needs more tasks than
`fuel`; more fuel never changes a drain that finishes
(`Queues.DrainFuelMonotone`).

`$digest` as the source writes it keeps the last dirty watcher across the
async drain, which can end a digest early (see Findings). `DigestWith`
takes a `resetDirty` flag:
- `false` is the source's `$digest` (`DigestAsWritten`);
- `true` is the corrected digest (`Digest`), which forgets the marker after
  each async task.
`$apply` and both timer callbacks take the same flag and pass it on, so
with `false` they model the source as written.

## Model

| member | source | states |
|---|---|---|
| Values.AreEqual | src/scope.js:108-115 | The sentinel never equals a value. Two NaNs are equal in both modes, and NaN against a non-NaN never is. Without `valueEq`, a non-array is equal exactly when it is the same value and an array exactly when it is the same reference. With `valueEq`, it is equal exactly when the two are structurally equal (`DeepEqual`). |
| Values.DeepEqualIffSameErasure | src/scope.js:109-110 | Deep equality (the `valueEq` mode) holds exactly when the two values are the same once array identities are erased. |
| Values.DeepEqualIsEquivalence | src/scope.js:109-110 | Deep equality is reflexive, symmetric and transitive. |
| Values.StoredValueIsUnchanged | src/scope.js:54-56 | A value stored as `last` compares equal to itself in either mode, so an unchanged watch value does not fire again. |
| Values.InPlacePushSeenOnlyByDeepEquality | src/scope.js:108-115 | Pushing onto an array in place is not a change under the identity rule but is one under the deep rule. |
| ScopeState.NewScope | src/scope.js:13-21 | A new scope has no watchers, no last dirty watcher, empty queues, no phase and no timers set. |
| ScopeState.IndexOf | src/scope.js:37 | The result is -1 exactly when no watcher has the identity; otherwise it is the first position holding it. |
| ScopeState.IndexOfUnique | src/scope.js:37 | With unique identities, `indexOf` finds a watcher at its own position. |
| Registry.Watch | src/scope.js:25-34 | The new watcher sits at index 0 and the old list follows unchanged. It has the sentinel as `last` and `!!valueEq` as its mode, and a missing listener becomes a no-op. The last dirty watcher is cleared, nothing else changes, and the returned identity is fresh. |
| Registry.Deregister | src/scope.js:36-42 | It removes exactly the watchers with that identity and keeps the others in order. When the watcher is present, the list shrinks by one and the last dirty watcher is cleared. When it is absent, the scope is unchanged. |
| Registry.RemoveFirstIsWithout | src/scope.js:37-39 | With unique identities, splicing out the `indexOf` position is the same as filtering out that identity. |
| Registry.DeregisterIsIdempotent | src/scope.js:36-42 | Calling a deregistration function twice has the effect of calling it once. |
| Registry.WatchThenDeregister | src/scope.js:25-42 | Registering and then deregistering leaves the watcher list as it was, with no last dirty watcher. |
| Queues.EvalAsync | src/scope.js:131-141 | The task is appended. A digest timer is set exactly when no phase is active and the queue was empty, and nothing else changes. |
| Queues.EvalAsyncCoalesces | src/scope.js:131-141 | A burst of `$evalAsync` calls queues the tasks in call order. It sets one timer if the first call found no phase and an empty queue, and none otherwise. |
| Queues.ApplyAsync | src/scope.js:168-184 | The task is appended and a flush is pending afterwards; nothing else changes. |
| Queues.ApplyAsyncCoalesces | src/scope.js:179-183 | A burst of `$applyAsync` calls queues the tasks in call order. It sets at most one flush timer, and none when one was already set. |
| Queues.PostDigest | src/scope.js:186-188 | The function is appended to the post-digest queue and nothing else changes. |
| Queues.Eval | src/scope.js:117-119 | The expression's effect on the bag and its queueing calls are kept, and its outcome is returned. Watchers, marker and phase are untouched. |
| Queues.Drain | src/scope.js:82-89 | An empty queue is left alone, and a drain that finishes leaves the queue empty. Watchers and phase are untouched. The last dirty watcher is kept, or cleared after each task in the corrected mode. |
| Queues.DrainRunsInOrder | src/scope.js:99-105 | When no queued task refills the queue, the drain finishes and the bag is what running the tasks first-in first-out gives. |
| Queues.PerformSetsTimers | src/scope.js:131-188 | A run of queueing calls sets a flush timer exactly when one of them is `$applyAsync` or one was set. It adds one digest timer exactly when one of them is `$evalAsync` and the first of those finds no phase and an empty async queue. |
| Queues.DrainFuelMonotone | src/scope.js:82-89 | Giving a drain that finishes more fuel does not change its result. |
| Queues.FlushApplyAsync | src/scope.js:154-163 | Once finished, the apply-async queue is empty and the flush id is cleared; watchers, marker and phase are untouched. |
| Queues.FlushRunsBatchInOrder | src/scope.js:154-163 | When no task of the batch calls `$applyAsync` again, the flush finishes and leaves the bag that running the batch first-in first-out gives. |
| DigestPass.Visit | src/scope.js:49-65 | A watch function that throws is skipped and nothing changes. A changed value marks the watcher dirty, stores the value as `last`, and calls the listener with old = new on the first evaluation; the bag is what the listener left. An unchanged value touches nothing, and it is a short circuit exactly when the watcher is the last dirty one. The listener's queueing calls are stated by `DigestPass.VisitPerformsListenerCalls`. |
| DigestPass.VisitPerformsListenerCalls | src/scope.js:131-188 | When a listener fires, each task it queued is appended to the queue it was meant for, in call order. A flush timer is set exactly when it called `$applyAsync` or one was already set. A digest timer is added exactly when it called `$evalAsync` with no phase active and an empty async queue. |
| DigestPass.PassVisitsOldestFirst | src/scope.js:48 | The k-th watcher evaluated is the one at position length-1-k, so the oldest registration comes first. |
| DigestPass.PassStopsOnlyAtShortCircuit | src/scope.js:59-61 | A pass that ends before reaching index 0 ends at a short circuit. |
| DigestPass.ShortCircuitEndsPass | src/scope.js:59-61 | No step except the last one is a short circuit. |
| DigestPass.PassStepsAgree | src/scope.js:51-57 | Every step agrees with the watcher as it stood before the pass. A watcher never evaluated before fires unless its watch function throws, and then with old = new. |
| DigestPass.PassDirtyIff | src/scope.js:57-58 | A pass is dirty exactly when some listener it called returned normally. |
| DigestPass.DigestOnce | src/scope.js:45-68 | The pass keeps every registration in place, with only the remembered values changing. It keeps the phase and records at most one step per watcher. |
| DigestPass.DigestOnceScansOldestFirst | src/scope.js:45-68 | A pass visits watchers oldest first, stops before the newest only at a short circuit, and is dirty exactly when some listener returned normally. |
| DigestPass.FirstPassVisitsAll | src/scope.js:73 | With the marker cleared, as `$digest` does before its first pass, the pass visits every watcher. |
| DigestPass.QuietPassChangesNothing | src/scope.js:54-61 | A pass that fires no listener leaves the scope unchanged. Every watcher it visited is settled, and a short circuit happens only at the marked watcher. |
| DigestPass.FiringPassRunsToTheEnd | src/scope.js:55-60 | Once a listener has fired, the pass cannot short-circuit, because the marker now points at a watcher already visited. |
| DigestPass.PassKeepsMarkSound | src/scope.js:45-68 | After a pass, every watcher newer than the last dirty one, which a pass evaluates after it, is settled. |
| DigestPass.PassKeepsQueue | src/scope.js:45-68 | When no listener adds work to a queue, a pass leaves that queue as it found it. |
| DigestPass.CleanPassSettlesAll | src/scope.js:57-61 | If listeners return normally and the marker is sound, a clean pass changes nothing and leaves every watcher settled. |
| DigestCycle.Message | src/scope.js:94 | The TTL fault throws `'10 digest iterations reached.'`. A busy phase throws `'<phase> already in progress.'`. A thrown error is passed on unchanged. |
| DigestCycle.BeginPhase | src/scope.js:143-148 | It succeeds exactly when no phase is active, and then sets the phase. |
| DigestCycle.ClearPhase | src/scope.js:150-152 | The phase is cleared and nothing else changes. |
| DigestCycle.ClearPhaseUndoesBeginPhase | src/scope.js:143-152 | On an idle scope, entering a phase succeeds, and clearing it gives the scope back unchanged. |
| DigestCycle.Loop | src/scope.js:81-96 | The loop ends normally, with the TTL fault, or hangs. A normal end has an empty async queue, keeps the phase, and took 1 to ttl+1 passes. The TTL fault comes on pass ttl+1 with the phase cleared. Watchers keep their order. |
| DigestCycle.BusyRoundsExhaustTtl | src/scope.js:80-96 | If ttl+1 rounds in a row each finish their async drain and then leave the pass dirty or async work queued again, the loop throws the TTL fault on pass ttl+1. |
| DigestCycle.Settle | src/scope.js:96-105 | A normal end has an empty post-digest queue. A loop that throws or hangs leaves the post-digest queue exactly as the loop left it, unrun. A loop that throws leaves the TTL fault. The phase ends cleared. |
| DigestCycle.SettleRunsPostDigestInOrder | src/scope.js:97-105 | After a loop that ends normally, the post-digest tasks run first-in first-out on the bag the loop left, when none of them calls `$$postDigest` again. |
| DigestCycle.DigestWithoutPendingFlush | src/scope.js:73-79 | With no flush pending, a digest clears the marker, enters the `$digest` phase and goes straight to the loop. |
| DigestCycle.DigestFlushesBatchFirst | src/scope.js:73-79 | With a flush pending, a digest first runs the whole `$applyAsync` batch first-in first-out and clears the flush timer, and only then starts the loop, with the marker cleared. |
| DigestCycle.DigestAsWritten | src/scope.js:70-106 | The source's `$digest`. If a phase is active, it throws busy with only the marker cleared. Otherwise it ends normally with `undefined`, throws the TTL fault, or hangs, and the phase ends cleared. A normal end has an empty post-digest queue, and the watchers keep their order. |
| DigestCycle.Digest | src/scope.js:70-106 | The corrected `$digest`, with the same contract. If a phase is active, it throws busy with only the marker cleared. Otherwise it ends normally with `undefined`, throws the TTL fault, or hangs, and the phase ends cleared. A normal end has an empty post-digest queue, and the watchers keep their order. |
| DigestCycle.ApplyFinally | src/scope.js:125-128 | Whatever the body did, the phase is cleared and the scope is digested: the result's scope is the digest's. A digest that does not end normally replaces the body's result; otherwise the body's return or throw stands. |
| DigestCycle.Apply | src/scope.js:121-129 | A normal end returns the expression's value. A busy phase ends with the busy fault, and a throwing expression with its error, unless the digest in the `finally` block threw TTL. Unless that digest threw, the post-digest queue ends empty, also after a throw or a busy phase. The phase always ends cleared. |
| DigestCycle.ApplyEvalsThenDigests | src/scope.js:121-128 | On an idle scope, `$apply` is the expression run in the `$apply` phase, then a digest of what it left, whether it returned or threw. The digest's failure replaces the expression's result. |
| DigestCycle.ApplyWhenBusyStillDigests | src/scope.js:121-128 | Inside another phase, `$apply` still clears that phase and digests the scope, and then throws busy unless the digest failed. |
| DigestCycle.FireDigestTimer | src/scope.js:134-138 | With an empty async queue, the timer only counts itself down. Otherwise its result is exactly `$digest` of the scope with the timer counted down, and a normal end has an empty post-digest queue. |
| DigestCycle.EvalAsyncTimerDigests | src/scope.js:131-141 | A non-empty burst of `$evalAsync` calls on an idle scope with an empty queue sets one timer. When that timer fires, it runs `$digest` on the scope with the whole burst queued in call order, with the same marker handling as the digest it stands for. |
| DigestCycle.FireApplyTimer | src/scope.js:180-182 | It runs `$apply` of the flush. The phase ends cleared, and a normal end returns `undefined` with an empty post-digest queue. |
| DigestCycle.ApplyTimerFlushesThenDigests | src/scope.js:180-182 | On an idle scope, the flush timer runs the batch first-in first-out and clears the flush timer. It then digests a scope with no flush pending and reports that digest's failure, or `undefined`. |
| Convergence.LoopSettlesAll | src/scope.js:81-96 | With the marker reset after each async task, a loop that ends normally leaves every watcher settled. |
| Convergence.LoopWithoutAsyncWork | src/scope.js:81-96 | With nothing queued for `$evalAsync` and no listener that calls it, the loop as written and the corrected loop are the same. When no listener calls `$$postDigest` either, the loop leaves that queue alone. |
| Convergence.LoopAsWrittenSettlesAll | src/scope.js:81-96 | The loop as written, started with a sound marker and with no async work queued or ever queued by a listener, settles every watcher when it ends normally. |
| Convergence.DigestAsWrittenSettlesAll | src/scope.js:70-106 | The whole `$digest` as written, post-digest drain included, returns with every watcher settled. This needs nothing queued at the start and no listener that queues async or post-digest work. |
| Convergence.ApplyAsWrittenSettlesAll | src/scope.js:121-129 | `$apply` as written, of an expression that makes no queueing call, returns with every watcher settled under the same conditions. |
| Convergence.DigestLoopSettlesAll | src/scope.js:73-96 | Started as `$digest` starts it, with the marker cleared, the corrected loop settles every watcher when it ends normally. |
| Convergence.NewWatcherFiresOnFirstPass | src/scope.js:25-57 | After `$watch`, the next pass visits every watcher, and the new watcher comes last. Its step is either a firing with old value = new value or a throw from its watch function, and a watch function that never throws always fires. |
| Scenarios.PingPongExhaustsTtl | src/scope.js:71-95 | Two watchers that increment each other's property make the source's `$digest` throw `'10 digest iterations reached.'` after 11 passes, with the phase cleared. |
| Scenarios.StaleMarkEndsDigestEarly | src/scope.js:81-96 | As written, a digest can end normally while a watcher is not settled. |
| Scenarios.StaleMarkEndsApplyEarly | src/scope.js:121-129 | `$apply` digests with the source's `$digest`, so `$apply` of a no-op on the same scope also returns normally with the observer unsettled. |
| Scenarios.CorrectedDigestSettles | src/scope.js:81-96 | On the same scope, the corrected digest ends normally with every watcher settled. |

## Left out

- `locals` of `$eval` and the expression parser: expressions are Dafny functions, and `src/parse.js` is not part of this model.
- `$watchGroup` (src/scope.js:194-240): a composite built on `$watch` and `$evalAsync` with closure-shared arrays, not modelled.
- Host timers: `setTimeout`/`clearTimeout` become a counter and a flag, and a timer fires only when `FireDigestTimer`/`FireApplyTimer` is applied. Timer ordering is not modelled.
- `console.log` of swallowed errors: an error thrown by a watch function, listener or queued task is dropped, and the model goes on as the source does.
- Floating point: numbers are integers, and NaN is its own constructor.
- Plain objects: values are `undefined`, `null`, booleans, numbers, NaN, strings and arrays. Objects, the other main case of `_.isEqual`, are not modelled.
- Live references in identity mode: `last` is a snapshot, while src/scope.js:56 keeps the reference itself. If the array is later mutated in place, the equality check still compares references. The listener's old value, however, holds the items as they were, where the source would pass the mutated array.
- Lodash: `_.isEqual` is structural equality on values (`DeepEqual`). The model has no `_.cloneDeep`. In `valueEq` mode the stored last value is the watched array itself, with the same reference, where the source stores a deep copy with a fresh reference. Only `AreEqual` reads references, and in `valueEq` mode it compares structure, so this changes no comparison. A listener that mutates the array in place is not modelled, since values are immutable.
- Watch functions are pure: they cannot change the bag or queue work. They also cannot allocate. A watch function is a function of the bag, so it returns the same array, with the same reference, on every call on the same bag. The source's `function () { return [scope.a]; }` builds a fresh array on each call. In identity mode that watcher is dirty on every pass and ends in the TTL fault, and the model cannot express it.
- Listeners and tasks cannot register or deregister watchers, or call `$digest`/`$apply` re-entrantly. Passes run over a fixed watcher list, so the `if(watcher)` guard is not modelled.
- Drains that never finish are cut off by `fuel` and reported as `Hang`. Properties about a normal end say nothing about a run that hangs.
- The code allows 11 passes before the TTL throw, because `ttl` starts at 10 and the guard is `!(ttl--)`. The error message speaks of 10 iterations. The model follows the code, and `Scenarios.PingPongExhaustsTtl` shows the eleven passes.
- Convergence.LoopSettlesAll: stated only for listeners that return normally, because a listener that throws does not make the pass dirty, yet what it changed before throwing is kept. It is stated at the end of the loop, because post-digest tasks run after it and may change the bag.
- DigestCycle.Digest: uses the corrected marker reset described under Findings. `DigestCycle.DigestAsWritten` is the code as written. The entry points built on a digest take the flag, and `false` gives the source's behaviour.
- Convergence.DigestLoopSettlesAll: stated only for listeners that return normally, for the reason given for `Convergence.LoopSettlesAll`, and for the corrected loop.
- Convergence.LoopAsWrittenSettlesAll: stated only when no async work is queued, because otherwise the stale marker can end the loop with a watcher unsettled (`Scenarios.StaleMarkEndsDigestEarly`). Listeners must return normally, as for `Convergence.LoopSettlesAll`.
- Convergence.DigestAsWrittenSettlesAll: stated only when no async or post-digest work is queued and no flush is pending. Post-digest tasks run after the loop and may change the bag, and a flushed batch could queue async work.
- Convergence.ApplyAsWrittenSettlesAll: stated under the same conditions, for an expression that makes no queueing call.
- DigestCycle.DigestFlushesBatchFirst: stated for a batch whose tasks do not call `$applyAsync` again. Otherwise the flush never finishes, and the model reports `Hang`.
- DigestCycle.ApplyTimerFlushesThenDigests: stated for an idle scope and a batch that does not call `$applyAsync` again, for the same reason.
- DigestCycle.SettleRunsPostDigestInOrder: stated for post-digest tasks that do not call `$$postDigest` again, for the same reason.

## Findings

| source | as written | input that shows it | evidently intended | confidence | as-written member | corrected member |
|---|---|---|---|---|---|---|
| src/scope.js:81-90 | `$$lastDirtyWatch` survives the async drain, so the next pass stops at the old dirty watcher even if an async task changed what a newer watcher sees; the digest then returns with that watcher unsettled | watcher 0 watches `a` and its listener `$evalAsync`s `b := 2`; watcher 1 watches `b`; both have seen 1; `a` is 2 (`Scenarios.StaleStart`) | forget the last dirty watcher after each async task, so the next pass runs to the end | not executed; high (the short circuit at src/scope.js:59-60 assumes nothing changed since the marker was set) | Scenarios.StaleMarkEndsDigestEarly | Convergence.LoopSettlesAll |
