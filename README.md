# Cleanup registry — a Dafny model

This project models the core of a shutdown orchestrator. A `CleanupRegistry` holds an ordered list of asynchronous cleanup functions. Its one drain pass, `trigger`, does the following:

- emits `started`;
- runs an optional pre-hook;
- runs a do/while retry loop per registered function, under per-attempt timeouts and a shared overall deadline;
- runs an optional post-hook;
- emits exactly one `finished` event with a status, provided every hook and every call of a cleanup function returns a promise that settles (see "## Left out").

`register` and `remove` edit the list while no pass has been triggered. `clear` resets the registry for another pass.

Modules:

- `Util` (`util.dfy`) covers the promise helpers of `src/common/util.ts`:
  - `PromiseResult` turns a settled promise into an `[error, value]` pair.
  - `PromiseTimeout` decides the race between a promise and its timer.
- `Types` (`types.dfy`) holds the value types. These are the registered record, the arguments of `register`, `remove` and `trigger`, the emitted events and the configuration constants. They follow the names that `src/registry.ts` uses.
- `Registry` (`registry.dfy`) contains the class `CleanupRegistry`. Its fields are the same as the source's:
  - the record list `registry`;
  - the lock `hasTriggered`;
  - the deadline flag `overallExpired`;
  - an append-only event log `events`, which stands in for the emitter.

  Each method is imperative code proved against a specification function:
  - `Register` against `NewItem`;
  - `Remove` against `Filter`;
  - `RunItem` (the do/while loop) against `ItemRun`;
  - `Cleanup` against `ItemsRun`;
  - `Trigger` against `Pass`.
- `RegistryProps` (`registry_props.dfy`) proves what a pass and a removal guarantee, stated over those functions.

Time is not modelled. An `Environment` value says everything the clock and the cleanup functions would decide:

- how each hook settles;
- for every attempt of every item: how the function settles, whether the per-attempt timer fires first, and whether the overall deadline fires during that attempt or the delay after it;
- whether the deadline fires during a hook.

An attempt's script must end with an attempt after which the loop stops, either a success or the deadline. This is how the model captures the source's guarantee that the deadline timer always fires eventually.

## Model

| member | source | states |
|---|---|---|
| Util.PromiseResult | src/common/util.ts:3-10 | The error slot is undefined exactly when the promise fulfilled. A fulfilled promise gives its value. A rejection gives no value and keeps a defined reason. A rejection with `undefined` gives a concrete `new Error()`. |
| Util.PromiseResultRoundTrip | src/common/util.ts:3-10 | Rethrowing the pair gives back the original outcome, except that an `undefined` rejection comes back as `new Error()`. |
| Util.RethrowRoundTrip | src/common/util.ts:3-10 | Every pair shaped like a `promiseResult` result is reproduced from its rethrow. |
| Util.PromiseTimeout | src/common/util.ts:12-29 | If the promise settles first, its outcome passes through unchanged. If the timer fires first, the call rejects with a `TimeoutError` whose message names `ms`. |
| Util.TimedOutAttemptError | src/common/util.ts:12-29 | A timed-out attempt always surfaces through `promiseResult` as that `TimeoutError`, whatever the wrapped promise did. |
| Util.Rethrow | src/common/util.ts:3-10 | Not a source function: it is the inverse of `promiseResult` that the round trips are stated against. It rejects exactly when the error slot is defined, and then with that error. Otherwise it fulfils with the value slot. |
| Util.TimeoutMessage | src/common/util.ts:18 | The message of the `TimeoutError`: the fixed prefix, the decimal rendering of `ms`, then " ms". Its parts are stated in `Util.TimeoutMessageParts`, and `Util.TimeoutMessageInjective` shows the message determines `ms`. |
| Util.TimeoutMessageParts | src/common/util.ts:18 | `TimeoutMessage(ms)` is the fixed prefix, then the decimal rendering of `ms`, then " ms", so the rendering can be read back from between them. |
| Util.NumberToString | src/common/util.ts:18 | The rendering of `ms` in the message starts with '-' exactly when `ms` is negative. Every character after the sign is a decimal digit, the digits spell the number's magnitude, and there is no leading zero. |
| Util.NatToString | src/common/util.ts:18 | The decimal rendering is non-empty and all digits. Its digits spell `n` in decimal (`DecimalValue(s) == n`), with no leading zero. It is one digit exactly for numbers below ten. |
| Util.NatToStringInjective | src/common/util.ts:18 | Distinct non-negative numbers render differently. |
| Util.NumberToStringInjective | src/common/util.ts:18 | Distinct integers, signs included, render differently. |
| Util.TimeoutMessageInjective | src/common/util.ts:18 | The timeout message determines the timeout it reports. |
| Types.AsyncFunc.constructor | src/common/types.ts:8 | A function reference carries the `name` used as its default id. |
| Registry.ItemTimeout | src/registry.ts:34-37 | The stored per-attempt timeout is the overall timeout when none is given, and otherwise the minimum of the given timeout and the overall timeout. It never exceeds the overall timeout. |
| Registry.ItemTimeoutAfterFailure | src/registry.ts:39-42 | The stored retry delay is 500 when none is given, and otherwise the minimum of the given delay and the overall timeout. It is bounded by the larger of the overall timeout and 500. |
| Registry.ItemIdFor | src/registry.ts:32 | The stored id is the given id when there is one, and otherwise the function's name. |
| Registry.NewItem | src/registry.ts:30-44 | The appended record keeps the function. Its id is the given id, or else the function's name. Its timeouts respect the budget. |
| Registry.Keep | src/registry.ts:54-61 | The three-branch `filter` callback keeps an item exactly when it does not match every supplied discriminator (`!Matches`). |
| Registry.Filter | src/registry.ts:52-63 | An item survives exactly when it does not match every supplied discriminator. Survivors come from the input, and the result is no longer than the input. |
| Registry.AttemptError | src/registry.ts:116-118 | The `error` slot after one attempt: `promiseResult` of `promiseTimeout` of the call with the item's timeout. Its three cases are stated in `Registry.AttemptErrorCases`. |
| Registry.AttemptErrorCases | src/registry.ts:116-118 | The `error` slot after one attempt is undefined exactly when the function fulfils before its timer. When the timer wins, it is the `TimeoutError` naming the item's timeout. Otherwise it is the rejection reason, or `new Error()` for an undefined one. |
| Registry.AttemptEvent | src/registry.ts:120-126 | An attempt emits one event about the item. It is `itemCompleted` exactly when the attempt has no error, and otherwise `itemFailed` carrying that error. |
| Registry.Backoff | src/registry.ts:122 | The wait after a failure is 500 after a `TimeoutError` and the item's retry delay after any other error. |
| Registry.ItemRun | src/registry.ts:115-127 | One item's loop makes at least one attempt and at most as many as the script holds. |
| Registry.ItemRunIsFirstStop | src/registry.ts:115-127 | If attempt n is the first after which the loop may stop, the loop emits exactly n events, one per attempt and in order. It waits after each failure, using the back-off matching the error kind. Its deadline flag is the one after attempt n. |
| Registry.ItemsRun | src/registry.ts:111-131 | The loops of `cleanup` emit at least as many events as there are items (each loop's own events, in registry order, by `ItemsRunJoinsLoops`). They never lower the flag. Every loop starts from the flag as `cleanup` found it, not from a flag raised by another loop. |
| Registry.HookError | src/registry.ts:78-93 | A hook's error is defined exactly when the hook is configured and its promise rejects. It is then the rejection reason, or `new Error()` for an undefined one. |
| Registry.Drain | src/registry.ts:86-96 | After the pre-hook, a pass emits at least one event and ends with `finished`. |
| Registry.Pass | src/registry.ts:66-97 | A pass emits `started` first and `finished` last. |
| Registry.CleanupRegistry.constructor | src/registry.ts:18-23 | The hooks come from the options. The overall timeout comes from the options, or is 10000. The registry starts empty and untriggered, with no events. |
| Registry.CleanupRegistry.Register | src/registry.ts:25-45 | When triggered, nothing changes. Otherwise exactly the new record is appended at the end, and every stored record stays within budget. |
| Registry.CleanupRegistry.Remove | src/registry.ts:47-64 | When triggered, nothing changes. Otherwise the list becomes its filtered self. |
| Registry.CleanupRegistry.Trigger | src/registry.ts:66-97 | A repeated call resolves and changes no events or flags. A first call sets the lock and appends exactly the events of `Pass`. It leaves the deadline flag and settles the returned promise as `Pass` says. |
| Registry.CleanupRegistry.DrainAndFinish | src/registry.ts:86-96 | The item loops, the post-hook and the `finished` event append exactly the events of `Drain`. They set the flag and the outcome `Drain` gives. |
| Registry.CleanupRegistry.Clear | src/registry.ts:99-104 | The list is empty and both the lock and the deadline flag are down. |
| Registry.CleanupRegistry.Finish | src/registry.ts:106-109 | Exactly one `finished(status)` event is appended. |
| Registry.CleanupRegistry.Cleanup | src/registry.ts:111-131 | The loops over all items, each started from the flag as `cleanup` found it, append exactly the events of `ItemsRun`. They leave the flag it gives. |
| Registry.CleanupRegistry.RunItem | src/registry.ts:112-128 | The do/while loop, reading the flag as it stands in its own timeline, appends exactly the events of `ItemRun` from the start flag. It returns its back-off delays. The field is raised if the loop saw the deadline, and is never lowered. |
| Registry.CleanupRegistry.OnOverallExpire | src/registry.ts:133-137 | The deadline timer's callback raises the flag. |
| Registry.CleanupRegistry.Emit | src/registry.ts:121-125 | Emitting appends one event to the log. |
| RegistryProps.ItemRunStopsAtFirst | src/registry.ts:115-127 | A loop never stops early and never runs past the first attempt that succeeded or saw the flag up. |
| RegistryProps.ItemRunTrace | src/registry.ts:115-127 | Each attempt emits one event. Every attempt but the last failed with the flag down and emitted `itemFailed(id, error)`. The last emitted `itemCompleted(id)` iff it succeeded, and otherwise the flag is up. Every failure is followed by a wait: 500 after a `TimeoutError`, the item's retry delay otherwise. |
| RegistryProps.ItemRunRepeatedFailure | src/registry.ts:115-127 | An item failing with the same error until the deadline emits one `itemFailed` with that error per attempt. Each failure is followed by the matching back-off, and the flag ends up. |
| RegistryProps.ItemRunAlwaysTimingOut | src/registry.ts:116-123 | An item that times out on every attempt until the deadline emits one `itemFailed` per attempt. Each carries the `TimeoutError` naming its timeout and is followed by the 500 ms back-off. |
| RegistryProps.ItemsRunJoinsLoops | src/registry.ts:111-131 | The events of `cleanup` are each item's own loop joined in registry order. Each loop emits at least one event, so every item is attempted at least once, and each block depends only on that item's script and the start flag. |
| RegistryProps.ItemsRunFlag | src/registry.ts:111-131 | After `cleanup` the flag is up exactly when it was up before or some item's loop saw the deadline. |
| RegistryProps.ItemRunFailsUntilDeadline | src/registry.ts:115-127 | An item failing until the deadline makes every attempt of its script, each emitting `itemFailed`, and leaves the flag up. |
| RegistryProps.ItemsRunAllFailing | src/registry.ts:111-131 | When every item fails until its loop sees the deadline, `cleanup` emits one `itemFailed` per attempt of every item. No broken item cuts another item's retries short. |
| RegistryProps.ItemsRunEvents | src/registry.ts:111-131 | The loops emit only `itemCompleted`/`itemFailed` events about registered items, and never lower the flag. |
| RegistryProps.ItemsRunAllResolve | src/registry.ts:111-131 | When every first attempt succeeds, the loops emit one `itemCompleted` per item, in order. The flag moves only if an attempt raised it. |
| RegistryProps.PassShape | src/registry.ts:66-97 | `started` comes first and a single `finished` comes last. Only item events about registered items fall in between. |
| RegistryProps.PassStatus | src/registry.ts:78-96 | The status is `preThrown` iff the pre-hook failed with its throw flag set, and then no item runs. It is `postThrown` iff otherwise the post-hook failed with its throw flag set. Otherwise it is `timedout` iff the flag is up, else `success`. `trigger` rejects exactly in the two hook cases, with that hook's defined error. |
| RegistryProps.DefaultOptionsNeverReject | src/registry.ts:66-96 | With the default trigger options, `trigger` resolves and reports `success` or `timedout`. |
| RegistryProps.PassAllResolve | src/registry.ts:66-97 | With working hooks, no deadline and items that all succeed at once, the pass is `started`, then one `itemCompleted` per item in order, then `finished(success)`. An empty registry emits no item events. |
| RegistryProps.FilterAppend | src/registry.ts:54-61 | Filtering works element by element, so survivors keep their relative order. |
| RegistryProps.FilterIdempotent | src/registry.ts:47-64 | Removing the same items twice removes nothing more. |
| RegistryProps.FilterNoMatch | src/registry.ts:54-61 | A removal that matches nothing leaves the list unchanged. |

## Left out

- Timers are not modelled: `setTimeout`, `clearTimeout` and `delay`. The deadline timer, the per-attempt timer and the waits are replaced by choices in the `Environment`. The back-off lengths are returned but not waited. Clearing the deadline timer in `finish` and `clear` is not modelled, because no timer exists to fire later.
- The interleaving of the item loops is not modelled. `cleanup` starts every item's loop at once and waits for all of them with `Promise.allSettled`. Here each loop is an independent trace: it starts from the flag as `cleanup` found it, and sees the deadline at the attempt its own script says. The loops' events are logged one whole loop after another, an order across items that the source does not promise. Each script decides on its own where the deadline falls, so the model does not require different loops to agree on one instant.
- Hooks and cleanup functions that never settle, or that throw synchronously, are not modelled. Every hook call and every call of an item's function is assumed to return a promise that settles, because the `Environment` offers only fulfilled and rejected outcomes. `Registry.Pass`, `RegistryProps.PassShape`, `RegistryProps.PassStatus` and `RegistryProps.ItemsRunJoinsLoops` hold only under that assumption. The source behaves differently in these cases:
  - A hook has no timer (`src/registry.ts:79`, `src/registry.ts:89`). One that never settles leaves `trigger` pending forever, and no `finished` event is emitted.
  - A hook that throws before returning a promise makes `trigger` reject with that value, after `started` and without any `finished` event.
  - An item's function that throws before returning a promise (`src/registry.ts:116`) ends that item's loop with no event for that attempt. `Promise.allSettled` (`src/registry.ts:130`) swallows the rejection, and the other items' loops go on.
- Abandoned attempts are not modelled. An attempt that outlives its timer keeps running in the background, and its outcome is discarded.
- `clear` while a pass is still in flight is not modelled. Methods run to completion one at a time.
- The `TypedEmitter` base class and its listeners are not modelled. Emitting is appending to `events`.
- `src/common/errors.ts` is not part of this model. `TimeoutError` is a tag of `Error`, and every other thrown value is a `GenericError` with a message.
- `src/common/types.ts`, `interfaces.ts` and `constants.ts` are mirrored as datatypes and constants only. `DEFAULT_FUNCTION_TIMEOUT` is unused by the registry and left out.
- The re-export barrel `src/index.ts` and the unit tests are not part of this model.
- Function references are objects compared by identity. Their `name` is an opaque field, and symbols are opaque numbered tokens.
- Numbers are unbounded integers, not JavaScript floating point.
- `Registry.CleanupRegistry.Trigger` requires the environment to give one script per registered item, each ending in an attempt that stops its loop. This models the deadline timer eventually firing. It is not a demand the source makes of its callers.

Where the code and its tests or type declarations disagree, the model follows `src/registry.ts`:

- `register`, `remove` and a repeated `trigger` return silently while triggered. They do not throw.
- `register` returns nothing.
- Oversized timeouts are clamped, not rejected.
- The statuses are `preThrown`, `postThrown` and `timedout`, as `src/registry.ts` emits them. The `FinishStatus` union in `src/common/types.ts:16` lists `preFailed`, `postFailed` and `timeout` instead.
- The constructor reads `overallTimeout`. `RegistryOptions` declares `overallExpireCleanup`.
- The default trigger options set fields (`ignorePreError`, `ignorePostError`) that `trigger` never reads. As a result, both throw flags are undefined by default.
- An `undefined` rejection becomes `new Error()`, which has an empty message.
- The default retry delay of 500 is not clamped to the overall timeout.
- `src/registry.ts:2` imports `DAFAULT_TIMEOUT_AFTER_FAILURE`, while `src/common/constants.ts:10` exports `DEFAULT_TIMEOUT_AFTER_FAILURE`. The model takes the constant to be that exported value, 500, for both the default retry delay and the back-off after a `TimeoutError`.
- `src/common/interfaces.ts:13` names the stored retry-delay field `timeoutAfterReject`. The model follows `src/registry.ts`, which reads and stores `timeoutAfterFailure`.
