# meteor-rxjs core, modelled in Dafny

This project models the client-side adapter that turns a Meteor live-query
cursor into an RxJS observable, and proves properties of the model:

- `ObservableCursor` (module `Cursor`): one live query shared by many
  subscribers. It holds the current result list (`_data`), the registry of
  subscribers (`_observers`), the live-query handle (`_hCursor`), the `_init`
  flag and a zero-delay debounced first broadcast. The class
  `Cursor.ObservableCursor` has these as fields. Every delivery the cursor makes,
  to the count channel of `collectionCount()` or to a subscriber, is appended to
  one `trace`. A ghost `history` of store changes ties `data` to a plain-list
  reference model (`ListModel.Replay`) after any sequence of callbacks.
- `removeObserver`, `isCallbacksObject` and `isMeteorCallbacks` (module `Utils`).
- The `select(field)` operator (module `Select`) over a small model of
  JavaScript values (module `Js`). That module also gives the semantics of
  `Array.prototype.splice`, `indexOf` and `concat` that the code relies on.

Files: `js.dfy`, `list_model.dfy`, `utils.dfy`, `select.dfy`,
`observable_cursor.dfy`.

The model follows the code where it differs from the package's documented
intent:
- `select` on an array with a `null` or `undefined` element throws a TypeError.
  The map callback `doc[this.field]` reads a property of that element. So the
  result is not a nullish value.
- `select` on `null` forwards `null`, because `value && value[field]` yields the
  falsy value itself.
- `isCallbacksObject` returns its argument, not `false`, when the argument is
  falsy. `isMeteorCallbacks` passes that value on.
- `stop()` sends `complete` again on a second call. Only RxJS's closed-subscriber
  rule makes the second call harmless. `Cursor.StopTwice` proves this through
  `Cursor.Observed`.

## Model

| member | source | states |
|---|---|---|
| `Js.IndexOf` | src/utils.ts:38 | the result is -1 exactly when the observer is absent; otherwise it is the first position holding it |
| `Js.SpliceMinusOne` | src/utils.ts:39 | `splice(-1, 1)` drops the last element of a non-empty array and leaves an empty array empty |
| `Js.SpliceInsert` | src/ObservableCursor.ts:154 | `splice(at, 0, doc)` at an in-range position inserts `doc` there; the length grows by one |
| `Js.SpliceDelete` | src/ObservableCursor.ts:167 | `splice(at, 1)` at an in-range position deletes that element; the length drops by one |
| `Js.Splice` | src/ObservableCursor.ts:172-173 | the prefix before the clamped start is kept, the inserted items follow it, and then the tail after the clamped delete count survives; the length is the input length plus the inserted items minus the clamped delete count |
| `Js.Access` | src/select.ts:36 | reading a property throws exactly when the value is null or undefined |
| `Js.Concat` | src/select.ts:33 | `concat` keeps the accumulator as a prefix; it spreads an array argument and appends any other value as one element |
| `ListModel.ApplyLength` | src/ObservableCursor.ts:152-175 | an add grows the list by one; a remove shrinks it by one; a change or a move keeps its length |
| `ListModel.InsertAt` | src/ObservableCursor.ts:154 | an insert puts the document at `at`, keeps the prefix and shifts the tail right by one |
| `ListModel.DeleteAt` | src/ObservableCursor.ts:167 | a delete keeps the prefix and shifts the tail left by one |
| `ListModel.DeleteInsert` | src/ObservableCursor.ts:171-175 | deleting at the position just inserted at gives back the original list |
| `ListModel.MovePermutes` | src/ObservableCursor.ts:171-175 | moving the document that sits at `from` keeps the length and the multiset of documents |
| `ListModel.MoveLandsAt` | src/ObservableCursor.ts:171-175 | after a move the document is at `to`; removing it there leaves the list with `from` removed |
| `Utils.RemoveObserver` | src/utils.ts:35-43 | the registry becomes `Removed(observers, observer)`; the hook runs iff the registry is then empty and a hook was given |
| `Utils.RemovedPresent` | src/utils.ts:38-39 | a present observer: its first occurrence is deleted, the others keep their order, and the length drops by one |
| `Utils.RemovedAbsent` | src/utils.ts:38-39 | an absent observer: a non-empty registry loses its last entry, and an empty one stays empty |
| `Utils.RemovedSubset` | src/utils.ts:38-39 | removal adds nothing; exactly one entry goes unless the registry was empty |
| `Utils.SomeIsFunction` | src/utils.ts:23-25 | `some` holds iff one of the listed properties is a function |
| `Utils.IsCallbacksObject` | src/utils.ts:22-26 | truthy iff the argument is truthy and `onReady`, `onError` or `onStop` on it is a function; a falsy argument is returned itself |
| `Utils.IsMeteorCallbacks` | src/utils.ts:17-19 | truthy iff the argument is a function or a callbacks object; `true` for a function, otherwise the result of `isCallbacksObject` |
| `Select.Pluck` | src/select.ts:36 | the element-wise map succeeds iff no element is nullish; it then has one field per element, in order |
| `Select.ConcatAllFlattens` | src/select.ts:31-33 | the left fold of `concat` from `acc` equals `acc` followed by the one-level flattening of the fields |
| `Select.SelectValue` | src/select.ts:27-40 | `_next` throws iff the value is an array holding a nullish element; an array input gives an array output |
| `Select.SelectFlattens` | src/select.ts:29-34 | when the first element has an array field, the output is the one-level flattening of every element's field |
| `Select.SelectMaps` | src/select.ts:36-37 | otherwise the output is the field of each element, one per element, in order |
| `Select.SelectEmpty` | src/select.ts:28-37 | `[]` maps to `[]` |
| `Select.SelectSingle` | src/select.ts:39 | a non-array value gives `value && value[field]`: a falsy value itself, or the field of a truthy one |
| `Select.SelectFlattenExample` | src/select.ts:29-34 | `[{a:[1,2]},{a:[3]}]` gives `[1,2,3]` |
| `Select.SelectMixedExample` | src/select.ts:30-33 | only the first element decides to flatten; a later non-array field is appended as one element |
| `Select.SelectMapExample` | src/select.ts:36-37 | `[{a:1},{a:2}]` gives `[1,2]` |
| `Select.SelectSingleExamples` | src/select.ts:39 | `{a:5}` gives `5` and `null` gives `null` |
| `Select.SelectNullElementExample` | src/select.ts:36 | an array holding `null` throws a TypeError |
| `Select.SelectNotification` | src/select.ts:27-48 | `complete` and `error` are forwarded unchanged; a `next` is forwarded as a `next` carrying the projection of its value, and throws exactly when the projection throws |
| `Select.SelectStream` | src/select.ts:27-48 | if nothing throws, there is one output per input, in order: a `next` carrying the projection of each input `next`'s value, and `error`/`complete` unchanged; nothing throws iff every projection succeeds |
| `Cursor.ToEachAt` | src/ObservableCursor.ts:147-149 | the i-th fan-out delivery goes to the i-th registered observer |
| `Cursor.LogOfToEach` | src/ObservableCursor.ts:147-149 | with distinct observers, each registered observer gets the event exactly once and nobody else gets it |
| `Cursor.BroadcastReaches` | src/ObservableCursor.ts:144-150 | a broadcast sends the count channel one count, and each registered observer the data once |
| `Cursor.CompleteAllReaches` | src/ObservableCursor.ts:136-142 | stopping completes the count channel once and each registered observer once |
| `Cursor.LogOfUnsent` | src/ObservableCursor.ts:38-43 | a subscriber that did not exist yet has been sent nothing |
| `Cursor.ObservedAfterComplete` | src/ObservableCursor.ts:136-142 | once `complete` has been sent, later deliveries change nothing a subscriber acts on |
| `Cursor.RemovedKeepsDistinct` | src/ObservableCursor.ts:49-52 | the teardown keeps the registry free of duplicates and adds no identity |
| `Cursor.ObservableCursor.constructor` | src/ObservableCursor.ts:37-62 | a new cursor has an empty list, no subscribers, no handle, `_init` false and nothing scheduled |
| `Cursor.ObservableCursor.Subscribe` | src/ObservableCursor.ts:38-47 | once initialised, the newcomer first gets the current list; it is appended to the registry; a handle is created only if none exists and an existing one is kept |
| `Cursor.ObservableCursor.Unsubscribe` | src/ObservableCursor.ts:49-52 | the registry loses the observer as `removeObserver` does; `stop()` runs exactly when the registry becomes empty |
| `Cursor.ObservableCursor.Stop` | src/ObservableCursor.ts:86-97 | completes the count channel, then every observer in order; stops the handle if present; leaves no handle and an empty list; keeps the registry and `_init` |
| `Cursor.ObservableCursor.Dispose` | src/ObservableCursor.ts:103-106 | drops the registry and the store cursor and nothing else |
| `Cursor.ObservableCursor.RunComplete` | src/ObservableCursor.ts:136-142 | appends `complete` for the count channel and then for each observer, in registration order |
| `Cursor.ObservableCursor.RunNext` | src/ObservableCursor.ts:144-150 | appends the list length for the count channel and then the data for each observer, in registration order |
| `Cursor.ObservableCursor.HandleChange` | src/ObservableCursor.ts:177-179 | broadcasts the current list |
| `Cursor.ObservableCursor.FireDebounce` | src/ObservableCursor.ts:58-61 | the debounced handler broadcasts once, then sets `_init`; no other state changes |
| `Cursor.ObservableCursor.AddedAt` | src/ObservableCursor.ts:152-159 | inserts `doc` at `at`; before `_init` it only schedules the debounce, afterwards it broadcasts at once |
| `Cursor.ObservableCursor.ChangedAt` | src/ObservableCursor.ts:161-164 | replaces position `at` with the length unchanged, then broadcasts whatever `_init` is |
| `Cursor.ObservableCursor.RemovedAt` | src/ObservableCursor.ts:166-169 | deletes position `at`, then broadcasts whatever `_init` is |
| `Cursor.ObservableCursor.MovedTo` | src/ObservableCursor.ts:171-175 | deletes at `from`, inserts `doc` at `to`, then broadcasts whatever `_init` is |
| `Cursor.BurstOfAdds` | src/ObservableCursor.ts:152-159 | three adds before the first broadcast send nothing; the debounce then sends one broadcast with all three documents |
| `Cursor.LateSubscriber` | src/ObservableCursor.ts:38-43 | a subscriber joining after `_init` gets the current list once, then the next change |
| `Cursor.StopTwice` | src/ObservableCursor.ts:86-97 | a second `stop()` stops no handle and changes nothing that a subscriber or the count channel acts on |
| `Cursor.UnsubscribeLast` | src/ObservableCursor.ts:49-52 | unsubscribing the only subscriber stops its handle, clears the list and completes the count channel once |
| `Cursor.UnsubscribeOneOfTwo` | src/ObservableCursor.ts:49-52 | unsubscribing one of two subscribers leaves the handle, the stopped handles and the trace untouched, and keeps the other subscriber registered |

Every mutating method of `Cursor.ObservableCursor` also keeps `Valid()`:
- `data` equals the replay of the store changes since the last `stop()`;
- the registry has no duplicates;
- the trace names only subscribers that exist;
- there is at most one live handle, and no handle is stopped twice.

## Left out

- `src/zone.ts` and the zone plumbing: `this._zone.run(f)` is modelled as running `f`. Execution contexts, the 30 ms parent-zone debounce and the `Observable.prototype` patch are not modelled.
- `_zoneObservables` (src/ObservableCursor.ts:181-202) is the identity on the inserted document: it redefines Observable-valued properties by reflection.
- `_.extend(this, _.omit(cursor, 'count', 'map'))`, the `cursor` getter and the pass-through `fetch`, `observe` and `observeChanges`: these are foreign calls into the Meteor cursor. The store cursor is the flag `hasCursor`.
- `_observeCursor`: creating the handle is modelled as a fresh `HandleId`. The `addedAt` callbacks Meteor fires during `observe` are separate `AddedAt` calls made by the environment. The unused `before` and `old` callback arguments are dropped.
- `collectionCount()`: it returns the count channel. That channel's deliveries are the `ToCount` entries of the trace (`Cursor.CountLog`). Subject semantics are not modelled. A subscriber to that stream only sees later counts.
- Real time: the zero-delay lodash debounce is a `pending` flag and an explicit `FireDebounce` step. `stop()` does not cancel a scheduled call, and neither does the source.
- RxJS internals: a subscriber's `complete()` runs its teardown, which in the source removes it from the registry while `_runComplete` iterates. Closed subscribers drop later notifications; only `Cursor.Observed` reflects this. Subscribers are append-only logs in one trace.
- Aliasing: observers receive `_data` by reference and see later in-place edits. The model sends a value snapshot.
- `Utils.RemoveObserver` edits the caller's array in place. The model returns the new contents, which `Unsubscribe` stores back in the registry.
- `Cursor.ObservableCursor.AddedAt`, `ChangedAt`, `RemovedAt`, `MovedTo`: they require in-range positions, which the live-query engine supplies. JavaScript's clamping of out-of-range indices is modelled in `Js.Splice` but not used by these four methods.
- Operations after `dispose()` throw a TypeError in the source because the registry is null. The model requires that the cursor is not disposed.
- The `g` global probe (src/utils.ts:28-32) detects the environment and is not modelled.
- `select` and `SelectOperator` (src/select.ts:9-19): these wire the subscriber into RxJS via `lift`. Only the subscriber's behaviour is modelled.
- JavaScript values: numbers are integers, so there is no NaN or -0. Inherited properties (prototype chains) are not modelled. Property reads see own properties, plus `length` and indices of arrays and strings.
- The compiled `dist/` files mirror `src/` line for line and are covered by the `src/` model.
