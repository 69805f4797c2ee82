# ioBroker keyble adapter: the translation layer

The adapter connects an eQ-3 eqiva Bluetooth door lock to the ioBroker state
store. It has two paths, and this project models both of them.

- **Status translator.** The `status_change` handler receives a status code from
  the lock. It publishes four states with `ack = true`: `active`, `lock_state`,
  `opened` and `unlocked`. `active` and `lock_state` are written on every event.
  `opened` and `unlocked` are written only when the code is not 1 (ACTIVE). While
  the lock is ACTIVE, they keep their previous values.
- **Write path.** The `stateChange` handler drops null states and acknowledged
  states. It removes the namespace and one separator character from the id.
  `on_command_state` then maps the short id and the value to at most one lock
  action: unlock, lock or open.

The Dafny files:

- `wrappers.dfy`: `Option`.
- `status_translator.dfy`: module `LockStatus` holds the four status codes
  (LOCKED 0, ACTIVE 1, UNLOCKED 2, OPEN 4) and the transient/settled split.
  Module `StatusTranslator` holds the published values (`Published`), the
  sequence of `setState` calls one event makes (`StatusWrites`), their effect
  (`Translate`), and the in-place store. The store is the class `Store`. It has
  four fields and a log of every `setState` call. Its method `OnStatusChange`
  makes the same `setState` calls as the handler, in the same order. The
  `opened` state is the field `doorOpened`, because `opened` is a Dafny keyword.
  `Replay` gives the values after a stream of events, delivered in order.
- `command_dispatcher.dfy`: module `CommandDispatcher` holds the ack/null filter
  with the id shortening (`Forward`), `on_command_state` (`OnCommandState`), and
  the whole handler (`OnStateChange`). It also proves that no write of the
  translator can come back as a command.

The handler does not check the status code (main.js:55-75). An unlisted value
such as 3 is handled like any settled code: `active`, `opened` and `unlocked`
become false, and `lock_state` gets the raw value. `Translate` and
`Store.OnStatusChange` do exactly that. The `lock_state` object declares only
the four codes (main.js:116-121), but the handler writes whatever integer the
lock reports.

## Model

| member | source | states |
|---|---|---|
| `StatusTranslator.StatusWrites` | main.js:55-75 | an event first writes `active` (true exactly for code 1), then `lock_state` (the code); for a code other than 1 it then writes `opened` (true exactly for 4) and then `unlocked` (true exactly for 2 or 4); for code 1 the written states are exactly `active` and `lock_state`; every write carries `ack = true` and a value of the state's declared type |
| `StatusTranslator.Translate` | main.js:55-74 | after an event, `active` is true exactly when the code is 1 and `lock_state` equals the code; for a code other than 1, `opened` is true exactly for 4 and `unlocked` exactly for 2 or 4; for code 1, `opened` and `unlocked` keep their values from before the event |
| `StatusTranslator.TranslateIdempotent` | main.js:55-75 | handling the same status event twice gives the same values as handling it once |
| `StatusTranslator.TranslatePreservesInvariant` | main.js:64-73 | every event keeps `opened ==> unlocked`, and a settled event establishes it whatever held before |
| `StatusTranslator.ReplayOutcome` | main.js:55-75 | after any stream of events, `active` and `lock_state` reflect the last event; `opened` and `unlocked` reflect the last event whose code is not 1, or are unchanged if every event was ACTIVE |
| `StatusTranslator.ReplayPreservesInvariant` | main.js:64-73 | no stream of status events, with any codes, breaks `opened ==> unlocked` |
| `StatusTranslator.UnlockScenario` | main.js:55-75 | LOCKED, then ACTIVE, then UNLOCKED ends with active false, lock_state 2, opened false and unlocked true, from any previous values |
| `StatusTranslator.OpenThenActiveScenario` | main.js:55-75 | OPEN, then ACTIVE twice, ends with active true, lock_state 1, and opened and unlocked still true from the OPEN event |
| `StatusTranslator.Store.SetState` | main.js:56-73 | one `setState` call replaces only the state it names and is appended to the log with its ack flag |
| `StatusTranslator.Store.OnStatusChange` | main.js:55-75 | the store's new values are `Translate` of the old ones; the log grows by exactly the event's writes; during ACTIVE, `opened` and `unlocked` are unchanged |
| `StatusTranslator.UnlockAfterActive` | main.js:55-75 | an ACTIVE event then an UNLOCKED event on a store gives active false, lock_state 2, opened false and unlocked true, from any starting values |
| `CommandDispatcher.SliceFrom` | main.js:29 | `slice(start)` keeps the characters from `start` on, and gives the empty string when `start` is past the end |
| `CommandDispatcher.Forward` | main.js:28-30 | a change is forwarded exactly when its state is non-null and not acknowledged; the forwarded value is the state's value; the forwarded id is the long id without its first `namespace.length + 1` characters |
| `CommandDispatcher.ShortIdRoundTrip` | main.js:29 | shortening `namespace + sep + id` gives back `id`, for any separator character |
| `CommandDispatcher.OnCommandState` | main.js:129-143 | `unlocked` with a true value gives unlock and with a false value gives lock; `opened` with a true value gives open; `opened` with a false value and every other id give no action; both directions of each case hold |
| `CommandDispatcher.Truthy` | main.js:132-139 | the `if (value)` test: a boolean is truthy exactly when true, a number exactly when non-zero |
| `CommandDispatcher.OnStateChange` | main.js:23-32 | the whole handler: an action is issued only for a non-null, unacknowledged state, and then it is exactly `on_command_state` of the shortened id and the truthiness of the value |
| `CommandDispatcher.FilteredNeverDispatched` | main.js:28 | a null state or an acknowledged state causes no lock action, whatever its id or value |
| `CommandDispatcher.ExternalWriteDispatch` | main.js:23-32 | an unacknowledged write to `namespace.id` dispatches exactly as `on_command_state(id, value)` |
| `CommandDispatcher.UnlockedCommand` | main.js:131-137 | an external write of `unlocked` issues exactly one unlock for true and exactly one lock for false |
| `CommandDispatcher.OpenedCommand` | main.js:138-141 | an external write of `opened` issues exactly one open for true and nothing for false |
| `CommandDispatcher.ReadOnlyStatesIgnored` | main.js:130-142 | a write to `active` or `lock_state` issues no action, whatever the value |
| `CommandDispatcher.OwnWritesNeverDispatched` | main.js:23-75 | the host's echo of every write the status translator makes is acknowledged, so it never reaches the lock: there is no feedback loop |

## Left out

- Adapter construction, logging, the registration of the four state objects with
  `setObjectNotExists`, and `subscribeStates('*')` (main.js:4-20, 79-126). These
  are calls into the host platform and have no logic of their own. The declared
  types of the states appear only as `Fits` (a number for `lock_state`, booleans
  for the rest).
- Construction of the `Key_Ble` device handle from the configuration
  (main.js:47-54) and the Bluetooth protocol behind `lock`, `unlock`, `open` and
  `disconnect`. These belong to the external `keyble` library. Lock actions are
  modelled only as the values of `Action`.
- The `unload` handler and `terminate` (main.js:34-45, 145-148). These are
  asynchronous lifecycle code. A command that arrives after `terminate` has set
  the handle to null is not modelled either.
- Truthiness of values other than booleans and integers (strings, null,
  undefined, NaN). `Truthy` covers only the two kinds of value the four states
  hold.
- Delivery of events: the host and the lock call the handlers one at a time, in
  order. `Replay` and the `Store` methods take this order as given.
- The logged text of the `stateChange` handler. It prints `id` before `id` is
  assigned (main.js:26), which affects only the log line.
- Writes from outside to the writable states `opened` and `unlocked`
  (main.js:85, 105). An unacknowledged write also stores its value in the host,
  but `Store` and `Replay` model only the translator's writes. Such a write can
  break `opened ==> unlocked`, and ACTIVE events keep the broken values, so
  `ReplayPreservesInvariant` holds only from a store where the invariant holds.
- String lengths: Dafny's `|namespace|` counts Unicode scalar values, while
  `namespace.length` in JavaScript counts UTF-16 code units. The two agree for
  ioBroker's namespaces, which are ASCII.
