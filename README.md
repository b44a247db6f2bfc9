# ScholarMate session and autosave, modelled in Dafny

This project models the client-side session and autosave core of the
ScholarMate web application:

- the **session provider** (`AuthProvider`): the signed-in principal, a
  "loading" flag and a recent-activity log of at most five entries, newest
  first, all mirrored into the browser's key/value store under the keys
  `"user"` and `"recentActivity"`, restored once at mount, and changed by
  `signIn`, `signUp`, `signOut` and `addActivity`;
- the **autosave hook** (`useAutosave`): a debounced timer that saves a
  JSON value under `"<ownerId>_<key>"` as `{data, timestamp, userId}`, skips
  data whose serialization equals the last one saved, and offers `loadData`,
  `clearSavedData`, `forceSave`, `isEnabled` and a flush on unmount;
- the **autosave status hook** (`useAutosaveStatus`): listing the current
  principal's autosave keys, reporting one record's timestamp, truthiness and
  size, and deleting all of the principal's records.

Modules:

| file | module | models |
|---|---|---|
| `wrappers.dfy` | `Wrappers` | `Option` |
| `json.dfy` | `Json` | JSON values, a serializer, a parser, the round trip between them, member lookup, JavaScript truthiness |
| `storage.dfy` | `Storage` | the browser key/value store as a class over a `map<string, string>` |
| `auth.dfy` | `Auth` | `AuthProvider` as a class, the stored formats of the principal and the log, and the restore at mount |
| `autosave.dfy` | `Autosave` | `useAutosave` as a class with the timer as explicit state |
| `registry.dfy` | `AutosaveStatus` | `useAutosaveStatus` as a class over the session |
| `scenarios.dfy` | `Scenarios` | whole sequences of calls, each with its outcome proved |

Modelling choices:

- The clock is a parameter. Each operation that reads it (`Date.now()`,
  `toISOString()`, `toLocaleTimeString()`) takes one `Instant` holding all
  three readings, so a save and the activity entry it logs share one instant.
- `JSON.stringify` is `Json.Serialize`, a concrete, canonical serializer, and
  `JSON.parse` is `Json.Parse`, its partial inverse (`Json.ParseRoundTrip`).
  The "has the data changed" test compares serializations, and
  `Json.SerializeInjective` shows that this is equality of values, with the
  members of objects and the elements of arrays compared in order, as a
  comparison of `JSON.stringify` outputs does.
- The timer is explicit state. `timeoutRef` holds the id of the last timer
  armed. As in the source it is never reset to `null`, so after a timer has
  fired or been cancelled it is still "truthy". `pending` says whether that
  timer is still scheduled, and `Elapse` is the timer firing.
- `Unmount` is the cleanup of the teardown effect. React runs it on unmount,
  and also whenever that effect's dependency `saveData` changes.
- A React re-render that changes the hook's arguments is `Changed` (the
  re-scheduling effect). The same re-render together with the cleanup of the
  unmount effect, which also runs because of that effect's dependency list,
  is `ChangedAsRendered` (see Findings).
- Reading a stored item that is empty counts as absent, because the source
  tests the item for truthiness before parsing it.
- `Load` returns `Some(JNull)` for a record whose `data` is `null`. Like
  `None`, it stands for the source's `null` result.

Behaviour of the code worth noting, which the model follows:

- `clearSavedData` does not cancel a pending save timer, so a change that is
  already scheduled is written back after the clear
  (`Scenarios.ClearKeepsPendingTimer`).
- `loadData` and `clearSavedData` do not check `enabled`. Only `saveData`,
  and therefore `forceSave`, checks it.
- The restore at mount does not catch a parse error in the stored user or
  log. The model reports this as `Corrupt`, and `loading` then stays true.
- Every account gets the id `"1"`, from `signIn` and `signUp` alike. So all
  accounts on one browser share the `1_` records: what one account saved is
  listed, loaded and cleared for the next account signed in
  (`Scenarios.AccountsShareRecords`).
- The key prefix `"<id>_"` does not separate all principals. The records of a
  principal whose id is `"1_x"` are listed as records of principal `"1"`
  (`AutosaveStatus.PrefixOverlap`). Ids without `_` are separated
  (`AutosaveStatus.OtherOwnersInvisible`).
- The size that `getAutosaveInfo` reports is the data re-serialized when the
  query runs, not a length stored at save time. With a canonical serializer it
  equals the size at save time (`AutosaveStatus.InfoAfterSave`).

## Model

| member | source | states |
|---|---|---|
| Auth.EmailPrefix | src/contexts/AuthContext.jsx:39 | the default name is the prefix of the email before its first `@`: it contains no `@`, and it is the whole email when there is no `@` |
| Auth.Prepend | src/contexts/AuthContext.jsx:79 | the new log holds the new entry first, then the at most four newest previous entries in their order, so its length is min(old length + 1, 5) |
| Auth.ReplayKeepsNewest | src/contexts/AuthContext.jsx:71-82 | recording any sequence of entries leaves exactly the five newest entries of all recorded so far, newest first |
| Auth.DecodeEncodePrincipal | src/contexts/AuthContext.jsx:24 | a principal read back from its stored object is the principal that was written |
| Auth.DecodeEncodeEntry | src/contexts/AuthContext.jsx:28 | an activity entry read back from its stored object is the entry that was written |
| Auth.DecodeEncodeLog | src/contexts/AuthContext.jsx:81 | a log read back from its stored array is the log that was written |
| Auth.RestorePersisted | src/contexts/AuthContext.jsx:18-32 | when the store holds what the provider last wrote, the restore at mount yields the same principal and log, and reports success |
| Auth.AuthProvider.LoadSaved | src/contexts/AuthContext.jsx:18-32 | the restore sets the principal and log from the stored items and clears `loading`, except after a parse error, where `loading` stays true |
| Auth.AuthProvider.AddActivity | src/contexts/AuthContext.jsx:71-82 | the log becomes the new entry prepended and cut to five, and it is written to the store so that a restore gives it back; the stored principal is untouched |
| Auth.AuthProvider.SignIn | src/contexts/AuthContext.jsx:34-47 | the principal becomes id `"1"`, the email, the email prefix as name and no avatar; it is stored, and a "User signed in" entry is logged; both are restorable |
| Auth.AuthProvider.SignUp | src/contexts/AuthContext.jsx:49-62 | as sign-in, but the name is the given name when it is non-empty, and the entry is "User account created" |
| Auth.AuthProvider.SignOut | src/contexts/AuthContext.jsx:64-69 | no principal, an empty log, and exactly the two session items removed from the store, which then restores to the signed-out state |
| Json.ParseRoundTrip | src/hooks/useAutosave.js:24-31 | parsing the serialization of any value gives that value back |
| Json.SerializeInjective | src/hooks/useAutosave.js:84-85 | two values have equal serializations exactly when they are equal |
| Json.LookupLastWins | src/hooks/useAutosave.js:51 | member access finds the value of the last member of that name, and finds nothing exactly when no member has that name |
| Autosave.SnapshotIsStructural | src/hooks/useAutosave.js:81-85 | a save is scheduled exactly when autosave is enabled, the data is truthy, someone is signed in and the data differs structurally from what was saved last |
| Autosave.StorageKeyIsNotSessionKey | src/hooks/useAutosave.js:21 | an autosave record never overwrites the session's own `"user"` or `"recentActivity"` item |
| Autosave.StorageKeyInjective | src/hooks/useAutosave.js:21 | for one principal, two keys give the same record key exactly when they are equal |
| Autosave.Load | src/hooks/useAutosave.js:42-58 | a load finds something only for a signed-in principal, a non-empty key and a stored record that is non-empty, parses, is an object and has that `data` member |
| Autosave.LoadUnparsable | src/hooks/useAutosave.js:45-57 | a stored record that does not parse, or is not an object, loads nothing: the error is caught |
| Autosave.LoadAfterSave | src/hooks/useAutosave.js:16-58 | loading a key right after saving a value under it gives back exactly that value |
| Autosave.LoadAfterRemove | src/hooks/useAutosave.js:60-71 | after its record is removed, a key loads nothing |
| Autosave.LoadReadsOnlyItsRecord | src/hooks/useAutosave.js:42-58 | a load depends only on the one record of its principal and key |
| Autosave.NextTimer | src/hooks/useAutosave.js:93 | a newly armed timer has an id greater than the last one armed, so it is never taken for it |
| Autosave.Autosave.SaveData | src/hooks/useAutosave.js:16-40 | when enabled, signed in and with a key, the record is written, the last-saved snapshot is the data's serialization and an "Auto-saved" entry is logged, so the data loads back; otherwise nothing changes |
| Autosave.Autosave.Changed | src/hooks/useAutosave.js:80-103 | a re-render cancels the pending timer and arms a new one exactly when a save is due, so only the latest data is saved |
| Autosave.Autosave.Elapse | src/hooks/useAutosave.js:93-95 | a pending timer that fires saves the current data; with no pending timer nothing happens |
| Autosave.Autosave.ForceSave | src/hooks/useAutosave.js:73-78 | a forced save cancels the pending timer and saves now |
| Autosave.Autosave.ClearSavedData | src/hooks/useAutosave.js:60-71 | the record is removed, the snapshot is cleared and a "Cleared saved" entry is logged; a later load finds nothing, and a pending timer stays pending |
| Autosave.Autosave.Unmount | src/hooks/useAutosave.js:105-113 | on unmount, if a timer was ever armed it is cancelled and the current data is saved; otherwise nothing changes |
| Autosave.Autosave.IsEnabled | src/hooks/useAutosave.js:119 | when the flag is false (disabled, or no principal) no change arms a timer and no save writes anything |
| Autosave.Autosave.ChangedAsRendered | src/hooks/useAutosave.js:80-113 | a re-render that changes the data first writes the previous data, its "Auto-saved" entry and the snapshot whenever a timer was ever armed and a save can happen, and otherwise leaves the store, the log and the snapshot as they were; then it schedules as `Changed` does, with the same new handle |
| AutosaveStatus.OtherOwnersInvisible | src/hooks/useAutosave.js:135 | for ids without `_`, no record key of one principal carries another principal's prefix |
| AutosaveStatus.PrefixOverlap | src/hooks/useAutosave.js:135 | a record of principal `"1_x"` carries the prefix of principal `"1"` |
| AutosaveStatus.Info | src/hooks/useAutosave.js:142-162 | the info exists exactly when a load of the same key finds something, and then reports whether that data is truthy and the length of its serialization |
| AutosaveStatus.InfoAfterSave | src/hooks/useAutosave.js:142-162 | right after a save, the info reports that save's timestamp, the data's truthiness and the length of its serialization |
| AutosaveStatus.AutosaveStatus.GetAutosaveKeys | src/hooks/useAutosave.js:129-140 | no keys without a principal; otherwise exactly the keys that have a record of this principal, each once |
| AutosaveStatus.AutosaveStatus.ClearAllAutosaveData | src/hooks/useAutosave.js:164-172 | exactly the principal's prefixed items are removed, and none are left; without a principal nothing changes |
| Scenarios.LastChangeWins | src/hooks/useAutosave.js:80-103 | two changes within the delay store nothing until the timer fires, and then store only the second value |
| Scenarios.RerenderFlushesPrevious | src/hooks/useAutosave.js:105-113 | a second change within the delay, as rendered, stores the first value at once while a timer is still pending |
| Scenarios.ForceSaveCancelsTimer | src/hooks/useAutosave.js:73-78 | a forced save stores the value and logs sign-in plus one save; the cancelled timer adds nothing (the re-render that the save causes is not run here; see Findings) |
| Scenarios.UnmountFlushes | src/hooks/useAutosave.js:105-113 | unmounting with a pending change stores it |
| Scenarios.ClearKeepsPendingTimer | src/hooks/useAutosave.js:60-71 | a clear empties the record, but the pending timer later writes the value back |
| Scenarios.OwnersAreSeparate | src/hooks/useAutosave.js:129-140 | another principal's record is neither listed nor loaded nor changed by our save |
| Scenarios.AccountsShareRecords | src/contexts/AuthContext.jsx:34-69 | two accounts get the same id, and the second loads what the first saved |
| Scenarios.SaveTriggersSave | src/hooks/useAutosave.js:16-40 | as written, the re-render after a timer's save runs the teardown cleanup, which writes the record again and puts a new entry at the head of the log, and leaves the condition for yet another save |
| Scenarios.SaveSettles | src/hooks/useAutosave.js:80-103 | as intended, the re-render after a timer's save arms nothing and leaves the store and the log as the save left them |
| Scenarios.SignOutTwice | src/contexts/AuthContext.jsx:64-69 | signing out is idempotent on the store |
| Scenarios.ReloadAfterSignIn | src/contexts/AuthContext.jsx:18-47 | a fresh provider over the store left by a sign-in restores the same principal and log |
| Scenarios.AliceName | src/contexts/AuthContext.jsx:39 | the default name for `alice@example.com` is `alice` |

## Left out

- React itself: rendering, context plumbing, state batching and stale closures. Each operation acts on the current state at once. The dependency lists are modelled only where they decide which cleanups run: in `ChangedAsRendered`, and in `Scenarios.SaveTriggersSave`, where `Unmount` stands for the cleanup that a renewed `addActivity` provokes.
- The re-render cascade (see Findings): the model shows one step of it, a save followed by the cleanup it provokes, and that the condition for the next step then holds. It does not model React's scheduling of those re-renders.
- `useAuth` and the error it throws outside a provider: this is context plumbing, with no state of its own.
- `isLoading` as seen by the page components: `loading` is modelled, but what the router renders from it is not.
- Asynchrony: `signIn`, `signUp` and `saveData` are `async` but never await, so their effects happen in the call.
- The delay as time: `Elapse` stands for the timer firing after `delay` milliseconds, and no clock advances.
- Console logging and the `try`/`catch` around store writes: a write that fails (a full store) is not modelled, so every write succeeds.
- Numbers: JSON numbers are integers here (JavaScript numbers are floating point), and entry ids are any integers the clock gives.
- Text: string lengths count characters, not UTF-16 code units, and the serializer escapes only `"` and `\`.
- Store order: the source lists keys in the store's own enumeration order. `GetAutosaveKeys` promises the set of keys, and the order is left free.
- Auth.LoadSession: a stored user or log that parses but does not have the shape this provider writes is reported as `Unrecognized` and not loaded. The source would put that value into its state as it is.
- Auth.DecodePrincipal: members the provider does not write are ignored, so they are not carried through a restore.
- Auth.AuthProvider.SignUp: a missing `name` argument is modelled as the empty string, which the source also replaces with the email prefix.
- Auth.AuthProvider.LoadSaved: it requires the state at mount (no principal, an empty log, still loading), because the effect runs once, right after mount.
- Passwords: `signIn` and `signUp` ignore them, and so does the model.
- Scenarios.SaveTriggersSave: in the source the cleanup's save calls the `addActivity` of the render before the timer's save, which prepends to the log as it was then, so its entry replaces the first save's entry instead of joining it. The model's `AddActivity` always prepends to the current log, so only the head entry is stated.
- Json.Parse: accepts only the exact texts `Serialize` writes. Valid JSON written in any other form (whitespace, `\n` or `\u` escapes, fractions or exponents) counts as unparsable. So for such a stored `user`, `LoadSaved` reports `Corrupt` and `loading` stays true, where the source would load the user, and `Load` finds nothing in such a record.

## Findings

| source | as written | input that shows it | evidently intended | confidence | as-written member | corrected member |
|---|---|---|---|---|---|---|
| src/hooks/useAutosave.js:105-113 | the unmount flush is an effect whose dependency list is `[saveData]`, and `saveData` changes with `data`; so its cleanup runs on every re-render that changes the data, and once any timer has been armed it saves the previous data at once | sign in, change the data to `v1`, then change it to `v2` within the delay: `v1` is stored immediately although the debounce should store only `v2` | the flush runs only on unmount, so a burst of changes stores only its last value when the timer fires | medium, not executed | Autosave.Autosave.ChangedAsRendered, shown by Scenarios.RerenderFlushesPrevious | Autosave.Autosave.Changed, shown by Scenarios.LastChangeWins |
| src/hooks/useAutosave.js:16-40 | `saveData` depends on `addActivity`, which the provider creates anew on every render (src/contexts/AuthContext.jsx:71). Each save calls `addActivity`, whose state update re-renders the provider. That renews `saveData`, so the teardown effect's cleanup runs; the handle is never reset, so the cleanup saves again, and the cycle repeats | sign in, change the data once and let the timer fire: the re-render that the save's log entry causes saves again, and so does every later one | a save happens once per timer or forced save, and the re-render it causes writes nothing | medium, not executed | Autosave.Autosave.Unmount run as that cleanup, shown by Scenarios.SaveTriggersSave | Autosave.Autosave.Changed, shown by Scenarios.SaveSettles |
