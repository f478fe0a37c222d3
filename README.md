# GYM-S workout log store, modelled in Dafny

GYM-S is a single-page workout tracker. Its script keeps two things in the
browser's localStorage, each as a JSON value under its own key:

- `exercises`: the exercise log, a list of entries `{exercicio, repeticoes,
  series, peso, id}`. The four fields are the raw strings typed into the form.
  `id` is the `Date.now()` timestamp taken at submission.
- `dayStates`: one boolean per weekday checkbox, addressed by the checkbox's
  index.

This project models that store and proves what its operations do:

- the submit handler's validation;
- `saveExercise`, which appends an entry;
- `deleteExercise`, which filters entries out by id;
- `saveDayState`, which writes one flag;
- `loadDayStates`, which reads every flag back with a `false` default.

Modules:

- `Options` (`options.dfy`): `Option`, used for a missing key and for a JSON `null`.
- `ExerciseLog` (`exercise_log.dfy`): entries, the validation, the delete
  filter `Without`, and the lemmas about them.
- `DayStates` (`day_states.dfy`): the JavaScript array assignment `SetAt`
  (growing the array leaves holes), the read-with-default `Checked`, and
  their lemmas.
- `GymStore` (`store.dfy`): the class `Store`. Its two fields stand for the
  two keys, and its methods read a key, change the value and write it back,
  as the script does. Three client methods compose those methods.

A key's value is `None` when the key is missing or holds `null`. Every read
goes through `OrEmpty`, the script's `|| []`. A day position is
`Option<bool>`: `None` is a hole, which `JSON.stringify` writes as `null`. It
is distinct from a stored `false`. The `Date.now()` id is a parameter (`now`),
and nothing assumes it is unique or increasing.

What the code checks and stores:

- Each field must be a non-empty string, and nothing more. Reps, sets and
  weight are never read as numbers, and a field holding only spaces is
  accepted.
- Ids are timestamps and are not guaranteed unique. A delete removes every
  entry carrying the id.
- The day-flag array is as long as the highest index saved so far, plus one.
- There is no edit operation, no personal record and no streak.

## Model

| member | source | states |
|---|---|---|
| `ExerciseLog.Validate` | script.js:23-36 | a submission is rejected exactly when one of the four fields is the empty string; an accepted one becomes an entry with all four fields non-empty, carrying the form's strings unchanged and the given timestamp as id |
| `ExerciseLog.Without` | script.js:99 | the filter keeps exactly the entries whose id differs from the deleted id (an entry is in the result iff it was in the list with another id), and the result is no longer than the list |
| `ExerciseLog.KeptPositions` | script.js:99 | the positions a filter keeps, in strictly increasing order: every position whose entry has another id appears, and no other |
| `ExerciseLog.WithoutAppend` | script.js:99 | filtering a concatenation is the concatenation of the filtered parts |
| `ExerciseLog.WithoutAtKeptPositions` | script.js:98-100 | the filtered list is the original entries at the kept positions, in order: every entry with the id is removed (there may be several), and the others keep their relative order |
| `ExerciseLog.WithoutAbsent` | script.js:98-100 | deleting an id that no entry carries leaves the list unchanged |
| `ExerciseLog.WithoutIdempotent` | script.js:98-100 | deleting the same id twice gives the same list as deleting it once |
| `ExerciseLog.SaveThenDelete` | script.js:92-100 | appending an entry whose id is fresh and then deleting that id gives back the previous list |
| `DayStates.SetAt` | script.js:105 | the assignment sets position `index` to the state and leaves every other existing position unchanged; the length becomes max(old length, index + 1); positions created between the old end and `index` are holes |
| `DayStates.Checked` | script.js:112 | a checkbox shows the stored boolean at its index, and `false` when that position is a hole or past the end |
| `DayStates.LoadAfterSave` | script.js:103-113 | after saving `state` at `index`, loading gives `state` at `index` and the previous value at every other index |
| `DayStates.SetAtIdempotent` | script.js:103-106 | saving the same flag twice gives the same array as saving it once |
| `GymStore.OrEmpty` | script.js:66 | the empty-list default of every read: a missing key (or `null`) reads as the empty list, a stored list reads as itself |
| `GymStore.Store.Exercises` | script.js:98 | the exercise list every reader sees: empty when the `exercises` key is missing, the stored list otherwise |
| `GymStore.Store.Days` | script.js:110 | the day flags every reader sees: empty when the `dayStates` key is missing, the stored flags otherwise |
| `GymStore.Store.SaveExercise` | script.js:65-69 | the stored list becomes the previous list (empty if the key was missing) with the entry appended at the end; the day flags are untouched |
| `GymStore.Store.Submit` | script.js:14-46 | the submission is accepted iff all four fields are non-empty; a rejected one leaves the store unchanged; an accepted one appends the new entry; either way, a log whose entries all have non-empty fields keeps that property |
| `GymStore.Store.DeleteExercise` | script.js:92-100 | the stored list becomes the filtered previous list (the key is written even if it was missing), no entry with the id remains, the day flags are untouched, and a log of complete entries stays complete |
| `GymStore.Store.SaveDayState` | script.js:103-107 | the stored flags become the previous flags (empty if the key was missing) with the one position set; the exercise log is untouched |
| `GymStore.Store.LoadDayStates` | script.js:109-114 | every checkbox is set to the stored flag at its index, `false` for a hole or a missing position |
| `GymStore.FirstSave` | script.js:65-69 | on any store with no `exercises` key the first save writes a one-entry list and leaves the day flags as they were |
| `GymStore.DeleteOnMissingKey` | script.js:98-100 | on a store with no `exercises` key a delete writes the empty list under the key and leaves the day flags as they were |
| `GymStore.SaveThenDeleteRestores` | script.js:92-100 | on the store, saving an entry with a fresh id and then deleting it restores the previous list |
| `GymStore.SaveThenLoad` | script.js:103-113 | on the store, a flag saved and then loaded shows on its checkbox |

## Left out

- DOM wiring: building list items (`addExerciseToList`), removing the list
  item on delete, resetting the form, the flip-view buttons, `alert`, and the
  registration of event listeners. These are presentation with no logic of
  their own. `loadExercises` is modelled only as the read `Store.Exercises`,
  because the rest of it is rendering.
- localStorage and JSON as real APIs: they are direct state here. A value
  under a key that is not valid JSON is not modelled, because `JSON.parse`
  would throw. Neither is a stored value that is valid JSON but not an array
  (of entries, or of booleans and nulls): a truthy non-array would make
  `push` throw, and a falsy one (`0`, `false`, `""`) is replaced by the
  `|| []` default just like `null`.
- `Date.now()`: the clock is replaced by the `now` parameter.
- The number of weekday checkboxes comes from the page's markup, which is not
  part of this model. `LoadDayStates` takes a checkbox array of any length.
- Personal records, streaks, per-day summaries, editing entries and creation
  dates do not exist in this script, so they are not modelled.
