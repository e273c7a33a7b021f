# WHTHApp to-do store in Dafny

WHTHApp is a one-screen React Native to-do list with two tabs, Work and
Travel. All of its logic lives in the `App` component of `App.js`. That
component holds:

- `toDos`: a map from an id string to an item `{text, working, done}`;
- `working`: the active-tab flag, true for Work;
- `text`: the draft in the main input;
- `editKey` and `edit`: the key of the row in edit mode ("" for none) and the draft in its edit box.

Each event handler updates these fields. The handlers that change `toDos` or
the flag also write the new value to AsyncStorage, under `@toDos` and
`@working`.

The model has four modules:

- `DecimalKey` (`decimal_key.dfy`): the id of a new item, which is the decimal
  string of the clock reading `Date.now()`. It proves the id is non-empty and
  made of digits, and that distinct readings give distinct ids.
- `ToDos` (`todos.dfy`): items and render rows as values. It holds the
  category filter and the edit-row selection of the render, the map
  transformations that the handlers perform, the start-up load, and the
  lemmas about them: toggling is an involution, no edit moves an item between
  tabs, a new item shows under the tab it was added on, and the size changes.
- `AppState` (`app_state.dfy`): class `App`. The state hooks are its fields,
  and the two storage keys are `savedToDos`/`savedWorking` (`None` = key
  absent). There is one method per handler, and each states its complete new
  state in terms of the `ToDos` functions. The invariant `Valid()` says that
  no item sits under the empty key. It also says that reloading the saved
  snapshot gives exactly the state in memory. `BuyMilk` walks through a
  first run with the Work default: add, toggle, cancelled edit, confirmed delete.
- `FirstRun` (`first_run.dfy`): the start-up flag load as the code writes
  it, and the defect it causes (see Findings).

Two behaviours of the code shape the model:

- App.js:60 files each item under `Date.now()`, so two adds in the same
  millisecond share a key and the second overwrites the first
  (`ToDos.SameTickOverwrites`). The model follows the code here.
- `@toDos` falls back to the hook's initial `{}` when the key is absent
  (App.js:25, 46-48). `@working` does not: App.js:52 loads `null` (see
  Findings). Here the model does not follow the code. `App` starts a first
  run on Work, the hook's initial value (App.js:23), and `FirstRun` models the
  code as written.

## Model

| member | source | states |
|---|---|---|
| DecimalKey.DecimalString | App.js:60 | the id of a clock reading is non-empty, all decimal digits, with no leading zero unless the reading is 0 |
| DecimalKey.DecimalRoundTrip | App.js:60 | reading the id back as a decimal number gives the clock reading it was made from |
| DecimalKey.DecimalStringInjective | App.js:60 | two different clock readings never produce the same id |
| ToDos.Visible | App.js:165-166 | a key is listed exactly when it is in the map and its item's `working` equals the flag |
| ToDos.VisiblePartition | App.js:165-166 | each item is listed under exactly one tab: under Work iff its `working` is true; the two listings are disjoint and together cover the map |
| ToDos.Rows | App.js:165-191 | one row per listed key; a row is an edit box iff its key equals `editKey`, and that box holds the draft; every other row shows the item's text and done state; at most one row is in edit mode |
| ToDos.NoEditBoxWhenIdle | App.js:168 | with `editKey` empty and no item under "", no row is in edit mode |
| ToDos.Added | App.js:58-61 | adding files `{text, working, done: false}` under the clock's id, overwriting any entry there, and keeps every other entry |
| ToDos.Removed | App.js:70-71 | deleting removes exactly the key and keeps every other entry; an absent key changes nothing |
| ToDos.Toggled | App.js:91-92 | toggling negates `done` of that item, keeps its text and category, keeps every other entry and the key set |
| ToDos.Retexted | App.js:102-103 | editing replaces the item's text, keeps its category and done state, keeps every other entry and the key set |
| ToDos.ToggledTwice | App.js:90-95 | toggling the same item twice restores the original list |
| ToDos.EditsKeepCategories | App.js:66-107 | toggle, edit and delete never move an item to the other tab and never add an item |
| ToDos.EditsKeepVisible | App.js:66-107 | toggle and edit leave both tabs' listings unchanged; delete removes only its key from a listing |
| ToDos.AddedVisible | App.js:58-61 | a new item is listed under the tab active when it was added and disappears from the other tab's listing |
| ToDos.AddedSize | App.js:58-61 | adding grows the list by one, or by none when the id was already taken (overwrite) |
| ToDos.RemovedSize | App.js:66-88 | deleting a present key shrinks the list by exactly one |
| ToDos.SameTickOverwrites | App.js:58-61 | two adds at the same clock reading leave only the second item under that id |
| ToDos.DistinctTicksKeepBoth | App.js:58-61 | two adds at different clock readings keep both items with their own text and category |
| ToDos.LoadedToDos | App.js:43-49 | at start-up the list is the stored map, or empty when `@toDos` is absent |
| ToDos.LoadedWorking | App.js:23 | at start-up the flag is the stored one, or Work when `@working` is absent (intended default; see Findings) |
| AppState.App.constructor | App.js:22-33 | start-up: stored list and flag loaded, both drafts and the edit key empty, invariant established |
| AppState.App.Work | App.js:114-118 | tapping Work sets the flag to true and stores it; nothing else changes |
| AppState.App.Travel | App.js:130-134 | tapping Travel sets the flag to false and stores it; nothing else changes |
| AppState.App.ChangeText | App.js:36 | typing sets the main draft; nothing else changes |
| AppState.App.AddToDo | App.js:54-65 | an empty draft changes nothing and is not cleared; otherwise the list becomes `Added` of the old list with the current flag, the snapshot is saved, and the draft is cleared |
| AppState.App.DeleteToDo | App.js:66-89 | when confirmed the list becomes `Removed` of the old list and is saved; when cancelled, list and storage are unchanged |
| AppState.App.CheckToDo | App.js:90-95 | the list becomes `Toggled` of the old list and is saved |
| AppState.App.StartEdit | App.js:195-198 | the pencil puts that key in edit mode with the draft seeded from its text; the row becomes the edit box |
| AppState.App.EditText | App.js:109 | typing in the edit box sets the edit draft only |
| AppState.App.EditToDo | App.js:96-108 | an empty draft leaves list and storage unchanged; otherwise the list becomes `Retexted` at `editKey` and is saved; either way edit mode ends and no row is an edit box |
| AppState.BuyMilk | App.js:54-108 | a first run with the intended Work default: the added item is `{"Buy milk", Work, not done}`, toggling makes it done, an empty edit keeps it, and a confirmed delete empties the list |
| FirstRun.LoadWorkingAsWritten | App.js:50-53 | as written, the loaded flag is null exactly when `@working` is absent, otherwise the stored boolean |
| FirstRun.VisibleAsWritten | App.js:165-166 | as written, the listed keys (strict equality with a possibly-null flag) are keys of the map |
| FirstRun.FirstRunItemOrphaned | App.js:50-53 | as written, an item added on a first run before any tab tap is listed while the flag is null (also after restarts before any tap), but under neither tab once a tab has been tapped, then and at every later start-up |
| FirstRun.FirstRunItemOnWorkTab | App.js:23 | with the intended default, that item is filed under Work and listed there and nowhere else |

## Findings

| source | as written | input that shows it | evidently intended | confidence | as-written member | corrected member |
|---|---|---|---|---|---|---|
| App.js:50-53 | the flag is set to `JSON.parse(getItem("@working"))`, which is `null` when the key is absent | first run with empty storage: type "x", submit, then tap Work (or Travel) | an absent key leaves the flag at its initial value, Work, as for `@toDos` | high (not executed) | FirstRun.FirstRunItemOrphaned | FirstRun.FirstRunItemOnWorkTab |

## Left out

- AppState.App.constructor, ToDos.LoadedWorking and AppState.BuyMilk: a first run with no stored `@working` starts on Work, where App.js:52 loads `null`. The as-written behaviour, and the items it hides, are in `FirstRun`.
- AsyncStorage I/O. The writes are never awaited. The model treats each write as completing at once and in order, so it does not capture write failures or reordering.
- JSON encoding. Storage holds decoded values. A malformed stored value, which makes `JSON.parse` throw at start-up, is not modelled.
- Start-up timing. `App.constructor` performs both loads at once. The loading spinner and a tap that lands before `loadWorking` finishes are not modelled.
- `App.constructor` requires that a stored list has no entry under "". Only this app writes `@toDos`, and its ids are decimal strings.
- `Date.now()`. The clock reading is the parameter `now`. Readings of 10^21 or more, which JavaScript writes in exponent form, are not modelled.
- The platform confirmation prompt (`confirm` on web, `Alert.alert` elsewhere). It becomes the `confirmed` argument, because both branches have the same effect. The `Alert` callback's closure over the list as it was rendered is not modelled, because the prompt is modal.
- Object aliasing. `checkToDo` and `editToDo` change the shared item object through a shallow copy. The model updates values. React re-render semantics are not modelled.
- Order. The model gives the set of rows, not their order in `Object.keys`.
- Rendering details: styling, icons, placeholder text, the `StatusBar` and `StyleSheet`.
- `work`/`travel` (App.js:34-35) are folded into the header tap handlers, their only callers.
- AppState.App.CheckToDo, AppState.App.StartEdit and AppState.App.EditToDo require the key to be present, or `editKey` for a non-empty draft. The buttons and the edit box exist only on rendered rows. The code would throw on an absent key.
