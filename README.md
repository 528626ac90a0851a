# To-do list component, modelled in Dafny

This project models the to-do list app's single React component (`App.js`) as
application state plus transitions, with each event handler treated as one
atomic step. The state is the task list, the "new task" inputs, the edit
session, the status filter and search text, the clock and the alarm.

- `options.dfy`, module `Options`: `Option`. The source writes it as `null`
  for the edit target and as `''` for the alarm.
- `seqs.dfy`, module `Seqs`: `Filter`, the model of `Array.prototype.filter`,
  plus the subsequence relation and the lemmas that the list operations share.
- `text.dfy`, module `Text`: `trim` (with JavaScript's exact set of white-space
  code points), `toLowerCase`, `includes`, and code-point (character-code) string order.
- `todos.dfy`, module `Todos`: the `Todo` record, the priorities, and the pure
  list operations. These are `toggleTodo`, `deleteTodo`, `saveEdit`'s rewrite
  of the list and `clearCompleted`, plus the items-left and progress figures.
- `view.dfy`, module `View`: `getFilteredTodos` and the render's priority sort.
- `alarm.dfy`, module `Alarm`: the alarm effect, one tick at a time and over a
  sequence of ticks.
- `app.dfy`, module `TodoApp`: class `App`, holding the component's state.
  Its methods are the handlers that update several state fields in sequence
  (`addTodo`, `startEditing`, `saveEdit`, `cancelEdit`) and the alarm effect.
  The methods that replace the list (`toggleTodo`, `deleteTodo`,
  `clearCompleted`) delegate to the pure functions. Each method's `modifies`
  clause names the fields it may change, so `startEditing` and `cancelEdit`
  provably never touch the list.

Points where the code decides the behaviour:

- The sort comparator is `b.priority.localeCompare(a.priority)`. This is
  descending string order of the labels ("Medium" > "Low" > "High"), not
  severity order, so the display shows Medium, then Low, then High.
  `Array.prototype.sort` is stable, so items of equal priority keep their
  filtered order.
- Ids come from `Date.now()` and nothing makes them unique. Toggle, delete and
  save-edit act on every item with the matching id.
- `startEditing` takes the row's values and does not check that an item with
  that id exists.
- `addTodo` stores the title as typed. Only the blank test uses `trim()`.

## Model

| member | source | states |
|---|---|---|
| `Text.Trim` | App.js:48 | trimming gives "" exactly when every character is JavaScript white space; a non-empty result has no white space at either end |
| `TodoApp.BlankTitles` | App.js:48 | a title of spaces counts as blank and "Buy milk" does not |
| `Text.Includes` | App.js:121 | `includes` holds exactly when the pattern occurs at some position of the text |
| `Text.IncludesEmpty` | App.js:120-121 | every text includes the empty string |
| `Text.LowerChar` | App.js:121 | upper-case ASCII letters map to their lower-case letters; every other character is unchanged |
| `Seqs.Filter` | App.js:75 | the result is an order-preserving subsequence that keeps each element the test accepts, with its multiplicity, and drops every other element |
| `Todos.NewTodo` | App.js:50-57 | the new item has the given id, the four input fields verbatim, and `completed` false |
| `TodoApp.App.AddTodo` | App.js:47-64 | a blank title changes neither the list nor the inputs; otherwise exactly one new item is appended after the unchanged earlier items, and the inputs reset to '', '', Low, '' |
| `Todos.Toggle` | App.js:66-72 | same length and order; every field except `completed` is kept; `completed` flips exactly on the items with the id |
| `Todos.ToggleTwice` | App.js:66-72 | toggling the same id twice restores the list |
| `Todos.ToggleAbsent` | App.js:66-72 | toggling an id no item has changes nothing |
| `TodoApp.App.ToggleTodo` | App.js:66-72 | the new list is the toggled old list; nothing else changes |
| `Todos.Delete` | App.js:74-76 | the result is an order-preserving subsequence holding exactly the items with another id, each with its multiplicity |
| `Todos.DeleteAbsent` | App.js:74-76 | deleting an absent id is a no-op |
| `Todos.DeleteIdempotent` | App.js:74-76 | a second delete of the same id changes nothing |
| `TodoApp.App.DeleteTodo` | App.js:74-76 | the new list is the old list without that id; nothing else changes |
| `TodoApp.App.StartEditing` | App.js:78-84 | the session targets the id and holds the given fields, replacing any open session; the list is not touched |
| `Todos.WithFields` | App.js:91 | the four editable fields are replaced; `id` and `completed` are kept |
| `Todos.Update` | App.js:89-93 | same length; ids and `completed` kept; items whose id is the target get the working fields; every other item keeps its fields |
| `Todos.UpdateNoTarget` | App.js:89-93 | with no edit target (null) the list is unchanged |
| `TodoApp.App.SaveEdit` | App.js:86-99 | a blank working title changes nothing and the session stays open; otherwise the list is rewritten and the session resets to null, '', '', Low, '' |
| `TodoApp.App.CancelEdit` | App.js:101-107 | the session resets to null, '', '', Low, ''; the list is not touched |
| `Todos.ClearCompleted` | App.js:109-111 | no completed item remains; every active item is kept with its multiplicity, in the original order |
| `Todos.ClearCompletedIdempotent` | App.js:109-111 | clearing twice is clearing once |
| `Todos.ClearCompletedKeepsItemsLeft` | App.js:109-111 | clearing completed items leaves the items-left count unchanged |
| `TodoApp.App.ClearCompletedTodos` | App.js:109-111 | the new list is the cleared old list; nothing else changes |
| `Todos.ItemsLeft` | App.js:239 | the count is at most the list length, and equals it exactly when no item is completed |
| `Todos.CompletedCount` | App.js:140 | completed and active items together make up the whole list |
| `Todos.Percentage` | App.js:140 | 100·done/total rounded to the nearest whole number, a half rounded up; between 0 and 100; 0 when nothing is done and 100 when everything is |
| `Todos.ProgressAsWritten` | App.js:140 | as written, the figure is NaN exactly for the empty list and otherwise the rounded percentage |
| `Todos.EmptyListShowsNaN` | App.js:140 | an empty list shows NaN |
| `Todos.Progress` | App.js:140 | for a non-empty list, the completed share rounded by `Todos.Percentage` (100·done/total to the nearest whole number, a half rounded up); between 0 and 100; 0 when nothing is completed (the empty list included); 100 for a non-empty list with nothing left |
| `Todos.HalfDoneIsFifty` | App.js:140 | two items, one completed, give 50 |
| `View.EmptySearchMatchesAll` | App.js:120-122 | an empty search matches every item, so skipping the search step changes nothing |
| `View.FilteredTodos` | App.js:113-124 | an order-preserving subsequence that holds exactly the items passing the status test and the case-insensitive title search, each with its multiplicity |
| `View.RankFollowsLabels` | App.js:186 | a priority ranks before another exactly when the other's label is smaller in string order, as the comparator has it |
| `View.SortByPriority` | App.js:186 | the result is in rank order (Medium, Low, High), a permutation of the input, and stable: each priority group keeps its input order |
| `View.SortUnique` | App.js:186 | any list in rank order with the same priority groups equals the sort's result, so the sort is fully determined |
| `View.SortIdempotent` | App.js:186 | sorting a sorted list changes nothing |
| `View.DisplayList` | App.js:186 | the displayed list is in rank order, holds exactly the items that pass the filter and the search, and keeps the filtered order within each priority (the sort is stable) |
| `View.LowShownBeforeHigh` | App.js:186 | "Buy milk" (Low) then "Pay rent" (High) display in that order |
| `View.StoreAfterRender` | App.js:186 | as written, the render leaves a permutation of the list; it is reordered only under filter 'all' with no search, and there it becomes the rank-sorted, stable order `View.SortByPriority` gives; the reordered list displays the same as the list it came from, under any filter and search |
| `View.SortedStoreDisplaysAlike` | App.js:186 | sorting the stored list changes no display, under any filter and search |
| `View.RenderReordersStore` | App.js:186 | a High item added before a Low one trades places in the stored list after one render |
| `View.EditAfterRenderShows` | App.js:186 | a High item, a Low item and a Medium item, rendered once under 'all' with no search, then the High item saved as Low: the display of the reordered stored list differs from the display of the list in insertion order |
| `Alarm.TimeText` | App.js:41 | the "HH:MM" text is five characters: two digits, a colon, two digits; the first pair reads back as the hour m/60 and the second as the minute m%60 |
| `Alarm.TimeTextInjective` | App.js:41 | equal "HH:MM" texts mean equal minutes, so comparing the texts compares minutes |
| `Alarm.CheckAlarm` | App.js:39-45 | rings exactly when an alarm is set and equals the current minute; after ringing the alarm is cleared, otherwise unchanged |
| `Alarm.Replay` | App.js:39-45 | over any sequence of ticks the alarm rings at most once, and rings exactly when some tick falls in the alarm's minute; then the alarm ends cleared |
| `Alarm.SilentWhenUnset` | App.js:41 | with no alarm set, no tick ever rings |
| `Alarm.RingsOnceAtEight` | App.js:39-45 | armed for 08:00, ticks at 07:59, 08:00, 08:00:30, 08:01 and 09:00 ring once and leave the alarm cleared |
| `TodoApp.App.constructor` | App.js:5-25 | after mounting, the stored list is loaded and every other field has its initial value |
| `TodoApp.App.Tick` | App.js:28-45 | the clock takes the new time; the alarm effect then rings exactly on a match and clears the alarm |
| `TodoApp.App.SetAlarm` | App.js:254-258 | setting the alarm reruns the effect at the current clock, ringing at once if the new alarm is the current minute |

## Findings

| source | as written | input that shows it | evidently intended | confidence | as-written member | corrected member |
|---|---|---|---|---|---|---|
| App.js:186 | With filter 'all' and an empty search, `getFilteredTodos` returns the `todos` state array itself, and `.sort` reorders that array in place. The stored order changes without `setTodos`, and the next save persists it. | todos = [Pay rent (High), Buy milk (Low)], filter 'all', search '': after one render the state array is [Buy milk, Pay rent]. With [Pay rent (High), Buy milk (Low), Call mom (Medium)], one render and then "Pay rent" saved as Low, the page shows [Call mom, Buy milk, Pay rent] where insertion order gives [Call mom, Pay rent, Buy milk] | sort a copy, so the list keeps insertion order. The same list displays the same either way (`View.SortedStoreDisplaysAlike`), but a later save that moves an item to another priority group shows the reordering | high, not executed | `View.StoreAfterRender`, `View.RenderReordersStore`, `View.EditAfterRenderShows` | `View.DisplayList` |
| App.js:140 | `Math.round(done / todos.length * 100)` divides 0 by 0 when the list is empty | todos = []: the page shows "Progress: NaN%" | an empty list shows 0% | high, not executed | `Todos.ProgressAsWritten`, `Todos.EmptyListShowsNaN` | `Todos.Progress` |

`View.DisplayList` is a function of the list, the filter and the search, so it
cannot change the stored list. The class `TodoApp.App` has no render step, so
its list keeps insertion order, as the intended program would. `Todos.Progress` is defined for every list and
stays between 0 and 100.

## Left out

- Rendering, JSX and the `useState`/`useEffect` wiring (App.js:142-279) are not modelled. This includes setter batching: each handler is one atomic method.
- The `onChange` handlers of the inputs and buttons (App.js:148-183, 198-217) are plain field assignments. The class fields are public and a caller assigns them directly. `setAlarmTime` (App.js:257) is the method `SetAlarm`, because changing the alarm reruns the alarm effect.
- Loading from and saving to `localStorage`, with `JSON.parse`/`JSON.stringify` (App.js:23-25, 35-37), are external I/O. The stored list is a parameter of the constructor, and the write on every list change is not modelled.
- `setInterval`/`clearInterval` and `new Date()` (App.js:20, 28-32) are not modelled. The clock is a parameter: seconds since local midnight. The locale clock display (App.js:250) is not modelled.
- `alert` (App.js:42) is not modelled; ringing is the boolean result `rang`.
- `Date.now()` id generation (App.js:51) is not modelled; the id is a parameter of `AddTodo`, and ids are not assumed unique.
- Dark mode and the details popup (App.js:126-138, 262-277) are pure presentation and are not modelled.
- The list in class `TodoApp.App` keeps insertion order, not the order the in-place sort at App.js:186 leaves behind. After a save that moves an item to another priority group, its display therefore follows the corrected program, not the program as written (`View.EditAfterRenderShows`).
- Priorities are the three options of the selector. A stored item holding any other string is not modelled.
- View.RankFollowsLabels: relates the rank to code-point (character-code) string order of the three labels. For "High", "Low" and "Medium" this agrees with `localeCompare`, whose other locale rules are not modelled.
- Text.LowerChar: maps only the ASCII letters A-Z, because the full Unicode case mapping of `toLowerCase` is not modelled.
- Todos.Percentage: rounds the exact rational 100·done/total. The double-precision value `done / total * 100` can land just off an exact half, which is not modelled.
- Alarm.TimeText: the "HH:MM" text stands for both `toTimeString().slice(0, 5)` and the time input's value. The alarm is kept as the minute the text denotes, with no alarm for ''. `Alarm.TimeTextInjective` shows that comparing the texts is comparing the minutes.
