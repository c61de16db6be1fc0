# To-do dashboard core, modelled and proved in Dafny

This project models the rules behind a home-care agency's to-do dashboard (a React app). The dashboard holds a list of cases and an in-memory collection of to-do items. Each item is a categorized note attached to a case: contact, record, billing, invoice or cancel, which stands for an urgent cancellation.

The model covers these parts:

- **Collection commands** of the application shell. These add (prepend), toggle status, edit content and delete behind a confirmation. The shell also holds its own state: the selected case, the drawer flag and the current view.
- **Triage of the global to-do view.**
  - There are three buckets:
    - *due*: pending items that are due today or in the cancel category. This bucket ignores every filter.
    - *logs*: filtered items created on the selected date, pending or completed.
    - *backlog*: filtered pending items that are not due.
  - Each bucket is sorted newest first.
  - The same view also has its counters and the multi-select category filter.
- **The case drawer.** It shows the selected case's items newest first, renders only when it is open with a case selected, and has an inline single-slot editor.
- **The composer.** This is the draft state machine that refuses blank submissions and resets after a successful one.

## Modules

| file | module | role |
|---|---|---|
| types.dfy | `Types` | `Category`, `Status`, `Case`, `TodoItem` (optional `dueDate`), `ViewState`, `Option` |
| text.dfy | `Text` | The JavaScript string operations the components call: `trim` (the ECMAScript white-space and line-terminator set), ASCII `toLowerCase`, `includes`, `split(sep)[0]`, and `replace` with a one-character pattern |
| seqs.dfy | `Seqs` | `Array.prototype.filter` as `Keep`, with its partition, monotonicity, concatenation and counting facts |
| ordering.dfy | `Ordering` | The stable newest-first sort, as a sorted permutation |
| case_lookup.dfy | `CaseLookup` | `cases.find(c => c.id === caseId)` |
| todo_commands.dfy | `TodoCommands` | The list transformations behind add, toggle, edit and delete, and the creation stamp |
| global_todo_list.dfy | `GlobalTodoList` | Filters, the two-pass grouping (loops), the specification it meets, counters and category toggling |
| edit_session.dfy | `EditSession` | The `editingId` / `editText` slot, a class |
| case_drawer.dfy | `CaseDrawer` | The drawer's timeline and render guard |
| todo_input.dfy | `TodoInput` | The composer, a class |
| app_shell.dfy | `App` | The shell state and its handlers, a class; the sidebar routing |
| mock_data.dfy | `MockData`, `Scenarios` | The seed data and concrete grouping facts about it |

The triage follows the source's own form:

- `GlobalTodoList.CollectDue` and `GlobalTodoList.CollectLogsAndBacklog` are the two `forEach` passes, written as loops.
- Each loop is proved equal to a filter (`DueItems`, `LogItems`, `BacklogItems`).
- `GlobalTodoList.GroupTodos` then sorts the buckets and is proved equal to `GlobalTodoList.Grouped`.
- `Grouped` carries the bucket-membership, multiplicity, disjointness and order properties.

Several inputs come from outside the code and are parameters of the model:

- **The clock.** It is an ISO 8601 UTC instant `isoNow` or `today`, as `new Date().toISOString()` yields. The creation stamp is its first 16 characters with the first `T` replaced by a space. "Today" is the part before the first `T`.
- **The timestamp parse.** `new Date(createdAt).getTime()` is an arbitrary function `stamp: string -> int`.
- **The random id.** The new item's id is a parameter.
- **The confirmation prompt.** `window.confirm` is a boolean `confirmed`.

## Model

| member | source | states |
|---|---|---|
| Text.Trim | components/TodoInput.tsx:18 | The trimmed text is empty exactly when every character is ECMAScript white space; otherwise it neither starts nor ends with white space |
| Text.TrimStart | components/TodoInput.tsx:70 | Drops exactly the leading white space: the result is a suffix of the input starting at a non-space |
| Text.TrimEnd | components/TodoInput.tsx:70 | Drops exactly the trailing white space: the result is a prefix of the input ending at a non-space |
| Text.LowerIdempotent | components/GlobalTodoList.tsx:103-104 | Lower-casing twice is lower-casing once, so both sides of the search comparison are in one normal form |
| Text.Lower | components/GlobalTodoList.tsx:103 | Lower-casing keeps the length |
| Text.Contains | components/GlobalTodoList.tsx:104 | Definition, no contract: `includes`, the needle starts at some position of the text |
| Text.IsBlank | components/TodoInput.tsx:18 | Definition, no contract: `!s.trim()`, the trimmed text is empty |
| Text.BeforeFirst | components/GlobalTodoList.tsx:109 | `split(sep)[0]` is the longest prefix free of the separator, followed by the separator when shorter than the input |
| Text.BeforeFirstAt | components/GlobalTodoList.tsx:109 | When position k holds the first separator, `split(sep)[0]` is exactly the first k characters |
| Text.ReplaceFirst | App.tsx:57 | A one-character `replace` keeps the length and changes nothing when the pattern is absent |
| Text.ReplaceFirstAt | App.tsx:57 | Only the first occurrence of the pattern is replaced; everything before and after it is kept |
| Seqs.Keep | App.tsx:79 | The filter keeps exactly the elements that satisfy the test, each as often as the input has it, and never grows |
| Seqs.KeepConcat | App.tsx:79 | Filtering distributes over concatenation, so the kept elements stay in their original relative order |
| Seqs.KeepPartition | components/GlobalTodoList.tsx:51-52 | Filtering by a test and by its negation splits the input's length |
| Seqs.KeepMonotone | components/GlobalTodoList.tsx:53 | A weaker test keeps at least as many elements |
| Seqs.KeepAll | components/GlobalTodoList.tsx:61 | A test that every element passes keeps the whole sequence |
| Seqs.KeepCountsPositions | components/GlobalTodoList.tsx:51-53 | A filter's length is the number of positions whose element passes the test |
| Seqs.AppendNoDuplicates | components/GlobalTodoList.tsx:62 | Appending an absent element keeps a sequence duplicate-free |
| Seqs.KeepNoDuplicates | components/GlobalTodoList.tsx:61 | Filtering keeps a sequence duplicate-free |
| Ordering.Insert | components/GlobalTodoList.tsx:123 | Inserting into a newest-first list keeps it newest first, adds exactly the one item and keeps every other item |
| Ordering.NewestFirst | components/GlobalTodoList.tsx:123-126 | The sort yields a permutation of its input that is non-increasing by creation stamp |
| Ordering.NewestFirstOfOrdered | components/CaseDrawer.tsx:39 | An input already newest first is returned unchanged |
| Ordering.InsertStable | components/GlobalTodoList.tsx:123 | Inserting an item keeps, within every stamp, the order the item and the list had: the new item ahead of the old items of its stamp |
| Ordering.NewestFirstStable | components/GlobalTodoList.tsx:123-126 | The sort is stable: for every stamp, the items carrying it come out in exactly their input order, on every input |
| Seqs.KeepSwapHeads | components/GlobalTodoList.tsx:123 | Two leading elements that a filter does not both keep can trade places without changing its result |
| Ordering.LatestLeads | App.tsx:60 | An item at least as new as all others, placed first, is still first after sorting, ties included |
| Ordering.NewestFirstOfKeep | components/CaseDrawer.tsx:37-39 | Filtering then sorting keeps each passing item exactly as often as the input has it, and no other item |
| CaseLookup.FindCase | App.tsx:44 | No case is found exactly when no case has the id; a found case has the id and is the first such case |
| TodoCommands.CreatedAtFromIso | App.tsx:57 | The stamp keeps min(length, 16) characters of the clock's text; for a well-formed ISO instant it is exactly `yyyy-mm-dd hh:mm`, the date and the minute with the `T` replaced by a space |
| TodoCommands.DateFromIso | components/GlobalTodoList.tsx:36 | "Today" is a prefix of the instant without `T`; for a well-formed instant it is exactly the instant's first 10 characters, its date |
| TodoCommands.CreatedDate | components/GlobalTodoList.tsx:109 | An item's creation date is the prefix of its stamp up to, not including, the first space |
| TodoCommands.CreatedDateMatchesIso | components/GlobalTodoList.tsx:36 | For a well-formed ISO instant, the stamp is `yyyy-mm-dd hh:mm`, and its date part equals the "today" that the global view derives from the same instant |
| TodoCommands.AddTodo | App.tsx:50-60 | The new list is one longer; the old items follow unchanged and in order. The head has the given id, case, content and category, is pending, is by the current user, has no due date and is stamped from the clock |
| TodoCommands.AddKeepsIdsUnique | App.tsx:52 | With a fresh id, adding keeps ids unique |
| TodoCommands.AddedItemLeadsTimeline | App.tsx:57-60 | When the clock is not behind any existing stamp, the new item heads the sorted timeline |
| TodoCommands.ToggleTodo | App.tsx:63-69 | Length is kept; every item keeps all its fields but status; an item's status changes exactly when its id matches |
| TodoCommands.ToggleTwice | App.tsx:63-69 | Toggling the same id twice restores the original list |
| TodoCommands.ToggleAbsent | App.tsx:63-69 | Toggling an id no item has changes nothing |
| TodoCommands.EditTodo | App.tsx:71-75 | Length is kept; every item keeps all its fields but content; matching items get the new content, others keep theirs |
| TodoCommands.EditAbsent | App.tsx:71-75 | Editing an id no item has changes nothing |
| TodoCommands.ToggleAndEditKeepIds | App.tsx:63-75 | Toggle and edit keep every position's id, and hence unique ids |
| TodoCommands.DeleteTodo | App.tsx:77-81 | A declined prompt leaves the list identical. A confirmed one keeps exactly the items with another id and shortens the list by the number of matches |
| TodoCommands.DeleteKeepsOrder | App.tsx:79 | Deleting distributes over concatenation: the survivors keep their relative order |
| TodoCommands.DeleteKeepsIdsUnique | App.tsx:79 | Deleting keeps ids unique |
| GlobalTodoList.IsDue | components/GlobalTodoList.tsx:82-88 | Definition, no contract: pending, and due today or in the cancel category |
| GlobalTodoList.PassesCategory | components/GlobalTodoList.tsx:98 | Definition, no contract: an empty selection passes everything, otherwise the category must be selected |
| GlobalTodoList.PassesSearch | components/GlobalTodoList.tsx:101-104 | Definition, no contract: an empty search passes everything, otherwise the lower-cased search occurs in the lower-cased content, case number and patient name |
| CaseLookup.PatientNameOf | components/GlobalTodoList.tsx:103 | Definition, no contract: the found case's patient name, or the empty text when no case has the id |
| GlobalTodoList.InitialFilters | components/GlobalTodoList.tsx:36-43 | The view opens on today's log with no category selected and an empty search, so every item passes the filters |
| GlobalTodoList.Grouped | components/GlobalTodoList.tsx:71-129 | Due holds every pending item due today or in the cancel category. Logs holds every filter-passing item created on the selected date. Backlog holds every filter-passing pending item whose id is not in due. Each item appears as often as in the collection, due and backlog share no id, and every bucket is newest first |
| GlobalTodoList.CollectDue | components/GlobalTodoList.tsx:78-92 | The first pass collects exactly the due items in collection order, and the set of their ids |
| GlobalTodoList.CollectLogsAndBacklog | components/GlobalTodoList.tsx:95-120 | The second pass collects exactly the filtered logs and the filtered backlog, in collection order |
| GlobalTodoList.GroupTodos | components/GlobalTodoList.tsx:71-129 | The passes followed by the three sorts compute the grouping specified by `Grouped` |
| GlobalTodoList.DueIgnoresFilters | components/GlobalTodoList.tsx:80-92 | The due bucket is the same under any filters, selected date and case list |
| GlobalTodoList.UnselectedCategoryExcluded | components/GlobalTodoList.tsx:98 | With a non-empty selection, an unselected category is in neither logs nor backlog, yet a due item still shows as due |
| GlobalTodoList.SearchIgnoresCase | components/GlobalTodoList.tsx:101-104 | A search and its lower-cased form filter alike |
| GlobalTodoList.TodoStats | components/GlobalTodoList.tsx:50-55 | Each counter counts the positions holding pending, completed or pending-cancel items; pending plus completed is the collection's size, and urgent is at most pending |
| GlobalTodoList.UrgentWithinDue | components/GlobalTodoList.tsx:53-86 | Every urgent item is due, so the urgent counter never exceeds the due bucket's size |
| GlobalTodoList.ToggleCategory | components/GlobalTodoList.tsx:58-64 | Toggling flips the membership of that category and of no other |
| GlobalTodoList.ToggleCategoryKeepsDistinct | components/GlobalTodoList.tsx:58-64 | Toggling keeps the selection free of repeats |
| GlobalTodoList.ToggleCategoryTwice | components/GlobalTodoList.tsx:58-64 | Toggling twice selects the same categories, and restores the very list when the category was unselected |
| GlobalTodoList.ClearCategoryFilter | components/GlobalTodoList.tsx:66-68 | After clearing, every category passes the filter |
| EditSession.EditSlot.constructor | components/CaseDrawer.tsx:31-32 | Nothing is being edited and the draft is empty |
| EditSession.EditSlot.StartEditing | components/GlobalTodoList.tsx:132-135 | The slot targets that item alone, and the draft is its content |
| EditSession.EditSlot.ChangeText | components/GlobalTodoList.tsx:213 | Only the draft changes |
| EditSession.EditSlot.SaveEditing | components/CaseDrawer.tsx:47-52 | The untrimmed draft is forwarded only when it is not blank. Edit mode always ends, and the draft is kept |
| EditSession.EditSlot.CancelEditing | components/GlobalTodoList.tsx:144-147 | Edit mode ends and the draft is cleared |
| EditSession.AtMostOneInEditMode | components/CaseDrawer.tsx:132 | With unique ids, at most one card of a list shows the editor |
| CaseDrawer.CaseTodos | components/CaseDrawer.tsx:35-40 | With no case, nothing. Otherwise exactly the selected case's items, each as often as in the collection, newest first |
| CaseDrawer.Render | components/CaseDrawer.tsx:59 | A panel is rendered exactly when the drawer is open and a case is selected, and its timeline is that case's complete newest-first timeline `CaseTodos` |
| TodoInput.StartCategory | components/TodoInput.tsx:11-13 | The composer's category is the given default, or record when none is given |
| TodoInput.Composer.constructor | components/TodoInput.tsx:11-14 | The draft is empty, the composer collapsed, the category the default |
| TodoInput.Composer.Expand | components/TodoInput.tsx:28 | The composer expands; nothing else changes |
| TodoInput.Composer.ChooseCategory | components/TodoInput.tsx:53 | The chip's category is chosen; nothing else changes |
| TodoInput.Composer.ChangeText | components/TodoInput.tsx:39 | The draft becomes the typed text; nothing else changes |
| TodoInput.Composer.HandleSubmit | components/TodoInput.tsx:16-22 | A blank draft emits nothing and changes nothing. Otherwise the untrimmed text and the category are emitted once, the draft is cleared and the composer collapses, keeping its category |
| TodoInput.Composer.SubmitDisabled | components/TodoInput.tsx:70 | Definition, no contract: the draft is blank |
| TodoInput.SubmitDisabledIffWhitespace | components/TodoInput.tsx:70 | Submit is disabled exactly when the draft is white space alone |
| App.RouteFor | App.tsx:107 | A click opens the to-do view exactly for the to-do item, and the case list for every other item |
| App.IsHighlighted | App.tsx:109 | Definition, no contract: an item is highlighted when it is the to-do item in the to-do view or the case item in the case list |
| App.HighlightFollowsRoute | App.tsx:109 | After a click, exactly one sidebar item is highlighted: the to-do item after routing to the to-do view, the case item otherwise |
| App.AppState.constructor | App.tsx:30-34 | The shell starts on the case list over the seed data, drawer closed and nothing selected |
| App.AppState.HandleCaseClick | App.tsx:38-41 | The case is selected and the drawer opens; todos and view are kept |
| App.AppState.HandleOpenCaseFromGlobal | App.tsx:43-48 | A known id selects the first case with that id and opens the drawer; an unknown id changes nothing |
| App.AppState.HandleAddTodo | App.tsx:50-61 | The collection becomes `AddTodo` of the old one; with a fresh id unique ids are kept; the rest of the shell is unchanged |
| App.AppState.HandleToggleTodo | App.tsx:63-69 | The collection becomes `ToggleTodo` of the old one, ids stay unique, the rest is unchanged |
| App.AppState.HandleEditTodo | App.tsx:71-75 | The collection becomes `EditTodo` of the old one, ids stay unique, the rest is unchanged |
| App.AppState.HandleDeleteTodo | App.tsx:77-81 | The collection becomes `DeleteTodo` of the old one, identical when declined; ids stay unique |
| App.AppState.HandleNavClick | App.tsx:107 | Only the view changes, to the route of the clicked item |
| App.AppState.CloseDrawer | App.tsx:201 | Only the drawer flag changes, to closed; the selected case and the todos are kept |
| App.AppState.AddFromDrawer | components/CaseDrawer.tsx:114-116 | A non-blank draft in the open drawer becomes a new item of the open case, with the draft's text and category, and the composer is cleared and collapsed; a blank one adds nothing and leaves the composer's draft and expansion as they were; the category is kept either way |
| MockData.SeedIdsUnique | services/mockData.ts:11-67 | The seed items have distinct ids |
| Scenarios.CancellationAlwaysDue | services/mockData.ts:58-66 | The pending cancellation t6 is due on every day under every filter |
| Scenarios.DepositCreatedDate | services/mockData.ts:55 | The created date of t5 is 2024-01-20 |
| Scenarios.DepositLoggedOnItsDay | services/mockData.ts:49-57 | The completed item t5 is in the log of 2024-01-20 with no filter set |
| Scenarios.DepositNotLoggedNextDays | services/mockData.ts:49-57 | t5 is not in the log of 2024-01-22 and, being completed, not in the backlog |

## Left out

- Markup, Tailwind class strings, icons and animations are not modelled. Neither is `constants.ts`, a display-only table of labels, icons and colours. The card's `if (!Config) return null` guard cannot fire, since every category has an entry there.
- The hardcoded header counters (App.tsx:129-140) and the case list's status colours are display only.
- The drawer's non-to-do tabs are placeholders, and the tab switch is left out. `App.AppState.AddFromDrawer` assumes the to-do tab is showing, as it is by default.
- The date picker, the "back to today" button and the search box are plain setters of `selectedDate` and `search`. They are modelled only as the `Filters` value they produce.
- Text.Lower: only ASCII letters are lower-cased. JavaScript's `toLowerCase` covers all of Unicode.
- Ordering.NewestFirst: the sort key `new Date(createdAt).getTime()` is an arbitrary integer function. A stamp that does not parse gives `NaN` in the source, and a `NaN` comparator is not modelled.
- GlobalTodoList.GroupTodos: the in-place `Array.prototype.sort` is modelled on values, as a stable insertion sort. ECMAScript 2019 requires the built-in sort to be stable.
- The clock, `Math.random` ids and `window.confirm` are parameters, as described above. Time zones are not modelled. The code takes UTC `toISOString()` both for "today" and for the stamps, and the model follows the code.
- The uniqueness of random ids is not guaranteed by the source. It is a precondition of `TodoCommands.AddKeepsIdsUnique` and an implication in `App.AppState.HandleAddTodo`.
- React's scheduling is not modelled: `useMemo` recomputation, `useCallback` identity and batched `useState` updates. Each handler is one atomic state change.
