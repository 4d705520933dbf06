# UnoweFlow state model in Dafny

UnoweFlow is a small collaborative todo tracker. A Node server keeps three in-memory
collections:

- `projects`, a list of projects;
- `todos`, a map from project id to that project's todo list;
- `projectAssignees`, a map from project id to a list of names.

Browsers connect over a WebSocket. The server changes its collections in response to
commands and broadcasts an event for every change. Each browser keeps a mirror of the
collections and reconciles it with the events.

There are two generations of browser client:

- `client/client.js` is the old single-file client;
- `client/js/main.js`, `project.js`, `todo.js`, `memo.js` and `home.js` form the modular one.

This project models:

- the server's store;
- both clients' reconcilers;
- the views the clients derive from the mirror: priority lists, filtering and sorting,
  progress percentages and dashboard counts;
- the modular client's form guards and in-place edits;
- its connection cycle;
- the memo page's typing guard.

It proves the properties each of these promises.

## Layout

| file | module | what it holds |
|---|---|---|
| `wrappers.dfy` | `Wrappers` | `Option` (a JSON field that may be absent) |
| `records.dfy` | `Records` | projects, todos, commands, events; `findIndex`, `filter` by id, `{...a, ...b}` |
| `lists.dfy` | `Lists` | `Array.prototype.filter`, `findIndex`, counting |
| `sorting.dfy` | `Sorting` | a stable sort by a comparator (what `Array.prototype.sort` guarantees) |
| `text.dfy` | `Text` | `trim`, `toLowerCase`, `includes`, the string order |
| `progress.dfy` | `Progress` | `Math.round(100 * done / total)` in exact integers |
| `server.dfy` | `Server` | the store as a class whose methods change it in place |
| `legacy_client.dfy` | `LegacyClient` | `client.js`: the mirror and its event handler, the priority list, the assignee panel |
| `modular_client.dfy` | `ModularClient` | `main.js`, `project.js`, `todo.js`: the mirror, the event handlers, the edits |
| `todo_view.dfy` | `TodoView` | `todo.js`: filtering and sorting, the high-priority list, the assignee rows |
| `selects.dfy` | `Selects` | the assignee `<option>` lists |
| `forms.dfy` | `Forms` | the send guards of `addProject`, `addTodo` and the partial priority update |
| `home.dfy` | `Home` | `home.js`: the dashboard counts and the project search |
| `memo.dfy` | `Memo` | `memo.js`: the typing guard as a state machine, and the class that runs it |
| `connection.dfy` | `Connection` | `main.js`: the open / close / reconnect cycle |

Code that changes state in place is modelled as a `class`. Each method's postcondition
equates the new state with a pure step function of the old state. The idempotence,
invariant and convergence lemmas are then proved about those step functions:

- `Server.Store` for the server;
- `LegacyClient.Client` and `ModularClient.Client` for the two mirrors;
- `Memo.MemoEditor` for the memo page;
- `Connection.Client` for the connection cycle.

The model makes these encoding choices:

- **Absent fields.** A JSON field that may be missing is an `Option`.
- **Throwing handlers.** A handler that throws a `TypeError` returns the outcome `Threw`.
- **Broadcasts and sends.** Every broadcast or socket send is appended to an `outbox` sequence.
- **Server ids.** Ids the server draws from `Date.now()` are parameters.
- **Timers.** Timers are explicit events, taken in any order.
- **Rounding.** `Math.round(100 * c / t)` is the integer `r` with
  `2tr <= 200c + t < 2t(r + 1)`, that is `(200c + t) / (2t)`.

### Where the code departs from its protocol

The model follows the code in each of these cases.

- The clients send AUTH (`client/js/auth.js`), GET_MEMO and UPDATE_MEMO
  (`client/js/memo.js:107-113`, `client/js/memo.js:131-144`) and REQUEST_FULL_STATE
  (`client/js/main.js:10-13`). The server's dispatch (`server/server.js:39-74`) handles
  none of them, so nothing answers them. `Server.Store.Handle` leaves the store unchanged
  for them.
- Deleting an assignee does not clear the `assignee` field of that person's todos
  (`server/server.js:173-182`).
- Each todo mutation broadcasts PROJECT_UPDATED before its TODO_* event, because
  `updateProjectProgress` runs first.
- After `updateTodo` returns, the dispatch broadcasts TODO_UPDATED again, also when no
  todo matched (`server/server.js:56-60`). It passes that message already as a JSON
  string, and `broadcastToAll` encodes it once more (`server/server.js:149-150`). The
  clients therefore parse a string with no `type`, and neither dispatch acts on it. The
  model's outbox keeps it as a second TodoUpdated. Both clients would apply that one
  idempotently (`LegacyClient.TodoUpdatedTwice`, `ModularClient.TodoUpdatedTwice`).
- `updateTodo` and `deleteTodo` throw when the project key has no list
  (`server/server.js:125`, `server/server.js:134`). Nothing in the `message` listener
  (`server/server.js:35-75`) catches that. The model records it as the outcome `Threw`
  and leaves the store as it was.
- `project.js`'s `addTodo` nests the todo under `todo`, but the server reads only the flat
  fields. The server therefore stores that todo without text, assignee, priority or due
  date (`Server.Store.Handle`, `Forms.AddTodoRequest`).
- `project.js`'s `updateTodoPriority` sends no project id. The server reads
  `todos[undefined]`, which is the key "undefined", and throws when that key has no list
  (`Forms.PartialPriorityUpdate`, `Server.Store.ReceivePartialPriorityUpdate`).
- The modular client's `handleTodoChange` throws at its end when no project has the
  event's id. By then the mirror has already changed, so `ModularClient.Handle` returns
  the changed mirror together with `Threw`.
- `getCurrentProjectId()` returns `null` off the project page. `todos[null]` then reads
  the key "null" (`ModularClient.PageKey`).

## Model

| member | source | states |
|---|---|---|
| Records.Rank | client/js/todo.js:92 | the ranks of `{ high: 3, medium: 2, low: 1 }`: between 1 and 3, 3 exactly for high, 1 exactly for low |
| Records.MergeFields | server/server.js:94 | `{...old, ...patch}` takes every field the patch carries and keeps every field it leaves out |
| Records.MergeTwice | client/js/project.js:46 | merging the same patch twice equals merging it once |
| Records.ProjectIndex | server/server.js:92 | `findIndex` by id: -1 exactly when no project has the id, otherwise the first index with it |
| Records.TodoIndex | server/server.js:125 | `findIndex` by id over a todo list: -1 exactly when absent, otherwise the first match |
| Records.CountAppendMatching | client/client.js:45 | appending a project with an id adds exactly one entry with that id |
| Records.WithoutProject | server/server.js:101 | the filter keeps exactly the projects whose id differs, and never grows the list |
| Records.WithoutTodo | server/server.js:134 | the filter keeps exactly the todos whose id differs |
| Records.WithoutName | server/server.js:175 | the filter keeps exactly the names that differ from the removed one |
| Records.WithoutTodoTwice | client/js/todo.js:345 | removing a todo id twice removes nothing more |
| Records.WithoutNameNoDuplicates | server/server.js:175 | removing a name keeps a duplicate-free assignee list duplicate-free |
| Lists.Keep | server/server.js:143 | `filter` keeps exactly the elements that pass the test, each passing, as a sub-multiset of the input |
| Lists.Count | server/server.js:143 | `filter(...).length` is at most the length, and 0 exactly when no element passes |
| Lists.IndexWhere | server/server.js:92 | `findIndex`: -1 exactly when no element passes, otherwise the first index that does |
| Lists.KeepTwice | server/server.js:134 | filtering twice with the same test equals filtering once |
| Lists.KeepAll | client/js/todo.js:272-274 | a list whose every element passes the test is returned unchanged |
| Lists.KeepAppend | client/js/todo.js:272-274 | filtering distributes over concatenation, keeping the order |
| Lists.KeepNoDuplicates | server/server.js:175 | removing elements keeps a duplicate-free list duplicate-free |
| Sorting.SortBySorted | client/js/todo.js:90-100 | the model's stable insertion sort leaves no later element strictly before an earlier one whenever the comparator is a strict order; ECMAScript promises a sorted result only for a consistent comparator (`Sorting.StrictWeakOrderOn`), so the callers claim it only where that holds |
| Sorting.Insert | client/js/todo.js:90-100 | one insertion step adds exactly the element: the result is the list's multiset plus it |
| Sorting.SortBy | client/js/todo.js:90-100 | the sort returns a permutation of its input |
| Sorting.InsertSorted | client/js/todo.js:90-100 | inserting into a sorted list keeps it sorted |
| Sorting.SortBySortedIdentity | client/js/todo.js:90-100 | sorting a list that is already sorted changes nothing (the sort is stable, so equal elements keep their order) |
| Sorting.SortByIdempotent | client/js/todo.js:90-100 | under a strict order, sorting twice equals sorting once, so re-filtering a page already sorted in place leaves its list as it is |
| Sorting.InsertLast | client/js/todo.js:90-100 | an element that nothing in the list follows is appended |
| Text.TrimStart | client/js/project.js:3 | drops exactly a prefix of white space and leaves a string that does not start with white space |
| Text.TrimEnd | client/js/project.js:3 | drops exactly a suffix of white space and leaves a string that does not end with white space |
| Text.Trim | client/js/project.js:3 | `trim()` keeps one contiguous slice of the string, drops only white space before and after it, and leaves no white space at either end |
| Text.ToLower | client/js/home.js:95 | `toLowerCase()` keeps the length and lower-cases each letter in place |
| Text.TrimNoEdges | client/js/project.js:3 | a string with no white space at either end is its own trimming |
| Text.TrimIdempotent | client/js/project.js:30-31 | trimming twice equals trimming once |
| Text.Includes | client/js/home.js:99 | `includes` holds exactly when the needle occurs at some position of the haystack |
| Text.StrLessIrreflexive | client/js/todo.js:97 | no assignee name sorts strictly before itself |
| Text.StrLessTransitive | client/js/todo.js:97 | the assignee order is transitive |
| Text.StrLessTotal | client/js/todo.js:97 | two different assignee names are ordered one way or the other |
| Progress.CompletedCount | server/server.js:143 | the completed todos are never more than all todos |
| Progress.Percent | server/server.js:144 | the rounded percentage: 0 for no todos, otherwise the integer nearest `100 * done / total` with halves up, within 0..100, 0 for none done and 100 for all done |
| Progress.ProgressOf | server/server.js:141-144 | a project's progress lies in 0..100, is 0 for an empty list or no completed todo, and is 100 when all are completed; the legacy client's per-project percentage (client/client.js:360-362) is the same guarded single rounding |
| Progress.RowOf | client/js/todo.js:115-118 | one assignee line: its total is the bucket's size, its completed count the completed todos in it, its percentage their rounded share |
| Server.WithProgress | server/server.js:139-146 | progress is recomputed and PROJECT_UPDATED sent exactly when the project exists and has a todo list; only the first project with the id changes, and only its progress |
| Server.Store.constructor | server/server.js:19-21 | the store starts empty and satisfies the invariant that every project has a todo list and a duplicate-free assignee list |
| Server.Store.Connect | server/server.js:24-33 | a new client receives FULL_STATE_UPDATE with the whole store |
| Server.Store.AddProject | server/server.js:78-87 | one project is appended with progress 0 under the fresh id, its todo and assignee lists are created empty, PROJECT_ADDED is sent, nothing else changes |
| Server.Store.UpdateProject | server/server.js:91-98 | the first project with the id takes the patch's fields and keeps the others, and is broadcast; an unknown id changes nothing and sends nothing |
| Server.Store.DeleteProject | server/server.js:100-105 | every project with the id and both of its lists are removed, and PROJECT_DELETED is sent even when the id was absent |
| Server.Store.UpdateProjectProgress | server/server.js:139-146 | the projects and events are those of `WithProgress`, and the todos and assignees are unchanged |
| Server.Store.AddTodo | server/server.js:107-122 | the list is created if missing and grows by exactly one uncompleted todo; PROJECT_UPDATED precedes TODO_ADDED |
| Server.Store.UpdateTodo | server/server.js:124-131 | throws exactly when the project has no list, changing nothing, and so never for a project in the list; otherwise the first todo with the id is replaced wholesale, or nothing changes when none has it |
| Server.Store.DeleteTodo | server/server.js:133-137 | throws exactly when the project has no list, and so never for a project in the list; otherwise no todo with the id remains, and PROJECT_UPDATED precedes TODO_DELETED |
| Server.Store.AddAssignee | server/server.js:159-171 | set semantics: the name is appended and ASSIGNEE_ADDED sent only when absent, and afterwards the name is in the list |
| Server.Store.DeleteAssignee | server/server.js:173-182 | an existing list loses every occurrence of the name and ASSIGNEE_DELETED is sent; the todos, including their assignees, are unchanged |
| Server.Store.Handle | server/server.js:39-74 | the dispatch: ADD_PROJECT, UPDATE_PROJECT, DELETE_PROJECT, ADD_TODO, DELETE_TODO, ADD_ASSIGNEE and DELETE_ASSIGNEE each leave the whole store and outbox as their mutator states, with the fresh id for `Date.now()`; ADD_TODO loses nested fields; UPDATE_TODO is `HandleUpdateTodo`; unhandled types change nothing; only UPDATE_TODO and DELETE_TODO can throw |
| Server.Store.HandleUpdateTodo | server/server.js:52-63 | UPDATE_TODO without a todo id does nothing; with one it throws exactly when the key has no list, and otherwise TODO_UPDATED goes out once more after `updateTodo`, also when no todo matched |
| LegacyClient.Apply | client/client.js:36-98 | the old client's reconciler: full state overwrites, adds append unconditionally, updates replace by id only if found, deletes remove every match, and ASSIGNEE_DELETED without a list throws |
| LegacyClient.FullStateForgets | client/client.js:37-41 | FULL_STATE_UPDATE gives the same mirror whatever was there before, with missing assignees read as `{}` |
| LegacyClient.ProjectAddedTwice | client/client.js:45 | PROJECT_ADDED delivered twice leaves two more entries with the project's id |
| LegacyClient.TodoAddedTwice | client/client.js:66-70 | TODO_ADDED delivered twice puts the todo in the list twice |
| LegacyClient.AssigneeAddedTwice | client/client.js:84-87 | ASSIGNEE_ADDED delivered twice puts the name in the list twice |
| LegacyClient.ProjectUpdatedTwice | client/client.js:53-56 | PROJECT_UPDATED is idempotent |
| LegacyClient.TodoUpdatedTwice | client/client.js:72-75 | TODO_UPDATED is idempotent |
| LegacyClient.Client.HandleWebSocketMessage | client/client.js:34-99 | the in-place handler ends in the state `Apply` gives, and leaves the mirror as it was when it throws |
| LegacyClient.UrgentBeforeStrict | client/client.js:467-476 | the priority-list comparator is a strict order |
| LegacyClient.UrgentBeforeConsistent | client/client.js:467-476 | among todos that all have a priority and a due date the comparator is consistent |
| LegacyClient.UrgentBeforeInconsistent | client/client.js:467-476 | a high todo without a date compares equal to two dated high todos that are ordered by date, so the comparator is inconsistent |
| LegacyClient.PriorityTodos | client/client.js:458-476 | returns exactly the uncompleted todos that are high, medium and due within 3 days, or due within 1 day, as a permutation of them; sorted by the comparator when each has a priority and a due date |
| LegacyClient.PriorityTodosOrder | client/client.js:467-476 | when every urgent todo has a priority and a due date: no todo in the list is completed, the ranks never increase, and within one priority the due dates never decrease |
| LegacyClient.InBucket | client/client.js:344 | a bucket holds exactly the todos whose `assignee || '미지정'` is its name |
| LegacyClient.RowsFor | client/client.js:343-347 | one progress line per name, in order, over that name's bucket |
| LegacyClient.AssigneeRows | client/client.js:340-347 | '미지정' comes first, then one line per name; every percentage lies in 0..100 |
| LegacyClient.OccurrencesOnce | client/client.js:340 | a name in a duplicate-free list occurs once |
| LegacyClient.OccurrencesNone | client/client.js:340 | a name outside the list occurs zero times |
| LegacyClient.RowsForCons | client/client.js:343-346 | one more todo adds one to its bucket's total once per line with that name |
| LegacyClient.RowsForNoTodos | client/client.js:343-346 | with no todos every line's total is 0 |
| LegacyClient.AssigneeRowsPartition | client/client.js:340-347 | with distinct names and every assignee empty or listed, each todo is counted in exactly one line, so the totals add up to the number of todos |
| LegacyClient.Assignees | client/client.js:212-214 | the project's known assignee names, or no names when the project has no entry |
| LegacyClient.AssigneeOptions | client/client.js:216-223 | an unselected '미지정' option with the empty value first, then one option per name the project has (`getAssignees`), selected exactly when it equals the current assignee |
| LegacyClient.AssigneeOptionsSelection | client/client.js:216-223 | when the project's names are distinct, exactly one option is selected when the current assignee is one of them, and none otherwise |
| LegacyClient.AssigneeProgress | client/client.js:336-347 | the panel over the project's todos (none when it has no list) has '미지정' and then one line per name the project has; with distinct names and every assignee empty or listed, the lines' totals add up to the number of the project's todos |
| Selects.NameOptions | client/js/todo.js:260-265 | one option per name, in order, selected exactly when it equals the current assignee |
| Selects.NameOptionsSelection | client/js/project.js:185-190 | with distinct names, exactly one option is selected when the current assignee is listed, and none otherwise |
| TodoView.Narrow | client/js/todo.js:68-86 | exactly the todos every active filter accepts, as a sub-multiset; with nothing narrowing, the list itself |
| TodoView.BeforeStrict | client/js/todo.js:90-100 | each of the three comparators, and the constant one, is a strict order |
| TodoView.BeforeConsistent | client/js/todo.js:90-100 | when every todo carries the compared field, each comparator is consistent: its "neither before the other" is transitive too |
| TodoView.PriorityBeforeInconsistent | client/js/todo.js:90-93 | a high and a low todo each compare equal to a todo without priority, yet the high one comes first, so the comparator is inconsistent |
| TodoView.FilterAndSort | client/js/todo.js:63-104 | throws exactly when a search term meets a todo without text; otherwise exactly the filtered todos, as a permutation of them, kept in order without a sort key, and sorted by the chosen key when each carries the compared field |
| TodoView.SortByPriorityRanks | client/js/todo.js:90-93 | sorted by 'priority', a list whose todos all have a priority has ranks that never increase |
| TodoView.UnknownSortKeepsOrder | client/js/todo.js:99 | any other sort key keeps the filtered order |
| TodoView.HighPriorityTodos | client/js/todo.js:271-275 | exactly the uncompleted high-priority todos |
| TodoView.HighPriorityTodosAppend | client/js/todo.js:271-275 | the selection keeps the input order: it distributes over concatenation |
| TodoView.HighPriorityTodosAll | client/js/todo.js:271-275 | a list of open high-priority todos comes back unchanged |
| TodoView.AssignedTo | client/js/todo.js:115 | exactly the todos whose assignee equals the name |
| TodoView.AssigneeRows | client/js/todo.js:106-131 | one line per name, in order, each the rounded progress line of exactly the todos assigned to that name; no line for unassigned todos |
| TodoView.AssigneeRowsIgnoreOthers | client/js/todo.js:111-115 | a todo without an assignee, or with an unlisted one, changes no line |
| TodoView.StatisticsPercent | client/js/todo.js:143-162 | the statistics rate as written, rounded to hundredths and then to a whole percent: 0 for no todos, never below the single rounding `Progress.Percent` and at most one above it, and within 0..100 while no more are completed than exist |
| TodoView.HundredthsNear | client/js/todo.js:143-162 | the rate rounded to hundredths lies within half a percent of the rate rounded to a whole percent, and at 10000 hundredths at most |
| TodoView.StatisticsPercentMonotone | client/js/todo.js:143-162 | completing more todos never lowers the percentage the statistics show |
| TodoView.StatisticsPercentDiffers | client/js/todo.js:143-162 | with 1 of 201 todos completed, the double rounding gives 1 where one rounding gives 0 |
| ModularClient.UpsertProject | client/js/project.js:44-48 | a known id: same length, the first entry takes the fields present and keeps the others, other entries are unchanged; an unknown id: appended, one more entry with it |
| ModularClient.UpsertProjectTwice | client/js/project.js:44-48 | upserting twice equals upserting once |
| ModularClient.UpsertProjectSelf | client/js/project.js:44-46 | upserting an entry that is already first with its id changes nothing |
| ModularClient.ProjectChange | client/js/project.js:94-115 | PROJECT_ADDED appends exactly when the name is truthy, PROJECT_UPDATED upserts, PROJECT_DELETED removes every entry with the id |
| ModularClient.ProjectAddedTwice | client/js/project.js:97-98 | PROJECT_ADDED with a name, delivered twice, leaves two more entries with its id |
| ModularClient.ProjectUpdatedTwice | client/js/project.js:105-106 | PROJECT_UPDATED is idempotent |
| ModularClient.ListChange | client/js/todo.js:332-347 | TODO_ADDED appends exactly when the id is absent and afterwards the id is present, TODO_UPDATED keeps the length and replaces only the first todo with the id, TODO_DELETED keeps exactly the todos with other ids |
| ModularClient.TodoChange | client/js/todo.js:328-347 | the project's list is created if missing and is the only list that changes, as ListChange says |
| ModularClient.TodoAddedTwice | client/js/todo.js:333-336 | TODO_ADDED is idempotent |
| ModularClient.TodoUpdatedTwice | client/js/todo.js:338-342 | TODO_UPDATED is idempotent |
| ModularClient.TodoDeletedTwice | client/js/todo.js:344-345 | TODO_DELETED is idempotent |
| ModularClient.SortInPlace | client/js/todo.js:68-100 | when nothing narrows the list, the mirror's own list becomes the list `FilterAndSort` shows; otherwise the mirror is unchanged |
| ModularClient.Statistics | client/js/todo.js:133-170 | for a known project its progress becomes the single rounding of its completed share (`Progress.ProgressOf`), in 0..100, and UPDATE_PROJECT with only the id and that progress is sent; an unknown project changes nothing |
| ModularClient.AfterTodoChange | client/js/todo.js:348-354 | off the project's page nothing changes; on it the mirror's lists are those `SortInPlace` leaves (the same todos, sorted only when no filter narrows), the project's progress becomes the completion rate of its list and an UPDATE_PROJECT is sent, every other project stays as it was, and nothing is sent when no project has the id; the handler throws exactly when no project has the id; the assignees never change |
| ModularClient.AddAssignee | client/js/main.js:55-60 | the list is created if missing and the name appended only when absent; a duplicate-free list stays duplicate-free |
| ModularClient.AssigneeAddedTwice | client/js/main.js:55-60 | ASSIGNEE_ADDED is idempotent |
| ModularClient.DeleteAssignee | client/js/main.js:65-67 | an existing list keeps exactly the other names; without a list nothing changes |
| ModularClient.Handle | client/js/main.js:35-74 | the dispatch: full state overwrites, project and todo events go to their handlers, assignee events update the names, unknown types change nothing |
| ModularClient.FullStateForgets | client/js/main.js:38-42 | FULL_STATE_UPDATE overwrites the three collections, with missing assignees read as `{}` |
| ModularClient.Changed | client/js/todo.js:23-311 | a one-field edit (status, priority, due date, text or assignee) changes exactly that field and keeps the id |
| ModularClient.ApplyChange | client/js/todo.js:277-303 | throws when the page's key has no list; an unknown todo changes nothing; otherwise only that todo changes and it is sent whole under the page's key |
| ModularClient.ApplyAssignee | client/js/todo.js:23-48 | never throws; without a current project id or without the todo in the project's list (read as `[]` when missing) nothing changes; otherwise the mirror's todo takes the assignee, only it changes, and it is sent whole under the project's key |
| ModularClient.SentTodoIsMirrored | client/js/todo.js:279-282 | the todo sent is the mirror's own todo after the change |
| ModularClient.ApplyEditText | client/js/todo.js:305-315 | the text changes only for a non-null, non-blank answer, and then to the trimmed answer |
| ModularClient.EditedTextTrimmed | client/js/todo.js:310-311 | an edited text is non-empty and has no white space at either end |
| ModularClient.ApplyRename | client/js/project.js:25-38 | UPDATE_PROJECT with the trimmed name is sent and merged exactly when the answer is non-blank and differs from the current name |
| ModularClient.RenameKeepsProgress | client/js/project.js:31-36 | after a rename the project carries the trimmed name and keeps its progress |
| ModularClient.Client.constructor | client/js/main.js:1-4 | the mirror starts empty |
| ModularClient.Client.UpdateProjectInUI | client/js/project.js:40-48 | the in-place merge-or-append ends in `UpsertProject`'s list |
| ModularClient.Client.HandleProjectChange | client/js/project.js:94-115 | the in-place handler ends in `ProjectChange`'s list |
| ModularClient.Client.FilterAndSortTodos | client/js/todo.js:63-104 | returns `FilterAndSort`'s list, and sorts the mirror's own list as `SortInPlace` says |
| ModularClient.Client.ShowProjectStatistics | client/js/todo.js:133-170 | stores and sends the progress as `Statistics` says |
| ModularClient.Client.UpdateTodoList | client/js/todo.js:329-347 | the in-place list update ends in `TodoChange`'s map |
| ModularClient.Client.HandleTodoChange | client/js/todo.js:328-355 | the list update followed by `AfterTodoChange` |
| ModularClient.Client.HandleWebSocketMessage | client/js/main.js:35-74 | the in-place handler ends in the mirror and outcome `Handle` gives |
| ModularClient.Client.UpdateTodoStatus | client/js/todo.js:277-284 | ends in `ApplyChange` with the new status |
| ModularClient.Client.UpdateTodoPriority | client/js/todo.js:286-294 | ends in `ApplyChange` with the new priority, including the re-sort |
| ModularClient.Client.UpdateTodoDueDate | client/js/todo.js:296-303 | ends in `ApplyChange` with the new due date |
| ModularClient.Client.UpdateTodoAssignee | client/js/todo.js:23-48 | ends in `ApplyAssignee` |
| ModularClient.Client.ChangeTodo | client/js/todo.js:277-303 | the shared body of the one-field edits: ends in `ApplyChange` for the given change |
| ModularClient.Client.EditTodo | client/js/todo.js:305-315 | ends in `ApplyEditText` |
| ModularClient.Client.RenameProject | client/js/project.js:25-38 | ends in `ApplyRename` |
| Forms.AddProjectRequest | client/js/project.js:1-17 | ADD_PROJECT with the trimmed name is sent exactly when that name is non-empty and the socket is open; the input is cleared exactly then; otherwise an alert; `home.js`'s `addProject` (client/js/home.js:107-120) has the same guard |
| Forms.AddProjectNameTrimmed | client/js/project.js:3-7 | a sent project name is non-empty, has no white space at either end and is its own trimming |
| Forms.AddTodoRequest | client/js/project.js:340-368 | ADD_TODO with the trimmed text nested under `todo` and `completed` false is sent exactly when the trimmed text is non-empty, and the inputs reset; otherwise an alert |
| Forms.AddTodoFlatRequest | client/js/todo.js:1-21 | the same guard with the fields sent flat, and no alert |
| Forms.AddTodoFormsAgree | client/js/project.js:346 | both `addTodo` forms send for exactly the same inputs and leave the same inputs |
| Forms.PartialPriorityUpdate | client/js/project.js:312-319 | UPDATE_TODO carries only the id and priority, and no project id, so the server reads the key "undefined" |
| Server.Store.ReceivePartialPriorityUpdate | server/server.js:52-63 | the priority-only UPDATE_TODO throws exactly when the store has no list under the key "undefined" (changing nothing); otherwise a matching todo there is replaced by the partial todo, losing its text, assignee, due date and completion, and every other list stays as it was |
| Home.CountDisjoint | client/js/home.js:45-46 | no project is both ongoing and completed, so the two counts fit within the total |
| Home.BoundedSplit | client/js/home.js:45-46 | a progress present and at most 100 is either below 100 or exactly 100 |
| Home.CountCover | client/js/home.js:45-46 | with every progress present and at most 100, the two counts add up to the list's length |
| Home.DashboardOf | client/js/home.js:43-46 | total is the number of projects, ongoing counts progress below 100, completed counts progress exactly 100; each count is 0 exactly when no project qualifies |
| Home.DashboardPartition | client/js/home.js:44-46 | when every progress lies in 0..100, ongoing plus completed equals total |
| Home.NewProjectOngoing | client/js/home.js:45 | a new project with progress 0 adds one to the total and the ongoing count and none to completed |
| Home.Shows | client/js/home.js:94-105 | an item shows exactly when its lower-cased name contains the lower-cased term |
| Home.Visibility | client/js/home.js:97-104 | one visibility per item, in order |
| Home.EmptyTermShowsAll | client/js/home.js:95-103 | an empty term shows every item |
| Home.ToLowerTwice | client/js/home.js:95-98 | lower-casing twice equals lower-casing once |
| Home.ShowsIgnoresCase | client/js/home.js:95-98 | the match ignores the case of both name and term |
| Home.ShowsOwnName | client/js/home.js:98-99 | every name is shown when searched for itself |
| Memo.ApplyMemo | client/js/memo.js:115-129 | on the page and not typing, the textarea and pane take the content; otherwise nothing changes |
| Memo.Next | client/js/memo.js:7-187 | one step of the memo page: only a toggle flips the editor flag, and showing a memo sets the project and the page |
| Memo.NextValid | client/js/memo.js:154-166 | every step keeps `isTyping` covered by an armed typing timer |
| Memo.RunValid | client/js/memo.js:154-166 | under any order of events `isTyping` is covered by an armed timer, so it is always cleared again |
| Memo.OtherProjectIgnored | client/js/memo.js:171-173 | an update for another project changes nothing |
| Memo.MatchingUpdateApplied | client/js/memo.js:173-175 | a matching update when not typing sets the editor's text and the pane to the content |
| Memo.TypingKeepsEditor | client/js/memo.js:120-125 | while typing, neither an update nor a retry touches the editor; a matching update is queued |
| Memo.InputThenPause | client/js/memo.js:154-166 | an input sets `isTyping`, and the typing timer it arms clears it |
| Memo.RetryAppliedOnlyIfIdle | client/js/memo.js:178-182 | a deferred update is applied at its retry only when not typing then, otherwise dropped; either way it leaves the queue |
| Memo.RetryIgnoresProjectSwitch | client/js/memo.js:178-182 | a retry applies its content even after the user switched to another project |
| Memo.SaveSendsOnlyWithProject | client/js/memo.js:131-144 | the save sends UPDATE_MEMO with the textarea's text exactly when a project is set and the page is shown |
| Memo.ToggleTwice | client/js/memo.js:88-105 | toggling twice restores the editor flag |
| Memo.ShowMemoKeepsEditorFlag | client/js/memo.js:7-38 | showing a memo sets the project, sends GET_MEMO and keeps `isEditorVisible` |
| Memo.MemoEditor.constructor | client/js/memo.js:1-5 | no project, not typing, editor hidden |
| Memo.MemoEditor.ShowMemo | client/js/memo.js:7-38 | ends in the `ShowMemo` step |
| Memo.MemoEditor.LeavePage | client/js/project.js:117-129 | ends in the `LeavePage` step: another page (here `showProjectDetails`, likewise `showProjectList` at `client/js/home.js:1-6`) overwrites the main content, so the memo page is no longer shown and only the on-page flag changes |
| Memo.MemoEditor.ToggleEditor | client/js/memo.js:88-105 | ends in the `ToggleEditor` step |
| Memo.MemoEditor.UpdateMemo | client/js/memo.js:115-129 | ends in `ApplyMemo` |
| Memo.MemoEditor.Input | client/js/memo.js:154-168 | ends in the `Input` step |
| Memo.MemoEditor.TypingTimerFired | client/js/memo.js:164-166 | ends in the `TypingTimerFired` step |
| Memo.MemoEditor.SaveTimerFired | client/js/memo.js:131-144 | ends in the `SaveTimerFired` step |
| Memo.MemoEditor.HandleMemoUpdate | client/js/memo.js:171-187 | ends in the `MemoArrives` step |
| Memo.MemoEditor.RetryFired | client/js/memo.js:178-182 | ends in the `RetryFired` step |
| Connection.Next | client/js/main.js:6-29 | an open sends one message, a first close schedules one delay, an error changes nothing |
| Connection.NextValid | client/js/main.js:10-24 | every step keeps the cycle's invariant: only full-state requests are sent, every delay is 3000 ms, one socket per reconnect |
| Connection.RunValid | client/js/main.js:10-24 | under any sequence of signals the invariant holds: no back-off and no other message |
| Connection.OpenRequestsFullState | client/js/main.js:10-13 | opening a socket sends exactly one REQUEST_FULL_STATE |
| Connection.AlwaysReopens | client/js/main.js:21-24 | no phase is terminal: an open socket is reachable again from every state |
| Connection.Client.constructor | client/js/main.js:77-78 | the page load starts one connecting socket |
| Connection.Client.OnOpen | client/js/main.js:10-13 | ends in the `Opened` step |
| Connection.Client.OnClose | client/js/main.js:21-24 | ends in the `Closed` step |
| Connection.Client.Reconnect | client/js/main.js:23 | ends in the `TimerFired` step |

## Left out

- DOM and HTML rendering is not modelled: row and table builders, modals, styles and
  progress circles. The model keeps only the state these read and the values they show.
- `client/js/auth.js` is not part of this model. It is socket setup plus a DOM branch,
  and the server never answers it.
- `marked.parse` is a foreign library. The memo pane is modelled as holding the content
  last rendered.
- The WebSocket and Express plumbing is replaced by appends to an `outbox`. This covers
  `broadcastToAll`'s send loop and its JSON encoding, the REST endpoints and the socket
  objects. The second TODO_UPDATED of UPDATE_TODO is therefore kept as an event, though
  the clients receive it as a bare string and ignore it.
- Server.Store.Handle: `Threw` is an exception escaping the `message` listener
  (`server/server.js:35-75`). Nothing in `server.js` catches it, so unless something
  outside these files does, Node ends the process and the in-memory store is lost. The
  model instead keeps serving with the store unchanged.
- Server.Store.HandleUpdateTodo: its `Threw` is such an uncaught exception too.
- Server.Store.UpdateTodo: its `Threw` is such an uncaught exception too.
- Server.Store.DeleteTodo: its `Threw` is such an uncaught exception too.
- `Date.now()` ids are parameters, and same-millisecond collisions are not modelled.
- JavaScript `Date` arithmetic and time zones are not modelled. A due date is an integer
  day number, `None` when missing or empty. A comparison involving `None` behaves like a
  comparison with NaN: it is false.
- `localeCompare` is modelled as code-unit order, and `toLowerCase` maps only the ASCII
  letters.
- Floating point is not modelled. `Math.round(c / t * 100)` is computed exactly in
  integers. Only `TodoView.StatisticsPercent` models `toFixed(2)`, as exact rounding of
  the rate to hundredths with halves up. Binary floating point may round a rate whose
  decimal expansion ends in 5 the other way.
- `Array.prototype.sort` is a stable insertion sort given as a function on sequences. It
  is not an in-place algorithm on an array. ECMAScript fixes the order only for a
  consistent comparator (`Sorting.StrictWeakOrderOn`). The model does not prove that a
  consistent comparator leaves only one stable sorted order, which is what makes the
  engine's result equal the model's.
- A comparator that meets a missing priority or due date returns NaN, which the sort
  treats as "equal". That makes it inconsistent (`TodoView.PriorityBeforeInconsistent`,
  `LegacyClient.UrgentBeforeInconsistent`), and the engine's order is then
  implementation-defined. The model keeps its stable insertion order in that case. It
  claims nothing about that order beyond its being a permutation. The following lines
  name the members this affects.
- LegacyClient.PriorityTodos: sorted only when every urgent todo has a priority and a
  due date; the order otherwise is not the engine's.
- LegacyClient.PriorityTodosOrder: stated only when every urgent todo has a priority and
  a due date.
- TodoView.FilterAndSort: sorted only when every returned todo carries the compared
  field; the order otherwise is not the engine's.
- TodoView.SortByPriorityRanks: stated only when every todo has a priority.
- ModularClient.SortInPlace: stores the model's order, which is the engine's only when
  every todo carries the compared field.
- ModularClient.Client.FilterAndSortTodos: returns and stores the model's order, which is
  the engine's only when every todo carries the compared field.
- Timers are events that may fire in any order. The model does not track how long each
  timer waits.
- Which of the duplicate global definitions wins is decided by the script order, which is
  not modelled. The duplicates are handled as follows:
  - `addTodo` is modelled in both forms (`Forms.AddTodoRequest` for `project.js`,
    `Forms.AddTodoFlatRequest` for `todo.js`).
  - `updateTodoPriority` is modelled in both forms (`Forms.PartialPriorityUpdate` for
    `project.js`, `ModularClient.Client.UpdateTodoPriority` for `todo.js`).
  - `getAssigneeOptions` is the same in both files (`Selects.NameOptions`).
  - `addProject` has the same guard in `project.js` and `home.js`
    (`Forms.AddProjectRequest`).
  - `project.js`'s `filterAndSortTodos` (`client/js/project.js:302-310`) only calls
    `window.filterAndSortTodos`, and is not modelled. If it were the definition that
    wins, it would call itself.
  - `project.js`'s `updateTodoInUI` (`client/js/project.js:321-338`) only touches the DOM.
  - The assignee modal blocks appear twice in `project.js` (`client/js/project.js:196-300`
    and `client/js/project.js:370-484`). They are DOM code and sends, and neither copy is
    modelled.
- Several client functions only send a command whose effect arrives back as an event:
  - `deleteProject` and `deleteTodo`;
  - `client.js`'s `updateTodoAssignee`, which builds the todo from the DOM row
    (`client/client.js:225-245`);
  - `addNewAssignee` and `deleteAssignee`.

  Their sends are not modelled. Their effects are modelled through the server and the
  event handlers. `todo.js`'s `updateTodoAssignee` is different: it changes the mirror in
  place before it sends, and is modelled (`ModularClient.ApplyAssignee`).
- `removeAssigneeFromTodos` is defined in none of these files. Both of `project.js`'s
  `deleteAssignee` handlers call it right after sending DELETE_ASSIGNEE
  (`client/js/project.js:257`, `client/js/project.js:431`), so they throw a
  `ReferenceError` at that point. The send has already happened, and nothing after it
  runs.
- In the modular client, `handleMemoUpdate` is not reached from `main.js`'s dispatch.
  A MEMO_UPDATE event changes nothing there. `Memo.MemoEditor.HandleMemoUpdate` models
  the handler itself.
- Memo retries fire oldest first. Retries of equal delay fire in the order they were set,
  and the model does not interleave them in any other way.
- The legacy client's rendering after each event is not modelled:
  `showProjectList`, `updatePriorityTodoList` and `updateAssigneeList`.
- ModularClient.Statistics: stores and sends the single rounding `Progress.ProgressOf`, the
  corrected definition of the Findings row. The code (`client/js/todo.js:143-162`) rounds
  twice, and sends `TodoView.StatisticsPercent`, which is the same or one more.
- ModularClient.Client.ShowProjectStatistics: stores and sends the single rounding, as
  `ModularClient.Statistics` does.
- ModularClient.AfterTodoChange: the progress it recomputes is the single rounding, as in
  `ModularClient.Statistics`.
- ModularClient.AfterTodoChange: when `projects` is empty, `findIndex` never runs its
  callback, so `updateProjectInUI` pushes `undefined` before it throws at `project.id`.
  The model throws without adding that entry, because its project list cannot hold
  `undefined`. When `projects` is not empty, the callback throws before the push, as modelled.
- TodoView.StatisticsPercent: the hundredths rounding of binary floating point is not
  modelled; exact decimal rounding with halves up stands in for it.
- ModularClient.Handle: FULL_STATE_UPDATE and PROJECT_ADDED end in `updateDashboard`
  (`client/js/main.js:42`, `client/js/project.js:99`, `client/js/home.js:91`). It writes
  `#total-projects` and its siblings without checking that they exist
  (`client/js/home.js:48-50`). `updateProjectInUI` reaches it as well whenever
  `#project-list` exists (`client/js/project.js:73-76`). The model returns `Completed`
  for these events, so it assumes the page has the dashboard.
- ModularClient.Client.UpdateProjectInUI: assumes the dashboard in the same way.
- ModularClient.Statistics: assumes the dashboard in the same way, through
  `updateProjectInUI`.
- ModularClient.AfterTodoChange: assumes the dashboard in the same way, through
  `updateProjectInUI`.
- Memo.Next: `saveTimer` is one flag, while the code keeps one save timer per textarea
  element. After `showMemo` rebuilds the textarea, `clearTimeout(e.target.timeout)` on the
  new element does not cancel a save armed on the old one. The code can then send
  UPDATE_MEMO twice where the model sends it once.

## Findings

| source | as written | input that shows it | evidently intended | confidence | as-written member | corrected member |
|---|---|---|---|---|---|---|
| client/js/todo.js:143-162 | the rate is rounded twice: to hundredths by `toFixed(2)`, then to a whole percent by `Math.round` | 1 of 201 todos completed: 0.4975% becomes "0.50", then 1 | one rounding of the rate, as in the server's `updateProjectProgress`, giving 0 | not executed | TodoView.StatisticsPercent, TodoView.StatisticsPercentDiffers | Progress.Percent |
