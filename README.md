# Task manager: a verified model

This project models the core of a small task manager. On the server it covers:

- the Mongoose schema of a task;
- the Express routes that list, count, update and delete tasks.

On the client it covers:

- the data service that turns a filter record into a request URL;
- the React list component that holds the view's state and applies optimistic edits.

Each part is proved against its specification in Dafny.

Modules, in dependency order:

- `Wrappers`: `Option` and `Result`.
- `Sequences`: generic counting, filtering, summing and an insertion sort, each with its permutation and order lemmas.
- `TaskSchema` (`models/task.js`):
  - the `Task` record and the keys a request body may carry (`TaskFields`, one `Option` per key);
  - the schema's validators and defaults;
  - the object merge shared by creation, update and the client's local edit;
  - `findIndex` and removal by identifier.
- `TaskQuery` (`routes/tasks.js`, list route):
  - the query and sort objects built from the query string;
  - the case-insensitive substring search;
  - the sort order;
  - the listing: the selected tasks, as a sorted permutation.
- `TaskStats` (`routes/tasks.js`, stats route): the counts, the per-category grouping sorted by count, and the overdue count.
- `TaskRoutes` (`routes/tasks.js`, create/update/delete):
  - the `completedAt` rule of the update route;
  - a `TaskCollection` class whose `tasks` field the create, update and delete handlers change.
- `TaskServices` (`services/taskServices.js`):
  - the API base URL;
  - the query parameters `getTasks` appends, and the URL it requests;
  - the URL shapes of the other calls;
  - the round trip from the client's filter record to what the list route selects.
- `TasksComponent` (`Tasks.js`):
  - the display helpers;
  - the status-select encoding (`App.js:241`);
  - the `Tasks` class. Its `state` field is the component's state record, which each `setState` replaces with a merged copy. The timer handle `searchTimeout` and the pending debounced reloads are instance fields.

Time is an integer `now` parameter. Answers of the data service are parameters of the handlers: `Some`/`true` is a request that succeeded, `None`/`false` one that failed. A new record's identifier is a parameter of `Create`.

Two behaviours of `Tasks.js` are worth stating on their own:

- Only `loadTasks` clears the error message (`Tasks.js:36`). Adding, updating and deleting never reset it.
- A local edit whose `updates` holds a status drops every other key of `updates` (`Tasks.js:129-134`), while the server stores them. The handlers only ever send a status alone or the text alone. For those two kinds of update, `ClientEditMatchesServer` shows that the local copy and the stored record differ at most in the completion time, each side reading its own clock.

## Model

| member | source | states |
|---|---|---|
| TaskSchema.CheckFields | Application-Code/backend/models/task.js:5-17 | a body passes the validators exactly when a supplied `task` is non-empty and a supplied `priority` is one of low/medium/high |
| TaskSchema.NewTask | Application-Code/backend/models/task.js:4-34 | `new Task(body)` succeeds exactly when `task` is supplied and non-empty and a supplied priority is in the enumeration; a missing `task` is the required-field error; a created record is valid and carries the given id and text |
| TaskSchema.NewTaskDefaults | Application-Code/backend/models/task.js:9-33 | a record created from its text alone takes every default (not completed, medium, no due date, "general", created now, never completed) |
| TaskSchema.NewTaskKeepsSupplied | Application-Code/backend/models/task.js:4-34 | every key a body supplies is stored as given, and every key it leaves out takes the schema default (not completed, medium, no due date, "general", created now, never completed) |
| TaskSchema.Merge | Application-Code/backend/routes/tasks.js:99-103 | merging a body never changes the record's identifier |
| TaskSchema.MergeLaws | Application-Code/backend/routes/tasks.js:99-103 | merging a record's full key set yields that record; the empty body changes nothing; merging the same body twice is merging it once |
| TaskSchema.MergePreservesValidity | Application-Code/backend/routes/tasks.js:99-103 | with validators on, an accepted update keeps a valid record valid |
| TaskSchema.FindIndex | Application-Code/frontend/src/Tasks.js:127 | `findIndex` by id: -1 exactly when no record has the id, otherwise the first position holding it |
| TaskSchema.FindIndexUnique | Application-Code/frontend/src/Tasks.js:127 | with distinct identifiers, the position found is the only one holding the id |
| TaskSchema.WithoutId | Application-Code/frontend/src/Tasks.js:189 | no kept record has the removed id |
| TaskSchema.WithoutAbsentId | Application-Code/frontend/src/Tasks.js:189 | removing an id the list does not hold leaves the list as it is |
| TaskSchema.WithoutIdAt | Application-Code/backend/routes/tasks.js:118 | with distinct ids, removing an id removes exactly its one position and keeps the rest in order |
| TaskQuery.LookupAbsent | Application-Code/backend/routes/tasks.js:18-25 | a key absent from the query string reads as undefined |
| TaskQuery.BuildQuery | Application-Code/backend/routes/tasks.js:18-44 | a `completed` condition exactly when the parameter is present, true exactly for "true"; a priority, category and search condition exactly when the parameter is non-empty; sort on `sortBy` (default createdAt), ascending only for "asc"; no parameters give the empty query |
| TaskQuery.IsInfixAt | Application-Code/backend/routes/tasks.js:39 | the recursive substring test holds exactly when the pattern occurs at some position |
| TaskQuery.TaskOrderIsTotalPreorder | Application-Code/backend/routes/tasks.js:43-46 | the order `sort` induces on tasks, ascending or descending, is total and transitive |
| TaskQuery.ListTasks | Application-Code/backend/routes/tasks.js:16-51 | a sort field the store rejects (empty, or starting with `$` other than `$natural`) is the 500 answer; otherwise the reply holds only tasks the query selects, is a permutation of the selected tasks of the store, and is sorted by the sort object; without parameters it is the whole store |
| TaskQuery.NewestFirst | Application-Code/backend/routes/tasks.js:23-24 | without parameters, the first task listed is the most recently created |
| TaskStats.ByCategory | Application-Code/backend/routes/tasks.js:66-69 | one entry per category present, with its count, all counts positive, categories distinct, counts non-increasing, counts summing to the total |
| TaskStats.ComputeStats | Application-Code/backend/routes/tasks.js:54-87 | total = completed + pending; completed and pending count the complete and incomplete tasks; high, medium and low each count the incomplete tasks of that priority, and with valid priorities they add up to pending; overdue counts the incomplete tasks due strictly before now, so overdue <= pending; byCategory summarises the store |
| TaskStats.PriorityCountsAddUp | Application-Code/backend/routes/tasks.js:60-64 | with every priority in the enumeration, the three per-priority counts of incomplete tasks add up to the incomplete tasks |
| TaskRoutes.Status | Application-Code/backend/routes/tasks.js:105-112 | a missing record is answered 404 and a validation failure 400 |
| TaskRoutes.StampCompletedAt | Application-Code/backend/routes/tasks.js:92-97 | only `completedAt` changes; marking completed ensures a completion time; marking not completed sets it to null; without a status the body is untouched |
| TaskRoutes.CompletedAtRule | Application-Code/backend/routes/tasks.js:92-103 | the stored completion time in each of the four cases: stamped now, kept as supplied, cleared, or as the body or record had it |
| TaskRoutes.UpdateKeepsConsistency | Application-Code/backend/routes/tasks.js:92-103 | an update that states the status, or leaves `completedAt` alone, keeps "not completed implies no completion time" |
| TaskRoutes.CompletedAtAloneIsStored | Application-Code/backend/routes/tasks.js:92-103 | a body with only a completion time stores it on an incomplete task |
| TaskRoutes.CompleteThenReopen | Application-Code/backend/routes/tasks.js:92-103 | completing then reopening a task restores it with status false and no completion time |
| TaskRoutes.TaskCollection.constructor | Application-Code/backend/models/task.js:36 | the collection starts empty |
| TaskRoutes.TaskCollection.Create | Application-Code/backend/routes/tasks.js:6-13 | a rejected body is a validation error and stores nothing; an accepted one appends the new record; ids stay unique and records valid |
| TaskRoutes.TaskCollection.Update | Application-Code/backend/routes/tasks.js:90-113 | a rejected body is a validation error, an unknown id is not-found, and neither changes the store; otherwise exactly the record with the id becomes its merge with the stamped body |
| TaskRoutes.TaskCollection.Delete | Application-Code/backend/routes/tasks.js:116-126 | an unknown id is not-found; otherwise the removed record is returned; the store becomes the old store without the id |
| TaskServices.ApiUrl | Application-Code/frontend/src/services/taskServices.js:2 | the configured URL unless unset or empty, then the local default |
| TaskServices.QueryString | Application-Code/frontend/src/services/taskServices.js:14 | the query string is empty exactly when no parameter was appended |
| TaskServices.PartsSent | Application-Code/frontend/src/services/taskServices.js:6-12 | the six conditional appends send exactly what the filter record asks for, in order |
| TaskServices.GetTasks | Application-Code/frontend/src/services/taskServices.js:5-16 | only known keys, in the fixed order, each at most once; `completed` whenever set (also false), the text keys only when non-empty, each with its value; nothing sent exactly when nothing is set; `?` and the query string only when it is non-empty |
| TaskServices.FiltersArrive | Application-Code/frontend/src/services/taskServices.js:5-16 | what the client sends makes the list route select exactly the tasks the filter record describes, with the sort it describes |
| TaskServices.StatsUrl | Application-Code/frontend/src/services/taskServices.js:18-20 | the statistics URL reaches the `/stats` route |
| TaskServices.AddUrl | Application-Code/frontend/src/services/taskServices.js:22-24 | the add URL reaches the collection route |
| TaskServices.ItemUrl | Application-Code/frontend/src/services/taskServices.js:26-32 | for a non-empty id without `/`, the update and delete URL reaches that id's route |
| TasksComponent.DecodeCompleted | Application-Code/frontend/src/Tasks.js:73-74 | "all" unsets the status filter, "true" sets it to true, anything else to false |
| TasksComponent.EncodeCompleted | Application-Code/frontend/src/App.js:241 | the select shows "all", "true" or "false" |
| TasksComponent.CompletedRoundTrip | Application-Code/frontend/src/App.js:241-242 | decoding inverts the select's encoding, and each select value survives decode and re-encode |
| TasksComponent.WithFilter | Application-Code/frontend/src/Tasks.js:71-77 | the chosen key takes the decoded status or the value (empty when missing); every other filter is unchanged |
| TasksComponent.FilterChangeSends | Application-Code/frontend/src/Tasks.js:71-80 | after a filter change the reload sends the new value for that key only |
| TasksComponent.FilterChangeIsSent | Application-Code/frontend/src/Tasks.js:71-80 | the reload's query string differs from the previous one only at the changed key |
| TasksComponent.TrimStart | Application-Code/frontend/src/Tasks.js:96 | a suffix of the input, starting at its first non-space character |
| TasksComponent.TrimEnd | Application-Code/frontend/src/Tasks.js:96 | a prefix of the input, ending at its last non-space character |
| TasksComponent.TrimEmptyIffBlank | Application-Code/frontend/src/Tasks.js:96 | `s.trim()` is empty exactly when every character is white space |
| TasksComponent.IsOverdue | Application-Code/frontend/src/Tasks.js:209-212 | never overdue without a due date or when completed |
| TasksComponent.OverdueAgreesWithStats | Application-Code/frontend/src/Tasks.js:209-212 | the tasks the list marks overdue are the ones the statistics count as overdue |
| TasksComponent.GetPriorityColor | Application-Code/frontend/src/Tasks.js:214-221 | grey exactly for a priority outside the enumeration |
| TasksComponent.ColorsDistinguishPriorities | Application-Code/frontend/src/Tasks.js:214-221 | the three priorities get three different colours |
| TasksComponent.UpperChar | Application-Code/frontend/src/Tasks.js:224 | upper-casing keeps the letter and leaves no lower-case ASCII letter |
| TasksComponent.GetPriorityLabel | Application-Code/frontend/src/Tasks.js:223-225 | "Medium" for an empty priority; otherwise the same length and rest, the same letters ignoring case, with the first letter upper-cased |
| TasksComponent.PriorityLabels | Application-Code/frontend/src/Tasks.js:223-225 | the labels are Low, Medium and High, and a missing priority is labelled as the default |
| TasksComponent.SubmitBody | Application-Code/frontend/src/Tasks.js:100-105 | the body holds the form's text, priority, category and due date (null when empty), and no other key |
| TasksComponent.SubmitIsAccepted | Application-Code/frontend/src/Tasks.js:96-107 | a non-blank submission is created exactly when its priority is in the enumeration, with the form's values, not completed |
| TasksComponent.OptimisticEdit | Application-Code/frontend/src/Tasks.js:129-137 | the id is kept; a status change sets the status and keeps the record consistent, changing nothing but status and completion time, and a completion is stamped with the current time; other updates are merged |
| TasksComponent.ClientEditMatchesServer | Application-Code/frontend/src/Tasks.js:129-137 | for a status change alone or an update without a status, the local edit and the stored record agree on every field but `completedAt`; a completion is stamped on both sides, each with its own clock (`Tasks.js:133`, `tasks.js:94`); otherwise, or on one clock, they are equal |
| TasksComponent.EditList | Application-Code/frontend/src/Tasks.js:126-138 | same length and ids; only the element `findIndex` finds is edited; an absent id changes nothing |
| TasksComponent.EditListMatchesServer | Application-Code/frontend/src/Tasks.js:126-140 | on a list equal to the collection, the local edit leaves every other element as the server does, and the edited element agrees with the stored one on every field but `completedAt`; they are equal unless a completion is stamped by two different clocks |
| TasksComponent.StatsAfter | Application-Code/frontend/src/Tasks.js:46-53 | a statistics reply replaces the old one; a failure keeps it |
| TasksComponent.Tasks.AtMostOneReloadPending | Application-Code/frontend/src/Tasks.js:83-91 | at most one debounced reload is ever pending |
| TasksComponent.Tasks.constructor | Application-Code/frontend/src/Tasks.js:11-28 | the initial state: no tasks, empty inputs, medium, general, no filter, no statistics, not loading, no error |
| TasksComponent.Tasks.BeginLoadTasks | Application-Code/frontend/src/Tasks.js:35-38 | loading set, error cleared, the current filters sent, nothing else changed |
| TasksComponent.Tasks.EndLoadTasks | Application-Code/frontend/src/Tasks.js:38-43 | the reply replaces the list, or "Failed to load tasks" is set and the list kept; loading cleared |
| TasksComponent.Tasks.LoadStats | Application-Code/frontend/src/Tasks.js:46-53 | only the statistics change, and only on success |
| TasksComponent.Tasks.HandleChange | Application-Code/frontend/src/Tasks.js:55-57 | only the new-task text changes |
| TasksComponent.Tasks.HandlePriorityChange | Application-Code/frontend/src/Tasks.js:59-61 | only the new-task priority changes |
| TasksComponent.Tasks.HandleCategoryChange | Application-Code/frontend/src/Tasks.js:63-65 | only the new-task category changes |
| TasksComponent.Tasks.HandleDueDateChange | Application-Code/frontend/src/Tasks.js:67-69 | only the new-task due date changes |
| TasksComponent.Tasks.HandleEditTextChange | Application-Code/frontend/src/Tasks.js:178-180 | only the edit text changes |
| TasksComponent.Tasks.HandleFilterChange | Application-Code/frontend/src/Tasks.js:71-81 | the one filter changes and a reload starts with the new filters |
| TasksComponent.Tasks.HandleSearchChange | Application-Code/frontend/src/Tasks.js:83-91 | only the search text changes at once; the previous reload is cancelled and the new one is the only one pending |
| TasksComponent.Tasks.SearchTimerFires | Application-Code/frontend/src/Tasks.js:88-90 | the fired reload is no longer pending and a reload starts with the current filters |
| TasksComponent.Tasks.HandleSubmit | Application-Code/frontend/src/Tasks.js:94-121 | a blank text sends nothing and changes nothing; on success the record is appended, the form reset to "", medium, general, no date, and statistics refreshed; on failure only the error changes |
| TasksComponent.Tasks.HandleUpdate | Application-Code/frontend/src/Tasks.js:123-146 | on success the list is the locally edited list and statistics refresh; on failure the list is the snapshot from before and the error is set |
| TasksComponent.Tasks.HandleToggleComplete | Application-Code/frontend/src/Tasks.js:148-150 | an update that negates the current status |
| TasksComponent.Tasks.HandleStartEdit | Application-Code/frontend/src/Tasks.js:152-157 | edit mode for the task, with its text |
| TasksComponent.Tasks.HandleCancelEdit | Application-Code/frontend/src/Tasks.js:159-164 | edit mode off and edit text cleared |
| TasksComponent.Tasks.HandleSaveEdit | Application-Code/frontend/src/Tasks.js:166-176 | blank text only cancels; otherwise the text is sent as an update and edit mode ends, also after a failure |
| TasksComponent.Tasks.HandleDelete | Application-Code/frontend/src/Tasks.js:182-197 | declining changes nothing; on success the list loses exactly the records with the id and statistics refresh; on failure the list is the snapshot and the error is set |

## Left out

- The regular-expression search (`tasks.js:39`) is modelled as a literal, case-insensitive substring test with ASCII case folding. Regular-expression metacharacters and Unicode case folding are not modelled.
- Sort order on the server (`tasks.js:43-46`):
  - Strings compare by code point, not by collation.
  - Values of different kinds compare by a fixed kind rank.
  - A field name the store accepts but the schema does not have sorts every task as equal. Dotted paths into nested values are not modelled.
  - The order among equal keys is not stated. No contract fixes it: the database promises no particular order, and the model promises only a sorted permutation.
- Percent-encoding of query parameters by `URLSearchParams` is not modelled. Neither are repeated query keys, which Express parses as arrays.
- Dates are integers. Parsing and casting of date strings, the `ObjectId` cast of route identifiers (a malformed id is a 500 or 400 error), and `formatDate` (locale formatting) are not modelled.
- TaskRoutes.TaskCollection.Create: the fresh identifier is a parameter, required to be unused. The database's id generation is not modelled.
- A `completed` value sent as the string "true" is not modelled. Bodies carry typed values, and Mongoose's casting is not modelled.
- The 500 answers of the list, stats and delete routes, when the store is unreachable, are not modelled. They are not part of any contract. The list route's 500 answer to a rejected sort field is modelled (`ListTasks`); other malformed field paths the store rejects, such as an empty component in `a..b`, are not.
- The asynchronous order of events is left to the caller, which calls the handlers and `EndLoadTasks`/`SearchTimerFires` in some order. The 500 ms debounce delay and React's batching of `setState` are not modelled.
- `componentDidMount` and `console` output are not modelled.
- The confirmation dialog of `handleDelete` is the `confirmed` parameter.
- TasksComponent.WithFilter: a key other than the six filter keys adds a property that `getTasks` never sends, so the model leaves the filter record unchanged.
- TasksComponent.Tasks.HandleUpdate: when no element has the id, the source writes a property named "-1" on the array copy. The model changes no element, which is what the rendered list shows.
- TasksComponent.UpperChar, TasksComponent.GetPriorityLabel: upper-casing is ASCII only, and JavaScript's UTF-16 `charAt` on surrogate pairs is not modelled.
- TasksComponent.TrimStart and TasksComponent.TrimEnd: the white-space set is the one `String.prototype.trim` uses. Strings are sequences of Unicode scalar values, not UTF-16 code units.
- Rendering (`App.js`) is not modelled, except the status-select encoding at `App.js:241`.
