# ToDoWithCal in Dafny

ToDoWithCal is a task manager. It has two parts:

- an Express server that keeps tasks in an SQLite `tasks` table behind five `/tasks` handlers;
- a React client that shows the tasks in three ways: a form with a list, a week calendar and a day timeline. A summary dialog adds the counts.

This project models the following as Dafny code and proves properties of it:

- the table and its handlers;
- the pure views over the task list;
- the state of the two interactive components.

| file | module | what it models |
|---|---|---|
| `tasks.dfy` | `Tasks` | A task row, a request body, and JavaScript truthiness of optional strings. Also `trim() === ''` and `slice(0, 16)`. The browser's date functions are bundled as a `DateApi` parameter. |
| `sequences.dfy` | `Sequences` | A stable insertion sort under a "may precede" relation, proved sorted for total and transitive relations. Also order-preserving subsequences. |
| `task_store.dfy` | `TaskStore` | The `tasks` table as a class with its rows and AUTOINCREMENT counter. GET, POST, PUT, DELETE and PATCH are methods. Each statement's effect is also a function on the rows. |
| `service.dfy` | `Service` | How the client reaches the server: the axios wrappers (they reject on an error status) and bare `fetch` (it only rejects when no answer arrives). Also App's `loadTasks`. The network is a parameter. |
| `summary.dfy` | `Summary` | The completed, pending and recurring counts of the summary dialog. |
| `timeline.dfy` | `Timeline` | The day filter, the start-time sort, the priority colours and the connectors of the day timeline. |
| `calendar.dfy` | `Calendar` | Tasks as calendar events, the event colour rules, and the event popover with its edit form as the class `CalendarPanel`. |
| `todo_list.dfy` | `ToDoList` | The add/edit form, the delete/undo snackbar and the completion toggle, as the class `ToDoForm`. |

## Server behaviour

**The table**
- Rows keep their insertion order. Ids come from a counter that only grows.
- The table invariant holds in every state:
  - ids are distinct, and every id is below the counter;
  - every row has a non-NULL title and a creation time;
  - no row has a priority, because the table has no such column.

**Create (POST)**
- A body is refused with 400 unless title, startTime and endTime are all non-empty strings. A title of spaces is accepted.
- An accepted body appends exactly one row. The row has a fresh id and status `pending`, whatever status or priority the body carried.

**Update (PUT)**
- PUT writes six columns of the matching row. A property missing from the body writes NULL.
- The title column is NOT NULL, so a PUT without a title that matches a row fails with 500 and changes nothing.
- A PUT that matches no row reports 0 changes.

**Change counts and order**
- PUT, DELETE and PATCH report 1 change or 0, and leave the table as it was when the count is 0.
- GET returns every row once, in ascending `startTime` order. NULL sorts first, then strings compare code point by code point.

## Client behaviour

**Replies and reloads**
- A handler reloads the task list after a success. The reload yields the server's ordered rows, or `[]` when the GET fails.
- Network outcomes are a parameter, `Delivery`:
  - the request never reaches the server;
  - the server handles it and the answer arrives;
  - the server handles it but the answer is lost. The table changes, yet the client reports a failure.

**Form edits and status**
- An edit through the form sends no `status`, so it stores a NULL status.
- Toggling a stored task flips its status and changes nothing else.

**Delete and UNDO**
- Deleting and then restoring a task gives back its content under a new id, with status `pending`.
- The UNDO button is created during the delete. It carries the `handleUndoDelete` of the render in which the delete began. That handler reads the `lastDeleted` held when the delete began, so `ToDoList.ToDoForm.UndoDelete` acts on the task the button captured:
  - when that `lastDeleted` was null, UNDO does nothing. This is the case after the first delete, and after a delete that follows a successful UNDO, since a successful UNDO sets `lastDeleted` to null;
  - otherwise UNDO re-creates the task of the previous successful delete, not the one just deleted.

## Model

| member | source | states |
|---|---|---|
| TaskStore.TextLeTotal | ToDoWithCal/server/index.js:53 | Any two start times are ordered one way or the other by the text comparison of `ORDER BY startTime` |
| TaskStore.TextLeTransitive | ToDoWithCal/server/index.js:53 | The text order of `ORDER BY startTime` is transitive |
| TaskStore.TextLeAntisymmetric | ToDoWithCal/server/index.js:53 | Two start times that each sort no later than the other are equal |
| TaskStore.OrderByStart | ToDoWithCal/server/index.js:53 | The listed rows are the table's rows, each exactly once, with start times non-decreasing (NULL first) |
| TaskStore.Changes | ToDoWithCal/server/index.js:106 | The change count never exceeds the row count and is 0 exactly when no row has the id |
| TaskStore.ChangesZeroOrOne | ToDoWithCal/server/index.js:121 | Since ids are a key, a statement by id changes 1 row if the id exists and 0 otherwise |
| TaskStore.OverwriteRows | ToDoWithCal/server/index.js:98-101 | Only the matching row changes; its six columns take the body's values, while id, createdAt and priority stay |
| TaskStore.CompleteRows | ToDoWithCal/server/index.js:128 | Only status changes, and it becomes `completed` on the matching row and nowhere else |
| TaskStore.RemoveRows | ToDoWithCal/server/index.js:115 | Exactly the rows with the id disappear; the length drops by the change count and the rest keep their order |
| TaskStore.NewRow | ToDoWithCal/server/index.js:73-75 | The inserted row has the given id and creation time, the body's five bound columns, status `pending` and no priority, whatever the body's status and priority |
| TaskStore.CreateAccepts | ToDoWithCal/server/index.js:68 | A body lacking title, startTime or endTime is refused; an accepted body gives a row that meets the table's column constraints |
| TaskStore.UpdateViolatesTitle | ToDoWithCal/server/index.js:99-104 | The UPDATE fails exactly when some matched row would get a NULL title |
| TaskStore.RowsAfter | ToDoWithCal/server/index.js:62-135 | An error answer or a zero count leaves the rows as they were; a created row is appended exactly as answered; PUT and PATCH keep the length and DELETE drops it by the change count |
| TaskStore.NextIdAfter | ToDoWithCal/server/index.js:73-76 | The counter advances by at most one, and by one exactly when the answer is a created row |
| TaskStore.AnswerTo | ToDoWithCal/server/index.js:62-135 | A created row only for an accepted POST, with the counter's id and status `pending`; 400 only for a refused POST and 500 only for a PUT; otherwise a count of 1 exactly when the id names a row, else 0 |
| TaskStore.CompleteIdempotent | ToDoWithCal/server/index.js:128 | Completing twice leaves the same table as completing once |
| TaskStore.NoMatchNoChange | ToDoWithCal/server/index.js:99-101 | An update or completion of an absent id leaves every row as it was |
| TaskStore.RemoveAbsent | ToDoWithCal/server/index.js:115 | A delete of an absent id leaves every row as it was |
| TaskStore.ToggleRoundTrip | ToDoWithCal/server/index.js:98-101 | Completing a pending row and then writing it back with status `pending` restores the table exactly |
| TaskStore.InsertKeepsInvariant | ToDoWithCal/server/index.js:39-48 | An accepted insert keeps ids distinct and below the counter, and the new id is unused |
| TaskStore.OverwriteKeepsInvariant | ToDoWithCal/server/index.js:99-104 | An update that passes the NOT NULL check keeps the table invariant |
| TaskStore.CompleteKeepsInvariant | ToDoWithCal/server/index.js:128 | Completion keeps the table invariant |
| TaskStore.RemoveKeepsInvariant | ToDoWithCal/server/index.js:115 | A delete keeps the table invariant |
| TaskStore.TaskTable.constructor | ToDoWithCal/server/index.js:38-49 | A new table is empty and valid, and its first id is 1 |
| TaskStore.TaskTable.List | ToDoWithCal/server/index.js:51-60 | GET returns a permutation of the rows in non-decreasing start-time order |
| TaskStore.TaskTable.Create | ToDoWithCal/server/index.js:62-93 | 400 and no change without title, startTime or endTime; otherwise one new row with a fresh id, status `pending` and no priority, returned as stored |
| TaskStore.TaskTable.Update | ToDoWithCal/server/index.js:95-110 | 500 and no change when a matched row would get a NULL title; otherwise the six columns are overwritten, with change count 1 or 0 and no change at 0 |
| TaskStore.TaskTable.Delete | ToDoWithCal/server/index.js:112-124 | Removes only the rows with the id; change count 1 or 0, and no change at 0 |
| TaskStore.TaskTable.Complete | ToDoWithCal/server/index.js:126-135 | Sets only the status of the matching row; change count 1 or 0, and no change at 0 |
| TaskStore.TaskTable.Handle | ToDoWithCal/server/index.js:62-135 | Each request changes the table, the counter and the answer as its handler specifies, and keeps the invariant |
| Service.Send | ToDoWithCal/client/src/api.js:5-23 | The table changes exactly when the request reaches the server; an answer arrives exactly when it is delivered |
| Service.AxiosReply | ToDoWithCal/client/src/api.js:5-23 | axios resolves exactly when an answer arrives without an error status; it rejects with the server's `error` text or the network reason |
| Service.FetchReply | ToDoWithCal/client/src/components/CalendarView.js:51 | `fetch` resolves exactly when an answer arrives, whatever its status |
| Service.AxiosSend | ToDoWithCal/client/src/components/ToDoList.js:9-15 | An axios-style call (including `completeTask`, which throws unless `res.ok`) changes the table as the handler does and settles as axios does |
| Service.FetchSend | ToDoWithCal/client/src/components/CalendarView.js:62-69 | A bare `fetch` changes the table as the handler does and settles as `fetch` does |
| Service.ToggleRequest | ToDoWithCal/client/src/components/ToDoList.js:29-34 | A completed task is sent back by PUT with status `pending`; any other task is completed by PATCH |
| Service.ToggleFlipsStatus | ToDoWithCal/client/src/components/CalendarView.js:61-70 | Toggling a stored row flips its status between `completed` and `pending` and changes nothing else |
| Service.Loaded | ToDoWithCal/client/src/App.js:18-27 | A successful load yields the table's rows, each once, in non-decreasing start-time order; a failed one yields `[]` |
| Service.Reload | ToDoWithCal/client/src/App.js:18-27 | The reloaded list is the load of the current table |
| Summary.CompletedCount | ToDoWithCal/client/src/components/SummaryDialog.js:5 | At most the number of tasks; 0 exactly when no task has status `completed` |
| Summary.PendingCount | ToDoWithCal/client/src/components/SummaryDialog.js:6 | At most the number of tasks; 0 exactly when every task is completed (a missing status counts as pending) |
| Summary.RecurringCount | ToDoWithCal/client/src/components/SummaryDialog.js:7 | At most the number of tasks; 0 exactly when no task has a non-empty recurrence |
| Summary.CountsPartition | ToDoWithCal/client/src/components/SummaryDialog.js:5-6 | Completed plus pending equals the number of tasks |
| Summary.Summarize | ToDoWithCal/client/src/components/SummaryDialog.js:4-7 | Each of the three counts is its filter's count (`CompletedCount`, `PendingCount`, `RecurringCount`); no tasks gives three zeros; completed + pending is the total |
| Summary.CompleteMovesOneTask | ToDoWithCal/client/src/components/SummaryDialog.js:5-6 | After PATCH complete, the completed count rises by one and the pending count falls by one exactly when the id named a stored, not yet completed task; otherwise both stay |
| Timeline.PriorityColor | ToDoWithCal/client/src/components/TimelineView.js:15-22 | High, Medium and Low get their three colours, and `#BDBDBD` is returned exactly for every other value |
| Timeline.PrecedesOrder | ToDoWithCal/client/src/components/TimelineView.js:35 | The comparator orders any two tasks one way or the other; an unparsable start is in order with everything; two parsed starts are in order exactly when the first is not later |
| Timeline.KeepDay | ToDoWithCal/client/src/components/TimelineView.js:28-31 | Keeps exactly the tasks starting on the given day, each as often as in the input, in their original order |
| Timeline.DayTasks | ToDoWithCal/client/src/components/TimelineView.js:26-32 | No selected date returns the list unchanged; otherwise exactly the tasks on the selected day, each as often as in the input, in order |
| Timeline.SortedTasks | ToDoWithCal/client/src/components/TimelineView.js:35 | The sorted copy is a permutation of the day's tasks |
| Timeline.SortedByStartTime | ToDoWithCal/client/src/components/TimelineView.js:35 | When every start parses, the sorted tasks start in non-decreasing order |
| Timeline.StartingAtInsert | ToDoWithCal/client/src/components/TimelineView.js:35 | Inserting one task keeps the relative order of the tasks starting at any given instant |
| Timeline.SortIsStable | ToDoWithCal/client/src/components/TimelineView.js:35 | Tasks with the same start keep their relative order through the sort, for every input |
| Timeline.CountAllTrue | ToDoWithCal/client/src/components/TimelineView.js:62 | A run of drawn connectors counts its full length |
| Timeline.Render | ToDoWithCal/client/src/components/TimelineView.js:37-62 | "No tasks for this day" exactly for an empty list; otherwise every task is drawn, with a connector after every item but the last (n-1 in all) |
| Timeline.TimelineOf | ToDoWithCal/client/src/components/TimelineView.js:26-62 | Empty exactly when no task qualifies; otherwise it shows the sorted day tasks, each as often as in the input, and only tasks of the selected day |
| Sequences.SortBy | ToDoWithCal/client/src/components/TimelineView.js:35 | The sort keeps the length and the multiset of its input |
| Sequences.SortBySorted | ToDoWithCal/client/src/components/TimelineView.js:35 | Under a total, transitive relation the sort's output is sorted |
| Tasks.Prefix16 | ToDoWithCal/client/src/components/CalendarView.js:83-84 | `slice(0, 16)` is a prefix of length min(16, length) |
| Tasks.IsBlank | ToDoWithCal/client/src/components/CalendarView.js:103 | A title is blank exactly when trimming white space from both ends leaves `''` |
| Calendar.Events | ToDoWithCal/client/src/components/CalendarView.js:24-34 | One event per task, in order, copying id, title, priority, status and recurrence, with parsed start and end, never all-day; no list gives no events |
| Calendar.EventsRoundTrip | ToDoWithCal/client/src/components/CalendarView.js:24-34 | The events' resources are exactly the task list |
| Calendar.EventStyle | ToDoWithCal/client/src/components/CalendarView.js:184-199 | Completed takes precedence: grey; otherwise a known priority gets its tint and the timeline's colour, and anything else `#fff`/`#222` |
| Calendar.DotColor | ToDoWithCal/client/src/components/CalendarView.js:170 | Agrees with the timeline colour for High, Medium and Low; any other value, absent included, is Low's green |
| Calendar.StoredTaskColours | ToDoWithCal/client/src/components/CalendarView.js:184-199 | A stored pending task, which has no priority, gets a green dot, a black-on-white event and a grey timeline dot |
| Calendar.DraftTime | ToDoWithCal/client/src/components/CalendarView.js:83-84 | A present time is cut to its first 16 characters; an absent one becomes `''` |
| Calendar.DraftOf | ToDoWithCal/client/src/components/CalendarView.js:80-87 | The draft has all six keys; title and reason are copied, times cut, recurrence defaults to `''` and priority to `Medium` |
| Calendar.CheckDraft | ToDoWithCal/client/src/components/CalendarView.js:103-110 | A missing or all-whitespace title is refused first; then end before start, both present and valid; equal times pass |
| Calendar.SaveBody | ToDoWithCal/client/src/components/CalendarView.js:117-122 | Title, reason, recurrence and priority each take the draft's value when the draft has the key, else the selected task's; the status stays the task's own; both times are the ISO strings |
| Calendar.PrepareSave | ToDoWithCal/client/src/components/CalendarView.js:114-122 | A PUT of the selected task's id is built exactly when a task is selected and both draft times are dates, and its body is SaveBody of the task and the draft with both times in ISO form; otherwise the thrown message |
| Calendar.CalendarPanel.constructor | ToDoWithCal/client/src/components/CalendarView.js:18-21 | Closed popover, no selection, not editing, empty draft, no error, not loading |
| Calendar.CalendarPanel.SelectEvent | ToDoWithCal/client/src/components/CalendarView.js:36-39 | Selects the event's task and opens the popover; nothing else changes |
| Calendar.CalendarPanel.ClosePopover | ToDoWithCal/client/src/components/CalendarView.js:41-44 | Closes the popover and clears the selection; nothing else changes |
| Calendar.CalendarPanel.Edit | ToDoWithCal/client/src/components/CalendarView.js:78-88 | Turns on edit mode with the draft of the task; nothing else changes |
| Calendar.CalendarPanel.EditFieldChange | ToDoWithCal/client/src/components/CalendarView.js:90-92 | Changes only the named draft field |
| Calendar.CalendarPanel.EditCancel | ToDoWithCal/client/src/components/CalendarView.js:94-97 | Leaves edit mode with an empty draft and sends nothing |
| Calendar.CalendarPanel.EditSave | ToDoWithCal/client/src/components/CalendarView.js:101-132 | A blank title or end before start sets the error only, with no request. A throw before the request sets the error. Otherwise a PUT is sent: an answer leaves edit mode, clears the draft, reloads and closes the popover; no answer keeps the form with the error. With the popover open, a task is always selected, so the save never throws for a missing selection |
| Calendar.CalendarPanel.ToggleComplete | ToDoWithCal/client/src/components/CalendarView.js:57-77 | Sends the toggle request; an answer reloads and closes the popover; loading ends false |
| Calendar.CalendarPanel.Delete | ToDoWithCal/client/src/components/CalendarView.js:48-56 | Sends the DELETE; an answer reloads and closes the popover; loading ends false |
| ToDoList.SubmitBody | ToDoWithCal/client/src/components/ToDoList.js:63-80 | The form's fields with both times as ISO strings and no status |
| ToDoList.SubmitRequest | ToDoWithCal/client/src/components/ToDoList.js:62-82 | A PUT of `editId` exactly when editing with a truthy id, else a POST |
| ToDoList.ValidFormAccepted | ToDoWithCal/client/src/components/ToDoList.js:56-80 | A form that passes the client check is never refused by the server |
| ToDoList.FormEditClearsStatus | ToDoWithCal/client/src/components/ToDoList.js:63-70 | Editing through the form sets the edited row's status to NULL and leaves other rows alone |
| ToDoList.FormTime | ToDoWithCal/client/src/components/ToDoList.js:101-102 | `''` for an absent time, a throw exactly for an invalid date, else exactly the first 16 characters of the ISO string |
| ToDoList.FindTask | ToDoWithCal/client/src/components/ToDoList.js:117 | Finds the first task with the id, and nothing exactly when no task has it |
| ToDoList.RestoreBody | ToDoWithCal/client/src/components/ToDoList.js:145-153 | The restored body is the deleted task's own apart from priority, which is the task's when truthy and `Medium` otherwise; the server accepts it exactly when it would accept the task's own body |
| ToDoList.DeleteThenRestore | ToDoWithCal/client/src/components/ToDoList.js:140-156 | Delete then restore gives the deleted row back under a fresh id, pending, created now; a row the server would refuse is lost |
| ToDoList.ToDoForm.constructor | ToDoWithCal/client/src/components/ToDoList.js:43-50 | Empty form, Medium priority, not editing, not loading, nothing deleted, snackbar closed |
| ToDoList.ToDoForm.Type | ToDoWithCal/client/src/components/ToDoList.js:167-202 | One input takes the typed text; the others keep theirs |
| ToDoList.ToDoForm.Submit | ToDoWithCal/client/src/components/ToDoList.js:52-95 | An invalid form shows the warning and changes nothing else; a valid one sends the create or update with the outcome of SendForm |
| ToDoList.ToDoForm.SendForm | ToDoWithCal/client/src/components/ToDoList.js:60-94 | Success resets all seven fields (priority to Medium, editId to null), reloads and reports added or updated; failure keeps the form and reports the error; loading ends false |
| ToDoList.ToDoForm.ClearForm | ToDoWithCal/client/src/components/ToDoList.js:83-89 | The reset after success: all text fields empty, priority Medium, editId null |
| ToDoList.ToDoForm.Edit | ToDoWithCal/client/src/components/ToDoList.js:97-105 | Loads the task; recurrence defaults to `''` and priority to Medium; an invalid date stops the handler after the fields set before it |
| ToDoList.ToDoForm.CancelEdit | ToDoWithCal/client/src/components/ToDoList.js:107-113 | Clears editId, title, reason and both times; recurrence and priority stay |
| ToDoList.ToDoForm.Delete | ToDoWithCal/client/src/components/ToDoList.js:115-137 | Deletes on the server; on success reloads, remembers the task found before the delete and offers UNDO; on failure only the error shows |
| ToDoList.ToDoForm.UndoDelete | ToDoWithCal/client/src/components/ToDoList.js:140-161 | Nothing without a captured task; otherwise a create from it, with table, counter and full state given; an accepted create appends one pending row under a fresh id, and success forgets the task |
| ToDoList.ToDoForm.ToggleComplete | ToDoWithCal/client/src/components/ToDoList.js:26-41 | Sends the toggle request and reports pending or completed, or the error; loading ends false |
| ToDoList.ToDoForm.CloseSnackbar | ToDoWithCal/client/src/components/ToDoList.js:307 | Hides the snackbar and keeps its content |

## Left out

- The Express, CORS, body-parser and logging wiring, the database connection, and `app.listen` are not modelled. Only the table semantics are.
- Database errors other than the NOT NULL title constraint are not modelled: I/O failures, a locked database, and a failing SELECT after INSERT. The 500 answers they cause are absent.
- A `:id` path parameter that is not a number is not modelled. The model takes ids as integers, which such an id never matches.
- The 64-bit limit of SQLite ids is not modelled; ids are unbounded integers.
- `createdAt` is a parameter `now`, standing for the server's `CURRENT_TIMESTAMP`.
- TaskStore.OrderByStart: SQLite leaves the order of rows with equal start times unspecified; the model fixes it to table order.
- Timeline.SortedByStartTime: sortedness is proved only when every start time parses. With a NaN comparator, `Array.prototype.sort` gives an implementation-defined order.
- Timeline.SortIsStable: stability is proved of the model's stable insertion sort, for every input. When a start does not parse, the comparator returns NaN, and `Array.prototype.sort` then gives an implementation-defined order, which the model fixes to the one its sort produces.
- Tasks.Prefix16: counts Dafny characters, which are Unicode scalar values, while `slice(0, 16)` counts UTF-16 code units. They differ only for strings with characters outside the Basic Multilingual Plane among their first 16.
- Calendar.DraftTime: cuts with `Prefix16`, so it counts characters as `Prefix16` does, not UTF-16 code units.
- ToDoList.FormTime: cuts with `Prefix16`, so it counts characters as `Prefix16` does, not UTF-16 code units.
- Date parsing, `toISOString`, `toDateString` and time zones are uninterpreted parameters (`DateApi`). The model does not say which strings parse, or what day an instant falls on.
- Requests and reloads in flight at the same time are not modelled: each handler runs to completion, with its reload, before the next event. `tasksLoading` is left out.
- The `alert` calls of the calendar on failure are not modelled; only the state changes are.
- The axios wrappers use an absolute `http://localhost:4000` base, while the components' `fetch` calls use relative URLs. Both are taken to reach the same server.
- MotivationSection.js and TradingQuotesSection.js are not part of this model: they call an external text service. theme.js is not part of this model: it holds styling constants only.
- JSX rendering, popover anchoring, layout, icons and the component tests are not modelled. Of the timeline's rendering, only the empty branch and the connectors are.
