/** The task form and list (ToDoWithCal/client/src/components/ToDoList.js): adding and
    editing a task through the form, completing, deleting and restoring a task, and the
    snackbar that reports each outcome. Requests go through the axios wrappers. */
module ToDoList {
  import opened Tasks
  import opened TaskStore
  import opened Service

  datatype Severity = Success | Info | Warning | Error

  /** What the UNDO button of a snackbar does: the handler it was created with reads the
      `lastDeleted` of the render in which the delete began, held here as `captured`. */
  datatype Action = NoAction | UndoButton(captured: Option<Task>)

  datatype Snackbar = Snackbar(open: bool, message: string, severity: Severity, action: Action)

  const Closed := Snackbar(false, "", Success, NoAction)
  const InvalidForm := "Please enter a valid task and date/time."

  /** A shown snackbar without an action. */
  function Notice(message: string, severity: Severity): Snackbar
  {
    Snackbar(true, message, severity, NoAction)
  }

  /** The inputs of the form. */
  datatype Input = TitleInput | ReasonInput | StartInput | EndInput | RecurrenceInput | PriorityInput

  /** `if (editId)`: an id of 0 is falsy, so the form then adds a task instead. */
  predicate Editing(editId: Option<int>)
  {
    editId.Some? && editId.value != 0
  }

  /** `!title || isNaN(start) || isNaN(end)` is false. */
  predicate FormValid(title: Field, startTime: Field, endTime: Field, api: DateApi)
  {
    Truthy(title) && api.parse(startTime).At? && api.parse(endTime).At?
  }

  /** `toISOString()` never returns an empty string. */
  ghost predicate IsoNonEmpty(api: DateApi)
  {
    forall ms :: api.iso(ms) != ""
  }

  /** The body the form sends: both times in ISO form and no `status` property. */
  function SubmitBody(title: Field, reason: Field, startTime: Field, endTime: Field,
                      recurrence: Field, priority: Field, api: DateApi): (b: Body)
    requires FormValid(title, startTime, endTime, api)
    ensures b.title == title && b.reason == reason && b.recurrence == recurrence && b.priority == priority
    ensures b.startTime == Text(api.iso(api.parse(startTime).ms))
    ensures b.endTime == Text(api.iso(api.parse(endTime).ms))
    ensures b.status == Null
  {
    Body(title, reason, Text(api.iso(api.parse(startTime).ms)), Text(api.iso(api.parse(endTime).ms)),
         recurrence, Null, priority)
  }

  /** `updateTask(editId, ...)` while editing, `createTask(...)` otherwise. */
  function SubmitRequest(editId: Option<int>, body: Body): (req: Request)
    ensures Editing(editId) <==> req.Put?
    ensures req.Put? ==> req == Put(editId.value, body)
    ensures req.Post? ==> req == Post(body)
  {
    if Editing(editId) then Put(editId.value, body) else Post(body)
  }

  /** A form that passes its own check is never refused by the server: the body carries
      a title and two ISO times, and a non-empty title is never NULL. */
  lemma ValidFormAccepted(rows: seq<Task>, nextId: int, editId: Option<int>, title: Field, reason: Field,
                          startTime: Field, endTime: Field, recurrence: Field, priority: Field,
                          api: DateApi, now: string)
    requires FormValid(title, startTime, endTime, api) && IsoNonEmpty(api)
    ensures var req := SubmitRequest(editId, SubmitBody(title, reason, startTime, endTime, recurrence, priority, api));
            !AnswerTo(rows, nextId, req, now).Failed?
  {
    var b := SubmitBody(title, reason, startTime, endTime, recurrence, priority, api);
    assert api.iso(api.parse(startTime).ms) != "";
    assert api.iso(api.parse(endTime).ms) != "";
    assert CreateAccepts(b);
  }

  /** An edit through the form sends no status, so the edited row's status becomes NULL,
      whatever it was; every other row stays as it was. */
  lemma FormEditClearsStatus(rows: seq<Task>, nextId: int, id: int, title: Field, reason: Field,
                             startTime: Field, endTime: Field, recurrence: Field, priority: Field,
                             api: DateApi, now: string)
    requires FormValid(title, startTime, endTime, api)
    ensures var body := SubmitBody(title, reason, startTime, endTime, recurrence, priority, api);
            var after := RowsAfter(rows, nextId, Put(id, body), now);
            && |after| == |rows|
            && (forall i :: 0 <= i < |rows| && rows[i].id == id ==> after[i].status == Null && after[i].title == title)
            && (forall i :: 0 <= i < |rows| && rows[i].id != id ==> after[i] == rows[i])
  {
    var body := SubmitBody(title, reason, startTime, endTime, recurrence, priority, api);
    assert !UpdateViolatesTitle(rows, id, body);
  }

  /** The error snackbar text of a failed submit. */
  function SubmitFailure(req: Request, detail: string): string
  {
    (if req.Put? then "Failed to update task: " else "Failed to add task: ") + detail
  }

  /** The reply an axios call settles with. */
  function Outcome(rows: seq<Task>, nextId: int, req: Request, now: string, net: Delivery): Reply
  {
    AxiosReply(if net.Delivered? then Some(AnswerTo(rows, nextId, req, now)) else None, net)
  }

  /** `task.startTime ? new Date(task.startTime).toISOString().slice(0, 16) : ''`;
      `None` when `toISOString` throws on an invalid date. */
  function FormTime(f: Field, api: DateApi): (r: Option<Field>)
    ensures r.None? <==> Truthy(f) && api.parse(f).Invalid?
    ensures r.Some? ==> r.value.Text? && |r.value.s| <= 16
    ensures !Truthy(f) ==> r == Some(Text(""))
    ensures r.Some? && Truthy(f) ==> r.value == Text(Prefix16(api.iso(api.parse(f).ms)))
    ensures r.Some? && Truthy(f) ==> r.value.s <= api.iso(api.parse(f).ms)
  {
    if !Truthy(f) then Some(Text(""))
    else
      var at := api.parse(f);
      if at.Invalid? then None else Some(Text(Prefix16(api.iso(at.ms))))
  }

  /** `tasks.find(t => t.id === id)`: the first task with the id, if any. */
  function FindTask(tasks: seq<Task>, id: int): (r: Option<Task>)
    ensures r.None? <==> !HasId(tasks, id)
    ensures r.Some? ==> exists i :: 0 <= i < |tasks| && tasks[i] == r.value && r.value.id == id
                                   && forall j :: 0 <= j < i ==> tasks[j].id != id
  {
    if tasks == [] then None
    else if tasks[0].id == id then Some(tasks[0])
    else
      var r := FindTask(tasks[1..], id);
      assert r.Some? ==> exists i :: 0 <= i < |tasks| && tasks[i] == r.value && r.value.id == id
                                     && forall j :: 0 <= j < i ==> tasks[j].id != id by {
        if r.Some? {
          var i :| 0 <= i < |tasks[1..]| && tasks[1..][i] == r.value && r.value.id == id
                   && forall j :: 0 <= j < i ==> tasks[1..][j].id != id;
          assert tasks[i + 1] == r.value && forall j :: 0 <= j < i + 1 ==> tasks[j].id != id;
        }
      }
      r
  }

  /** The body `handleUndoDelete` sends: the deleted task's columns, its status, and
      `priority || 'Medium'`. */
  function RestoreBody(d: Task): (b: Body)
    ensures b.(priority := d.priority) == BodyOf(d)
    ensures Truthy(b.priority) && (Truthy(d.priority) ==> b.priority == d.priority)
    ensures CreateAccepts(b) <==> CreateAccepts(BodyOf(d))
  {
    Body(d.title, d.reason, d.startTime, d.endTime, d.recurrence, d.status, OrElse(d.priority, Medium))
  }

  /** Deleting a stored task and restoring it gives back its content under a fresh id, as a
      pending task created now; a task the server would not accept again is lost. */
  lemma DeleteThenRestore(rows: seq<Task>, nextId: int, k: nat, now: string)
    requires TableInvariant(rows, nextId) && k < |rows|
    ensures var d := rows[k];
            var deleted := RowsAfter(rows, nextId, Remove(d.id), now);
            var restored := RowsAfter(deleted, NextIdAfter(rows, nextId, Remove(d.id)), Post(RestoreBody(d)), now);
            && (forall t :: t in deleted <==> t in rows && t != d)
            && (CreateAccepts(RestoreBody(d)) ==>
                  && restored == deleted + [d.(id := nextId, status := Text(PendingStatus), createdAt := Text(now))]
                  && nextId != d.id)
            && (!CreateAccepts(RestoreBody(d)) ==> restored == deleted)
  {
    var d := rows[k];
    assert WellFormedRow(d, nextId);
    forall t | t in rows ensures t.id == d.id <==> t == d {
      var i :| 0 <= i < |rows| && rows[i] == t;
      if t.id == d.id { assert i == k; }
    }
  }

  /** Everything the component keeps between renders; `tasks` is the prop from the last load. */
  datatype FormState = FormState(tasks: seq<Task>, title: Field, reason: Field, startTime: Field,
                                 endTime: Field, recurrence: Field, priority: Field, editId: Option<int>,
                                 loading: bool, lastDeleted: Option<Task>, snackbar: Snackbar)

  class ToDoForm {
    var tasks: seq<Task>
    var title: Field
    var reason: Field
    var startTime: Field
    var endTime: Field
    var recurrence: Field
    var priority: Field
    var editId: Option<int>
    var loading: bool
    var lastDeleted: Option<Task>
    var snackbar: Snackbar

    function State(): FormState
      reads this
    {
      FormState(tasks, title, reason, startTime, endTime, recurrence, priority, editId,
                loading, lastDeleted, snackbar)
    }

    /** The initial state: an empty form with Medium priority. */
    constructor (tasks: seq<Task>)
      ensures State() == FormState(tasks, Text(""), Text(""), Text(""), Text(""), Text(""), Text(Medium),
                                   None, false, None, Closed)
    {
      this.tasks := tasks;
      title, reason, startTime, endTime, recurrence := Text(""), Text(""), Text(""), Text(""), Text("");
      priority := Text(Medium);
      editId := None;
      loading := false;
      lastDeleted := None;
      snackbar := Closed;
    }

    /** The `onChange` of one input: that input takes the typed text, the others keep theirs. */
    method Type(input: Input, value: string)
      modifies this
      ensures State() == match input
                         case TitleInput => old(State()).(title := Text(value))
                         case ReasonInput => old(State()).(reason := Text(value))
                         case StartInput => old(State()).(startTime := Text(value))
                         case EndInput => old(State()).(endTime := Text(value))
                         case RecurrenceInput => old(State()).(recurrence := Text(value))
                         case PriorityInput => old(State()).(priority := Text(value))
    {
      match input {
        case TitleInput => title := Text(value);
        case ReasonInput => reason := Text(value);
        case StartInput => startTime := Text(value);
        case EndInput => endTime := Text(value);
        case RecurrenceInput => recurrence := Text(value);
        case PriorityInput => priority := Text(value);
      }
    }

    /** `handleSubmit`: warn about an incomplete form; otherwise create the task, or update
        the one being edited, and on success empty the form and reload. */
    method Submit(server: TaskTable, api: DateApi, net: Delivery, fetched: bool, now: string)
      requires server.Valid()
      modifies this, server
      ensures server.Valid()
      ensures !FormValid(old(title), old(startTime), old(endTime), api) ==>
                && State() == old(State()).(snackbar := Notice(InvalidForm, Warning))
                && server.rows == old(server.rows) && server.nextId == old(server.nextId)
      ensures FormValid(old(title), old(startTime), old(endTime), api) ==>
                var req := SubmitRequest(old(editId), SubmitBody(old(title), old(reason), old(startTime),
                                         old(endTime), old(recurrence), old(priority), api));
                var reply := Outcome(old(server.rows), old(server.nextId), req, now, net);
                && server.rows == (if Reaches(net) then RowsAfter(old(server.rows), old(server.nextId), req, now)
                                   else old(server.rows))
                && server.nextId == (if Reaches(net) then NextIdAfter(old(server.rows), old(server.nextId), req)
                                     else old(server.nextId))
                && (reply.Resolved? ==>
                      State() == old(State()).(tasks := Loaded(server.rows, fetched),
                                               title := Text(""), reason := Text(""), startTime := Text(""),
                                               endTime := Text(""), recurrence := Text(""), priority := Text(Medium),
                                               editId := None, loading := false,
                                               snackbar := Notice(if req.Put? then "Task updated!" else "Task added!", Success)))
                && (reply.Rejected? ==>
                      State() == old(State()).(loading := false,
                                               snackbar := Notice((if req.Put? then "Failed to update task: "
                                                                   else "Failed to add task: ") + reply.detail, Error)))
      ensures FormValid(old(title), old(startTime), old(endTime), api) && IsoNonEmpty(api) && net.Delivered? ==>
                snackbar.severity == Success
    {
      if !FormValid(title, startTime, endTime, api) {
        snackbar := Notice(InvalidForm, Warning);
        return;
      }
      var body := SubmitBody(title, reason, startTime, endTime, recurrence, priority, api);
      if IsoNonEmpty(api) {
        ValidFormAccepted(server.rows, server.nextId, editId, title, reason, startTime, endTime,
                          recurrence, priority, api, now);
      }
      SendForm(SubmitRequest(editId, body), server, net, fetched, now);
    }

    /** The rest of `handleSubmit` once the form has passed its check: send the request,
        report the outcome, and on success empty the form and reload. */
    method SendForm(req: Request, server: TaskTable, net: Delivery, fetched: bool, now: string)
      requires server.Valid() && (req.Put? || req.Post?)
      modifies this, server
      ensures server.Valid()
      ensures server.rows == (if Reaches(net) then RowsAfter(old(server.rows), old(server.nextId), req, now)
                              else old(server.rows))
      ensures server.nextId == (if Reaches(net) then NextIdAfter(old(server.rows), old(server.nextId), req)
                                else old(server.nextId))
      ensures Outcome(old(server.rows), old(server.nextId), req, now, net).Resolved? ==>
                State() == old(State()).(tasks := Loaded(server.rows, fetched),
                                         title := Text(""), reason := Text(""), startTime := Text(""),
                                         endTime := Text(""), recurrence := Text(""), priority := Text(Medium),
                                         editId := None, loading := false,
                                         snackbar := Notice(if req.Put? then "Task updated!" else "Task added!", Success))
      ensures var reply := Outcome(old(server.rows), old(server.nextId), req, now, net);
              reply.Rejected? ==>
                State() == old(State()).(loading := false, snackbar := Notice(SubmitFailure(req, reply.detail), Error))
    {
      loading := true;
      ghost var expected := Outcome(server.rows, server.nextId, req, now, net);
      var reply := AxiosSend(server, req, now, net);
      assert reply == expected;
      if reply.Resolved? {
        var reloaded := Reload(server, fetched);
        ClearForm(reloaded, if req.Put? then "Task updated!" else "Task added!");
      } else {
        assert reply.Rejected? && reply == expected;
        snackbar := Notice(SubmitFailure(req, reply.detail), Error);
      }
      loading := false;
    }

    /** The state after a successful submit: an empty form with Medium priority, the
        reloaded tasks and a success message. */
    method ClearForm(reloaded: seq<Task>, message: string)
      modifies this
      ensures State() == old(State()).(tasks := reloaded,
                                       title := Text(""), reason := Text(""), startTime := Text(""),
                                       endTime := Text(""), recurrence := Text(""), priority := Text(Medium),
                                       editId := None, snackbar := Notice(message, Success))
    {
      snackbar := Notice(message, Success);
      title, reason, startTime, endTime, recurrence := Text(""), Text(""), Text(""), Text(""), Text("");
      editId := None;
      priority := Text(Medium);
      tasks := reloaded;
    }

    /** `handleEdit`: load a task into the form. An invalid start or end date makes
        `toISOString` throw, which ends the handler after the fields set before it. */
    method Edit(task: Task, api: DateApi)
      modifies this
      ensures var start := FormTime(task.startTime, api);
              var end := FormTime(task.endTime, api);
              var loaded := old(State()).(editId := Some(task.id), title := task.title, reason := task.reason);
              && (start.None? ==> State() == loaded)
              && (start.Some? && end.None? ==> State() == loaded.(startTime := start.value))
              && (start.Some? && end.Some? ==>
                    State() == loaded.(startTime := start.value, endTime := end.value,
                                       recurrence := OrElse(task.recurrence, ""),
                                       priority := OrElse(task.priority, Medium)))
    {
      editId := Some(task.id);
      title := task.title;
      reason := task.reason;
      var start := FormTime(task.startTime, api);
      if start.None? {
        return;
      }
      startTime := start.value;
      var end := FormTime(task.endTime, api);
      if end.None? {
        return;
      }
      endTime := end.value;
      recurrence := OrElse(task.recurrence, "");
      priority := OrElse(task.priority, Medium);
    }

    /** `handleCancelEdit`: stop editing and clear title, reason and times; the recurrence
        and priority inputs keep their values. */
    method CancelEdit()
      modifies this
      ensures State() == old(State()).(editId := None, title := Text(""), reason := Text(""),
                                       startTime := Text(""), endTime := Text(""))
      ensures !Editing(editId)
    {
      editId := None;
      title, reason, startTime, endTime := Text(""), Text(""), Text(""), Text("");
    }

    /** `handleDelete`: remember the task from the list, delete it, reload and offer UNDO.
        The UNDO button carries the handler of the current render, so it will act on the
        `lastDeleted` from before this delete. */
    method Delete(id: int, server: TaskTable, net: Delivery, fetched: bool)
      requires server.Valid()
      modifies this, server
      ensures server.Valid() && server.nextId == old(server.nextId)
      ensures server.rows == if Reaches(net) then RemoveRows(old(server.rows), id) else old(server.rows)
      ensures net.Delivered? ==>
                State() == old(State()).(tasks := Loaded(server.rows, fetched), loading := false,
                                         lastDeleted := FindTask(old(tasks), id),
                                         snackbar := Snackbar(true, "Task deleted", Info, UndoButton(old(lastDeleted))))
      ensures !net.Delivered? ==>
                State() == old(State()).(loading := false,
                                         snackbar := Notice("Failed to delete task: " + net.reason, Error))
    {
      var deleted := FindTask(tasks, id);
      var captured := lastDeleted;
      loading := true;
      var reply := DeleteRequest(id, server, net);
      if reply.Resolved? {
        var reloaded := Reload(server, fetched);
        Deleted(reloaded, deleted, captured);
      } else {
        Report(Notice("Failed to delete task: " + reply.detail, Error));
      }
      loading := false;
    }

    /** `deleteTask(id)`: the table loses the row once the request reaches the server, and
        the promise resolves exactly when the answer arrives. */
    static method DeleteRequest(id: int, server: TaskTable, net: Delivery) returns (reply: Reply)
      requires server.Valid()
      modifies server
      ensures server.Valid() && server.nextId == old(server.nextId)
      ensures server.rows == if Reaches(net) then RemoveRows(old(server.rows), id) else old(server.rows)
      ensures reply.Resolved? <==> net.Delivered?
      ensures reply.Rejected? ==> reply.detail == net.reason
    {
      reply := AxiosSend(server, Remove(id), "", net);
    }

    /** The state after a successful delete: the reloaded list, the deleted task remembered,
        and a snackbar whose UNDO carries `captured`. */
    method Deleted(reloaded: seq<Task>, deleted: Option<Task>, captured: Option<Task>)
      modifies this
      ensures State() == old(State()).(tasks := reloaded, lastDeleted := deleted,
                                       snackbar := Snackbar(true, "Task deleted", Info, UndoButton(captured)))
    {
      tasks := reloaded;
      lastDeleted := deleted;
      snackbar := Snackbar(true, "Task deleted", Info, UndoButton(captured));
    }

    /** Show a snackbar; nothing else changes. */
    method Report(message: Snackbar)
      modifies this
      ensures State() == old(State()).(snackbar := message)
    {
      snackbar := message;
    }

    /** `handleUndoDelete` as the UNDO button runs it: nothing when the task it captured is
        absent; otherwise create that task again and, on success, reload and forget it. */
    method UndoDelete(server: TaskTable, net: Delivery, fetched: bool, now: string)
      requires server.Valid()
      modifies this, server
      ensures server.Valid()
      ensures !(old(snackbar).action.UndoButton? && old(snackbar).action.captured.Some?) ==>
                State() == old(State()) && server.rows == old(server.rows) && server.nextId == old(server.nextId)
      ensures old(snackbar).action.UndoButton? && old(snackbar).action.captured.Some? ==>
                var d := old(snackbar).action.captured.value;
                var req := Post(RestoreBody(d));
                var reply := Outcome(old(server.rows), old(server.nextId), req, now, net);
                && server.rows == (if Reaches(net) then RowsAfter(old(server.rows), old(server.nextId), req, now)
                                   else old(server.rows))
                && server.nextId == (if Reaches(net) then NextIdAfter(old(server.rows), old(server.nextId), req)
                                     else old(server.nextId))
                && (reply.Resolved? ==>
                      State() == old(State()).(tasks := Loaded(server.rows, fetched), loading := false,
                                               lastDeleted := None, snackbar := Notice("Task restored", Success)))
                && (reply.Rejected? ==>
                      State() == old(State()).(loading := false,
                                               snackbar := Notice("Failed to restore task: " + reply.detail, Error)))
      // the restored task is a new row: a fresh id and a pending status
      ensures old(snackbar).action.UndoButton? && old(snackbar).action.captured.Some? && Reaches(net)
              && CreateAccepts(RestoreBody(old(snackbar).action.captured.value)) ==>
                && server.rows == old(server.rows) + [server.rows[|server.rows| - 1]]
                && server.rows[|server.rows| - 1].id == old(server.nextId)
                && !HasId(old(server.rows), old(server.nextId))
                && server.rows[|server.rows| - 1].status == Text(PendingStatus)
    {
      if !(snackbar.action.UndoButton? && snackbar.action.captured.Some?) {
        return;
      }
      Restore(snackbar.action.captured.value, server, net, fetched, now);
    }

    /** The work of `handleUndoDelete` once the button holds a task: create it again and,
        on success, reload and forget it. */
    method Restore(d: Task, server: TaskTable, net: Delivery, fetched: bool, now: string)
      requires server.Valid()
      modifies this, server
      ensures server.Valid()
      ensures var req := Post(RestoreBody(d));
              var reply := Outcome(old(server.rows), old(server.nextId), req, now, net);
              && server.rows == (if Reaches(net) then RowsAfter(old(server.rows), old(server.nextId), req, now)
                                 else old(server.rows))
              && server.nextId == (if Reaches(net) then NextIdAfter(old(server.rows), old(server.nextId), req)
                                   else old(server.nextId))
              && (reply.Resolved? ==>
                    State() == old(State()).(tasks := Loaded(server.rows, fetched), loading := false,
                                             lastDeleted := None, snackbar := Notice("Task restored", Success)))
              && (reply.Rejected? ==>
                    State() == old(State()).(loading := false,
                                             snackbar := Notice("Failed to restore task: " + reply.detail, Error)))
      ensures Reaches(net) && CreateAccepts(RestoreBody(d)) ==>
                && server.rows == old(server.rows) + [server.rows[|server.rows| - 1]]
                && server.rows[|server.rows| - 1].id == old(server.nextId)
                && !HasId(old(server.rows), old(server.nextId))
                && server.rows[|server.rows| - 1].status == Text(PendingStatus)
    {
      loading := true;
      if CreateAccepts(RestoreBody(d)) {
        InsertKeepsInvariant(server.rows, server.nextId, RestoreBody(d), now);
      }
      ghost var expected := Outcome(server.rows, server.nextId, Post(RestoreBody(d)), now, net);
      var reply := AxiosSend(server, Post(RestoreBody(d)), now, net);
      assert reply == expected;
      if reply.Resolved? {
        var reloaded := Reload(server, fetched);
        Restored(reloaded);
      } else {
        Report(Notice("Failed to restore task: " + reply.detail, Error));
      }
      loading := false;
    }

    /** The state after a successful restore: the reloaded list, nothing left to undo. */
    method Restored(reloaded: seq<Task>)
      modifies this
      ensures State() == old(State()).(tasks := reloaded, lastDeleted := None,
                                       snackbar := Notice("Task restored", Success))
    {
      tasks := reloaded;
      snackbar := Notice("Task restored", Success);
      lastDeleted := None;
    }

    /** `handleToggleComplete`: send the toggle request, report it and reload. */
    method ToggleComplete(task: Task, server: TaskTable, net: Delivery, fetched: bool)
      requires server.Valid()
      modifies this, server
      ensures server.Valid() && server.nextId == old(server.nextId)
      ensures server.rows == (if Reaches(net) then RowsAfter(old(server.rows), old(server.nextId), ToggleRequest(task), "")
                              else old(server.rows))
      ensures var reply := Outcome(old(server.rows), old(server.nextId), ToggleRequest(task), "", net);
              && (reply.Resolved? ==>
                    State() == old(State()).(tasks := Loaded(server.rows, fetched), loading := false,
                                             snackbar := if IsCompleted(task) then Notice("Marked as pending", Info)
                                                         else Notice("Marked as completed!", Success)))
              && (reply.Rejected? ==>
                    State() == old(State()).(loading := false,
                                             snackbar := Notice("Failed to toggle completion: " + reply.detail, Error)))
    {
      loading := true;
      ghost var expected := Outcome(server.rows, server.nextId, ToggleRequest(task), "", net);
      var reply := AxiosSend(server, ToggleRequest(task), "", net);
      assert reply == expected;
      if reply.Resolved? {
        var reloaded := Reload(server, fetched);
        Toggled(reloaded, if IsCompleted(task) then Notice("Marked as pending", Info)
                          else Notice("Marked as completed!", Success));
      } else {
        Report(Notice("Failed to toggle completion: " + reply.detail, Error));
      }
      loading := false;
    }

    /** The state after a successful toggle: the reloaded list and the message. */
    method Toggled(reloaded: seq<Task>, message: Snackbar)
      modifies this
      ensures State() == old(State()).(tasks := reloaded, snackbar := message)
    {
      snackbar := message;
      tasks := reloaded;
    }

    /** The snackbar's `onClose`: hide it and keep its content. */
    method CloseSnackbar()
      modifies this
      ensures State() == old(State()).(snackbar := old(snackbar).(open := false))
    {
      snackbar := snackbar.(open := false);
    }
  }
}
