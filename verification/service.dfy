/** How the browser client reaches the server: the axios wrappers of
    ToDoWithCal/client/src/api.js, the bare `fetch` calls in the components,
    and `loadTasks` of ToDoWithCal/client/src/App.js. The network is a parameter. */
module Service {
  import opened Tasks
  import opened TaskStore

  /** What becomes of one HTTP request. */
  datatype Delivery =
    | Delivered                   // the server handles it and its answer arrives
    | Unsent(reason: string)      // the request never reaches the server
    | Unanswered(reason: string)  // the server handles it, but its answer is lost

  /** The server handles the request. */
  predicate Reaches(net: Delivery)
  {
    !net.Unsent?
  }

  /** A settled promise: resolved with the server's answer, or rejected with the text
      a handler shows for it (`err?.response?.data?.error || err.message`). */
  datatype Reply = Resolved(answer: Answer) | Rejected(detail: string)

  /** Send a request: the table changes exactly when the request reaches the server,
      and the answer arrives exactly when it is delivered. */
  method Send(server: TaskTable, req: Request, now: string, net: Delivery) returns (answer: Option<Answer>)
    requires server.Valid()
    modifies server
    ensures server.Valid()
    ensures server.rows == if Reaches(net) then RowsAfter(old(server.rows), old(server.nextId), req, now)
                           else old(server.rows)
    ensures server.nextId == if Reaches(net) then NextIdAfter(old(server.rows), old(server.nextId), req)
                             else old(server.nextId)
    ensures answer == if net.Delivered? then Some(AnswerTo(old(server.rows), old(server.nextId), req, now))
                      else None
  {
    if net.Unsent? {
      return None;
    }
    var a := server.Handle(req, now);
    answer := if net.Delivered? then Some(a) else None;
  }

  /** axios settles: it rejects on a lost request and on an error status, whose
      `error` text it exposes as `err.response.data.error`. */
  function AxiosReply(answer: Option<Answer>, net: Delivery): (r: Reply)
    ensures r.Resolved? <==> answer.Some? && !answer.value.Failed?
    ensures r.Resolved? ==> r.answer == answer.value
    ensures answer.Some? && answer.value.Failed? ==> r == Rejected(answer.value.error.message)
    ensures answer.None? && !net.Delivered? ==> r == Rejected(net.reason)
  {
    match answer
    case None => Rejected(if net.Delivered? then "" else net.reason)
    case Some(a) => if a.Failed? then Rejected(a.error.message) else Resolved(a)
  }

  /** `fetch` settles: it rejects only when no answer arrives; an error status resolves. */
  function FetchReply(answer: Option<Answer>, net: Delivery): (r: Reply)
    ensures r.Resolved? <==> answer.Some?
    ensures r.Resolved? ==> r.answer == answer.value
  {
    match answer
    case None => Rejected(if net.Delivered? then "" else net.reason)
    case Some(a) => Resolved(a)
  }

  /** `createTask`, `updateTask`, `deleteTask` of api.js, and `completeTask` of ToDoList.js
      (a `fetch` that throws unless `res.ok`): all reject on an error status. */
  method AxiosSend(server: TaskTable, req: Request, now: string, net: Delivery) returns (r: Reply)
    requires server.Valid()
    modifies server
    ensures server.Valid()
    ensures server.rows == if Reaches(net) then RowsAfter(old(server.rows), old(server.nextId), req, now)
                           else old(server.rows)
    ensures server.nextId == if Reaches(net) then NextIdAfter(old(server.rows), old(server.nextId), req)
                             else old(server.nextId)
    ensures r == AxiosReply(if net.Delivered? then Some(AnswerTo(old(server.rows), old(server.nextId), req, now))
                            else None, net)
  {
    var answer := Send(server, req, now, net);
    r := AxiosReply(answer, net);
  }

  /** The bare `fetch` calls of CalendarView.js, which never look at the status. */
  method FetchSend(server: TaskTable, req: Request, now: string, net: Delivery) returns (r: Reply)
    requires server.Valid()
    modifies server
    ensures server.Valid()
    ensures server.rows == if Reaches(net) then RowsAfter(old(server.rows), old(server.nextId), req, now)
                           else old(server.rows)
    ensures server.nextId == if Reaches(net) then NextIdAfter(old(server.rows), old(server.nextId), req)
                             else old(server.nextId)
    ensures r == FetchReply(if net.Delivered? then Some(AnswerTo(old(server.rows), old(server.nextId), req, now))
                            else None, net)
  {
    var answer := Send(server, req, now, net);
    r := FetchReply(answer, net);
  }

  /** The request both toggle handlers send: `{ ...task, status: 'pending' }` by PUT for a
      completed task, the PATCH that completes it otherwise. */
  function ToggleRequest(task: Task): (req: Request)
    ensures IsCompleted(task) ==> req == Put(task.id, BodyOf(task).(status := Text(PendingStatus)))
    ensures !IsCompleted(task) ==> req == PatchComplete(task.id)
  {
    if IsCompleted(task) then Put(task.id, BodyOf(task).(status := Text(PendingStatus)))
    else PatchComplete(task.id)
  }

  /** Toggling a stored task flips its status between completed and pending and
      changes nothing else in the table. */
  lemma ToggleFlipsStatus(rows: seq<Task>, nextId: int, k: nat, now: string)
    requires TableInvariant(rows, nextId) && k < |rows|
    ensures var after := RowsAfter(rows, nextId, ToggleRequest(rows[k]), now);
            var flipped := if IsCompleted(rows[k]) then Text(PendingStatus) else Text(CompletedStatus);
            && |after| == |rows|
            && after[k] == rows[k].(status := flipped)
            && forall i :: 0 <= i < |rows| && i != k ==> after[i] == rows[i]
  {
    var t := rows[k];
    assert WellFormedRow(t, nextId);
    forall i | 0 <= i < |rows| && i != k ensures rows[i].id != t.id { }
  }

  /** `loadTasks`: the task list the views receive after a reload; a failed GET
      falls back to the empty list. */
  function Loaded(rows: seq<Task>, fetched: bool): (r: seq<Task>)
    ensures fetched ==> multiset(r) == multiset(rows)
    ensures fetched ==> forall i, j :: 0 <= i < j < |r| ==> FieldLe(r[i].startTime, r[j].startTime)
    ensures !fetched ==> r == []
  {
    if fetched then OrderByStart(rows) else []
  }

  /** The reload a handler awaits: App's `loadTasks` against the current table. */
  method Reload(server: TaskTable, fetched: bool) returns (tasks: seq<Task>)
    requires server.Valid()
    ensures tasks == Loaded(server.rows, fetched)
  {
    if fetched {
      tasks := server.List();
    } else {
      tasks := [];
    }
  }
}
