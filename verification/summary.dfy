/** The three counts of the day summary dialog
    (ToDoWithCal/client/src/components/SummaryDialog.js). */
module Summary {
  import opened Tasks
  import opened TaskStore

  /** `tasks.filter(t => t.status === 'completed').length` */
  function CompletedCount(tasks: seq<Task>): (n: nat)
    ensures n <= |tasks|
    ensures n == 0 <==> forall i :: 0 <= i < |tasks| ==> !IsCompleted(tasks[i])
  {
    if tasks == [] then 0
    else (if IsCompleted(tasks[0]) then 1 else 0) + CompletedCount(tasks[1..])
  }

  /** `tasks.filter(t => t.status !== 'completed').length`: a missing status counts as pending. */
  function PendingCount(tasks: seq<Task>): (n: nat)
    ensures n <= |tasks|
    ensures n == 0 <==> forall i :: 0 <= i < |tasks| ==> IsCompleted(tasks[i])
  {
    if tasks == [] then 0
    else (if IsCompleted(tasks[0]) then 0 else 1) + PendingCount(tasks[1..])
  }

  /** `tasks.filter(t => t.recurrence).length`: tasks with a non-empty recurrence label. */
  function RecurringCount(tasks: seq<Task>): (n: nat)
    ensures n <= |tasks|
    ensures n == 0 <==> forall i :: 0 <= i < |tasks| ==> !Truthy(tasks[i].recurrence)
  {
    if tasks == [] then 0
    else (if Truthy(tasks[0].recurrence) then 1 else 0) + RecurringCount(tasks[1..])
  }

  datatype Counts = Counts(completed: nat, pending: nat, recurring: nat)

  /** Every task is completed or pending, never both. */
  lemma {:induction false} CountsPartition(tasks: seq<Task>)
    ensures CompletedCount(tasks) + PendingCount(tasks) == |tasks|
  {
    if tasks != [] {
      CountsPartition(tasks[1..]);
    }
  }

  /** The dialog's counts; `tasks = []` is the default when the prop is undefined. */
  function Summarize(tasks: Option<seq<Task>>): (c: Counts)
    ensures tasks.None? ==> c == Counts(0, 0, 0)
    ensures tasks.Some? ==> c.completed == CompletedCount(tasks.value) && c.pending == PendingCount(tasks.value)
                            && c.recurring == RecurringCount(tasks.value)
    ensures tasks.Some? ==> c.completed + c.pending == |tasks.value| && c.recurring <= |tasks.value|
  {
    var ts := if tasks.Some? then tasks.value else [];
    CountsPartition(ts);
    Counts(CompletedCount(ts), PendingCount(ts), RecurringCount(ts))
  }

  /** The id names a stored task that is not yet completed. */
  predicate HasPendingTask(rows: seq<Task>, id: int)
  {
    exists i :: 0 <= i < |rows| && rows[i].id == id && !IsCompleted(rows[i])
  }

  lemma HasPendingTaskCons(rows: seq<Task>, id: int)
    requires rows != []
    ensures HasPendingTask(rows, id) <==>
              (rows[0].id == id && !IsCompleted(rows[0])) || HasPendingTask(rows[1..], id)
  {
    if HasPendingTask(rows, id) {
      var i :| 0 <= i < |rows| && rows[i].id == id && !IsCompleted(rows[i]);
      if i > 0 { assert rows[1..][i - 1] == rows[i]; }
    }
    if HasPendingTask(rows[1..], id) {
      var i :| 0 <= i < |rows[1..]| && rows[1..][i].id == id && !IsCompleted(rows[1..][i]);
      assert rows[i + 1] == rows[1..][i];
    }
  }

  lemma DistinctIdsTail(rows: seq<Task>)
    requires rows != [] && DistinctIds(rows)
    ensures DistinctIds(rows[1..])
    ensures forall i :: 0 <= i < |rows[1..]| ==> rows[1..][i].id != rows[0].id
  {
    var t := rows[1..];
    forall i, j | 0 <= i < |t| && 0 <= j < |t| && t[i].id == t[j].id ensures i == j {
      assert rows[i + 1].id == rows[j + 1].id;
    }
    forall i | 0 <= i < |t| ensures t[i].id != rows[0].id { assert rows[i + 1] == t[i]; }
  }

  /** PATCH /tasks/:id/complete raises the completed count by one exactly when the id
      names a stored task that was not yet completed, and lowers the pending count alike. */
  lemma {:induction false} CompleteMovesOneTask(rows: seq<Task>, id: int)
    requires DistinctIds(rows)
    ensures var after := CompleteRows(rows, id);
            var moved := if HasPendingTask(rows, id) then 1 else 0;
            CompletedCount(after) == CompletedCount(rows) + moved
            && PendingCount(after) + moved == PendingCount(rows)
  {
    if rows != [] {
      var after := CompleteRows(rows, id);
      var t := rows[1..];
      DistinctIdsTail(rows);
      CompleteMovesOneTask(t, id);
      HasPendingTaskCons(rows, id);
      assert after[1..] == CompleteRows(t, id);
      if rows[0].id == id {
        assert !HasPendingTask(t, id);
      }
    }
  }
}
