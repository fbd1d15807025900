/** The `tasks` table and the five `/tasks` handlers of the server
    (ToDoWithCal/server/index.js), as operations on an in-memory table. */
module TaskStore {
  import opened Tasks
  import opened Sequences

  /** An error response: its HTTP status and the `error` text of its JSON body. */
  datatype ApiError = ApiError(status: int, message: string)

  datatype Result<T> = Ok(value: T) | Err(error: ApiError)

  const MissingFields := "Missing required fields: title, startTime, or endTime"
  /** SQLite's message when an UPDATE writes NULL into the NOT NULL `title` column. */
  const TitleNotNull := "SQLITE_CONSTRAINT: NOT NULL constraint failed: tasks.title"

  // ---------------------------------------------------------------------------
  // ORDER BY startTime ASC

  /** SQLite's BINARY collation on text: code point by code point, a proper prefix first. */
  predicate TextLe(a: string, b: string)
  {
    a == [] || (b != [] && (a[0] < b[0] || (a[0] == b[0] && TextLe(a[1..], b[1..]))))
  }

  lemma {:induction false} TextLeTotal(a: string, b: string)
    ensures TextLe(a, b) || TextLe(b, a)
  {
    if a != [] && b != [] && a[0] == b[0] {
      TextLeTotal(a[1..], b[1..]);
    }
  }

  lemma {:induction false} TextLeTransitive(a: string, b: string, c: string)
    requires TextLe(a, b) && TextLe(b, c)
    ensures TextLe(a, c)
  {
    if a != [] && a[0] == b[0] && b[0] == c[0] {
      TextLeTransitive(a[1..], b[1..], c[1..]);
    }
  }

  lemma {:induction false} TextLeAntisymmetric(a: string, b: string)
    requires TextLe(a, b) && TextLe(b, a)
    ensures a == b
  {
    if a != [] {
      TextLeAntisymmetric(a[1..], b[1..]);
      assert a == [a[0]] + a[1..] && b == [b[0]] + b[1..];
    }
  }

  /** Ascending order of a nullable text column: NULL before every string. */
  predicate FieldLe(a: Field, b: Field)
  {
    a.Null? || (b.Text? && TextLe(a.s, b.s))
  }

  predicate StartNoLater(a: Task, b: Task)
  {
    FieldLe(a.startTime, b.startTime)
  }

  /** `SELECT * FROM tasks ORDER BY startTime ASC`. SQLite does not fix the
      order of rows with equal start times; this model keeps their table order. */
  function OrderByStart(rows: seq<Task>): (r: seq<Task>)
    ensures multiset(r) == multiset(rows)
    ensures forall i, j :: 0 <= i < j < |r| ==> FieldLe(r[i].startTime, r[j].startTime)
  {
    assert TotalOn(rows, StartNoLater) by {
      forall a, b | a in rows && b in rows ensures StartNoLater(a, b) || StartNoLater(b, a) {
        if a.startTime.Text? && b.startTime.Text? { TextLeTotal(a.startTime.s, b.startTime.s); }
      }
    }
    assert TransitiveOn(rows, StartNoLater) by {
      forall a, b, c | a in rows && b in rows && c in rows && StartNoLater(a, b) && StartNoLater(b, c)
        ensures StartNoLater(a, c)
      {
        if a.startTime.Text? { TextLeTransitive(a.startTime.s, b.startTime.s, c.startTime.s); }
      }
    }
    SortBySorted(rows, StartNoLater);
    SortBy(rows, StartNoLater)
  }

  // ---------------------------------------------------------------------------
  // The table and the effect of each statement on it

  predicate HasId(rows: seq<Task>, id: int)
  {
    exists i :: 0 <= i < |rows| && rows[i].id == id
  }

  /** The id column is a primary key. */
  ghost predicate DistinctIds(rows: seq<Task>)
  {
    forall i, j :: 0 <= i < |rows| && 0 <= j < |rows| && rows[i].id == rows[j].id ==> i == j
  }

  /** What every stored row satisfies: an id below the AUTOINCREMENT counter,
      a non-NULL title, an insertion time, and no priority (there is no such column). */
  ghost predicate WellFormedRow(t: Task, nextId: int)
  {
    1 <= t.id < nextId && t.title.Text? && t.createdAt.Text? && t.priority.Null?
  }

  ghost predicate TableInvariant(rows: seq<Task>, nextId: int)
  {
    nextId >= 1 && DistinctIds(rows) && forall t :: t in rows ==> WellFormedRow(t, nextId)
  }

  /** `this.changes` after a statement with `WHERE id = ?`: the number of matched rows. */
  function Changes(rows: seq<Task>, id: int): (n: nat)
    ensures n <= |rows|
    ensures n == 0 <==> !HasId(rows, id)
  {
    if rows == [] then 0
    else (if rows[0].id == id then 1 else 0) + Changes(rows[1..], id)
  }

  /** Because ids are a key, an UPDATE or DELETE by id reports 1 change or 0. */
  lemma {:induction false} ChangesZeroOrOne(rows: seq<Task>, id: int)
    requires DistinctIds(rows)
    ensures Changes(rows, id) == if HasId(rows, id) then 1 else 0
  {
    if rows != [] {
      var t := rows[1..];
      assert DistinctIds(t) by {
        forall i, j | 0 <= i < |t| && 0 <= j < |t| && t[i].id == t[j].id ensures i == j {
          assert rows[i + 1].id == rows[j + 1].id;
        }
      }
      ChangesZeroOrOne(t, id);
      if rows[0].id == id {
        assert !HasId(t, id) by {
          forall i | 0 <= i < |t| ensures t[i].id != id { assert rows[i + 1].id != rows[0].id; }
        }
      } else {
        assert HasId(rows, id) <==> HasId(t, id) by {
          if HasId(rows, id) { var i :| 0 <= i < |rows| && rows[i].id == id; assert t[i - 1].id == id; }
          if HasId(t, id) { var i :| 0 <= i < |t| && t[i].id == id; assert rows[i + 1].id == id; }
        }
      }
    }
  }

  /** The row INSERT creates: only title, reason, startTime, endTime and recurrence
      are bound; status and createdAt take their column defaults. */
  function NewRow(id: int, body: Body, now: string): (t: Task)
    ensures t.id == id && t.createdAt == Text(now)
    ensures BodyOf(t) == body.(status := Text(PendingStatus), priority := Null)
  {
    Task(id, body.title, body.reason, body.startTime, body.endTime, body.recurrence,
         Text(PendingStatus), Null, Text(now))
  }

  /** `!title || !startTime || !endTime` sends 400 before anything is inserted. */
  predicate CreateAccepts(body: Body): (ok: bool)
    ensures ok ==> forall id, now :: 1 <= id ==> WellFormedRow(NewRow(id, body, now), id + 1)
    ensures body.title.Null? || body.startTime.Null? || body.endTime.Null? ==> !ok
  {
    Truthy(body.title) && Truthy(body.startTime) && Truthy(body.endTime)
  }

  /** The six columns PUT writes, each taken from the body (an absent property binds NULL). */
  function Overwrite(t: Task, body: Body): Task
  {
    t.(title := body.title, reason := body.reason, startTime := body.startTime,
       endTime := body.endTime, recurrence := body.recurrence, status := body.status)
  }

  /** `UPDATE tasks SET title = ?, ..., status = ? WHERE id = ?` when it succeeds. */
  function OverwriteRows(rows: seq<Task>, id: int, body: Body): (r: seq<Task>)
    ensures |r| == |rows|
    ensures forall i :: 0 <= i < |r| ==>
              r[i].id == rows[i].id && r[i].createdAt == rows[i].createdAt && r[i].priority == rows[i].priority
    ensures forall i :: 0 <= i < |r| && rows[i].id != id ==> r[i] == rows[i]
    ensures forall i :: 0 <= i < |r| && rows[i].id == id ==> BodyOf(r[i]) == body.(priority := rows[i].priority)
  {
    seq(|rows|, i requires 0 <= i < |rows| => if rows[i].id == id then Overwrite(rows[i], body) else rows[i])
  }

  /** The UPDATE writes NULL into `title` of a matched row, which the NOT NULL constraint refuses. */
  predicate UpdateViolatesTitle(rows: seq<Task>, id: int, body: Body): (v: bool)
    ensures v <==> exists i :: 0 <= i < |rows| && rows[i].id == id && Overwrite(rows[i], body).title.Null?
  {
    HasId(rows, id) && body.title.Null?
  }

  /** `UPDATE tasks SET status = 'completed' WHERE id = ?` */
  function CompleteRows(rows: seq<Task>, id: int): (r: seq<Task>)
    ensures |r| == |rows|
    ensures forall i :: 0 <= i < |r| ==> r[i].(status := rows[i].status) == rows[i]
    ensures forall i :: 0 <= i < |r| ==>
              r[i].status == if rows[i].id == id then Text(CompletedStatus) else rows[i].status
  {
    seq(|rows|, i requires 0 <= i < |rows| =>
      if rows[i].id == id then rows[i].(status := Text(CompletedStatus)) else rows[i])
  }

  /** `DELETE FROM tasks WHERE id = ?` */
  function RemoveRows(rows: seq<Task>, id: int): (r: seq<Task>)
    ensures forall t :: t in r <==> t in rows && t.id != id
    ensures |r| == |rows| - Changes(rows, id)
    ensures IsSubsequence(r, rows)
  {
    if rows == [] then []
    else
      var rest := RemoveRows(rows[1..], id);
      assert rows == [rows[0]] + rows[1..];
      if rows[0].id == id then
        SubsequenceCons(rest, rows[0], rows[1..]);
        rest
      else
        SubsequenceCons(rest, rows[0], rows[1..]);
        [rows[0]] + rest
  }

  // ---------------------------------------------------------------------------
  // The four requests that change the table

  /** A request to one of the handlers that write. */
  datatype Request =
    | Post(body: Body)               // POST /tasks
    | Put(id: int, body: Body)       // PUT /tasks/:id
    | Remove(id: int)                // DELETE /tasks/:id
    | PatchComplete(id: int)         // PATCH /tasks/:id/complete

  /** The server's answer: the created row, a change count, or an error response. */
  datatype Answer = Created(row: Task) | Changed(changes: nat) | Failed(error: ApiError)

  /** The rows after the server has handled `req`: the answer tells the client what
      happened, since an error or a zero count leaves the table as it was, and a created row
      is appended exactly as the answer returns it. */
  function RowsAfter(rows: seq<Task>, nextId: int, req: Request, now: string): (r: seq<Task>)
    ensures AnswerTo(rows, nextId, req, now).Failed? ==> r == rows
    ensures AnswerTo(rows, nextId, req, now).Created? ==> r == rows + [AnswerTo(rows, nextId, req, now).row]
    ensures AnswerTo(rows, nextId, req, now) == Changed(0) ==> r == rows
    ensures !req.Post? ==> |r| == |rows| - (if req.Remove? then Changes(rows, req.id) else 0)
  {
    match req
    case Post(body) => if CreateAccepts(body) then rows + [NewRow(nextId, body, now)] else rows
    case Put(id, body) =>
      if UpdateViolatesTitle(rows, id, body) then rows
      else if HasId(rows, id) then OverwriteRows(rows, id, body)
      else NoMatchNoChange(rows, id, body); OverwriteRows(rows, id, body)
    case Remove(id) =>
      if HasId(rows, id) then RemoveRows(rows, id)
      else RemoveAbsent(rows, id); RemoveRows(rows, id)
    case PatchComplete(id) =>
      if HasId(rows, id) then CompleteRows(rows, id)
      else NoMatchNoChange(rows, id, Body(Null, Null, Null, Null, Null, Null, Null)); CompleteRows(rows, id)
  }

  /** The AUTOINCREMENT counter after the server has handled `req`: it advances by one
      exactly when the server answers with a created row. */
  function NextIdAfter(rows: seq<Task>, nextId: int, req: Request): (n: int)
    ensures n == nextId || n == nextId + 1
    ensures forall now :: n == nextId + 1 <==> AnswerTo(rows, nextId, req, now).Created?
  {
    if req.Post? && CreateAccepts(req.body) then nextId + 1 else nextId
  }

  /** The server's answer to `req`: a created row only for an accepted POST, a 400 for a
      refused POST, a 500 only for a PUT that breaks NOT NULL, otherwise a count of 1 or 0
      telling whether the id names a row. */
  function AnswerTo(rows: seq<Task>, nextId: int, req: Request, now: string): (a: Answer)
    ensures a.Created? <==> req.Post? && CreateAccepts(req.body)
    ensures a.Created? ==> a.row.id == nextId && a.row.status == Text(PendingStatus) && a.row.priority.Null?
    ensures a.Failed? ==> a.error == if req.Post? then ApiError(400, MissingFields) else ApiError(500, TitleNotNull)
    ensures a.Failed? ==> req.Post? || req.Put?
    ensures a.Changed? ==> !req.Post? && a.changes <= 1 && (a.changes == 1 <==> HasId(rows, req.id))
  {
    match req
    case Post(body) =>
      if CreateAccepts(body) then Created(NewRow(nextId, body, now)) else Failed(ApiError(400, MissingFields))
    case Put(id, body) =>
      if UpdateViolatesTitle(rows, id, body) then Failed(ApiError(500, TitleNotNull))
      else Changed(if HasId(rows, id) then 1 else 0)
    case Remove(id) => Changed(if HasId(rows, id) then 1 else 0)
    case PatchComplete(id) => Changed(if HasId(rows, id) then 1 else 0)
  }

  // ---------------------------------------------------------------------------
  // Properties of the statements

  /** Completing a task twice leaves the table as completing it once. */
  lemma CompleteIdempotent(rows: seq<Task>, id: int)
    ensures CompleteRows(CompleteRows(rows, id), id) == CompleteRows(rows, id)
  {
    var once := CompleteRows(rows, id);
    var twice := CompleteRows(once, id);
    forall i | 0 <= i < |rows| ensures twice[i] == once[i] {
      assert once[i].id == rows[i].id;
    }
  }

  /** An update or completion of an id no row has changes nothing. */
  lemma NoMatchNoChange(rows: seq<Task>, id: int, body: Body)
    requires !HasId(rows, id)
    ensures OverwriteRows(rows, id, body) == rows && CompleteRows(rows, id) == rows
  {
    var o := OverwriteRows(rows, id, body);
    var c := CompleteRows(rows, id);
    forall i | 0 <= i < |rows| ensures o[i] == rows[i] && c[i] == rows[i] {
      assert rows[i].id != id;
    }
  }

  /** Marking a pending task completed and then sending `{ ...task, status: 'pending' }`
      for the completed task restores the table exactly: the toggle round trip. */
  lemma ToggleRoundTrip(rows: seq<Task>, k: nat)
    requires DistinctIds(rows) && k < |rows| && rows[k].status == Text(PendingStatus)
    ensures var id := rows[k].id;
            var done := CompleteRows(rows, id);
            OverwriteRows(done, id, BodyOf(done[k].(status := Text(PendingStatus)))) == rows
  {
    var id := rows[k].id;
    var done := CompleteRows(rows, id);
    var body := BodyOf(done[k].(status := Text(PendingStatus)));
    var back := OverwriteRows(done, id, body);
    forall i | 0 <= i < |rows| ensures back[i] == rows[i] {
      if rows[i].id == id {
        assert i == k;
      }
    }
  }

  lemma InsertKeepsInvariant(rows: seq<Task>, nextId: int, body: Body, now: string)
    requires TableInvariant(rows, nextId) && CreateAccepts(body)
    ensures !HasId(rows, nextId)
    ensures TableInvariant(rows + [NewRow(nextId, body, now)], nextId + 1)
  {
    var r := rows + [NewRow(nextId, body, now)];
    forall t | t in r ensures WellFormedRow(t, nextId + 1) {
      if t in rows { assert WellFormedRow(t, nextId); }
    }
    forall i | 0 <= i < |rows| ensures rows[i].id != nextId { assert rows[i] in rows; }
  }

  lemma OverwriteKeepsInvariant(rows: seq<Task>, nextId: int, id: int, body: Body)
    requires TableInvariant(rows, nextId) && !UpdateViolatesTitle(rows, id, body)
    ensures TableInvariant(OverwriteRows(rows, id, body), nextId)
  {
    var r := OverwriteRows(rows, id, body);
    forall t | t in r ensures WellFormedRow(t, nextId) {
      var i :| 0 <= i < |r| && r[i] == t;
      assert rows[i] in rows;
    }
  }

  lemma CompleteKeepsInvariant(rows: seq<Task>, nextId: int, id: int)
    requires TableInvariant(rows, nextId)
    ensures TableInvariant(CompleteRows(rows, id), nextId)
  {
    var r := CompleteRows(rows, id);
    forall t | t in r ensures WellFormedRow(t, nextId) {
      var i :| 0 <= i < |r| && r[i] == t;
      assert rows[i] in rows;
    }
  }

  lemma {:induction false} RemoveKeepsInvariant(rows: seq<Task>, nextId: int, id: int)
    requires TableInvariant(rows, nextId)
    ensures TableInvariant(RemoveRows(rows, id), nextId)
  {
    if rows != [] {
      var t := rows[1..];
      assert TableInvariant(t, nextId) by {
        forall i, j | 0 <= i < |t| && 0 <= j < |t| && t[i].id == t[j].id ensures i == j {
          assert rows[i + 1].id == rows[j + 1].id;
        }
        forall x | x in t ensures WellFormedRow(x, nextId) { assert x in rows; }
      }
      RemoveKeepsInvariant(t, nextId, id);
      var rest := RemoveRows(t, id);
      if rows[0].id != id {
        var r := [rows[0]] + rest;
        assert RemoveRows(rows, id) == r;
        forall i, j | 0 <= i < |r| && 0 <= j < |r| && r[i].id == r[j].id ensures i == j {
          if i > 0 && j > 0 {
            assert rest[i - 1].id == rest[j - 1].id;
          }
        }
      }
    }
  }

  // ---------------------------------------------------------------------------
  // The table

  /** The SQLite `tasks` table: its rows in rowid order and the AUTOINCREMENT counter. */
  class TaskTable {
    var rows: seq<Task>
    /** One more than the largest id ever handed out; ids are never reused. */
    var nextId: int

    ghost predicate Valid()
      reads this
    {
      TableInvariant(rows, nextId)
    }

    /** `CREATE TABLE IF NOT EXISTS tasks (...)` on a fresh database. */
    constructor ()
      ensures Valid() && rows == [] && nextId == 1
    {
      rows := [];
      nextId := 1;
    }

    /** GET /tasks: every row once, in ascending `startTime` text order. */
    method List() returns (r: seq<Task>)
      requires Valid()
      ensures multiset(r) == multiset(rows)
      ensures forall i, j :: 0 <= i < j < |r| ==> FieldLe(r[i].startTime, r[j].startTime)
      ensures r == OrderByStart(rows)
    {
      r := OrderByStart(rows);
    }

    /** POST /tasks: reject a request lacking title, startTime or endTime, otherwise
        insert one row with a fresh id and answer with that row. */
    method Create(body: Body, now: string) returns (r: Result<Task>)
      requires Valid()
      modifies this
      ensures Valid()
      ensures !CreateAccepts(body) ==>
                r == Err(ApiError(400, MissingFields)) && rows == old(rows) && nextId == old(nextId)
      ensures CreateAccepts(body) ==>
                && r == Ok(NewRow(old(nextId), body, now))
                && rows == old(rows) + [r.value]
                && nextId == old(nextId) + 1
                && !HasId(old(rows), r.value.id)
                && r.value.status == Text(PendingStatus)
                && r.value.priority == Null
    {
      if !CreateAccepts(body) {
        return Err(ApiError(400, MissingFields));
      }
      var row := NewRow(nextId, body, now);
      InsertKeepsInvariant(rows, nextId, body, now);
      rows := rows + [row];
      nextId := nextId + 1;
      r := Ok(row);
    }

    /** PUT /tasks/:id: overwrite the six mutable columns of the matched row. */
    method Update(id: int, body: Body) returns (r: Result<nat>)
      requires Valid()
      modifies this
      ensures Valid() && nextId == old(nextId)
      ensures UpdateViolatesTitle(old(rows), id, body) ==>
                r == Err(ApiError(500, TitleNotNull)) && rows == old(rows)
      ensures !UpdateViolatesTitle(old(rows), id, body) ==>
                && r == Ok(if HasId(old(rows), id) then 1 else 0)
                && rows == OverwriteRows(old(rows), id, body)
      ensures r == Ok(0) ==> rows == old(rows)
    {
      if UpdateViolatesTitle(rows, id, body) {
        return Err(ApiError(500, TitleNotNull));
      }
      ChangesZeroOrOne(rows, id);
      if !HasId(rows, id) { NoMatchNoChange(rows, id, body); }
      var n := Changes(rows, id);
      OverwriteKeepsInvariant(rows, nextId, id, body);
      rows := OverwriteRows(rows, id, body);
      r := Ok(n);
    }

    /** DELETE /tasks/:id */
    method Delete(id: int) returns (changes: nat)
      requires Valid()
      modifies this
      ensures Valid() && nextId == old(nextId)
      ensures changes == if HasId(old(rows), id) then 1 else 0
      ensures rows == RemoveRows(old(rows), id)
      ensures changes == 0 ==> rows == old(rows)
    {
      ChangesZeroOrOne(rows, id);
      changes := Changes(rows, id);
      RemoveKeepsInvariant(rows, nextId, id);
      if changes == 0 { RemoveAbsent(rows, id); }
      rows := RemoveRows(rows, id);
    }

    /** Route a request to its handler. */
    method Handle(req: Request, now: string) returns (answer: Answer)
      requires Valid()
      modifies this
      ensures Valid()
      ensures rows == RowsAfter(old(rows), old(nextId), req, now)
      ensures nextId == NextIdAfter(old(rows), old(nextId), req)
      ensures answer == AnswerTo(old(rows), old(nextId), req, now)
    {
      match req {
        case Post(body) =>
          var r := Create(body, now);
          answer := if r.Ok? then Created(r.value) else Failed(r.error);
        case Put(id, body) =>
          var r := Update(id, body);
          answer := if r.Ok? then Changed(r.value) else Failed(r.error);
        case Remove(id) =>
          var n := Delete(id);
          answer := Changed(n);
        case PatchComplete(id) =>
          var n := Complete(id);
          answer := Changed(n);
      }
    }

    /** PATCH /tasks/:id/complete */
    method Complete(id: int) returns (changes: nat)
      requires Valid()
      modifies this
      ensures Valid() && nextId == old(nextId)
      ensures changes == if HasId(old(rows), id) then 1 else 0
      ensures rows == CompleteRows(old(rows), id)
      ensures changes == 0 ==> rows == old(rows)
    {
      ChangesZeroOrOne(rows, id);
      changes := Changes(rows, id);
      CompleteKeepsInvariant(rows, nextId, id);
      if changes == 0 { NoMatchNoChange(rows, id, Body(Null, Null, Null, Null, Null, Null, Null)); }
      rows := CompleteRows(rows, id);
    }
  }

  /** A DELETE that matches no row leaves the table as it was. */
  lemma {:induction false} RemoveAbsent(rows: seq<Task>, id: int)
    requires !HasId(rows, id)
    ensures RemoveRows(rows, id) == rows
  {
    if rows != [] {
      RemoveAbsent(rows[1..], id);
      assert rows == [rows[0]] + rows[1..];
    }
  }
}
