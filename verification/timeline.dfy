/** The day timeline (ToDoWithCal/client/src/components/TimelineView.js): the tasks
    of the selected day, sorted by start time, with a connector between neighbours. */
module Timeline {
  import opened Tasks
  import opened Sequences

  /** `getPriorityColor` */
  function PriorityColor(priority: Field): (c: string)
    ensures priority == Text(High) ==> c == "#FF3B30"
    ensures priority == Text(Medium) ==> c == "#FFCC00"
    ensures priority == Text(Low) ==> c == "#34C759"
    ensures c == "#BDBDBD" <==> priority != Text(High) && priority != Text(Medium) && priority != Text(Low)
  {
    if priority == Text(High) then "#FF3B30"
    else if priority == Text(Medium) then "#FFCC00"
    else if priority == Text(Low) then "#34C759"
    else "#BDBDBD"
  }

  /** `new Date(task.startTime).toDateString() === day` */
  predicate OnDay(t: Task, day: string, api: DateApi)
  {
    api.dateString(api.parse(t.startTime)) == day
  }

  /** `tasks.filter(...)` keeping the tasks that start on `day`. */
  function KeepDay(tasks: seq<Task>, day: string, api: DateApi): (r: seq<Task>)
    ensures forall t :: t in r <==> t in tasks && OnDay(t, day, api)
    ensures forall t :: multiset(r)[t] == if OnDay(t, day, api) then multiset(tasks)[t] else 0
    ensures IsSubsequence(r, tasks)
  {
    if tasks == [] then []
    else
      var rest := KeepDay(tasks[1..], day, api);
      assert tasks == [tasks[0]] + tasks[1..];
      assert multiset(tasks) == multiset{tasks[0]} + multiset(tasks[1..]);
      SubsequenceCons(rest, tasks[0], tasks[1..]);
      if OnDay(tasks[0], day, api) then
        assert multiset([tasks[0]] + rest) == multiset{tasks[0]} + multiset(rest);
        [tasks[0]] + rest
      else rest
  }

  /** `dayTasks`: every task when no date is selected, otherwise those whose start
      falls on the selected date's calendar day, in their original order. */
  function DayTasks(tasks: seq<Task>, selected: Option<Instant>, api: DateApi): (r: seq<Task>)
    ensures selected.None? ==> r == tasks
    ensures selected.Some? ==>
              forall t :: t in r <==> t in tasks && OnDay(t, api.dateString(selected.value), api)
    ensures selected.Some? ==>
              forall t :: multiset(r)[t] == if OnDay(t, api.dateString(selected.value), api)
                                            then multiset(tasks)[t] else 0
    ensures IsSubsequence(r, tasks)
  {
    match selected
    case None => SubsequenceReflexive(tasks); tasks
    case Some(d) => KeepDay(tasks, api.dateString(d), api)
  }

  /** The sort comparator `new Date(a.startTime) - new Date(b.startTime)`; a NaN
      result (an unparsable start) is read as 0, as `Array.prototype.sort` does. */
  function StartDifference(a: Instant, b: Instant): int
  {
    if a.At? && b.At? then a.ms - b.ms else 0
  }

  /** `a` may stay before `b`: the comparator does not ask to swap them. */
  function Precedes(api: DateApi): (Task, Task) -> bool
  {
    (a: Task, b: Task) => StartDifference(api.parse(a.startTime), api.parse(b.startTime)) <= 0
  }

  /** What the comparator decides: any two tasks are in order one way or the other; a task
      whose start does not parse is in order with every task; two parsed starts are in order
      exactly when the first is not later. */
  lemma PrecedesOrder(api: DateApi)
    ensures forall a: Task, b: Task :: Precedes(api)(a, b) || Precedes(api)(b, a)
    ensures forall a: Task, b: Task ::
              api.parse(a.startTime).Invalid? || api.parse(b.startTime).Invalid? ==> Precedes(api)(a, b)
    ensures forall a: Task, b: Task :: api.parse(a.startTime).At? && api.parse(b.startTime).At? ==>
              (Precedes(api)(a, b) <==> api.parse(a.startTime).ms <= api.parse(b.startTime).ms)
  {
    var le := Precedes(api);
    forall a: Task, b: Task ensures le(a, b) || le(b, a) {
      var x, y := api.parse(a.startTime), api.parse(b.startTime);
      assert StartDifference(x, y) == -StartDifference(y, x);
    }
  }

  /** `[...dayTasks].sort(...)`: a stable sort of a copy, so `dayTasks` itself keeps its order. */
  function SortedTasks(dayTasks: seq<Task>, api: DateApi): (r: seq<Task>)
    ensures multiset(r) == multiset(dayTasks)
  {
    SortBy(dayTasks, Precedes(api))
  }

  /** When every start time parses, the sorted tasks start in non-decreasing order. */
  lemma SortedByStartTime(dayTasks: seq<Task>, api: DateApi)
    requires forall t :: t in dayTasks ==> api.parse(t.startTime).At?
    ensures var r := SortedTasks(dayTasks, api);
            forall i, j :: 0 <= i < j < |r| ==>
              api.parse(r[i].startTime).At? && api.parse(r[j].startTime).At?
              && api.parse(r[i].startTime).ms <= api.parse(r[j].startTime).ms
  {
    var le := Precedes(api);
    assert TotalOn(dayTasks, le);
    assert TransitiveOn(dayTasks, le);
    SortBySorted(dayTasks, le);
    var r := SortedTasks(dayTasks, api);
    forall i, j | 0 <= i < j < |r|
      ensures api.parse(r[i].startTime).At? && api.parse(r[j].startTime).At?
              && api.parse(r[i].startTime).ms <= api.parse(r[j].startTime).ms
    {
      assert r[i] in multiset(dayTasks) && r[j] in multiset(dayTasks);
      assert le(r[i], r[j]);
    }
  }

  /** The tasks of `tasks` that start at the instant `ms`, in order. */
  function StartingAt(tasks: seq<Task>, api: DateApi, ms: int): seq<Task>
  {
    if tasks == [] then []
    else (if api.parse(tasks[0].startTime) == At(ms) then [tasks[0]] else []) + StartingAt(tasks[1..], api, ms)
  }

  lemma {:induction false} StartingAtInsert(x: Task, s: seq<Task>, api: DateApi, ms: int)
    ensures StartingAt(Insert(x, s, Precedes(api)), api, ms)
            == (if api.parse(x.startTime) == At(ms) then [x] else []) + StartingAt(s, api, ms)
  {
    var le := Precedes(api);
    if s == [] {
      assert Insert(x, s, le) == [x];
      assert [x][1..] == [];
    } else if le(x, s[0]) {
      assert Insert(x, s, le) == [x] + s;
      assert ([x] + s)[1..] == s;
    } else {
      var rest := Insert(x, s[1..], le);
      StartingAtInsert(x, s[1..], api, ms);
      var r := [s[0]] + rest;
      assert Insert(x, s, le) == r;
      assert r[1..] == rest;
      var xs := if api.parse(x.startTime) == At(ms) then [x] else [];
      var ys := if api.parse(s[0].startTime) == At(ms) then [s[0]] else [];
      // both starting at ms would make the comparator 0, and x would precede s[0]
      assert xs == [] || ys == [];
      calc {
        StartingAt(r, api, ms);
        ys + StartingAt(rest, api, ms);
        ys + (xs + StartingAt(s[1..], api, ms));
        xs + (ys + StartingAt(s[1..], api, ms));
        xs + StartingAt(s, api, ms);
      }
    }
  }

  /** The sort is stable: tasks with the same start time keep their relative order,
      whatever the other tasks are. */
  lemma {:induction false} SortIsStable(dayTasks: seq<Task>, api: DateApi, ms: int)
    ensures StartingAt(SortedTasks(dayTasks, api), api, ms) == StartingAt(dayTasks, api, ms)
  {
    if dayTasks != [] {
      SortIsStable(dayTasks[1..], api, ms);
      StartingAtInsert(dayTasks[0], SortedTasks(dayTasks[1..], api), api, ms);
    }
  }

  /** What the component renders. */
  datatype View =
    | NoTasks                                          // "No tasks for this day"
    | Items(tasks: seq<Task>, connectors: seq<bool>)   // a connector after item i or not

  function CountTrue(bs: seq<bool>): nat
  {
    if bs == [] then 0 else (if bs[|bs| - 1] then 1 else 0) + CountTrue(bs[..|bs| - 1])
  }

  lemma {:induction false} CountAllTrue(bs: seq<bool>)
    requires forall i :: 0 <= i < |bs| ==> bs[i]
    ensures CountTrue(bs) == |bs|
  {
    if bs != [] {
      CountAllTrue(bs[..|bs| - 1]);
    }
  }

  /** `idx < sortedTasks.length - 1 && <TimelineConnector />` for each item. */
  function Render(sorted: seq<Task>): (v: View)
    ensures v.NoTasks? <==> sorted == []
    ensures v.Items? ==> v.tasks == sorted && |v.connectors| == |sorted|
    ensures v.Items? ==> forall i :: 0 <= i < |sorted| ==> (v.connectors[i] <==> i < |sorted| - 1)
    ensures v.Items? ==> CountTrue(v.connectors) == |sorted| - 1
  {
    if sorted == [] then NoTasks
    else
      var connectors := seq(|sorted|, i => i < |sorted| - 1);
      CountAllTrue(connectors[..|sorted| - 1]);
      Items(sorted, connectors)
  }

  /** The whole component: only tasks of the selected day appear, each exactly as often
      as in `tasks`, and nothing is shown exactly when none qualifies. */
  function TimelineOf(tasks: seq<Task>, selected: Option<Instant>, api: DateApi): (v: View)
    ensures v.NoTasks? <==> DayTasks(tasks, selected, api) == []
    ensures v.Items? ==> v.tasks == SortedTasks(DayTasks(tasks, selected, api), api)
    ensures v.Items? ==> multiset(v.tasks) == multiset(DayTasks(tasks, selected, api))
    ensures v.Items? && selected.Some? ==>
              forall t :: t in v.tasks ==> t in tasks && OnDay(t, api.dateString(selected.value), api)
  {
    var day := DayTasks(tasks, selected, api);
    var sorted := SortedTasks(day, api);
    assert forall t :: t in sorted ==> t in day by {
      forall t | t in sorted ensures t in day { assert t in multiset(sorted); }
    }
    Render(sorted)
  }
}
