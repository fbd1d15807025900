/** The week calendar (ToDoWithCal/client/src/components/CalendarView.js): tasks
    projected to calendar events with priority colours, and the event popover,
    whose edit form and buttons send `fetch` requests to the server. */
module Calendar {
  import opened Tasks
  import opened TaskStore
  import opened Service
  import Timeline

  // ---------------------------------------------------------------------------
  // Events

  /** One react-big-calendar event; `resource` is the task it was made from. */
  datatype Event = Event(id: int, title: Field, start: Instant, end: Instant, allDay: bool,
                         resource: Task, priority: Field, status: Field, recurrence: Field)

  /** `(tasks || []).map(task => ({ ... }))`: one event per task, in order, timed by
      the task's parsed start and end and never all-day. */
  function Events(tasks: Option<seq<Task>>, api: DateApi): (r: seq<Event>)
    ensures tasks.None? ==> r == []
    ensures tasks.Some? ==> |r| == |tasks.value|
    ensures tasks.Some? ==> forall i :: 0 <= i < |r| ==>
              var t := tasks.value[i];
              && r[i].resource == t && r[i].id == t.id && r[i].title == t.title
              && r[i].start == api.parse(t.startTime) && r[i].end == api.parse(t.endTime)
              && !r[i].allDay
              && r[i].priority == t.priority && r[i].status == t.status && r[i].recurrence == t.recurrence
  {
    match tasks
    case None => []
    case Some(ts) =>
      seq(|ts|, i requires 0 <= i < |ts| =>
        var t := ts[i];
        Event(t.id, t.title, api.parse(t.startTime), api.parse(t.endTime), false,
              t, t.priority, t.status, t.recurrence))
  }

  function Resources(events: seq<Event>): seq<Task>
  {
    seq(|events|, i requires 0 <= i < |events| => events[i].resource)
  }

  /** The popover shows `event.resource`: from the events the task list comes back unchanged. */
  lemma EventsRoundTrip(tasks: seq<Task>, api: DateApi)
    ensures Resources(Events(Some(tasks), api)) == tasks
  {
    var events := Events(Some(tasks), api);
    assert forall i :: 0 <= i < |tasks| ==> Resources(events)[i] == events[i].resource;
  }

  // ---------------------------------------------------------------------------
  // Colours

  datatype Style = Style(background: string, color: string)

  /** The translucent background behind an event of a known priority. */
  function Tint(priority: Field): string
  {
    if priority == Text(High) then "rgba(255,59,48,0.15)"
    else if priority == Text(Medium) then "rgba(255,204,0,0.15)"
    else "rgba(52,199,89,0.15)"
  }

  predicate KnownPriority(priority: Field)
  {
    priority == Text(High) || priority == Text(Medium) || priority == Text(Low)
  }

  /** `eventPropGetter`: completed events are greyed out whatever their priority; otherwise
      a known priority gives the timeline's colour on its tint, anything else black on white. */
  function EventStyle(e: Event): (s: Style)
    ensures e.status == Text(CompletedStatus) ==> s == Style("#F3F3F3", "#B0B0B0")
    ensures e.status != Text(CompletedStatus) && KnownPriority(e.priority) ==>
              s == Style(Tint(e.priority), Timeline.PriorityColor(e.priority))
    ensures e.status != Text(CompletedStatus) && !KnownPriority(e.priority) ==> s == Style("#fff", "#222")
  {
    if e.status == Text(CompletedStatus) then Style("#F3F3F3", "#B0B0B0")
    else if e.priority == Text(High) then Style("rgba(255,59,48,0.15)", "#FF3B30")
    else if e.priority == Text(Medium) then Style("rgba(255,204,0,0.15)", "#FFCC00")
    else if e.priority == Text(Low) then Style("rgba(52,199,89,0.15)", "#34C759")
    else Style("#fff", "#222")
  }

  /** The priority dot in an event's title: red for High, yellow for Medium, and green for
      everything else, so an unknown priority looks like Low. */
  function DotColor(priority: Field): (c: string)
    ensures KnownPriority(priority) ==> c == Timeline.PriorityColor(priority)
    ensures !KnownPriority(priority) ==> c == "#34C759" && c == Timeline.PriorityColor(Text(Low))
  {
    if priority == Text(High) then "#FF3B30"
    else if priority == Text(Medium) then "#FFCC00"
    else "#34C759"
  }

  /** A task as the server stores it has no priority: the calendar dot shows it as Low,
      the event falls back to black on white, and the timeline draws it grey. */
  lemma StoredTaskColours(rows: seq<Task>, nextId: int, api: DateApi, i: nat)
    requires TableInvariant(rows, nextId) && i < |rows| && !IsCompleted(rows[i])
    ensures var e := Events(Some(rows), api)[i];
            && DotColor(e.priority) == "#34C759"
            && EventStyle(e) == Style("#fff", "#222")
            && Timeline.PriorityColor(rows[i].priority) == "#BDBDBD"
  {
    assert WellFormedRow(rows[i], nextId);
  }

  // ---------------------------------------------------------------------------
  // The edit form

  /** The properties of `editFields`. */
  datatype DraftKey = TitleKey | ReasonKey | StartKey | EndKey | RecurrenceKey | PriorityKey

  /** `editFields[key]`, `undefined` when the key is missing. */
  function DraftValue(draft: map<DraftKey, Field>, key: DraftKey): Field
  {
    if key in draft then draft[key] else Null
  }

  /** A property of `{ ...selectedEvent, ...editFields }`: the draft's value when the draft
      has the key, otherwise the selected task's. */
  function DraftValueOr(draft: map<DraftKey, Field>, key: DraftKey, fallback: Field): Field
  {
    if key in draft then draft[key] else fallback
  }

  /** `task.startTime ? task.startTime.slice(0, 16) : ''` */
  function DraftTime(f: Field): (r: Field)
    ensures r.Text? && |r.s| <= 16
    ensures Truthy(f) ==> r == Text(Prefix16(f.s))
    ensures Truthy(f) ==> r.s <= f.s && (|f.s| <= 16 ==> r == f)
    ensures !Truthy(f) ==> r == Text("")
  {
    if Truthy(f) then Text(Prefix16(f.s)) else Text("")
  }

  /** The draft `handleEdit` fills in: title and reason as they are, times cut to the
      minute, and a default Medium priority. */
  function DraftOf(t: Task): (d: map<DraftKey, Field>)
    ensures d.Keys == {TitleKey, ReasonKey, StartKey, EndKey, RecurrenceKey, PriorityKey}
    ensures d[TitleKey] == t.title && d[ReasonKey] == t.reason
    ensures d[StartKey] == DraftTime(t.startTime) && d[EndKey] == DraftTime(t.endTime)
    ensures d[RecurrenceKey].Text? && (Truthy(t.recurrence) ==> d[RecurrenceKey] == t.recurrence)
    ensures !Truthy(t.recurrence) ==> d[RecurrenceKey] == Text("")
    ensures Truthy(d[PriorityKey]) && (Truthy(t.priority) ==> d[PriorityKey] == t.priority)
    ensures !Truthy(t.priority) ==> d[PriorityKey] == Text(Medium)
  {
    map[TitleKey := t.title, ReasonKey := t.reason,
        StartKey := DraftTime(t.startTime), EndKey := DraftTime(t.endTime),
        RecurrenceKey := OrElse(t.recurrence, ""), PriorityKey := OrElse(t.priority, Medium)]
  }

  /** `new Date(end) < new Date(start)`: false as soon as either is invalid. */
  predicate EndsBefore(end: Instant, start: Instant)
  {
    end.At? && start.At? && end.ms < start.ms
  }

  /** The outcome of the checks at the top of `handleEditSave`. */
  datatype Check = BlankTitle | EndBeforeStart | Passed

  function CheckDraft(draft: map<DraftKey, Field>, api: DateApi): (c: Check)
    ensures c == BlankTitle <==> DraftValue(draft, TitleKey).Null? || IsBlank(DraftValue(draft, TitleKey).s)
    ensures c == Passed ==> Truthy(DraftValue(draft, TitleKey))
    ensures c == EndBeforeStart ==>
              Truthy(DraftValue(draft, StartKey)) && Truthy(DraftValue(draft, EndKey))
              && EndsBefore(api.parse(DraftValue(draft, EndKey)), api.parse(DraftValue(draft, StartKey)))
    ensures c == Passed && Truthy(DraftValue(draft, StartKey)) && Truthy(DraftValue(draft, EndKey))
            && api.parse(DraftValue(draft, StartKey)).At? && api.parse(DraftValue(draft, EndKey)).At? ==>
              api.parse(DraftValue(draft, StartKey)).ms <= api.parse(DraftValue(draft, EndKey)).ms
  {
    var title := DraftValue(draft, TitleKey);
    var start := DraftValue(draft, StartKey);
    var end := DraftValue(draft, EndKey);
    if title.Null? || IsBlank(title.s) then BlankTitle
    else if Truthy(start) && Truthy(end) && EndsBefore(api.parse(end), api.parse(start)) then EndBeforeStart
    else Passed
  }

  /** The body `{ ...selectedEvent, ...editFields, startTime, endTime }`, restricted to the
      properties the server reads; the status is the selected task's own. */
  function SaveBody(selected: Task, draft: map<DraftKey, Field>, startIso: string, endIso: string): (b: Body)
    ensures b.status == selected.status
    ensures b.startTime == Text(startIso) && b.endTime == Text(endIso)
    ensures TitleKey in draft ==> b.title == draft[TitleKey]
    ensures TitleKey !in draft ==> b.title == selected.title
    ensures b.reason == DraftValueOr(draft, ReasonKey, selected.reason)
    ensures b.recurrence == DraftValueOr(draft, RecurrenceKey, selected.recurrence)
    ensures b.priority == DraftValueOr(draft, PriorityKey, selected.priority)
  {
    Body(if TitleKey in draft then draft[TitleKey] else selected.title,
         if ReasonKey in draft then draft[ReasonKey] else selected.reason,
         Text(startIso), Text(endIso),
         if RecurrenceKey in draft then draft[RecurrenceKey] else selected.recurrence,
         selected.status,
         if PriorityKey in draft then draft[PriorityKey] else selected.priority)
  }

  /** Building the PUT request: it throws before sending when no event is selected
      (`selectedEvent.id` of null) or when a draft time is not a date (`toISOString`). */
  datatype Prepared = Ready(req: Request) | Throws(message: string)

  const NoSelection := "Cannot read properties of null (reading 'id')"
  const InvalidTime := "Invalid time value"

  function PrepareSave(selected: Option<Task>, draft: map<DraftKey, Field>, api: DateApi): (p: Prepared)
    ensures p.Ready? <==> selected.Some? && api.parse(DraftValue(draft, StartKey)).At?
                          && api.parse(DraftValue(draft, EndKey)).At?
    ensures p.Ready? ==> p.req.Put? && p.req.id == selected.value.id
                         && p.req.body.status == selected.value.status
    ensures p.Ready? ==>
              p.req == Put(selected.value.id,
                           SaveBody(selected.value, draft, api.iso(api.parse(DraftValue(draft, StartKey)).ms),
                                    api.iso(api.parse(DraftValue(draft, EndKey)).ms)))
    ensures p.Throws? ==> p.message == (if selected.None? then NoSelection else InvalidTime)
  {
    var start := api.parse(DraftValue(draft, StartKey));
    var end := api.parse(DraftValue(draft, EndKey));
    if selected.None? then Throws(NoSelection)
    else if start.Invalid? || end.Invalid? then Throws(InvalidTime)
    else Ready(Put(selected.value.id, SaveBody(selected.value, draft, api.iso(start.ms), api.iso(end.ms))))
  }

  /** `err.message || 'Unknown error'` */
  function ErrorText(message: string): string
  {
    if message == "" then "Unknown error" else message
  }

  // ---------------------------------------------------------------------------
  // The component's state

  /** Everything the component keeps between renders; `tasks` is the prop from the last load. */
  datatype PanelState = PanelState(tasks: seq<Task>, popoverOpen: bool, selectedEvent: Option<Task>,
                                   editMode: bool, editFields: map<DraftKey, Field>,
                                   editError: string, actionLoading: bool)

  class CalendarPanel {
    var tasks: seq<Task>
    /** `anchorEl !== null`: the popover is showing. */
    var popoverOpen: bool
    var selectedEvent: Option<Task>
    var editMode: bool
    var editFields: map<DraftKey, Field>
    var editError: string
    var actionLoading: bool

    function State(): PanelState
      reads this
    {
      PanelState(tasks, popoverOpen, selectedEvent, editMode, editFields, editError, actionLoading)
    }

    /** The popover is open exactly when an event is selected. */
    predicate Valid()
      reads this
    {
      popoverOpen <==> selectedEvent.Some?
    }

    constructor (tasks: seq<Task>)
      ensures Valid()
      ensures State() == PanelState(tasks, false, None, false, map[], "", false)
    {
      this.tasks := tasks;
      popoverOpen := false;
      selectedEvent := None;
      editMode := false;
      editFields := map[];
      editError := "";
      actionLoading := false;
    }

    /** `handleSelectEvent`: open the popover on the event's task. */
    method SelectEvent(event: Event)
      modifies this
      ensures Valid()
      ensures State() == old(State()).(popoverOpen := true, selectedEvent := Some(event.resource))
    {
      selectedEvent := Some(event.resource);
      popoverOpen := true;
    }

    /** `handlePopoverClose` */
    method ClosePopover()
      modifies this
      ensures Valid()
      ensures State() == old(State()).(popoverOpen := false, selectedEvent := None)
    {
      popoverOpen := false;
      selectedEvent := None;
    }

    /** `handleEdit`: switch to the form, filled in from the task. */
    method Edit(task: Task)
      requires Valid()
      modifies this
      ensures Valid()
      ensures State() == old(State()).(editMode := true, editFields := DraftOf(task))
    {
      editMode := true;
      editFields := DraftOf(task);
    }

    /** `handleEditFieldChange`: one input of the form changes; the others keep their text. */
    method EditFieldChange(key: DraftKey, value: string)
      requires Valid()
      modifies this
      ensures Valid()
      ensures State() == old(State()).(editFields := old(editFields)[key := Text(value)])
      ensures forall k :: k != key ==> DraftValue(editFields, k) == DraftValue(old(editFields), k)
    {
      editFields := editFields[key := Text(value)];
    }

    /** `handleEditCancel`: leave the form and drop the draft. */
    method EditCancel()
      requires Valid()
      modifies this
      ensures Valid()
      ensures State() == old(State()).(editMode := false, editFields := map[])
    {
      editMode := false;
      editFields := map[];
    }

    /** `handleEditSave`: refuse a blank title or an end before the start; otherwise send
        the draft as a PUT, and on an answer leave the form, reload and close the popover. */
    method EditSave(server: TaskTable, api: DateApi, net: Delivery, fetched: bool)
      requires Valid() && server.Valid()
      modifies this, server
      ensures Valid() && server.Valid()
      // the Save button is in the open popover, which always has a task selected
      ensures old(popoverOpen) ==> PrepareSave(old(selectedEvent), old(editFields), api) != Throws(NoSelection)
      ensures CheckDraft(old(editFields), api) == BlankTitle ==>
                && State() == old(State()).(editError := "Title cannot be blank.")
                && server.rows == old(server.rows) && server.nextId == old(server.nextId)
      ensures CheckDraft(old(editFields), api) == EndBeforeStart ==>
                && State() == old(State()).(editError := "End time cannot be before start time.")
                && server.rows == old(server.rows) && server.nextId == old(server.nextId)
      ensures var p := PrepareSave(old(selectedEvent), old(editFields), api);
              CheckDraft(old(editFields), api) == Passed && p.Throws? ==>
                && State() == old(State()).(editError := "Failed to update task: " + p.message, actionLoading := false)
                && server.rows == old(server.rows) && server.nextId == old(server.nextId)
      ensures var p := PrepareSave(old(selectedEvent), old(editFields), api);
              CheckDraft(old(editFields), api) == Passed && p.Ready? ==>
                && server.rows == (if Reaches(net) then RowsAfter(old(server.rows), old(server.nextId), p.req, "")
                                   else old(server.rows))
                && server.nextId == old(server.nextId)
                && (net.Delivered? ==>
                      State() == old(State()).(tasks := Loaded(server.rows, fetched), popoverOpen := false,
                                               selectedEvent := None, editMode := false, editFields := map[],
                                               editError := "", actionLoading := false))
                && (!net.Delivered? ==>
                      State() == old(State()).(editError := "Failed to update task: " + ErrorText(net.reason),
                                               actionLoading := false))
    {
      var check := CheckDraft(editFields, api);
      if check == BlankTitle {
        editError := "Title cannot be blank.";
        return;
      }
      if check == EndBeforeStart {
        editError := "End time cannot be before start time.";
        return;
      }
      SaveDraft(server, api, net, fetched);
    }

    /** `handleEditSave` once the draft has passed its checks: build the PUT, which may
        throw, and send it. */
    method SaveDraft(server: TaskTable, api: DateApi, net: Delivery, fetched: bool)
      requires Valid() && server.Valid()
      modifies this, server
      ensures Valid() && server.Valid()
      ensures var p := PrepareSave(old(selectedEvent), old(editFields), api);
              p.Throws? ==>
                && State() == old(State()).(editError := "Failed to update task: " + p.message, actionLoading := false)
                && server.rows == old(server.rows) && server.nextId == old(server.nextId)
      ensures var p := PrepareSave(old(selectedEvent), old(editFields), api);
              p.Ready? ==>
                && server.rows == (if Reaches(net) then RowsAfter(old(server.rows), old(server.nextId), p.req, "")
                                   else old(server.rows))
                && server.nextId == old(server.nextId)
                && (net.Delivered? ==>
                      State() == old(State()).(tasks := Loaded(server.rows, fetched), popoverOpen := false,
                                               selectedEvent := None, editMode := false, editFields := map[],
                                               editError := "", actionLoading := false))
                && (!net.Delivered? ==>
                      State() == old(State()).(editError := "Failed to update task: " + ErrorText(net.reason),
                                               actionLoading := false))
    {
      editError := "";
      actionLoading := true;
      var prepared := PrepareSave(selectedEvent, editFields, api);
      if prepared.Throws? {
        editError := "Failed to update task: " + prepared.message;
      } else {
        SendEdit(prepared.req, server, net, fetched);
      }
      actionLoading := false;
    }

    /** The request part of `handleEditSave`: on an answer leave the form, reload and close
        the popover; a lost request shows its error in the form. */
    method SendEdit(req: Request, server: TaskTable, net: Delivery, fetched: bool)
      requires Valid() && server.Valid() && req.Put?
      modifies this, server
      ensures Valid() && server.Valid()
      ensures server.rows == (if Reaches(net) then RowsAfter(old(server.rows), old(server.nextId), req, "")
                              else old(server.rows))
      ensures server.nextId == old(server.nextId)
      ensures net.Delivered? ==>
                State() == old(State()).(tasks := Loaded(server.rows, fetched), popoverOpen := false,
                                         selectedEvent := None, editMode := false, editFields := map[])
      ensures !net.Delivered? ==>
                State() == old(State()).(editError := "Failed to update task: " + ErrorText(net.reason))
    {
      var reply := FetchSend(server, req, "", net);
      assert reply.Resolved? <==> net.Delivered?;
      assert reply.Rejected? ==> reply.detail == net.reason;
      if reply.Resolved? {
        editMode := false;
        editFields := map[];
        Refresh(server, fetched);
      } else {
        editError := "Failed to update task: " + ErrorText(reply.detail);
      }
    }

    /** An answer has arrived: reload the tasks and close the popover. */
    method Refresh(server: TaskTable, fetched: bool)
      requires server.Valid()
      modifies this
      ensures Valid()
      ensures State() == old(State()).(tasks := Loaded(server.rows, fetched), popoverOpen := false,
                                       selectedEvent := None)
    {
      tasks := Reload(server, fetched);
      ClosePopover();
    }

    /** `handleToggleComplete`: send the toggle request; once an answer arrives, reload and
        close the popover. A lost request only raises an alert. */
    method ToggleComplete(task: Task, server: TaskTable, net: Delivery, fetched: bool)
      requires Valid() && server.Valid()
      modifies this, server
      ensures Valid() && server.Valid()
      ensures server.rows == (if Reaches(net) then RowsAfter(old(server.rows), old(server.nextId), ToggleRequest(task), "")
                              else old(server.rows))
      ensures server.nextId == old(server.nextId)
      ensures net.Delivered? ==>
                State() == old(State()).(tasks := Loaded(server.rows, fetched), popoverOpen := false,
                                         selectedEvent := None, actionLoading := false)
      ensures !net.Delivered? ==> State() == old(State()).(actionLoading := false)
    {
      actionLoading := true;
      var reply := FetchSend(server, ToggleRequest(task), "", net);
      if reply.Resolved? {
        tasks := Reload(server, fetched);
        selectedEvent := Some(if IsCompleted(task) then task.(status := Text(PendingStatus))
                              else task.(status := Text(CompletedStatus)));
        ClosePopover();
      }
      actionLoading := false;
    }

    /** `handleDelete`: send the DELETE; once an answer arrives, reload and close the popover. */
    method Delete(task: Task, server: TaskTable, net: Delivery, fetched: bool)
      requires Valid() && server.Valid()
      modifies this, server
      ensures Valid() && server.Valid()
      ensures server.rows == (if Reaches(net) then RemoveRows(old(server.rows), task.id) else old(server.rows))
      ensures server.nextId == old(server.nextId)
      ensures net.Delivered? ==>
                State() == old(State()).(tasks := Loaded(server.rows, fetched), popoverOpen := false,
                                         selectedEvent := None, actionLoading := false)
      ensures !net.Delivered? ==> State() == old(State()).(actionLoading := false)
    {
      actionLoading := true;
      var reply := FetchSend(server, Remove(task.id), "", net);
      if reply.Resolved? {
        Refresh(server, fetched);
      }
      actionLoading := false;
    }
  }
}
