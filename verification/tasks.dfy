/** Values shared by the task server and its browser client: the task row as
    JSON, request bodies, and the date functions the client calls but whose
    behaviour (time zone, parsing) is not part of this model. */
module Tasks {

  datatype Option<T> = None | Some(value: T)

  /** A string-valued JSON property or text column: a string, or absent
      (`null` and `undefined` behave alike everywhere in this model). */
  datatype Field = Null | Text(s: string)

  /** JavaScript truthiness of a string-or-absent value: only a non-empty string is truthy. */
  predicate Truthy(f: Field)
  {
    f.Text? && f.s != ""
  }

  /** `f || fallback` */
  function OrElse(f: Field, fallback: string): Field
  {
    if Truthy(f) then f else Text(fallback)
  }

  const CompletedStatus := "completed"
  const PendingStatus := "pending"
  const High := "High"
  const Medium := "Medium"
  const Low := "Low"

  /** A task as the server returns it: the columns of one table row. `priority` is
      the property the client reads; the table has no such column, so a row never holds one. */
  datatype Task = Task(id: int, title: Field, reason: Field, startTime: Field, endTime: Field,
                       recurrence: Field, status: Field, priority: Field, createdAt: Field)

  /** The JSON body of a create or update request, restricted to the properties
      that any part of the system reads. */
  datatype Body = Body(title: Field, reason: Field, startTime: Field, endTime: Field,
                       recurrence: Field, status: Field, priority: Field)

  /** `{ ...task }` sent as a request body. */
  function BodyOf(t: Task): Body
  {
    Body(t.title, t.reason, t.startTime, t.endTime, t.recurrence, t.status, t.priority)
  }

  predicate IsCompleted(t: Task)
  {
    t.status == Text(CompletedStatus)
  }

  /** A JavaScript `Date`: a millisecond instant, or an invalid date (whose time value is NaN). */
  datatype Instant = Invalid | At(ms: int)

  /** The browser's date functions, which depend on the time zone and locale:
      `parse` is `new Date(x)`, `dateString` is `toDateString()` and `iso` is
      `toISOString()` of a valid date. They are parameters of the model, not definitions. */
  datatype DateApi = DateApi(parse: Field -> Instant, dateString: Instant -> string, iso: int -> string)

  /** `s.slice(0, 16)` */
  function Prefix16(s: string): (r: string)
    ensures |r| == if |s| < 16 then |s| else 16
    ensures r <= s
  {
    if |s| <= 16 then s else s[..16]
  }

  /** The characters `String.prototype.trim` removes: ECMAScript WhiteSpace and LineTerminator. */
  predicate IsJsSpace(c: char)
  {
    c == '\t' || c == '\n' || c == '\U{000B}' || c == '\U{000C}' || c == '\r' || c == ' '
    || c == '\U{00A0}' || c == '\U{1680}' || ('\U{2000}' <= c <= '\U{200A}')
    || c == '\U{2028}' || c == '\U{2029}' || c == '\U{202F}' || c == '\U{205F}'
    || c == '\U{3000}' || c == '\U{FEFF}'
  }

  /** `s.trimStart()` */
  function TrimStart(s: string): (r: string)
    ensures |r| <= |s| && r == s[|s| - |r|..]
  {
    if s != [] && IsJsSpace(s[0]) then TrimStart(s[1..]) else s
  }

  /** `s.trimEnd()` */
  function TrimEnd(s: string): (r: string)
    ensures r <= s
    ensures s != [] && !IsJsSpace(s[0]) ==> r != []
  {
    if s != [] && IsJsSpace(s[|s| - 1]) then TrimEnd(s[..|s| - 1]) else s
  }

  /** `s.trim()`: white space removed from both ends. */
  function Trim(s: string): string
  {
    TrimEnd(TrimStart(s))
  }

  /** `s.trim() === ''`: every character is white space. */
  predicate IsBlank(s: string): (b: bool)
    ensures b <==> Trim(s) == ""
  {
    BlankTrimsToEmpty(s);
    forall i :: 0 <= i < |s| ==> IsJsSpace(s[i])
  }

  lemma {:induction false} BlankTrimsToEmpty(s: string)
    ensures (forall i :: 0 <= i < |s| ==> IsJsSpace(s[i])) <==> TrimStart(s) == ""
    ensures TrimStart(s) != "" ==> !IsJsSpace(TrimStart(s)[0])
  {
    if s != [] {
      BlankTrimsToEmpty(s[1..]);
      AllSpaceCons(s);
    }
  }

  lemma AllSpaceCons(s: string)
    requires s != []
    ensures (forall i :: 0 <= i < |s| ==> IsJsSpace(s[i]))
            <==> IsJsSpace(s[0]) && forall i :: 0 <= i < |s[1..]| ==> IsJsSpace(s[1..][i])
  {
    if IsJsSpace(s[0]) && forall i :: 0 <= i < |s[1..]| ==> IsJsSpace(s[1..][i]) {
      forall i | 0 <= i < |s| ensures IsJsSpace(s[i]) {
        if i > 0 { assert s[i] == s[1..][i - 1]; }
      }
    }
  }
}
