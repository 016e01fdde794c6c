/**
 * The task record of server/models/Task.js: the schema paths, which of them
 * are required, the two enumerations with their defaults, and the way a JSON
 * request body is cast onto those paths.
 */
module TaskSchema {

  datatype Option<+T> = None | Some(value: T) {
    function GetOr(default: T): T {
      match this
      case Some(v) => v
      case None => default
    }
  }

  /** Object ids of users and tasks, compared by value. */
  type UserId = int
  type TaskId = int

  const Pending := "pending"
  const Completed := "completed"
  const Low := "low"
  const Medium := "medium"
  const High := "high"

  /** The `enum` of the status path. */
  predicate IsStatus(s: string) {
    s == Pending || s == Completed
  }

  /** The `enum` of the priority path. */
  predicate IsPriority(p: string) {
    p == Low || p == Medium || p == High
  }

  /**
   * A stored task document. status and priority are kept as the strings the
   * store holds: the enumerations are checked when a task is created, and an
   * update can store any string there.
   */
  datatype Task = Task(
    id: TaskId,
    user: UserId,
    title: string,
    description: Option<string>,
    dueDate: Option<int>,
    status: string,
    priority: string)

  /** The schema paths a document under construction or a `$set` carries, each possibly absent. */
  datatype Fields = Fields(
    user: Option<UserId>,
    title: Option<string>,
    description: Option<string>,
    dueDate: Option<int>,
    status: Option<string>,
    priority: Option<string>)

  /** The schema paths of a stored task, all of them present except the optional ones it lacks. */
  function FieldsOf(t: Task): Fields {
    Fields(Some(t.user), Some(t.title), t.description, t.dueDate, Some(t.status), Some(t.priority))
  }

  /** The `default` of the status and priority paths, applied to a new document. */
  function WithDefaults(f: Fields): (r: Fields)
    ensures r.status.Some? && r.priority.Some?
    ensures f.status.Some? ==> r.status == f.status
    ensures f.priority.Some? ==> r.priority == f.priority
    ensures f.status.None? ==> r.status == Some(Pending)
    ensures f.priority.None? ==> r.priority == Some(Medium)
    ensures r.(status := f.status, priority := f.priority) == f
  {
    f.(status := Some(f.status.GetOr(Pending)), priority := Some(f.priority.GetOr(Medium)))
  }

  /**
   * Schema validation of a new document: the required paths `user` and
   * `title` (a required string must not be empty), and each enumeration
   * checked on a value that is present.
   */
  predicate ValidNewTask(f: Fields) {
    && f.user.Some?
    && f.title.Some? && f.title.value != ""
    && (f.status.Some? ==> IsStatus(f.status.value))
    && (f.priority.Some? ==> IsPriority(f.priority.value))
  }

  /** The stored document built from a validated, defaulted draft. */
  function Materialize(d: Fields, id: TaskId): (t: Task)
    requires d.user.Some? && d.title.Some? && d.status.Some? && d.priority.Some?
    ensures t.id == id && FieldsOf(t) == d
  {
    Task(id, d.user.value, d.title.value, d.description, d.dueDate, d.status.value, d.priority.value)
  }

  lemma WithDefaultsIdempotent(f: Fields)
    ensures WithDefaults(WithDefaults(f)) == WithDefaults(f)
  {
  }

  /** Filling in the defaults neither makes an invalid draft valid nor a valid one invalid. */
  lemma WithDefaultsKeepsValidity(f: Fields)
    ensures ValidNewTask(WithDefaults(f)) <==> ValidNewTask(f)
  {
  }

  lemma TitleRequired(f: Fields)
    requires f.title.None? || f.title == Some("")
    ensures !ValidNewTask(f) && !ValidNewTask(WithDefaults(f))
  {
  }

  lemma OwnerRequired(f: Fields)
    requires f.user.None?
    ensures !ValidNewTask(f) && !ValidNewTask(WithDefaults(f))
  {
  }

  /** description and dueDate play no part in validation. */
  lemma OptionalPathsIrrelevant(f: Fields, description: Option<string>, dueDate: Option<int>)
    ensures ValidNewTask(f) <==> ValidNewTask(f.(description := description, dueDate := dueDate))
  {
  }

  /** A status or priority outside its enumeration makes the draft invalid, defaults or not. */
  lemma EnumsChecked(f: Fields)
    requires (f.status.Some? && !IsStatus(f.status.value)) || (f.priority.Some? && !IsPriority(f.priority.value))
    ensures !ValidNewTask(WithDefaults(f))
  {
  }

  /** A valid draft with defaults becomes a task whose enumerated paths hold enumeration values. */
  lemma {:induction false} MaterializedTaskValid(f: Fields, id: TaskId)
    requires ValidNewTask(f)
    ensures var t := Materialize(WithDefaults(f), id);
      t.title != "" && IsStatus(t.status) && IsPriority(t.priority)
  {
    WithDefaultsKeepsValidity(f);
  }

  // ---------------------------------------------------------------------
  // JSON documents on the wire

  datatype Json = Str(s: string) | Num(n: int)

  /** A JSON object: a request body or a serialised task. */
  type Doc = map<string, Json>

  function StringAt(d: Doc, key: string): Option<string> {
    if key in d && d[key].Str? then Some(d[key].s) else None
  }

  function NumberAt(d: Doc, key: string): Option<int> {
    if key in d && d[key].Num? then Some(d[key].n) else None
  }

  /**
   * Casting a body onto the six declared schema paths. A key outside the
   * schema is dropped, as the schema's strict mode does. The model also drops
   * `_id`, the timestamps and `__v`, which Mongoose would keep; see the
   * README's list of what is left out.
   */
  function ToFields(d: Doc): Fields {
    Fields(
      NumberAt(d, "user"),
      StringAt(d, "title"),
      StringAt(d, "description"),
      NumberAt(d, "dueDate"),
      StringAt(d, "status"),
      StringAt(d, "priority"))
  }

  /** The JSON a route sends back for a task; absent optional paths are absent keys. */
  function Serialize(t: Task): (r: Doc)
    ensures r.Keys == {"_id", "user", "title", "status", "priority"}
      + (if t.description.Some? then {"description"} else {})
      + (if t.dueDate.Some? then {"dueDate"} else {})
  {
    var required := map[
      "_id" := Num(t.id),
      "user" := Num(t.user),
      "title" := Str(t.title),
      "status" := Str(t.status),
      "priority" := Str(t.priority)];
    var withDescription := if t.description.Some? then required["description" := Str(t.description.value)] else required;
    if t.dueDate.Some? then withDescription["dueDate" := Num(t.dueDate.value)] else withDescription
  }

  /** Casting a serialised task back onto the schema recovers every path of the task. */
  lemma {:induction false} SerializeRoundTrip(t: Task)
    ensures ToFields(Serialize(t)) == FieldsOf(t)
    ensures "_id" in Serialize(t) && Serialize(t)["_id"] == Num(t.id)
  {
  }
}
