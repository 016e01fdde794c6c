/**
 * The task routes of server/routes/tasks.js as methods of an in-memory task
 * store. The authenticated caller's id, which the auth middleware supplies,
 * is a parameter of every route.
 */
module TaskRoutes {
  import opened TaskSchema
  import opened TaskListing

  /** What a route answers: the JSON value, or the error status it sends. */
  datatype Outcome<T> = Ok(value: T) | NotFound | NotAuthorized | ServerError {
    function StatusCode(): int {
      match this
      case Ok(_) => 200
      case NotFound => 404
      case NotAuthorized => 401
      case ServerError => 500
    }
  }

  const TaskRemoved := "Task removed"

  /** Where the ownership check of get, update and delete ends. */
  datatype Guard = Missing | Foreign | Owned

  /**
   * The guard sequence: look the id up and report a missing task first;
   * only a task that exists is then checked against the caller.
   */
  function Authorize(tasks: map<TaskId, Task>, caller: UserId, id: TaskId): (g: Guard)
    ensures g == Missing <==> id !in tasks
    ensures g == Foreign <==> id in tasks && tasks[id].user != caller
    ensures g == Owned <==> id in tasks && tasks[id].user == caller
  {
    if id !in tasks then Missing
    else if tasks[id].user != caller then Foreign
    else Owned
  }

  /**
   * MongoDB's `$set` of the paths a body carries. Every path is settable,
   * `user` included: nothing keeps an update from handing the task to
   * another owner.
   */
  function ApplySet(t: Task, f: Fields): (r: Task)
    ensures r.id == t.id
    ensures r.user == t.user <==> f.user.None? || f.user == Some(t.user)
    ensures FieldsOf(r) == Fields(
      Some(f.user.GetOr(t.user)), Some(f.title.GetOr(t.title)),
      if f.description.Some? then f.description else t.description,
      if f.dueDate.Some? then f.dueDate else t.dueDate,
      Some(f.status.GetOr(t.status)), Some(f.priority.GetOr(t.priority)))
  {
    Task(
      t.id,
      f.user.GetOr(t.user),
      f.title.GetOr(t.title),
      if f.description.Some? then f.description else t.description,
      if f.dueDate.Some? then f.dueDate else t.dueDate,
      f.status.GetOr(t.status),
      f.priority.GetOr(t.priority))
  }

  /**
   * Setting a task's paths onto a task with the same id yields that task, as
   * long as the target has no optional path the source lacks (`$set` never
   * removes a path).
   */
  lemma {:induction false} ApplySetAll(t: Task, u: Task)
    requires t.id == u.id
    requires u.description.Some? || t.description.None?
    requires u.dueDate.Some? || t.dueDate.None?
    ensures ApplySet(t, FieldsOf(u)) == u
  {
  }

  lemma {:induction false} ApplySetIdempotent(t: Task, f: Fields)
    ensures ApplySet(ApplySet(t, f), f) == ApplySet(t, f)
  {
  }

  /** A body with no schema path changes nothing. */
  lemma {:induction false} ApplySetNothing(t: Task)
    ensures ApplySet(t, Fields(None, None, None, None, None, None)) == t
  {
  }

  /**
   * The document `new Task({ ...req.body, user: req.user.id })` validates:
   * the caller's id written after the body's keys, then the defaults.
   */
  function NewDraft(caller: UserId, body: Doc): (d: Fields)
    ensures d.user == Some(caller)
    ensures d.status == Some(ToFields(body).status.GetOr(Pending))
    ensures d.priority == Some(ToFields(body).priority.GetOr(Medium))
    ensures d.(user := None, status := None, priority := None)
         == ToFields(body).(user := None, status := None, priority := None)
  {
    WithDefaults(ToFields(body["user" := Num(caller)]))
  }

  /** The body's own `user` key has no effect on the new document. */
  lemma {:induction false} NewDraftIgnoresBodyOwner(caller: UserId, body: Doc, other: Json)
    ensures NewDraft(caller, body["user" := other]) == NewDraft(caller, body)
    ensures NewDraft(caller, body - {"user"}) == NewDraft(caller, body)
  {
    assert body["user" := other]["user" := Num(caller)] == body["user" := Num(caller)];
    assert (body - {"user"})["user" := Num(caller)] == body["user" := Num(caller)];
  }

  /** A listing result is one page of some ordered listing of the caller's tasks. */
  ghost predicate IsPageOf(r: Page, tasks: map<TaskId, Task>, caller: UserId, page: int, limit: int) {
    exists s :: IsOrderedListing(s, tasks, caller) && r == Paginate(s, page, limit)
  }

  /** No page of a user's listing holds a task of anyone else. */
  lemma ListShowsOnlyOwnTasks(r: Page, tasks: map<TaskId, Task>, caller: UserId, page: int, limit: int, t: Task)
    requires IsPageOf(r, tasks, caller, page, limit) && t in r.docs
    ensures t.user == caller && t.id in tasks && tasks[t.id] == t
  {
    var s :| IsOrderedListing(s, tasks, caller) && r == Paginate(s, page, limit);
    assert t in s;
  }

  /**
   * Two positions of a duplicate-free list hold two different entries of it.
   * Stated apart from its caller, whose branch with two entries is impossible:
   * the contradiction is reached through this call alone.
   */
  lemma DistinctEntries(s: seq<Task>, i: int, j: int)
    requires NoDup(s) && 0 <= i < j < |s|
    ensures s[i] != s[j] && s[i] in s && s[j] in s
  {
  }

  /** The ordered listing of a user owning exactly one task is that task alone, on page 1. */
  lemma SingleTaskListed(r: Page, tasks: map<TaskId, Task>, caller: UserId, limit: int, t: Task)
    requires OwnedEntry(tasks, caller, t)
    requires forall id :: id in tasks && tasks[id].user == caller ==> id == t.id
    requires limit > 0 && IsPageOf(r, tasks, caller, 1, limit)
    ensures r.docs == [t]
  {
    var s :| IsOrderedListing(s, tasks, caller) && r == Paginate(s, 1, limit);
    assert t in s;
    if |s| > 1 {
      DistinctEntries(s, 0, 1);
      assert false;
    }
    assert s[0] in s;
  }

  /**
   * The store behind the routes: every task under its own id. Ids are handed
   * out in increasing order from nextId, so id order is insertion order.
   */
  class TaskStore {
    var tasks: map<TaskId, Task>
    var nextId: nat

    ghost predicate Valid()
      reads this
    {
      forall id :: id in tasks ==> tasks[id].id == id && 0 <= id < nextId
    }

    constructor ()
      ensures Valid() && tasks == map[] && nextId == 0
    {
      tasks := map[];
      nextId := 0;
    }

    /**
     * GET /: the caller's tasks in list order, cut into the page asked for
     * (page 1 and limit 5 when the query leaves them out).
     */
    method List(caller: UserId, page: Option<int>, limit: Option<int>) returns (r: Page)
      requires Valid()
      ensures IsPageOf(r, tasks, caller, page.GetOr(DefaultPage), limit.GetOr(DefaultLimit))
      ensures forall t :: t in r.docs ==> OwnedEntry(tasks, caller, t)
    {
      var listing: seq<Task> := [];
      for k := 0 to nextId
        invariant Sorted(listing) && NoDup(listing)
        invariant forall t :: t in listing <==> OwnedEntry(tasks, caller, t) && t.id < k
      {
        if k in tasks && tasks[k].user == caller {
          var t := tasks[k];
          InsertSorted(t, listing);
          InsertNoDup(t, listing);
          listing := Insert(t, listing);
        }
      }
      r := Paginate(listing, page.GetOr(DefaultPage), limit.GetOr(DefaultLimit));
    }

    /** GET /:id: 404 for an unknown id, then 401 for another user's task, else the task as stored. */
    method Get(caller: UserId, id: TaskId) returns (r: Outcome<Task>)
      requires Valid()
      ensures id !in tasks ==> r == NotFound
      ensures id in tasks && tasks[id].user != caller ==> r == NotAuthorized
      ensures id in tasks && tasks[id].user == caller ==> r == Ok(tasks[id])
      ensures r.StatusCode() == match Authorize(tasks, caller, id)
        case Missing => 404
        case Foreign => 401
        case Owned => 200
    {
      match Authorize(tasks, caller, id)
      case Missing => r := NotFound;
      case Foreign => r := NotAuthorized;
      case Owned => r := Ok(tasks[id]);
    }

    /**
     * POST /: stores the body as a new task owned by the caller; a document
     * that fails validation is answered with the 500 of the route's catch.
     */
    method Create(caller: UserId, body: Doc) returns (r: Outcome<Task>)
      requires Valid()
      modifies this
      ensures Valid()
      ensures var draft := NewDraft(caller, body);
        if ValidNewTask(draft) then
          && r == Ok(Materialize(draft, old(nextId)))
          && tasks == old(tasks)[old(nextId) := r.value]
          && nextId == old(nextId) + 1
        else
          r == ServerError && tasks == old(tasks) && nextId == old(nextId)
      ensures r.Ok? ==> r.value.user == caller && r.value.id !in old(tasks)
      ensures r.StatusCode() == if ValidNewTask(NewDraft(caller, body)) then 200 else 500
    {
      var draft := NewDraft(caller, body);
      if !ValidNewTask(draft) {
        return ServerError;
      }
      var t := Materialize(draft, nextId);
      tasks := tasks[nextId := t];
      nextId := nextId + 1;
      r := Ok(t);
    }

    /**
     * PUT /:id: after the same two checks as Get, sets every schema path the
     * body carries and answers the updated task; a failed check changes nothing.
     */
    method Update(caller: UserId, id: TaskId, body: Doc) returns (r: Outcome<Task>)
      requires Valid()
      modifies this
      ensures Valid() && nextId == old(nextId)
      ensures match Authorize(old(tasks), caller, id)
        case Missing => r == NotFound && tasks == old(tasks)
        case Foreign => r == NotAuthorized && tasks == old(tasks)
        case Owned =>
          && r == Ok(ApplySet(old(tasks)[id], ToFields(body)))
          && tasks == old(tasks)[id := r.value]
    {
      match Authorize(tasks, caller, id)
      case Missing => r := NotFound;
      case Foreign => r := NotAuthorized;
      case Owned =>
        var t := ApplySet(tasks[id], ToFields(body));
        tasks := tasks[id := t];
        r := Ok(t);
    }

    /** DELETE /:id: after the same two checks as Get, removes that one task. */
    method Delete(caller: UserId, id: TaskId) returns (r: Outcome<string>)
      requires Valid()
      modifies this
      ensures Valid() && nextId == old(nextId)
      ensures match Authorize(old(tasks), caller, id)
        case Missing => r == NotFound && tasks == old(tasks)
        case Foreign => r == NotAuthorized && tasks == old(tasks)
        case Owned => r == Ok(TaskRemoved) && tasks == old(tasks) - {id}
    {
      match Authorize(tasks, caller, id)
      case Missing => r := NotFound;
      case Foreign => r := NotAuthorized;
      case Owned =>
        tasks := tasks - {id};
        r := Ok(TaskRemoved);
    }
  }

  /**
   * A session of one user: create a task, read it back, mark it completed,
   * list it, delete it, and find it gone.
   */
  method ExampleSession(alice: UserId, bob: UserId)
    requires alice != bob
  {
    var store := new TaskStore();
    var body := map["title" := Str("Write report"), "priority" := Str(High), "dueDate" := Num(20240501)];
    var created := store.Create(alice, body);
    assert ValidNewTask(NewDraft(alice, body));
    var t1 := created.value;
    assert t1.status == Pending && t1.priority == High && t1.user == alice;

    var got := store.Get(alice, t1.id);
    assert got == Ok(t1);
    var foreign := store.Get(bob, t1.id);
    assert foreign == NotAuthorized;

    var updated := store.Update(alice, t1.id, map["status" := Str(Completed)]);
    assert updated == Ok(t1.(status := Completed));

    var listed := store.List(alice, Some(1), Some(10));
    SingleTaskListed(listed, store.tasks, alice, 10, t1.(status := Completed));
    assert listed.docs == [t1.(status := Completed)];

    var removed := store.Delete(alice, t1.id);
    assert removed == Ok(TaskRemoved);
    var gone := store.Get(alice, t1.id);
    assert gone == NotFound;
  }
}
