/**
 * The task-list state of the dashboard page (client/src/pages/Dashboard.jsx):
 * the status toggle with its optimistic list update, the edit payload, and
 * the Prev/Next paging. The page's requests are calls into a TaskStore on
 * behalf of the logged-in user.
 */
module DashboardPage {
  import opened TaskSchema
  import opened TaskListing
  import opened TaskRoutes

  /** The page size the dashboard always asks for. */
  const ClientLimit := 10

  /** The keys the edit form must not send back. */
  const ServerManagedKeys: set<string> := {"_id", "user", "createdAt", "updatedAt", "__v"}

  /** What the page knows of the list before its first response: no flags set. */
  const NoPageInfo := Page([], 0, 0, 1, false, false)

  /** The status a click on the badge asks for: completed becomes pending, anything else completed. */
  function Toggle(status: string): (r: string)
    ensures IsStatus(r)
    ensures r == Pending <==> status == Completed
  {
    if status == Completed then Pending else Completed
  }

  /** The toggle undoes itself exactly on the two valid statuses. */
  lemma ToggleInvolution(status: string)
    ensures Toggle(Toggle(status)) == status <==> IsStatus(status)
  {
  }

  /** The optimistic list: the entry with that id gets the new status, every other entry stays as it was. */
  function MarkStatus(ts: seq<Task>, id: TaskId, status: string): (r: seq<Task>)
    ensures |r| == |ts|
    ensures forall i :: 0 <= i < |ts| && ts[i].id != id ==> r[i] == ts[i]
    ensures forall i :: 0 <= i < |ts| && ts[i].id == id ==> r[i].status == status && r[i].(status := ts[i].status) == ts[i]
  {
    seq(|ts|, i requires 0 <= i < |ts| => if ts[i].id == id then ts[i].(status := status) else ts[i])
  }

  /** Marking the entries back with the status they had restores the list. */
  lemma {:induction false} MarkStatusRestores(ts: seq<Task>, id: TaskId, status: string, was: string)
    requires forall i :: 0 <= i < |ts| && ts[i].id == id ==> ts[i].status == was
    ensures MarkStatus(MarkStatus(ts, id, status), id, was) == ts
  {
    var back := MarkStatus(MarkStatus(ts, id, status), id, was);
    forall i | 0 <= i < |ts| ensures back[i] == ts[i] {
    }
  }

  /** The body of the status request: the whole task as the list shows it, with only status replaced. */
  function StatusPayload(t: Task, status: string): (r: Doc)
    ensures r.Keys == Serialize(t).Keys
    ensures r["status"] == Str(status)
    ensures forall k :: k in r && k != "status" ==> r[k] == Serialize(t)[k]
  {
    Serialize(t)["status" := Str(status)]
  }

  /** The server reads the status request as every path of the listed task, status replaced. */
  lemma {:induction false} StatusPayloadFields(t: Task, status: string)
    ensures ToFields(StatusPayload(t, status)) == FieldsOf(t.(status := status))
  {
    SerializeRoundTrip(t);
    SerializeRoundTrip(t.(status := status));
    assert StatusPayload(t, status) == Serialize(t.(status := status))["_id" := Num(t.id)];
  }

  /**
   * A successful status request stores exactly the entry the optimistic
   * update shows: the listed copy of the task with the new status, written
   * over whatever the store held under that id, provided the listed copy
   * lacks no optional path the stored copy has. `$set` never removes a path,
   * so a description or due date the listed copy lacks would survive.
   */
  lemma {:induction false} StatusRequestStoresListedEntry(stored: Task, ts: seq<Task>, i: int, status: string)
    requires 0 <= i < |ts| && stored.id == ts[i].id
    requires ts[i].description.Some? || stored.description.None?
    requires ts[i].dueDate.Some? || stored.dueDate.None?
    ensures ApplySet(stored, ToFields(StatusPayload(ts[i], status))) == MarkStatus(ts, ts[i].id, status)[i]
  {
    StatusPayloadFields(ts[i], status);
    ApplySetAll(stored, ts[i].(status := status));
  }

  /** The edit payload: the form's data without the keys the server manages. */
  function StripEditPayload(formData: Doc): (r: Doc)
    ensures r.Keys == formData.Keys - ServerManagedKeys
    ensures forall k :: k in r ==> r[k] == formData[k]
  {
    formData - ServerManagedKeys
  }

  /** An edit sends every schema path of the form except the owner, so it never reassigns a task. */
  lemma {:induction false} EditKeepsOwner(formData: Doc, t: Task)
    ensures ToFields(StripEditPayload(formData)) == ToFields(formData).(user := None)
    ensures ApplySet(t, ToFields(StripEditPayload(formData))).user == t.user
  {
  }

  function PrevPage(page: int, hasPrevPage: bool): int {
    if hasPrevPage then page - 1 else page
  }

  function NextPage(page: int, hasNextPage: bool): int {
    if hasNextPage then page + 1 else page
  }

  /**
   * Stepping from a page of a listing whose flags came with it: Prev never
   * goes below page 1, and Next only moves to a page that holds tasks.
   */
  lemma {:induction false} PagingStaysInRange(s: seq<Task>, page: int)
    requires page >= 1
    ensures var info := Paginate(s, page, ClientLimit);
      && PrevPage(page, info.hasPrevPage) >= 1
      && (info.hasNextPage ==> Paginate(s, NextPage(page, info.hasNextPage), ClientLimit).docs != [])
  {
    if Paginate(s, page, ClientLimit).hasNextPage {
      NextPageNonEmpty(s, page, ClientLimit);
    }
  }

  /** The state the page keeps with useState. */
  class Dashboard {
    var tasks: seq<Task>
    var page: int
    var pageInfo: Page
    var editingTask: Option<Task>
    var showForm: bool

    ghost predicate Valid()
      reads this
    {
      page >= 1 && (pageInfo.hasPrevPage ==> page > 1)
    }

    constructor ()
      ensures Valid()
      ensures tasks == [] && page == 1 && pageInfo == NoPageInfo && editingTask == None && !showForm
    {
      tasks := [];
      page := 1;
      pageInfo := NoPageInfo;
      editingTask := None;
      showForm := false;
    }

    /**
     * fetchTasks: the current page of the user's list, 10 to a page. It also
     * runs right after Prev or Next has moved the page, while the flags still
     * describe the page before.
     */
    method FetchTasks(store: TaskStore, caller: UserId)
      requires page >= 1 && store.Valid()
      modifies this
      ensures Valid()
      ensures page == old(page) && editingTask == old(editingTask) && showForm == old(showForm)
      ensures tasks == pageInfo.docs && pageInfo.limit == ClientLimit
      ensures IsPageOf(pageInfo, store.tasks, caller, page, ClientLimit)
    {
      var res := store.List(caller, Some(page), Some(ClientLimit));
      tasks := res.docs;
      pageInfo := res;
    }

    /**
     * handleStatus: show the toggled status at once, send the whole task with
     * that status, and reload the page from the server if the request fails.
     */
    method HandleStatus(store: TaskStore, caller: UserId, task: Task)
      requires Valid() && store.Valid()
      modifies this, store
      ensures Valid() && store.Valid() && store.nextId == old(store.nextId)
      ensures page == old(page) && editingTask == old(editingTask) && showForm == old(showForm)
      ensures var status := Toggle(task.status);
        if Authorize(old(store.tasks), caller, task.id) == Owned then
          && store.tasks == old(store.tasks)[task.id := ApplySet(old(store.tasks)[task.id], ToFields(StatusPayload(task, status)))]
          && tasks == MarkStatus(old(tasks), task.id, status)
          && pageInfo == old(pageInfo)
        else
          && store.tasks == old(store.tasks)
          && tasks == pageInfo.docs
          && IsPageOf(pageInfo, store.tasks, caller, page, ClientLimit)
    {
      var status := Toggle(task.status);
      tasks := MarkStatus(tasks, task.id, status);
      var r := store.Update(caller, task.id, StatusPayload(task, status));
      if !r.Ok? {
        FetchTasks(store, caller);
      }
    }

    /**
     * handleSaveTask: an edit sends the form without the server-managed keys
     * to the task being edited, otherwise the form creates a task; on success
     * the form closes and the page reloads, on failure nothing changes.
     */
    method HandleSaveTask(store: TaskStore, caller: UserId, formData: Doc)
      requires Valid() && store.Valid()
      modifies this, store
      ensures Valid() && store.Valid() && page == old(page)
      ensures match old(editingTask)
        case Some(e) =>
          && store.nextId == old(store.nextId)
          && store.tasks == (
               if Authorize(old(store.tasks), caller, e.id) == Owned
               then old(store.tasks)[e.id := ApplySet(old(store.tasks)[e.id], ToFields(StripEditPayload(formData)))]
               else old(store.tasks))
          && forall id :: id in store.tasks ==> id in old(store.tasks) && store.tasks[id].user == old(store.tasks)[id].user
        case None =>
          var draft := NewDraft(caller, formData);
          && store.tasks == (
               if ValidNewTask(draft)
               then old(store.tasks)[old(store.nextId) := Materialize(draft, old(store.nextId))]
               else old(store.tasks))
          && store.nextId == old(store.nextId) + (if ValidNewTask(draft) then 1 else 0)
      ensures var saved := match old(editingTask)
          case Some(e) => Authorize(old(store.tasks), caller, e.id) == Owned
          case None => ValidNewTask(NewDraft(caller, formData));
        if saved then
          && editingTask == None && !showForm
          && tasks == pageInfo.docs
          && IsPageOf(pageInfo, store.tasks, caller, page, ClientLimit)
        else
          && editingTask == old(editingTask) && showForm == old(showForm)
          && tasks == old(tasks) && pageInfo == old(pageInfo)
    {
      match editingTask
      case Some(e) =>
        var cleanData := StripEditPayload(formData);
        if e.id in store.tasks {
          EditKeepsOwner(formData, store.tasks[e.id]);
        }
        var r := store.Update(caller, e.id, cleanData);
        if r.Ok? {
          editingTask := None;
          showForm := false;
          FetchTasks(store, caller);
        }
      case None =>
        var r := store.Create(caller, formData);
        if r.Ok? {
          showForm := false;
          FetchTasks(store, caller);
        }
    }

    /** handleDelete: once confirmed, delete the task and reload the page on success. */
    method HandleDelete(store: TaskStore, caller: UserId, id: TaskId, confirmed: bool)
      requires Valid() && store.Valid()
      modifies this, store
      ensures Valid() && store.Valid() && store.nextId == old(store.nextId)
      ensures page == old(page) && editingTask == old(editingTask) && showForm == old(showForm)
      ensures if confirmed && Authorize(old(store.tasks), caller, id) == Owned then
          && store.tasks == old(store.tasks) - {id}
          && tasks == pageInfo.docs
          && IsPageOf(pageInfo, store.tasks, caller, page, ClientLimit)
        else
          && store.tasks == old(store.tasks)
          && tasks == old(tasks) && pageInfo == old(pageInfo)
    {
      if confirmed {
        var r := store.Delete(caller, id);
        if r.Ok? {
          FetchTasks(store, caller);
        }
      }
    }

    /** handleEditClick: open the form on that task. */
    method HandleEditClick(task: Task)
      requires Valid()
      modifies this
      ensures Valid()
      ensures editingTask == Some(task) && showForm
      ensures tasks == old(tasks) && page == old(page) && pageInfo == old(pageInfo)
    {
      editingTask := Some(task);
      showForm := true;
    }

    /** The "Add New Task" button: forget the task being edited and open or close the form. */
    method ToggleForm()
      requires Valid()
      modifies this
      ensures Valid()
      ensures editingTask == None && showForm == !old(showForm)
      ensures tasks == old(tasks) && page == old(page) && pageInfo == old(pageInfo)
    {
      editingTask := None;
      showForm := !showForm;
    }

    /** Prev: enabled only when the last response had a previous page; moving reloads the list. */
    method Prev(store: TaskStore, caller: UserId)
      requires Valid() && store.Valid()
      modifies this
      ensures Valid()
      ensures page == PrevPage(old(page), old(pageInfo.hasPrevPage))
      ensures editingTask == old(editingTask) && showForm == old(showForm)
      ensures if old(pageInfo.hasPrevPage) then
          tasks == pageInfo.docs && IsPageOf(pageInfo, store.tasks, caller, page, ClientLimit)
        else
          tasks == old(tasks) && pageInfo == old(pageInfo)
    {
      if pageInfo.hasPrevPage {
        page := page - 1;
        FetchTasks(store, caller);
      }
    }

    /** Next: enabled only when the last response had a next page; moving reloads the list. */
    method Next(store: TaskStore, caller: UserId)
      requires Valid() && store.Valid()
      modifies this
      ensures Valid()
      ensures page == NextPage(old(page), old(pageInfo.hasNextPage))
      ensures editingTask == old(editingTask) && showForm == old(showForm)
      ensures if old(pageInfo.hasNextPage) then
          tasks == pageInfo.docs && IsPageOf(pageInfo, store.tasks, caller, page, ClientLimit)
        else
          tasks == old(tasks) && pageInfo == old(pageInfo)
    {
      if pageInfo.hasNextPage {
        page := page + 1;
        FetchTasks(store, caller);
      }
    }
  }
}
