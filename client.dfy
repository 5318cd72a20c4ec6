/**
 * The browser controller of public/app.js: the state it keeps (the last fetched `tasks`,
 * `editingTaskId`, the form inputs, the submit button's label and whether the cancel-edit
 * control shows), the handlers that change it, and the requests they send. `fetch` is reduced
 * to the request value a handler emits plus an input saying whether the call resolved;
 * `confirm` is a boolean input; the list a reload fetches is an input.
 */
module Client {
  import opened Wrappers
  import opened Text
  import opened TaskModel
  import opened Paths
  import opened Routing
  import opened Api

  const ApiUrl: string := "/api/tasks"
  const AddLabel: string := "Add Task"
  const UpdateLabel: string := "Update Task"

  /** The request a handler sends, if any. */
  datatype Outgoing = NoRequest | Post(payload: TaskFields) | Put(id: string, payload: TaskFields) | Delete(id: string)

  /** A character the browser sends in a URL path as it is: the unreserved characters of
      section 2.3 of RFC 3986. */
  predicate IsUnreserved(c: char)
  {
    ('a' <= c <= 'z') || ('A' <= c <= 'Z') || ('0' <= c <= '9') || c == '-' || c == '.' || c == '_' || c == '~'
  }

  /** An id that URL resolution leaves alone when the client appends it to the path: not a
      dot segment, and made of unreserved characters only (so no '/', '\\', '#', '?', '%',
      whitespace or non-ASCII). Store ids, 24 hexadecimal digits, are such ids. */
  predicate IsUrlSafeId(id: string)
  {
    && id != [] && id != "." && id != ".."
    && forall i :: 0 <= i < |id| ==> IsUnreserved(id[i])
  }

  /** An id the browser sends unchanged is read back by the server as one segment. */
  lemma UrlSafeIdIsPathId(id: string)
    requires IsUrlSafeId(id)
    ensures IsPathId(id)
  {
    forall i | 0 <= i < |id| ensures id[i] != Slash {
      assert IsUnreserved(id[i]);
    }
  }

  /** The method, URL and JSON body `fetch` is called with. */
  function ToHttp(o: Outgoing): Request
    requires o != NoRequest
  {
    match o
    case Post(payload) => Request("POST", ApiUrl, Some(payload))
    case Put(id, payload) => Request("PUT", ApiUrl + [Slash] + id, Some(payload))
    case Delete(id) => Request("DELETE", ApiUrl + [Slash] + id, None)
  }

  /** The route the server picks for a request the client sends. */
  function Target(o: Outgoing): Route
  {
    match o
    case NoRequest => NoRoute
    case Post(_) => CreateTask
    case Put(id, _) => UpdateTask(id)
    case Delete(id) => DeleteTask(id)
  }

  /** Every request the client builds reaches the operation it means, given an id the server can
      read back from a path. */
  lemma ClientRequestsRoute(o: Outgoing)
    requires o != NoRequest
    requires o.Put? || o.Delete? ==> IsUrlSafeId(o.id)
    ensures RouteOf(ToHttp(o)) == Target(o)
    ensures ToHttp(o).url == UrlOf(Target(o))
  {
    if o.Put? || o.Delete? {
      UrlSafeIdIsPathId(o.id);
    }
    var r := Target(o);
    assert Addressable(r);
    assert PathOf(["tasks"]) == [Slash] + "tasks";
    assert UrlOf(CreateTask) == ApiUrl;
    if o.Put? || o.Delete? {
      var id := o.id;
      assert PathOf([id]) == [Slash] + id + PathOf([]);
      assert ["tasks", id][1..] == [id];
      assert PathOf(["tasks", id]) == [Slash] + "tasks" + ([Slash] + id);
      assert ["api", "tasks", id][1..] == ["tasks", id];
      assert UrlOf(r) == ApiUrl + [Slash] + id;
    }
    RouteRoundTrip(r);
  }

  // ---- updateStats -------------------------------------------------------------------

  /** The three counters the page shows. */
  datatype Counts = Counts(total: int, completed: int, pending: int)

  /** `tasks.filter(task => task.completed)`. */
  function CompletedTasks(tasks: seq<Task>): (r: seq<Task>)
    ensures |r| <= |tasks|
    ensures forall i :: 0 <= i < |r| ==> r[i].completed && r[i] in tasks
  {
    if tasks == [] then []
    else if tasks[0].completed then [tasks[0]] + CompletedTasks(tasks[1..])
    else CompletedTasks(tasks[1..])
  }

  /** The tasks still open, an independent count to check `pending` against. */
  function OpenTasks(tasks: seq<Task>): (r: seq<Task>)
    ensures forall i :: 0 <= i < |r| ==> !r[i].completed
  {
    if tasks == [] then []
    else if tasks[0].completed then OpenTasks(tasks[1..])
    else [tasks[0]] + OpenTasks(tasks[1..])
  }

  /** The filter loses no task: the completed ones and the open ones together are the list. */
  lemma {:induction false} CompletedPartition(tasks: seq<Task>)
    ensures multiset(CompletedTasks(tasks)) + multiset(OpenTasks(tasks)) == multiset(tasks)
  {
    if tasks != [] {
      CompletedPartition(tasks[1..]);
      assert tasks == [tasks[0]] + tasks[1..];
    }
  }

  /** Hence every completed task of the list is counted. */
  lemma CompletedKept(tasks: seq<Task>, t: Task)
    requires t in tasks && t.completed
    ensures t in CompletedTasks(tasks)
  {
    CompletedPartition(tasks);
    assert t in multiset(tasks);
    assert t !in OpenTasks(tasks);
  }

  /** `updateStats`: total is the length, completed the number of completed tasks, and pending
      the difference, so the two parts add up and neither exceeds the total. */
  function Stats(tasks: seq<Task>): (c: Counts)
    ensures c.total == |tasks|
    ensures 0 <= c.completed <= c.total && 0 <= c.pending <= c.total
    ensures c.completed + c.pending == c.total
  {
    var completed := |CompletedTasks(tasks)|;
    Counts(|tasks|, completed, |tasks| - completed)
  }

  /** `pending`, computed as total minus completed, is exactly the number of open tasks. */
  lemma {:induction false} PendingIsOpenCount(tasks: seq<Task>)
    ensures Stats(tasks).pending == |OpenTasks(tasks)|
  {
    if tasks != [] {
      PendingIsOpenCount(tasks[1..]);
    }
  }

  /** Nothing is pending exactly when every task is completed. */
  lemma {:induction false} NonePendingIff(tasks: seq<Task>)
    ensures Stats(tasks).pending == 0 <==> forall i :: 0 <= i < |tasks| ==> tasks[i].completed
  {
    if tasks != [] {
      NonePendingIff(tasks[1..]);
      assert forall i :: 1 <= i < |tasks| ==> tasks[i] == tasks[1..][i - 1];
    }
  }

  /** Nothing is completed exactly when no task is. */
  lemma {:induction false} NoneCompletedIff(tasks: seq<Task>)
    ensures Stats(tasks).completed == 0 <==> forall i :: 0 <= i < |tasks| ==> !tasks[i].completed
  {
    if tasks != [] {
      NoneCompletedIff(tasks[1..]);
      assert forall i :: 1 <= i < |tasks| ==> tasks[i] == tasks[1..][i - 1];
    }
  }

  /** An empty list shows all three counters at 0. */
  lemma EmptyStats()
    ensures Stats([]) == Counts(0, 0, 0)
  {
  }

  // ---- renderTasks -------------------------------------------------------------------

  /** What one list item shows: the title, the description only when it is not empty, the
      checkbox state and the creation time; edit and delete act on `id`. */
  datatype Item = Item(id: string, title: string, description: Option<string>, checked: bool, createdAt: int)

  /** The two shapes of the page: the empty-state placeholder, or the list of items. */
  datatype View = EmptyState | TaskList(items: seq<Item>)

  /** The item template for one task. */
  function ItemOf(t: Task): (it: Item)
    ensures it.id == t.id && it.title == t.title && it.checked == t.completed && it.createdAt == t.createdAt
    ensures it.description.Some? <==> t.description.Some? && t.description.value != ""
    ensures it.description.Some? ==> it.description == t.description
  {
    var shown := if t.description.Some? && t.description.value != "" then t.description else None;
    Item(t.id, t.title, shown, t.completed, t.createdAt)
  }

  /** `renderTasks`: an empty list hides the list and shows the placeholder; otherwise one item
      per task, in list order. */
  function Render(tasks: seq<Task>): (v: View)
    ensures v.EmptyState? <==> tasks == []
    ensures v.TaskList? ==> |v.items| == |tasks| && forall i :: 0 <= i < |tasks| ==> v.items[i] == ItemOf(tasks[i])
  {
    if |tasks| == 0 then EmptyState
    else TaskList(seq(|tasks|, i requires 0 <= i < |tasks| => ItemOf(tasks[i])))
  }

  // ---- lookups and the submit decision -----------------------------------------------

  /** The index `tasks.find(t => t._id === id)` stops at: the first task with that id, or
      `|tasks|` when there is none. */
  function FindIndex(tasks: seq<Task>, id: string): (k: nat)
    ensures k <= |tasks|
    ensures forall j :: 0 <= j < k ==> tasks[j].id != id
    ensures k < |tasks| ==> tasks[k].id == id
  {
    if tasks == [] then 0
    else if tasks[0].id == id then 0
    else 1 + FindIndex(tasks[1..], id)
  }

  /** `tasks.find(t => t._id === id)`. */
  function Find(tasks: seq<Task>, id: string): (r: Option<Task>)
    ensures r.None? <==> forall i :: 0 <= i < |tasks| ==> tasks[i].id != id
    ensures r.Some? ==> r.value.id == id && r.value in tasks
    ensures r.Some? ==> exists k :: 0 <= k < |tasks| && tasks[k] == r.value && forall j :: 0 <= j < k ==> tasks[j].id != id
  {
    var k := FindIndex(tasks, id);
    if k < |tasks| then Some(tasks[k]) else None
  }

  /** JavaScript truthiness of `editingTaskId`: `null` and `''` are false. */
  predicate IsEditing(editing: Option<string>)
  {
    editing.Some? && editing.value != ""
  }

  /** `task.description || ''`. */
  function DescriptionOrEmpty(t: Task): (d: string)
    ensures t.description.Some? ==> d == t.description.value
    ensures t.description.None? ==> d == ""
  {
    if t.description.Some? then t.description.value else ""
  }

  /** The request `handleFormSubmit` sends for the given state: none when the trimmed title is
      empty, otherwise the trimmed `{title, description}` as a PUT to the task being edited or,
      when no edit is in progress, as a POST. */
  function SubmitRequest(editing: Option<string>, titleInput: string, descriptionInput: string): (o: Outgoing)
    ensures o == NoRequest <==> Trim(titleInput) == ""
    ensures o.Put? <==> Trim(titleInput) != "" && IsEditing(editing)
    ensures o.Put? ==> o.id == editing.value
    ensures o != NoRequest ==> !o.Delete? && o.payload == TaskFields(Some(Trim(titleInput)), Some(Trim(descriptionInput)), None)
  {
    var title := Trim(titleInput);
    var description := Trim(descriptionInput);
    if title == "" then NoRequest
    else
      var payload := TaskFields(Some(title), Some(description), None);
      if IsEditing(editing) then Put(editing.value, payload) else Post(payload)
  }

  /** The body `toggleTask` sends: exactly `completed`, negated. */
  function TogglePayload(t: Task): (b: TaskFields)
    ensures b.title.None? && b.description.None? && b.completed == Some(!t.completed)
  {
    TaskFields(None, None, Some(!t.completed))
  }

  // ---- client and server together ----------------------------------------------------

  /** The form's payload always passes the server's title check: when the server is connected
      and the store's new id is free, a submitted create is answered 201 with the trimmed title
      and description, not completed and created now, and it is stored under that id. */
  lemma SubmittedCreateIsStored(editing: Option<string>, titleInput: string, descriptionInput: string,
                                store: map<string, Task>, env: Env, listing: seq<Task>)
    requires ValidStore(store) && env.connected && env.newId !in store
    requires !IsEditing(editing) && Trim(titleInput) != ""
    ensures var t := Task(env.newId, Trim(titleInput), Some(Trim(descriptionInput)), false, env.now);
      Serve(store, ToHttp(SubmitRequest(editing, titleInput, descriptionInput)), env, listing)
        == Outcome(Response(201, OneTask(t)), store[env.newId := t])
  {
    var o := SubmitRequest(editing, titleInput, descriptionInput);
    ClientRequestsRoute(o);
    assert ToHttp(o) == RequestFor(CreateTask, Some(o.payload));
    TrimIdempotent(titleInput);
    TrimIdempotent(descriptionInput);
    CreateStores(store, o.payload, env, listing);
  }

  /** Likewise a submitted edit of a task the server still holds is answered 200: its title
      and description become the trimmed inputs, its `completed`, id and creation time stay,
      and no other task changes. */
  lemma SubmittedEditIsStored(editing: Option<string>, titleInput: string, descriptionInput: string,
                              store: map<string, Task>, env: Env, listing: seq<Task>)
    requires ValidStore(store) && env.connected
    requires IsEditing(editing) && IsUrlSafeId(editing.value) && editing.value in store && Trim(titleInput) != ""
    ensures var id := editing.value;
      var u := store[id].(title := Trim(titleInput), description := Some(Trim(descriptionInput)));
      Serve(store, ToHttp(SubmitRequest(editing, titleInput, descriptionInput)), env, listing)
        == Outcome(Response(200, OneTask(u)), store[id := u])
  {
    var o := SubmitRequest(editing, titleInput, descriptionInput);
    ClientRequestsRoute(o);
    UrlSafeIdIsPathId(o.id);
    assert ToHttp(o) == RequestFor(UpdateTask(o.id), Some(o.payload));
    TrimIdempotent(titleInput);
    TrimIdempotent(descriptionInput);
    UpdateStoresAssigned(store, o.id, o.payload, env, listing);
  }

  /** The toggle body changes exactly `completed`, to its negation. */
  lemma TogglePayloadFlips(t: Task)
    ensures Assign(t, TogglePayload(t)) == t.(completed := !t.completed)
  {
  }

  /** Toggling twice restores the task. */
  lemma ToggleTwiceRestores(t: Task)
    ensures var u := Assign(t, TogglePayload(t)); Assign(u, TogglePayload(u)) == t
  {
    TogglePayloadFlips(t);
    TogglePayloadFlips(Assign(t, TogglePayload(t)));
  }

  /** Toggling a task that the server still holds sets its stored `completed` to the negation
      of the client's copy, which flips it when that copy is current; its other fields, and
      every other task, stay. */
  lemma ToggleFlipsStoredTask(t: Task, store: map<string, Task>, env: Env, listing: seq<Task>)
    requires ValidStore(store) && env.connected && IsUrlSafeId(t.id) && t.id in store
    ensures var o := Serve(store, ToHttp(Put(t.id, TogglePayload(t))), env, listing);
      && o.response.status == 200
      && o.store == store[t.id := store[t.id].(completed := !t.completed)]
  {
    var o := Put(t.id, TogglePayload(t));
    ClientRequestsRoute(o);
    UrlSafeIdIsPathId(t.id);
    assert ToHttp(o) == RequestFor(UpdateTask(t.id), Some(o.payload));
    UpdateStoresAssigned(store, t.id, o.payload, env, listing);
  }

  /** Saving an edit without touching the form leaves a stored task as it was, except that an
      absent description is saved as the empty string (`task.description || ''`). */
  lemma UnchangedEditKeepsTask(t: Task)
    requires Persistable(t) && t.id != ""
    ensures var o := SubmitRequest(Some(t.id), t.title, DescriptionOrEmpty(t));
      && o.Put? && o.id == t.id
      && Assign(t, o.payload) == t.(description := Some(DescriptionOrEmpty(t)))
  {
    TrimOfTrimmed(t.title);
    TrimOfTrimmed(DescriptionOrEmpty(t));
  }

  /** The list items tell tasks apart, except for an absent and an empty description, which
      both show no description. */
  lemma ItemsTellTasksApart(t1: Task, t2: Task)
    ensures ItemOf(t1) == ItemOf(t2) <==>
      && t1.(description := None) == t2.(description := None)
      && (t1.description == t2.description || DescriptionOrEmpty(t1) == DescriptionOrEmpty(t2) == "")
  {
  }

  // ---- the controller ------------------------------------------------------------------

  class Controller {
    var tasks: seq<Task>
    var editingTaskId: Option<string>
    var titleInput: string
    var descriptionInput: string
    var buttonLabel: string
    var cancelVisible: bool

    /** No edit in progress: empty form, "Add Task" label, cancel control hidden. */
    predicate Idle()
      reads this
    {
      && editingTaskId == None
      && titleInput == ""
      && descriptionInput == ""
      && buttonLabel == AddLabel
      && !cancelVisible
    }

    /** The page as loaded, before the first fetch completes. */
    constructor ()
      ensures tasks == [] && Idle()
    {
      tasks := [];
      editingTaskId := None;
      titleInput, descriptionInput := "", "";
      buttonLabel := AddLabel;
      cancelVisible := false;
    }

    /** `loadTasks`: a fetched list replaces the held one (and is re-rendered); a failed load
        keeps the old list. */
    method LoadTasks(fetched: Option<seq<Task>>) returns (loaded: bool)
      modifies this`tasks
      ensures loaded == fetched.Some?
      ensures tasks == if loaded then fetched.value else old(tasks)
    {
      loaded := fetched.Some?;
      if loaded {
        tasks := fetched.value;
      }
    }

    /** `cancelEdit`: always ends idle, and on an idle state changes nothing, so a second
        call has no further effect. */
    method CancelEdit()
      modifies this`editingTaskId, this`titleInput, this`descriptionInput, this`buttonLabel, this`cancelVisible
      ensures Idle()
      ensures old(Idle()) ==> unchanged(this)
    {
      editingTaskId := None;
      titleInput, descriptionInput := "", "";
      buttonLabel := AddLabel;
      cancelVisible := false;
    }

    /** `editTask`: a known id enters edit mode with the task's title and description (or '')
        in the form; an unknown id changes nothing. */
    method EditTask(id: string)
      modifies this`editingTaskId, this`titleInput, this`descriptionInput, this`buttonLabel, this`cancelVisible
      ensures Find(tasks, id).None? ==> unchanged(this)
      ensures Find(tasks, id).Some? ==>
        var t := Find(tasks, id).value;
        && editingTaskId == Some(id)
        && titleInput == t.title
        && descriptionInput == DescriptionOrEmpty(t)
        && buttonLabel == UpdateLabel
        && cancelVisible
    {
      var task := Find(tasks, id);
      if task.None? {
        return;
      }
      editingTaskId := Some(id);
      titleInput := task.value.title;
      descriptionInput := DescriptionOrEmpty(task.value);
      buttonLabel := UpdateLabel;
      cancelVisible := true;
    }

    /** `handleFormSubmit`: sends `SubmitRequest` of the current state. When the call resolves
        (`delivered`) the form is reset, edit mode ends and the list is reloaded; a blank title
        or a rejected call leaves everything as it was. */
    method HandleFormSubmit(delivered: bool, fetched: Option<seq<Task>>) returns (sent: Outgoing, saved: bool)
      modifies this
      ensures sent == SubmitRequest(old(editingTaskId), old(titleInput), old(descriptionInput))
      ensures saved == (sent != NoRequest && delivered)
      ensures saved ==> Idle() && tasks == (if fetched.Some? then fetched.value else old(tasks))
      ensures !saved ==> unchanged(this)
    {
      sent := SubmitRequest(editingTaskId, titleInput, descriptionInput);
      saved := sent != NoRequest && delivered;
      if saved {
        titleInput, descriptionInput := "", "";
        CancelEdit();
        var _ := LoadTasks(fetched);
      }
    }

    /** `toggleTask`: for a held task, a PUT of the negated `completed` to its id, then a
        reload once the call resolves; for an unknown id `task.completed` throws before any
        request and nothing changes. */
    method ToggleTask(id: string, delivered: bool, fetched: Option<seq<Task>>) returns (sent: Outgoing, saved: bool)
      modifies this`tasks
      ensures sent ==
        if Find(old(tasks), id).None? then NoRequest else Put(id, TogglePayload(Find(old(tasks), id).value))
      ensures saved == (sent != NoRequest && delivered)
      ensures tasks == if saved && fetched.Some? then fetched.value else old(tasks)
    {
      var task := Find(tasks, id);
      if task.None? {
        return NoRequest, false;
      }
      sent := Put(id, TogglePayload(task.value));
      saved := delivered;
      if saved {
        var _ := LoadTasks(fetched);
      }
    }

    /** `deleteTask`: nothing is sent unless the user confirms; then a DELETE of the id and a
        reload once the call resolves. */
    method DeleteTask(id: string, confirmed: bool, delivered: bool, fetched: Option<seq<Task>>) returns (sent: Outgoing, saved: bool)
      modifies this`tasks
      ensures sent == if confirmed then Delete(id) else NoRequest
      ensures saved == (confirmed && delivered)
      ensures tasks == if saved && fetched.Some? then fetched.value else old(tasks)
    {
      if !confirmed {
        return NoRequest, false;
      }
      sent := Delete(id);
      saved := delivered;
      if saved {
        var _ := LoadTasks(fetched);
      }
    }
  }
}
