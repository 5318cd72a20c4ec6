/**
 * The serverless request handler of api/index.js over an in-memory task store.
 *
 * `Serve` states what one request does: the response and the store afterwards. The class
 * `TaskStore` holds the store as a map from id to task and its `Handle` method performs the
 * same steps as the handler (load, assign, save, delete) and is proved to agree with `Serve`.
 * The database connection is reduced to `Env.connected`, the clock to `Env.now` and the
 * store's id generator to `Env.newId`.
 */
module Api {
  import opened Wrappers
  import opened Text
  import opened TaskModel
  import opened Paths
  import opened Routing

  /** What the handler reads from a request: `req.method`, `req.url` and `req.body`
      (`None` when the body is `null`, so that reading a field of it throws). */
  datatype Request = Request(verb: string, url: string, body: Option<TaskFields>)

  /** Inputs from outside the handler: whether `connectToDatabase` succeeds, the clock
      `Date.now` reads at creation, and the id the store would assign to a new task. */
  datatype Env = Env(connected: bool, now: int, newId: string)

  /** Response bodies: none (preflight), the JSON array of tasks, one task, a `{message}`,
      or the `{message, error}` object of the catch block. */
  datatype Body = NoBody | TaskArray(tasks: seq<Task>) | OneTask(task: Task) | Message(text: string) | ServerError

  datatype Response = Response(status: int, body: Body)

  /** The response to a request together with the store after it. */
  datatype Outcome = Outcome(response: Response, store: map<string, Task>)

  const TaskNotFound: string := "Task not found"
  const RouteNotFound: string := "Route not found"
  const TaskDeleted: string := "Task deleted successfully"

  /** The statuses the handler answers with. */
  const Statuses: set<int> := {200, 201, 404, 500}

  /** Every stored task is filed under its own id and passed validation when saved. */
  ghost predicate ValidStore(store: map<string, Task>)
  {
    forall id :: id in store ==> store[id].id == id && Persistable(store[id])
  }

  /** `l` is what `Task.find().sort({ createdAt: -1 })` returns for `store`: every stored
      task exactly once, newest first (tasks created at the same instant in any order). */
  ghost predicate IsOrderedListing(l: seq<Task>, store: map<string, Task>)
  {
    && |l| == |store|
    && (forall i :: 0 <= i < |l| ==> l[i].id in store && store[l[i].id] == l[i])
    && (forall i, j :: 0 <= i < j < |l| ==> l[i].id != l[j].id)
    && (forall id :: id in store ==> store[id] in l)
    && (forall i, j :: 0 <= i < j < |l| ==> l[i].createdAt >= l[j].createdAt)
  }

  lemma StoreWithTask(store: map<string, Task>, t: Task)
    requires ValidStore(store) && Persistable(t)
    ensures ValidStore(store[t.id := t])
  {
  }

  lemma StoreWithout(store: map<string, Task>, id: string)
    requires ValidStore(store)
    ensures ValidStore(store - {id})
  {
  }

  /** The route of a request: its method and `url.split('/').filter(Boolean)`. */
  function RouteOf(req: Request): Route
  {
    Classify(req.verb, Segments(req.url))
  }

  function Failed(store: map<string, Task>): Outcome
  {
    Outcome(Response(500, ServerError), store)
  }

  /** GET /api/tasks/:id. */
  function ServeGet(store: map<string, Task>, id: string): (o: Outcome)
    ensures o.store == store
    ensures id in store ==> o.response == Response(200, OneTask(store[id]))
    ensures id !in store ==> o.response == Response(404, Message(TaskNotFound))
  {
    if id !in store then Outcome(Response(404, Message(TaskNotFound)), store)
    else Outcome(Response(200, OneTask(store[id])), store)
  }

  /** POST /api/tasks: reading a field of a null body throws, validation errors and a taken id
      fail the save; all three reach the catch block. */
  function ServeCreate(store: map<string, Task>, body: Option<TaskFields>, env: Env): (o: Outcome)
    requires ValidStore(store)
    ensures ValidStore(o.store)
    ensures o.response.status in {201, 500}
    ensures o.response.status == 500 ==> o.store == store
  {
    if body.None? then Failed(store)
    else
      match NewTask(env.newId, body.value.title, body.value.description, env.now)
      case None => Failed(store)
      case Some(t) =>
        if t.id in store then Failed(store)
        else
          StoreWithTask(store, t);
          Outcome(Response(201, OneTask(t)), store[t.id := t])
  }

  /** PUT /api/tasks/:id: the task is loaded first (404 when absent), then the body is read,
      the present fields are assigned and the task is saved. */
  function ServeUpdate(store: map<string, Task>, id: string, body: Option<TaskFields>): (o: Outcome)
    requires ValidStore(store)
    ensures ValidStore(o.store)
    ensures o.response.status in {200, 404, 500}
    ensures o.response.status != 200 ==> o.store == store
  {
    if id !in store then Outcome(Response(404, Message(TaskNotFound)), store)
    else if body.None? then Failed(store)
    else
      match Update(store[id], body.value)
      case None => Failed(store)
      case Some(u) =>
        StoreWithTask(store, u);
        Outcome(Response(200, OneTask(u)), store[id := u])
  }

  /** DELETE /api/tasks/:id. */
  function ServeDelete(store: map<string, Task>, id: string): (o: Outcome)
    requires ValidStore(store)
    ensures ValidStore(o.store)
    ensures o.response.status == (if id in store then 200 else 404)
    ensures o.store == store - {id}
  {
    if id !in store then Outcome(Response(404, Message(TaskNotFound)), store)
    else
      StoreWithout(store, id);
      Outcome(Response(200, Message(TaskDeleted)), store - {id})
  }

  /** The route table's branches, once the connection is up. */
  function Dispatch(store: map<string, Task>, route: Route, body: Option<TaskFields>, env: Env, listing: seq<Task>): (o: Outcome)
    requires ValidStore(store)
    ensures ValidStore(o.store)
    ensures o.response.status in Statuses
    ensures o.store != store ==> o.response.status in {200, 201}
  {
    match route
    case ListTasks => Outcome(Response(200, TaskArray(listing)), store)
    case GetTask(id) => ServeGet(store, id)
    case CreateTask => ServeCreate(store, body, env)
    case UpdateTask(id) => ServeUpdate(store, id, body)
    case DeleteTask(id) => ServeDelete(store, id)
    case NoRoute => Outcome(Response(404, Message(RouteNotFound)), store)
  }

  /** One request: the preflight short cut, the connection, then the route table.
      `listing` stands for the database's answer to the sorted find; `TaskStore.List`
      shows how one is produced. Validation errors and a duplicate id reach the catch
      block and are answered 500. */
  function Serve(store: map<string, Task>, req: Request, env: Env, listing: seq<Task>): (o: Outcome)
    requires ValidStore(store)
    ensures ValidStore(o.store)
    ensures o.response.status in Statuses
    ensures o.store != store ==> o.response.status in {200, 201}
  {
    if req.verb == "OPTIONS" then Outcome(Response(200, NoBody), store)
    else if !env.connected then Failed(store)
    else Dispatch(store, RouteOf(req), req.body, env, listing)
  }

  /** The request a client sends to reach route `r`. */
  function RequestFor(r: Route, body: Option<TaskFields>): Request
    requires r != NoRoute
  {
    Request(MethodOf(r), UrlOf(r), body)
  }

  /** A preflight request, on any path, is answered 200 with no body and touches nothing,
      whether or not the database is reachable. */
  lemma Preflight(store: map<string, Task>, url: string, body: Option<TaskFields>, env: Env, listing: seq<Task>)
    requires ValidStore(store)
    ensures Serve(store, Request("OPTIONS", url, body), env, listing) == Outcome(Response(200, NoBody), store)
  {
  }

  /** Without a database connection every other request is answered 500, store untouched. */
  lemma Unconnected(store: map<string, Task>, req: Request, env: Env, listing: seq<Task>)
    requires ValidStore(store) && req.verb != "OPTIONS" && !env.connected
    ensures Serve(store, req, env, listing) == Failed(store)
  {
  }

  /** A method and path outside the route table gets 404 "Route not found" and leaves the store
      untouched; `ClassifyIff` says which requests these are. */
  lemma UnknownRoute(store: map<string, Task>, req: Request, env: Env, listing: seq<Task>)
    requires ValidStore(store) && req.verb != "OPTIONS" && env.connected
    requires RouteOf(req) == NoRoute
    ensures Serve(store, req, env, listing) == Outcome(Response(404, Message(RouteNotFound)), store)
  {
  }

  /** GET, PUT or DELETE of an id that is not stored gets 404 "Task not found", whatever the
      body, and leaves the store untouched. */
  lemma MissingTask(store: map<string, Task>, req: Request, env: Env, listing: seq<Task>)
    requires ValidStore(store) && req.verb != "OPTIONS" && env.connected
    requires var r := RouteOf(req); (r.GetTask? || r.UpdateTask? || r.DeleteTask?) && r.id !in store
    ensures Serve(store, req, env, listing) == Outcome(Response(404, Message(TaskNotFound)), store)
  {
  }

  /** `/api/tasks`, `/api/tasks/` and `//api//tasks` all reach the list. */
  lemma SlashVariantsList(body: Option<TaskFields>)
    ensures RouteOf(Request("GET", "/api/tasks", body)) == ListTasks
    ensures RouteOf(Request("GET", "/api/tasks/", body)) == ListTasks
    ensures RouteOf(Request("GET", "//api//tasks", body)) == ListTasks
  {
    ExampleListPath();
    ExampleTrailingSlash();
    ExampleDoubledSlashes();
  }

  /** A query string is not split off the path, so `/api/tasks?x=1` matches no route. */
  lemma QueryStringNotRouted(store: map<string, Task>, body: Option<TaskFields>, env: Env, listing: seq<Task>)
    requires ValidStore(store) && env.connected
    ensures Serve(store, Request("GET", "/api/tasks?x=1", body), env, listing)
      == Outcome(Response(404, Message(RouteNotFound)), store)
  {
    var req := Request("GET", "/api/tasks?x=1", body);
    ExampleQueryString();
    assert Segments(req.url) == ["api", "tasks?x=1"];
    assert "tasks?x=1" != "tasks";
    assert RouteOf(req) == NoRoute;
    UnknownRoute(store, req, env, listing);
  }

  /** The list route answers 200 with the database's listing and changes nothing. */
  lemma ListAnswersListing(store: map<string, Task>, req: Request, env: Env, listing: seq<Task>)
    requires ValidStore(store) && req.verb != "OPTIONS" && env.connected
    requires RouteOf(req) == ListTasks
    ensures Serve(store, req, env, listing) == Outcome(Response(200, TaskArray(listing)), store)
  {
  }

  /** A successful update answers 200 with the updated task and stores it in place of the old
      one; no other task changes. Which fields of it change is `AssignOnlyPresentFields`. */
  lemma UpdateStoresAssigned(store: map<string, Task>, id: string, body: TaskFields, env: Env, listing: seq<Task>)
    requires ValidStore(store) && env.connected && IsPathId(id) && id in store
    requires body.title.None? || Trim(body.title.value) != ""
    ensures var u := Assign(store[id], body);
      Serve(store, RequestFor(UpdateTask(id), Some(body)), env, listing) == Outcome(Response(200, OneTask(u)), store[id := u])
  {
    RouteRoundTrip(UpdateTask(id));
  }

  /** An update that would leave the title blank is rejected with 500 and stores nothing. */
  lemma UpdateRejectsBlankTitle(store: map<string, Task>, id: string, body: TaskFields, env: Env, listing: seq<Task>)
    requires ValidStore(store) && env.connected && IsPathId(id) && id in store
    requires body.title.Some? && Trim(body.title.value) == ""
    ensures Serve(store, RequestFor(UpdateTask(id), Some(body)), env, listing) == Failed(store)
  {
    RouteRoundTrip(UpdateTask(id));
  }

  /** A GET of any stored id answers 200 with the stored task and changes nothing. */
  lemma GetAnswersStored(store: map<string, Task>, id: string, env: Env, listing: seq<Task>)
    requires ValidStore(store) && env.connected && IsPathId(id) && id in store
    ensures Serve(store, RequestFor(GetTask(id), None), env, listing) == Outcome(Response(200, OneTask(store[id])), store)
  {
    RouteRoundTrip(GetTask(id));
  }

  /** Deleting a stored task answers 200 "Task deleted successfully" and removes exactly that
      task; a later GET of the same id is 404 "Task not found". */
  lemma DeleteThenGet(store: map<string, Task>, id: string, env: Env, l1: seq<Task>, l2: seq<Task>)
    requires ValidStore(store) && env.connected && IsPathId(id) && id in store
    ensures var o := Serve(store, RequestFor(DeleteTask(id), None), env, l1);
      && o.response == Response(200, Message(TaskDeleted))
      && o.store == store - {id}
      && Serve(o.store, RequestFor(GetTask(id), None), env, l2).response == Response(404, Message(TaskNotFound))
  {
    RouteRoundTrip(DeleteTask(id));
    RouteRoundTrip(GetTask(id));
  }

  /** Creating with a title that is not blank, under an id the store does not hold, answers 201
      with the new task and stores it under that id. */
  lemma CreateStores(store: map<string, Task>, body: TaskFields, env: Env, listing: seq<Task>)
    requires ValidStore(store) && env.connected && env.newId !in store
    requires body.title.Some? && Trim(body.title.value) != ""
    ensures var t := Task(env.newId, Trim(body.title.value), TrimField(body.description), false, env.now);
      Serve(store, RequestFor(CreateTask, Some(body)), env, listing) == Outcome(Response(201, OneTask(t)), store[env.newId := t])
  {
    RouteRoundTrip(CreateTask);
  }

  /** Creating with a title that is not blank answers 201 with a task that has the store's new
      id, the trimmed title and description, `completed = false` and `createdAt = now`; a GET of
      its id then returns the same task. */
  lemma CreateThenGet(store: map<string, Task>, body: TaskFields, env: Env, l1: seq<Task>, l2: seq<Task>)
    requires ValidStore(store) && env.connected && IsPathId(env.newId) && env.newId !in store
    requires body.title.Some? && Trim(body.title.value) != ""
    ensures var o := Serve(store, RequestFor(CreateTask, Some(body)), env, l1);
      && o.response.status == 201 && o.response.body.OneTask?
      && var t := o.response.body.task;
      && t == Task(env.newId, Trim(body.title.value), TrimField(body.description), false, env.now)
      && o.store == store[env.newId := t]
      && Serve(o.store, RequestFor(GetTask(env.newId), None), env, l2).response == Response(200, OneTask(t))
  {
    CreateStores(store, body, env, l1);
    RouteRoundTrip(GetTask(env.newId));
  }

  /** Creating without a title, or with one that is blank after trimming, is answered 500
      (the validation error reaches the catch block) and stores nothing. */
  lemma CreateRejectsBlankTitle(store: map<string, Task>, body: TaskFields, env: Env, listing: seq<Task>)
    requires ValidStore(store) && env.connected
    requires body.title.None? || Trim(body.title.value) == ""
    ensures Serve(store, RequestFor(CreateTask, Some(body)), env, listing) == Failed(store)
  {
    RouteRoundTrip(CreateTask);
  }

  /** `completed` in the request body is ignored on creation, so a new task is never created
      completed; the id and `createdAt` come from the store's new id and the clock. */
  lemma CreateIgnoresCompleted(store: map<string, Task>, req: Request, env: Env, listing: seq<Task>)
    requires ValidStore(store) && req.verb != "OPTIONS" && env.connected
    requires RouteOf(req) == CreateTask
    ensures var o := Serve(store, req, env, listing);
      o.response.status == 201 ==>
        && o.response.body.OneTask?
        && !o.response.body.task.completed
        && o.response.body.task.createdAt == env.now
        && o.response.body.task.id == env.newId
  {
  }

  /** The in-memory stand-in for the Task collection. */
  class TaskStore {
    var tasks: map<string, Task>

    ghost predicate Valid()
      reads this
    {
      ValidStore(tasks)
    }

    constructor ()
      ensures Valid() && tasks == map[]
    {
      tasks := map[];
    }

    /** `Task.findById(id)`: the stored task, or nothing. */
    method FindById(id: string) returns (t: Option<Task>)
      ensures t.Some? <==> id in tasks
      ensures t.Some? ==> t.value == tasks[id]
      ensures Valid() && t.Some? ==> t.value.id == id
    {
      t := if id in tasks then Some(tasks[id]) else None;
    }

    /** `Task.find().sort({ createdAt: -1 })`: each stored task is inserted in front of the
        first listed one that is not newer. */
    method List() returns (l: seq<Task>)
      requires Valid()
      ensures IsOrderedListing(l, tasks)
    {
      l := [];
      var rest := tasks.Keys;
      while rest != {}
        invariant PartialListing(l, tasks, rest)
        decreases |rest|
      {
        var id :| id in rest;
        var t := tasks[id];
        var p := 0;
        while p < |l| && l[p].createdAt > t.createdAt
          invariant 0 <= p <= |l|
          invariant forall i :: 0 <= i < p ==> l[i].createdAt > t.createdAt
        {
          p := p + 1;
        }
        ListingStep(l, tasks, rest, id, p);
        l, rest := l[..p] + [t] + l[p..], rest - {id};
      }
    }

    /** `save()` of a new document: refused when its id is taken (duplicate key). */
    method Insert(t: Task) returns (ok: bool)
      requires Valid() && Persistable(t)
      modifies this
      ensures Valid()
      ensures ok == (t.id !in old(tasks))
      ensures tasks == if ok then old(tasks)[t.id := t] else old(tasks)
    {
      ok := t.id !in tasks;
      if ok {
        tasks := tasks[t.id := t];
      }
    }

    /** `save()` of a loaded document after assignment. */
    method Replace(t: Task)
      requires Valid() && Persistable(t) && t.id in tasks
      modifies this
      ensures Valid()
      ensures tasks == old(tasks)[t.id := t]
    {
      tasks := tasks[t.id := t];
    }

    /** `task.deleteOne()`. */
    method DeleteOne(id: string)
      requires Valid()
      modifies this
      ensures Valid()
      ensures tasks == old(tasks) - {id}
    {
      tasks := tasks - {id};
    }

    /** The exported handler. Its response and the new store are those `Serve` gives for the
        listing this store produced, and that listing is ordered as the sort asks. */
    method Handle(req: Request, env: Env) returns (resp: Response)
      requires Valid()
      modifies this
      ensures Valid()
      ensures Outcome(resp, tasks) == Serve(old(tasks), req, env, Listed(resp))
      ensures req.verb != "OPTIONS" && env.connected && RouteOf(req) == ListTasks ==>
        resp.body.TaskArray? && IsOrderedListing(resp.body.tasks, old(tasks))
    {
      if req.verb == "OPTIONS" {
        return Response(200, NoBody);
      }
      if !env.connected {
        return Response(500, ServerError);
      }
      var route := Classify(req.verb, Segments(req.url));
      match route {
        case ListTasks =>
          var l := List();
          resp := Response(200, TaskArray(l));
        case GetTask(id) =>
          var found := FindById(id);
          if found.None? {
            resp := Response(404, Message(TaskNotFound));
          } else {
            resp := Response(200, OneTask(found.value));
          }
        case CreateTask =>
          if req.body.None? {
            resp := Response(500, ServerError);
          } else {
            var t := NewTask(env.newId, req.body.value.title, req.body.value.description, env.now);
            if t.None? {
              resp := Response(500, ServerError);
            } else {
              var ok := Insert(t.value);
              resp := if ok then Response(201, OneTask(t.value)) else Response(500, ServerError);
            }
          }
        case UpdateTask(id) =>
          var found := FindById(id);
          if found.None? {
            resp := Response(404, Message(TaskNotFound));
          } else if req.body.None? {
            resp := Response(500, ServerError);
          } else {
            var u := Update(found.value, req.body.value);
            if u.None? {
              resp := Response(500, ServerError);
            } else {
              Replace(u.value);
              resp := Response(200, OneTask(u.value));
            }
          }
        case DeleteTask(id) =>
          var found := FindById(id);
          if found.None? {
            resp := Response(404, Message(TaskNotFound));
          } else {
            DeleteOne(id);
            resp := Response(200, Message(TaskDeleted));
          }
        case NoRoute =>
          resp := Response(404, Message(RouteNotFound));
      }
    }
  }

  /** The tasks of a list response. */
  function Listed(resp: Response): seq<Task>
  {
    if resp.body.TaskArray? then resp.body.tasks else []
  }

  /** The listing loop's invariant: `l` lists, newest first and each once, the stored tasks
      whose ids are no longer in `rest`. */
  ghost predicate PartialListing(l: seq<Task>, store: map<string, Task>, rest: set<string>)
  {
    && rest <= store.Keys
    && |l| + |rest| == |store|
    && (forall i :: 0 <= i < |l| ==> l[i].id in store && store[l[i].id] == l[i] && l[i].id !in rest)
    && (forall i, j :: 0 <= i < j < |l| ==> l[i].id != l[j].id)
    && (forall id :: id in store && id !in rest ==> store[id] in l)
    && (forall i, j :: 0 <= i < j < |l| ==> l[i].createdAt >= l[j].createdAt)
  }

  /** Moving one id from `rest` into the listing, at the position the scan found. */
  lemma ListingStep(l: seq<Task>, store: map<string, Task>, rest: set<string>, id: string, p: nat)
    requires ValidStore(store) && PartialListing(l, store, rest) && id in rest
    requires p <= |l|
    requires forall i :: 0 <= i < p ==> l[i].createdAt > store[id].createdAt
    requires p < |l| ==> l[p].createdAt <= store[id].createdAt
    ensures PartialListing(l[..p] + [store[id]] + l[p..], store, rest - {id})
  {
    var t := store[id];
    var l', rest' := l[..p] + [t] + l[p..], rest - {id};
    InsertAt(l, p, t);
    StepListsStored(l, store, rest, id, p);
    StepKeepsIdsDistinct(l, store, rest, id, p);
    StepCoversDone(l, store, rest, id, p);
    assert rest' <= store.Keys;
    assert |l'| + |rest'| == |store| by {
      assert |rest'| == |rest| - 1;
    }
  }

  lemma StepListsStored(l: seq<Task>, store: map<string, Task>, rest: set<string>, id: string, p: nat)
    requires id in store && store[id].id == id && p <= |l|
    requires forall i :: 0 <= i < |l| ==> l[i].id in store && store[l[i].id] == l[i] && l[i].id !in rest
    ensures var l' := l[..p] + [store[id]] + l[p..];
      forall i :: 0 <= i < |l'| ==> l'[i].id in store && store[l'[i].id] == l'[i] && l'[i].id !in rest - {id}
  {
    var l' := l[..p] + [store[id]] + l[p..];
    forall i | 0 <= i < |l'|
      ensures l'[i].id in store && store[l'[i].id] == l'[i] && l'[i].id !in rest - {id}
    {
      if i < p { assert l'[i] == l[i]; } else if i > p { assert l'[i] == l[p..][i - p - 1]; }
    }
  }

  lemma StepKeepsIdsDistinct(l: seq<Task>, store: map<string, Task>, rest: set<string>, id: string, p: nat)
    requires id in store && store[id].id == id && id in rest && p <= |l|
    requires forall i :: 0 <= i < |l| ==> l[i].id !in rest
    requires forall i, j :: 0 <= i < j < |l| ==> l[i].id != l[j].id
    ensures var l' := l[..p] + [store[id]] + l[p..];
      forall i, j :: 0 <= i < j < |l'| ==> l'[i].id != l'[j].id
  {
    var l' := l[..p] + [store[id]] + l[p..];
    assert forall i :: 0 <= i < p ==> l'[i] == l[i];
    assert forall i :: p < i < |l'| ==> l'[i] == l[p..][i - p - 1] == l[i - 1];
  }

  lemma StepCoversDone(l: seq<Task>, store: map<string, Task>, rest: set<string>, id: string, p: nat)
    requires id in store && p <= |l|
    requires forall k :: k in store && k !in rest ==> store[k] in l
    ensures var l' := l[..p] + [store[id]] + l[p..];
      forall k :: k in store && k !in rest - {id} ==> store[k] in l'
  {
    assert l == l[..p] + l[p..];
  }

  /** Inserting `t` at the first position whose task is not newer keeps a listing sorted with
      newest first, and shifts the tail by one. */
  lemma InsertAt(l: seq<Task>, p: nat, t: Task)
    requires p <= |l|
    requires forall i, j :: 0 <= i < j < |l| ==> l[i].createdAt >= l[j].createdAt
    requires forall i :: 0 <= i < p ==> l[i].createdAt > t.createdAt
    requires p < |l| ==> l[p].createdAt <= t.createdAt
    ensures var r := l[..p] + [t] + l[p..];
      && |r| == |l| + 1
      && r[p] == t
      && (forall i :: 0 <= i < p ==> r[i] == l[i])
      && (forall i :: p < i < |r| ==> r[i] == l[i - 1])
      && (forall i, j :: 0 <= i < j < |r| ==> r[i].createdAt >= r[j].createdAt)
  {
    var r := l[..p] + [t] + l[p..];
    forall i | p < i < |r| ensures r[i] == l[i - 1] {
      assert r[i] == l[p..][i - p - 1];
    }
  }
}
