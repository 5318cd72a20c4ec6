/**
 * The Task entity as the schema in api/index.js defines it, and the two schema-level operations
 * the handler performs on it: building a new document (defaults, trimming, the `required`
 * title check on save) and assigning the fields of a partial update.
 */
module TaskModel {
  import opened Wrappers
  import opened Text

  /** A stored task document. `id` is the store-assigned `_id`; `description` is absent
      (`undefined`) when the creator gave none; `createdAt` is a clock reading. */
  datatype Task = Task(id: string, title: string, description: Option<string>, completed: bool, createdAt: int)

  /** The fields of a request body the handler reads; `None` is a field that is `undefined`. */
  datatype TaskFields = TaskFields(title: Option<string>, description: Option<string>, completed: Option<bool>)

  /** What a saved task satisfies: the title was trimmed and passed the `required` check,
      and a present description was trimmed. */
  predicate Persistable(t: Task)
  {
    && t.title != ""
    && IsTrimmed(t.title)
    && (t.description.Some? ==> IsTrimmed(t.description.value))
  }

  /** The `trim: true` setter applied to an optional string field. */
  function TrimField(f: Option<string>): (r: Option<string>)
    ensures r.Some? <==> f.Some?
    ensures r.Some? ==> IsTrimmed(r.value)
    ensures f.Some? ==> r.value == Trim(f.value)
  {
    match f
    case None => None
    case Some(s) => TrimShape(s); Some(Trim(s))
  }

  /** `new Task({title, description})` followed by `save()`: the setters trim both strings,
      `completed` and `createdAt` take their defaults, and validation rejects (None) a title
      that is absent or empty after trimming. */
  function NewTask(id: string, title: Option<string>, description: Option<string>, now: int): (r: Option<Task>)
    ensures r.Some? <==> title.Some? && Trim(title.value) != ""
    ensures r.Some? ==> && r.value.id == id
                        && r.value.title == Trim(title.value)
                        && r.value.description == TrimField(description)
                        && !r.value.completed
                        && r.value.createdAt == now
                        && Persistable(r.value)
  {
    match title
    case None => None
    case Some(s) =>
      if Trim(s) == "" then None
      else
        TrimShape(s);
        Some(Task(id, Trim(s), TrimField(description), false, now))
  }

  /** The three guarded assignments of the update branch: each field present in `body`
      replaces the task's field (through the trimming setter for strings); every other
      field, notably `id` and `createdAt`, stays. */
  function Assign(t: Task, body: TaskFields): Task
  {
    var title := if body.title.Some? then Trim(body.title.value) else t.title;
    var description := if body.description.Some? then TrimField(body.description) else t.description;
    var completed := if body.completed.Some? then body.completed.value else t.completed;
    t.(title := title, description := description, completed := completed)
  }

  /** `task.save()` after `Assign`: validation fails (None) when the title ends up empty. */
  function Update(t: Task, body: TaskFields): (r: Option<Task>)
    requires Persistable(t)
    ensures r.Some? <==> body.title.None? || Trim(body.title.value) != ""
    ensures r.Some? ==> r.value == Assign(t, body) && Persistable(r.value)
  {
    var u := Assign(t, body);
    if u.title == "" then None
    else if body.title.Some? then
      TrimShape(body.title.value);
      Some(u)
    else Some(u)
  }

  /** Only the fields present in the body change, each to its (trimmed) new value. */
  lemma AssignOnlyPresentFields(t: Task, body: TaskFields)
    ensures var u := Assign(t, body);
      && u.id == t.id
      && u.createdAt == t.createdAt
      && (if body.title.Some? then u.title == Trim(body.title.value) else u.title == t.title)
      && (if body.description.Some? then u.description == Some(Trim(body.description.value))
          else u.description == t.description)
      && (if body.completed.Some? then u.completed == body.completed.value else u.completed == t.completed)
  {
  }

  /** An update whose body holds no field leaves the task exactly as it was. */
  lemma EmptyUpdateIsIdentity(t: Task)
    requires Persistable(t)
    ensures Update(t, TaskFields(None, None, None)) == Some(t)
  {
  }
}
