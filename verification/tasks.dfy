/** The task record, the collection that holds task records, and the two
    ways a record is built from a request body: creation with defaults and
    partial update by patch. */
module Tasks {
  import opened Options
  import opened ObjectIds

  /** The authenticated caller's identifier, as the `auth` middleware sets
      `req.user.id`. */
  type UserId = string

  /** Timestamps are milliseconds since the epoch. */
  type Timestamp = int

  /** A stored task. `title`, `description`, `category` and `dueDate` may be
      absent or null (`None`); `user` is the owner and `createdAt` the creation
      time, neither of which any request can change. */
  datatype Task = Task(
    id: TaskId,
    title: Option<string>,
    description: Option<string>,
    category: Option<string>,
    tags: seq<string>,
    priority: string,
    completed: bool,
    dueDate: Option<string>,
    user: UserId,
    createdAt: Timestamp)

  /** The task collection, keyed by identifier. */
  type Store = map<TaskId, Task>

  /** Every record sits under its own identifier. */
  predicate ValidStore(store: Store) {
    forall k :: k in store ==> store[k].id == k
  }

  const DefaultPriority := "Medium"

  /** A body field JavaScript's `||` treats as false: missing, null or "". */
  predicate Falsy(v: Option<string>) {
    v.None? || v.value == ""
  }

  /** JavaScript's `v || fallback` for a string field. */
  function OrElse(v: Option<string>, fallback: string): string {
    if Falsy(v) then fallback else v.value
  }

  /** The fields of a creation request; `None` is a field left out (or null). */
  datatype NewTaskBody = NewTaskBody(
    title: Option<string>,
    description: Option<string>,
    category: Option<string>,
    tags: Option<seq<string>>,
    priority: Option<string>,
    dueDate: Option<string>)

  /** The record a creation request stores: owner is the caller, creation time
      is `now`, a new task is not completed, and falsy optional fields get their
      defaults. */
  function NewTask(body: NewTaskBody, id: TaskId, caller: UserId, now: Timestamp): (t: Task)
    ensures t.id == id && t.user == caller && t.createdAt == now
    ensures !t.completed
    ensures t.title == body.title && t.description == body.description && t.category == body.category
    ensures body.tags.None? ==> t.tags == []
    ensures body.tags.Some? ==> t.tags == body.tags.value
    ensures Falsy(body.priority) ==> t.priority == DefaultPriority
    ensures !Falsy(body.priority) ==> Some(t.priority) == body.priority
    ensures Falsy(body.dueDate) ==> t.dueDate.None?
    ensures !Falsy(body.dueDate) ==> t.dueDate == body.dueDate
  {
    Task(
      id := id,
      title := body.title,
      description := body.description,
      category := body.category,
      tags := body.tags.GetOr([]),
      priority := OrElse(body.priority, DefaultPriority),
      completed := false,
      dueDate := if Falsy(body.dueDate) then None else body.dueDate,
      user := caller,
      createdAt := now)
  }

  /** The fields of an update request. `Some(v)` is a field defined in the body
      (for the nullable fields `v` may itself be null, `None`); `None` is a field
      the body leaves undefined. Owner and creation time have no entry. */
  datatype Patch = Patch(
    title: Option<Option<string>>,
    description: Option<Option<string>>,
    completed: Option<bool>,
    category: Option<Option<string>>,
    tags: Option<seq<string>>,
    priority: Option<string>,
    dueDate: Option<Option<string>>)

  /** The patch of a body that defines none of the updatable fields. */
  const NoChange := Patch(None, None, None, None, None, None, None)

  /** A patch sets exactly the fields it defines; every other field, and the
      identifier, owner and creation time always, keep their prior values. */
  function ApplyPatch(t: Task, p: Patch): (r: Task)
    ensures r.id == t.id && r.user == t.user && r.createdAt == t.createdAt
    ensures r.title == (if p.title.Some? then p.title.value else t.title)
    ensures r.description == (if p.description.Some? then p.description.value else t.description)
    ensures r.completed == (if p.completed.Some? then p.completed.value else t.completed)
    ensures r.category == (if p.category.Some? then p.category.value else t.category)
    ensures r.tags == (if p.tags.Some? then p.tags.value else t.tags)
    ensures r.priority == (if p.priority.Some? then p.priority.value else t.priority)
    ensures r.dueDate == (if p.dueDate.Some? then p.dueDate.value else t.dueDate)
  {
    t.(title := p.title.GetOr(t.title),
       description := p.description.GetOr(t.description),
       completed := p.completed.GetOr(t.completed),
       category := p.category.GetOr(t.category),
       tags := p.tags.GetOr(t.tags),
       priority := p.priority.GetOr(t.priority),
       dueDate := p.dueDate.GetOr(t.dueDate))
  }

  /** The later value wins for every field both patches define. */
  function Later<T>(first: Option<T>, second: Option<T>): Option<T> {
    if second.Some? then second else first
  }

  /** One patch standing for `p` followed by `q`. */
  function Then(p: Patch, q: Patch): Patch {
    Patch(Later(p.title, q.title), Later(p.description, q.description),
          Later(p.completed, q.completed), Later(p.category, q.category),
          Later(p.tags, q.tags), Later(p.priority, q.priority),
          Later(p.dueDate, q.dueDate))
  }

  /** A body that defines no field leaves the record as it was. */
  lemma NoChangeIsIdentity(t: Task)
    ensures ApplyPatch(t, NoChange) == t
  {
  }

  /** Sending the same update twice has the effect of sending it once. */
  lemma ApplyPatchIdempotent(t: Task, p: Patch)
    ensures ApplyPatch(ApplyPatch(t, p), p) == ApplyPatch(t, p)
  {
  }

  /** Two successive updates compose into one, later fields winning. */
  lemma ApplyPatchThen(t: Task, p: Patch, q: Patch)
    ensures ApplyPatch(ApplyPatch(t, p), q) == ApplyPatch(t, Then(p, q))
  {
  }
}
