/** The eight task routes as pure operations on the collection. Each
    by-identifier route first checks that the task exists (a malformed
    identifier counts as missing), then that the caller owns it, and only then
    acts; a rejected request changes nothing. */
module TaskRoutes {
  import opened Options
  import opened ObjectIds
  import opened Tasks
  import opened Queries
  import Text

  /** 200 with a value, 404 "Task not found", 401 "User not authorized". */
  datatype Reply<+T> = Ok(value: T) | NotFound | Unauthorized

  /** A reply together with the collection after the request. */
  datatype Step<+T> = Step(reply: Reply<T>, store: Store)

  /** The confirmation a successful delete returns instead of the record. */
  datatype Removed = TaskRemoved

  /** No stored task answers to the path parameter: it fails the cast, or it
      names no record. */
  predicate Missing(store: Store, raw: string) {
    Cast(raw).None? || Cast(raw).value !in store
  }

  /** The path parameter names a stored task that someone else owns. */
  predicate Foreign(store: Store, caller: UserId, raw: string) {
    !Missing(store, raw) && store[Cast(raw).value].user != caller
  }

  /** The existence check and then the ownership check shared by get, update
      and delete; `Ok` carries the identifier of a task the caller owns. */
  function Guard(store: Store, caller: UserId, raw: string): (r: Reply<TaskId>)
    ensures r.NotFound? <==> Missing(store, raw)
    ensures r.Unauthorized? <==> Foreign(store, caller, raw)
    ensures r.Ok? ==> Cast(raw) == Some(r.value) && r.value in store && store[r.value].user == caller
  {
    match Cast(raw)
    case None => NotFound
    case Some(id) =>
      if id !in store then NotFound
      else if store[id].user != caller then Unauthorized
      else Ok(id)
  }

  /** GET /: the caller's tasks, newest first. */
  method ListTasks(store: Store, caller: UserId) returns (r: seq<Task>)
    requires ValidStore(store)
    ensures Lists(r, store, set k | k in store && store[k].user == caller)
  {
    r := Query(store, (t: Task) => t.user == caller);
  }

  /** POST /: stores a new task owned by the caller under the unused identifier `newId`
      and returns it. */
  function CreateTask(store: Store, caller: UserId, body: NewTaskBody, newId: TaskId, now: Timestamp): (r: Step<Task>)
    requires newId !in store
    ensures r.reply.Ok? && r.reply.value == NewTask(body, newId, caller, now)
    ensures r.store.Keys == store.Keys + {newId} && r.store[newId] == r.reply.value
    ensures forall k :: k in store ==> r.store[k] == store[k]
  {
    var task := NewTask(body, newId, caller, now);
    Step(Ok(task), store[newId := task])
  }

  /** GET /:id: the record, if it exists and the caller owns it. */
  function GetTask(store: Store, caller: UserId, raw: string): (r: Reply<Task>)
    ensures r.NotFound? <==> Missing(store, raw)
    ensures r.Unauthorized? <==> Foreign(store, caller, raw)
    ensures r.Ok? ==> Cast(raw).Some? && r.value == store[Cast(raw).value] && r.value.user == caller
  {
    match Guard(store, caller, raw)
    case Ok(id) => Ok(store[id])
    case NotFound => NotFound
    case Unauthorized => Unauthorized
  }

  /** PUT /:id: applies the patch to a task the caller owns and returns the
      updated record; every other record is untouched. */
  function UpdateTask(store: Store, caller: UserId, raw: string, patch: Patch): (r: Step<Task>)
    ensures r.reply.NotFound? <==> Missing(store, raw)
    ensures r.reply.Unauthorized? <==> Foreign(store, caller, raw)
    ensures !r.reply.Ok? ==> r.store == store
    ensures r.reply.Ok? ==>
      && Cast(raw).Some?
      && var id := Cast(raw).value;
      && id in store && store[id].user == caller
      && r.reply.value == ApplyPatch(store[id], patch)
      && r.store == store[id := r.reply.value]
  {
    match Guard(store, caller, raw)
    case Ok(id) =>
      var task := ApplyPatch(store[id], patch);
      Step(Ok(task), store[id := task])
    case NotFound => Step(NotFound, store)
    case Unauthorized => Step(Unauthorized, store)
  }

  /** DELETE /:id: removes a task the caller owns, and only that task. */
  function DeleteTask(store: Store, caller: UserId, raw: string): (r: Step<Removed>)
    ensures r.reply.NotFound? <==> Missing(store, raw)
    ensures r.reply.Unauthorized? <==> Foreign(store, caller, raw)
    ensures !r.reply.Ok? ==> r.store == store
    ensures r.reply.Ok? ==>
      && Cast(raw).Some?
      && var id := Cast(raw).value;
      && id in store && store[id].user == caller
      && r.store.Keys == store.Keys - {id}
      && |r.store| == |store| - 1
      && (forall k :: k in r.store ==> r.store[k] == store[k])
  {
    match Guard(store, caller, raw)
    case Ok(id) => Step(Ok(TaskRemoved), store - {id})
    case NotFound => Step(NotFound, store)
    case Unauthorized => Step(Unauthorized, store)
  }

  /** GET /category/:category: the caller's tasks whose category is exactly
      the parameter, newest first. */
  method TasksByCategory(store: Store, caller: UserId, category: string) returns (r: seq<Task>)
    requires ValidStore(store)
    ensures Lists(r, store, set k | k in store && store[k].user == caller && store[k].category == Some(category))
  {
    r := Query(store, (t: Task) => t.user == caller && t.category == Some(category));
  }

  /** The completion flag a status token selects: true for the exact,
      case-sensitive token "completed" and false for every other token. */
  function StatusFlag(status: string): (completed: bool)
    ensures completed <==> status == "completed"
  {
    status == "completed"
  }

  /** GET /status/:status: the caller's tasks whose completion flag is true
      for the token "completed" and false for every other token, newest first. */
  method TasksByStatus(store: Store, caller: UserId, status: string) returns (r: seq<Task>)
    requires ValidStore(store)
    ensures status == "completed" ==>
      Lists(r, store, set k | k in store && store[k].user == caller && store[k].completed)
    ensures status != "completed" ==>
      Lists(r, store, set k | k in store && store[k].user == caller && !store[k].completed)
  {
    var completed := StatusFlag(status);
    r := Query(store, (t: Task) => t.user == caller && t.completed == completed);
  }

  /** GET /search/:keyword: the caller's tasks whose title contains the
      keyword, ignoring case, newest first. */
  method SearchTasks(store: Store, caller: UserId, keyword: string) returns (r: seq<Task>)
    requires ValidStore(store)
    ensures Lists(r, store, set k | k in store && store[k].user == caller && store[k].title.Some? &&
                                    exists i :: Text.OccursAt(Text.Fold(store[k].title.value), Text.Fold(keyword), i))
  {
    r := Query(store, (t: Task) => t.user == caller && t.title.Some? && Text.TitleMatches(t.title.value, keyword));
  }
}
