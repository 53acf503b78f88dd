/** Properties that relate several requests: what a later request sees after
    an earlier one, and what no request can change. */
module RouteProperties {
  import opened Options
  import opened ObjectIds
  import opened Tasks
  import opened Queries
  import opened TaskRoutes
  import Text

  /** No record changes identifier, owner or creation time between two
      states of the collection. */
  predicate Stable(before: Store, after: Store) {
    forall k :: k in before && k in after ==>
      after[k].id == before[k].id && after[k].user == before[k].user && after[k].createdAt == before[k].createdAt
  }

  /** The creator can read back the record just created, by its identifier. */
  lemma CreateThenGet(store: Store, caller: UserId, body: NewTaskBody, newId: TaskId, now: Timestamp)
    requires newId !in store
    ensures var s := CreateTask(store, caller, body, newId, now);
            GetTask(s.store, caller, newId) == s.reply
  {
    CastRoundTrip(newId);
  }

  /** Anyone else who asks for a new task is refused. */
  lemma CreatedTaskIsPrivate(store: Store, caller: UserId, other: UserId, body: NewTaskBody, newId: TaskId, now: Timestamp)
    requires newId !in store && other != caller
    ensures GetTask(CreateTask(store, caller, body, newId, now).store, other, newId) == Unauthorized
  {
    CastRoundTrip(newId);
  }

  /** A read after a successful update returns the updated record. */
  lemma UpdateThenGet(store: Store, caller: UserId, raw: string, patch: Patch)
    requires UpdateTask(store, caller, raw, patch).reply.Ok?
    ensures var s := UpdateTask(store, caller, raw, patch);
            GetTask(s.store, caller, raw) == s.reply
  {
  }

  /** Repeating an update changes nothing more. */
  lemma UpdateIdempotent(store: Store, caller: UserId, raw: string, patch: Patch)
    ensures var s := UpdateTask(store, caller, raw, patch);
            UpdateTask(s.store, caller, raw, patch) == s
  {
  }

  /** After a successful delete the same identifier is not found, whoever asks:
      a second delete answers NotFound and leaves the collection alone. */
  lemma DeleteTwice(store: Store, caller: UserId, anyone: UserId, raw: string)
    requires DeleteTask(store, caller, raw).reply.Ok?
    ensures var s := DeleteTask(store, caller, raw).store;
            DeleteTask(s, anyone, raw) == Step(NotFound, s) && GetTask(s, anyone, raw) == NotFound
  {
  }

  /** Create, update and delete never change a surviving record's identifier,
      owner or creation time. */
  lemma HandlersKeepOwners(store: Store, caller: UserId, raw: string, patch: Patch,
                           body: NewTaskBody, newId: TaskId, now: Timestamp)
    requires newId !in store
    ensures Stable(store, CreateTask(store, caller, body, newId, now).store)
    ensures Stable(store, UpdateTask(store, caller, raw, patch).store)
    ensures Stable(store, DeleteTask(store, caller, raw).store)
  {
  }

  /** Create, update and delete keep every record under its own identifier, so
      the list routes stay applicable after any sequence of requests. */
  lemma HandlersKeepStoreValid(store: Store, caller: UserId, raw: string, patch: Patch,
                               body: NewTaskBody, newId: TaskId, now: Timestamp)
    requires ValidStore(store) && newId !in store
    ensures ValidStore(CreateTask(store, caller, body, newId, now).store)
    ensures ValidStore(UpdateTask(store, caller, raw, patch).store)
    ensures ValidStore(DeleteTask(store, caller, raw).store)
  {
  }

  /** A list answer for the caller never shows another user's task, and shows
      every one of the caller's tasks. */
  lemma ListedAreOwned(r: seq<Task>, store: Store, caller: UserId)
    requires Lists(r, store, set k | k in store && store[k].user == caller)
    ensures forall i :: 0 <= i < |r| ==> r[i].user == caller
    ensures forall k :: k in store && store[k].user == caller ==> store[k] in r
  {
    forall i | 0 <= i < |r|
      ensures r[i].user == caller
    {
      assert r[i] in r;
      assert r[i].id in IdsOf(r);
    }
    forall k | k in store && store[k].user == caller
      ensures store[k] in r
    {
      assert k in IdsOf(r);
      var t :| t in r && t.id == k;
    }
  }

  /** The category list is the caller's list with the exact-match filter
      applied, in the same order. */
  lemma CategoryIsFilteredList(r: seq<Task>, store: Store, caller: UserId, category: string)
    requires Lists(r, store, set k | k in store && store[k].user == caller)
    ensures Lists(Filter(r, (t: Task) => t.category == Some(category)), store,
                  set k | k in store && store[k].user == caller && store[k].category == Some(category))
  {
    FilterLists(r, store, set k | k in store && store[k].user == caller, (t: Task) => t.category == Some(category));
  }

  /** The status list is the caller's list filtered on the flag the token
      selects, in the same order. */
  lemma StatusIsFilteredList(r: seq<Task>, store: Store, caller: UserId, status: string)
    requires Lists(r, store, set k | k in store && store[k].user == caller)
    ensures Lists(Filter(r, (t: Task) => t.completed == StatusFlag(status)), store,
                  set k | k in store && store[k].user == caller && store[k].completed == (status == "completed"))
  {
    FilterLists(r, store, set k | k in store && store[k].user == caller, (t: Task) => t.completed == StatusFlag(status));
  }

  /** The keyword "mile" finds "Milestone review" at its start, ignoring case. */
  lemma SearchFindsAtStart()
    ensures Text.TitleMatches("Milestone review", "mile")
  {
    var title := Text.Fold("Milestone review");
    assert title[0] == 'm' && title[1] == 'i' && title[2] == 'l' && title[3] == 'e';
    assert Text.OccursAt(title, Text.Fold("mile"), 0);
  }

  /** The keyword "mile" finds "Submit mile tax" in its middle. */
  lemma SearchFindsInside()
    ensures Text.TitleMatches("Submit mile tax", "mile")
  {
    var title := Text.Fold("Submit mile tax");
    assert title[7] == 'm' && title[8] == 'i' && title[9] == 'l' && title[10] == 'e';
    assert Text.OccursAt(title, Text.Fold("mile"), 7);
  }

  /** The keyword "mile" does not find "Project kickoff": the title has no
      letter m in either case. */
  lemma SearchMissesUnrelated()
    ensures !Text.TitleMatches("Project kickoff", "mile")
  {
    KickoffHasNoM();
    Text.MissingFirstLetter("Project kickoff", "mile");
  }

  /** The title "Project kickoff" has no letter m in either case. */
  lemma KickoffHasNoM()
    ensures forall i :: 0 <= i < |"Project kickoff"| ==> "Project kickoff"[i] != 'm' && "Project kickoff"[i] != 'M'
  {
  }
}
