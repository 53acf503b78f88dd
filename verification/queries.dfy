/** Owner-scoped queries over the task collection: select the records that
    satisfy a filter and return them newest first. */
module Queries {
  import opened ObjectIds
  import opened Tasks

  /** The identifiers of the records in a result. */
  function IdsOf(r: seq<Task>): set<TaskId> {
    set t | t in r :: t.id
  }

  /** Every record of the result is the one stored under its identifier. */
  predicate FromStore(r: seq<Task>, store: Store) {
    forall i :: 0 <= i < |r| ==> r[i].id in store && store[r[i].id] == r[i]
  }

  predicate DistinctIds(r: seq<Task>) {
    forall i, j :: 0 <= i < j < |r| ==> r[i].id != r[j].id
  }

  /** Ordered by creation time, descending. */
  predicate NewestFirst(r: seq<Task>) {
    forall i, j :: 0 <= i < j < |r| ==> r[i].createdAt >= r[j].createdAt
  }

  /** `r` answers a query whose matching identifiers are `want`: it holds each
      matching stored record exactly once, nothing else, newest first. */
  predicate Lists(r: seq<Task>, store: Store, want: set<TaskId>) {
    FromStore(r, store) && DistinctIds(r) && NewestFirst(r) && IdsOf(r) == want
  }

  /** The identifiers of the stored records a filter keeps. */
  function Matching(store: Store, keep: Task -> bool): set<TaskId> {
    set k | k in store && keep(store[k])
  }

  /** The pending identifier whose record was created last. */
  method Newest(store: Store, pending: set<TaskId>) returns (k: TaskId)
    requires pending != {}
    requires pending <= store.Keys
    ensures k in pending
    ensures forall j :: j in pending ==> store[j].createdAt <= store[k].createdAt
  {
    k :| k in pending;
    var rest := pending - {k};
    while rest != {}
      invariant rest <= pending && k in pending
      invariant forall j :: j in pending - rest ==> store[j].createdAt <= store[k].createdAt
      decreases rest
    {
      var j :| j in rest;
      if store[j].createdAt > store[k].createdAt {
        k := j;
      }
      rest := rest - {j};
    }
  }

  /** The records a filter keeps, newest first (a find followed by a sort on
      creation time, descending). */
  method Query(store: Store, keep: Task -> bool) returns (r: seq<Task>)
    requires ValidStore(store)
    ensures Lists(r, store, Matching(store, keep))
  {
    ghost var want := Matching(store, keep);
    var pending := set k | k in store && keep(store[k]);
    r := [];
    while pending != {}
      invariant pending <= want
      invariant FromStore(r, store) && DistinctIds(r) && NewestFirst(r)
      invariant IdsOf(r) == want - pending
      invariant forall i, k :: 0 <= i < |r| && k in pending ==> store[k].createdAt <= r[i].createdAt
      decreases pending
    {
      var k := Newest(store, pending);
      assert k !in IdsOf(r);
      r := r + [store[k]];
      assert IdsOf(r) == IdsOf(r[..|r| - 1]) + {k};
      pending := pending - {k};
    }
  }

  /** The records of `r` a filter keeps, in their order. */
  function Filter(r: seq<Task>, keep: Task -> bool): seq<Task> {
    if r == [] then []
    else if keep(r[0]) then [r[0]] + Filter(r[1..], keep)
    else Filter(r[1..], keep)
  }

  lemma {:induction false} FilterSubset(r: seq<Task>, keep: Task -> bool)
    ensures forall t :: t in Filter(r, keep) ==> t in r && keep(t)
  {
    if r != [] {
      FilterSubset(r[1..], keep);
    }
  }

  /** Filtering an answer answers the narrower query: a filtered list is the
      full list with the filter applied, in the same order. */
  lemma {:induction false} FilterLists(r: seq<Task>, store: Store, want: set<TaskId>, keep: Task -> bool)
    requires Lists(r, store, want)
    ensures Lists(Filter(r, keep), store, set k | k in want && keep(store[k]))
  {
    if r == [] {
      assert want == {};
    } else {
      var tail := r[1..];
      var k0 := r[0].id;
      assert IdsOf(r) == {k0} + IdsOf(tail);
      assert k0 !in IdsOf(tail);
      FilterLists(tail, store, want - {k0}, keep);
      FilterSubset(tail, keep);
      var f := Filter(r, keep);
      if keep(r[0]) {
        assert f == [r[0]] + Filter(tail, keep);
        assert IdsOf(f) == {k0} + IdsOf(Filter(tail, keep));
        forall j | 1 <= j < |f|
          ensures f[0].id != f[j].id && f[0].createdAt >= f[j].createdAt
        {
          assert f[j] in tail;
        }
      }
    }
  }

  /** An answer holds as many records as there are matching identifiers. */
  lemma {:induction false} ListsLength(r: seq<Task>, store: Store, want: set<TaskId>)
    requires Lists(r, store, want)
    ensures |r| == |want|
  {
    if r != [] {
      var k0 := r[0].id;
      assert IdsOf(r) == {k0} + IdsOf(r[1..]);
      assert k0 !in IdsOf(r[1..]);
      ListsLength(r[1..], store, want - {k0});
    }
  }

  /** The head of a non-empty answer is a newest matching record, and the
      rest answers the query without it. */
  lemma ListsHead(r: seq<Task>, store: Store, want: set<TaskId>)
    requires Lists(r, store, want) && r != []
    ensures r[0].id in want
    ensures forall k :: k in want ==> store[k].createdAt <= r[0].createdAt
    ensures Lists(r[1..], store, want - {r[0].id})
  {
    assert r[0] in r;
    assert IdsOf(r) == {r[0].id} + IdsOf(r[1..]);
    assert r[0].id !in IdsOf(r[1..]);
  }

  /** Two answers to one query start with the same record when no two
      matching records share a creation time. */
  lemma SameHead(a: seq<Task>, b: seq<Task>, store: Store, want: set<TaskId>)
    requires Lists(a, store, want) && Lists(b, store, want) && a != [] && b != []
    requires forall j, k :: j in want && k in want && j != k ==> store[j].createdAt != store[k].createdAt
    ensures a[0] == b[0]
  {
    ListsHead(a, store, want);
    ListsHead(b, store, want);
    var ka, kb := a[0].id, b[0].id;
    assert store[ka] == a[0] && store[kb] == b[0];
    assert store[kb].createdAt <= store[ka].createdAt <= store[kb].createdAt;
  }

  /** The contract of a query determines its answer: when no two matching
      records share a creation time, any two answers are the same sequence. */
  lemma {:induction false} ListsUnique(a: seq<Task>, b: seq<Task>, store: Store, want: set<TaskId>)
    requires Lists(a, store, want) && Lists(b, store, want)
    requires forall j, k :: j in want && k in want && j != k ==> store[j].createdAt != store[k].createdAt
    ensures a == b
  {
    ListsLength(a, store, want);
    ListsLength(b, store, want);
    if a != [] {
      SameHead(a, b, store, want);
      ListsHead(a, store, want);
      ListsHead(b, store, want);
      ListsUnique(a[1..], b[1..], store, want - {a[0].id});
      assert a == [a[0]] + a[1..] && b == [b[0]] + b[1..];
    }
  }
}
