/**
 * Properties that relate several operations of the task store: what a read
 * sees after a write, idempotence of updates, the state a bulk delete leaves,
 * and the order of a listing.
 */
module StoreProperties {
  import opened Wrappers
  import opened Models
  import opened Decimal
  import opened Etcd
  import opened Gin
  import opened Handlers

  /** Reading the id a successful Create answered with gives back the created task. */
  lemma GetAfterCreate(kv0: map<string, Stored>, kv1: map<string, Stored>, id: int,
                       body: Bound<Task>, emptyTitle: string, r: Response)
    requires CreateOutcome(kv0, kv1, id, body, false, emptyTitle, r)
    requires r.status == StatusCreated
    ensures r.body.TaskJson? && r.body.task.id == Some(id)
    ensures GetTask(kv1, Itoa(id), false) == Response(StatusOK, r.body)
  {
  }

  /** Create with a client-supplied id or an empty title leaves the keyspace as it was. */
  lemma CreateRejectsWithoutWriting(kv0: map<string, Stored>, kv1: map<string, Stored>, id: int,
                                    body: Bound<Task>, putFails: bool, emptyTitle: string, r: Response)
    requires CreateOutcome(kv0, kv1, id, body, putFails, emptyTitle, r)
    requires body.Bound? && (body.value.id.Some? || body.value.title == "")
    ensures r.status == StatusBadRequest && kv1 == kv0
  {
  }

  /** A successful update changes only the title of that one task; id and completed keep their stored values. */
  lemma UpdateChangesOnlyTitle(kv0: map<string, Stored>, kv1: map<string, Stored>, id: string,
                               req: UpdateReq, r: Response)
    requires UpdateOutcome(kv0, kv1, id, Bound(req), false, false, r)
    requires r.status == StatusOK
    ensures PathKey(id) in kv0 && kv0[PathKey(id)].Valid?
    ensures kv1.Keys == kv0.Keys
    ensures kv1[PathKey(id)] == Valid(Task(kv0[PathKey(id)].task.id, req.title, kv0[PathKey(id)].task.completed))
    ensures forall k :: k in kv0 && k != PathKey(id) ==> kv1[k] == kv0[k]
    ensures r.body == UpdateJson(req)
  {
  }

  /** Applying the same update twice leaves the keyspace as applying it once, and answers the same. */
  lemma UpdateIdempotent(kv0: map<string, Stored>, kv1: map<string, Stored>, kv2: map<string, Stored>,
                         id: string, req: UpdateReq, r1: Response, r2: Response)
    requires UpdateOutcome(kv0, kv1, id, Bound(req), false, false, r1) && r1.status == StatusOK
    requires UpdateOutcome(kv1, kv2, id, Bound(req), false, false, r2)
    ensures kv2 == kv1 && r2 == r1
  {
  }

  /** An update of an absent task is 404 whatever the body, and writes nothing. */
  lemma UpdateOfAbsentTask(kv0: map<string, Stored>, kv1: map<string, Stored>, id: string,
                           body: Bound<UpdateReq>, putFails: bool, r: Response)
    requires UpdateOutcome(kv0, kv1, id, body, false, putFails, r)
    requires PathKey(id) !in kv0
    ensures r == Response(StatusNotFound, Error("Task not found")) && kv1 == kv0
  {
  }

  /** After a successful delete, reading the same id finds nothing. */
  lemma GetAfterDelete(kv0: map<string, Stored>, kv1: map<string, Stored>, id: string, r: Response)
    requires DeleteOutcome(kv0, kv1, id, false, false, r) && r.status == StatusOK
    ensures GetTask(kv1, id, false) == Response(StatusNotFound, Error("Task not found"))
    ensures forall k :: k != PathKey(id) ==> (k in kv1 <==> k in kv0)
    ensures forall k :: k != PathKey(id) && k in kv0 ==> kv1[k] == kv0[k]
  {
  }

  /** Every outcome of a bulk delete leaves the keys outside tasks/ as they were. */
  lemma DeleteAllKeepsOtherKeys(kv0: map<string, Stored>, kv1: map<string, Stored>, scanFails: bool,
                                firstFailure: nat, done: int, r: Response, k: string)
    requires DeleteAllOutcome(kv0, kv1, scanFails, firstFailure, done, r)
    requires !HasPrefix(k, Prefix)
    ensures k in kv1 <==> k in kv0
    ensures k in kv1 ==> kv1[k] == kv0[k]
  {
  }

  /**
   * A bulk delete that fails at scanned key number f has removed exactly the
   * keys before it; that key and those after it are still there, unchanged.
   */
  lemma DeleteAllPartialFailure(kv0: map<string, Stored>, kv1: map<string, Stored>,
                                firstFailure: nat, done: int, r: Response)
    requires DeleteAllOutcome(kv0, kv1, false, firstFailure, done, r)
    requires firstFailure < |Range(kv0, Prefix)|
    ensures r.status == StatusInternalServerError
    ensures var keys := Range(kv0, Prefix);
            && (forall i :: 0 <= i < firstFailure ==> keys[i] !in kv1)
            && (forall i :: firstFailure <= i < |keys| ==> keys[i] in kv1 && kv1[keys[i]] == kv0[keys[i]])
  {
  }

  /** A successful bulk delete leaves nothing under tasks/. */
  lemma DeleteAllLeavesNoTasks(kv0: map<string, Stored>, kv1: map<string, Stored>, done: int, r: Response)
    requires DeleteAllOutcome(kv0, kv1, false, |Range(kv0, Prefix)|, done, r)
    requires Range(kv0, Prefix) != []
    ensures r == Response(done, Message("All tasks deleted"))
    ensures Range(kv1, Prefix) == []
  {
  }

  /** Listing after a successful bulk delete answers 200 with no tasks. */
  lemma ListAfterDeleteAll(kv0: map<string, Stored>, kv1: map<string, Stored>, done: int, r: Response, list: Response)
    requires DeleteAllOutcome(kv0, kv1, false, |Range(kv0, Prefix)|, done, r)
    requires Range(kv0, Prefix) != []
    requires ListOutcome(kv1, false, list)
    ensures list == Response(StatusOK, TaskListJson([]))
  {
  }

  /** The ids of the tasks are pairwise distinct and all present. */
  predicate DistinctIds(tasks: seq<Task>)
  {
    && (forall i :: 0 <= i < |tasks| ==> tasks[i].id.Some?)
    && (forall i, j :: 0 <= i < j < |tasks| ==> tasks[i].id != tasks[j].id)
  }

  /**
   * When every task has its own id, a listing is determined: two sequences
   * sorted by id that hold the same tasks are equal.
   */
  lemma {:induction false} SortedListingIsUnique(a: seq<Task>, b: seq<Task>)
    requires SortedById(a) && SortedById(b)
    requires multiset(a) == multiset(b)
    requires DistinctIds(a)
    ensures a == b
    decreases |a|
  {
    if a == [] {
      assert |b| == |multiset(b)| == 0;
    } else {
      SameFirstTask(a, b);
      TailKeepsOrder(a);
      TailKeepsOrder(b);
      TailDistinct(a);
      TailsSameTasks(a, b);
      SortedListingIsUnique(a[1..], b[1..]);
      assert a == [a[0]] + a[1..] && b == [b[0]] + b[1..];
    }
  }

  lemma TailKeepsOrder(a: seq<Task>)
    requires SortedById(a) && a != []
    ensures SortedById(a[1..])
  {
  }

  lemma TailDistinct(a: seq<Task>)
    requires DistinctIds(a) && a != []
    ensures DistinctIds(a[1..])
  {
  }

  lemma TailsSameTasks(a: seq<Task>, b: seq<Task>)
    requires multiset(a) == multiset(b) && a != [] && b != [] && a[0] == b[0]
    ensures multiset(a[1..]) == multiset(b[1..])
  {
    assert a == [a[0]] + a[1..] && b == [b[0]] + b[1..];
    assert multiset(a) == multiset{a[0]} + multiset(a[1..]);
    assert multiset(b) == multiset{b[0]} + multiset(b[1..]);
    calc {
      multiset(a[1..]);
      multiset(a) - multiset{a[0]};
      multiset(b) - multiset{b[0]};
      multiset(b[1..]);
    }
  }

  /** Two listings sorted by id with the same distinct-id tasks start with the same task. */
  lemma SameFirstTask(a: seq<Task>, b: seq<Task>)
    requires SortedById(a) && SortedById(b)
    requires multiset(a) == multiset(b)
    requires DistinctIds(a)
    requires a != []
    ensures b != [] && a[0] == b[0]
  {
    assert a[0] in multiset(b);
    var j :| 0 <= j < |b| && b[j] == a[0];
    assert b[0] in multiset(a);
    var i :| 0 <= i < |a| && a[i] == b[0];
    assert IdOf(a[0]) <= IdOf(a[i]);
    assert IdOf(b[0]) <= IdOf(b[j]);
    assert a[i].id == a[0].id;
  }

  /**
   * Create "Buy milk", read it, mark it completed through Update, delete it,
   * read it again. The update answers with completed = true, but the stored
   * task keeps completed = false.
   */
  method BuyMilk(cli: Client, ids: IdGenerator)
    returns (created: Response, read: Response, updated: Response, reread: Response, deleted: Response, gone: Response)
    requires ids.Valid() && KeysBelow(cli.kv, ids.counter) && ids.counter < MaxInt64
    modifies cli, ids
    ensures var t := Task(Some(old(ids.counter)), "Buy milk", false);
            && created == Response(StatusCreated, TaskJson(t))
            && read == Response(StatusOK, TaskJson(t))
            && updated == Response(StatusOK, UpdateJson(UpdateReq("Buy milk", true)))
            && reread == Response(StatusOK, TaskJson(t))
            && deleted == Response(StatusOK, Message("Task deleted"))
            && gone == Response(StatusNotFound, Error("Task not found"))
    ensures cli.kv == old(cli.kv)
  {
    var id := ids.counter;
    var key := TaskKey(id);
    created := CreateTask(cli, ids, Bound(Task(None, "Buy milk", false)), false);
    read := GetTask(cli.kv, Itoa(id), false);
    updated := UpdateTask(cli, Itoa(id), Bound(UpdateReq("Buy milk", true)), false, false);
    reread := GetTask(cli.kv, Itoa(id), false);
    deleted := DeleteTask(cli, Itoa(id), false, false);
    gone := GetTask(cli.kv, Itoa(id), false);
    assert key !in old(cli.kv);
    assert cli.kv == old(cli.kv);
  }

  /**
   * A freshly started server: an empty keyspace and the counter at 1. The
   * first task created gets id 1, and GET /tasks/1 then finds it.
   */
  method FirstTaskOnFreshServer() returns (created: Response, read: Response)
    ensures created == Response(StatusCreated, TaskJson(Task(Some(1), "Buy milk", false)))
    ensures read == created.(status := StatusOK)
  {
    var cli := new Client();
    var ids := new IdGenerator();
    created := CreateTask(cli, ids, Bound(Task(None, "Buy milk", false)), false);
    assert Itoa(1) == "1";
    read := GetTask(cli.kv, "1", false);
  }
}
